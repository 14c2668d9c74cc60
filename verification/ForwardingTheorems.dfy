/** What forwarding promises over every run: no second mailbox row, no false `delivered`, no return from a final state. */
module ForwardingTheorems {
  import opened Wrappers
  import opened ForwardingState

  // ----- the invariant --------------------------------------------------------------------

  /** A claimed id is claimed once; its row, if still there, is not final, and if it is the same row it says the same. */
  predicate ClaimInv(w: World, c: Claim) {
    && c.row.serial < w.serial
    && (c.id in w.outbox ==>
          && !Final(w.outbox[c.id].state)
          && (w.outbox[c.id].serial == c.row.serial ==> w.outbox[c.id].content == c.row.content))
  }

  predicate ClaimsInv(w: World) {
    && (forall i :: 0 <= i < |w.claims| ==> ClaimInv(w, w.claims[i]))
    && (forall i, j :: 0 <= i < j < |w.claims| ==> w.claims[i].id != w.claims[j].id)
    && (w.flight.Some? ==>
          && ClaimInv(w, w.flight.value)
          && (w.posted ==>
                && w.nonce > 0
                && Request(w.flight.value.id, w.flight.value.row.content, w.flight.value.row.expires, w.nonce - 1) in w.requests)
          && forall i :: 0 <= i < |w.claims| ==> w.claims[i].id != w.flight.value.id)
  }

  /** Nonces are used once, and an acceptance answers a request whose content was stored. */
  ghost predicate WireInv(w: World) {
    && (forall q :: q in w.requests ==> q.nonce < w.nonce)
    && (forall q, p :: q in w.requests && p in w.requests && q.nonce == p.nonce ==> q == p)
    && (forall a :: a in w.acceptances ==> Answered(w, a))
    && (forall id :: id in w.mailbox ==> (id, w.mailbox[id]) in w.stored)
  }

  ghost predicate Answered(w: World, a: Acceptance) {
    exists q :: q in w.requests && q.nonce == a.nonce && q.id == a.id && (q.id, q.content) in w.stored
  }

  predicate SerialInv(w: World) {
    && (forall id :: id in w.outbox ==> w.outbox[id].serial < w.serial)
    && (forall x, y :: x in w.outbox && y in w.outbox && w.outbox[x].serial == w.outbox[y].serial ==> x == y)
  }

  ghost predicate Inv(w: World) {
    ClaimsInv(w) && WireInv(w) && SerialInv(w)
  }

  /** The flight's row was pruned under it and the id reused for another row. */
  predicate Crossed(w: World) {
    && w.flight.Some? && w.flight.value.id in w.outbox
    && w.outbox[w.flight.value.id].serial != w.flight.value.row.serial
  }

  // ----- preservation ---------------------------------------------------------------------

  lemma OutboxOnlyKeepsWire(w: World, u: World)
    requires WireInv(w) && u.requests == w.requests && u.nonce == w.nonce && u.stored == w.stored
    requires u.acceptances == w.acceptances && u.mailbox == w.mailbox
    ensures WireInv(u)
  {
    forall a | a in u.acceptances ensures Answered(u, a) {
      assert Answered(w, a);
    }
  }

  /** Changes that spare the claimed rows' identity and finality keep every claim. */
  lemma ClaimsSurvive(w: World, u: World)
    requires ClaimsInv(w) && u.claims == w.claims && u.flight == w.flight && u.requests == w.requests && u.nonce == w.nonce
    requires u.posted == w.posted && w.serial <= u.serial
    requires forall id :: id in u.outbox ==>
      || (w.serial <= u.outbox[id].serial && !Final(u.outbox[id].state))
      || (id in w.outbox && u.outbox[id].serial == w.outbox[id].serial && u.outbox[id].content == w.outbox[id].content
          && (Final(u.outbox[id].state) ==> Final(w.outbox[id].state)))
    ensures ClaimsInv(u)
  {
    forall i | 0 <= i < |u.claims| ensures ClaimInv(u, u.claims[i]) {
      assert ClaimInv(w, w.claims[i]);
    }
  }

  lemma SendKeepsInv(w: World, op: Op)
    requires Inv(w) && op.DoSend?
    ensures Inv(Step(w, op))
  {
    OutboxOnlyKeepsWire(w, Step(w, op));
    ClaimsSurvive(w, Step(w, op));
  }

  lemma SweepKeepsInv(w: World, now: real)
    requires Inv(w)
    ensures Inv(Step(w, DoSweep(now)))
  {
    OutboxOnlyKeepsWire(w, Step(w, DoSweep(now)));
    ClaimsSurvive(w, Step(w, DoSweep(now)));
  }

  lemma ClaimKeepsInv(w: World, ids: seq<string>, now: real)
    requires Inv(w)
    ensures Inv(Step(w, DoClaim(ids, now)))
  {
    var u := Step(w, DoClaim(ids, now));
    OutboxOnlyKeepsWire(w, u);
    if w.claims == [] && w.flight == None && Selection(Lapsed(w.outbox, now), ids, now) {
      forall i | 0 <= i < |u.claims| ensures ClaimInv(u, u.claims[i]) {
        assert u.claims[i].id == ids[i] && ids[i] in ids;
      }
    }
  }

  lemma StartKeepsInv(w: World, now: real)
    requires Inv(w)
    ensures Inv(Start(w, now))
  {
    var u := Start(w, now);
    OutboxOnlyKeepsWire(w, u);
    if w.flight == None && w.claims != [] {
      var c := w.claims[0];
      assert ClaimInv(w, c);
      forall i | 0 <= i < |u.claims| ensures ClaimInv(u, u.claims[i]) {
        assert u.claims[i] == w.claims[i + 1];
        assert ClaimInv(w, w.claims[i + 1]);
      }
    }
  }

  lemma PostKeepsInv(w: World)
    requires Inv(w)
    ensures Inv(Post(w))
  {
    var u := Post(w);
    forall i | 0 <= i < |u.claims| ensures ClaimInv(u, u.claims[i]) {
      assert ClaimInv(w, w.claims[i]);
    }
    forall a | a in u.acceptances ensures Answered(u, a) {
      assert Answered(w, a);
      var q :| q in w.requests && q.nonce == a.nonce && q.id == a.id && (q.id, q.content) in w.stored;
      assert q in u.requests;
    }
  }

  lemma FinishKeepsInv(w: World, o: Outcome, now: real)
    requires Inv(w)
    ensures Inv(Finish(w, o, now))
  {
    var u := Finish(w, o, now);
    OutboxOnlyKeepsWire(w, u);
    FinishKeepsClaims(w, o, now);
    FinishKeepsSerials(w, o, now);
  }

  lemma FinishKeepsSerials(w: World, o: Outcome, now: real)
    requires SerialInv(w)
    ensures SerialInv(Finish(w, o, now))
  {
    var u := Finish(w, o, now);
    assert u.outbox.Keys == w.outbox.Keys;
    assert forall id :: id in w.outbox ==> u.outbox[id].serial == w.outbox[id].serial;
  }

  lemma FinishKeepsClaims(w: World, o: Outcome, now: real)
    requires ClaimsInv(w)
    ensures ClaimsInv(Finish(w, o, now))
  {
    var u := Finish(w, o, now);
    forall i | 0 <= i < |u.claims| ensures ClaimInv(u, u.claims[i]) {
      assert ClaimInv(w, w.claims[i]);
    }
  }

  lemma DeliverKeepsInv(w: World, q: Request, admits: bool, room: bool)
    requires Inv(w)
    ensures Inv(Deliver(w, q, admits, room))
  {
    var u := Deliver(w, q, admits, room);
    ClaimsSurvive(w, u);
    assert w.stored <= u.stored;
    forall a | a in u.acceptances ensures Answered(u, a) {
      if a in w.acceptances {
        assert Answered(w, a);
        var p :| p in w.requests && p.nonce == a.nonce && p.id == a.id && (p.id, p.content) in w.stored;
        assert p in u.requests && (p.id, p.content) in u.stored;
      } else {
        assert q in u.requests && (q.id, q.content) in u.stored;
      }
    }
  }

  lemma MailboxKeepsInv(w: World, op: Op)
    requires Inv(w) && (op.DoLocal? || op.DoRemove?)
    ensures Inv(Step(w, op))
  {
    var u := Step(w, op);
    ClaimsSurvive(w, u);
    forall a | a in u.acceptances ensures Answered(u, a) {
      assert Answered(w, a);
      var p :| p in w.requests && p.nonce == a.nonce && p.id == a.id && (p.id, p.content) in w.stored;
      assert p in u.requests && (p.id, p.content) in u.stored;
    }
  }

  lemma StepKeepsInv(w: World, op: Op)
    requires Inv(w)
    ensures Inv(Step(w, op))
  {
    match op
    case DoSend(_, _, _, _, _, _, _) => SendKeepsInv(w, op);
    case DoSweep(now) => SweepKeepsInv(w, now);
    case DoClaim(ids, now) => ClaimKeepsInv(w, ids, now);
    case DoStart(now) => StartKeepsInv(w, now);
    case DoPost => PostKeepsInv(w);
    case DoFinish(o, now) => FinishKeepsInv(w, o, now);
    case DoCrash => OutboxOnlyKeepsWire(w, Step(w, op));
    case DoDeliver(q, admits, room) => DeliverKeepsInv(w, q, admits, room);
    case DoLocal(_, _) => MailboxKeepsInv(w, op);
    case DoRemove(_) => MailboxKeepsInv(w, op);
  }

  lemma {:induction false} RunKeepsInv(w: World, ops: seq<Op>)
    requires Inv(w)
    ensures Inv(Run(w, ops))
    decreases |ops|
  {
    if ops != [] {
      StepKeepsInv(w, ops[0]);
      RunKeepsInv(Step(w, ops[0]), ops[1..]);
    }
  }

  // ----- delivered means stored -----------------------------------------------------------

  /** Every delivered row names something the destination stored under its id. */
  predicate DeliveredStored(w: World) {
    forall id :: id in w.outbox && w.outbox[id].state == Delivered ==> (id, w.outbox[id].content) in w.stored
  }

  /** Nowhere in the run does an attempt end after its row was pruned and its id reused. */
  predicate NeverCrossed(w: World, ops: seq<Op>)
    decreases |ops|
  {
    ops == [] || (!(ops[0].DoFinish? && Crossed(w)) && NeverCrossed(Step(w, ops[0]), ops[1..]))
  }

  /** A proven attempt marks its row delivered, and the row's own content was stored unless the id was reused. */
  lemma ProofOfDelivery(w: World, now: real)
    requires Inv(w) && Possible(w, Proven)
    ensures (w.flight.value.id, w.flight.value.row.content) in w.stored
    ensures var id := w.flight.value.id; var u := Finish(w, Proven, now);
      id in w.outbox ==> u.outbox[id].state == Delivered && (!Crossed(w) ==> (id, u.outbox[id].content) in u.stored)
  {
    var c := w.flight.value;
    var a := Acceptance(w.nonce - 1, c.id);
    assert Answered(w, a);
    var q :| q in w.requests && q.nonce == a.nonce && q.id == a.id && (q.id, q.content) in w.stored;
    assert q == Request(c.id, c.row.content, c.row.expires, w.nonce - 1);
  }

  /**
  A proven attempt marks delivered whatever row its id has by then; that row was stored if and only if it
  still says what was claimed, or its own content had been stored under the id before.
  */
  lemma DeliveredExactly(w: World, now: real)
    requires Inv(w) && Possible(w, Proven) && w.flight.value.id in w.outbox
    ensures var id := w.flight.value.id; var u := Finish(w, Proven, now); var row := u.outbox[id];
      && row.state == Delivered && row.content == w.outbox[id].content
      && ((id, row.content) in u.stored <==>
            row.content == w.flight.value.row.content || (id, row.content) in w.stored)
  {
    ProofOfDelivery(w, now);
  }

  /** The attempt proves another content than its row has by then, and that was never stored. */
  predicate Misattributes(w: World, op: Op) {
    && op.DoFinish? && op.outcome.Proven? && Possible(w, Proven) && w.flight.value.id in w.outbox
    && var id, c := w.flight.value.id, w.outbox[w.flight.value.id].content;
       c != w.flight.value.row.content && (id, c) !in w.stored
  }

  lemma OthersDeliver(w: World, op: Op)
    requires DeliveredStored(w) && !op.DoFinish?
    ensures DeliveredStored(Step(w, op))
  {
    var u := Step(w, op);
    forall id | id in u.outbox && u.outbox[id].state == Delivered ensures (id, u.outbox[id].content) in u.stored {
      assert id in w.outbox && w.outbox[id].state == Delivered && w.outbox[id].content == u.outbox[id].content;
    }
  }

  lemma StepDeliversExactly(w: World, op: Op)
    requires Inv(w) && DeliveredStored(w)
    ensures DeliveredStored(Step(w, op)) <==> !Misattributes(w, op)
    ensures op.DoFinish? && !Crossed(w) ==> !Misattributes(w, op)
  {
    if op.DoFinish? {
      if op.outcome.Proven? && Possible(w, op.outcome) && w.flight.value.id in w.outbox {
        DeliveredExactly(w, op.now);
        assert ClaimInv(w, w.flight.value);
      }
    } else {
      OthersDeliver(w, op);
    }
  }

  predicate AlwaysStored(w: World, ops: seq<Op>)
    decreases |ops|
  {
    DeliveredStored(w) && (ops == [] || AlwaysStored(Step(w, ops[0]), ops[1..]))
  }

  predicate NeverMisattributed(w: World, ops: seq<Op>)
    decreases |ops|
  {
    ops == [] || (!Misattributes(w, ops[0]) && NeverMisattributed(Step(w, ops[0]), ops[1..]))
  }

  /** All along a run delivered rows are stored if and only if no attempt proves another content than its row has. */
  lemma {:induction false} AlwaysStoredExactly(w: World, ops: seq<Op>)
    requires Inv(w) && DeliveredStored(w)
    ensures AlwaysStored(w, ops) <==> NeverMisattributed(w, ops)
    decreases |ops|
  {
    if ops != [] {
      StepDeliversExactly(w, ops[0]);
      StepKeepsInv(w, ops[0]);
      if !Misattributes(w, ops[0]) {
        AlwaysStoredExactly(Step(w, ops[0]), ops[1..]);
      }
    }
  }

  /** `delivered` at the source implies that the destination stored the same id, sender, payload and version. */
  lemma {:induction false} DeliveredWasStored(w: World, ops: seq<Op>)
    requires Inv(w) && DeliveredStored(w) && NeverCrossed(w, ops)
    ensures DeliveredStored(Run(w, ops))
    decreases |ops|
  {
    if ops != [] {
      StepDeliversExactly(w, ops[0]);
      StepKeepsInv(w, ops[0]);
      DeliveredWasStored(Step(w, ops[0]), ops[1..]);
    }
  }

  /** Without a sweep while claims are held no row is ever pruned under its attempt. */
  predicate Steady(w: World) {
    && (forall i :: 0 <= i < |w.claims| ==> Rooted(w, w.claims[i]))
    && (w.flight.Some? ==> Rooted(w, w.flight.value))
  }

  predicate Rooted(w: World, c: Claim) {
    c.id in w.outbox && w.outbox[c.id].serial == c.row.serial
  }

  predicate SweepsWhileIdle(w: World, ops: seq<Op>)
    decreases |ops|
  {
    ops == [] || ((ops[0].DoSweep? ==> w.claims == [] && w.flight == None) && SweepsWhileIdle(Step(w, ops[0]), ops[1..]))
  }

  lemma StepStaysSteady(w: World, op: Op)
    requires Steady(w) && (op.DoSweep? ==> w.claims == [] && w.flight == None)
    ensures Steady(Step(w, op))
  {
    var u := Step(w, op);
    match op
    case DoClaim(ids, now) =>
      if w.claims == [] && w.flight == None && Selection(Lapsed(w.outbox, now), ids, now) {
        forall i | 0 <= i < |u.claims| ensures Rooted(u, u.claims[i]) {
          assert u.claims[i].id == ids[i] && ids[i] in ids;
        }
      }
    case DoStart(now) =>
      if w.flight == None && w.claims != [] {
        assert Rooted(w, w.claims[0]);
        forall i | 0 <= i < |u.claims| ensures Rooted(u, u.claims[i]) {
          assert u.claims[i] == w.claims[i + 1];
          assert Rooted(w, w.claims[i + 1]);
        }
      }
    case _ =>
  }

  lemma {:induction false} IdleSweepsNeverCross(w: World, ops: seq<Op>)
    requires Steady(w) && SweepsWhileIdle(w, ops)
    ensures NeverCrossed(w, ops)
    decreases |ops|
  {
    if ops != [] {
      StepStaysSteady(w, ops[0]);
      IdleSweepsNeverCross(Step(w, ops[0]), ops[1..]);
    }
  }

  // ----- final states ---------------------------------------------------------------------

  /** A row that is delivered, rejected or failed: while it exists, it is this row. */
  predicate Settled(w: World, id: string, row: Row) {
    row.serial < w.serial && (id in w.outbox && w.outbox[id].serial == row.serial ==> w.outbox[id] == row)
  }

  lemma StepKeepsSettled(w: World, op: Op, id: string, row: Row)
    requires Inv(w) && Final(row.state) && Settled(w, id, row)
    ensures Settled(Step(w, op), id, row)
  {
    match op
    case DoFinish(o, now) =>
      if w.flight.Some? {
        assert ClaimInv(w, w.flight.value);
      }
    case DoStart(now) =>
      if w.claims != [] {
        assert ClaimInv(w, w.claims[0]);
      }
    case DoClaim(ids, now) =>
    case _ =>
  }

  /** Delivered, rejected and failed rows never move again under one forwarder. */
  lemma {:induction false} FinalRowsNeverMove(w: World, ops: seq<Op>, id: string, row: Row)
    requires Inv(w) && Final(row.state) && Settled(w, id, row)
    ensures Settled(Run(w, ops), id, row)
    decreases |ops|
  {
    if ops != [] {
      StepKeepsSettled(w, ops[0], id, row);
      StepKeepsInv(w, ops[0]);
      FinalRowsNeverMove(Step(w, ops[0]), ops[1..], id, row);
    }
  }

  // ----- the destination ------------------------------------------------------------------

  /** While the destination retains a message, no redelivery and no other lane replaces it. */
  lemma {:induction false} RetainedMailIsStable(w: World, ops: seq<Op>, id: string)
    requires id in w.mailbox && forall i :: 0 <= i < |ops| ==> ops[i] != DoRemove(id)
    ensures id in Run(w, ops).mailbox && Run(w, ops).mailbox[id] == w.mailbox[id]
    decreases |ops|
  {
    if ops != [] {
      assert ops[0] != DoRemove(id);
      var u := Step(w, ops[0]);
      assert id in u.mailbox && u.mailbox[id] == w.mailbox[id];
      forall i | 0 <= i < |ops[1..]| ensures ops[1..][i] != DoRemove(id) {
        assert ops[i + 1] != DoRemove(id);
      }
      RetainedMailIsStable(u, ops[1..], id);
    }
  }

  // ----- expired rows ---------------------------------------------------------------------

  /** The attempt under way or a held claim names the id. */
  predicate Named(w: World, id: string) {
    (w.flight.Some? && w.flight.value.id == id) || exists i :: 0 <= i < |w.claims| && w.claims[i].id == id
  }

  /** While the row exists, it is this row, and nothing names it. */
  predicate Kept(w: World, id: string, row: Row) {
    row.serial < w.serial && (id in w.outbox && w.outbox[id].serial == row.serial ==> w.outbox[id] == row && !Named(w, id))
  }

  lemma ClaimKeepsExpired(w: World, ids: seq<string>, now: real, id: string, row: Row)
    requires row.state == Expired && Kept(w, id, row)
    ensures Kept(Step(w, DoClaim(ids, now)), id, row)
  {
    var u := Step(w, DoClaim(ids, now));
    if w.claims == [] && w.flight == None && Selection(Lapsed(w.outbox, now), ids, now)
       && id in u.outbox && u.outbox[id].serial == row.serial
    {
      assert Lapsed(w.outbox, now)[id] == row;
      assert id !in ids;
      forall i | 0 <= i < |u.claims| ensures u.claims[i].id != id {
        assert u.claims[i].id == ids[i];
      }
    }
  }

  lemma StartKeepsExpired(w: World, now: real, id: string, row: Row)
    requires Kept(w, id, row)
    ensures Kept(Start(w, now), id, row)
  {
    var u := Start(w, now);
    if w.flight == None && w.claims != [] && id in u.outbox && u.outbox[id].serial == row.serial {
      assert id in w.outbox && w.outbox[id].serial == row.serial;
      assert w.claims[0].id != id;
      forall i | 0 <= i < |u.claims| ensures u.claims[i].id != id {
        assert u.claims[i] == w.claims[i + 1];
      }
    }
  }

  lemma StepKeepsExpired(w: World, op: Op, id: string, row: Row)
    requires row.state == Expired && Kept(w, id, row)
    ensures Kept(Step(w, op), id, row)
  {
    match op
    case DoClaim(ids, now) => ClaimKeepsExpired(w, ids, now, id, row);
    case DoStart(now) => StartKeepsExpired(w, now, id, row);
    case _ =>
  }

  lemma {:induction false} ExpiredIsKept(w: World, ops: seq<Op>, id: string, row: Row)
    requires row.state == Expired && Kept(w, id, row)
    ensures Kept(Run(w, ops), id, row)
    decreases |ops|
  {
    if ops != [] {
      StepKeepsExpired(w, ops[0], id, row);
      ExpiredIsKept(Step(w, ops[0]), ops[1..], id, row);
    }
  }

  lemma {:induction false} RunSplit(w: World, a: seq<Op>, b: seq<Op>)
    ensures Run(w, a + b) == Run(Run(w, a), b)
    decreases |a|
  {
    if a == [] {
      assert a + b == b;
    } else {
      assert (a + b)[0] == a[0] && (a + b)[1..] == a[1..] + b;
      RunSplit(Step(w, a[0]), a[1..], b);
    }
  }

  lemma RunOne(w: World, op: Op)
    ensures Run(w, [op]) == Step(w, op)
  {
    assert [op][1..] == [];
  }

  lemma RunTwo(w: World, x: Op, y: Op)
    ensures Run(w, [x, y]) == Step(Step(w, x), y)
  {
    assert [x, y][1..] == [y];
    RunOne(Step(w, x), y);
  }

  /** The head claim is started in time and its attempt raises. */
  lemma HeadRaises(w: World, now: real)
    requires Inv(w) && w.flight == None && w.claims != [] && now < w.claims[0].row.expires
    ensures var c := w.claims[0]; var u := Run(w, [DoStart(now), DoFinish(Raised, now)]);
      && Inv(u) && u.flight == None && u.claims == w.claims[1..] && u.outbox.Keys == w.outbox.Keys
      && (forall id :: id in w.outbox && id != c.id ==> u.outbox[id] == w.outbox[id])
      && (c.id in w.outbox ==> u.outbox[c.id].state == Queued && u.outbox[c.id].serial == w.outbox[c.id].serial)
  {
    RunTwo(w, DoStart(now), DoFinish(Raised, now));
    StepKeepsInv(w, DoStart(now));
    StepKeepsInv(Step(w, DoStart(now)), DoFinish(Raised, now));
  }

  /** Letting the claims before it raise, a claimed row comes back to the queue. */
  lemma {:induction false} ClaimedRowReturns(w: World, id: string) returns (ops: seq<Op>)
    requires Inv(w) && w.flight == None && Named(w, id) && id in w.outbox
    ensures var u := Run(w, ops); id in u.outbox && u.outbox[id].serial == w.outbox[id].serial && u.outbox[id].state == Queued
    decreases |w.claims|
  {
    var c := w.claims[0];
    var now := c.row.expires - 1.0;
    ops := [DoStart(now), DoFinish(Raised, now)];
    HeadRaises(w, now);
    if c.id != id {
      var u := Run(w, ops);
      var i :| 0 <= i < |w.claims| && w.claims[i].id == id;
      assert u.claims[i - 1].id == id;
      var rest := ClaimedRowReturns(u, id);
      RunSplit(w, ops, rest);
      ops := ops + rest;
    }
  }

  lemma NamedRowReturns(w: World, id: string) returns (ops: seq<Op>)
    requires Inv(w) && Named(w, id) && id in w.outbox
    ensures var u := Run(w, ops); id in u.outbox && u.outbox[id].serial == w.outbox[id].serial && u.outbox[id].state == Queued
  {
    if w.flight == None {
      ops := ClaimedRowReturns(w, id);
    } else {
      var raise := DoFinish(Raised, 0.0);
      var u := Step(w, raise);
      RunOne(w, raise);
      StepKeepsInv(w, raise);
      ops := [raise];
      if w.flight.value.id != id {
        assert u.claims == w.claims && Named(u, id);
        var rest := ClaimedRowReturns(u, id);
        RunSplit(w, [raise], rest);
        ops := [raise] + rest;
      }
    }
  }

  /** The run changes the row of this id while it is still the same row. */
  predicate Moves(w: World, ops: seq<Op>, id: string)
    requires id in w.outbox
  {
    var u := Run(w, ops);
    id in u.outbox && u.outbox[id].serial == w.outbox[id].serial && u.outbox[id] != w.outbox[id]
  }

  /** An expired row can move again if and only if an attempt or a held claim names its id. */
  lemma ExpiredMovesExactly(w: World, id: string)
    requires Inv(w) && id in w.outbox && w.outbox[id].state == Expired
    ensures (exists ops :: Moves(w, ops, id)) <==> Named(w, id)
  {
    if Named(w, id) {
      var ops := NamedRowReturns(w, id);
      assert Moves(w, ops, id);
    } else {
      forall ops ensures !Moves(w, ops, id) {
        ExpiredIsKept(w, ops, id, w.outbox[id]);
      }
    }
  }

  // ----- rejected rows --------------------------------------------------------------------

  /** A request with this id and content has been on the wire. */
  predicate Wired(w: World, id: string, c: Content) {
    exists q :: q in w.requests && q.id == id && q.content == c
  }

  /** The content is not sent again under the id: not from here, and not by the destination's own lane. */
  predicate Avoids(ops: seq<Op>, id: string, c: Content) {
    forall i :: 0 <= i < |ops| ==>
      && ops[i] != DoLocal(id, c)
      && !(ops[i].DoSend? && ops[i].id == id && ops[i].content == c)
  }

  /** Never sent, not stored, not claimed, and no row with it may be claimed any more. */
  predicate Unsent(w: World, id: string, c: Content) {
    && !Wired(w, id, c) && (id, c) !in w.stored
    && (w.flight.Some? ==> !(w.flight.value.id == id && w.flight.value.row.content == c))
    && (forall i :: 0 <= i < |w.claims| ==> !(w.claims[i].id == id && w.claims[i].row.content == c))
    && (id in w.outbox && w.outbox[id].content == c ==> Final(w.outbox[id].state))
  }

  lemma ClaimKeepsUnsent(w: World, ids: seq<string>, now: real, id: string, c: Content)
    requires Unsent(w, id, c)
    ensures Unsent(Step(w, DoClaim(ids, now)), id, c)
  {
    var u := Step(w, DoClaim(ids, now));
    if w.claims == [] && w.flight == None && Selection(Lapsed(w.outbox, now), ids, now) {
      forall i | 0 <= i < |u.claims| ensures !(u.claims[i].id == id && u.claims[i].row.content == c) {
        assert u.claims[i] == Claim(ids[i], Lapsed(w.outbox, now)[ids[i]]) && ids[i] in ids;
      }
    }
  }

  lemma StartKeepsUnsent(w: World, now: real, id: string, c: Content)
    requires Inv(w) && Unsent(w, id, c)
    ensures Unsent(Start(w, now), id, c)
  {
    var u := Start(w, now);
    if w.flight == None && w.claims != [] {
      assert ClaimInv(w, w.claims[0]);
      forall i | 0 <= i < |u.claims| ensures !(u.claims[i].id == id && u.claims[i].row.content == c) {
        assert u.claims[i] == w.claims[i + 1];
      }
    }
  }

  lemma StepKeepsUnsent(w: World, op: Op, id: string, c: Content)
    requires Inv(w) && Unsent(w, id, c)
    requires op != DoLocal(id, c) && !(op.DoSend? && op.id == id && op.content == c)
    ensures Unsent(Step(w, op), id, c)
  {
    match op
    case DoClaim(ids, now) => ClaimKeepsUnsent(w, ids, now, id, c);
    case DoStart(now) => StartKeepsUnsent(w, now, id, c);
    case DoFinish(o, now) =>
      if w.flight.Some? {
        assert ClaimInv(w, w.flight.value);
      }
    case DoDeliver(q, _, _) =>
      if q in w.requests {
        assert !(q.id == id && q.content == c);
      }
    case _ =>
  }

  lemma {:induction false} UnsentStaysUnstored(w: World, ops: seq<Op>, id: string, c: Content)
    requires Inv(w) && Unsent(w, id, c) && Avoids(ops, id, c)
    ensures (id, c) !in Run(w, ops).stored
    decreases |ops|
  {
    if ops != [] {
      assert ops[0] != DoLocal(id, c) && !(ops[0].DoSend? && ops[0].id == id && ops[0].content == c);
      StepKeepsUnsent(w, ops[0], id, c);
      StepKeepsInv(w, ops[0]);
      assert Avoids(ops[1..], id, c) by {
        forall i | 0 <= i < |ops[1..]|
          ensures ops[1..][i] != DoLocal(id, c) && !(ops[1..][i].DoSend? && ops[1..][i].id == id && ops[1..][i].content == c)
        {
          assert ops[1..][i] == ops[i + 1];
        }
      }
      UnsentStaysUnstored(Step(w, ops[0]), ops[1..], id, c);
    }
  }

  /** A request that was on the wire can be stored, however late, once its id is free at the destination. */
  lemma WiredMayBeStored(w: World, id: string, c: Content) returns (ops: seq<Op>)
    requires Wired(w, id, c)
    ensures Avoids(ops, id, c) && (id, c) in Run(w, ops).stored && Run(w, ops).outbox == w.outbox
  {
    var q :| q in w.requests && q.id == id && q.content == c;
    ops := [DoRemove(id), DoDeliver(q, true, true)];
    RunTwo(w, DoRemove(id), DoDeliver(q, true, true));
  }

  predicate ComesToBeStored(w: World, ops: seq<Op>, id: string, c: Content) {
    Avoids(ops, id, c) && (id, c) in Run(w, ops).stored
  }

  /**
  The content of a rejected row that is not stored yet can still come to be stored, without being sent
  again, if and only if a request with it has been on the wire.
  */
  lemma RejectedStoredExactly(w: World, id: string)
    requires Inv(w) && id in w.outbox && w.outbox[id].state == Rejected && (id, w.outbox[id].content) !in w.stored
    ensures (exists ops :: ComesToBeStored(w, ops, id, w.outbox[id].content)) <==> Wired(w, id, w.outbox[id].content)
  {
    var c := w.outbox[id].content;
    if Wired(w, id, c) {
      var ops := WiredMayBeStored(w, id, c);
      assert ComesToBeStored(w, ops, id, c);
    } else {
      forall i | 0 <= i < |w.claims| ensures w.claims[i].id != id {
        assert ClaimInv(w, w.claims[i]);
      }
      assert Unsent(w, id, c);
      forall ops ensures !ComesToBeStored(w, ops, id, c) {
        if Avoids(ops, id, c) {
          UnsentStaysUnstored(w, ops, id, c);
        }
      }
    }
  }

  // ----- runs that show what is not promised ----------------------------------------------

  /** A state reached from the empty tables through one accepted send and one attempt on the wire. */
  function Sent(c: Content, ttl: real, at: real): World {
    var w0 := Step(Fresh(), DoSend("m", "r", c, ttl, false, true, 0.0));
    var w1 := Step(w0, DoClaim(["m"], at));
    Step(Step(w1, DoStart(at)), DoPost)
  }

  lemma OneClaim(w: World, row: Row, at: real)
    requires w.outbox == map["m" := row] && Due(row, at) && w.claims == [] && w.flight == None
    ensures var c := Claim("m", row); var u := Step(w, DoClaim(["m"], at));
      && u == w.(outbox := map["m" := row.(state := Inflight)], claims := [c])
      && Step(u, DoStart(at)) == u.(claims := [], flight := Some(c), posted := false)
  {
    assert Lapsed(w.outbox, at) == w.outbox;
    assert Selection(w.outbox, ["m"], at) by {
      assert Distinct(["m"]);
      assert Due(w.outbox["m"], at);
    }
    var u := Step(w, DoClaim(["m"], at));
    assert Claimed(w.outbox, ["m"]) == map["m" := row.(state := Inflight)];
    assert ClaimsOf(w.outbox, ["m"]) == [Claim("m", row)];
    assert [Claim("m", row)][1..] == [];
  }

  lemma SentIs(c: Content, ttl: real, at: real)
    requires 0.0 <= at < ttl
    ensures var row := Row(0, "r", c, ttl, Queued, 0, 0.0, 0.0);
      Sent(c, ttl, at) == World(map["m" := row.(state := Inflight)], 1, [], Some(Claim("m", row)), true, 1,
                                {Request("m", c, ttl, 0)}, {}, map[], {})
  {
    var row := Row(0, "r", c, ttl, Queued, 0, 0.0, 0.0);
    var w0 := Step(Fresh(), DoSend("m", "r", c, ttl, false, true, 0.0));
    assert w0.outbox == map["m" := row];
    OneClaim(w0, row, at);
  }

  /** The response to a stored request is lost; later the forwarder claims the row again and posts once more. */
  function Retried(c: Content, ttl: real, at: real, later: real): World {
    var w0 := Step(Sent(c, ttl, at), DoDeliver(Request("m", c, ttl, 0), true, true));
    var w1 := Step(w0, DoFinish(Raised, at));
    var w2 := Step(Step(w1, DoClaim(["m"], later)), DoStart(later));
    Step(w2, DoPost)
  }

  /** A rejected row may have been stored: a lost response, and then a retry that is refused. */
  lemma RejectedMayBeStored(c: Content, ttl: real, at: real, later: real)
    requires 0.0 <= at && at + 10.0 <= later < ttl
    ensures var w := Step(Retried(c, ttl, at, later), DoFinish(Refused, later));
      w.outbox.Keys == {"m"} && w.outbox["m"].state == Rejected && w.outbox["m"].content == c && ("m", c) in w.stored
  {
    SentIs(c, ttl, at);
    var row := Row(0, "r", c, ttl, Queued, 0, 0.0, 0.0);
    var w0 := Step(Sent(c, ttl, at), DoDeliver(Request("m", c, ttl, 0), true, true));
    var w1 := Step(w0, DoFinish(Raised, at));
    assert Pow2(1) == 2 && Backoff(1) == 10.0;
    var again := row.(attempts := 1, next := at + 10.0);
    assert w1.outbox == map["m" := again];
    OneClaim(w1, again, later);
  }

  /** `expired` is not final: an attempt that was already running puts the row back. */
  lemma ExpiredMayReturn(c: Content, at: real, now: real)
    requires 0.0 <= at < 10.0 <= now < 604800.0
    ensures var w := Step(Sent(c, 10.0, at), DoSweep(now));
      && w.outbox.Keys == {"m"} && w.outbox["m"].state == Expired && Named(w, "m")
      && Step(w, DoFinish(Raised, now)).outbox["m"].state == Queued
  {
    SentIs(c, 10.0, at);
    var s := Sent(c, 10.0, at);
    var lapsed := Lapsed(s.outbox, now);
    assert lapsed["m"].state == Expired;
    assert !Prunable(lapsed["m"], now);
    assert Swept(s.outbox, now) == map["m" := lapsed["m"]];
  }

  /** The sweep past both deadlines takes the expired row away while its attempt runs. */
  lemma PrunedUnderAttempt(c: Content, at: real, now: real)
    requires 0.0 <= at < 700000.0 <= now
    ensures var q := Request("m", c, 700000.0, 0);
      var s := Step(Sent(c, 700000.0, at), DoDeliver(q, true, true));
      Step(s, DoSweep(now)) == s.(outbox := map[])
    ensures var s := Step(Sent(c, 700000.0, at), DoDeliver(Request("m", c, 700000.0, 0), true, true));
      && s.flight == Some(Claim("m", Row(0, "r", c, 700000.0, Queued, 0, 0.0, 0.0))) && s.posted
      && s.nonce == 1 && s.stored == {("m", c)} && Acceptance(0, "m") in s.acceptances
  {
    SentIs(c, 700000.0, at);
    var s := Step(Sent(c, 700000.0, at), DoDeliver(Request("m", c, 700000.0, 0), true, true));
    var lapsed := Lapsed(s.outbox, now);
    assert lapsed["m"].state == Expired;
    assert Prunable(lapsed["m"], now);
    assert Swept(s.outbox, now) == map[];
  }

  /** A row pruned under its attempt, with its id sent again, is marked delivered though its content never left. */
  lemma CrossedDeliveryIsFalse(c: Content, d: Content, at: real, now: real)
    requires c != d && 0.0 <= at < 700000.0 <= now
    ensures var s := Step(Sent(c, 700000.0, at), DoDeliver(Request("m", c, 700000.0, 0), true, true));
      var w := Step(Step(Step(s, DoSweep(now)), DoSend("m", "r", d, 60.0, false, true, now)), DoFinish(Proven, now));
      w.outbox["m"].state == Delivered && w.outbox["m"].content == d && ("m", d) !in w.stored
  {
    PrunedUnderAttempt(c, at, now);
    var s := Step(Sent(c, 700000.0, at), DoDeliver(Request("m", c, 700000.0, 0), true, true));
    var w0 := s.(outbox := map[]);
    var w1 := Step(w0, DoSend("m", "r", d, 60.0, false, true, now));
    assert Possible(w1, Proven);
  }
}
