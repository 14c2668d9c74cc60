/**
The two adapters that drive the authority, as concurrent senders and receivers over one store, beside
any other user of it. Each phase is one lock-holding transaction or one effect-free check; a thread may
die between any two.
*/
module AdapterProtocol {
  import opened Wrappers
  import opened AuthorityState
  import opened AuthoritySafety
  import opened AuthorityHistory
  import opened AuthorityRuns

  /**
  A journalled payload: plaintext (0) or an envelope in canonical form (1, 2). `context` is the topic and
  the reply id that a v2 envelope signs.
  */
  datatype Payload = Payload(grant: string, text: string, encV: nat, context: string)

  /** The topic and reply id that a caller gave beside the envelope, and whether this send gated them. */
  datatype Outer = Outer(context: string, gated: bool)

  /** What the receiver persists before it acknowledges. */
  datatype Delivery = Delivery(grant: string, payload: string, encV: nat)

  datatype Phase =
    | Reading(m: string, p: Payload, o: Outer)      // the v2 adapter looks for a replay row
    | Gating(m: string, p: Payload, o: Outer)       // the CNS, context and signature gate is still to pass
    | Journalling(m: string, p: Payload, o: Outer)
    | Acting(m: string, p: Payload, o: Outer)       // journalled; cap enforcement and the action fence follow
    | InTransport(m: string, p: Payload, o: Outer)  // this thread holds the authority lock
    | Looking(key: (string, string), d: Delivery)  // a polled message, before any effect
    | Vetting(key: (string, string), d: Delivery)
    | Accepting(key: (string, string), d: Delivery)
    | Acking(key: (string, string), d: Delivery)

  datatype Wire = Wire(m: string, p: Payload, o: Outer)

  /**
  `gates` and `vetted` are the exact bytes that once passed the gate; `wire` and `acks` are what left
  the adapters, in order; `foreign` are the messages whose reservation another user of the authority made.
  A call in progress with no `holder` is another user's.
  */
  datatype System = System(
    world: World,
    payloads: map<string, Payload>,
    inbox: map<(string, string), Delivery>,
    threads: map<nat, Phase>,
    holder: Option<nat>,
    gates: set<(string, Payload)>,
    vetted: set<((string, string), Delivery)>,
    wire: seq<Wire>,
    acks: seq<((string, string), Delivery)>,
    foreign: set<string>)

  datatype Move =
    | Send(m: string, p: Payload, context: string)
    | Receive(key: (string, string), d: Delivery)
    | Look
    | Gate(passes: bool)
    | Journal
    | Act(newId: string, now: real)
    | Finish(outcome: Outcome)
    | Die
    | Authority(op: Op)  // any transaction of any other process, reservations and actions included

  /** The outcome of an adapter's call is its own to record. */
  predicate Outside(a: System, op: Op) {
    a.holder.Some? ==> !op.DoRecord? && !op.Crash?
  }

  function Beside(cap: Option<real>, a: System, op: Op): System {
    var w := Step(cap, a.world, op);
    a.(world := w, foreign := a.foreign + (w.store.resOf.Keys - a.world.store.resOf.Keys))
  }

  function With(a: System, t: nat, phase: Phase): System {
    a.(threads := a.threads[t := phase])
  }

  function Leave(a: System, t: nat): System {
    a.(threads := a.threads - {t})
  }

  /** The stored row contradicts the bytes of this call. */
  predicate Clashes(a: System, m: string, p: Payload) {
    m in a.payloads && a.payloads[m] != p
  }

  /** A reservation beside the journal row is durable proof that the gate ran. */
  predicate GateProven(a: System, m: string) {
    m in a.payloads && m in a.world.store.resOf
  }

  function Start(a: System, t: nat, move: Move): System {
    match move
    case Send(m, p, context) =>
      var o := Outer(context, false);
      With(a, t, if p.encV == 2 then Reading(m, p, o) else Journalling(m, p, o))
    case Receive(key, d) => With(a, t, if d.encV == 2 then Looking(key, d) else Accepting(key, d))
    case _ => a
  }

  function Advance(cap: Option<real>, a: System, t: nat, move: Move): System
    requires t in a.threads
  {
    match (a.threads[t], move)
    case (Reading(m, p, o), Look) =>
      if Clashes(a, m, p) then Leave(a, t)
      else if GateProven(a, m) then With(a, t, Journalling(m, p, o)) else With(a, t, Gating(m, p, o))
    case (Gating(m, p, o), Gate(passes)) =>
      if passes && o.context == p.context
      then With(a.(gates := a.gates + {(m, p)}), t, Journalling(m, p, o.(gated := true))) else Leave(a, t)
    case (Journalling(m, p, o), Journal) =>
      if Clashes(a, m, p) then Leave(a, t)
      else With(a.(payloads := a.payloads[m := p]), t, Acting(m, p, o))
    case (Acting(m, p, o), Act(newId, now)) =>
      var op := DoFence(p.grant, m, None, newId, now);
      var w := Step(cap, a.world, op);
      if HandsOff(cap, a.world, op)
      then With(a.(world := w, wire := a.wire + [Wire(m, p, o)], holder := Some(t)), t, InTransport(m, p, o))
      else Leave(a.(world := w), t)
    case (InTransport(m, p, o), Finish(outcome)) =>
      Leave(a.(world := Step(cap, a.world, DoRecord(outcome)), holder := None), t)
    case (InTransport(m, p, o), Die) =>
      Leave(a.(world := Step(cap, a.world, Crash), holder := None), t)
    case (_, Die) => Leave(a, t)
    case (Looking(key, d), Look) =>
      if key in a.inbox then
        if a.inbox[key] == d then With(a, t, Accepting(key, d)) else Leave(a, t)
      else With(a, t, Vetting(key, d))
    case (Vetting(key, d), Gate(passes)) =>
      if passes then With(a.(vetted := a.vetted + {(key, d)}), t, Accepting(key, d)) else Leave(a, t)
    case (Accepting(key, d), Act(_, now)) =>
      var w := Step(cap, a.world, DoEnforceCap(d.grant, now));
      if !Open(w.store, d.grant) || (key in a.inbox && a.inbox[key] != d) then Leave(a.(world := w), t)
      else With(a.(world := w, inbox := a.inbox[key := d]), t, Acking(key, d))
    case (Acking(key, d), Finish(_)) => Leave(a.(acks := a.acks + [(key, d)]), t)
    case _ => a
  }

  /** One move: an outside transaction, a new thread, or the next phase of a thread. */
  function Next(cap: Option<real>, a: System, t: nat, move: Move): System {
    match move
    case Authority(op) => if Outside(a, op) then Beside(cap, a, op) else a
    case Send(_, _, _) => if t in a.threads then a else Start(a, t, move)
    case Receive(_, _) => if t in a.threads then a else Start(a, t, move)
    case _ =>
      if t !in a.threads then a
      else if a.world.calling.Some? && !a.threads[t].InTransport? && NeedsLock(a.threads[t], move) then a
      else Advance(cap, a, t, move)
  }

  /** Phases that are transactions wait for the lock; gate checks and deaths do not. */
  predicate NeedsLock(phase: Phase, move: Move) {
    !move.Die? && !phase.Gating? && !phase.Vetting?
  }

  // ----- invariant ------------------------------------------------------------------------

  predicate Gated(a: System, m: string, p: Payload) {
    p.encV == 2 ==> (m, p) in a.gates
  }

  /** A gated outer context is the signed one. */
  predicate OuterOk(p: Payload, o: Outer) {
    o.gated ==> o.context == p.context
  }

  predicate Vetted(a: System, key: (string, string), d: Delivery) {
    d.encV == 2 ==> (key, d) in a.vetted
  }

  ghost predicate PhaseOk(a: System, t: nat, phase: Phase) {
    match phase
    case Reading(_, p, o) => OuterOk(p, o)
    case Gating(_, p, o) => OuterOk(p, o)
    case Journalling(m, p, o) => Gated(a, m, p) && OuterOk(p, o)
    case Acting(m, p, o) => Gated(a, m, p) && OuterOk(p, o) && m in a.payloads && a.payloads[m] == p
    case InTransport(m, p, o) =>
      Gated(a, m, p) && OuterOk(p, o) && m in a.payloads && a.payloads[m] == p
      && a.holder == Some(t) && a.world.calling.Some? && a.world.calling.value.msg == m
    case Accepting(key, d) => Vetted(a, key, d)
    case Acking(key, d) => Vetted(a, key, d) && key in a.inbox && a.inbox[key] == d
    case _ => true
  }

  /** A reservation that no other user made implies the journal row and its grant. */
  ghost predicate ReservationJournalled(a: System, m: string) {
    m in a.world.store.resOf && m !in a.foreign ==>
      && m in a.payloads
      && a.world.store.resOf[m] in a.world.store.reservations
      && a.world.store.reservations[a.world.store.resOf[m]].grant == a.payloads[m].grant
  }

  /** A journal row is written only after the gate passed on its bytes. */
  ghost predicate PayloadGated(a: System, m: string) {
    m in a.payloads ==> Gated(a, m, a.payloads[m])
  }

  ghost predicate WireOk(a: System, i: int) {
    0 <= i < |a.wire| ==>
      && a.wire[i].m in a.payloads && a.payloads[a.wire[i].m] == a.wire[i].p
      && Gated(a, a.wire[i].m, a.wire[i].p) && OuterOk(a.wire[i].p, a.wire[i].o)
  }

  ghost predicate AckOk(a: System, i: int) {
    0 <= i < |a.acks| ==>
      && a.acks[i].0 in a.inbox && a.inbox[a.acks[i].0] == a.acks[i].1
      && Vetted(a, a.acks[i].0, a.acks[i].1)
  }

  ghost predicate InboxOk(a: System, key: (string, string)) {
    key in a.inbox ==> Vetted(a, key, a.inbox[key])
  }

  ghost predicate ThreadOk(a: System, t: nat) {
    t in a.threads ==> PhaseOk(a, t, a.threads[t])
  }

  ghost predicate AdapterInv(a: System) {
    && WorldInv(a.world)
    && (a.holder.Some? ==> a.world.calling.Some?)
    && (forall m {:trigger ReservationJournalled(a, m)} :: ReservationJournalled(a, m))
    && (forall m {:trigger PayloadGated(a, m)} :: PayloadGated(a, m))
    && (forall t {:trigger ThreadOk(a, t)} :: ThreadOk(a, t))
    && (forall i {:trigger WireOk(a, i)} :: WireOk(a, i))
    && (forall i {:trigger AckOk(a, i)} :: AckOk(a, i))
    && (forall key {:trigger InboxOk(a, key)} :: InboxOk(a, key))
  }

  /** Journal and inbox rows, wire calls, acknowledgements and gate passes only accumulate. */
  ghost predicate Grows(a: System, b: System) {
    && (forall m :: m in a.payloads ==> m in b.payloads && b.payloads[m] == a.payloads[m])
    && (forall key :: key in a.inbox ==> key in b.inbox && b.inbox[key] == a.inbox[key])
    && a.gates <= b.gates && a.vetted <= b.vetted && a.wire <= b.wire && a.acks <= b.acks && a.foreign <= b.foreign
  }

  /** No transaction moves a reservation to another message or grant. */
  lemma StepKeepsReservations(cap: Option<real>, w: World, op: Op, m: string)
    requires WorldInv(w) && m in w.store.resOf
    ensures var v := Step(cap, w, op);
      && WorldInv(v) && m in v.store.resOf && w.store.resOf[m] == v.store.resOf[m]
      && v.store.resOf[m] in v.store.reservations && w.store.resOf[m] in w.store.reservations
      && v.store.reservations[v.store.resOf[m]].grant == w.store.reservations[w.store.resOf[m]].grant
  {
    StepKeepsInv(cap, w, op);
    StepIsLawful(cap, w, op);
    var v := Step(cap, w, op);
    assert MessageKept(w.store, v.store, m);
    assert AgreementOk(w.store, m) && AgreementOk(v.store, m);
  }

  lemma BesideKeepsJournalled(cap: Option<real>, a: System, op: Op, m: string)
    requires AdapterInv(a)
    ensures ReservationJournalled(Beside(cap, a, op), m)
  {
    var s, v, b := a.world.store, Step(cap, a.world, op).store, Beside(cap, a, op);
    assert b.world.store == v && b.payloads == a.payloads;
    assert ReservationJournalled(a, m);
    if m in s.resOf {
      StepKeepsReservations(cap, a.world, op, m);
    } else if m in v.resOf {
      assert m in b.foreign;
    }
  }

  /** Whatever another user of the authority does. */
  lemma BesideKeepsInv(cap: Option<real>, a: System, op: Op)
    requires AdapterInv(a) && Outside(a, op)
    ensures AdapterInv(Beside(cap, a, op))
  {
    var b := Beside(cap, a, op);
    StepKeepsInv(cap, a.world, op);
    forall m ensures ReservationJournalled(b, m) && PayloadGated(b, m) {
      BesideKeepsJournalled(cap, a, op, m);
      assert PayloadGated(a, m);
    }
    forall t ensures ThreadOk(b, t) {
      assert ThreadOk(a, t);
    }
    forall i ensures WireOk(b, i) && AckOk(b, i) {
      assert WireOk(a, i) && AckOk(a, i);
    }
    forall key ensures InboxOk(b, key) {
      assert InboxOk(a, key);
    }
  }

  /** Only reserving and acting make reservations. */
  lemma BesideAddsNone(cap: Option<real>, a: System, op: Op)
    requires AdapterInv(a) && !op.DoReserve? && !op.DoFence?
    ensures Beside(cap, a, op) == a.(world := Step(cap, a.world, op))
  {
    var w := Step(cap, a.world, op);
    StepKeepsInv(cap, a.world, op);
    StepIsLawful(cap, a.world, op);
    forall m | m in w.store.resOf ensures m in a.world.store.resOf {
      assert StageMove(cap, a.world, op, m);
      assert AgreementOk(a.world.store, m) && AgreementOk(w.store, m);
    }
    assert w.store.resOf.Keys - a.world.store.resOf.Keys == {};
  }

  /** Moves that only add rows, gate passes or one thread's new phase. */
  lemma LocalMoveKeepsInv(a: System, b: System, t: nat)
    requires AdapterInv(a) && b.world == a.world && b.holder == a.holder && Grows(a, b)
    requires b.wire == a.wire && (b.acks == a.acks || (|b.acks| == |a.acks| + 1 && AckOk(b, |a.acks|)))
    requires forall u :: u != t ==> (u in b.threads <==> u in a.threads) && (u in a.threads ==> b.threads[u] == a.threads[u])
    requires ThreadOk(b, t) && (t in a.threads ==> !a.threads[t].InTransport?)
    requires forall key :: key in b.inbox && key !in a.inbox ==> Vetted(b, key, b.inbox[key])
    requires forall m :: m in b.payloads && m !in a.payloads ==> Gated(b, m, b.payloads[m])
    requires b.foreign == a.foreign
    ensures AdapterInv(b)
  {
    forall m ensures ReservationJournalled(b, m) && PayloadGated(b, m) {
      assert ReservationJournalled(a, m) && PayloadGated(a, m);
    }
    forall u ensures ThreadOk(b, u) {
      assert ThreadOk(a, u);
    }
    forall i ensures WireOk(b, i) {
      assert WireOk(a, i);
    }
    forall i ensures AckOk(b, i) {
      assert AckOk(a, i);
    }
    forall key ensures InboxOk(b, key) {
      assert InboxOk(a, key);
    }
  }

  /** The action of a journalled message: its own bytes go out, under its own grant. */
  lemma ActKeepsInv(cap: Option<real>, a: System, t: nat, newId: string, now: real)
    requires AdapterInv(a) && t in a.threads && a.threads[t].Acting? && a.world.calling == None
    ensures AdapterInv(Advance(cap, a, t, Act(newId, now)))
  {
    var m, p := a.threads[t].m, a.threads[t].p;
    var op := DoFence(p.grant, m, None, newId, now);
    var w := Step(cap, a.world, op);
    var b := Advance(cap, a, t, Act(newId, now));
    assert ThreadOk(a, t);
    StepKeepsInv(cap, a.world, op);
    forall n ensures ReservationJournalled(b, n) && PayloadGated(b, n) {
      ActReservation(cap, a, m, p, newId, now, n);
      assert ReservationJournalled(a, n) && PayloadGated(a, n);
    }
    forall u ensures ThreadOk(b, u) {
      assert ThreadOk(a, u);
    }
    forall i ensures WireOk(b, i) && AckOk(b, i) {
      assert WireOk(a, i) && AckOk(a, i);
    }
    forall key ensures InboxOk(b, key) {
      assert InboxOk(a, key);
    }
  }

  lemma ActReservation(cap: Option<real>, a: System, m: string, p: Payload, newId: string, now: real, n: string)
    requires WorldInv(a.world) && a.world.calling == None
    ensures var v := Step(cap, a.world, DoFence(p.grant, m, None, newId, now)).store;
      n in v.resOf ==>
        && v.resOf[n] in v.reservations
        && (|| (n in a.world.store.resOf && a.world.store.resOf[n] == v.resOf[n] && v.resOf[n] in a.world.store.reservations
                && v.reservations[v.resOf[n]].grant == a.world.store.reservations[v.resOf[n]].grant)
            || (n == m && v.reservations[v.resOf[n]].grant == p.grant))
  {
    var s, op := a.world.store, DoFence(p.grant, m, None, newId, now);
    var v := Step(cap, a.world, op).store;
    StepKeepsInv(cap, a.world, op);
    StepIsLawful(cap, a.world, op);
    assert StageMove(cap, a.world, op, n) && MessageKept(s, v, n);
    assert AgreementOk(s, n) && AgreementOk(v, n);
    if n == m && HandsOff(cap, a.world, op) {
      EnforceCapKeepsInv(cap, s, p.grant, now);
      HandoffShape(EnforceCap(cap, s, p.grant, now), p.grant, m, None, newId);
    }
  }

  lemma EndCallKeepsInv(cap: Option<real>, a: System, t: nat, op: Op)
    requires AdapterInv(a) && t in a.threads && a.threads[t].InTransport? && (op.DoRecord? || op.Crash?)
    ensures AdapterInv(Leave(a.(world := Step(cap, a.world, op), holder := None), t))
  {
    var b := Leave(a.(world := Step(cap, a.world, op), holder := None), t);
    assert ThreadOk(a, t);
    StepKeepsInv(cap, a.world, op);
    StepIsLawful(cap, a.world, op);
    forall m ensures ReservationJournalled(b, m) && PayloadGated(b, m) {
      assert ReservationJournalled(a, m) && PayloadGated(a, m);
      assert StageMove(cap, a.world, op, m) && MessageKept(a.world.store, b.world.store, m);
      assert AgreementOk(a.world.store, m) && AgreementOk(b.world.store, m);
    }
    forall u ensures ThreadOk(b, u) {
      assert ThreadOk(a, u);
    }
    forall i ensures WireOk(b, i) && AckOk(b, i) {
      assert WireOk(a, i) && AckOk(a, i);
    }
    forall key ensures InboxOk(b, key) {
      assert InboxOk(a, key);
    }
  }

  lemma AcceptKeepsInv(cap: Option<real>, a: System, t: nat, newId: string, now: real)
    requires AdapterInv(a) && t in a.threads && a.threads[t].Accepting? && a.world.calling == None
    ensures AdapterInv(Advance(cap, a, t, Act(newId, now)))
  {
    var key, d := a.threads[t].key, a.threads[t].d;
    var a1 := a.(world := Step(cap, a.world, DoEnforceCap(d.grant, now)));
    BesideKeepsInv(cap, a, DoEnforceCap(d.grant, now));
    BesideAddsNone(cap, a, DoEnforceCap(d.grant, now));
    assert ThreadOk(a, t);
    LocalMoveKeepsInv(a1, Advance(cap, a, t, Act(newId, now)), t);
  }

  predicate Sending(phase: Phase) {
    phase.Reading? || phase.Gating? || phase.Journalling? || phase.Acting?
  }

  /** Looking up, passing the gate, journalling or dying: a sender outside a call. */
  lemma SenderPhaseKeepsInv(cap: Option<real>, a: System, t: nat, move: Move)
    requires AdapterInv(a) && t in a.threads && Sending(a.threads[t])
    requires move.Look? || move.Gate? || move.Journal? || move.Die?
    ensures AdapterInv(Advance(cap, a, t, move))
  {
    var b := Advance(cap, a, t, move);
    if move.Journal? {
      SenderJournalKeepsInv(cap, a, t, move);
    } else if move.Gate? {
      SenderGateKeepsInv(cap, a, t, move);
    } else if b != a {
      assert ThreadOk(a, t) && PayloadGated(a, a.threads[t].m);
      LocalMoveKeepsInv(a, b, t);
    }
  }

  lemma SenderGateKeepsInv(cap: Option<real>, a: System, t: nat, move: Move)
    requires AdapterInv(a) && t in a.threads && Sending(a.threads[t]) && move.Gate?
    ensures AdapterInv(Advance(cap, a, t, move))
  {
    var b := Advance(cap, a, t, move);
    assert ThreadOk(a, t) && PayloadGated(a, a.threads[t].m);
    if b != a {
      LocalMoveKeepsInv(a, b, t);
    }
  }

  lemma SenderJournalKeepsInv(cap: Option<real>, a: System, t: nat, move: Move)
    requires AdapterInv(a) && t in a.threads && Sending(a.threads[t]) && move.Journal?
    ensures AdapterInv(Advance(cap, a, t, move))
  {
    var b := Advance(cap, a, t, move);
    assert ThreadOk(a, t) && PayloadGated(a, a.threads[t].m);
    if b != a {
      LocalMoveKeepsInv(a, b, t);
    }
  }

  /** Looking up, passing the gate, acknowledging or dying: a receiver. */
  lemma ReceiverPhaseKeepsInv(cap: Option<real>, a: System, t: nat, move: Move)
    requires AdapterInv(a) && t in a.threads && !Sending(a.threads[t]) && !a.threads[t].InTransport?
    requires move.Look? || move.Gate? || move.Finish? || move.Die?
    ensures AdapterInv(Advance(cap, a, t, move))
  {
    var b := Advance(cap, a, t, move);
    if move.Finish? {
      AcknowledgeKeepsInv(cap, a, t, move);
    } else if move.Gate? {
      ReceiverGateKeepsInv(cap, a, t, move);
    } else if b != a {
      assert ThreadOk(a, t) && InboxOk(a, a.threads[t].key);
      LocalMoveKeepsInv(a, b, t);
    }
  }

  lemma ReceiverGateKeepsInv(cap: Option<real>, a: System, t: nat, move: Move)
    requires AdapterInv(a) && t in a.threads && !Sending(a.threads[t]) && !a.threads[t].InTransport? && move.Gate?
    ensures AdapterInv(Advance(cap, a, t, move))
  {
    var b := Advance(cap, a, t, move);
    assert ThreadOk(a, t) && InboxOk(a, a.threads[t].key);
    if b != a {
      LocalMoveKeepsInv(a, b, t);
    }
  }

  lemma AcknowledgeKeepsInv(cap: Option<real>, a: System, t: nat, move: Move)
    requires AdapterInv(a) && t in a.threads && !Sending(a.threads[t]) && !a.threads[t].InTransport? && move.Finish?
    ensures AdapterInv(Advance(cap, a, t, move))
  {
    var b := Advance(cap, a, t, move);
    assert ThreadOk(a, t) && InboxOk(a, a.threads[t].key);
    if b != a {
      LocalMoveKeepsInv(a, b, t);
    }
  }

  lemma AdvanceKeepsInv(cap: Option<real>, a: System, t: nat, move: Move)
    requires AdapterInv(a) && t in a.threads
    requires a.world.calling.Some? && !a.threads[t].InTransport? ==> !NeedsLock(a.threads[t], move)
    ensures AdapterInv(Advance(cap, a, t, move))
  {
    if a.threads[t].Acting? && move.Act? {
      ActKeepsInv(cap, a, t, move.newId, move.now);
    } else if a.threads[t].Accepting? && move.Act? {
      AcceptKeepsInv(cap, a, t, move.newId, move.now);
    } else if a.threads[t].InTransport? && move.Finish? {
      EndCallKeepsInv(cap, a, t, DoRecord(move.outcome));
    } else if a.threads[t].InTransport? && move.Die? {
      EndCallKeepsInv(cap, a, t, Crash);
    } else if Advance(cap, a, t, move) != a {
      if Sending(a.threads[t]) {
        SenderPhaseKeepsInv(cap, a, t, move);
      } else {
        ReceiverPhaseKeepsInv(cap, a, t, move);
      }
    }
  }

  lemma StartKeepsInv(cap: Option<real>, a: System, t: nat, move: Move)
    requires AdapterInv(a) && t !in a.threads
    ensures AdapterInv(Start(a, t, move))
  {
    if move.Send? || move.Receive? {
      LocalMoveKeepsInv(a, Start(a, t, move), t);
    }
  }

  lemma NextKeepsInv(cap: Option<real>, a: System, t: nat, move: Move)
    requires AdapterInv(a)
    ensures AdapterInv(Next(cap, a, t, move))
  {
    if move.Authority? {
      if Outside(a, move.op) {
        BesideKeepsInv(cap, a, move.op);
      }
    } else if move.Send? || move.Receive? {
      if t !in a.threads {
        StartKeepsInv(cap, a, t, move);
      }
    } else if Next(cap, a, t, move) != a {
      AdvanceKeepsInv(cap, a, t, move);
    }
  }

  lemma SenderGrows(cap: Option<real>, a: System, t: nat, move: Move)
    requires t in a.threads && (Sending(a.threads[t]) || a.threads[t].InTransport?)
    ensures Grows(a, Advance(cap, a, t, move))
  {
  }

  lemma ReceiverGrows(cap: Option<real>, a: System, t: nat, move: Move)
    requires t in a.threads && !Sending(a.threads[t]) && !a.threads[t].InTransport?
    ensures Grows(a, Advance(cap, a, t, move))
  {
  }

  lemma AdvanceGrows(cap: Option<real>, a: System, t: nat, move: Move)
    requires t in a.threads
    ensures Grows(a, Advance(cap, a, t, move))
  {
    if Sending(a.threads[t]) || a.threads[t].InTransport? {
      SenderGrows(cap, a, t, move);
    } else {
      ReceiverGrows(cap, a, t, move);
    }
  }

  lemma NextGrows(cap: Option<real>, a: System, t: nat, move: Move)
    ensures Grows(a, Next(cap, a, t, move))
  {
    if t in a.threads {
      AdvanceGrows(cap, a, t, move);
    }
  }

  // ----- whole runs -----------------------------------------------------------------------

  function Moves(cap: Option<real>, a: System, run: seq<(nat, Move)>): System
    decreases |run|
  {
    if run == [] then a else Moves(cap, Next(cap, a, run[0].0, run[0].1), run[1..])
  }

  lemma {:induction false} MovesKeepInv(cap: Option<real>, a: System, run: seq<(nat, Move)>)
    requires AdapterInv(a)
    ensures AdapterInv(Moves(cap, a, run)) && Grows(a, Moves(cap, a, run))
    decreases |run|
  {
    if run != [] {
      NextKeepsInv(cap, a, run[0].0, run[0].1);
      NextGrows(cap, a, run[0].0, run[0].1);
      MovesKeepInv(cap, Next(cap, a, run[0].0, run[0].1), run[1..]);
    }
  }

  /** A store with grants but no adapter activity yet. */
  ghost predicate Idle(a: System) {
    && Bootstrap(a.world.store) && a.world.calling == None && a.holder == None
    && a.payloads == map[] && a.inbox == map[] && a.threads == map[] && a.wire == [] && a.acks == []
    && a.gates == {} && a.vetted == {} && a.foreign == {}
  }

  lemma IdleHasInv(a: System)
    requires Idle(a)
    ensures AdapterInv(a)
  {
  }

  /**
  Across sends, crashes and reconciliations every transport call for an id carries the one payload
  and grant of its journal row, and an encrypted v2 payload passed the gate on exactly those bytes; the
  outer context of a call that was gated itself is the signed one.
  */
  lemma OnePayloadPerId(cap: Option<real>, a: System, run: seq<(nat, Move)>, i: nat, j: nat)
    requires Idle(a)
    requires var b := Moves(cap, a, run); i < |b.wire| && j < |b.wire| && b.wire[i].m == b.wire[j].m
    ensures var b := Moves(cap, a, run);
      && b.wire[i].p == b.wire[j].p
      && b.wire[i].m in b.payloads && b.payloads[b.wire[i].m] == b.wire[i].p
      && (b.wire[i].p.encV == 2 ==> (b.wire[i].m, b.wire[i].p) in b.gates)
      && (b.wire[i].o.gated ==> b.wire[i].o.context == b.wire[i].p.context)
  {
    IdleHasInv(a);
    MovesKeepInv(cap, a, run);
    var b := Moves(cap, a, run);
    assert WireOk(b, i) && WireOk(b, j);
  }

  /**
  A reservation is durable proof that the gate passed on the journalled bytes: on any journal row beside
  one, and there is such a row, of the same grant, unless another user of the authority made the reservation.
  */
  lemma ReservationProvesGate(cap: Option<real>, a: System, run: seq<(nat, Move)>, m: string)
    requires Idle(a) && m in Moves(cap, a, run).world.store.resOf
    ensures var b := Moves(cap, a, run);
      && (m in b.payloads && b.payloads[m].encV == 2 ==> (m, b.payloads[m]) in b.gates)
      && (m in b.foreign
          || (&& m in b.payloads && b.world.store.resOf[m] in b.world.store.reservations
              && b.world.store.reservations[b.world.store.resOf[m]].grant == b.payloads[m].grant))
  {
    IdleHasInv(a);
    MovesKeepInv(cap, a, run);
    assert ReservationJournalled(Moves(cap, a, run), m) && PayloadGated(Moves(cap, a, run), m);
  }

  /** Another user's reservation proves no gate: here nothing was ever journalled or checked under its id. */
  lemma ForeignReservationProvesNothing(cap: Option<real>, a: System, g: string, m: string, newId: string)
    requires Idle(a) && Open(a.world.store, g)
    ensures var b := Moves(cap, a, [(0, Authority(DoReserve(g, m, newId)))]);
      && m in b.world.store.resOf && m in b.foreign && b.payloads == map[] && b.gates == {}
  {
    var move := Authority(DoReserve(g, m, newId));
    assert Moves(cap, a, [(0, move)]) == Moves(cap, Next(cap, a, 0, move), [(0, move)][1..]);
  }

  /** A journal row, once written, is the payload of its id for ever. */
  lemma JournalIsForever(cap: Option<real>, a: System, run: seq<(nat, Move)>, m: string)
    requires AdapterInv(a) && m in a.payloads
    ensures m in Moves(cap, a, run).payloads && Moves(cap, a, run).payloads[m] == a.payloads[m]
  {
    MovesKeepInv(cap, a, run);
  }

  /** Nothing is acknowledged to the relay that is not stored locally for ever, byte for byte. */
  lemma AckedIsStored(cap: Option<real>, a: System, run: seq<(nat, Move)>, more: seq<(nat, Move)>, i: nat)
    requires Idle(a) && i < |Moves(cap, a, run).acks|
    ensures var (key, d) := Moves(cap, a, run).acks[i];
      var c := Moves(cap, Moves(cap, a, run), more);
      && key in c.inbox && c.inbox[key] == d
      && (d.encV == 2 ==> (key, d) in c.vetted)
  {
    IdleHasInv(a);
    MovesKeepInv(cap, a, run);
    var b := Moves(cap, a, run);
    assert AckOk(b, i);
    MovesKeepInv(cap, b, more);
  }

  // ----- what one move adds ---------------------------------------------------------------

  lemma InboxGrows(cap: Option<real>, a: System, t: nat, move: Move, key: (string, string))
    requires key !in a.inbox && key in Next(cap, a, t, move).inbox
    ensures move.Act? && t in a.threads && a.threads[t] == Accepting(key, Next(cap, a, t, move).inbox[key])
    ensures a.world.calling == None && Open(EnforceCap(cap, a.world.store, a.threads[t].d.grant, move.now), a.threads[t].d.grant)
  {
  }

  /** A delivery is persisted only by its accepting thread, under a grant that is open and within its cap, and gated if v2. */
  lemma AcceptanceNeedsOpenGrant(cap: Option<real>, a: System, t: nat, move: Move, key: (string, string))
    requires AdapterInv(a) && key !in a.inbox && key in Next(cap, a, t, move).inbox
    ensures move.Act? && t in a.threads && a.threads[t] == Accepting(key, Next(cap, a, t, move).inbox[key])
    ensures var d := a.threads[t].d; var s := a.world.store;
      && a.world.calling == None
      && d.grant in s.grants && s.grants[d.grant].state == OK && s.grants[d.grant].tombstone == None
      && (cap.Some? ==> move.now - s.grants[d.grant].watermark < cap.value)
      && (d.encV == 2 ==> (key, d) in a.vetted)
  {
    InboxGrows(cap, a, t, move, key);
    assert ThreadOk(a, t);
    OpenWithinCap(cap, a.world.store, a.threads[t].d.grant, move.now);
  }

  lemma OpenWithinCap(cap: Option<real>, s: Store, g: string, now: real)
    requires Open(EnforceCap(cap, s, g, now), g)
    ensures g in s.grants && s.grants[g].state == OK && s.grants[g].tombstone == None
    ensures cap.Some? ==> now - s.grants[g].watermark < cap.value
  {
    if CapDue(cap, s, g, now) {
      CappedIsClosed(s, g);
    }
  }

  /** An acknowledgement leaves exactly when a thread that persisted a delivery, or met it persisted, comes to it. */
  lemma AcksExactly(cap: Option<real>, a: System, t: nat, move: Move)
    requires AdapterInv(a)
    ensures var b := Next(cap, a, t, move);
      if t in a.threads && a.threads[t].Acking? && move.Finish? && a.world.calling == None
      then var (key, d) := (a.threads[t].key, a.threads[t].d);
        key in a.inbox && a.inbox[key] == d && b.acks == a.acks + [(key, d)]
      else b.acks == a.acks
  {
    assert ThreadOk(a, t);
  }

  /** A call leaves exactly when an acting thread comes to a fence that hands off; its bytes are journalled and, if v2, gated. */
  lemma WireExactly(cap: Option<real>, a: System, t: nat, move: Move)
    requires AdapterInv(a)
    ensures var b := Next(cap, a, t, move);
      if t in a.threads && a.threads[t].Acting? && move.Act?
         && HandsOff(cap, a.world, DoFence(a.threads[t].p.grant, a.threads[t].m, None, move.newId, move.now))
      then var (m, p, o) := (a.threads[t].m, a.threads[t].p, a.threads[t].o);
        && m in a.payloads && a.payloads[m] == p && (p.encV == 2 ==> (m, p) in a.gates)
        && b.wire == a.wire + [Wire(m, p, o)]
      else b.wire == a.wire
  {
    assert ThreadOk(a, t);
  }
}
