/** Runs of the relay: any interleaving of its transactions, and what each step can do to a pair. */
module ConsentRuns {
  import opened Wrappers
  import opened ConsentState
  import opened ConsentSafety

  datatype Op =
    | DoMint(who: string, kind: LinkKind, uses: int, seconds: real, says: Option<bool>, id: string, asked: real, now: real)
    | DoRevokeLink(who: string, operator: bool, id: string)
    | DoEnrolByLink(id: string, now: real)
    | DoEnrol(name: string, identity: string)
    | DoRedeem(q: Redemption, now: real)
    | DoAccept(k: Pair, generation: nat, me: string, says: Option<bool>, now: real)
    | DoAdvertise(k: Pair, generation: nat, me: string, says: Option<bool>)
    | DoRevoke(x: string, y: string, now: real)
    | DoSend(id: string, x: string, y: string, body: string, ttl: real, lane: bool, now: real)
    | DoDeliver(id: string, x: string, y: string, body: string, until: real, lane: bool, now: real)
    | DoCollect(recipient: string, ids: set<string>, at: real)
    | DoAck(recipient: string, acks: seq<string>, at: real)
    | DoSweep(pruned: set<string>, at: real)

  /** The clock read under the lock never runs backwards. */
  function InLock(s: Relay, now: real): real {
    if now < s.clock then s.clock else now
  }

  /** A sample taken before the lock is never ahead of it. */
  function BeforeLock(s: Relay, at: real): real {
    Earlier(at, s.clock)
  }

  function Step(expiry: real, s: Relay, op: Op): Relay {
    match op
    case DoMint(who, kind, uses, seconds, says, id, asked, now) =>
      Mint(s, who, kind, uses, seconds, says, id, asked, InLock(s, now))
    case DoRevokeLink(who, operator, id) => RevokeLink(s, who, operator, id)
    case DoEnrolByLink(id, now) => EnrolByLink(s, id, InLock(s, now))
    case DoEnrol(name, identity) => Enrol(s, name, identity)
    case DoRedeem(q, now) => Redeem(s, q, expiry, InLock(s, now))
    case DoAccept(k, generation, me, says, now) => Accept(s, k, generation, me, says, InLock(s, now))
    case DoAdvertise(k, generation, me, says) => Advertise(s, k, generation, me, says)
    case DoRevoke(x, y, now) => Revoke(s, x, y, InLock(s, now))
    case DoSend(id, x, y, body, ttl, lane, now) => Send(s, id, x, y, body, ttl, lane, InLock(s, now))
    case DoDeliver(id, x, y, body, until, lane, now) => Deliver(s, id, x, y, body, until, lane, InLock(s, now))
    case DoCollect(recipient, ids, at) => Collect(s, recipient, ids, BeforeLock(s, at))
    case DoAck(recipient, acks, at) => Ack(s, recipient, acks, BeforeLock(s, at))
    case DoSweep(pruned, at) =>
      if Overflow(s.mail, pruned, BeforeLock(s, at)) then Sweep(s, pruned, expiry, BeforeLock(s, at)) else s
  }

  function Run(expiry: real, s: Relay, ops: seq<Op>): Relay
    decreases |ops|
  {
    if ops == [] then s else Run(expiry, Step(expiry, s, ops[0]), ops[1..])
  }

  lemma StepKeepsInv(expiry: real, s: Relay, op: Op)
    requires Inv(s)
    ensures Inv(Step(expiry, s, op)) && EvidenceKept(s, Step(expiry, s, op))
  {
    match op
    case DoMint(who, kind, uses, seconds, says, id, asked, now) =>
      MintKeepsInv(s, who, kind, uses, seconds, says, id, asked, InLock(s, now));
    case DoRevokeLink(who, operator, id) => RevokeLinkKeepsInv(s, who, operator, id);
    case DoEnrolByLink(id, now) => EnrolByLinkKeepsInv(s, id, InLock(s, now));
    case DoEnrol(name, identity) => EnrolKeepsInv(s, name, identity);
    case DoRedeem(q, now) => RedeemKeepsInv(s, q, expiry, InLock(s, now));
    case DoAccept(k, generation, me, says, now) => AcceptKeepsInv(s, k, generation, me, says, InLock(s, now));
    case DoAdvertise(k, generation, me, says) => AdvertiseKeepsInv(s, k, generation, me, says);
    case DoRevoke(x, y, now) => RevokeKeepsInv(s, x, y, InLock(s, now));
    case DoSend(id, x, y, body, ttl, lane, now) => SendKeepsInv(s, id, x, y, body, ttl, lane, InLock(s, now));
    case DoDeliver(id, x, y, body, until, lane, now) => DeliverKeepsInv(s, id, x, y, body, until, lane, InLock(s, now));
    case DoCollect(recipient, ids, at) => MailOnlyKeepsInv(s, Step(expiry, s, op).mail);
    case DoAck(recipient, acks, at) =>
      AckShrinks(s.mail, recipient, acks, BeforeLock(s, at));
      MailOnlyKeepsInv(s, Step(expiry, s, op).mail);
    case DoSweep(pruned, at) => SweepKeepsInv(s, pruned, expiry, BeforeLock(s, at));
  }

  lemma {:induction false} RunKeepsInv(expiry: real, s: Relay, ops: seq<Op>)
    requires Inv(s)
    ensures Inv(Run(expiry, s, ops)) && EvidenceKept(s, Run(expiry, s, ops))
    decreases |ops|
  {
    if ops == [] {
      assert LinksKept(s.invites, s.invites);
    } else {
      var t := Step(expiry, s, ops[0]);
      StepKeepsInv(expiry, s, ops[0]);
      RunKeepsInv(expiry, t, ops[1..]);
      EvidenceTransitive(s, t, Run(expiry, t, ops[1..]));
    }
  }

  // ----- what a step does to one pair -----------------------------------------------------

  /** An accept changes rows, statements and the clock only. */
  lemma AcceptTouches(s: Relay, k: Pair, generation: nat, me: string, says: Option<bool>, now: real)
    ensures var t := Accept(s, k, generation, me, says, now);
      && t == s.(rows := t.rows, spoke := Said(s, me, k, generation, says).spoke, clock := now)
      && (!Party(k, me) ==> t.rows == s.rows)
      && t.rows.Keys == s.rows.Keys
      && forall x :: x in s.rows ==> t.rows[x].generation == s.rows[x].generation
  {
    var u := Said(s, me, k, generation, says).(clock := now);
    assert u.rows == s.rows && u == s.(spoke := u.spoke, clock := now);
  }

  lemma AdvertiseTouches(s: Relay, k: Pair, generation: nat, me: string, says: Option<bool>)
    ensures var t := Advertise(s, k, generation, me, says);
      && t == s.(rows := t.rows, spoke := Said(s, me, k, generation, says).spoke)
      && t.rows.Keys == s.rows.Keys
      && forall x :: x in s.rows ==> t.rows[x].generation == s.rows[x].generation
  {
    var u := Said(s, me, k, generation, says);
    assert u.rows == s.rows && u == s.(spoke := u.spoke);
  }

  lemma MailLeavesConsent(expiry: real, s: Relay, op: Op)
    requires op.DoSend? || op.DoDeliver? || op.DoCollect? || op.DoAck?
    ensures var t := Step(expiry, s, op); t == s.(mail := t.mail, serial := t.serial, clock := t.clock)
  {
  }

  /** Only ceremonies, revocations and sweeps touch the rows. */
  lemma RowsUntouched(expiry: real, s: Relay, op: Op)
    requires !op.DoRedeem? && !op.DoAccept? && !op.DoAdvertise? && !op.DoRevoke? && !op.DoSweep?
    ensures Step(expiry, s, op).rows == s.rows
  {
    if op.DoSend? || op.DoDeliver? || op.DoCollect? || op.DoAck? {
      MailLeavesConsent(expiry, s, op);
    }
  }

  lemma RevokeMovesPair(expiry: real, s: Relay, op: Op, k: Pair)
    requires op.DoRevoke?
    ensures PairMoves(expiry, s, Step(expiry, s, op), op, k)
  {
  }

  lemma SweepMovesPair(expiry: real, s: Relay, op: Op, k: Pair)
    requires op.DoSweep?
    ensures PairMoves(expiry, s, Step(expiry, s, op), op, k)
    ensures k in s.rows ==> Step(expiry, s, op).rows[k].generation == s.rows[k].generation
    ensures k in Step(expiry, s, op).rows ==>
      Step(expiry, s, op).rows[k] == s.rows[k] || Step(expiry, s, op).rows[k].status == Revoked
  {
  }

  /** The step accepts `k` at generation `g`. */
  predicate Activates(expiry: real, s: Relay, op: Op, k: Pair, g: nat) {
    op.DoAccept? && op.k == k && op.generation == g && Party(k, op.me) && Acceptable(s, k, g, op.me, InLock(s, op.now))
  }

  /** Generations rise only, and only an accept at the current generation activates a row. */
  predicate PairMoves(expiry: real, s: Relay, t: Relay, op: Op, k: Pair) {
    && (k in s.rows ==> k in t.rows && s.rows[k].generation <= t.rows[k].generation)
    && (k in t.rows && t.rows[k].status == Active ==>
          && k in s.rows && s.rows[k].generation == t.rows[k].generation
          && (s.rows[k].status == Active || Activates(expiry, s, op, k, t.rows[k].generation)))
  }

  lemma PairedMovesPair(s: Relay, k: Pair, i: Invite, q: Redemption, expiry: real, now: real, x: Pair)
    requires q.link in s.invites
    ensures var r := Paired(s, k, i, q, expiry, now); r.Some? ==>
      var t := r.value;
      && t.mail == s.mail && t.serial == s.serial && t.clock == s.clock && t.peers == s.peers && t.killed == s.killed
      && (x in s.rows ==> x in t.rows && s.rows[x].generation <= t.rows[x].generation)
      && (x in t.rows && t.rows[x].status == Active ==>
            x in s.rows && s.rows[x].generation == t.rows[x].generation && s.rows[x].status == Active)
  {
    if (q.link, k) !in s.killed && k in s.rows && Idempotent(i, q, s.rows[k], now) {
      assert Paired(s, k, i, q, expiry, now) == Some(Upgraded(s, k, i));
    } else {
      assert Ceremonial(i, q, NextGeneration(s, k, i, q), expiry, now).status == Pending;
    }
  }

  lemma RedeemMovesPair(expiry: real, s: Relay, q: Redemption, now: real, k: Pair)
    ensures var t := Redeem(s, q, expiry, now);
      && t.mail == s.mail && t.serial == s.serial && t.clock == now && t.peers == s.peers && t.killed == s.killed
      && (k in s.rows ==> k in t.rows && s.rows[k].generation <= t.rows[k].generation)
      && (k in t.rows && t.rows[k].status == Active ==>
            k in s.rows && s.rows[k].generation == t.rows[k].generation && s.rows[k].status == Active)
  {
    if q.link in s.invites {
      var i := s.invites[q.link];
      var c := Claimed(s, q);
      assert c.rows == s.rows && c.mail == s.mail && c.serial == s.serial && c.peers == s.peers && c.killed == s.killed;
      var x := PairOf(i.inviter, q.redeemer);
      var h := Heard(c, x, i, q);
      assert h == c.(spoke := h.spoke);
      PairedMovesPair(h, x, i, q, expiry, now, k);
    }
  }

  lemma AcceptMovesPair(expiry: real, s: Relay, op: Op, k: Pair)
    requires op.DoAccept?
    ensures PairMoves(expiry, s, Step(expiry, s, op), op, k)
  {
  }

  lemma AdvertiseMovesPair(expiry: real, s: Relay, op: Op, k: Pair)
    requires op.DoAdvertise?
    ensures PairMoves(expiry, s, Step(expiry, s, op), op, k)
  {
    assert Said(s, op.me, op.k, op.generation, op.says).rows == s.rows;
  }

  lemma StepMovesPair(expiry: real, s: Relay, op: Op, k: Pair)
    ensures PairMoves(expiry, s, Step(expiry, s, op), op, k)
  {
    match op
    case DoRedeem(q, now) => RedeemMovesPair(expiry, s, q, InLock(s, now), k);
    case DoAccept(_, _, _, _, _) => AcceptMovesPair(expiry, s, op, k);
    case DoAdvertise(_, _, _, _) => AdvertiseMovesPair(expiry, s, op, k);
    case DoRevoke(_, _, _) => RevokeMovesPair(expiry, s, op, k);
    case DoSweep(_, _) => SweepMovesPair(expiry, s, op, k);
    case _ => RowsUntouched(expiry, s, op);
  }

  // ----- what a step does to the mail -----------------------------------------------------

  /** A message is as it was: same content, no longer life, still waiting unless it was acknowledged. */
  predicate SameMessage(m: Message, n: Message) {
    && n.serial == m.serial && n.sender == m.sender && n.recipient == m.recipient && n.body == m.body && n.sent == m.sent
    && n.until <= m.until
    && (m.acked.Some? ==> n.acked.Some?)
  }

  /** Nothing old is rewritten; whatever is new carries a new serial. */
  predicate MailMoves(s: Relay, t: Relay) {
    && s.serial <= t.serial && s.clock <= t.clock
    && forall id :: id in t.mail ==> (id in s.mail && SameMessage(s.mail[id], t.mail[id])) || s.serial <= t.mail[id].serial
  }

  lemma {:induction false} AckKeepsMessages(mail: map<string, Message>, recipient: string, ids: seq<string>, at: real)
    ensures var t := AckAll(mail, recipient, ids, at);
      && t.Keys == mail.Keys
      && (forall id :: id in t ==>
            && SameMessage(mail[id], t[id]) && t[id].until == mail[id].until
            && (t[id].acked != mail[id].acked ==> id in ids && mail[id].recipient == recipient))
  {
    if ids != [] {
      AckKeepsMessages(mail, recipient, ids[..|ids| - 1], at);
    }
  }

  /** Ceremonies and links leave the mail alone. */
  lemma ConsentLeavesMail(expiry: real, s: Relay, op: Op)
    requires !op.DoRevoke? && !op.DoSend? && !op.DoDeliver? && !op.DoCollect? && !op.DoAck? && !op.DoSweep?
    ensures var t := Step(expiry, s, op); t.mail == s.mail && t.serial == s.serial && s.clock <= t.clock
  {
    match op
    case DoRedeem(q, now) => RedeemMovesPair(expiry, s, q, InLock(s, now), Pair("", ""));
    case DoAccept(k, generation, me, says, now) => AcceptTouches(s, k, generation, me, says, InLock(s, now));
    case DoAdvertise(k, generation, me, says) => AdvertiseTouches(s, k, generation, me, says);
    case _ =>
  }

  lemma SentMovesMail(expiry: real, s: Relay, op: Op)
    requires op.DoSend? || op.DoDeliver?
    ensures MailMoves(s, Step(expiry, s, op))
  {
  }

  lemma RevokeMovesMail(s: Relay, x: string, y: string, now: real)
    requires s.clock <= now
    ensures MailMoves(s, Revoke(s, x, y, now))
  {
  }

  lemma CollectMovesMail(s: Relay, recipient: string, ids: set<string>, at: real)
    ensures MailMoves(s, Collect(s, recipient, ids, at))
  {
  }

  lemma SweepMovesMail(s: Relay, pruned: set<string>, expiry: real, at: real)
    ensures MailMoves(s, Sweep(s, pruned, expiry, at)) && MailMoves(s, s)
  {
  }

  lemma StepMovesMail(expiry: real, s: Relay, op: Op)
    ensures MailMoves(s, Step(expiry, s, op))
  {
    match op
    case DoAck(recipient, acks, at) => AckKeepsMessages(s.mail, recipient, acks, BeforeLock(s, at));
    case DoRevoke(x, y, now) => RevokeMovesMail(s, x, y, InLock(s, now));
    case DoSend(_, _, _, _, _, _, _) => SentMovesMail(expiry, s, op);
    case DoDeliver(_, _, _, _, _, _, _) => SentMovesMail(expiry, s, op);
    case DoCollect(recipient, ids, at) => CollectMovesMail(s, recipient, ids, BeforeLock(s, at));
    case DoSweep(pruned, at) => SweepMovesMail(s, pruned, expiry, BeforeLock(s, at));
    case _ => ConsentLeavesMail(expiry, s, op);
  }

  lemma MailMovesTransitive(s: Relay, t: Relay, u: Relay)
    requires MailMoves(s, t) && MailMoves(t, u)
    ensures MailMoves(s, u)
  {
  }

  lemma {:induction false} RunMovesMail(expiry: real, s: Relay, ops: seq<Op>)
    ensures MailMoves(s, Run(expiry, s, ops))
    decreases |ops|
  {
    if ops != [] {
      var t := Step(expiry, s, ops[0]);
      StepMovesMail(expiry, s, ops[0]);
      RunMovesMail(expiry, t, ops[1..]);
      MailMovesTransitive(s, t, Run(expiry, t, ops[1..]));
    }
  }
}
