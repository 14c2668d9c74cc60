/**
The relay's consent and mailbox tables and one specification function for each transaction over them:
links, handshakes between pairs of identities, and the mail those handshakes admit.
*/
module ConsentState {
  import opened Ordering
  import opened Wrappers

  // ----- identities and pairs -------------------------------------------------------------

  datatype Pair = Pair(a: string, b: string)

  function PairOf(x: string, y: string): Pair {
    if Leq(x, y) then Pair(x, y) else Pair(y, x)
  }

  predicate Party(k: Pair, x: string) {
    x == k.a || x == k.b
  }

  function Other(k: Pair, x: string): string {
    if x == k.a then k.b else k.a
  }

  /** The pair key does not depend on who asks. */
  lemma PairIsUnordered(x: string, y: string)
    ensures PairOf(x, y) == PairOf(y, x)
  {
    LeqTotal(x, y);
    if Leq(x, y) && Leq(y, x) {
      LeqAntisymmetric(x, y);
    }
  }

  /** It names both, the lesser first. */
  lemma PairIsOrdered(x: string, y: string)
    ensures var k := PairOf(x, y); Leq(k.a, k.b) && ((k.a == x && k.b == y) || (k.a == y && k.b == x))
  {
    LeqTotal(x, y);
  }

  // ----- tables ---------------------------------------------------------------------------

  const PENDING_CAP: nat := 500
  const INVITE_QUOTA: nat := 10
  const INVITE_MAX_USES: nat := 25
  const INVITE_MIN_EXPIRY: real := 60.0
  const INVITE_MAX_EXPIRY: real := 604800.0
  const PENDING_WINDOW: real := 86400.0
  const RETENTION: real := 604800.0
  const DEAD_LETTERS: nat := 2000
  const GENERATION_LIMIT: nat := 0x7fff_ffff_ffff_ffff

  /** `encrypts` is the minter's advertisement; a public request has a target, a short link a claimant. */
  datatype Invite = Invite(
    inviter: string, expires: real, maxUses: nat, uses: nat, revoked: bool,
    handshake: bool, encrypts: bool, target: Option<string>, short: bool, claimed: Option<string>)

  datatype Status = Pending | Active | Revoked

  datatype Provenance = Ceremony | Attested | Unreviewed

  datatype Handshake = Handshake(
    status: Status, pendingUntil: Option<real>, until: Option<real>, via: Option<string>,
    redeemer: Option<string>, generation: nat,
    capable: bool, minterSays: bool, redeemerSays: bool, provenance: Provenance)

  /** `serial` numbers the accepted messages in insertion order. */
  datatype Message = Message(
    serial: nat, sender: string, recipient: string, body: string, sent: real, until: real,
    acked: Option<real>, dead: bool, collected: Option<real>, fetches: nat)

  /**
  Somebody's own statement about a pair at a generation that it can encrypt: in an accept or an advertise
  request, or in the link it minted that was redeemed for that pair then.
  */
  datatype Advert = Advert(who: string, pair: Pair, generation: nat)

  /** `spoke` and `clock` are histories: the statements made so far and the latest in-lock time. */
  datatype Relay = Relay(
    peers: map<string, string>,
    invites: map<string, Invite>,
    rows: map<Pair, Handshake>,
    killed: set<(string, Pair)>,
    mail: map<string, Message>,
    serial: nat,
    spoke: set<Advert>,
    clock: real)

  // ----- links ----------------------------------------------------------------------------

  predicate Spendable(i: Invite, now: real) {
    !i.revoked && now < i.expires && i.uses < i.maxUses
  }

  /** The links of `who` that still count against its quota. */
  function OpenLinks(invites: map<string, Invite>, who: string, now: real): set<string> {
    set l | l in invites && invites[l].inviter == who && Spendable(invites[l], now)
  }

  datatype LinkKind = Enrolment | Bearer | Public(target: string) | Short

  predicate MintAllowed(s: Relay, who: string, kind: LinkKind, uses: int, seconds: real) {
    && 1 <= uses <= INVITE_MAX_USES
    && INVITE_MIN_EXPIRY <= seconds <= INVITE_MAX_EXPIRY
    && (kind.Short? ==> uses == 1)
    && (kind.Public? ==> uses == 1 && kind.target in s.peers.Values && kind.target != who)
  }

  function Minted(who: string, kind: LinkKind, uses: nat, expires: real, says: Option<bool>): Invite {
    Invite(who, expires, uses, 0, false, !kind.Enrolment?,
           if kind.Enrolment? then false else if says.Some? then says.value else kind.Short?,
           if kind.Public? then Some(kind.target) else None, kind.Short?, None)
  }

  function Mint(s: Relay, who: string, kind: LinkKind, uses: int, seconds: real, says: Option<bool>,
                id: string, asked: real, now: real): Relay
  {
    var t := s.(clock := now);
    if !MintAllowed(s, who, kind, uses, seconds) || id in s.invites then t
    else if |OpenLinks(s.invites, who, now)| >= INVITE_QUOTA then t
    else t.(invites := s.invites[id := Minted(who, kind, uses, asked + seconds, says)])
  }

  function RevokeLink(s: Relay, who: string, operator: bool, id: string): Relay {
    if id in s.invites && (s.invites[id].inviter == who || operator)
    then s.(invites := s.invites[id := s.invites[id].(revoked := true)])
    else s
  }

  function Spent(s: Relay, id: string): Relay
    requires id in s.invites
  {
    s.(invites := s.invites[id := s.invites[id].(uses := s.invites[id].uses + 1)])
  }

  /** Plain enrolment over a link. Public requests and short links have no claim secret that fits. */
  function EnrolByLink(s: Relay, id: string, now: real): Relay {
    var t := s.(clock := now);
    if id in s.invites && s.invites[id].target == None && !s.invites[id].short && Spendable(s.invites[id], now)
    then Spent(t, id) else t
  }

  function Enrol(s: Relay, name: string, identity: string): Relay {
    if name in s.peers || identity in s.peers.Values then s else s.(peers := s.peers[name := identity])
  }

  // ----- redeeming a link -----------------------------------------------------------------

  /** One redeem request: what the caller brought and what was read before the write lock. */
  datatype Redemption = Redemption(
    link: string, redeemer: string, public: bool, proved: bool, seenRevoked: bool, asked: real)

  /** The checks made before the transaction, on the link as read then. */
  predicate Presentable(i: Invite, q: Redemption) {
    && i.handshake && !q.seenRevoked && q.asked < i.expires && q.redeemer != i.inviter
    && if q.public then !i.short && i.target == Some(q.redeemer)
       else (i.target == None || i.short) && q.proved
  }

  /** The recheck inside the transaction of public requests and short links. */
  predicate Confirmed(i: Invite, q: Redemption, now: real) {
    && (q.public ==> !i.revoked && now < i.expires)
    && (i.short ==>
        && !i.revoked && now < i.expires
        && (i.claimed == None || i.claimed == Some(q.redeemer))
        && (i.claimed == None ==> i.uses < i.maxUses))
  }

  /** A short link is bound to the first identity that redeems it. */
  function Claimed(s: Relay, q: Redemption): Relay
    requires q.link in s.invites
  {
    var i := s.invites[q.link];
    if i.short && i.claimed == None
    then s.(invites := s.invites[q.link :=
              i.(claimed := Some(q.redeemer), target := Some(q.redeemer), uses := i.uses + 1)])
    else s
  }

  /** The minter asked for a new ceremony while another one is pending. */
  predicate Replaces(i: Invite, q: Redemption, row: Handshake) {
    (q.public || i.short) && row.status == Pending && row.via != Some(q.link)
  }

  predicate Idempotent(i: Invite, q: Redemption, row: Handshake, now: real) {
    || row.status == Active
    || (&& row.status == Pending && row.redeemer == Some(q.redeemer)
        && row.pendingUntil.Some? && now < row.pendingUntil.value
        && ((!q.public && !i.short) || row.via == Some(q.link)))
  }

  predicate Renewable(i: Invite, q: Redemption, row: Handshake, now: real) {
    || row.status == Revoked
    || (row.status == Pending
        && (row.pendingUntil == None || row.pendingUntil.value <= now || Replaces(i, q, row)))
  }

  /** Who holds the minter slot of a row: the inviter of its link, else the lesser identity. */
  function MinterOf(invites: map<string, Invite>, k: Pair, row: Handshake): string {
    if row.via.Some? && row.via.value in invites then invites[row.via.value].inviter else k.a
  }

  /** The slot owner as read from the row's class, where the class and the evidence agree. */
  function SlotOwner(invites: map<string, Invite>, k: Pair, row: Handshake): Option<string> {
    match row.provenance
    case Ceremony =>
      if row.via.Some? && row.via.value in invites && Party(k, invites[row.via.value].inviter)
      then Some(invites[row.via.value].inviter) else None
    case Attested => if row.via == None then Some(k.a) else None
    case Unreviewed => None
  }

  /** An active pair met by a capable link: the issuer's own slot is set, the other preserved. */
  function Upgraded(s: Relay, k: Pair, i: Invite): Relay
    requires k in s.rows
  {
    var row := s.rows[k];
    var owner := SlotOwner(s.invites, k, row);
    if row.status != Active || !i.encrypts || row.capable || owner == None || !Party(k, i.inviter) then s
    else if i.inviter == owner.value
    then s.(rows := s.rows[k := row.(minterSays := true, capable := row.redeemerSays)])
    else s.(rows := s.rows[k := row.(redeemerSays := true, capable := row.minterSays)])
  }

  function Earlier(x: real, y: real): real {
    if x <= y then x else y
  }

  function Ceremonial(i: Invite, q: Redemption, generation: nat, expiry: real, now: real): Handshake {
    Handshake(Pending,
              Some(if i.target.Some? || i.short then Earlier(i.expires, now + PENDING_WINDOW) else now + PENDING_WINDOW),
              if expiry > 0.0 then Some(now + expiry) else None,
              Some(q.link), Some(q.redeemer), generation, false, i.encrypts, false, Ceremony)
  }

  function NextGeneration(s: Relay, k: Pair, i: Invite, q: Redemption): nat {
    if k !in s.rows then 0
    else s.rows[k].generation + (if Replaces(i, q, s.rows[k]) then 1 else 0)
  }

  /** A fresh pending ceremony may begin: the old row allows it and the link has a use to give. */
  predicate MayBegin(s: Relay, k: Pair, i: Invite, q: Redemption, now: real) {
    && (k in s.rows ==> Renewable(i, q, s.rows[k], now))
    && (k in s.rows && Replaces(i, q, s.rows[k]) ==> s.rows[k].generation < GENERATION_LIMIT)
    && if i.short then i.claimed == None else Spendable(i, now)
  }

  /** The pair part of the transaction; `i` is the link as it was before a claim was written. */
  function Paired(s: Relay, k: Pair, i: Invite, q: Redemption, expiry: real, now: real): Option<Relay>
    requires q.link in s.invites
  {
    if (q.link, k) in s.killed then None
    else if k in s.rows && Idempotent(i, q, s.rows[k], now) then Some(Upgraded(s, k, i))
    else if !MayBegin(s, k, i, q, now) then None
    else
      var t := if i.short then s else Spent(s, q.link);
      Some(t.(rows := t.rows[k := Ceremonial(i, q, NextGeneration(s, k, i, q), expiry, now)]))
  }

  /** The minter's advertisement is applied to this pair, at the generation the pair has from now on. */
  function Heard(s: Relay, k: Pair, i: Invite, q: Redemption): Relay {
    if i.encrypts then s.(spoke := s.spoke + {Advert(i.inviter, k, NextGeneration(s, k, i, q))}) else s
  }

  /** None means the link is refused and everything rolled back. */
  function TryRedeem(s: Relay, q: Redemption, expiry: real, now: real): Option<Relay> {
    if q.link !in s.invites then None
    else
      var i := s.invites[q.link];
      if !Presentable(i, q) || !Confirmed(i, q, now) then None
      else
        var k := PairOf(i.inviter, q.redeemer);
        Paired(Heard(Claimed(s, q), k, i, q), k, i, q, expiry, now)
  }

  function Redeem(s: Relay, q: Redemption, expiry: real, now: real): Relay {
    var r := TryRedeem(s, q, expiry, now);
    (if r.Some? then r.value else s).(clock := now)
  }

  // ----- accept, advertise, revoke --------------------------------------------------------

  function Said(s: Relay, me: string, k: Pair, generation: nat, says: Option<bool>): Relay {
    if says == Some(true) then s.(spoke := s.spoke + {Advert(me, k, generation)}) else s
  }

  /** A public request or a short link must still be good when the pending it made is accepted. */
  predicate Backed(i: Invite, me: string, now: real) {
    (i.target.Some? || i.short) ==>
      && !i.revoked && now < i.expires
      && (i.target.Some? ==> i.target.value == me)
      && (i.short && i.claimed.Some? ==> i.claimed.value == me)
  }

  predicate Acceptable(s: Relay, k: Pair, generation: nat, me: string, now: real) {
    && k in s.rows
    && var row := s.rows[k];
       && row.status == Pending && row.redeemer == Some(me)
       && row.pendingUntil.Some? && now < row.pendingUntil.value
       && row.generation == generation
       && (row.via.Some? && row.via.value in s.invites ==> Backed(s.invites[row.via.value], me, now))
  }

  function Accepted(row: Handshake, says: Option<bool>): Handshake {
    var v := says == Some(true);
    row.(status := Active, pendingUntil := None, redeemer := None, redeemerSays := v, capable := row.minterSays && v)
  }

  predicate Reaccepts(s: Relay, k: Pair, generation: nat, me: string) {
    && k in s.rows && s.rows[k].status == Active && s.rows[k].generation == generation
    && var owner := SlotOwner(s.invites, k, s.rows[k]);
       owner.Some? && me == Other(k, owner.value)
  }

  function Accept(s0: Relay, k: Pair, generation: nat, me: string, says: Option<bool>, now: real): Relay {
    var s := Said(s0, me, k, generation, says).(clock := now);
    if !Party(k, me) then s
    else if Acceptable(s, k, generation, me, now)
    then s.(rows := s.rows[k := Accepted(s.rows[k], says)])
    else if says.Some? && Reaccepts(s, k, generation, me)
    then s.(rows := s.rows[k :=
              s.rows[k].(redeemerSays := says.value, capable := s.rows[k].minterSays && says.value)])
    else s
  }

  function Advertise(s0: Relay, k: Pair, generation: nat, me: string, says: Option<bool>): Relay {
    var s := Said(s0, me, k, generation, says);
    if !Party(k, me) || k !in s.rows || says == None then s
    else
      var row := s.rows[k];
      if row.status != Active || row.generation != generation then s
      else if me == MinterOf(s.invites, k, row)
      then s.(rows := s.rows[k := row.(minterSays := says.value, capable := says.value && row.redeemerSays)])
      else s.(rows := s.rows[k := row.(redeemerSays := says.value, capable := row.minterSays && says.value)])
  }

  predicate Between(m: Message, x: string, y: string) {
    (m.sender == x && m.recipient == y) || (m.sender == y && m.recipient == x)
  }

  /** Every unacknowledged, unexpired message between the two names dies now. */
  function DeadLettered(mail: map<string, Message>, x: string, y: string, now: real): map<string, Message> {
    map id | id in mail ::
      if Between(mail[id], x, y) && mail[id].acked == None && now < mail[id].until
      then mail[id].(until := now, dead := true) else mail[id]
  }

  function RevokedRow(row: Handshake): Handshake {
    row.(status := Revoked, pendingUntil := None, redeemer := None, generation := row.generation + 1)
  }

  predicate Revocable(s: Relay, x: string, y: string) {
    && x in s.peers && y in s.peers && s.peers[x] != s.peers[y]
    && var k := PairOf(s.peers[x], s.peers[y]);
       k in s.rows && s.rows[k].status != Revoked
  }

  /** Peer `x` revokes its handshake with peer `y`: row, link memory and mail in one transaction. */
  function Revoke(s: Relay, x: string, y: string, now: real): Relay {
    if !Revocable(s, x, y) then s.(clock := now)
    else
      var k := PairOf(s.peers[x], s.peers[y]);
      var row := s.rows[k];
      s.(rows := s.rows[k := RevokedRow(row)],
         killed := if row.via.Some? then s.killed + {(row.via.value, k)} else s.killed,
         mail := DeadLettered(s.mail, x, y, now),
         clock := now)
  }

  // ----- mail -----------------------------------------------------------------------------

  predicate Waiting(m: Message, recipient: string, now: real) {
    m.recipient == recipient && m.acked == None && now < m.until
  }

  /** What a poll of `recipient` with clock sample `now` returns. */
  function Poll(mail: map<string, Message>, recipient: string, now: real): set<string> {
    set id | id in mail && Waiting(mail[id], recipient, now)
  }

  predicate Consented(s: Relay, x: string, y: string, now: real) {
    && x in s.peers && y in s.peers
    && var k := PairOf(s.peers[x], s.peers[y]);
       && k in s.rows && s.rows[k].status == Active
       && (s.rows[k].until.Some? ==> now < s.rows[k].until.value)
  }

  function Stored(s: Relay, id: string, x: string, y: string, body: string, until: real, now: real): Relay {
    s.(mail := s.mail[id := Message(s.serial, x, y, body, now, until, None, false, None, 0)],
       serial := s.serial + 1, clock := now)
  }

  datatype Answer = Taken | Duplicate | Collision | NeedsConsent | QueueFull | NotLocal | LocalSender

  /** The verdict of a local send; `lane` says the federation outbox already owns the id. */
  function SendVerdict(s: Relay, id: string, x: string, y: string, lane: bool, now: real): Answer {
    if id in s.mail then (if s.mail[id].sender == x then Duplicate else Collision)
    else if lane then Collision
    else if !Consented(s, x, y, now) then NeedsConsent
    else if |Poll(s.mail, y, now)| >= PENDING_CAP then QueueFull
    else Taken
  }

  function Send(s: Relay, id: string, x: string, y: string, body: string, ttl: real, lane: bool, now: real): Relay {
    if SendVerdict(s, id, x, y, lane, now) == Taken then Stored(s, id, x, y, body, now + ttl, now)
    else s.(clock := now)
  }

  /** The verdict of an attested delivery from a linked relay: only for a local recipient, never for a local sender. */
  function DeliverVerdict(s: Relay, id: string, x: string, y: string, body: string, lane: bool, now: real): Answer {
    if y !in s.peers then NotLocal
    else if x in s.peers then LocalSender
    else if id in s.mail then
      if s.mail[id].sender == x && s.mail[id].body == body then Duplicate else Collision
    else if lane then Collision
    else if |Poll(s.mail, y, now)| >= PENDING_CAP then QueueFull
    else Taken
  }

  function Deliver(s: Relay, id: string, x: string, y: string, body: string, until: real, lane: bool, now: real): Relay {
    if DeliverVerdict(s, id, x, y, body, lane, now) == Taken
    then Stored(s, id, x, y, body, until, now)
    else s.(clock := now)
  }

  function CollectedMessage(m: Message, at: real): Message {
    m.(collected := if m.collected.Some? then m.collected else Some(at), fetches := m.fetches + 1)
  }

  /** After a poll returned `ids`: record the collection of those still alive. */
  function Collect(s: Relay, recipient: string, ids: set<string>, at: real): Relay {
    s.(mail := map id | id in s.mail ::
         if id in ids && s.mail[id].recipient == recipient && at < s.mail[id].until && !s.mail[id].dead
         then CollectedMessage(s.mail[id], at) else s.mail[id])
  }

  function AckOne(mail: map<string, Message>, recipient: string, id: string, at: real): map<string, Message> {
    if id in mail && mail[id].recipient == recipient && mail[id].acked == None
    then mail[id := mail[id].(acked := Some(at))] else mail
  }

  function AckAll(mail: map<string, Message>, recipient: string, ids: seq<string>, at: real): map<string, Message> {
    if ids == [] then mail
    else AckOne(AckAll(mail, recipient, ids[..|ids| - 1], at), recipient, ids[|ids| - 1], at)
  }

  function Ack(s: Relay, recipient: string, ids: seq<string>, at: real): Relay {
    s.(mail := AckAll(s.mail, recipient, ids, at))
  }

  // ----- sweep ----------------------------------------------------------------------------

  predicate Finished(m: Message, at: real) {
    || (m.acked.Some? && (m.until <= at || m.acked.value <= at - RETENTION))
    || (m.acked == None && m.until <= at - RETENTION)
  }

  predicate DeadLetter(m: Message, at: real) {
    m.acked == None && m.until <= at
  }

  /** The dead letters that retention leaves. */
  function DeadLetters(mail: map<string, Message>, at: real): set<string> {
    set id | id in mail && !Finished(mail[id], at) && DeadLetter(mail[id], at)
  }

  /** `pruned` is all but the newest of them, as many as are kept; equally old ones may go in any order. */
  predicate Overflow(mail: map<string, Message>, pruned: set<string>, at: real) {
    var dead := DeadLetters(mail, at);
    && pruned <= dead
    && |dead - pruned| == (if |dead| <= DEAD_LETTERS then |dead| else DEAD_LETTERS)
    && forall p, k :: p in pruned && k in dead && k !in pruned ==> mail[p].sent <= mail[k].sent
  }

  /** `pruned` is the overflow of dead letters. */
  function SweptMail(mail: map<string, Message>, pruned: set<string>, at: real): map<string, Message> {
    map id | id in mail && !Finished(mail[id], at) && !(id in pruned && DeadLetter(mail[id], at)) :: mail[id]
  }

  predicate Lapsed(row: Handshake, expiry: real, at: real) {
    || (row.status == Pending && row.pendingUntil.Some? && row.pendingUntil.value <= at)
    || (expiry > 0.0 && row.status != Revoked && row.until.Some? && row.until.value <= at)
  }

  /** Expiry retires a row without touching its generation, its link or its mail. */
  function SweptRows(rows: map<Pair, Handshake>, expiry: real, at: real): map<Pair, Handshake> {
    map k | k in rows ::
      if Lapsed(rows[k], expiry, at)
      then rows[k].(status := Revoked, pendingUntil := None, redeemer := None) else rows[k]
  }

  function Sweep(s: Relay, pruned: set<string>, expiry: real, at: real): Relay {
    s.(mail := SweptMail(s.mail, pruned, at), rows := SweptRows(s.rows, expiry, at))
  }
}
