/**
Forwarding between two relays: the source's durable outbox and its single forwarder, a network that
loses and repeats, and the destination's mailbox.
*/
module ForwardingState {
  import opened Wrappers

  const RETENTION: real := 604800.0
  const MAX_BACKOFF: real := 300.0

  function Pow2(n: nat): nat {
    if n == 0 then 1 else 2 * Pow2(n - 1)
  }

  /** The delay before attempt number `attempts` + 1: doubling from five seconds, bounded. */
  function Backoff(attempts: nat): real {
    var d := 5.0 * Pow2(if attempts < 6 then attempts else 6) as real;
    if d < MAX_BACKOFF then d else MAX_BACKOFF
  }

  // ----- tables ---------------------------------------------------------------------------

  datatype State = Queued | Inflight | Delivered | Rejected | Failed | Expired

  /** What the destination compares on a redelivery. */
  datatype Content = Content(sender: string, payload: string, version: nat)

  /** `serial` tells apart two rows that carried the same id one after the other. */
  datatype Row = Row(
    serial: nat, recipient: string, content: Content, expires: real,
    state: State, attempts: nat, next: real, created: real)

  /** A row as it was read when the forwarder claimed it. */
  datatype Claim = Claim(id: string, row: Row)

  datatype Request = Request(id: string, content: Content, expires: real, nonce: nat)

  /** A signed acceptance binds the nonce and the id. */
  datatype Acceptance = Acceptance(nonce: nat, id: string)

  /**
  `flight` is the attempt under way, and `posted` says that its request has left; `stored` is the history
  of everything the destination ever stored.
  */
  datatype World = World(
    outbox: map<string, Row>, serial: nat,
    claims: seq<Claim>, flight: Option<Claim>, posted: bool, nonce: nat,
    requests: set<Request>, acceptances: set<Acceptance>,
    mailbox: map<string, Content>, stored: set<(string, Content)>)

  predicate Final(s: State) {
    s.Delivered? || s.Rejected? || s.Failed?
  }

  predicate Open(s: State) {
    s.Queued? || s.Inflight?
  }

  // ----- source ---------------------------------------------------------------------------

  datatype Reply = Enqueued | Duplicate | Collision | NoGrant

  function EnqueueReply(outbox: map<string, Row>, id: string, recipient: string, c: Content, lane: bool, grant: bool): Reply {
    if id in outbox then
      if outbox[id].content == c && outbox[id].recipient == recipient then Duplicate else Collision
    else if lane then Collision
    else if !grant then NoGrant
    else Enqueued
  }

  /** A send to a recipient on another home; `lane` says the local lane owns the id already. */
  function Enqueue(outbox: map<string, Row>, serial: nat, id: string, recipient: string, c: Content,
                   ttl: real, lane: bool, grant: bool, now: real): map<string, Row>
  {
    if EnqueueReply(outbox, id, recipient, c, lane, grant) == Enqueued
    then outbox[id := Row(serial, recipient, c, now + ttl, Queued, 0, now, now)] else outbox
  }

  function Lapsed(outbox: map<string, Row>, now: real): map<string, Row> {
    map id | id in outbox ::
      if Open(outbox[id].state) && outbox[id].expires <= now then outbox[id].(state := Expired) else outbox[id]
  }

  predicate Prunable(r: Row, now: real) {
    !Open(r.state) && r.created <= now - RETENTION
  }

  /** The hourly hygiene: expire, then prune the terminal rows past retention. */
  function Swept(outbox: map<string, Row>, now: real): map<string, Row> {
    var lapsed := Lapsed(outbox, now);
    map id | id in lapsed && !Prunable(lapsed[id], now) :: lapsed[id]
  }

  predicate Due(r: Row, now: real) {
    Open(r.state) && r.next <= now && now < r.expires
  }

  predicate Distinct(ids: seq<string>) {
    forall i, j :: 0 <= i < j < |ids| ==> ids[i] != ids[j]
  }

  /** `ids` is what the selection of due rows returned. */
  predicate Selection(outbox: map<string, Row>, ids: seq<string>, now: real) {
    Distinct(ids) && forall id :: id in ids ==> id in outbox && Due(outbox[id], now)
  }

  function Claimed(outbox: map<string, Row>, ids: seq<string>): map<string, Row> {
    map id | id in outbox :: if id in ids then outbox[id].(state := Inflight) else outbox[id]
  }

  function ClaimsOf(outbox: map<string, Row>, ids: seq<string>): (cs: seq<Claim>)
    requires forall id :: id in ids ==> id in outbox
    ensures |cs| == |ids| && forall i :: 0 <= i < |ids| ==> cs[i] == Claim(ids[i], outbox[ids[i]])
  {
    seq(|ids|, i requires 0 <= i < |ids| => Claim(ids[i], outbox[ids[i]]))
  }

  /** How an attempt ended, as the forwarder sees it. */
  datatype Outcome =
    | Raised                       // transport, parse or forwarder error
    | Proven                       // an acceptance whose signature over this nonce verified
    | Unproven                     // an acceptance that did not verify
    | Busy(wait: Option<real>)     // 429
    | Refused                      // 400, 403 or 409
    | Odd                          // anything else that was answered
    | Corrupt                      // the stored payload cannot be parsed: nothing was sent
    | Unsigned                     // the attestation could not be signed: nothing was sent

  function MarkOf(o: Outcome): State {
    match o
    case Proven => Delivered
    case Refused => Rejected
    case Corrupt => Rejected
    case Unsigned => Failed
    case _ => Queued
  }

  /** The update by id alone: state, attempt count and next attempt. */
  function Marked(outbox: map<string, Row>, c: Claim, o: Outcome, now: real): map<string, Row> {
    if c.id !in outbox then outbox
    else
      var r := outbox[c.id];
      var s := MarkOf(o);
      if s != Queued then outbox[c.id := r.(state := s)]
      else
        var wait := if o.Busy? && o.wait.Some? then (if o.wait.value < MAX_BACKOFF then o.wait.value else MAX_BACKOFF)
                    else Backoff(c.row.attempts + 1);
        outbox[c.id := r.(state := Queued, attempts := r.attempts + 1, next := now + wait)]
  }

  function MarkExpired(outbox: map<string, Row>, id: string): map<string, Row> {
    if id in outbox then outbox[id := outbox[id].(state := Expired)] else outbox
  }

  // ----- steps ----------------------------------------------------------------------------

  datatype Op =
    | DoSend(id: string, recipient: string, content: Content, ttl: real, lane: bool, grant: bool, now: real)
    | DoSweep(now: real)
    | DoClaim(ids: seq<string>, now: real)
    | DoStart(now: real)
    | DoPost
    | DoFinish(outcome: Outcome, now: real)
    | DoCrash
    | DoDeliver(request: Request, admits: bool, room: bool)
    | DoLocal(id: string, content: Content)
    | DoRemove(id: string)

  /** The head claim is attempted, unless its time ran out. */
  function Start(w: World, now: real): World {
    if w.flight.Some? || w.claims == [] then w
    else
      var c := w.claims[0];
      if c.row.expires <= now then w.(outbox := MarkExpired(w.outbox, c.id), claims := w.claims[1..])
      else w.(claims := w.claims[1..], flight := Some(c), posted := false)
  }

  /** The payload was parsed and the attestation signed: the request goes onto the wire under a new nonce. */
  function Post(w: World): World {
    if w.flight == None || w.posted then w
    else
      var c := w.flight.value;
      w.(posted := true, nonce := w.nonce + 1,
         requests := w.requests + {Request(c.id, c.row.content, c.row.expires, w.nonce)})
  }

  /** An answer needs a request, a local refusal comes before it, and a proof needs this nonce answered. */
  predicate Possible(w: World, o: Outcome) {
    && w.flight.Some?
    && (o.Corrupt? || o.Unsigned? ==> !w.posted)
    && (o.Proven? || o.Unproven? || o.Busy? || o.Refused? || o.Odd? ==> w.posted)
    && (o.Proven? ==> w.nonce > 0 && Acceptance(w.nonce - 1, w.flight.value.id) in w.acceptances)
  }

  function Finish(w: World, o: Outcome, now: real): World {
    if !Possible(w, o) then w
    else w.(outbox := Marked(w.outbox, w.flight.value, o, now), flight := None)
  }

  /** The destination processes a request that was once sent, any number of times. */
  function Deliver(w: World, q: Request, admits: bool, room: bool): World {
    if q !in w.requests || !admits then w
    else if q.id in w.mailbox then
      if w.mailbox[q.id] == q.content then w.(acceptances := w.acceptances + {Acceptance(q.nonce, q.id)}) else w
    else if !room then w
    else w.(mailbox := w.mailbox[q.id := q.content], stored := w.stored + {(q.id, q.content)},
            acceptances := w.acceptances + {Acceptance(q.nonce, q.id)})
  }

  function Step(w: World, op: Op): World {
    match op
    case DoSend(id, recipient, c, ttl, lane, grant, now) =>
      w.(outbox := Enqueue(w.outbox, w.serial, id, recipient, c, ttl, lane, grant, now), serial := w.serial + 1)
    case DoSweep(now) => w.(outbox := Swept(w.outbox, now))
    case DoClaim(ids, now) =>
      if w.claims == [] && w.flight == None && Selection(Lapsed(w.outbox, now), ids, now)
      then w.(outbox := Claimed(Lapsed(w.outbox, now), ids), claims := ClaimsOf(Lapsed(w.outbox, now), ids))
      else w
    case DoStart(now) => Start(w, now)
    case DoPost => Post(w)
    case DoFinish(o, now) => Finish(w, o, now)
    case DoCrash => w.(claims := [], flight := None)
    case DoDeliver(q, admits, room) => Deliver(w, q, admits, room)
    case DoLocal(id, c) => if id in w.mailbox then w else w.(mailbox := w.mailbox[id := c], stored := w.stored + {(id, c)})
    case DoRemove(id) => w.(mailbox := w.mailbox - {id})
  }

  function Run(w: World, ops: seq<Op>): World
    decreases |ops|
  {
    if ops == [] then w else Run(Step(w, ops[0]), ops[1..])
  }

  function Fresh(): World {
    World(map[], 0, [], None, false, 0, {}, {}, map[], {})
  }
}
