/**
The durable tables of the federation authority and one specification function for each of its
transactions. A function takes the committed tables and gives the tables after the transaction
(unchanged when the transaction rolls back) together with what the caller is told.
*/
module AuthorityState {
  import opened Wrappers

  // ----- tables ---------------------------------------------------------------------------

  datatype GrantState = OK | SUSPECT | CAPPED | REVOKED

  datatype Lifecycle = Reserved | Inflight | Sent | FailedUnknown | Retry | Released

  /** The outbox state column holds either `held` or a reservation's lifecycle stage. */
  datatype OutboxState = Held | At(stage: Lifecycle)

  datatype Grant = Grant(generation: nat, state: GrantState, tombstone: Option<string>, watermark: real)

  /** A row of queued_messages or held_messages. */
  datatype Binding = Binding(grant: string, generation: nat)

  datatype Outbox = Outbox(grant: string, generation: nat, state: OutboxState)

  datatype Reservation = Reservation(
    grant: string, generation: nat, msg: string, snapshot: GrantState, state: Lifecycle, attempts: nat)

  datatype Hold = Hold(grant: string, generation: nat, res: Option<string>)

  datatype Ndr = Ndr(grant: string, generation: nat, reason: string, detail: string)

  /** `resOf` is the UNIQUE index of reservations on msg_id. */
  datatype Store = Store(
    grants: map<string, Grant>,
    queued: map<string, Binding>,
    held: map<string, Binding>,
    ndrs: map<string, Ndr>,
    outbox: map<string, Outbox>,
    reservations: map<string, Reservation>,
    resOf: map<string, string>,
    holds: map<string, Hold>,
    nonces: set<string>,
    evidence: set<string>)

  predicate Live(stage: Lifecycle) {
    stage.Reserved? || stage.Inflight? || stage.FailedUnknown? || stage.Retry?
  }

  /** A grant that may dispatch: it exists, is OK and carries no tombstone. */
  predicate Open(s: Store, g: string) {
    g in s.grants && s.grants[g].state == OK && s.grants[g].tombstone == None
  }

  predicate Terminal(grant: Grant) {
    grant.state == REVOKED || grant.tombstone != None
  }

  function WithGrant(s: Store, g: string, grant: Grant): Store {
    s.(grants := s.grants[g := grant])
  }

  // ----- carrying live bindings across one grant edge -------------------------------------

  predicate LiveBinding(r: Reservation, g: string, gen: nat) {
    r.grant == g && r.generation == gen && r.snapshot == OK && Live(r.state)
  }

  /** The authoritative hold lineage of a message at generation `gen` of grant `g`. */
  predicate Lineage(s: Store, m: string, g: string, gen: nat) {
    && m in s.holds && s.holds[m].grant == g && s.holds[m].generation == gen
    && m in s.outbox && s.outbox[m] == Outbox(g, gen, Held)
    && m in s.held && s.held[m] == Binding(g, gen)
    && m !in s.ndrs
    && match s.holds[m].res
       case None => m !in s.resOf
       case Some(r) =>
         r in s.reservations && s.reservations[r].msg == m && LiveBinding(s.reservations[r], g, gen)
  }

  /** The outbox row mirrors the stage of a live reservation already bound to `next`. */
  predicate MirrorsLive(reservations: map<string, Reservation>, resOf: map<string, string>,
                        m: string, row: Outbox, next: nat)
  {
    && m in resOf && resOf[m] in reservations
    && var r := reservations[resOf[m]];
       r.msg == m && LiveBinding(r, row.grant, next) && row.state == At(r.state)
  }

  function AdvancedReservations(rows: map<string, Reservation>, g: string, prev: nat, next: nat): map<string, Reservation> {
    map r | r in rows :: if LiveBinding(rows[r], g, prev) then rows[r].(generation := next) else rows[r]
  }

  function MovedTo(b: Binding, next: nat): Binding {
    b.(generation := next)
  }

  /**
  Every live reservation of `g` at `prev`, every outbox row mirroring one of them and every
  authoritative hold of `g` at `prev` moves to `next`; all other rows stay where they are.
  */
  function Advanced(s: Store, g: string, prev: nat, next: nat): Store {
    var rs := AdvancedReservations(s.reservations, g, prev, next);
    s.(reservations := rs,
       outbox := map m | m in s.outbox ::
         if s.outbox[m].grant == g && s.outbox[m].generation == prev
            && (MirrorsLive(rs, s.resOf, m, s.outbox[m], next) || Lineage(s, m, g, prev))
         then s.outbox[m].(generation := next) else s.outbox[m],
       held := map m | m in s.held ::
         if Lineage(s, m, g, prev) then MovedTo(s.held[m], next) else s.held[m],
       holds := map m | m in s.holds ::
         if Lineage(s, m, g, prev) then s.holds[m].(generation := next) else s.holds[m])
  }

  /** One grant edge: the grant row moves first, then its live bindings follow. */
  function Edge(s: Store, g: string, grant: Grant): Store
    requires g in s.grants
  {
    Advanced(WithGrant(s, g, grant), g, s.grants[g].generation, grant.generation)
  }

  // ----- suspension -----------------------------------------------------------------------

  datatype Reply = Done | Refused

  function SetGrant(s: Store, g: string, target: GrantState): (Store, Reply) {
    if g !in s.grants then (s, Refused)
    else
      var row := s.grants[g];
      if target == row.state then (s, Done)
      else if Terminal(row) || target != SUSPECT || row.state != OK then (s, Refused)
      else (Edge(s, g, row.(generation := row.generation + 1, state := SUSPECT)), Done)
  }

  // ----- queue and display rows -----------------------------------------------------------

  function QueueMessage(s: Store, g: string, m: string): (Store, Reply) {
    if g !in s.grants then (s, Refused)
    else (s.(queued := s.queued[m := Binding(g, s.grants[g].generation)]), Done)
  }

  function MarkHeld(s: Store, g: string, m: string): (Store, Reply) {
    if g !in s.grants then (s, Refused)
    else (s.(held := s.held[m := Binding(g, s.grants[g].generation)]), Done)
  }

  function ResolveQueued(s: Store, m: string): Store {
    s.(queued := s.queued - {m})
  }

  // ----- non-delivery records, caps and revocations ---------------------------------------

  /** Messages with a queued or held row of the grant. */
  function Stranded(s: Store, g: string): set<string> {
    (set m | m in s.queued && s.queued[m].grant == g) + (set m | m in s.held && s.held[m].grant == g)
  }

  /** Every stranded message without a record gets this one; existing records stay. */
  function WithNdrs(ndrs: map<string, Ndr>, stranded: set<string>, ndr: Ndr): map<string, Ndr> {
    map m | m in ndrs.Keys + stranded :: if m in ndrs then ndrs[m] else ndr
  }

  function DropPending(s: Store, g: string): Store {
    s.(queued := map m | m in s.queued && s.queued[m].grant != g :: s.queued[m],
       held := map m | m in s.held && s.held[m].grant != g :: s.held[m])
  }

  const CapReason := "partition_cap"
  const CapDetail := "partition cap executed"
  const RevokeReason := "rejected_consent"

  function RevokeDetail(reason: string): string {
    "tombstone: " + reason
  }

  /** A live reservation of a stranded message at the cap generation. */
  predicate ReleasedByCap(r: Reservation, g: string, next: nat, stranded: set<string>) {
    r.grant == g && r.msg in stranded && r.generation == next && Live(r.state)
  }

  function ReleasedReservations(rows: map<string, Reservation>, g: string, next: nat,
                                stranded: set<string>): map<string, Reservation>
  {
    map r | r in rows :: if ReleasedByCap(rows[r], g, next, stranded) then rows[r].(state := Released) else rows[r]
  }

  /** The outbox row of a released reservation, at the generation before or after the cap. */
  predicate OutboxReleasedByCap(row: Outbox, m: string, reservations: map<string, Reservation>,
                                resOf: map<string, string>, g: string, prev: nat, next: nat, stranded: set<string>)
  {
    && m in resOf && resOf[m] in reservations && reservations[resOf[m]].msg == m
    && ReleasedByCap(reservations[resOf[m]], g, next, stranded)
    && row.grant == g && (row.generation == prev || row.generation == next)
    && (row.state == Held || Live(row.state.stage))
  }

  function ReleasedOutbox(rows: map<string, Outbox>, reservations: map<string, Reservation>,
                          resOf: map<string, string>, g: string, prev: nat, next: nat,
                          stranded: set<string>): map<string, Outbox>
  {
    map m | m in rows ::
      if OutboxReleasedByCap(rows[m], m, reservations, resOf, g, prev, next, stranded)
      then Outbox(g, next, At(Released)) else rows[m]
  }

  /** Releases the live reservations of stranded messages, with their outbox rows. */
  function ReleaseStranded(s: Store, g: string, prev: nat, next: nat, stranded: set<string>): Store {
    s.(reservations := ReleasedReservations(s.reservations, g, next, stranded),
       outbox := ReleasedOutbox(s.outbox, s.reservations, s.resOf, g, prev, next, stranded))
  }

  /** NDRs for the stranded messages, release of their live reservations, removal of their rows. */
  function ResolveCapped(s: Store, g: string, prev: nat, next: nat): Store {
    var stranded := Stranded(s, g);
    var s1 := s.(ndrs := WithNdrs(s.ndrs, stranded, Ndr(g, next, CapReason, CapDetail)));
    DropPending(ReleaseStranded(s1, g, prev, next, stranded), g)
  }

  function CapRow(row: Grant): Grant {
    row.(generation := row.generation + 1, state := CAPPED)
  }

  function Capped(s: Store, g: string): Store
    requires g in s.grants
  {
    var row := s.grants[g];
    ResolveCapped(Edge(s, g, CapRow(row)), g, row.generation, row.generation + 1)
  }

  /** Whether the configured cap is crossed at this clock sample for a grant that can still cap. */
  predicate CapDue(cap: Option<real>, s: Store, g: string, now: real) {
    && cap.Some? && g in s.grants
    && s.grants[g].state != CAPPED && !Terminal(s.grants[g])
    && now - s.grants[g].watermark >= cap.value
  }

  function EnforceCap(cap: Option<real>, s: Store, g: string, now: real): Store {
    if CapDue(cap, s, g, now) then Capped(s, g) else s
  }

  datatype CapReply = CapDone(resolved: set<string>) | CapNotDue | CapRefused

  /** The messages whose NDR the cap transition itself writes. */
  function CapResolved(s: Store, g: string): set<string>
    requires g in s.grants
  {
    Capped(s, g).ndrs.Keys - s.ndrs.Keys
  }

  function ApplyCap(s: Store, g: string, now: real, threshold: real): (Store, CapReply) {
    if threshold <= 0.0 || g !in s.grants || Terminal(s.grants[g]) then (s, CapRefused)
    else if s.grants[g].state == CAPPED then (s, CapDone({}))
    else if now - s.grants[g].watermark < threshold then (s, CapNotDue)
    else (Capped(s, g), CapDone(CapResolved(s, g)))
  }

  // ----- revocation batches ---------------------------------------------------------------

  predicate Distinct(gids: seq<string>) {
    forall i, j :: 0 <= i < j < |gids| ==> gids[i] != gids[j]
  }

  predicate Revocable(s: Store, gids: seq<string>) {
    forall i :: 0 <= i < |gids| ==> gids[i] in s.grants && !Terminal(s.grants[gids[i]])
  }

  function Tombstoned(row: Grant, reason: string): Grant {
    row.(generation := row.generation + 1, state := REVOKED, tombstone := Some(reason))
  }

  function TombstoneAll(s: Store, gids: seq<string>, reason: string): Store {
    s.(grants := map g | g in s.grants ::
         if g in gids then Tombstoned(s.grants[g], reason) else s.grants[g])
  }

  /** The rows of one revoked grant are resolved by NDRs and dropped. */
  function ResolveRevoked(s: Store, g: string, reason: string): Store
    requires g in s.grants
  {
    var ndr := Ndr(g, s.grants[g].generation, RevokeReason, RevokeDetail(reason));
    DropPending(s.(ndrs := WithNdrs(s.ndrs, Stranded(s, g), ndr)), g)
  }

  function ResolveAll(s: Store, gids: seq<string>, reason: string): (t: Store)
    requires forall i :: 0 <= i < |gids| ==> gids[i] in s.grants
    ensures t.grants == s.grants
    decreases |gids|
  {
    if gids == [] then s else ResolveAll(ResolveRevoked(s, gids[0], reason), gids[1..], reason)
  }

  datatype RevokeReply = RevokeDone(grants: nat, ndrs: nat) | NonceReplay | RevokeRefused

  function RevokeBatch(s: Store, nonce: string, gids: seq<string>, reason: string): (Store, RevokeReply) {
    if gids == [] || !Distinct(gids) then (s, RevokeRefused)
    else if nonce in s.nonces then (s, NonceReplay)
    else if !Revocable(s, gids) then (s, RevokeRefused)
    else
      var s1 := TombstoneAll(s, gids, reason).(nonces := s.nonces + {nonce});
      var s2 := ResolveAll(s1, gids, reason);
      (s2, RevokeDone(|gids|, |s2.ndrs.Keys - s.ndrs.Keys|))
  }

  // ----- verified reopen ------------------------------------------------------------------

  /** Parsed recheck evidence; `authentic` stands for the shape, key and signature checks. */
  datatype Evidence = Evidence(
    id: string, grant: string, expected: nat, prior: GrantState, verifiedAt: real, authentic: bool)

  predicate Admissible(s: Store, ev: Evidence) {
    && ev.authentic && ev.expected >= 1 && (ev.prior == CAPPED || ev.prior == SUSPECT)
    && ev.id !in s.evidence
    && ev.grant in s.grants
    && var row := s.grants[ev.grant];
       && row.generation == ev.expected && !Terminal(row) && row.state == ev.prior
       && ev.verifiedAt > row.watermark
  }

  function Recheck(s: Store, ev: Evidence): (Store, Reply) {
    if !Admissible(s, ev) then (s, Refused)
    else
      (Edge(s.(evidence := s.evidence + {ev.id}), ev.grant, Grant(ev.expected + 1, OK, None, ev.verifiedAt)), Done)
  }

  // ----- reservations ---------------------------------------------------------------------

  datatype ReserveReply = Reserve(res: string) | ReserveDenied | ReserveFailed

  function WithReservation(s: Store, res: string, r: Reservation): Store {
    s.(reservations := s.reservations[res := r], resOf := s.resOf[r.msg := res])
  }

  function FreshReservation(s: Store, g: string, m: string): Reservation
    requires g in s.grants
  {
    Reservation(g, s.grants[g].generation, m, OK, Reserved, 0)
  }

  /** A pre-reservation lineage at the grant's current generation is adopted by the reservation. */
  function Adopted(s: Store, g: string, m: string, res: string): Store
    requires g in s.grants
  {
    if Lineage(s, m, g, s.grants[g].generation) && s.holds[m].res == None
    then s.(holds := s.holds[m := s.holds[m].(res := Some(res))]) else s
  }

  /** A fresh id that is already taken violates the primary key: the insert rolls back. */
  function ReserveDispatch(s: Store, g: string, m: string, newId: string): (Store, ReserveReply) {
    if !Open(s, g) then (s, ReserveDenied)
    else if m in s.resOf then (s, Reserve(s.resOf[m]))
    else if newId in s.reservations then (s, ReserveFailed)
    else (WithReservation(Adopted(s, g, m, newId), newId, FreshReservation(s, g, m)), Reserve(newId))
  }

  function ReconcileInflight(s: Store, res: string): (Store, Option<Lifecycle>) {
    if res !in s.reservations then (s, None)
    else
      var r := s.reservations[res];
      if r.state != Inflight then (s, Some(r.state))
      else
        (s.(reservations := s.reservations[res := r.(state := FailedUnknown)],
            outbox := Restaged(s.outbox, r.msg, Inflight, FailedUnknown)), Some(FailedUnknown))
  }

  function ScheduleRetry(s: Store, res: string): (Store, Option<Lifecycle>) {
    if res !in s.reservations || s.reservations[res].state != FailedUnknown then (s, None)
    else
      var r := s.reservations[res];
      (s.(reservations := s.reservations[res := r.(state := Retry)],
          outbox := Restaged(s.outbox, r.msg, FailedUnknown, Retry)), Some(Retry))
  }

  /** The outbox row of `m` follows only when it is exactly at `from`. */
  function Restaged(outbox: map<string, Outbox>, m: string, from: Lifecycle, to: Lifecycle): map<string, Outbox> {
    if m in outbox && outbox[m].state == At(from) then outbox[m := outbox[m].(state := At(to))] else outbox
  }

  /** The outbox is left as it is. */
  function ReleaseReservation(s: Store, res: string): (Store, Reply) {
    if res !in s.reservations || s.reservations[res].state == Sent then (s, Refused)
    else (s.(reservations := s.reservations[res := s.reservations[res].(state := Released)]), Done)
  }

  // ----- the action fence -----------------------------------------------------------------

  datatype Verdict = Handoff(res: string) | HeldBack | AlreadySent | Uncertain | Failed

  function HoldRow(s: Store, m: string, g: string, gen: nat): Store {
    s.(holds := s.holds - {m},
       outbox := s.outbox[m := Outbox(g, gen, Held)],
       held := s.held[m := Binding(g, gen)])
  }

  function GenerationOf(s: Store, g: string): nat {
    if g in s.grants then s.grants[g].generation else 0
  }

  function ReservationOf(s: Store, m: string): Option<string> {
    if m in s.resOf then Some(s.resOf[m]) else None
  }

  /** The outbox row of a message at a closed grant is backed by its lineage or its reservation. */
  predicate BackedAtClosed(s: Store, m: string, g: string, gen: nat)
    requires m in s.outbox
  {
    match s.outbox[m].state
    case Held =>
      m in s.holds && s.holds[m].grant == g && s.holds[m].generation == gen
      && s.holds[m].res == ReservationOf(s, m)
    case At(stage) =>
      m in s.resOf && s.resOf[m] in s.reservations && s.reservations[s.resOf[m]].state == stage
  }

  /** The reservation, and the id the caller supplied, belong to this grant and generation. */
  predicate BoundAtClosed(s: Store, m: string, g: string, gen: nat, supplied: Option<string>) {
    if m in s.resOf then
      s.resOf[m] in s.reservations && LiveBinding(s.reservations[s.resOf[m]], g, gen)
      && (supplied == None || supplied == Some(s.resOf[m]))
    else supplied == None
  }

  function DecideClosed(s: Store, g: string, m: string, supplied: Option<string>): (Store, Verdict) {
    var gen := GenerationOf(s, g);
    if m in s.outbox && !BackedAtClosed(s, m, g, gen) then (s, HeldBack)
    else if !BoundAtClosed(s, m, g, gen, supplied) then (s, HeldBack)
    else if g !in s.grants then (s, Failed)  // the held row would violate its foreign key
    else
      var s1 := HoldRow(s, m, g, gen);
      if s.grants[g].tombstone == None && s.grants[g].state == SUSPECT
      then (s1.(holds := s1.holds[m := Hold(g, gen, ReservationOf(s, m))]), HeldBack)
      else (s1, HeldBack)
  }

  function Dispatched(s: Store, m: string, res: string): Store
    requires res in s.reservations
  {
    var r := s.reservations[res];
    s.(holds := s.holds - {m},
       reservations := s.reservations[res := r.(state := Inflight, attempts := r.attempts + 1)],
       outbox := s.outbox[m := if m in s.outbox then s.outbox[m].(state := At(Inflight))
                               else Outbox(r.grant, r.generation, At(Inflight))])
  }

  /** The decision for a named reservation at an open grant; `s0` is what a rollback restores. */
  function DecideNamed(s0: Store, s: Store, g: string, m: string, res: string): (Store, Verdict)
    requires g in s.grants
  {
    var gen := s.grants[g].generation;
    if res !in s.reservations then (HoldRow(s, m, g, gen), HeldBack)
    else
      var r := s.reservations[res];
      if r.grant != g || r.msg != m || r.generation != gen || r.snapshot != OK
      then (HoldRow(s, m, g, gen), HeldBack)
      else match r.state
        case Sent => (s0, AlreadySent)
        case Released => (HoldRow(s, m, g, gen), HeldBack)
        case Inflight => (s0, Uncertain)
        case FailedUnknown => (s0, Uncertain)
        case _ =>
          if m in s.outbox && s.outbox[m].state != At(r.state) && s.outbox[m].state != Held
          then (s0, HeldBack)
          else (Dispatched(s, m, res), Handoff(res))
  }

  function DecideOpen(s: Store, g: string, m: string, supplied: Option<string>, newId: string): (Store, Verdict)
    requires Open(s, g)
  {
    match supplied
    case Some(res) => DecideNamed(s, s, g, m, res)
    case None =>
      if m in s.resOf then DecideNamed(s, s, g, m, s.resOf[m])
      else if newId in s.reservations then (s, Failed)
      else DecideNamed(s, WithReservation(s, newId, FreshReservation(s, g, m)), g, m, newId)
  }

  function Decide(s: Store, g: string, m: string, supplied: Option<string>, newId: string): (Store, Verdict) {
    if m in s.outbox && (s.outbox[m].grant != g || s.outbox[m].generation != GenerationOf(s, g))
    then (s, HeldBack)
    else if m in s.ndrs then (s, HeldBack)
    else if m in s.outbox && s.outbox[m].state == At(Sent) then (s, AlreadySent)
    else if m in s.outbox && s.outbox[m].state == At(Released) then (s, HeldBack)
    else if Open(s, g) then DecideOpen(s, g, m, supplied, newId)
    else DecideClosed(s, g, m, supplied)
  }

  /** The fence: cap evaluation at the in-lock clock sample, committed, then the decision. */
  function Fence(cap: Option<real>, s: Store, g: string, m: string, supplied: Option<string>,
                 newId: string, now: real): (Store, Verdict)
  {
    Decide(EnforceCap(cap, s, g, now), g, m, supplied, newId)
  }

  /** What the transport did: an exception or an unparsable reply leaves acceptance unknown. */
  datatype Outcome = Accepted | Rejected | Unknown

  function StageAfter(outcome: Outcome): Lifecycle {
    match outcome
    case Accepted => Sent
    case Rejected => Released
    case Unknown => FailedUnknown
  }

  function Record(s: Store, m: string, res: string, outcome: Outcome): Store {
    var stage := StageAfter(outcome);
    s.(reservations := if res in s.reservations
                       then s.reservations[res := s.reservations[res].(state := stage)] else s.reservations,
       outbox := if m in s.outbox then s.outbox[m := s.outbox[m].(state := At(stage))] else s.outbox,
       held := if outcome == Accepted then s.held - {m} else s.held)
  }
}
