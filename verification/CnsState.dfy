/**
The name service's signed snapshots and the high-water table a relay projects them into: one row per
identity, kept even when a later snapshot omits the identity.
*/
module CnsState {
  import opened Ordering
  import opened Wrappers

  datatype Route = Route(
    identity: string, peer: string, owner: string, primeRelay: string, home: string, endpoint: string,
    relayKey: string, generation: nat, signingKey: string, encryptionKey: string)

  /**
  What the issuer signs; `header` is the snapshot's id, its issuer and the issuer's key. The digest of a
  snapshot is taken to be injective: it is this value.
  */
  datatype Content = Content(header: string, sequence: nat, issued: int, expires: int, routes: seq<Route>)

  datatype Snapshot = Snapshot(content: Content, signature: string)

  datatype Entry = Entry(route: Route, disabled: bool)

  datatype Meta = Meta(sequence: nat, digest: Content, signature: string)

  datatype Store = Store(meta: Option<Meta>, rows: map<string, Entry>)

  // ----- shape and freshness --------------------------------------------------------------

  /** Strictly before, by identity and then by peer. */
  predicate Before(r: Route, s: Route) {
    if r.identity != s.identity then Leq(r.identity, s.identity) else r.peer != s.peer && Leq(r.peer, s.peer)
  }

  predicate WellOrdered(routes: seq<Route>) {
    routes != [] && forall i :: 0 <= i < |routes| - 1 ==> Before(routes[i], routes[i + 1])
  }

  predicate Fresh(c: Content, now: int) {
    c.issued <= now + 300 && c.issued < c.expires && c.expires - c.issued <= 604800 && now - 300 < c.expires
  }

  // ----- projection -----------------------------------------------------------------------

  datatype Verdict = Rollback | Rewritten | GenerationRollback | SameGeneration | OwnerChange | Replay | Accept

  /** One route against the row of its identity, if there is one. */
  function RouteVerdict(rows: map<string, Entry>, r: Route): Verdict {
    if r.identity !in rows then Accept
    else
      var kept := rows[r.identity].route;
      if r.generation < kept.generation then GenerationRollback
      else if r.generation == kept.generation then (if r == kept then Accept else SameGeneration)
      else if r.owner != kept.owner then OwnerChange
      else Accept
  }

  /** The first route that is refused decides. */
  function RoutesVerdict(rows: map<string, Entry>, routes: seq<Route>): (v: Verdict)
    ensures !v.Replay? && !v.Rewritten? && !v.Rollback?
  {
    if routes == [] then Accept
    else
      var before := RoutesVerdict(rows, routes[..|routes| - 1]);
      if before != Accept then before else RouteVerdict(rows, routes[|routes| - 1])
  }

  function Check(s: Store, snap: Snapshot): Verdict {
    if s.meta.Some? && snap.content.sequence < s.meta.value.sequence then Rollback
    else if s.meta.Some? && snap.content.sequence == s.meta.value.sequence then
      if snap.content == s.meta.value.digest && snap.signature == s.meta.value.signature then Replay else Rewritten
    else RoutesVerdict(s.rows, snap.content.routes)
  }

  predicate Listed(routes: seq<Route>, identity: string) {
    exists i :: 0 <= i < |routes| && routes[i].identity == identity
  }

  /** Insert-or-replace in order: of two routes of one identity the later one stays. */
  function Inserted(rows: map<string, Entry>, routes: seq<Route>): map<string, Entry> {
    if routes == [] then rows
    else
      var r := routes[|routes| - 1];
      Inserted(rows, routes[..|routes| - 1])[r.identity := Entry(r, false)]
  }

  function Disabled(rows: map<string, Entry>, was: map<string, Entry>, routes: seq<Route>): map<string, Entry> {
    map id | id in rows ::
      if id in was && !Listed(routes, id) then rows[id].(disabled := true) else rows[id]
  }

  /** The writing transaction, for a check made against the rows `was`. */
  function Commit(s: Store, was: map<string, Entry>, snap: Snapshot): Store {
    Store(Some(Meta(snap.content.sequence, snap.content, snap.signature)),
          Disabled(Inserted(s.rows, snap.content.routes), was, snap.content.routes))
  }

  /** `authentic` stands for shape, issuer pin and signature. */
  function Load(s: Store, snap: Snapshot, authentic: bool, now: int): Store {
    if authentic && Fresh(snap.content, now) && Check(s, snap) == Accept then Commit(s, s.rows, snap) else s
  }

  function Loads(s: Store, snaps: seq<(Snapshot, bool, int)>): Store
    decreases |snaps|
  {
    if snaps == [] then s else Loads(Load(s, snaps[0].0, snaps[0].1, snaps[0].2), snaps[1..])
  }

  // ----- resolution -----------------------------------------------------------------------

  /** The active identities that go by a peer name. */
  function Holders(rows: map<string, Entry>, peer: string): set<string> {
    set id | id in rows && !rows[id].disabled && rows[id].route.peer == peer
  }

  /** Active routes by peer name; which of two identities of one name stays depends on `order`. */
  function ActiveRoutes(rows: map<string, Entry>, order: seq<string>): map<string, Route> {
    if order == [] then map[]
    else
      var id := order[|order| - 1];
      var rest := ActiveRoutes(rows, order[..|order| - 1]);
      if id in rows && !rows[id].disabled then rest[rows[id].route.peer := rows[id].route] else rest
  }

  datatype Hint = Hint(agent: Option<string>, primeRelay: Option<string>, endpoint: Option<string>)

  function Trimmed(s: string): string {
    if s != [] && s[|s| - 1] == '/' then Trimmed(s[..|s| - 1]) else s
  }

  predicate Agrees(hint: Option<Hint>, peer: string, r: Route) {
    hint.Some? ==>
      && hint.value.agent == Some(peer)
      && (hint.value.primeRelay.Some? ==> hint.value.primeRelay.value == r.primeRelay)
      && (hint.value.endpoint.Some? ==> Trimmed(hint.value.endpoint.value) == Trimmed(r.endpoint))
  }

  function Resolve(rows: map<string, Entry>, order: seq<string>, peer: string, hint: Option<Hint>): Option<Route> {
    var active := ActiveRoutes(rows, order);
    if peer in active && Agrees(hint, peer, active[peer]) then Some(active[peer]) else None
  }
}
