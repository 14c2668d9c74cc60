/** The projected history only moves forward, over any sequence of loads made one at a time. */
module CnsTheorems {
  import opened Ordering
  import opened Wrappers
  import opened CnsState

  // ----- ordering -------------------------------------------------------------------------

  lemma BeforeTransitive(r: Route, s: Route, t: Route)
    requires Before(r, s) && Before(s, t)
    ensures Before(r, t)
  {
    if r.identity == s.identity == t.identity {
      LeqTransitive(r.peer, s.peer, t.peer);
      if r.peer == t.peer {
        LeqAntisymmetric(r.peer, s.peer);
      }
    } else {
      LeqReflexive(r.identity);
      LeqReflexive(t.identity);
      LeqTransitive(r.identity, s.identity, t.identity);
      if r.identity == t.identity {
        LeqAntisymmetric(r.identity, s.identity);
      }
    }
  }

  /** The pairwise order of neighbours orders the whole list, so no (identity, peer) pair comes twice. */
  lemma {:induction false} OrderedListsDoNotRepeat(routes: seq<Route>, i: nat, j: nat)
    requires WellOrdered(routes) && i < j < |routes|
    ensures Before(routes[i], routes[j])
    ensures routes[i].identity != routes[j].identity || routes[i].peer != routes[j].peer
    decreases j - i
  {
    if i + 1 < j {
      OrderedListsDoNotRepeat(routes, i, j - 1);
      BeforeTransitive(routes[i], routes[j - 1], routes[j]);
    }
  }

  /** The order does not stop an identity from being listed under two peer names. */
  lemma IdentityMayBeListedTwice(r: Route)
    ensures var s := r.(peer := r.peer + "x", generation := r.generation + 1);
      WellOrdered([r, s]) && r.identity == s.identity && [r, s][0] != [r, s][1]
  {
    PrefixLeq(r.peer, "x");
    assert r.peer + "x" != r.peer;
  }

  /** No identity is listed twice if and only if no two neighbours share one. */
  lemma IdentitiesDifferExactly(routes: seq<Route>)
    requires WellOrdered(routes)
    ensures (forall i, j :: 0 <= i < j < |routes| ==> routes[i].identity != routes[j].identity)
      <==> (forall i :: 0 <= i < |routes| - 1 ==> routes[i].identity != routes[i + 1].identity)
  {
    if forall i :: 0 <= i < |routes| - 1 ==> routes[i].identity != routes[i + 1].identity {
      forall i, j | 0 <= i < j < |routes| ensures routes[i].identity != routes[j].identity {
        if i + 1 < j {
          OrderedListsDoNotRepeat(routes, i, i + 1);
          OrderedListsDoNotRepeat(routes, i + 1, j);
          LeqReflexive(routes[j].identity);
          if routes[i].identity == routes[j].identity {
            LeqAntisymmetric(routes[i].identity, routes[i + 1].identity);
          }
        }
      }
    }
  }

  lemma {:induction false} PrefixLeq(x: string, y: string)
    ensures Leq(x, x + y)
  {
    if x != [] {
      PrefixLeq(x[1..], y);
      assert (x + y)[1..] == x[1..] + y;
    }
  }

  // ----- one load -------------------------------------------------------------------------

  lemma {:induction false} AcceptedRoutes(rows: map<string, Entry>, routes: seq<Route>, i: nat)
    requires RoutesVerdict(rows, routes) == Accept && i < |routes|
    ensures RouteVerdict(rows, routes[i]) == Accept
  {
    if i < |routes| - 1 {
      AcceptedRoutes(rows, routes[..|routes| - 1], i);
    }
  }

  /** A row comes from the last route of its identity, or is the old one when the identity is not listed. */
  lemma {:induction false} InsertedRow(rows: map<string, Entry>, routes: seq<Route>, id: string)
    ensures var t := Inserted(rows, routes);
      if Listed(routes, id) then id in t && !t[id].disabled && t[id].route in routes && t[id].route.identity == id
      else (id in t <==> id in rows) && (id in rows ==> t[id] == rows[id])
  {
    if routes != [] {
      var rest := routes[..|routes| - 1];
      InsertedRow(rows, rest, id);
      if Listed(rest, id) {
        var i :| 0 <= i < |rest| && rest[i].identity == id;
        assert routes[i].identity == id;
      }
      if Listed(routes, id) && routes[|routes| - 1].identity != id {
        var i :| 0 <= i < |routes| && routes[i].identity == id;
        assert rest[i].identity == id;
      }
      if routes[|routes| - 1].identity == id {
        assert routes[|routes| - 1].identity == id;
      }
    }
  }

  /** One row's history: generations do not fall, the owner stays, equal generation is equal fields. */
  predicate RowForward(e: Entry, f: Entry) {
    && f.route.identity == e.route.identity && f.route.owner == e.route.owner
    && e.route.generation <= f.route.generation
    && (e.route.generation == f.route.generation ==> f.route == e.route)
  }

  predicate Forward(s: Store, t: Store) {
    && (forall id :: id in s.rows ==> id in t.rows && RowForward(s.rows[id], t.rows[id]))
    && (s.meta.Some? ==>
          && t.meta.Some? && s.meta.value.sequence <= t.meta.value.sequence
          && (s.meta.value.sequence == t.meta.value.sequence ==> t.meta == s.meta && t.rows == s.rows))
  }

  predicate Inv(s: Store) {
    forall id :: id in s.rows ==> s.rows[id].route.identity == id
  }

  /** A row written by the transaction: the accepted route, or the kept row, disabled. */
  lemma CommittedRow(s: Store, snap: Snapshot, id: string)
    requires Inv(s) && Check(s, snap) == Accept
    ensures var t := Commit(s, s.rows, snap); var routes := snap.content.routes;
      if Listed(routes, id)
      then id in t.rows && !t.rows[id].disabled && t.rows[id].route in routes && t.rows[id].route.identity == id
      else (id in t.rows <==> id in s.rows) && (id in s.rows ==> t.rows[id] == Entry(s.rows[id].route, true))
    ensures id in s.rows ==> RowForward(s.rows[id], Commit(s, s.rows, snap).rows[id])
  {
    var routes := snap.content.routes;
    var t := Commit(s, s.rows, snap);
    InsertedRow(s.rows, routes, id);
    if id in s.rows && Listed(routes, id) {
      var i :| 0 <= i < |routes| && routes[i] == t.rows[id].route;
      AcceptedRoutes(s.rows, routes, i);
    }
  }

  lemma LoadMovesForward(s: Store, snap: Snapshot, authentic: bool, now: int)
    requires Inv(s)
    ensures Inv(Load(s, snap, authentic, now)) && Forward(s, Load(s, snap, authentic, now))
  {
    var t := Load(s, snap, authentic, now);
    if t != s {
      forall id | id in s.rows ensures id in t.rows && RowForward(s.rows[id], t.rows[id]) {
        CommittedRow(s, snap, id);
      }
      forall id | id in t.rows ensures t.rows[id].route.identity == id {
        CommittedRow(s, snap, id);
      }
    }
  }

  /** After an accepted higher sequence exactly the listed identities are active. */
  lemma ActiveAreTheListed(s: Store, snap: Snapshot, now: int, id: string)
    requires Inv(s) && Fresh(snap.content, now) && Check(s, snap) == Accept
    ensures var t := Load(s, snap, true, now);
      (id in t.rows && !t.rows[id].disabled) <==> Listed(snap.content.routes, id)
  {
    CommittedRow(s, snap, id);
  }

  /** The route carries its identity forward: a new one, one unchanged, or a later generation under the same owner. */
  predicate Carries(rows: map<string, Entry>, r: Route) {
    r.identity in rows ==>
      var kept := rows[r.identity].route;
      r == kept || (kept.generation < r.generation && r.owner == kept.owner)
  }

  lemma {:induction false} RoutesAcceptedExactly(rows: map<string, Entry>, routes: seq<Route>)
    ensures RoutesVerdict(rows, routes) == Accept <==> forall i :: 0 <= i < |routes| ==> Carries(rows, routes[i])
  {
    if routes != [] {
      var last := |routes| - 1;
      RoutesAcceptedExactly(rows, routes[..last]);
      assert forall i :: 0 <= i < last ==> routes[..last][i] == routes[i];
      assert RouteVerdict(rows, routes[last]) == Accept <==> Carries(rows, routes[last]);
    }
  }

  /**
  A snapshot is accepted if and only if its sequence is higher than any before and each of its routes carries
  its identity forward.
  */
  lemma AcceptedExactly(s: Store, snap: Snapshot)
    ensures Check(s, snap) == Accept <==>
      && (s.meta.Some? ==> s.meta.value.sequence < snap.content.sequence)
      && forall i :: 0 <= i < |snap.content.routes| ==> Carries(s.rows, snap.content.routes[i])
  {
    RoutesAcceptedExactly(s.rows, snap.content.routes);
  }

  /** How a route that does not carry its identity forward is refused: it goes back, rewrites, or changes hands. */
  function Refusal(rows: map<string, Entry>, r: Route): Verdict
    requires r.identity in rows
  {
    var kept := rows[r.identity].route;
    if r.generation < kept.generation then GenerationRollback
    else if r.generation > kept.generation then OwnerChange
    else SameGeneration
  }

  /** The first route that does not carry its identity forward decides. */
  lemma {:induction false} FirstRefusalDecides(rows: map<string, Entry>, routes: seq<Route>, i: nat)
    requires i < |routes| && !Carries(rows, routes[i]) && forall j :: 0 <= j < i ==> Carries(rows, routes[j])
    ensures RoutesVerdict(rows, routes) == Refusal(rows, routes[i])
  {
    var last := |routes| - 1;
    if i < last {
      FirstRefusalDecides(rows, routes[..last], i);
    } else {
      RoutesAcceptedExactly(rows, routes[..last]);
      assert forall j :: 0 <= j < last ==> routes[..last][j] == routes[j];
    }
  }

  /** A lower sequence goes back; an equal one is a replay of the same bytes or a rewriting of others. */
  lemma SequenceDecides(s: Store, snap: Snapshot)
    ensures Check(s, snap) == Rollback <==> s.meta.Some? && snap.content.sequence < s.meta.value.sequence
    ensures Check(s, snap) == Replay <==>
      s.meta.Some? && snap == Snapshot(s.meta.value.digest, s.meta.value.signature) && snap.content.sequence == s.meta.value.sequence
    ensures Check(s, snap) == Rewritten <==>
      s.meta.Some? && snap.content.sequence == s.meta.value.sequence && snap != Snapshot(s.meta.value.digest, s.meta.value.signature)
  {
  }

  /**
  A load changes the tables if and only if it is authentic, issued no more than five minutes ahead, not over
  for more than five minutes, valid for a week at most, and accepted; and then it records exactly its bytes.
  */
  lemma RefusedLoadsChangeNothing(s: Store, snap: Snapshot, authentic: bool, now: int)
    ensures var t := Load(s, snap, authentic, now); var c := snap.content;
      && (t != s <==>
            && authentic && c.issued - now <= 300 && now - c.expires < 300 && 0 < c.expires - c.issued <= 7 * 24 * 3600
            && (s.meta.Some? ==> s.meta.value.sequence < c.sequence)
            && forall i :: 0 <= i < |c.routes| ==> Carries(s.rows, c.routes[i]))
      && (t != s ==> t.meta == Some(Meta(c.sequence, c, snap.signature)))
  {
    AcceptedExactly(s, snap);
  }

  // ----- histories ------------------------------------------------------------------------

  lemma ForwardTransitive(s: Store, t: Store, u: Store)
    requires Forward(s, t) && Forward(t, u)
    ensures Forward(s, u)
  {
    forall id | id in s.rows ensures id in u.rows && RowForward(s.rows[id], u.rows[id]) {
      assert RowForward(s.rows[id], t.rows[id]);
      assert RowForward(t.rows[id], u.rows[id]);
    }
  }

  /**
  Over any sequence of loads the sequence number and every identity's generation never fall, owners
  never change, not even across an omission and a return, and equal numbers mean equal values.
  */
  lemma {:induction false} HistoryIsMonotone(s: Store, snaps: seq<(Snapshot, bool, int)>)
    requires Inv(s)
    ensures Inv(Loads(s, snaps)) && Forward(s, Loads(s, snaps))
    decreases |snaps|
  {
    if snaps != [] {
      var t := Load(s, snaps[0].0, snaps[0].1, snaps[0].2);
      LoadMovesForward(s, snaps[0].0, snaps[0].1, snaps[0].2);
      HistoryIsMonotone(t, snaps[1..]);
      ForwardTransitive(s, t, Loads(t, snaps[1..]));
    }
  }

  /** Two snapshots that both ended up accepted with the same sequence number are the same bytes. */
  lemma EqualSequenceIsEqualBytes(s: Store, snaps: seq<(Snapshot, bool, int)>, snap: Snapshot, now: int)
    requires Inv(s) && s.meta.Some?
    requires var t := Loads(s, snaps); t.meta.Some? && t.meta.value.sequence == s.meta.value.sequence
    requires Check(Loads(s, snaps), snap) == Replay || Check(Loads(s, snaps), snap) == Rewritten
    ensures Check(Loads(s, snaps), snap) == Replay <==>
      snap.content == s.meta.value.digest && snap.signature == s.meta.value.signature
    ensures Loads(s, snaps).rows == s.rows
  {
    HistoryIsMonotone(s, snaps);
  }

  // ----- loads that overlap ---------------------------------------------------------------

  /** The last route of its identity: the one whose row stays. */
  predicate LastOf(routes: seq<Route>, i: int) {
    0 <= i < |routes| && forall k :: i < k < |routes| ==> routes[k].identity != routes[i].identity
  }

  lemma {:induction false} InsertedLast(rows: map<string, Entry>, routes: seq<Route>, i: int)
    requires LastOf(routes, i)
    ensures var t := Inserted(rows, routes); routes[i].identity in t && t[routes[i].identity] == Entry(routes[i], false)
  {
    if i < |routes| - 1 {
      var rest := routes[..|routes| - 1];
      assert forall k :: 0 <= k < |rest| ==> rest[k] == routes[k];
      InsertedLast(rows, rest, i);
      assert routes[|routes| - 1].identity != routes[i].identity;
    }
  }

  lemma {:induction false} ListedHasLast(routes: seq<Route>, id: string) returns (i: nat)
    requires Listed(routes, id)
    ensures LastOf(routes, i) && routes[i].identity == id
  {
    i := |routes| - 1;
    if routes[i].identity != id {
      var rest := routes[..i];
      var k :| 0 <= k < |routes| && routes[k].identity == id;
      assert rest[k].identity == id;
      i := ListedHasLast(rest, id);
      assert forall k :: 0 <= k < |rest| ==> rest[k] == routes[k];
    }
  }

  /** Checked against the rows as they are now, the routes whose rows would stay are still accepted. */
  predicate StillAccepted(rows: map<string, Entry>, routes: seq<Route>) {
    forall i :: 0 <= i < |routes| && LastOf(routes, i) ==> RouteVerdict(rows, routes[i]) == Accept
  }

  /** The rows already are what the snapshot would make of them. */
  predicate AlreadyProjected(rows: map<string, Entry>, was: map<string, Entry>, routes: seq<Route>) {
    && (forall i :: 0 <= i < |routes| && LastOf(routes, i) ==>
          routes[i].identity in rows && rows[routes[i].identity] == Entry(routes[i], false))
    && (forall id :: id in was && id in rows && !Listed(routes, id) ==> rows[id].disabled)
  }

  /** What the writing transaction would have to look at again, under its lock. */
  predicate Rechecks(t: Store, was: map<string, Entry>, snap: Snapshot) {
    if t.meta.Some? && snap.content.sequence <= t.meta.value.sequence
    then Check(t, snap) == Replay && AlreadyProjected(t.rows, was, snap.content.routes)
    else StillAccepted(t.rows, snap.content.routes)
  }

  lemma CommittedRowIs(t: Store, was: map<string, Entry>, snap: Snapshot, id: string)
    ensures var u := Commit(t, was, snap); var routes := snap.content.routes;
      if Listed(routes, id) then id in u.rows && u.rows[id] == Inserted(t.rows, routes)[id]
      else (id in u.rows <==> id in t.rows)
           && (id in t.rows ==> u.rows[id] == if id in was then t.rows[id].(disabled := true) else t.rows[id])
  {
    InsertedRow(t.rows, snap.content.routes, id);
  }

  lemma HigherCommit(t: Store, was: map<string, Entry>, snap: Snapshot)
    requires Inv(t)
    ensures var u := Commit(t, was, snap);
      (forall id :: id in t.rows ==> id in u.rows && RowForward(t.rows[id], u.rows[id]))
      <==> StillAccepted(t.rows, snap.content.routes)
  {
    var u, routes := Commit(t, was, snap), snap.content.routes;
    if StillAccepted(t.rows, routes) {
      forall id | id in t.rows ensures id in u.rows && RowForward(t.rows[id], u.rows[id]) {
        CommittedRowIs(t, was, snap, id);
        if Listed(routes, id) {
          var i := ListedHasLast(routes, id);
          InsertedLast(t.rows, routes, i);
        }
      }
    }
    if forall id :: id in t.rows ==> id in u.rows && RowForward(t.rows[id], u.rows[id]) {
      forall i | LastOf(routes, i) ensures RouteVerdict(t.rows, routes[i]) == Accept {
        CommittedRowIs(t, was, snap, routes[i].identity);
        InsertedLast(t.rows, routes, i);
        assert Listed(routes, routes[i].identity);
      }
    }
  }

  lemma EqualCommit(t: Store, was: map<string, Entry>, snap: Snapshot)
    ensures Commit(t, was, snap).rows == t.rows <==> AlreadyProjected(t.rows, was, snap.content.routes)
  {
    var u, routes := Commit(t, was, snap), snap.content.routes;
    if AlreadyProjected(t.rows, was, routes) {
      forall id ensures id in u.rows <==> id in t.rows
                ensures id in t.rows ==> u.rows[id] == t.rows[id]
      {
        CommittedRowIs(t, was, snap, id);
        if Listed(routes, id) {
          var i := ListedHasLast(routes, id);
          InsertedLast(t.rows, routes, i);
        }
      }
      assert u.rows == t.rows;
    }
    if u.rows == t.rows {
      forall i | LastOf(routes, i)
        ensures routes[i].identity in t.rows && t.rows[routes[i].identity] == Entry(routes[i], false)
      {
        assert Listed(routes, routes[i].identity);
        CommittedRowIs(t, was, snap, routes[i].identity);
        InsertedLast(t.rows, routes, i);
      }
      forall id | id in was && id in t.rows && !Listed(routes, id) ensures t.rows[id].disabled {
        CommittedRowIs(t, was, snap, id);
      }
    }
  }

  /**
  A commit, on whatever the tables have become since its check, moves the whole history forward if and
  only if the check would still accept what it writes.
  */
  lemma CommitAfterCheckExactly(t: Store, was: map<string, Entry>, snap: Snapshot)
    requires Inv(t)
    ensures Forward(t, Commit(t, was, snap)) <==> Rechecks(t, was, snap)
  {
    HigherCommit(t, was, snap);
    EqualCommit(t, was, snap);
    if t.meta.Some? && snap.content.sequence == t.meta.value.sequence && Commit(t, was, snap).rows == t.rows {
      assert forall id :: id in t.rows ==> RowForward(t.rows[id], t.rows[id]);
    }
  }

  /** The sequence check, on the one row read first. */
  predicate Advances(meta: Option<Meta>, snap: Snapshot) {
    meta.Some? ==> meta.value.sequence < snap.content.sequence
  }

  lemma CheckIsTwoReads(s: Store, snap: Snapshot)
    ensures Check(s, snap) == Accept <==> Advances(s.meta, snap) && RoutesVerdict(s.rows, snap.content.routes) == Accept
  {
  }

  /**
  A load that passed the sequence check, and, once its rows were read, the check of its routes. `serial`
  counts the commits before its first read.
  */
  datatype Pending = Pending(was: Option<map<string, Entry>>, snap: Snapshot, serial: nat)

  /** Several loads at work on one database. */
  datatype World = World(store: Store, pending: map<nat, Pending>, serial: nat)

  datatype Op =
    | DoReadMeta(load: nat, snap: Snapshot, authentic: bool, now: int)
    | DoReadRows(load: nat)
    | DoCommit(load: nat)
    | DoStop(load: nat)

  predicate Commits(w: World, op: Op) {
    op.DoCommit? && op.load in w.pending && w.pending[op.load].was.Some?
  }

  function Step(w: World, op: Op): World {
    match op
    case DoReadMeta(l, snap, authentic, now) =>
      if authentic && Fresh(snap.content, now) && Advances(w.store.meta, snap)
      then w.(pending := w.pending[l := Pending(None, snap, w.serial)]) else w
    case DoReadRows(l) =>
      if l !in w.pending || w.pending[l].was.Some? then w
      else if RoutesVerdict(w.store.rows, w.pending[l].snap.content.routes) != Accept then w.(pending := w.pending - {l})
      else w.(pending := w.pending[l := w.pending[l].(was := Some(w.store.rows))])
    case DoCommit(l) =>
      if !Commits(w, op) then w
      else World(Commit(w.store, w.pending[l].was.value, w.pending[l].snap), w.pending - {l}, w.serial + 1)
    case DoStop(l) => w.(pending := w.pending - {l})
  }

  function Run(w: World, ops: seq<Op>): World
    decreases |ops|
  {
    if ops == [] then w else Run(Step(w, ops[0]), ops[1..])
  }

  /** What no commit overtook was read from the tables as they are. */
  predicate WorldInv(w: World) {
    && Inv(w.store)
    && forall l :: l in w.pending ==>
         && w.pending[l].serial <= w.serial
         && (w.pending[l].serial == w.serial ==>
               && Advances(w.store.meta, w.pending[l].snap)
               && (w.pending[l].was.Some? ==>
                     && w.pending[l].was.value == w.store.rows
                     && RoutesVerdict(w.store.rows, w.pending[l].snap.content.routes) == Accept))
  }

  lemma CommitKeepsInv(t: Store, was: map<string, Entry>, snap: Snapshot)
    requires Inv(t)
    ensures Inv(Commit(t, was, snap))
  {
    var u := Commit(t, was, snap);
    forall id | id in u.rows ensures u.rows[id].route.identity == id {
      CommittedRowIs(t, was, snap, id);
      InsertedRow(t.rows, snap.content.routes, id);
    }
  }

  lemma StepKeepsInv(w: World, op: Op)
    requires WorldInv(w)
    ensures WorldInv(Step(w, op))
  {
    if Commits(w, op) {
      CommitKeepsInv(w.store, w.pending[op.load].was.value, w.pending[op.load].snap);
    }
  }

  /** No other commit fell between the first read and this commit. */
  predicate Undisturbed(w: World, op: Op) {
    Commits(w, op) ==> w.pending[op.load].serial == w.serial
  }

  /** Both checks would still hold at the commit. */
  predicate StillHolds(w: World, op: Op) {
    Commits(w, op) ==> Rechecks(w.store, w.pending[op.load].was.value, w.pending[op.load].snap)
  }

  lemma StepMovesForwardExactly(w: World, op: Op)
    requires WorldInv(w)
    ensures Forward(w.store, Step(w, op).store) <==> StillHolds(w, op)
    ensures Undisturbed(w, op) ==> StillHolds(w, op)
  {
    if Commits(w, op) {
      var p := w.pending[op.load];
      CommitAfterCheckExactly(w.store, p.was.value, p.snap);
      if p.serial == w.serial {
        forall i | LastOf(p.snap.content.routes, i) ensures RouteVerdict(w.store.rows, p.snap.content.routes[i]) == Accept {
          AcceptedRoutes(w.store.rows, p.snap.content.routes, i);
        }
      }
    } else {
      assert forall id :: id in w.store.rows ==> RowForward(w.store.rows[id], w.store.rows[id]);
    }
  }

  /** Left alone, the steps of a load are the load. */
  lemma UndisturbedLoadIsLoad(w: World, l: nat, snap: Snapshot, authentic: bool, now: int)
    requires l !in w.pending
    ensures var u := Step(Step(Step(w, DoReadMeta(l, snap, authentic, now)), DoReadRows(l)), DoCommit(l));
      u.store == Load(w.store, snap, authentic, now) && u.pending == w.pending
  {
    CheckIsTwoReads(w.store, snap);
    if authentic && Fresh(snap.content, now) && Advances(w.store.meta, snap) {
      assert w.pending[l := Pending(None, snap, w.serial)] - {l} == w.pending;
      assert w.pending[l := Pending(None, snap, w.serial)][l := Pending(Some(w.store.rows), snap, w.serial)] - {l} == w.pending;
    }
  }

  predicate AllForward(w: World, ops: seq<Op>)
    decreases |ops|
  {
    ops == [] || (Forward(w.store, Step(w, ops[0]).store) && AllForward(Step(w, ops[0]), ops[1..]))
  }

  predicate AllStillHold(w: World, ops: seq<Op>)
    decreases |ops|
  {
    ops == [] || (StillHolds(w, ops[0]) && AllStillHold(Step(w, ops[0]), ops[1..]))
  }

  predicate AllUndisturbed(w: World, ops: seq<Op>)
    decreases |ops|
  {
    ops == [] || (Undisturbed(w, ops[0]) && AllUndisturbed(Step(w, ops[0]), ops[1..]))
  }

  /**
  Over any interleaving of reads and commits, no step takes anything back if and only if every load's
  checks still hold at its commit; and then start and end are ordered as well.
  */
  lemma {:induction false} OverlappingLoadsExactly(w: World, ops: seq<Op>)
    requires WorldInv(w)
    ensures AllForward(w, ops) <==> AllStillHold(w, ops)
    ensures AllUndisturbed(w, ops) ==> AllStillHold(w, ops)
    ensures AllStillHold(w, ops) ==> Forward(w.store, Run(w, ops).store)
    decreases |ops|
  {
    if ops == [] {
      assert forall id :: id in w.store.rows ==> RowForward(w.store.rows[id], w.store.rows[id]);
    } else {
      var v := Step(w, ops[0]);
      StepKeepsInv(w, ops[0]);
      StepMovesForwardExactly(w, ops[0]);
      OverlappingLoadsExactly(v, ops[1..]);
      if AllStillHold(w, ops) {
        ForwardTransitive(w.store, v.store, Run(v, ops[1..]).store);
      }
    }
  }

  /** Two loads that both check before either commits can end on the lower sequence. */
  lemma InterleavedLoadsCanRollBack(s: Store, low: Snapshot, high: Snapshot)
    requires Check(s, low) == Accept && Check(s, high) == Accept && low.content.sequence < high.content.sequence
    ensures var t := Commit(s, s.rows, high); var u := Commit(t, s.rows, low);
      u.meta.value.sequence < t.meta.value.sequence
  {
  }

  lemma OneRoute(rows: map<string, Entry>, r: Route)
    ensures Inserted(rows, [r]) == rows[r.identity := Entry(r, false)]
    ensures RoutesVerdict(rows, [r]) == RouteVerdict(rows, r)
    ensures forall id :: Listed([r], id) <==> id == r.identity
  {
    assert [r][..0] == [];
    assert [r][0].identity == r.identity;
  }

  lemma {:induction false} RunOneMore(w: World, ops: seq<Op>, k: nat)
    requires k < |ops|
    ensures Run(w, ops[..k + 1]) == Step(Run(w, ops[..k]), ops[k])
    decreases |ops|
  {
    if k == 0 {
      assert ops[..1][1..] == [];
    } else {
      RunOneMore(Step(w, ops[0]), ops[1..], k - 1);
      assert ops[..k + 1][1..] == ops[1..][..k] && ops[..k][1..] == ops[1..][..k - 1];
    }
  }

  /** A snapshot of one route. */
  function Single(r: Route, sequence: nat, header: string, signature: string): Snapshot {
    Snapshot(Content(header, sequence, 0, 100, [r]), signature)
  }

  /** Both loads read before either commits. */
  function Overlap(low: Snapshot, high: Snapshot): seq<Op> {
    [DoReadMeta(0, low, true, 0), DoReadRows(0), DoReadMeta(1, high, true, 0), DoReadRows(1), DoCommit(0), DoCommit(1)]
  }

  lemma BothRead(low: Snapshot, high: Snapshot, w: World)
    requires w == World(Store(None, map[]), map[], 0) && Fresh(low.content, 0) && Fresh(high.content, 0)
    requires RoutesVerdict(map[], low.content.routes) == Accept && RoutesVerdict(map[], high.content.routes) == Accept
    ensures Run(w, Overlap(low, high)[..4]) == w.(pending := map[0 := Pending(Some(map[]), low, 0), 1 := Pending(Some(map[]), high, 0)])
  {
    var ops := Overlap(low, high);
    RunOneMore(w, ops, 0);
    RunOneMore(w, ops, 1);
    RunOneMore(w, ops, 2);
    RunOneMore(w, ops, 3);
    assert ops[..0] == [];
    assert Run(w, ops[..1]) == w.(pending := map[0 := Pending(None, low, 0)]);
    assert Run(w, ops[..2]) == w.(pending := map[0 := Pending(Some(map[]), low, 0)]);
    assert Run(w, ops[..3]) == w.(pending := map[0 := Pending(Some(map[]), low, 0), 1 := Pending(None, high, 0)]);
  }

  /** Or on the higher one, with a row whose generation fell and whose owner changed. */
  lemma HigherSequenceCanRollBackARow(r: Route, q: Route, header: string, signature: string)
    requires r.identity == q.identity && q.generation < r.generation && q.owner != r.owner
    ensures var low, high := Single(r, 1, header, signature), Single(q, 2, header, signature);
      var w := World(Store(None, map[]), map[], 0);
      var t, u := Run(w, Overlap(low, high)[..5]).store, Run(w, Overlap(low, high)).store;
      && t == Store(Some(Meta(1, low.content, signature)), map[r.identity := Entry(r, false)])
      && u == Store(Some(Meta(2, high.content, signature)), map[r.identity := Entry(q, false)])
      && !Forward(t, u)
  {
    var low, high := Single(r, 1, header, signature), Single(q, 2, header, signature);
    var w := World(Store(None, map[]), map[], 0);
    var ops := Overlap(low, high);
    OneRoute(map[], r);
    OneRoute(map[], q);
    BothRead(low, high, w);
    RunOneMore(w, ops, 4);
    RunOneMore(w, ops, 5);
    assert ops[..6] == ops;
    var t := Commit(w.store, map[], low);
    OneRoute(t.rows, q);
    var w5 := World(t, map[1 := Pending(Some(map[]), high, 0)], 1);
    assert map[0 := Pending(Some(map[]), low, 0), 1 := Pending(Some(map[]), high, 0)] - {0} == w5.pending;
    assert Run(w, ops[..5]) == w5;
    assert t.rows == map[r.identity := Entry(r, false)];
    assert Commit(t, map[], high).rows == map[r.identity := Entry(q, false)];
  }

  // ----- resolution -----------------------------------------------------------------------

  lemma {:induction false} ActiveRouteOf(rows: map<string, Entry>, order: seq<string>, peer: string)
    requires forall id :: id in rows ==> id in order
    ensures peer in ActiveRoutes(rows, order) <==> Holders(rows, peer) != {}
    ensures peer in ActiveRoutes(rows, order) ==>
      exists id :: id in Holders(rows, peer) && ActiveRoutes(rows, order)[peer] == rows[id].route
  {
    PartialActiveRoute(rows, order, peer);
    if Holders(rows, peer) != {} {
      var id :| id in Holders(rows, peer);
      assert id in order;
    }
  }

  lemma {:induction false} PartialActiveRoute(rows: map<string, Entry>, order: seq<string>, peer: string)
    ensures var active := ActiveRoutes(rows, order);
      && (peer in active <==> exists id :: id in order && id in Holders(rows, peer))
      && (peer in active ==> exists id :: id in Holders(rows, peer) && active[peer] == rows[id].route)
  {
    if order != [] {
      var last := order[|order| - 1];
      var rest := order[..|order| - 1];
      PartialActiveRoute(rows, rest, peer);
      assert order == rest + [last];
      if last in Holders(rows, peer) {
        assert ActiveRoutes(rows, order)[peer] == rows[last].route;
      }
    }
  }

  lemma {:induction false} TrimmedKeeps(x: string)
    ensures Trimmed(x) <= x && (Trimmed(x) == [] || Trimmed(x)[|Trimmed(x)| - 1] != '/')
    ensures forall i :: |Trimmed(x)| <= i < |x| ==> x[i] == '/'
  {
    if x != [] && x[|x| - 1] == '/' {
      TrimmedKeeps(x[..|x| - 1]);
    }
  }

  /** The two endpoints differ in no more than the slashes that they end with. */
  predicate SameEndpoint(x: string, y: string) {
    exists n :: 0 <= n <= |x| && n <= |y| && x[..n] == y[..n]
                && (forall i :: n <= i < |x| ==> x[i] == '/') && (forall i :: n <= i < |y| ==> y[i] == '/')
  }

  lemma {:induction false} TrimmedPrefix(x: string, n: nat)
    requires n <= |x| && forall i :: n <= i < |x| ==> x[i] == '/'
    ensures Trimmed(x) == Trimmed(x[..n])
  {
    if n < |x| {
      TrimmedPrefix(x[..|x| - 1], n);
      assert x[..|x| - 1][..n] == x[..n];
    } else {
      assert x[..n] == x;
    }
  }

  lemma TrimmedExactly(x: string, y: string)
    ensures Trimmed(x) == Trimmed(y) <==> SameEndpoint(x, y)
  {
    TrimmedKeeps(x);
    TrimmedKeeps(y);
    if Trimmed(x) == Trimmed(y) {
      var n := |Trimmed(x)|;
      assert x[..n] == y[..n];
    }
    if SameEndpoint(x, y) {
      var n :| 0 <= n <= |x| && n <= |y| && x[..n] == y[..n]
        && (forall i :: n <= i < |x| ==> x[i] == '/') && (forall i :: n <= i < |y| ==> y[i] == '/');
      TrimmedPrefix(x, n);
      TrimmedPrefix(y, n);
    }
  }

  /** The hint names this peer and contradicts neither the prime relay nor the endpoint of its route. */
  predicate Confirms(hint: Hint, peer: string, r: Route) {
    && hint.agent == Some(peer)
    && (hint.primeRelay == None || hint.primeRelay == Some(r.primeRelay))
    && (hint.endpoint == None || SameEndpoint(hint.endpoint.value, r.endpoint))
  }

  /**
  Without a hint a name resolves if and only if an active identity goes by it; an answer is the route of one
  and agrees with the hint; and where only one identity goes by the name, it resolves if and only if the hint agrees.
  */
  lemma ResolveExactly(rows: map<string, Entry>, order: seq<string>, peer: string, hint: Option<Hint>)
    requires forall id :: id in rows ==> id in order
    ensures var r := Resolve(rows, order, peer, hint);
      && (r.Some? ==> exists id :: id in rows && !rows[id].disabled && rows[id].route.peer == peer && rows[id].route == r.value)
      && (r.Some? && hint.Some? ==> Confirms(hint.value, peer, r.value))
      && (hint == None ==> (r.Some? <==> exists id :: id in rows && !rows[id].disabled && rows[id].route.peer == peer))
      && (forall id :: Holders(rows, peer) == {id} ==>
            (r == Some(rows[id].route) <==> hint == None || Confirms(hint.value, peer, rows[id].route)))
  {
    ActiveRouteOf(rows, order, peer);
    assert forall id :: id in Holders(rows, peer) <==> id in rows && !rows[id].disabled && rows[id].route.peer == peer;
    if hint.Some? && hint.value.endpoint.Some? && peer in ActiveRoutes(rows, order) {
      TrimmedExactly(hint.value.endpoint.value, ActiveRoutes(rows, order)[peer].endpoint);
    }
  }

  /** Two active identities under one name do not make it unresolvable: one of them is returned. */
  lemma SharedNamesStillResolve(rows: map<string, Entry>, order: seq<string>, peer: string, x: string, y: string)
    requires forall id :: id in rows ==> id in order
    requires x != y && x in Holders(rows, peer) && y in Holders(rows, peer)
    ensures Resolve(rows, order, peer, None).Some?
  {
    ResolveExactly(rows, order, peer, None);
  }
}
