/** The projection as a program over the two tables, with its checking and its writing loops. */
module CnsStore {
  import opened Wrappers
  import opened CnsState
  import opened CnsTheorems

  class Projection {
    var meta: Option<Meta>
    var rows: map<string, Entry>

    ghost function State(): Store
      reads this
    {
      Store(meta, rows)
    }

    constructor ()
      ensures State() == Store(None, map[]) && Inv(State())
    {
      meta, rows := None, map[];
    }

    /** Refuses at the first route that goes back, rewrites or changes hands. */
    method CheckRoutes(routes: seq<Route>) returns (verdict: Verdict)
      ensures verdict == RoutesVerdict(rows, routes)
    {
      verdict := Accept;
      for i := 0 to |routes|
        invariant verdict == Accept && RoutesVerdict(rows, routes[..i]) == Accept
      {
        var r := routes[i];
        assert routes[..i + 1][..i] == routes[..i];
        if r.identity in rows {
          var kept := rows[r.identity].route;
          if r.generation < kept.generation {
            RefusalStands(rows, routes, i + 1);
            return GenerationRollback;
          }
          if r.generation == kept.generation {
            if r != kept {
              RefusalStands(rows, routes, i + 1);
              return SameGeneration;
            }
          } else if r.owner != kept.owner {
            RefusalStands(rows, routes, i + 1);
            return OwnerChange;
          }
        }
      }
      assert routes[..|routes|] == routes;
    }

    method InsertRoutes(routes: seq<Route>)
      modifies this`rows
      ensures rows == Inserted(old(rows), routes)
    {
      for i := 0 to |routes|
        invariant rows == Inserted(old(rows), routes[..i])
      {
        assert routes[..i + 1][..i] == routes[..i];
        rows := rows[routes[i].identity := Entry(routes[i], false)];
      }
      assert routes[..|routes|] == routes;
    }

    /** Omission disables a route for new work; its high-water row stays. */
    method DisableOmitted(was: map<string, Entry>, routes: seq<Route>)
      requires was.Keys <= rows.Keys
      modifies this`rows
      ensures rows == Disabled(old(rows), was, routes)
    {
      ghost var before := rows;
      var seen := set i | 0 <= i < |routes| :: routes[i].identity;
      assert forall id :: id in seen <==> Listed(routes, id);
      var done: set<string> := {};
      while done != was.Keys
        invariant done <= was.Keys
        invariant rows.Keys == before.Keys
        invariant forall id :: id in rows ==>
          rows[id] == if id in done && !Listed(routes, id) then before[id].(disabled := true) else before[id]
        decreases was.Keys - done
      {
        var id :| id in was && id !in done;
        if id !in seen {
          rows := rows[id := rows[id].(disabled := true)];
        }
        done := done + {id};
      }
    }

    /** Check, then write meta and routes in one transaction. */
    method Project(snap: Snapshot) returns (verdict: Verdict)
      requires Inv(State())
      modifies this
      ensures verdict == Check(old(State()), snap)
      ensures State() == if verdict == Accept then Commit(old(State()), old(rows), snap) else old(State())
    {
      var content := snap.content;
      if meta.Some? {
        if content.sequence < meta.value.sequence {
          return Rollback;
        }
        if content.sequence == meta.value.sequence {
          return if content == meta.value.digest && snap.signature == meta.value.signature then Replay else Rewritten;
        }
      }
      var was := rows;
      verdict := CheckRoutes(content.routes);
      if verdict != Accept {
        return;
      }
      meta := Some(Meta(content.sequence, content, snap.signature));
      InsertRoutes(content.routes);
      forall id | id in was ensures id in rows {
        InsertedRow(was, content.routes, id);
      }
      DisableOmitted(was, content.routes);
    }

    /** The whole ingest of one snapshot; refusals leave the tables as they were. */
    method Ingest(snap: Snapshot, authentic: bool, now: int) returns (ok: bool, replayed: bool)
      requires Inv(State())
      modifies this
      ensures Inv(State()) && State() == Load(old(State()), snap, authentic, now) && Forward(old(State()), State())
      ensures !ok || replayed ==> State() == old(State())
      ensures ok ==> meta.Some? && meta.value == Meta(snap.content.sequence, snap.content, snap.signature)
    {
      LoadMovesForward(State(), snap, authentic, now);
      ok, replayed := false, false;
      if !authentic || !Fresh(snap.content, now) {
        return;
      }
      var verdict := Project(snap);
      ok, replayed := verdict == Accept || verdict == Replay, verdict == Replay;
    }
  }

  /** A refusal of a prefix is the refusal of the whole list. */
  lemma {:induction false} RefusalStands(rows: map<string, Entry>, routes: seq<Route>, n: nat)
    requires n <= |routes| && RoutesVerdict(rows, routes[..n]) != Accept
    ensures RoutesVerdict(rows, routes) == RoutesVerdict(rows, routes[..n])
    decreases |routes| - n
  {
    if n == |routes| {
      assert routes[..n] == routes;
    } else {
      assert routes[..n + 1][..n] == routes[..n];
      RefusalStands(rows, routes, n + 1);
    }
  }
}
