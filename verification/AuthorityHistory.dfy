/**
What no transaction of the federation authority undoes. `Kept` relates two stores of one run;
`Quiet` is the part of it shared by every transaction that performs no lifecycle step of its own.
*/
module AuthorityHistory {
  import opened Wrappers
  import opened AuthorityState
  import opened AuthoritySafety

  /** The outbox row was left behind by its grant. */
  predicate Stale(s: Store, m: string) {
    && m in s.outbox && s.outbox[m].grant in s.grants
    && s.outbox[m].generation < s.grants[s.outbox[m].grant].generation
  }

  function StageOf(s: Store, m: string): Option<Lifecycle> {
    if m in s.resOf && s.resOf[m] in s.reservations then Some(s.reservations[s.resOf[m]].state) else None
  }

  function AttemptsOf(s: Store, m: string): nat {
    if m in s.resOf && s.resOf[m] in s.reservations then s.reservations[s.resOf[m]].attempts else 0
  }

  ghost predicate GrantKept(s: Store, t: Store, g: string) {
    g in s.grants ==>
      && g in t.grants && s.grants[g].generation <= t.grants[g].generation
      && (Terminal(s.grants[g]) ==> t.grants[g] == s.grants[g])
  }

  ghost predicate MessageKept(s: Store, t: Store, m: string) {
    && (m in s.ndrs ==> m in t.ndrs && t.ndrs[m] == s.ndrs[m])
    && (Stale(s, m) ==>
          m in t.outbox && t.outbox[m].grant == s.outbox[m].grant
          && t.outbox[m].generation == s.outbox[m].generation)
    && (m in s.resOf && s.resOf[m] in s.reservations ==>
          && m in t.resOf && t.resOf[m] == s.resOf[m] && t.resOf[m] in t.reservations
          && t.reservations[t.resOf[m]].grant == s.reservations[s.resOf[m]].grant
          && (StageOf(s, m) == Some(Sent) || StageOf(s, m) == Some(Released) ==> StageOf(t, m) == StageOf(s, m)))
  }

  ghost predicate Kept(s: Store, t: Store) {
    && (forall g {:trigger GrantKept(s, t, g)} :: GrantKept(s, t, g))
    && (forall m {:trigger MessageKept(s, t, m)} :: MessageKept(s, t, m))
  }

  /** No attempt is made, and a lifecycle moves only to `released`, never out of `sent`. */
  ghost predicate QuietStage(s: Store, t: Store, m: string) {
    && AttemptsOf(t, m) == AttemptsOf(s, m)
    && (StageOf(t, m) == StageOf(s, m)
        || (StageOf(s, m) != None && StageOf(s, m) != Some(Sent) && StageOf(t, m) == Some(Released)))
  }

  ghost predicate Quiet(s: Store, t: Store) {
    Kept(s, t) && forall m {:trigger QuietStage(s, t, m)} :: QuietStage(s, t, m)
  }

  lemma KeptTransitive(s: Store, t: Store, u: Store)
    requires Kept(s, t) && Kept(t, u)
    ensures Kept(s, u)
  {
    forall g ensures GrantKept(s, u, g) {
      assert GrantKept(s, t, g) && GrantKept(t, u, g);
    }
    forall m ensures MessageKept(s, u, m) {
      assert MessageKept(s, t, m) && MessageKept(t, u, m);
      if Stale(s, m) {
        assert GrantKept(s, t, s.outbox[m].grant);
      }
    }
  }

  lemma QuietTransitive(s: Store, t: Store, u: Store)
    requires Quiet(s, t) && Quiet(t, u)
    ensures Quiet(s, u)
  {
    KeptTransitive(s, t, u);
    forall m ensures QuietStage(s, u, m) {
      assert QuietStage(s, t, m) && QuietStage(t, u, m);
    }
  }

  lemma SelfQuiet(s: Store)
    ensures Quiet(s, s)
  {
  }

  lemma EdgeQuiet(s: Store, g: string, grant: Grant)
    requires g in s.grants && !Terminal(s.grants[g]) && s.grants[g].generation <= grant.generation
    ensures Quiet(s, Edge(s, g, grant))
  {
    var t := Edge(s, g, grant);
    forall m ensures MessageKept(s, t, m) && QuietStage(s, t, m) {
    }
  }

  /** Everything but the grants and the lifecycle data may change under `Quiet`. */
  lemma RowsQuiet(s: Store, t: Store)
    requires t.grants == s.grants && t.reservations == s.reservations && t.resOf == s.resOf
    requires forall m :: m in s.ndrs ==> m in t.ndrs && t.ndrs[m] == s.ndrs[m]
    requires forall m :: Stale(s, m) ==> m in t.outbox && t.outbox[m] == s.outbox[m]
    ensures Quiet(s, t)
  {
    forall m ensures MessageKept(s, t, m) && QuietStage(s, t, m) {
    }
  }

  /** The release touches outbox rows at the generation before the cap, so it is judged from there. */
  lemma ReleaseStrandedQuiet(s: Store, t: Store, g: string, next: nat, stranded: set<string>)
    requires Quiet(s, t) && g in s.grants && next == s.grants[g].generation + 1
    ensures Quiet(s, ReleaseStranded(t, g, s.grants[g].generation, next, stranded))
  {
    var u := ReleaseStranded(t, g, s.grants[g].generation, next, stranded);
    forall h ensures GrantKept(s, u, h) {
      assert GrantKept(s, t, h);
    }
    forall m ensures MessageKept(s, u, m) && QuietStage(s, u, m) {
      assert MessageKept(s, t, m) && QuietStage(s, t, m);
    }
  }

  lemma CappedQuiet(s: Store, g: string)
    requires g in s.grants && !Terminal(s.grants[g])
    ensures Quiet(s, Capped(s, g))
  {
    var t := Edge(s, g, CapRow(s.grants[g]));
    assert Capped(s, g) == ResolveCapped(t, g, s.grants[g].generation, s.grants[g].generation + 1);
    EdgeQuiet(s, g, CapRow(s.grants[g]));
    ResolveCappedQuiet(s, t, g);
  }

  lemma ResolveCappedQuiet(s: Store, t: Store, g: string)
    requires Quiet(s, t) && g in s.grants
    ensures Quiet(s, ResolveCapped(t, g, s.grants[g].generation, s.grants[g].generation + 1))
  {
    var prev, next := s.grants[g].generation, s.grants[g].generation + 1;
    var stranded := Stranded(t, g);
    var t1 := t.(ndrs := WithNdrs(t.ndrs, stranded, Ndr(g, next, CapReason, CapDetail)));
    RowsQuiet(t, t1);
    QuietTransitive(s, t, t1);
    var t2 := ReleaseStranded(t1, g, prev, next, stranded);
    ReleaseStrandedQuiet(s, t1, g, next, stranded);
    RowsQuiet(t2, DropPending(t2, g));
    QuietTransitive(s, t2, DropPending(t2, g));
  }

  lemma {:induction false} ResolveAllQuiet(s: Store, gids: seq<string>, reason: string)
    requires forall i :: 0 <= i < |gids| ==> gids[i] in s.grants
    ensures Quiet(s, ResolveAll(s, gids, reason))
    decreases |gids|
  {
    if gids != [] {
      var s1 := ResolveRevoked(s, gids[0], reason);
      RowsQuiet(s, s1);
      ResolveAllQuiet(s1, gids[1..], reason);
      QuietTransitive(s, s1, ResolveAll(s1, gids[1..], reason));
    }
  }

  lemma TombstoneAllQuiet(s: Store, gids: seq<string>, reason: string, nonces: set<string>)
    requires Revocable(s, gids)
    ensures Quiet(s, TombstoneAll(s, gids, reason).(nonces := nonces))
  {
    var t := TombstoneAll(s, gids, reason).(nonces := nonces);
    forall m ensures MessageKept(s, t, m) && QuietStage(s, t, m) {
    }
  }

  lemma RevokeQuiet(s: Store, nonce: string, gids: seq<string>, reason: string)
    ensures Quiet(s, RevokeBatch(s, nonce, gids, reason).0)
  {
    if RevokeBatch(s, nonce, gids, reason).1.RevokeDone? {
      var s1 := TombstoneAll(s, gids, reason).(nonces := s.nonces + {nonce});
      var t := ResolveAll(s1, gids, reason);
      assert RevokeBatch(s, nonce, gids, reason).0 == t;
      TombstoneAllQuiet(s, gids, reason, s.nonces + {nonce});
      ResolveAllQuiet(s1, gids, reason);
      QuietTransitive(s, s1, t);
    } else {
      SelfQuiet(s);
    }
  }

  lemma RecheckQuiet(s: Store, ev: Evidence)
    ensures Quiet(s, Recheck(s, ev).0)
  {
    if Admissible(s, ev) {
      var s1 := s.(evidence := s.evidence + {ev.id});
      var t := Edge(s1, ev.grant, Grant(ev.expected + 1, OK, None, ev.verifiedAt));
      assert Recheck(s, ev).0 == t;
      RowsQuiet(s, s1);
      EdgeQuiet(s1, ev.grant, Grant(ev.expected + 1, OK, None, ev.verifiedAt));
      QuietTransitive(s, s1, t);
    }
  }

  lemma SetGrantQuiet(s: Store, g: string, target: GrantState)
    ensures Quiet(s, SetGrant(s, g, target).0)
  {
    if SetGrant(s, g, target).0 != s {
      EdgeQuiet(s, g, s.grants[g].(generation := s.grants[g].generation + 1, state := SUSPECT));
    }
  }

  lemma WithReservationKept(s: Store, g: string, m: string, newId: string)
    requires Inv(s) && g in s.grants && m !in s.resOf && newId !in s.reservations
    ensures var t := WithReservation(s, newId, FreshReservation(s, g, m));
      Kept(s, t) && StageOf(t, m) == Some(Reserved) && AttemptsOf(t, m) == AttemptsOf(s, m)
      && forall n :: n != m ==> QuietStage(s, t, n)
  {
    var t := WithReservation(s, newId, FreshReservation(s, g, m));
    forall n ensures MessageKept(s, t, n) && (n != m ==> QuietStage(s, t, n)) {
      assert AgreementOk(s, n);
    }
  }

  /** Rewriting the stage of one reservation and the state of its outbox row. */
  lemma RestageKept(s: Store, t: Store, res: string)
    requires Inv(s) && res in s.reservations && s.reservations[res].state != Sent
    requires s.reservations[res].state != Released || t.reservations == s.reservations
    requires t.grants == s.grants && t.ndrs == s.ndrs && t.resOf == s.resOf && res in t.reservations
    requires t.reservations == s.reservations[res := t.reservations[res]]
    requires t.reservations[res].grant == s.reservations[res].grant
    requires forall m :: Stale(s, m) ==>
      m in t.outbox && t.outbox[m].grant == s.outbox[m].grant && t.outbox[m].generation == s.outbox[m].generation
    ensures Kept(s, t)
    ensures forall n :: n != s.reservations[res].msg ==> QuietStage(s, t, n)
    ensures StageOf(s, s.reservations[res].msg) == Some(s.reservations[res].state)
    ensures StageOf(t, s.reservations[res].msg) == Some(t.reservations[res].state)
    ensures AttemptsOf(s, s.reservations[res].msg) == s.reservations[res].attempts
    ensures AttemptsOf(t, s.reservations[res].msg) == t.reservations[res].attempts
  {
    assert ReservationOk(s, res);
    forall m ensures MessageKept(s, t, m) && (m != s.reservations[res].msg ==> QuietStage(s, t, m)) {
      assert AgreementOk(s, m);
    }
  }

  /** A refused action writes nothing, or a hold for a message whose outbox row was not stale. */
  lemma RefusalQuiet(s: Store, g: string, m: string, supplied: Option<string>, newId: string)
    requires Inv(s) && !Decide(s, g, m, supplied, newId).1.Handoff?
    ensures Quiet(s, Decide(s, g, m, supplied, newId).0)
  {
    var t := Decide(s, g, m, supplied, newId).0;
    if t != s {
      RefusalWritesHold(s, g, m, supplied, newId);
      RowsQuiet(s, t);
    }
  }

  lemma RefusalWritesHold(s: Store, g: string, m: string, supplied: Option<string>, newId: string)
    requires Inv(s)
    requires !Decide(s, g, m, supplied, newId).1.Handoff? && Decide(s, g, m, supplied, newId).0 != s
    ensures g in s.grants && m !in s.ndrs
    ensures m in s.outbox ==> s.outbox[m].grant == g && s.outbox[m].generation == s.grants[g].generation
    ensures var t := Decide(s, g, m, supplied, newId).0;
      t == HoldRow(s, m, g, s.grants[g].generation).(holds := t.holds)
  {
    if Open(s, g) {
      assert Decide(s, g, m, supplied, newId) == DecideOpen(s, g, m, supplied, newId);
      match supplied
      case Some(res) =>
        NamedRefusal(s, s, g, m, res);
      case None =>
        if m in s.resOf {
          NamedRefusal(s, s, g, m, s.resOf[m]);
        } else if newId !in s.reservations {
          var base := Prepared(s, g, m, newId);
          assert OutboxOk(s, m);
          NamedRefusal(s, base, g, m, newId);
        }
    }
  }

  lemma NamedRefusal(s0: Store, s: Store, g: string, m: string, res: string)
    requires g in s.grants && !DecideNamed(s0, s, g, m, res).1.Handoff?
    ensures DecideNamed(s0, s, g, m, res).0 == s0
            || DecideNamed(s0, s, g, m, res).0 == HoldRow(s, m, g, s.grants[g].generation)
    ensures res in s.reservations && s.reservations[res] == FreshReservation(s, g, m)
            ==> DecideNamed(s0, s, g, m, res).0 == s0
  {
  }
}
