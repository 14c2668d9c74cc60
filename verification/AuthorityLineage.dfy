/**
Chained suspension: a message held by the action fence while its grant was SUSPECT keeps its binding
through every later grant edge, and is dispatched once the grant is OK again.
*/
module AuthorityLineage {
  import opened Wrappers
  import opened AuthorityState
  import opened AuthoritySafety
  import opened AuthorityHistory
  import opened AuthorityRuns

  /** Outbox, held and lineage rows of `m` all sit at the current generation of `g`. */
  predicate LineageAt(s: Store, m: string, g: string) {
    g in s.grants && Lineage(s, m, g, s.grants[g].generation)
  }

  /** A hold written by the fence while the grant is SUSPECT starts a lineage. */
  lemma SuspendedHoldStartsLineage(s: Store, g: string, m: string, supplied: Option<string>, newId: string)
    requires Inv(s) && g in s.grants && s.grants[g].state == SUSPECT && s.grants[g].tombstone == None
    requires Decide(s, g, m, supplied, newId).0 != s
    ensures LineageAt(Decide(s, g, m, supplied, newId).0, m, g)
  {
    assert AgreementOk(s, m);
    assert Decide(s, g, m, supplied, newId) == DecideClosed(s, g, m, supplied);
  }

  lemma EdgeKeepsLineage(s: Store, m: string, g: string, h: string, grant: Grant)
    requires LineageAt(s, m, g) && h in s.grants && grant.generation == s.grants[h].generation + 1
    ensures LineageAt(Edge(s, h, grant), m, g)
  {
  }

  /** Rows of other messages may change; the lineage survives while its own rows do not. */
  lemma SameRowsKeepLineage(s: Store, t: Store, m: string, g: string)
    requires LineageAt(s, m, g) && g in t.grants && t.grants[g].generation == s.grants[g].generation
    requires m in t.holds && t.holds[m] == s.holds[m] && m in t.outbox && t.outbox[m] == s.outbox[m]
    requires m in t.held && t.held[m] == s.held[m] && m !in t.ndrs
    requires m in t.resOf <==> m in s.resOf
    requires s.holds[m].res.Some? ==>
      s.holds[m].res.value in t.reservations && t.reservations[s.holds[m].res.value].msg == m
      && LiveBinding(t.reservations[s.holds[m].res.value], g, s.grants[g].generation)
    ensures LineageAt(t, m, g)
  {
  }

  lemma CappedOtherKeepsLineage(s: Store, m: string, g: string, h: string)
    requires LineageAt(s, m, g) && h in s.grants && h != g && m !in Capped(s, h).ndrs
    ensures LineageAt(Capped(s, h), m, g)
  {
    SameRowsKeepLineage(s, Capped(s, h), m, g);
  }

  lemma {:induction false} ResolveAllKeepsLineage(s: Store, m: string, g: string, gids: seq<string>, reason: string)
    requires LineageAt(s, m, g) && g !in gids && forall i :: 0 <= i < |gids| ==> gids[i] in s.grants
    requires m !in ResolveAll(s, gids, reason).ndrs
    ensures LineageAt(ResolveAll(s, gids, reason), m, g)
    decreases |gids|
  {
    if gids != [] {
      var s1 := ResolveRevoked(s, gids[0], reason);
      ResolveAllQuiet(s1, gids[1..], reason);
      assert MessageKept(s1, ResolveAll(s1, gids[1..], reason), m);
      SameRowsKeepLineage(s, s1, m, g);
      ResolveAllKeepsLineage(s1, m, g, gids[1..], reason);
    }
  }

  /**
  Transactions that leave the hold of `m` under `g` to the chain: no action on it except while `g`
  is SUSPECT, no display hold or reservation under another grant, no release of its reservation.
  */
  predicate LeavesHold(s: Store, op: Op, m: string, g: string) {
    match op
    case DoFence(h, n, _, _, _) =>
      h == g && n == m ==> g in s.grants && s.grants[g].state == SUSPECT && s.grants[g].tombstone == None
    case DoMarkHeld(h, n) => n == m ==> h == g
    case DoReserve(h, n, _) => n == m ==> h == g
    case DoRelease(res) => m in s.resOf ==> s.resOf[m] != res
    case _ => true
  }

  /** The grant was not capped or revoked, and no NDR ended the message. */
  predicate Suspended(s: Store, m: string, g: string) {
    && m !in s.ndrs
    && g in s.grants && s.grants[g].state != CAPPED && s.grants[g].state != REVOKED
  }

  lemma FenceKeepsLineage(cap: Option<real>, s: Store, op: Op, m: string, g: string)
    requires Inv(s) && LineageAt(s, m, g) && op.DoFence? && LeavesHold(s, op, m, g)
    requires Suspended(Transact(cap, s, op), m, g)
    ensures LineageAt(Transact(cap, s, op), m, g)
  {
    var s1 := EnforceCap(cap, s, op.g, op.now);
    var t := Decide(s1, op.g, op.m, op.supplied, op.newId).0;
    EnforceCapKeepsInv(cap, s, op.g, op.now);
    DecideKeepsRows(s1, op.g, op.m, op.supplied, op.newId);
    EnforceCapKeepsLineage(cap, s, op.g, op.now, m, g);
    if op.m != m {
      DecideTouchesOneMessage(s1, op.g, op.m, op.supplied, op.newId, m);
      SameRowsKeepLineage(s1, t, m, g);
    } else if op.g == g {
      if t != s1 {
        SuspendedHoldStartsLineage(s1, g, m, op.supplied, op.newId);
      }
    }
  }

  lemma DecideKeepsRows(s: Store, g: string, m: string, supplied: Option<string>, newId: string)
    requires Inv(s)
    ensures Decide(s, g, m, supplied, newId).0.grants == s.grants
    ensures Decide(s, g, m, supplied, newId).0.ndrs == s.ndrs
  {
    if Decide(s, g, m, supplied, newId).1.Handoff? {
      HandoffShape(s, g, m, supplied, newId);
    } else if Decide(s, g, m, supplied, newId).0 != s {
      RefusalWritesHold(s, g, m, supplied, newId);
    }
  }

  lemma DecideTouchesOneMessage(s: Store, g: string, m: string, supplied: Option<string>, newId: string, n: string)
    requires Inv(s) && n != m
    ensures var t := Decide(s, g, m, supplied, newId).0;
      && (n in t.holds <==> n in s.holds) && (n in s.holds ==> t.holds[n] == s.holds[n])
      && (n in t.outbox <==> n in s.outbox) && (n in s.outbox ==> t.outbox[n] == s.outbox[n])
      && (n in t.held <==> n in s.held) && (n in s.held ==> t.held[n] == s.held[n])
      && (n in t.resOf <==> n in s.resOf)
      && (forall r :: r in s.reservations && s.reservations[r].msg == n ==>
            r in t.reservations && t.reservations[r] == s.reservations[r])
  {
    if Decide(s, g, m, supplied, newId).1.Handoff? {
      HandoffShape(s, g, m, supplied, newId);
    } else if Decide(s, g, m, supplied, newId).0 != s {
      RefusalWritesHold(s, g, m, supplied, newId);
      RefusalKeepsOtherHolds(s, g, m, supplied, newId);
    }
  }

  lemma OpenRefusalKeepsOtherHolds(s: Store, g: string, m: string, supplied: Option<string>, newId: string)
    requires Inv(s) && Open(s, g) && !DecideOpen(s, g, m, supplied, newId).1.Handoff?
    ensures DecideOpen(s, g, m, supplied, newId).0.holds - {m} == s.holds - {m}
  {
    match supplied
    case Some(res) => NamedRefusal(s, s, g, m, res);
    case None =>
      if m in s.resOf {
        NamedRefusal(s, s, g, m, s.resOf[m]);
      } else if newId !in s.reservations {
        NamedRefusal(s, Prepared(s, g, m, newId), g, m, newId);
      }
  }

  lemma RefusalKeepsOtherHolds(s: Store, g: string, m: string, supplied: Option<string>, newId: string)
    requires Inv(s) && !Decide(s, g, m, supplied, newId).1.Handoff?
    ensures Decide(s, g, m, supplied, newId).0.holds - {m} == s.holds - {m}
  {
    if Decide(s, g, m, supplied, newId).0 != s && Open(s, g) {
      assert Decide(s, g, m, supplied, newId) == DecideOpen(s, g, m, supplied, newId);
      OpenRefusalKeepsOtherHolds(s, g, m, supplied, newId);
    }
  }

  lemma EnforceCapKeepsLineage(cap: Option<real>, s: Store, h: string, now: real, m: string, g: string)
    requires LineageAt(s, m, g) && Suspended(EnforceCap(cap, s, h, now), m, g)
    ensures LineageAt(EnforceCap(cap, s, h, now), m, g)
    ensures EnforceCap(cap, s, h, now).grants[g] == s.grants[g]
  {
    if CapDue(cap, s, h, now) {
      CappedIsClosed(s, h);
      CappedOtherKeepsLineage(s, m, g, h);
      assert Capped(s, h).grants == s.grants[h := CapRow(s.grants[h])];
    }
  }

  lemma StepKeepsLineage(cap: Option<real>, w: World, op: Op, m: string, g: string)
    requires WorldInv(w) && LineageAt(w.store, m, g) && LeavesHold(w.store, op, m, g)
    requires Suspended(Step(cap, w, op).store, m, g)
    ensures LineageAt(Step(cap, w, op).store, m, g)
  {
    var s := w.store;
    if w.calling.Some? {
      if op.DoRecord? {
        assert ReservationOk(s, w.calling.value.res);
        SameRowsKeepLineage(s, Step(cap, w, op).store, m, g);
      }
    } else if op.DoFence? {
      FenceKeepsLineage(cap, s, op, m, g);
    } else if op.DoRevoke? {
      RevokeKeepsLineage(s, op.nonce, op.gids, op.reason, m, g);
    } else if op.DoCap? {
      if Transact(cap, s, op) != s {
        CappedIsClosed(s, op.g);
        CappedOtherKeepsLineage(s, m, g, op.g);
      }
    } else if op.DoEnforceCap? {
      EnforceCapKeepsLineage(cap, s, op.g, op.now, m, g);
    } else {
      TransactKeepsLineage(cap, s, op, m, g);
    }
  }

  lemma RevokeKeepsLineage(s: Store, nonce: string, gids: seq<string>, reason: string, m: string, g: string)
    requires LineageAt(s, m, g) && Suspended(RevokeBatch(s, nonce, gids, reason).0, m, g)
    ensures LineageAt(RevokeBatch(s, nonce, gids, reason).0, m, g)
  {
    if RevokeBatch(s, nonce, gids, reason).1.RevokeDone? {
      var s1 := TombstoneAll(s, gids, reason).(nonces := s.nonces + {nonce});
      var t := ResolveAll(s1, gids, reason);
      assert t.grants == s1.grants;
      assert g !in gids;
      SameRowsKeepLineage(s, s1, m, g);
      ResolveAllKeepsLineage(s1, m, g, gids, reason);
    }
  }

  lemma RecheckKeepsLineage(s: Store, ev: Evidence, m: string, g: string)
    requires LineageAt(s, m, g)
    ensures LineageAt(Recheck(s, ev).0, m, g)
  {
    if Admissible(s, ev) {
      var s1 := s.(evidence := s.evidence + {ev.id});
      SameRowsKeepLineage(s, s1, m, g);
      EdgeKeepsLineage(s1, m, g, ev.grant, Grant(ev.expected + 1, OK, None, ev.verifiedAt));
    }
  }

  lemma SetGrantKeepsLineage(s: Store, h: string, target: GrantState, m: string, g: string)
    requires LineageAt(s, m, g)
    ensures LineageAt(SetGrant(s, h, target).0, m, g)
  {
    if SetGrant(s, h, target).0 != s {
      EdgeKeepsLineage(s, m, g, h, s.grants[h].(generation := s.grants[h].generation + 1, state := SUSPECT));
    }
  }

  lemma ReserveKeepsLineage(s: Store, h: string, n: string, newId: string, m: string, g: string)
    requires LineageAt(s, m, g) && (n == m ==> h == g)
    ensures LineageAt(ReserveDispatch(s, h, n, newId).0, m, g)
  {
    if ReserveDispatch(s, h, n, newId).0 != s && n != m {
      SameRowsKeepLineage(s, ReserveDispatch(s, h, n, newId).0, m, g);
    }
  }

  /** A lineage's own reservation may move between live stages; no other may pass for it. */
  lemma RestageKeepsLineage(s: Store, t: Store, res: string, m: string, g: string)
    requires Inv(s) && LineageAt(s, m, g) && res in s.reservations && res in t.reservations
    requires t.reservations == s.reservations[res := s.reservations[res].(state := t.reservations[res].state)]
    requires t == s.(reservations := t.reservations, outbox := t.outbox)
    requires m in t.outbox && t.outbox[m] == s.outbox[m]
    requires Live(t.reservations[res].state) || (m in s.resOf ==> s.resOf[m] != res)
    ensures LineageAt(t, m, g)
  {
    if s.holds[m].res.Some? {
      assert ReservationOk(s, s.holds[m].res.value);
    }
    SameRowsKeepLineage(s, t, m, g);
  }

  lemma ReconcileKeepsLineage(s: Store, res: string, m: string, g: string)
    requires Inv(s) && LineageAt(s, m, g)
    ensures LineageAt(ReconcileInflight(s, res).0, m, g)
    ensures LineageAt(ScheduleRetry(s, res).0, m, g)
    ensures (m in s.resOf ==> s.resOf[m] != res) ==> LineageAt(ReleaseReservation(s, res).0, m, g)
  {
    if ReconcileInflight(s, res).0 != s {
      RestageKeepsLineage(s, ReconcileInflight(s, res).0, res, m, g);
    }
    if ScheduleRetry(s, res).0 != s {
      RestageKeepsLineage(s, ScheduleRetry(s, res).0, res, m, g);
    }
    if ReleaseReservation(s, res).0 != s && (m in s.resOf ==> s.resOf[m] != res) {
      RestageKeepsLineage(s, ReleaseReservation(s, res).0, res, m, g);
    }
  }

  lemma DisplayKeepsLineage(s: Store, h: string, n: string, m: string, g: string)
    requires LineageAt(s, m, g)
    ensures LineageAt(QueueMessage(s, h, n).0, m, g) && LineageAt(ResolveQueued(s, n), m, g)
    ensures (n == m ==> h == g) ==> LineageAt(MarkHeld(s, h, n).0, m, g)
  {
  }

  lemma TransactKeepsLineage(cap: Option<real>, s: Store, op: Op, m: string, g: string)
    requires Inv(s) && LineageAt(s, m, g) && LeavesHold(s, op, m, g)
    requires !op.DoFence? && !op.DoRevoke? && !op.DoCap? && !op.DoEnforceCap?
    ensures LineageAt(Transact(cap, s, op), m, g)
  {
    match op
    case DoSetGrant(h, target) => SetGrantKeepsLineage(s, h, target, m, g);
    case DoRecheck(ev) => RecheckKeepsLineage(s, ev, m, g);
    case DoReserve(h, n, newId) => ReserveKeepsLineage(s, h, n, newId, m, g);
    case DoReconcile(res) => ReconcileKeepsLineage(s, res, m, g);
    case DoScheduleRetry(res) => ReconcileKeepsLineage(s, res, m, g);
    case DoRelease(res) => ReconcileKeepsLineage(s, res, m, g);
    case DoQueue(h, n) => DisplayKeepsLineage(s, h, n, m, g);
    case DoMarkHeld(h, n) => DisplayKeepsLineage(s, h, n, m, g);
    case DoResolveQueued(n) => DisplayKeepsLineage(s, g, n, m, g);
    case DoRecord(_) =>
    case Crash =>
  }

  /** Every step of the run leaves the hold alone and neither caps, revokes nor NDRs it. */
  predicate RunLeavesHold(cap: Option<real>, w: World, ops: seq<Op>, m: string, g: string)
    decreases |ops|
  {
    ops != [] ==>
      && LeavesHold(w.store, ops[0], m, g)
      && Suspended(Step(cap, w, ops[0]).store, m, g)
      && RunLeavesHold(cap, Step(cap, w, ops[0]), ops[1..], m, g)
  }

  /** A held message stays at its grant's generation through any number of grant edges. */
  lemma {:induction false} LineageSurvives(cap: Option<real>, w: World, ops: seq<Op>, m: string, g: string)
    requires WorldInv(w) && LineageAt(w.store, m, g) && RunLeavesHold(cap, w, ops, m, g)
    ensures LineageAt(Run(cap, w, ops).store, m, g)
    decreases |ops|
  {
    if ops != [] {
      StepKeepsInv(cap, w, ops[0]);
      StepKeepsLineage(cap, w, ops[0], m, g);
      LineageSurvives(cap, Step(cap, w, ops[0]), ops[1..], m, g);
    }
  }

  /**
  At an open grant within its cap the fence dispatches a lineage that may be tried again: one that never
  had a reservation, when the caller names none either, and otherwise under the one it has.
  */
  lemma LineageDispatches(cap: Option<real>, s: Store, m: string, g: string, supplied: Option<string>, newId: string, now: real)
    requires Inv(s) && LineageAt(s, m, g) && s.grants[g].state == OK && s.grants[g].tombstone == None
    ensures Fence(cap, s, g, m, supplied, newId, now).1.Handoff? <==>
      && (cap.Some? ==> now - s.grants[g].watermark < cap.value)
      && match StageOf(s, m)
         case None => supplied == None && newId !in s.reservations
         case Some(stage) =>
           (stage == Reserved || stage == Retry) && (supplied == None || supplied == Some(s.resOf[m]))
  {
    assert AgreementOk(s, m);
    if s.holds[m].res.Some? {
      assert ReservationOk(s, s.holds[m].res.value);
    }
    HandoffExactly(cap, s, g, m, supplied, newId, now);
  }
}
