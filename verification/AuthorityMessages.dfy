/**
The life of a message, told row by row without the transactions' own functions: every lifecycle move of its
reservation, what each answer of the fence says about it, and that a pending message is never dropped silently.
*/
module AuthorityMessages {
  import opened Wrappers
  import opened AuthorityState
  import opened AuthoritySafety
  import opened AuthorityHistory
  import opened AuthorityRuns
  import opened AuthorityTheorems
  import opened AuthorityConservation
  import opened AuthorityLineage
  import opened AuthorityGrants

  // ----- one reservation, one step --------------------------------------------------------

  /** The cap of `g` ends a message that waits under it and whose reservation is neither sent nor released. */
  function CapStage(s: Store, g: string, m: string): Option<Lifecycle> {
    var stage := StageOf(s, m);
    if Waits(s, m, g) && stage.Some? && stage != Some(Sent) && s.reservations[s.resOf[m]].grant == g
    then Some(Released) else stage
  }

  predicate Caps(cap: Option<real>, s: Store, g: string, now: real) {
    g in s.grants && Elapsed(s.grants[g], cap, now)
  }

  /** The lifecycle stage of `m` after one step. */
  function NextStage(cap: Option<real>, w: World, op: Op, m: string): Option<Lifecycle> {
    var s, stage := w.store, StageOf(w.store, m);
    match op
    case DoRecord(outcome) =>
      if w.calling == None || w.calling.value.msg != m then stage
      else (match outcome case Accepted => Some(Sent) case Rejected => Some(Released) case Unknown => Some(FailedUnknown))
    case DoReserve(g, n, newId) =>
      if w.calling == None && n == m && m !in s.resOf && newId !in s.reservations
         && g in s.grants && s.grants[g].state == OK && s.grants[g].tombstone == None
      then Some(Reserved) else stage
    case DoReconcile(res) =>
      if w.calling == None && m in s.resOf && s.resOf[m] == res && stage == Some(Inflight) then Some(FailedUnknown) else stage
    case DoScheduleRetry(res) =>
      if w.calling == None && m in s.resOf && s.resOf[m] == res && stage == Some(FailedUnknown) then Some(Retry) else stage
    case DoRelease(res) =>
      if w.calling == None && m in s.resOf && s.resOf[m] == res && stage != Some(Sent) then Some(Released) else stage
    case DoCap(g, now, threshold) =>
      if w.calling == None && threshold > 0.0 && Caps(Some(threshold), s, g, now) then CapStage(s, g, m) else stage
    case DoEnforceCap(g, now) =>
      if w.calling == None && Caps(cap, s, g, now) then CapStage(s, g, m) else stage
    case DoFence(g, n, supplied, newId, now) =>
      if w.calling.Some? then stage
      else if Caps(cap, s, g, now) then CapStage(s, g, m)
      else if n == m && MayHandOff(s, g, m, supplied, newId) then Some(Inflight)
      else stage
    case _ => stage
  }

  lemma CappedStage(s: Store, g: string, m: string)
    requires Inv(s) && g in s.grants && !Terminal(s.grants[g])
    ensures StageOf(Capped(s, g), m) == CapStage(s, g, m)
  {
    var s1 := Edge(s, g, CapRow(s.grants[g]));
    assert AgreementOk(s, m);
    if m in s.resOf {
      assert ReservationOk(s, s.resOf[m]);
    }
    assert Stranded(s1, g) == Stranded(s, g) by { EdgeKeepsStranded(s, g, CapRow(s.grants[g]), g); }
  }

  /** A refusal moves no reservation. */
  lemma RefusedStage(s: Store, g: string, n: string, supplied: Option<string>, newId: string, m: string)
    requires Inv(s) && !Decide(s, g, n, supplied, newId).1.Handoff?
    ensures StageOf(Decide(s, g, n, supplied, newId).0, m) == StageOf(s, m)
  {
    RefusalHolds(s, g, n, supplied, newId);
  }

  lemma FenceStage(cap: Option<real>, s: Store, g: string, n: string, supplied: Option<string>, newId: string, now: real, m: string)
    requires Inv(s)
    ensures var op := DoFence(g, n, supplied, newId, now);
      StageOf(Fence(cap, s, g, n, supplied, newId, now).0, m) == NextStage(cap, World(s, None), op, m)
  {
    var s1 := EnforceCap(cap, s, g, now);
    CapClosesExactly(cap, s, g, now);
    EnforceCapKeepsInv(cap, s, g, now);
    HandoffExactly(cap, s, g, n, supplied, newId, now);
    if Caps(cap, s, g, now) {
      CappedStage(s, g, m);
      RefusedStage(s1, g, n, supplied, newId, m);
    } else if MayHandOff(s, g, n, supplied, newId) {
      DispatchIsLawful(s, g, n, supplied, newId);
      assert m != n ==> QuietStage(s, Fence(cap, s, g, n, supplied, newId, now).0, m);
      DispatchedStage(s, g, n, supplied, newId, m);
    } else {
      RefusedStage(s, g, n, supplied, newId, m);
    }
  }

  lemma DispatchedStage(s: Store, g: string, n: string, supplied: Option<string>, newId: string, m: string)
    requires Inv(s) && Decide(s, g, n, supplied, newId).1.Handoff?
    ensures StageOf(Decide(s, g, n, supplied, newId).0, m) == if m == n then Some(Inflight) else StageOf(s, m)
  {
    HandoffShape(s, g, n, supplied, newId);
    assert AgreementOk(s, m) && AgreementOk(s, n);
  }

  lemma CapStep(cap: Option<real>, s: Store, op: Op, m: string)
    requires Inv(s) && (op.DoCap? || op.DoEnforceCap?)
    ensures StageOf(Transact(cap, s, op), m) == NextStage(cap, World(s, None), op, m)
  {
    if op.g in s.grants && !Terminal(s.grants[op.g]) {
      CappedStage(s, op.g, m);
    }
    if op.DoEnforceCap? {
      CapClosesExactly(cap, s, op.g, op.now);
    }
  }

  lemma ReleaseStep(cap: Option<real>, s: Store, op: Op, m: string)
    requires Inv(s) && op.DoRelease?
    ensures StageOf(Transact(cap, s, op), m) == NextStage(cap, World(s, None), op, m)
  {
    assert AgreementOk(s, m) && ReservationOk(s, op.res);
  }

  lemma RestagingStep(cap: Option<real>, s: Store, op: Op, m: string)
    requires Inv(s) && (op.DoReconcile? || op.DoScheduleRetry?)
    ensures StageOf(Transact(cap, s, op), m) == NextStage(cap, World(s, None), op, m)
  {
    assert AgreementOk(s, m) && ReservationOk(s, op.res);
  }

  lemma ReserveStep(cap: Option<real>, s: Store, op: Op, m: string)
    requires Inv(s) && op.DoReserve?
    ensures StageOf(Transact(cap, s, op), m) == NextStage(cap, World(s, None), op, m)
  {
    assert AgreementOk(s, m);
  }

  lemma {:induction false} ResolveAllKeepsReservations(s: Store, gids: seq<string>, reason: string)
    requires forall i :: 0 <= i < |gids| ==> gids[i] in s.grants
    ensures var t := ResolveAll(s, gids, reason); t.reservations == s.reservations && t.resOf == s.resOf
    decreases |gids|
  {
    if gids != [] {
      ResolveAllKeepsReservations(ResolveRevoked(s, gids[0], reason), gids[1..], reason);
    }
  }

  lemma BatchStage(s: Store, nonce: string, gids: seq<string>, reason: string, m: string)
    ensures StageOf(RevokeBatch(s, nonce, gids, reason).0, m) == StageOf(s, m)
  {
    if RevokeBatch(s, nonce, gids, reason).1.RevokeDone? {
      ResolveAllKeepsReservations(TombstoneAll(s, gids, reason).(nonces := s.nonces + {nonce}), gids, reason);
    }
  }

  lemma RecordStep(cap: Option<real>, w: World, outcome: Outcome, m: string)
    requires WorldInv(w)
    ensures StageOf(Step(cap, w, DoRecord(outcome)).store, m) == NextStage(cap, w, DoRecord(outcome), m)
  {
    if w.calling.Some? {
      assert ReservationOk(w.store, w.calling.value.res) && AgreementOk(w.store, m);
    }
  }

  lemma EdgeStage(s: Store, g: string, row: Grant, m: string)
    requires g in s.grants
    ensures StageOf(Edge(s, g, row), m) == StageOf(s, m)
  {
  }

  /** Every lifecycle move of every message, and when it is made: nothing else moves one. */
  lemma StagesMoveExactly(cap: Option<real>, w: World, op: Op, m: string)
    requires WorldInv(w)
    ensures StageOf(Step(cap, w, op).store, m) == NextStage(cap, w, op, m)
  {
    var s := w.store;
    if op.DoRecord? {
      RecordStep(cap, w, op.outcome, m);
    } else if w.calling == None {
      assert w == World(s, None);
      match op
      case DoFence(g, n, supplied, newId, now) => FenceStage(cap, s, g, n, supplied, newId, now, m);
      case DoCap(_, _, _) => CapStep(cap, s, op, m);
      case DoEnforceCap(_, _) => CapStep(cap, s, op, m);
      case DoReconcile(_) => RestagingStep(cap, s, op, m);
      case DoScheduleRetry(_) => RestagingStep(cap, s, op, m);
      case DoRelease(_) => ReleaseStep(cap, s, op, m);
      case DoReserve(_, _, _) => ReserveStep(cap, s, op, m);
      case DoRevoke(nonce, gids, reason) => BatchStage(s, nonce, gids, reason, m);
      case DoSetGrant(g, _) =>
        if g in s.grants {
          EdgeStage(s, g, s.grants[g].(generation := s.grants[g].generation + 1, state := SUSPECT), m);
        }
      case DoRecheck(ev) =>
        if ev.grant in s.grants {
          EdgeStage(s.(evidence := s.evidence + {ev.id}), ev.grant, Grant(ev.expected + 1, OK, None, ev.verifiedAt), m);
        }
      case DoQueue(_, _) =>
      case DoMarkHeld(_, _) =>
      case DoResolveQueued(_) =>
      case Crash =>
    }
  }

  /** The outcome of a call is recorded in both tables of its message, ends its hold on acceptance, and touches no other. */
  lemma OutcomeIsRecorded(cap: Option<real>, w: World, outcome: Outcome, m: string)
    requires WorldInv(w) && w.calling.Some?
    ensures var s := w.store; var t := Step(cap, w, DoRecord(outcome)).store; var n := w.calling.value.msg;
      && Step(cap, w, DoRecord(outcome)).calling == None
      && n in t.outbox && t.outbox[n].state == At(match outcome case Accepted => Sent case Rejected => Released case Unknown => FailedUnknown)
      && n in t.resOf && t.resOf[n] in t.reservations && At(t.reservations[t.resOf[n]].state) == t.outbox[n].state
      && (n in t.held <==> n in s.held && outcome != Accepted)
      && (m != n ==>
            && StageOf(t, m) == StageOf(s, m) && (m in t.held <==> m in s.held)
            && (m in t.outbox <==> m in s.outbox) && (m in s.outbox ==> t.outbox[m] == s.outbox[m]))
  {
    var call := w.calling.value;
    RecordStep(cap, w, outcome, m);
    assert ReservationOk(w.store, call.res);
  }

  // ----- what the fence answers -----------------------------------------------------------

  /** At an open grant within its cap, for a message bound to it, the answer is the stage of its reservation. */
  lemma AnswerIsStage(cap: Option<real>, s: Store, g: string, m: string, newId: string, now: real)
    requires Inv(s) && g in s.grants && s.grants[g].state == OK && s.grants[g].tombstone == None && WithinCap(cap, s, g, now)
    requires m !in s.ndrs && (m in s.outbox ==> s.outbox[m].grant == g && s.outbox[m].generation == s.grants[g].generation)
    requires m in s.resOf ==> s.resOf[m] in s.reservations && s.reservations[s.resOf[m]].grant == g
    requires m !in s.resOf ==> newId !in s.reservations
    ensures var verdict := Fence(cap, s, g, m, None, newId, now).1;
      match StageOf(s, m)
      case None => verdict == Handoff(newId)
      case Some(Reserved) => verdict == Handoff(s.resOf[m])
      case Some(Retry) => verdict == Handoff(s.resOf[m])
      case Some(Sent) => verdict == AlreadySent
      case Some(Released) => verdict == HeldBack
      case Some(_) => verdict == Uncertain
  {
    CapClosesExactly(cap, s, g, now);
    HandoffExactly(cap, s, g, m, None, newId, now);
    assert AgreementOk(s, m) && OutboxOk(s, m);
    if m in s.resOf {
      assert ReservationOk(s, s.resOf[m]);
    }
    if Fence(cap, s, g, m, None, newId, now).1.Handoff? {
      HandoffShape(s, g, m, None, newId);
    }
  }

  /** The tables with the message held at the grant's generation, its lineage kept only while the grant is suspended. */
  function HeldAt(s: Store, g: string, m: string): Store
    requires g in s.grants
  {
    var row := s.grants[g];
    s.(outbox := s.outbox[m := Outbox(g, row.generation, Held)], held := s.held[m := Binding(g, row.generation)],
       holds := if row.state == SUSPECT && row.tombstone == None
                then s.holds[m := Hold(g, row.generation, if m in s.resOf then Some(s.resOf[m]) else None)] else s.holds - {m})
  }

  /**
  A refusal writes nothing but a hold: it leaves the tables as the cap evaluation did, or the message is
  held under this grant.
  */
  lemma RefusalHolds(s: Store, g: string, m: string, supplied: Option<string>, newId: string)
    requires Inv(s) && !Decide(s, g, m, supplied, newId).1.Handoff?
    ensures var (t, verdict) := Decide(s, g, m, supplied, newId);
      t == s || (verdict == HeldBack && g in s.grants && t == HeldAt(s, g, m))
  {
    if Open(s, g) {
      OpenRefusalHolds(s, g, m, supplied, newId);
    } else {
      ClosedRefusalHolds(s, g, m, supplied);
    }
  }

  lemma ClosedRefusalHolds(s: Store, g: string, m: string, supplied: Option<string>)
    requires !Open(s, g)
    ensures var (t, verdict) := DecideClosed(s, g, m, supplied);
      t == s || (verdict == HeldBack && g in s.grants && t == HeldAt(s, g, m))
  {
    if g in s.grants {
      assert (s.holds - {m})[m := Hold(g, s.grants[g].generation, ReservationOf(s, m))]
          == s.holds[m := Hold(g, s.grants[g].generation, ReservationOf(s, m))];
    }
  }

  lemma OpenRefusalHolds(s: Store, g: string, m: string, supplied: Option<string>, newId: string)
    requires Inv(s) && Open(s, g)
    ensures var (t, verdict) := DecideOpen(s, g, m, supplied, newId);
      verdict.Handoff? || t == s || (verdict == HeldBack && t == HeldAt(s, g, m))
  {
    if m !in s.resOf && supplied == None && newId !in s.reservations {
      FreshIsDispatched(s, g, m, newId);
    }
  }

  /** A message with no reservation of its own reaches the transport at an open grant, unless it is bound elsewhere. */
  lemma FreshIsDispatched(s: Store, g: string, m: string, newId: string)
    requires Inv(s) && Open(s, g) && m !in s.resOf && newId !in s.reservations
    ensures DecideOpen(s, g, m, None, newId).1.Handoff?
  {
    assert OutboxOk(s, m);
  }

  // ----- nothing is lost ------------------------------------------------------------------

  predicate Pending(s: Store, m: string) {
    m in s.queued || m in s.held
  }

  /** Pending still, resolved by a record, or sent. */
  predicate Accounted(s: Store, m: string) {
    Pending(s, m) || m in s.ndrs || StageOf(s, m) == Some(Sent)
  }

  lemma EdgeKeepsPending(s: Store, g: string, row: Grant, m: string)
    requires g in s.grants
    ensures var t := Edge(s, g, row); (Pending(t, m) <==> Pending(s, m)) && t.ndrs == s.ndrs && t.queued == s.queued
  {
  }

  lemma OperatorKeepsPending(cap: Option<real>, s: Store, op: Op, m: string)
    requires op.DoSetGrant? || op.DoRecheck?
    ensures Pending(Transact(cap, s, op), m) <==> Pending(s, m)
  {
    match op
    case DoSetGrant(g, _) =>
      if g in s.grants {
        EdgeKeepsPending(s, g, s.grants[g].(generation := s.grants[g].generation + 1, state := SUSPECT), m);
      }
    case DoRecheck(ev) =>
      if ev.grant in s.grants {
        EdgeKeepsPending(s.(evidence := s.evidence + {ev.id}), ev.grant, Grant(ev.expected + 1, OK, None, ev.verifiedAt), m);
      }
  }

  lemma CapKeepsPending(s: Store, g: string, m: string)
    requires Inv(s) && g in s.grants && !Terminal(s.grants[g]) && Pending(s, m)
    ensures Pending(Capped(s, g), m) || m in Capped(s, g).ndrs
  {
    CapConserves(s, g);
    var h := if m in s.queued then s.queued[m].grant else s.held[m].grant;
    assert Waits(s, m, h);
    assert h != g ==> Waits(Capped(s, g), m, h);
  }

  lemma EnforcementKeepsPending(cap: Option<real>, s: Store, g: string, now: real, m: string)
    requires Inv(s) && Pending(s, m)
    ensures var t := EnforceCap(cap, s, g, now); Pending(t, m) || m in t.ndrs
  {
    CapClosesExactly(cap, s, g, now);
    if Caps(cap, s, g, now) {
      CapKeepsPending(s, g, m);
    }
  }

  lemma FenceKeepsPending(cap: Option<real>, s: Store, op: Op, m: string)
    requires Inv(s) && op.DoFence? && Pending(s, m)
    ensures var t := Transact(cap, s, op); Pending(t, m) || m in t.ndrs
  {
    var s1 := EnforceCap(cap, s, op.g, op.now);
    EnforceCapKeepsInv(cap, s, op.g, op.now);
    EnforcementKeepsPending(cap, s, op.g, op.now, m);
    DecideKeepsPending(s1, op.g, op.m, op.supplied, op.newId, m);
  }

  lemma DecideKeepsPending(s: Store, g: string, n: string, supplied: Option<string>, newId: string, m: string)
    requires Inv(s)
    ensures var t := Decide(s, g, n, supplied, newId).0; (Pending(s, m) ==> Pending(t, m)) && t.ndrs == s.ndrs
  {
    if Decide(s, g, n, supplied, newId).1.Handoff? {
      HandoffShape(s, g, n, supplied, newId);
    } else {
      RefusalHolds(s, g, n, supplied, newId);
    }
  }

  lemma BatchKeepsPending(s: Store, nonce: string, gids: seq<string>, reason: string, m: string)
    requires Pending(s, m)
    ensures var t := RevokeBatch(s, nonce, gids, reason).0; Pending(t, m) || m in t.ndrs
  {
    if RevokeBatch(s, nonce, gids, reason).1.RevokeDone? {
      RevokeConserves(s, nonce, gids, reason);
      var h := if m in s.queued then s.queued[m].grant else s.held[m].grant;
      assert Waits(s, m, h);
      assert h !in gids ==> Waits(RevokeBatch(s, nonce, gids, reason).0, m, h);
    }
  }

  /** A step drops a pending message only with a record, on its resolution by the client, or because it was accepted. */
  lemma PendingStep(cap: Option<real>, w: World, op: Op, m: string)
    requires WorldInv(w) && Pending(w.store, m)
    ensures var t := Step(cap, w, op).store;
      || Pending(t, m) || m in t.ndrs || op == DoResolveQueued(m)
      || (op == DoRecord(Accepted) && w.calling.Some? && w.calling.value.msg == m && StageOf(t, m) == Some(Sent))
  {
    var s := w.store;
    if op.DoRecord? {
      if w.calling.Some? {
        OutcomeIsRecorded(cap, w, op.outcome, m);
      }
    } else if w.calling == None {
      match op
      case DoFence(_, _, _, _, _) => FenceKeepsPending(cap, s, op, m);
      case DoCap(g, _, _) =>
        if g in s.grants && !Terminal(s.grants[g]) {
          CapKeepsPending(s, g, m);
        }
      case DoEnforceCap(g, now) => EnforcementKeepsPending(cap, s, g, now, m);
      case DoRevoke(nonce, gids, reason) => BatchKeepsPending(s, nonce, gids, reason, m);
      case DoSetGrant(_, _) => OperatorKeepsPending(cap, s, op, m);
      case DoRecheck(_) => OperatorKeepsPending(cap, s, op, m);
      case DoReserve(_, _, _) =>
      case DoReconcile(_) =>
      case DoScheduleRetry(_) =>
      case DoRelease(_) =>
      case DoQueue(_, _) =>
      case DoMarkHeld(_, _) =>
      case DoResolveQueued(_) =>
      case Crash =>
    }
  }

  /** Over any run a pending message is still pending, has its record, or was sent, unless the client resolved it. */
  lemma {:induction false} NothingIsLost(cap: Option<real>, w: World, ops: seq<Op>, m: string)
    requires WorldInv(w) && Accounted(w.store, m) && DoResolveQueued(m) !in ops
    ensures Accounted(Run(cap, w, ops).store, m)
    decreases |ops|
  {
    if ops != [] {
      var v := Step(cap, w, ops[0]);
      StepKeepsInv(cap, w, ops[0]);
      if Pending(w.store, m) {
        PendingStep(cap, w, ops[0], m);
      } else {
        StepIsLawful(cap, w, ops[0]);
        assert MessageKept(w.store, v.store, m);
      }
      NothingIsLost(cap, v, ops[1..], m);
    }
  }

  /** Queueing and holding for display bind the message to the grant as it is; a reservation is made fresh and once. */
  lemma RowsAreBound(s: Store, g: string, m: string, newId: string)
    requires Inv(s)
    ensures g in s.grants ==>
      var b := Binding(g, s.grants[g].generation);
      && QueueMessage(s, g, m) == (s.(queued := s.queued[m := b]), Done)
      && MarkHeld(s, g, m) == (s.(held := s.held[m := b]), Done)
    ensures var (t, reply) := ReserveDispatch(s, g, m, newId);
      && (reply.Reserve? <==>
            g in s.grants && s.grants[g].state == OK && s.grants[g].tombstone == None && (m in s.resOf || newId !in s.reservations))
      && (reply.Reserve? && m in s.resOf ==> t == s && reply.res == s.resOf[m])
      && (reply.Reserve? && m !in s.resOf ==>
            && reply.res == newId && t.resOf == s.resOf[m := newId]
            && t.reservations == s.reservations[newId := Reservation(g, s.grants[g].generation, m, OK, Reserved, 0)])
      && (!reply.Reserve? ==> t == s)
  {
  }

  // ----- what a cap leaves of a message ---------------------------------------------------

  /** The message waits under the grant, its outbox row is at the grant's generation, and its own reservation there is live. */
  predicate EndsWith(s: Store, m: string, g: string, gen: nat) {
    && Waits(s, m, g) && m in s.outbox && s.outbox[m].grant == g && s.outbox[m].generation == gen
    && m in s.resOf && s.resOf[m] in s.reservations
    && var r := s.reservations[s.resOf[m]]; r.grant == g && r.state != Sent && r.state != Released
  }

  /** Such a message ends with the capped grant: its outbox row is released. Every other row is where the edge takes it. */
  lemma CapReleasesExactly(s: Store, g: string, m: string, edge: Store)
    requires Inv(s) && g in s.grants && (s.grants[g].state == OK || s.grants[g].state == SUSPECT) && s.grants[g].tombstone == None
    requires edge == Edge(s, g, s.grants[g].(generation := s.grants[g].generation + 1, state := CAPPED)) && m in s.outbox
    ensures m in Capped(s, g).outbox && m in edge.outbox
    ensures Capped(s, g).outbox[m]
      == if EndsWith(s, m, g, s.grants[g].generation) then Outbox(g, s.grants[g].generation + 1, At(Released)) else edge.outbox[m]
  {
    var gen := s.grants[g].generation;
    var row := CapRow(s.grants[g]);
    EdgeMovesExactly(s, g, row, m, if m in s.resOf then s.resOf[m] else "");
    EdgeKeepsStranded(s, g, row, g);
    CapReleasesRow(s, edge, g, m, gen);
    ResolvedRow(edge, g, m, gen);
  }

  lemma ResolvedRow(s: Store, g: string, m: string, gen: nat)
    requires m in s.outbox
    ensures m in ResolveCapped(s, g, gen, gen + 1).outbox
    ensures ResolveCapped(s, g, gen, gen + 1).outbox[m]
      == if OutboxReleasedByCap(s.outbox[m], m, s.reservations, s.resOf, g, gen, gen + 1, Stranded(s, g))
         then Outbox(g, gen + 1, At(Released)) else s.outbox[m]
  {
  }

  predicate ResMoves(s: Store, t: Store, id: string, g: string, gen: nat)
    requires id in s.reservations && t.reservations.Keys == s.reservations.Keys
  {
    var r := s.reservations[id];
    var moves := r.grant == g && r.generation == gen && r.snapshot == OK && r.state != Sent && r.state != Released;
    t.reservations[id] == if moves then r.(generation := gen + 1) else r
  }

  lemma CapReleasesRow(s: Store, t: Store, g: string, m: string, gen: nat)
    requires Inv(s) && g in s.grants && gen == s.grants[g].generation && s.grants[g].state != REVOKED
    requires m in s.outbox && m in t.outbox && t.resOf == s.resOf && Stranded(t, g) == Stranded(s, g)
    requires t.outbox[m].grant == s.outbox[m].grant && t.outbox[m].state == s.outbox[m].state
    requires t.outbox[m].generation == s.outbox[m].generation
             || (s.outbox[m].grant == g && s.outbox[m].generation == gen && t.outbox[m].generation == gen + 1)
    requires t.reservations.Keys == s.reservations.Keys && (m in s.resOf && s.resOf[m] in s.reservations ==> ResMoves(s, t, s.resOf[m], g, gen))
    ensures OutboxReleasedByCap(t.outbox[m], m, t.reservations, t.resOf, g, gen, gen + 1, Stranded(t, g))
      <==> EndsWith(s, m, g, gen)
  {
    assert AgreementOk(s, m) && OutboxOk(s, m);
    if m in s.resOf {
      assert ReservationOk(s, s.resOf[m]);
    }
  }

  // ----- when the fence holds a message ---------------------------------------------------

  predicate BoundHere(s: Store, g: string, m: string) {
    m in s.outbox ==> g in s.grants && s.outbox[m].grant == g && s.outbox[m].generation == s.grants[g].generation
  }

  /** Neither the record of an end nor a terminal outbox row stands against the message. */
  predicate Unended(s: Store, m: string) {
    m !in s.ndrs && (m in s.outbox ==> s.outbox[m].state != At(Sent) && s.outbox[m].state != At(Released))
  }

  /** The named reservation cannot serve the message here: it is unknown, released, or another's. */
  predicate Unfit(s: Store, g: string, m: string, id: string)
    requires g in s.grants
  {
    id in s.reservations ==>
      var r := s.reservations[id];
      r.grant != g || r.msg != m || r.generation != s.grants[g].generation || r.snapshot != OK || r.state == Released
  }

  /** At a closed grant: the outbox row is backed, and the reservation is live, of this grant, and the one that was named. */
  predicate MayHold(s: Store, g: string, m: string, supplied: Option<string>)
    requires g in s.grants
  {
    var gen := s.grants[g].generation;
    && (m in s.outbox ==>
          if s.outbox[m].state == Held
          then m in s.holds && s.holds[m].grant == g && s.holds[m].generation == gen
               && s.holds[m].res == (if m in s.resOf then Some(s.resOf[m]) else None)
          else StageOf(s, m).Some? && s.outbox[m].state == At(StageOf(s, m).value))
    && if m in s.resOf then
         && s.resOf[m] in s.reservations && (supplied == None || supplied == Some(s.resOf[m]))
         && var r := s.reservations[s.resOf[m]];
            r.grant == g && r.generation == gen && r.snapshot == OK && r.state != Sent && r.state != Released
       else supplied == None
  }

  /** At an open grant a refused message is held exactly when the reservation that it names, or has, is unfit. */
  lemma OpenRefusalExactly(s: Store, g: string, m: string, supplied: Option<string>, newId: string)
    requires Inv(s) && g in s.grants && s.grants[g].state == OK && s.grants[g].tombstone == None
    requires !Decide(s, g, m, supplied, newId).1.Handoff?
    ensures var id := if supplied.Some? then supplied else if m in s.resOf then Some(s.resOf[m]) else None;
      var (t, verdict) := Decide(s, g, m, supplied, newId);
      && t == (if BoundHere(s, g, m) && Unended(s, m) && id.Some? && Unfit(s, g, m, id.value) then HeldAt(s, g, m) else s)
      && (verdict == AlreadySent <==> BoundHere(s, g, m) && m !in s.ndrs && m in s.outbox && s.outbox[m].state == At(Sent))
      && (verdict == Failed <==> BoundHere(s, g, m) && Unended(s, m) && id == None)
  {
    assert AgreementOk(s, m) && OutboxOk(s, m);
    if supplied == None && m !in s.resOf && newId !in s.reservations && BoundHere(s, g, m) && Unended(s, m) {
      FreshIsDispatched(s, g, m, newId);
    }
    if supplied.Some? {
      assert ReservationOk(s, supplied.value);
    }
  }

  /** At a closed grant a message is held exactly when everything that it has belongs to the grant as it is. */
  lemma ClosedRefusalExactly(s: Store, g: string, m: string, supplied: Option<string>, newId: string)
    requires Inv(s) && g in s.grants && (s.grants[g].state != OK || s.grants[g].tombstone != None)
    ensures var (t, verdict) := Decide(s, g, m, supplied, newId);
      && t == (if BoundHere(s, g, m) && Unended(s, m) && MayHold(s, g, m, supplied) then HeldAt(s, g, m) else s)
      && (verdict == AlreadySent <==> BoundHere(s, g, m) && m !in s.ndrs && m in s.outbox && s.outbox[m].state == At(Sent))
      && (verdict == AlreadySent || verdict == HeldBack)
  {
    assert AgreementOk(s, m);
    ClosedRefusalHolds(s, g, m, supplied);
  }

  // ----- what the callers are told --------------------------------------------------------

  /** Suspending an open grant and leaving any as it is are done; every other change of state is refused. */
  lemma SuspensionReply(s: Store, g: string, target: GrantState)
    ensures var (t, reply) := SetGrant(s, g, target);
      && (reply == Done <==>
            g in s.grants && (target == s.grants[g].state
                              || (target == SUSPECT && s.grants[g].state == OK && s.grants[g].tombstone == None)))
      && (reply == Refused ==> t == s)
  {
  }

  /** An operator's cap names the messages it gave their record; a capped grant has none left to name. */
  lemma CapReplyExactly(s: Store, g: string, now: real, threshold: real)
    requires Inv(s)
    ensures var (t, reply) := ApplyCap(s, g, now, threshold);
      && (reply == CapRefused <==>
            threshold <= 0.0 || g !in s.grants || s.grants[g].state == REVOKED || s.grants[g].tombstone != None)
      && (reply != CapRefused ==>
            if s.grants[g].state == CAPPED then t == s && reply == CapDone({})
            else if now - s.grants[g].watermark < threshold then t == s && reply == CapNotDue
            else reply == CapDone(set m | m in t.ndrs && m !in s.ndrs))
  {
    if g in s.grants && ApplyCap(s, g, now, threshold).0 != s {
      assert Capped(s, g).ndrs.Keys - s.ndrs.Keys == set m | m in Capped(s, g).ndrs && m !in s.ndrs;
    }
  }

  /** What is told of a reservation is the stage that it has afterwards, if the call applies to it. */
  lemma LifecycleReplies(s: Store, id: string)
    ensures var (t, stage) := ReconcileInflight(s, id);
      t.reservations.Keys == s.reservations.Keys && stage == if id in s.reservations then Some(t.reservations[id].state) else None
    ensures var (t, stage) := ScheduleRetry(s, id);
      stage == if id in s.reservations && s.reservations[id].state == FailedUnknown then Some(Retry) else None
    ensures ReleaseReservation(s, id).1 == if id in s.reservations && s.reservations[id].state != Sent then Done else Refused
  {
  }

  /** A reservation is denied at a grant that is not open, and fails where its id is taken. */
  lemma ReserveReplyExactly(s: Store, g: string, m: string, newId: string)
    ensures var reply := ReserveDispatch(s, g, m, newId).1;
      var open := g in s.grants && s.grants[g].state == OK && s.grants[g].tombstone == None;
      && (reply == ReserveDenied <==> !open)
      && (reply == ReserveFailed <==> open && m !in s.resOf && newId in s.reservations)
  {
  }

  /** A resolved message leaves the queue, and nothing else does. */
  lemma ResolutionDequeues(s: Store, m: string, n: string)
    ensures var t := ResolveQueued(s, m);
      && t == s.(queued := t.queued) && (n in t.queued <==> n in s.queued && n != m)
      && (n in t.queued ==> t.queued[n] == s.queued[n])
  {
  }
}
