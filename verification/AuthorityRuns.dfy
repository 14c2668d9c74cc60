/**
Whole runs of the federation authority. A run is any sequence of committed transactions by any
number of processes; a process may die between two commits and during a transport call, while the
authority lock keeps every other transaction out of a call in progress.
*/
module AuthorityRuns {
  import opened Wrappers
  import opened AuthorityState
  import opened AuthoritySafety
  import opened AuthorityHistory

  datatype Op =
    | DoSetGrant(g: string, target: GrantState)
    | DoQueue(g: string, m: string)
    | DoMarkHeld(g: string, m: string)
    | DoResolveQueued(m: string)
    | DoReserve(g: string, m: string, newId: string)
    | DoReconcile(res: string)
    | DoScheduleRetry(res: string)
    | DoRelease(res: string)
    | DoRevoke(nonce: string, gids: seq<string>, reason: string)
    | DoCap(g: string, now: real, threshold: real)
    | DoEnforceCap(g: string, now: real)  // the first commit of an action or of a receive
    | DoRecheck(ev: Evidence)
    | DoFence(g: string, m: string, supplied: Option<string>, newId: string, now: real)
    | DoRecord(outcome: Outcome)
    | Crash

  datatype Call = Call(msg: string, res: string)

  /** `calling` is the transport call in progress, whose process holds the authority lock. */
  datatype World = World(store: Store, calling: Option<Call>)

  /** The transactions that run from start to end under the lock, without a transport call. */
  function Transact(cap: Option<real>, s: Store, op: Op): Store {
    match op
    case DoSetGrant(g, target) => SetGrant(s, g, target).0
    case DoQueue(g, m) => QueueMessage(s, g, m).0
    case DoMarkHeld(g, m) => MarkHeld(s, g, m).0
    case DoResolveQueued(m) => ResolveQueued(s, m)
    case DoReserve(g, m, newId) => ReserveDispatch(s, g, m, newId).0
    case DoReconcile(res) => ReconcileInflight(s, res).0
    case DoScheduleRetry(res) => ScheduleRetry(s, res).0
    case DoRelease(res) => ReleaseReservation(s, res).0
    case DoRevoke(nonce, gids, reason) => RevokeBatch(s, nonce, gids, reason).0
    case DoCap(g, now, threshold) => ApplyCap(s, g, now, threshold).0
    case DoEnforceCap(g, now) => EnforceCap(cap, s, g, now)
    case DoRecheck(ev) => Recheck(s, ev).0
    case DoFence(g, m, supplied, newId, now) => Fence(cap, s, g, m, supplied, newId, now).0
    case DoRecord(_) => s
    case Crash => s
  }

  function Step(cap: Option<real>, w: World, op: Op): World {
    match w.calling
    case Some(call) =>
      (match op
       case DoRecord(outcome) => World(Record(w.store, call.msg, call.res, outcome), None)
       case Crash => World(w.store, None)
       case _ => w)  // blocked on the lock
    case None =>
      var t := Transact(cap, w.store, op);
      if HandsOff(cap, w, op) then World(t, Some(Call(op.m, HandoffId(cap, w, op)))) else World(t, None)
  }

  predicate HandsOff(cap: Option<real>, w: World, op: Op) {
    && w.calling == None && op.DoFence?
    && Fence(cap, w.store, op.g, op.m, op.supplied, op.newId, op.now).1.Handoff?
  }

  function HandoffId(cap: Option<real>, w: World, op: Op): string
    requires HandsOff(cap, w, op)
  {
    Fence(cap, w.store, op.g, op.m, op.supplied, op.newId, op.now).1.res
  }

  function Run(cap: Option<real>, w: World, ops: seq<Op>): World
    decreases |ops|
  {
    if ops == [] then w else Run(cap, Step(cap, w, ops[0]), ops[1..])
  }

  // ----- the invariant holds in every reachable state -------------------------------------

  ghost predicate InCall(s: Store, call: Call) {
    && call.res in s.reservations && s.reservations[call.res].msg == call.msg
    && s.reservations[call.res].state == Inflight
    && call.msg in s.outbox && s.outbox[call.msg].state == At(Inflight)
  }

  ghost predicate WorldInv(w: World) {
    Inv(w.store) && (w.calling.Some? ==> InCall(w.store, w.calling.value))
  }

  lemma TransactKeepsInv(cap: Option<real>, s: Store, op: Op)
    requires Inv(s)
    ensures Inv(Transact(cap, s, op))
  {
    match op
    case DoSetGrant(g, target) => SetGrantKeepsInv(s, g, target);
    case DoQueue(g, m) => DisplayRowsKeepInv(s, g, m);
    case DoMarkHeld(g, m) => DisplayRowsKeepInv(s, g, m);
    case DoResolveQueued(m) => DisplayRowsKeepInv(s, "", m);
    case DoReserve(g, m, newId) => ReserveKeepsInv(s, g, m, newId);
    case DoReconcile(res) => ReconcileKeepsInv(s, res);
    case DoScheduleRetry(res) => ReconcileKeepsInv(s, res);
    case DoRelease(res) => ReconcileKeepsInv(s, res);
    case DoRevoke(nonce, gids, reason) => RevokeKeepsInv(s, nonce, gids, reason);
    case DoCap(g, now, threshold) => ApplyCapKeepsInv(s, g, now, threshold);
    case DoEnforceCap(g, now) => EnforceCapKeepsInv(cap, s, g, now);
    case DoRecheck(ev) => RecheckKeepsInv(s, ev);
    case DoFence(g, m, supplied, newId, now) => FenceKeepsInv(cap, s, g, m, supplied, newId, now);
    case DoRecord(_) =>
    case Crash =>
  }

  lemma DisplayRowsKeepInv(s: Store, g: string, m: string)
    requires Inv(s)
    ensures Inv(QueueMessage(s, g, m).0) && Inv(MarkHeld(s, g, m).0) && Inv(ResolveQueued(s, m))
  {
    PendingRowsKeepInv(s, s.held, QueueMessage(s, g, m).0.queued);
    PendingRowsKeepInv(s, MarkHeld(s, g, m).0.held, s.queued);
    PendingRowsKeepInv(s, s.held, s.queued - {m});
  }

  lemma ApplyCapKeepsInv(s: Store, g: string, now: real, threshold: real)
    requires Inv(s)
    ensures Inv(ApplyCap(s, g, now, threshold).0)
  {
    if ApplyCap(s, g, now, threshold).0 != s {
      CappedKeepsInv(s, g);
    }
  }

  lemma FenceKeepsInv(cap: Option<real>, s: Store, g: string, m: string, supplied: Option<string>,
                      newId: string, now: real)
    requires Inv(s)
    ensures Inv(Fence(cap, s, g, m, supplied, newId, now).0)
  {
    EnforceCapKeepsInv(cap, s, g, now);
    DecideKeepsInv(EnforceCap(cap, s, g, now), g, m, supplied, newId);
  }

  lemma EnforceCapKeepsInv(cap: Option<real>, s: Store, g: string, now: real)
    requires Inv(s)
    ensures Inv(EnforceCap(cap, s, g, now))
  {
    if CapDue(cap, s, g, now) {
      CappedKeepsInv(s, g);
    }
  }

  lemma PendingRowsKeepInv(s: Store, held: map<string, Binding>, queued: map<string, Binding>)
    requires Inv(s)
    requires forall m :: m in held ==> held[m].grant in s.grants || (m in s.held && held[m] == s.held[m])
    requires forall m :: m in queued ==> queued[m].grant in s.grants || (m in s.queued && queued[m] == s.queued[m])
    ensures Inv(s.(held := held, queued := queued))
  {
    var t := s.(held := held, queued := queued);
    forall r ensures ReservationOk(t, r) {
      assert ReservationOk(s, r);
    }
    forall m ensures OutboxOk(t, m) && AgreementOk(t, m) && PendingOk(t, m) {
      assert OutboxOk(s, m) && AgreementOk(s, m) && PendingOk(s, m);
    }
  }

  lemma RecordKeepsInv(s: Store, call: Call, outcome: Outcome)
    requires Inv(s) && InCall(s, call)
    ensures Inv(Record(s, call.msg, call.res, outcome))
  {
    assert ReservationOk(s, call.res) && OutboxOk(s, call.msg) && AgreementOk(s, call.msg);
    var t := Record(s, call.msg, call.res, outcome);
    var s1 := s.(held := t.held);
    PendingRowsKeepInv(s, t.held, s.queued);
    RestageKeepsInv(s1, call.res, t.reservations[call.res], t.outbox);
  }

  lemma StepKeepsInv(cap: Option<real>, w: World, op: Op)
    requires WorldInv(w)
    ensures WorldInv(Step(cap, w, op))
  {
    match w.calling
    case Some(call) =>
      if op.DoRecord? {
        RecordKeepsInv(w.store, call, op.outcome);
      }
    case None =>
      TransactKeepsInv(cap, w.store, op);
      if HandsOff(cap, w, op) {
        EnforceCapKeepsInv(cap, w.store, op.g, op.now);
        HandoffShape(EnforceCap(cap, w.store, op.g, op.now), op.g, op.m, op.supplied, op.newId);
      }
  }

  /** The live-binding invariant holds in every reachable state, crashes included. */
  lemma {:induction false} RunKeepsInv(cap: Option<real>, w: World, ops: seq<Op>)
    requires WorldInv(w)
    ensures WorldInv(Run(cap, w, ops))
    decreases |ops|
  {
    if ops != [] {
      StepKeepsInv(cap, w, ops[0]);
      RunKeepsInv(cap, Step(cap, w, ops[0]), ops[1..]);
    }
  }

  // ----- what one step may do to a message ------------------------------------------------

  predicate HandsOffMessage(cap: Option<real>, w: World, op: Op, m: string) {
    HandsOff(cap, w, op) && op.m == m
  }

  /** The only lifecycle moves there are, and the one transaction that performs each of them. */
  ghost predicate StageMove(cap: Option<real>, w: World, op: Op, m: string) {
    var s, t := w.store, Step(cap, w, op).store;
    var before, after := StageOf(s, m), StageOf(t, m);
    if HandsOffMessage(cap, w, op, m) then
      && (before == None || before == Some(Reserved) || before == Some(Retry))
      && after == Some(Inflight) && AttemptsOf(t, m) == AttemptsOf(s, m) + 1
    else
      && AttemptsOf(t, m) == AttemptsOf(s, m)
      && (|| after == before
          || (before == None && after == Some(Reserved) && op.DoReserve?)
          || (before == Some(Inflight) && after == Some(FailedUnknown) && (op.DoReconcile? || op.DoRecord?))
          || (before == Some(Inflight) && after == Some(Sent) && op == DoRecord(Accepted))
          || (before == Some(FailedUnknown) && after == Some(Retry) && op.DoScheduleRetry?)
          || (before != None && before != Some(Sent) && after == Some(Released)))
  }

  ghost predicate LawfulStep(cap: Option<real>, w: World, op: Op) {
    && Kept(w.store, Step(cap, w, op).store)
    && forall m {:trigger StageMove(cap, w, op, m)} :: StageMove(cap, w, op, m)
  }

  lemma QuietIsLawful(cap: Option<real>, w: World, op: Op)
    requires Quiet(w.store, Step(cap, w, op).store) && !HandsOff(cap, w, op)
    ensures LawfulStep(cap, w, op)
  {
    forall m ensures StageMove(cap, w, op, m) {
      assert QuietStage(w.store, Step(cap, w, op).store, m);
    }
  }

  lemma EnforceCapQuiet(cap: Option<real>, s: Store, g: string, now: real)
    ensures Quiet(s, EnforceCap(cap, s, g, now))
  {
    if CapDue(cap, s, g, now) {
      CappedQuiet(s, g);
    } else {
      SelfQuiet(s);
    }
  }

  lemma ReserveIsLawful(cap: Option<real>, w: World, op: Op)
    requires Inv(w.store) && w.calling == None && op.DoReserve?
    ensures LawfulStep(cap, w, op)
  {
    var s, t := w.store, Step(cap, w, op).store;
    if t == s {
      SelfQuiet(s);
      QuietIsLawful(cap, w, op);
    } else {
      var s1 := Adopted(s, op.g, op.m, op.newId);
      RowsQuiet(s, s1);
      HoldsKeepInv(s, s1.holds);
      WithReservationKept(s1, op.g, op.m, op.newId);
      KeptTransitive(s, s1, t);
      forall m ensures StageMove(cap, w, op, m) {
        assert QuietStage(s, s1, m);
        assert m != op.m ==> QuietStage(s1, t, m);
      }
    }
  }

  lemma RestageIsLawful(cap: Option<real>, w: World, op: Op)
    requires Inv(w.store) && w.calling == None
    requires op.DoReconcile? || op.DoScheduleRetry? || op.DoRelease?
    ensures LawfulStep(cap, w, op)
  {
    var s, t := w.store, Step(cap, w, op).store;
    if op.res in s.reservations && t != s {
      RestageKept(s, t, op.res);
      forall m ensures StageMove(cap, w, op, m) {
        assert m != s.reservations[op.res].msg ==> QuietStage(s, t, m);
      }
    } else {
      SelfQuiet(s);
      QuietIsLawful(cap, w, op);
    }
  }

  lemma RecordIsLawful(cap: Option<real>, w: World, op: Op)
    requires WorldInv(w) && w.calling.Some? && op.DoRecord?
    ensures LawfulStep(cap, w, op)
  {
    var s, t, call := w.store, Step(cap, w, op).store, w.calling.value;
    RestageKept(s, t, call.res);
    forall m ensures StageMove(cap, w, op, m) {
      assert m != call.msg ==> QuietStage(s, t, m);
    }
  }

  lemma FenceIsLawful(cap: Option<real>, w: World, op: Op)
    requires Inv(w.store) && w.calling == None && op.DoFence?
    ensures LawfulStep(cap, w, op)
  {
    var s := w.store;
    var s1 := EnforceCap(cap, s, op.g, op.now);
    var t := Decide(s1, op.g, op.m, op.supplied, op.newId).0;
    EnforceCapQuiet(cap, s, op.g, op.now);
    EnforceCapKeepsInv(cap, s, op.g, op.now);
    if HandsOff(cap, w, op) {
      DispatchIsLawful(s1, op.g, op.m, op.supplied, op.newId);
      KeptTransitive(s, s1, t);
      forall m ensures StageMove(cap, w, op, m) {
        assert QuietStage(s, s1, m);
        assert m != op.m ==> QuietStage(s1, t, m);
        assert MessageKept(s, s1, m);
      }
    } else {
      RefusalQuiet(s1, op.g, op.m, op.supplied, op.newId);
      QuietTransitive(s, s1, t);
      QuietIsLawful(cap, w, op);
    }
  }

  lemma DispatchIsLawful(s: Store, g: string, m: string, supplied: Option<string>, newId: string)
    requires Inv(s) && Decide(s, g, m, supplied, newId).1.Handoff?
    ensures var t := Decide(s, g, m, supplied, newId).0;
      && Kept(s, t) && StageOf(t, m) == Some(Inflight) && AttemptsOf(t, m) == AttemptsOf(s, m) + 1
      && (StageOf(s, m) == None || StageOf(s, m) == Some(Reserved) || StageOf(s, m) == Some(Retry))
      && forall n :: n != m ==> QuietStage(s, t, n)
  {
    HandoffShape(s, g, m, supplied, newId);
    var base := Prepared(s, g, m, newId);
    var id := Decide(s, g, m, supplied, newId).1.res;
    if m !in s.resOf {
      WithReservationKept(s, g, m, newId);
      WithReservationKeepsInv(s, g, m, newId);
    } else {
      SelfQuiet(s);
    }
    RestageKept(base, Dispatched(base, m, id), id);
    KeptTransitive(s, base, Dispatched(base, m, id));
    forall n ensures n != m ==> QuietStage(s, Dispatched(base, m, id), n) {
      assert n != m ==> QuietStage(s, base, n) && QuietStage(base, Dispatched(base, m, id), n);
    }
  }

  lemma StepIsLawful(cap: Option<real>, w: World, op: Op)
    requires WorldInv(w)
    ensures LawfulStep(cap, w, op)
  {
    var s := w.store;
    if w.calling.Some? && op.DoRecord? {
      RecordIsLawful(cap, w, op);
    } else if w.calling.Some? || op.DoRecord? || op.Crash? {
      SelfQuiet(s);
      QuietIsLawful(cap, w, op);
    } else if op.DoReserve? {
      ReserveIsLawful(cap, w, op);
    } else if op.DoReconcile? || op.DoScheduleRetry? || op.DoRelease? {
      RestageIsLawful(cap, w, op);
    } else if op.DoFence? {
      FenceIsLawful(cap, w, op);
    } else {
      QuietTransaction(cap, s, op);
      QuietIsLawful(cap, w, op);
    }
  }

  lemma QuietTransaction(cap: Option<real>, s: Store, op: Op)
    requires op.DoSetGrant? || op.DoQueue? || op.DoMarkHeld? || op.DoResolveQueued? || op.DoRevoke?
             || op.DoCap? || op.DoEnforceCap? || op.DoRecheck?
    ensures Quiet(s, Transact(cap, s, op))
  {
    match op
    case DoSetGrant(g, target) => SetGrantQuiet(s, g, target);
    case DoQueue(g, m) => DisplayRowsQuiet(s, g, m);
    case DoMarkHeld(g, m) => DisplayRowsQuiet(s, g, m);
    case DoResolveQueued(m) => DisplayRowsQuiet(s, "", m);
    case DoRevoke(nonce, gids, reason) => RevokeQuiet(s, nonce, gids, reason);
    case DoCap(g, now, threshold) => ApplyCapQuiet(s, g, now, threshold);
    case DoEnforceCap(g, now) => EnforceCapQuiet(cap, s, g, now);
    case DoRecheck(ev) => RecheckQuiet(s, ev);
    case _ =>
  }

  lemma DisplayRowsQuiet(s: Store, g: string, m: string)
    ensures Quiet(s, QueueMessage(s, g, m).0) && Quiet(s, MarkHeld(s, g, m).0) && Quiet(s, ResolveQueued(s, m))
  {
    PendingRowsQuiet(s, QueueMessage(s, g, m).0.queued, s.held);
    PendingRowsQuiet(s, s.queued, MarkHeld(s, g, m).0.held);
    PendingRowsQuiet(s, s.queued - {m}, s.held);
  }

  lemma PendingRowsQuiet(s: Store, queued: map<string, Binding>, held: map<string, Binding>)
    ensures Quiet(s, s.(queued := queued, held := held))
  {
    RowsQuiet(s, s.(queued := queued, held := held));
  }

  lemma ApplyCapQuiet(s: Store, g: string, now: real, threshold: real)
    ensures Quiet(s, ApplyCap(s, g, now, threshold).0)
  {
    if ApplyCap(s, g, now, threshold).0 == s {
      SelfQuiet(s);
    } else {
      CappedQuiet(s, g);
    }
  }
}
