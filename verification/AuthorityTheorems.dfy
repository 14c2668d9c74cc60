/** The safety theorems of the federation authority, over every run and every single transaction. */
module AuthorityTheorems {
  import opened Wrappers
  import opened AuthorityState
  import opened AuthoritySafety
  import opened AuthorityHistory
  import opened AuthorityRuns

  // ----- nothing terminal or stale comes back ---------------------------------------------

  lemma {:induction false} RunKept(cap: Option<real>, w: World, ops: seq<Op>)
    requires WorldInv(w)
    ensures WorldInv(Run(cap, w, ops)) && Kept(w.store, Run(cap, w, ops).store)
    decreases |ops|
  {
    if ops == [] {
      SelfQuiet(w.store);
    } else {
      StepKeepsInv(cap, w, ops[0]);
      StepIsLawful(cap, w, ops[0]);
      RunKept(cap, Step(cap, w, ops[0]), ops[1..]);
      KeptTransitive(w.store, Step(cap, w, ops[0]).store, Run(cap, w, ops).store);
    }
  }

  /**
  A handoff needs the full binding, whatever state it is attempted in: an open grant verified less than the
  cap ago, no NDR, an outbox row at this grant and its generation, and the message's own reservation, made
  under an OK grant and at its generation.
  */
  lemma HandoffNeedsBinding(cap: Option<real>, w: World, op: Op)
    requires WorldInv(w) && HandsOff(cap, w, op)
    ensures var s := w.store; var g := op.g; var m := op.m;
      && g in s.grants && s.grants[g].state == OK && s.grants[g].tombstone == None && m !in s.ndrs
      && (cap.Some? ==> op.now - s.grants[g].watermark < cap.value)
      && (m in s.outbox ==> s.outbox[m].grant == g && s.outbox[m].generation == s.grants[g].generation)
      && (m in s.resOf ==>
            && s.resOf[m] in s.reservations && (op.supplied == None || op.supplied == Some(s.resOf[m]))
            && var r := s.reservations[s.resOf[m]];
               && r.grant == g && r.msg == m && r.generation == s.grants[g].generation && r.snapshot == OK
               && (r.state == Reserved || r.state == Retry))
      && (m !in s.resOf ==> op.supplied == None && op.newId !in s.reservations)
    ensures Step(cap, w, op).calling == Some(Call(op.m, if op.m in w.store.resOf then w.store.resOf[op.m] else op.newId))
  {
    HandoffExactly(cap, w.store, op.g, op.m, op.supplied, op.newId, op.now);
    assert EnforceCap(cap, w.store, op.g, op.now) == w.store;
    HandoffShape(w.store, op.g, op.m, op.supplied, op.newId);
  }

  /** Once an outbox row fell behind its grant, no run levels it, moves its grant or hands it off. */
  lemma StaleAuthorityStaysStale(cap: Option<real>, w: World, ops: seq<Op>, m: string, op: Op)
    requires WorldInv(w) && Stale(w.store, m)
    ensures var t := Run(cap, w, ops);
      && Stale(t.store, m)
      && t.store.outbox[m].grant == w.store.outbox[m].grant
      && t.store.outbox[m].generation == w.store.outbox[m].generation
      && !HandsOffMessage(cap, t, op, m)
  {
    var t := Run(cap, w, ops);
    RunKept(cap, w, ops);
    assert MessageKept(w.store, t.store, m);
    assert GrantKept(w.store, t.store, w.store.outbox[m].grant);
    if HandsOffMessage(cap, t, op, m) {
      HandoffNeedsBinding(cap, t, op);
    }
  }

  /** A recorded `sent` or `released` is final: the stage never changes and no call follows. */
  lemma TerminalStageIsFinal(cap: Option<real>, w: World, ops: seq<Op>, m: string, op: Op)
    requires WorldInv(w) && (StageOf(w.store, m) == Some(Sent) || StageOf(w.store, m) == Some(Released))
    ensures StageOf(Run(cap, w, ops).store, m) == StageOf(w.store, m)
    ensures !HandsOffMessage(cap, Run(cap, w, ops), op, m)
  {
    var t := Run(cap, w, ops);
    RunKept(cap, w, ops);
    assert MessageKept(w.store, t.store, m);
    if HandsOffMessage(cap, t, op, m) {
      HandoffNeedsBinding(cap, t, op);
    }
  }

  /** An NDR is never changed or replaced, and no transport call follows it. */
  lemma NdrIsFinal(cap: Option<real>, w: World, ops: seq<Op>, m: string, op: Op)
    requires WorldInv(w) && m in w.store.ndrs
    ensures m in Run(cap, w, ops).store.ndrs && Run(cap, w, ops).store.ndrs[m] == w.store.ndrs[m]
    ensures !HandsOffMessage(cap, Run(cap, w, ops), op, m)
  {
    var t := Run(cap, w, ops);
    RunKept(cap, w, ops);
    assert MessageKept(w.store, t.store, m);
    if HandsOffMessage(cap, t, op, m) {
      HandoffNeedsBinding(cap, t, op);
    }
  }

  /** A tombstoned grant is immutable and dispatches nothing ever again. */
  lemma RevocationIsFinal(cap: Option<real>, w: World, ops: seq<Op>, g: string, op: Op)
    requires WorldInv(w) && g in w.store.grants
    requires w.store.grants[g].state == REVOKED || w.store.grants[g].tombstone != None
    ensures g in Run(cap, w, ops).store.grants && Run(cap, w, ops).store.grants[g] == w.store.grants[g]
    ensures HandsOff(cap, Run(cap, w, ops), op) ==> op.g != g
  {
    var t := Run(cap, w, ops);
    RunKept(cap, w, ops);
    assert GrantKept(w.store, t.store, g);
    if HandsOff(cap, t, op) {
      HandoffNeedsBinding(cap, t, op);
    }
  }

  // ----- calls for one message ------------------------------------------------------------

  function Calls(cap: Option<real>, w: World, ops: seq<Op>, m: string): nat
    decreases |ops|
  {
    if ops == [] then 0
    else (if HandsOffMessage(cap, w, ops[0], m) then 1 else 0) + Calls(cap, Step(cap, w, ops[0]), ops[1..], m)
  }

  /** attempt_count counts exactly the transport calls. */
  lemma {:induction false} AttemptsCountCalls(cap: Option<real>, w: World, ops: seq<Op>, m: string)
    requires WorldInv(w)
    ensures AttemptsOf(Run(cap, w, ops).store, m) == AttemptsOf(w.store, m) + Calls(cap, w, ops, m)
    decreases |ops|
  {
    if ops != [] {
      StepKeepsInv(cap, w, ops[0]);
      StepIsLawful(cap, w, ops[0]);
      assert StageMove(cap, w, ops[0], m);
      AttemptsCountCalls(cap, Step(cap, w, ops[0]), ops[1..], m);
    }
  }

  function StageAt(cap: Option<real>, w: World, ops: seq<Op>, i: nat, m: string): Option<Lifecycle>
    requires i <= |ops|
  {
    StageOf(Run(cap, w, ops[..i]).store, m)
  }

  /** Transaction `i` of the run moved the message from stage `a` to stage `b`. */
  predicate Moved(cap: Option<real>, w: World, ops: seq<Op>, i: int, m: string, a: Lifecycle, b: Lifecycle) {
    0 <= i < |ops| && StageAt(cap, w, ops, i, m) == Some(a) && StageAt(cap, w, ops, i + 1, m) == Some(b)
  }

  lemma MovedShift(cap: Option<real>, w: World, ops: seq<Op>, i: nat, m: string, a: Lifecycle, b: Lifecycle)
    requires ops != [] && Moved(cap, Step(cap, w, ops[0]), ops[1..], i, m, a, b)
    ensures Moved(cap, w, ops, i + 1, m, a, b) && ops[1..][i] == ops[i + 1]
  {
    assert ops[..i + 1][1..] == ops[1..][..i];
    assert ops[..i + 2][1..] == ops[1..][..i + 1];
  }

  lemma MovedAtStart(cap: Option<real>, w: World, ops: seq<Op>, m: string, a: Lifecycle, b: Lifecycle)
    requires ops != [] && StageOf(w.store, m) == Some(a) && StageOf(Step(cap, w, ops[0]).store, m) == Some(b)
    ensures Moved(cap, w, ops, 0, m, a, b)
  {
    var w1 := Step(cap, w, ops[0]);
    assert ops[..1] == [ops[0]] && ops[..1][1..] == [];
    assert Run(cap, w, ops[..1]) == Run(cap, w1, []) == w1;
  }

  lemma StepStage(cap: Option<real>, w: World, op: Op, m: string)
    requires WorldInv(w)
    ensures WorldInv(Step(cap, w, op)) && StageMove(cap, w, op, m)
  {
    StepKeepsInv(cap, w, op);
    StepIsLawful(cap, w, op);
  }

  lemma StagesOfHandoff(cap: Option<real>, w: World, op: Op, m: string)
    requires WorldInv(w) && HandsOffMessage(cap, w, op, m)
    ensures StageOf(w.store, m) == None || StageOf(w.store, m) == Some(Reserved) || StageOf(w.store, m) == Some(Retry)
    ensures WorldInv(Step(cap, w, op)) && StageOf(Step(cap, w, op).store, m) == Some(Inflight)
  {
    StepStage(cap, w, op, m);
  }

  predicate Dispatchable(stage: Option<Lifecycle>) {
    stage == Some(Retry) || stage == Some(Reserved)
  }

  lemma TerminalIsNotDispatchable(cap: Option<real>, w: World, ops: seq<Op>, m: string)
    requires WorldInv(w) && Dispatchable(StageOf(Run(cap, w, ops).store, m))
    ensures StageOf(w.store, m) != Some(Sent) && StageOf(w.store, m) != Some(Released)
  {
    RunKept(cap, w, ops);
    assert MessageKept(w.store, Run(cap, w, ops).store, m);
  }

  /** From `failed-unknown`, only schedule_retry leads back to a dispatchable stage. */
  lemma {:induction false} RetryWasScheduled(cap: Option<real>, w: World, ops: seq<Op>, m: string) returns (k: nat)
    requires WorldInv(w) && StageOf(w.store, m) == Some(FailedUnknown)
    requires Dispatchable(StageOf(Run(cap, w, ops).store, m))
    ensures Moved(cap, w, ops, k, m, FailedUnknown, Retry) && ops[k].DoScheduleRetry?
    decreases |ops|
  {
    var w1 := Step(cap, w, ops[0]);
    StepStage(cap, w, ops[0], m);
    TerminalIsNotDispatchable(cap, w1, ops[1..], m);
    if StageOf(w1.store, m) == Some(Retry) {
      MovedAtStart(cap, w, ops, m, FailedUnknown, Retry);
      k := 0;
    } else {
      k := RetryWasScheduled(cap, w1, ops[1..], m);
      MovedShift(cap, w, ops, k, m, FailedUnknown, Retry);
      k := k + 1;
    }
  }

  lemma {:induction false} CallEndedUnknown(cap: Option<real>, w: World, ops: seq<Op>, m: string) returns (j: nat, k: nat)
    requires WorldInv(w) && StageOf(w.store, m) == Some(Inflight)
    requires Dispatchable(StageOf(Run(cap, w, ops).store, m))
    ensures j < k && ops != []
    ensures Moved(cap, w, ops, j, m, Inflight, FailedUnknown)
    ensures Moved(cap, w, ops, k, m, FailedUnknown, Retry) && ops[k].DoScheduleRetry?
    decreases |ops|
  {
    var w1 := Step(cap, w, ops[0]);
    StepStage(cap, w, ops[0], m);
    TerminalIsNotDispatchable(cap, w1, ops[1..], m);
    if StageOf(w1.store, m) == Some(FailedUnknown) {
      MovedAtStart(cap, w, ops, m, Inflight, FailedUnknown);
      k := RetryWasScheduled(cap, w1, ops[1..], m);
      j := 0;
    } else {
      j, k := CallEndedUnknown(cap, w1, ops[1..], m);
      MovedShift(cap, w, ops, j, m, Inflight, FailedUnknown);
      j := j + 1;
    }
    MovedShift(cap, w, ops, k, m, FailedUnknown, Retry);
    k := k + 1;
  }

  /**
  Between two transport calls of one message, the first ended with acceptance unknown and a retry
  was then explicitly scheduled.
  */
  lemma CallsAreSeparated(cap: Option<real>, w: World, first: Op, mid: seq<Op>, second: Op, m: string)
    requires WorldInv(w) && HandsOffMessage(cap, w, first, m)
    requires HandsOffMessage(cap, Run(cap, Step(cap, w, first), mid), second, m)
    ensures var w1 := Step(cap, w, first);
      exists j, k :: j < k && Moved(cap, w1, mid, j, m, Inflight, FailedUnknown)
                     && Moved(cap, w1, mid, k, m, FailedUnknown, Retry) && mid[k].DoScheduleRetry?
  {
    var w1 := Step(cap, w, first);
    StagesOfHandoff(cap, w, first, m);
    RunKept(cap, w1, mid);
    var w2 := Run(cap, w1, mid);
    StagesOfHandoff(cap, w2, second, m);
    assert MessageKept(w1.store, w2.store, m);
    var j, k := CallEndedUnknown(cap, w1, mid, m);
  }
}
