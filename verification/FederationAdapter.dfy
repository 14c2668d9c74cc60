/**
The v2 adapter as a program: one object over the authority's store whose methods write the journals
and call the transport. A send is exactly one uninterrupted run of the protocol's moves.
*/
module FederationAdapter {
  import opened Wrappers
  import opened AuthorityState
  import opened AuthoritySafety
  import opened AuthorityHistory
  import opened AuthorityRuns
  import opened AuthorityTheorems
  import opened AdapterProtocol
  import FederationAuthority

  /** What the outside decides during one send. */
  datatype Weather = Weather(gatePasses: bool, newId: string, capNow: real, now: real, outcome: Outcome)

  function SentPrelude(cap: Option<real>, a: System, m: string, p: Payload, c: string, e: Weather): System {
    var a1 := Next(cap, a, 0, Send(m, p, c));
    var a2 := Next(cap, a1, 0, Look);
    var a3 := Next(cap, a2, 0, Gate(e.gatePasses));
    Next(cap, a3, 0, Journal)
  }

  /** The journalled message goes through cap enforcement, the fence and at most one call. */
  function SentDispatch(cap: Option<real>, b: System, p: Payload, e: Weather, threshold: real): System {
    var b1 := Next(cap, b, 0, Authority(DoCap(p.grant, e.capNow, threshold)));
    var b2 := Next(cap, b1, 0, Act(e.newId, e.now));
    Next(cap, b2, 0, Finish(e.outcome))
  }

  function SentRun(cap: Option<real>, a: System, m: string, p: Payload, c: string, e: Weather, threshold: real): System {
    var b := SentPrelude(cap, a, m, p, c, e);
    if 0 in b.threads then SentDispatch(cap, b, p, e, threshold) else b
  }

  lemma SentPreludeKeepsInv(cap: Option<real>, a: System, m: string, p: Payload, c: string, e: Weather)
    requires AdapterInv(a)
    ensures AdapterInv(SentPrelude(cap, a, m, p, c, e))
  {
    var a1 := Next(cap, a, 0, Send(m, p, c));
    var a2 := Next(cap, a1, 0, Look);
    NextKeepsInv(cap, a, 0, Send(m, p, c));
    NextKeepsInv(cap, a1, 0, Look);
    NextKeepsInv(cap, a2, 0, Gate(e.gatePasses));
    NextKeepsInv(cap, Next(cap, a2, 0, Gate(e.gatePasses)), 0, Journal);
  }

  lemma SentRunKeepsInv(cap: Option<real>, a: System, m: string, p: Payload, c: string, e: Weather, threshold: real)
    requires AdapterInv(a)
    ensures AdapterInv(SentRun(cap, a, m, p, c, e, threshold))
  {
    var b := SentPrelude(cap, a, m, p, c, e);
    var b1 := Next(cap, b, 0, Authority(DoCap(p.grant, e.capNow, threshold)));
    SentPreludeKeepsInv(cap, a, m, p, c, e);
    NextKeepsInv(cap, b, 0, Authority(DoCap(p.grant, e.capNow, threshold)));
    NextKeepsInv(cap, b1, 0, Act(e.newId, e.now));
    NextKeepsInv(cap, Next(cap, b1, 0, Act(e.newId, e.now)), 0, Finish(e.outcome));
  }

  /** What the look-up, the gate and the journal transaction amount to. */
  function Readied(a: System, m: string, p: Payload, c: string, passes: bool): Option<System> {
    if Clashes(a, m, p) then None
    else if GateProven(a, m) then Some(a)
    else if passes && c == p.context then Some(a.(payloads := a.payloads[m := p], gates := a.gates + {(m, p)}))
    else None
  }

  /** What the caller is told. */
  function SentVerdict(cap: Option<real>, a: System, m: string, p: Payload, c: string, e: Weather, threshold: real): Verdict {
    if p.encV != 2 || Readied(a, m, p, c, e.gatePasses) == None then Failed
    else Fence(cap, ApplyCap(a.world.store, p.grant, e.capNow, threshold).0, p.grant, m, None, e.newId, e.now).1
  }

  // ----- the reconciler -------------------------------------------------------------------

  /** The reservation joined to a journal row: of the same message and the same grant. */
  function Joined(a: System, m: string): (res: Option<string>)
    ensures res.Some? ==> res.value in a.world.store.reservations
  {
    var s := a.world.store;
    if m in a.payloads && m in s.resOf && s.resOf[m] in s.reservations
       && s.reservations[s.resOf[m]].grant == a.payloads[m].grant
    then Some(s.resOf[m]) else None
  }

  /** The journal rows that a pass takes: no NDR, no terminal outbox row and no terminal reservation joined. */
  predicate Selected(a: System, m: string) {
    var s := a.world.store;
    && m in a.payloads && m !in s.ndrs
    && (m in s.outbox ==> s.outbox[m].state != At(Sent) && s.outbox[m].state != At(Released))
    && (Joined(a, m).Some? ==> Live(s.reservations[Joined(a, m).value].state))
  }

  datatype Row = Row(m: string, res: Option<string>)

  /** What the query returns when the table yields its rows in this order. */
  function Rows(a: System, order: seq<string>): seq<Row> {
    if order == [] then []
    else (if Selected(a, order[0]) then [Row(order[0], Joined(a, order[0]))] else []) + Rows(a, order[1..])
  }

  /** A reservation left inflight is failed-unknown, and one that is failed-unknown may be tried again. */
  function Restarted(s: Store, id: string): Store {
    var (t, stage) := ReconcileInflight(s, id);
    if stage == Some(FailedUnknown) then ScheduleRetry(t, id).0 else t
  }

  function Resumed(a: System, res: Option<string>): System {
    match res
    case None => a
    case Some(id) => a.(world := World(Restarted(a.world.store, id), None))
  }

  /** One row: its lifecycle is resumed, and it is sent again with its own grant, bytes and signed context. */
  function RowSent(cap: Option<real>, a: System, row: Row, e: Weather, threshold: real): (System, Verdict) {
    if row.m !in a.payloads || a.payloads[row.m].encV != 2 then (a, Failed)
    else
      var p, b := a.payloads[row.m], Resumed(a, row.res);
      (SentRun(cap, b, row.m, p, p.context, e, threshold), SentVerdict(cap, b, row.m, p, p.context, e, threshold))
  }

  /** The rows in turn, up to the first that raises. */
  function Reconciled(cap: Option<real>, a: System, rows: seq<Row>, es: seq<Weather>, threshold: real): (System, seq<Verdict>)
    requires |rows| <= |es|
    decreases |rows|
  {
    if rows == [] then (a, [])
    else
      var (b, verdict) := RowSent(cap, a, rows[0], es[0], threshold);
      if verdict == Failed then (b, [Failed])
      else
        var (c, verdicts) := Reconciled(cap, b, rows[1..], es[1..], threshold);
        (c, [verdict] + verdicts)
  }

  lemma LookIs(cap: Option<real>, a: System, m: string, p: Payload, o: Outer)
    requires a.threads == map[0 := Reading(m, p, o)] && a.world.calling == None
    ensures Next(cap, a, 0, Look) ==
      if Clashes(a, m, p) then a.(threads := map[])
      else a.(threads := map[0 := if GateProven(a, m) then Journalling(m, p, o) else Gating(m, p, o)])
  {
    assert map[0 := Reading(m, p, o)] - {0} == map[];
  }

  lemma GateIs(cap: Option<real>, a: System, m: string, p: Payload, o: Outer, passes: bool)
    requires a.threads == map[0 := Gating(m, p, o)] && a.world.calling == None
    ensures Next(cap, a, 0, Gate(passes)) ==
      if passes && o.context == p.context
      then a.(threads := map[0 := Journalling(m, p, o.(gated := true))], gates := a.gates + {(m, p)}) else a.(threads := map[])
  {
    assert map[0 := Gating(m, p, o)] - {0} == map[];
  }

  lemma JournalIs(cap: Option<real>, a: System, m: string, p: Payload, o: Outer)
    requires a.threads == map[0 := Journalling(m, p, o)] && a.world.calling == None && !Clashes(a, m, p)
    ensures Next(cap, a, 0, Journal) == a.(threads := map[0 := Acting(m, p, o)], payloads := a.payloads[m := p])
  {
  }

  lemma IdleMove(cap: Option<real>, a: System, move: Move)
    requires (0 !in a.threads && (move.Gate? || move.Journal? || move.Look?))
             || (0 in a.threads && a.threads[0].Journalling? && move.Gate?)
    ensures Next(cap, a, 0, move) == a
  {
  }

  /** The outer context as the wire would show it: gated unless a reservation stood in for the gate. */
  function OuterOf(a: System, m: string, c: string): Outer {
    Outer(c, !GateProven(a, m))
  }

  lemma PreludeIs(cap: Option<real>, a: System, m: string, p: Payload, c: string, e: Weather)
    requires a.threads == map[] && a.world.calling == None && p.encV == 2
    ensures SentPrelude(cap, a, m, p, c, e) ==
      match Readied(a, m, p, c, e.gatePasses)
      case None => a
      case Some(b) => b.(threads := map[0 := Acting(m, p, OuterOf(a, m, c))])
  {
    var o := Outer(c, false);
    var a1 := a.(threads := map[0 := Reading(m, p, o)]);
    assert Next(cap, a, 0, Send(m, p, c)) == a1;
    LookIs(cap, a1, m, p, o);
    if Clashes(a, m, p) {
      IdleMove(cap, a, Gate(e.gatePasses));
      IdleMove(cap, a, Journal);
    } else if GateProven(a, m) {
      var a2 := a.(threads := map[0 := Journalling(m, p, o)]);
      IdleMove(cap, a2, Gate(e.gatePasses));
      JournalIs(cap, a2, m, p, o);
      assert a.payloads[m := p] == a.payloads;
    } else {
      var a2 := a.(threads := map[0 := Gating(m, p, o)]);
      GateIs(cap, a2, m, p, o, e.gatePasses);
      if e.gatePasses && c == p.context {
        var q := o.(gated := true);
        JournalIs(cap, a.(threads := map[0 := Journalling(m, p, q)], gates := a.gates + {(m, p)}), m, p, q);
      } else {
        IdleMove(cap, a, Journal);
      }
    }
  }

  lemma FenceStepIs(cap: Option<real>, s: Store, g: string, m: string, newId: string, now: real)
    ensures var op := DoFence(g, m, None, newId, now); var w := World(s, None);
      var (t, verdict) := Fence(cap, s, g, m, None, newId, now);
      && (HandsOff(cap, w, op) <==> verdict.Handoff?)
      && Step(cap, w, op) == World(t, if verdict.Handoff? then Some(Call(m, verdict.res)) else None)
  {
  }

  lemma ActingAdvances(cap: Option<real>, b: System, m: string, p: Payload, o: Outer, newId: string, now: real, w: World)
    requires b.threads == map[0 := Acting(m, p, o)] && b.world.calling == None
    requires w == Step(cap, b.world, DoFence(p.grant, m, None, newId, now))
    ensures Next(cap, b, 0, Act(newId, now)) ==
      if HandsOff(cap, b.world, DoFence(p.grant, m, None, newId, now))
      then b.(world := w, wire := b.wire + [Wire(m, p, o)], holder := Some(0), threads := map[0 := InTransport(m, p, o)])
      else b.(world := w, threads := map[])
  {
    assert map[0 := Acting(m, p, o)] - {0} == map[];
    var handed := b.(world := w, wire := b.wire + [Wire(m, p, o)], holder := Some(0));
    assert With(handed, 0, InTransport(m, p, o)).threads == map[0 := InTransport(m, p, o)];
    assert Next(cap, b, 0, Act(newId, now)) == Advance(cap, b, 0, Act(newId, now));
  }

  lemma ActIs(cap: Option<real>, b: System, m: string, p: Payload, o: Outer, newId: string, now: real)
    requires b.threads == map[0 := Acting(m, p, o)] && b.world.calling == None
    ensures var (t, verdict) := Fence(cap, b.world.store, p.grant, m, None, newId, now);
      Next(cap, b, 0, Act(newId, now)) ==
        if verdict.Handoff?
        then b.(world := World(t, Some(Call(m, verdict.res))), wire := b.wire + [Wire(m, p, o)], holder := Some(0),
                threads := map[0 := InTransport(m, p, o)])
        else b.(world := World(t, None), threads := map[])
  {
    FenceStepIs(cap, b.world.store, p.grant, m, newId, now);
    ActingAdvances(cap, b, m, p, o, newId, now, Step(cap, b.world, DoFence(p.grant, m, None, newId, now)));
  }

  lemma FinishIs(cap: Option<real>, b: System, m: string, p: Payload, o: Outer, res: string, outcome: Outcome)
    requires b.threads == map[0 := InTransport(m, p, o)] && b.world.calling == Some(Call(m, res))
    ensures Next(cap, b, 0, Finish(outcome))
            == b.(world := World(Record(b.world.store, m, res, outcome), None), holder := None, threads := map[])
  {
    assert map[0 := InTransport(m, p, o)] - {0} == map[];
  }

  lemma CapIs(cap: Option<real>, b: System, g: string, now: real, threshold: real)
    requires b.world.calling == None
    ensures Next(cap, b, 0, Authority(DoCap(g, now, threshold)))
            == b.(world := World(ApplyCap(b.world.store, g, now, threshold).0, None))
  {
  }

  lemma DispatchIs(cap: Option<real>, b: System, m: string, p: Payload, o: Outer, e: Weather, threshold: real)
    requires b.threads == map[0 := Acting(m, p, o)] && b.world.calling == None && b.holder == None
    ensures var s := ApplyCap(b.world.store, p.grant, e.capNow, threshold).0;
      var (t, verdict) := Fence(cap, s, p.grant, m, None, e.newId, e.now);
      SentDispatch(cap, b, p, e, threshold) ==
        if verdict.Handoff?
        then b.(world := World(Record(t, m, verdict.res, e.outcome), None), threads := map[], wire := b.wire + [Wire(m, p, o)])
        else b.(world := World(t, None), threads := map[])
  {
    var s := ApplyCap(b.world.store, p.grant, e.capNow, threshold).0;
    var b1 := b.(world := World(s, None));
    CapIs(cap, b, p.grant, e.capNow, threshold);
    ActIs(cap, b1, m, p, o, e.newId, e.now);
    var (t, verdict) := Fence(cap, s, p.grant, m, None, e.newId, e.now);
    if verdict.Handoff? {
      FinishIs(cap, Next(cap, b1, 0, Act(e.newId, e.now)), m, p, o, verdict.res, e.outcome);
    } else {
      assert Next(cap, b.(world := World(t, None), threads := map[]), 0, Finish(e.outcome))
          == b.(world := World(t, None), threads := map[]);
    }
  }

  class AdapterV2 {
    const authority: FederationAuthority.Authority
    const threshold: real
    var payloads: map<string, Payload>
    var inbox: map<(string, string), Delivery>
    ghost var gates: set<(string, Payload)>
    ghost var vetted: set<((string, string), Delivery)>
    ghost var wire: seq<Wire>
    ghost var acks: seq<((string, string), Delivery)>
    ghost var foreign: set<string>

    ghost function View(): System
      reads this, authority
    {
      System(World(authority.State(), None), payloads, inbox, map[], None, gates, vetted, wire, acks, foreign)
    }

    ghost predicate Valid()
      reads this, authority
    {
      AdapterInv(View())
    }

    /** Transport journals are added to an existing authority; no grant or row is created. */
    constructor (authority: FederationAuthority.Authority, threshold: real)
      requires authority.Valid() && Bootstrap(authority.State())
      ensures Valid() && Idle(View()) && this.authority == authority && this.threshold == threshold
    {
      this.authority := authority;
      this.threshold := threshold;
      payloads, inbox := map[], map[];
      gates, vetted, wire, acks, foreign := {}, {}, [], [], {};
      new;
      IdleHasInv(View());
    }

    /** The stored row wins; equal bytes are a no-op. */
    method JournalPayload(m: string, p: Payload) returns (stored: bool)
      modifies this`payloads
      ensures stored <==> !(m in old(payloads) && old(payloads[m]) != p)
      ensures payloads == if stored then old(payloads)[m := p] else old(payloads)
    {
      if m in payloads && payloads[m] != p {
        return false;
      }
      if m !in payloads {
        payloads := payloads[m := p];
      }
      return true;
    }

    /** Look-up of a durable replay, the gate when no reservation proves it, then the journal row. */
    method Prepare(m: string, p: Payload, c: string, gatePasses: bool) returns (ready: bool, ghost o: Outer)
      modifies this`payloads, this`gates
      ensures var after := Readied(old(View()), m, p, c, gatePasses);
        ready == after.Some? && View() == if ready then after.value else old(View())
      ensures o == OuterOf(old(View()), m, c)
    {
      var replay := m in payloads;
      var gateProven := replay && m in authority.resOf;
      o := Outer(c, !gateProven);
      if replay && payloads[m] != p {
        return false, o;
      }
      if !gateProven {
        if !gatePasses || c != p.context {
          return false, o;
        }
        gates := gates + {(m, p)};
      }
      ready := JournalPayload(m, p);
    }

    /** Cap enforcement, then the action with this adapter's transport. */
    method DispatchJournalled(m: string, p: Payload, ghost o: Outer, e: Weather) returns (verdict: Verdict)
      requires authority.Valid()
      modifies this`wire, authority
      ensures var s := ApplyCap(old(authority.State()), p.grant, e.capNow, threshold).0;
        var (t, v) := Fence(authority.cap, s, p.grant, m, None, e.newId, e.now);
        && verdict == v && authority.Valid()
        && authority.State() == (if v.Handoff? then Record(t, m, v.res, e.outcome) else t)
        && wire == if v.Handoff? then old(wire) + [Wire(m, p, o)] else old(wire)
    {
      var _ := authority.ApplyPartitionCap(p.grant, e.capNow, threshold);
      verdict := authority.Action(p.grant, m, None, e.newId, e.now, e.outcome);
      if verdict.Handoff? {
        wire := wire + [Wire(m, p, o)];
      }
    }

    /** One send, from its first look-up to its last commit. Anything but a v2 envelope is refused outright. */
    method SendV2(m: string, p: Payload, c: string, e: Weather) returns (verdict: Verdict)
      requires Valid()
      modifies this, authority
      ensures Valid() && verdict == SentVerdict(authority.cap, old(View()), m, p, c, e, threshold)
      ensures View() == if p.encV == 2 then SentRun(authority.cap, old(View()), m, p, c, e, threshold) else old(View())
    {
      if p.encV != 2 {
        return Failed;
      }
      ghost var a, cap := View(), authority.cap;
      SentRunKeepsInv(cap, a, m, p, c, e, threshold);
      PreludeIs(cap, a, m, p, c, e);
      var ready, o := Prepare(m, p, c, e.gatePasses);
      if !ready {
        return Failed;
      }
      DispatchIs(cap, View().(threads := map[0 := Acting(m, p, o)]), m, p, o, e, threshold);
      verdict := DispatchJournalled(m, p, o, e);
    }

    /** A crash-surviving inflight becomes failed-unknown, and that a scheduled retry. */
    method ResumeLifecycle(res: Option<string>)
      requires Valid()
      modifies authority
      ensures Valid() && View() == Resumed(old(View()), res)
    {
      if res.Some? {
        ResumedKeepsInv(authority.cap, View(), res.value);
        var stage := authority.ReconcileInflight(res.value);
        if stage == Some(FailedUnknown) {
          var _ := authority.ScheduleRetry(res.value);
        }
      }
    }

    method ReconcileRow(row: Row, e: Weather) returns (verdict: Verdict)
      requires Valid() && row.m in payloads
      modifies this, authority
      ensures Valid() && payloads == old(payloads) && Grows(old(View()), View())
      ensures (View(), verdict) == RowSent(authority.cap, old(View()), row, e, threshold)
    {
      if payloads[row.m].encV != 2 {
        return Failed;
      }
      ReconcileGrows(authority.cap, View(), row, e, threshold);
      ResumeLifecycle(row.res);
      verdict := SendV2(row.m, payloads[row.m], payloads[row.m].context, e);
    }

    /** Whether the query yields this journal row, and with which reservation. */
    method SelectRow(m: string) returns (row: Option<Row>)
      requires Valid()
      ensures row == if Selected(View(), m) then Some(Row(m, Joined(View(), m))) else None
    {
      if m !in payloads || m in authority.ndrs
         || (m in authority.outbox && (authority.outbox[m].state == At(Sent) || authority.outbox[m].state == At(Released))) {
        return None;
      }
      if m !in authority.resOf || authority.resOf[m] !in authority.reservations
         || authority.reservations[authority.resOf[m]].grant != payloads[m].grant {
        return Some(Row(m, None));
      }
      var res := authority.resOf[m];
      return if Live(authority.reservations[res].state) then Some(Row(m, Some(res))) else None;
    }

    /** Every selected journal row with its reservation, read at one moment. */
    method SelectRows(order: seq<string>) returns (rows: seq<Row>)
      requires Valid()
      ensures rows == Rows(View(), order)
    {
      rows := [];
      ghost var a := View();
      assert order[0..] == order;
      for i := 0 to |order|
        invariant rows + Rows(a, order[i..]) == Rows(a, order)
      {
        RowsStep(a, order[i..]);
        assert order[i..][1..] == order[i + 1..];
        ghost var later := Rows(a, order[i + 1..]);
        var row := SelectRow(order[i]);
        if row.Some? {
          assert rows + ([row.value] + later) == (rows + [row.value]) + later;
          rows := rows + [row.value];
        } else {
          assert [] + later == later;
        }
      }
    }

    /** A pass over the journal, which the first row that raises ends. */
    method Reconcile(order: seq<string>, es: seq<Weather>) returns (verdicts: seq<Verdict>)
      requires Valid() && |Rows(View(), order)| <= |es|
      modifies this, authority
      ensures Valid() && payloads == old(payloads) && Grows(old(View()), View())
      ensures (View(), verdicts) == Reconciled(authority.cap, old(View()), Rows(old(View()), order), es, threshold)
    {
      ghost var a := View();
      var rows := SelectRows(order);
      ghost var whole := Reconciled(authority.cap, a, rows, es, threshold);
      assert rows[0..] == rows && es[0..] == es;
      verdicts := [];
      RemainingEnds(authority.cap, a, rows, es, threshold, whole);
      for i := 0 to |rows|
        invariant Valid() && payloads == a.payloads && Grows(a, View())
        invariant Remaining(authority.cap, View(), rows[i..], es[i..], threshold, verdicts, whole)
      {
        RowIsJournalled(a, order, i);
        RemainingStep(authority.cap, View(), rows[i..], es[i..], threshold, verdicts, whole);
        assert rows[i..][1..] == rows[i + 1..] && es[i..][1..] == es[i + 1..];
        var verdict := ReconcileRow(rows[i], es[i]);
        verdicts := verdicts + [verdict];
        if verdict == Failed {
          return;
        }
      }
      assert verdicts + [] == verdicts;
    }
  }

  /** The pass that has come to `b` with these verdicts ends as the whole one does. */
  ghost predicate Remaining(cap: Option<real>, b: System, rows: seq<Row>, es: seq<Weather>, threshold: real,
                            done: seq<Verdict>, whole: (System, seq<Verdict>))
  {
    && |rows| <= |es|
    && var (c, rest) := Reconciled(cap, b, rows, es, threshold);
      whole == (c, done + rest)
  }

  lemma RemainingEnds(cap: Option<real>, a: System, rows: seq<Row>, es: seq<Weather>, threshold: real,
                      whole: (System, seq<Verdict>))
    requires |rows| <= |es| && whole == Reconciled(cap, a, rows, es, threshold)
    ensures Remaining(cap, a, rows, es, threshold, [], whole)
  {
    assert [] + whole.1 == whole.1;
  }

  lemma RemainingStep(cap: Option<real>, b: System, rows: seq<Row>, es: seq<Weather>, threshold: real,
                      done: seq<Verdict>, whole: (System, seq<Verdict>))
    requires rows != [] && Remaining(cap, b, rows, es, threshold, done, whole)
    ensures var (c, verdict) := RowSent(cap, b, rows[0], es[0], threshold);
      if verdict == Failed then whole == (c, done + [verdict])
      else Remaining(cap, c, rows[1..], es[1..], threshold, done + [verdict], whole)
  {
    var (c, verdict) := RowSent(cap, b, rows[0], es[0], threshold);
    if verdict != Failed {
      var rest := Reconciled(cap, c, rows[1..], es[1..], threshold).1;
      assert done + ([verdict] + rest) == done + [verdict] + rest;
    }
  }

  lemma RowsStep(a: System, order: seq<string>)
    requires order != []
    ensures Rows(a, order)
            == (if Selected(a, order[0]) then [Row(order[0], Joined(a, order[0]))] else []) + Rows(a, order[1..])
  {
  }

  lemma ResumedKeepsInv(cap: Option<real>, a: System, id: string)
    requires AdapterInv(a) && a.world.calling == None
    ensures AdapterInv(Resumed(a, Some(id)))
  {
    var b := a.(world := Step(cap, a.world, DoReconcile(id)));
    BesideKeepsInv(cap, a, DoReconcile(id));
    BesideAddsNone(cap, a, DoReconcile(id));
    BesideKeepsInv(cap, b, DoScheduleRetry(id));
    BesideAddsNone(cap, b, DoScheduleRetry(id));
  }

  /** The query yields a row for exactly the selected journal rows. */
  lemma {:induction false} RowsAreSelected(a: System, order: seq<string>, row: Row)
    ensures row in Rows(a, order) <==> row.m in order && Selected(a, row.m) && row.res == Joined(a, row.m)
  {
    if order != [] {
      RowsAreSelected(a, order[1..], row);
      var later := Rows(a, order[1..]);
      assert row in Rows(a, order)
        <==> (row.m == order[0] && Selected(a, row.m) && row.res == Joined(a, row.m)) || row in later;
    }
  }

  lemma RowIsJournalled(a: System, order: seq<string>, i: nat)
    requires i < |Rows(a, order)|
    ensures Rows(a, order)[i].m in a.payloads
  {
    RowsAreSelected(a, order, Rows(a, order)[i]);
  }

  // ----- what one send does ---------------------------------------------------------------

  lemma SentGrows(cap: Option<real>, a: System, m: string, p: Payload, c: string, e: Weather, threshold: real)
    requires a.threads == map[] && a.world.calling == None && a.holder == None && p.encV == 2
    ensures Grows(a, SentRun(cap, a, m, p, c, e, threshold))
    ensures SentRun(cap, a, m, p, c, e, threshold).payloads
            == if Readied(a, m, p, c, e.gatePasses).Some? then a.payloads[m := p] else a.payloads
  {
    PreludeIs(cap, a, m, p, c, e);
    if Readied(a, m, p, c, e.gatePasses).Some? {
      DispatchIs(cap, Readied(a, m, p, c, e.gatePasses).value.(threads := map[0 := Acting(m, p, OuterOf(a, m, c))]),
                 m, p, OuterOf(a, m, c), e, threshold);
    }
  }

  lemma SentSettles(cap: Option<real>, a: System, m: string, p: Payload, c: string, e: Weather, threshold: real)
    requires a.threads == map[] && a.world.calling == None && a.holder == None && p.encV == 2
    ensures var b := SentRun(cap, a, m, p, c, e, threshold);
      b.threads == map[] && b.world.calling == None && b.holder == None
  {
    PreludeIs(cap, a, m, p, c, e);
    if Readied(a, m, p, c, e.gatePasses).Some? {
      DispatchIs(cap, Readied(a, m, p, c, e.gatePasses).value.(threads := map[0 := Acting(m, p, OuterOf(a, m, c))]),
                 m, p, OuterOf(a, m, c), e, threshold);
    }
  }

  lemma ReconcileGrows(cap: Option<real>, a: System, row: Row, e: Weather, threshold: real)
    requires a.threads == map[] && a.world.calling == None && a.holder == None
    ensures var b := RowSent(cap, a, row, e, threshold).0; Grows(a, b) && b.payloads == a.payloads
  {
    if row.m in a.payloads && a.payloads[row.m].encV == 2 {
      var r, p := Resumed(a, row.res), a.payloads[row.m];
      assert r == a.(world := r.world) && r.world.calling == None;
      SentGrows(cap, r, row.m, p, p.context, e, threshold);
      assert a.payloads[row.m := p] == a.payloads;
    }
  }

  /**
  A send calls the transport at most once, with its own bytes and the caller's outer context; that context
  passed the gate if and only if no reservation stood beside the journal row, and then it is the signed one.
  */
  lemma OuterContextExactly(cap: Option<real>, a: System, m: string, p: Payload, c: string, e: Weather, threshold: real)
    requires a.threads == map[] && a.world.calling == None && a.holder == None && p.encV == 2
    ensures var b := SentRun(cap, a, m, p, c, e, threshold);
      && (b.wire == a.wire || b.wire == a.wire + [Wire(m, p, Outer(c, !GateProven(a, m)))])
      && (b.wire != a.wire && !GateProven(a, m) ==> c == p.context)
      && (b.wire != a.wire <==> SentVerdict(cap, a, m, p, c, e, threshold).Handoff?)
  {
    PreludeIs(cap, a, m, p, c, e);
    if Readied(a, m, p, c, e.gatePasses).Some? {
      DispatchIs(cap, Readied(a, m, p, c, e.gatePasses).value.(threads := map[0 := Acting(m, p, OuterOf(a, m, c))]),
                 m, p, OuterOf(a, m, c), e, threshold);
    }
  }

  /**
  A send reaches the transport if and only if it is v2, no other bytes are journalled under its id, the gate passes
  on the signed context or a reservation stands beside the journal row, and the fence hands it off after the cap.
  */
  lemma SendDispatchesExactly(cap: Option<real>, a: System, m: string, p: Payload, c: string, e: Weather, threshold: real)
    requires Inv(a.world.store)
    ensures var s := ApplyCap(a.world.store, p.grant, e.capNow, threshold).0;
      SentVerdict(cap, a, m, p, c, e, threshold).Handoff? <==>
        && p.encV == 2 && (m in a.payloads ==> a.payloads[m] == p)
        && ((m in a.payloads && m in a.world.store.resOf) || (e.gatePasses && c == p.context))
        && MayHandOff(s, p.grant, m, None, e.newId) && WithinCap(cap, s, p.grant, e.now)
  {
    var s := ApplyCap(a.world.store, p.grant, e.capNow, threshold).0;
    ApplyCapKeepsInv(a.world.store, p.grant, e.capNow, threshold);
    HandoffExactly(cap, s, p.grant, m, None, e.newId, e.now);
  }

  /** A retry beside a reservation takes whatever topic and reply id the caller gives to the wire. */
  lemma RetryTakesAnyContext(cap: Option<real>, a: System, m: string, p: Payload, c: string, e: Weather, threshold: real)
    requires AdapterInv(a) && a.threads == map[] && a.world.calling == None && a.holder == None
    requires m in a.payloads && a.payloads[m] == p && p.encV == 2 && c != p.context
    requires m in a.world.store.resOf && threshold > 0.0
    requires var s := ApplyCap(a.world.store, p.grant, e.capNow, threshold).0;
      MayHandOff(s, p.grant, m, None, e.newId) && WithinCap(cap, s, p.grant, e.now)
    ensures SentRun(cap, a, m, p, c, e, threshold).wire == a.wire + [Wire(m, p, Outer(c, false))]
  {
    var s := ApplyCap(a.world.store, p.grant, e.capNow, threshold).0;
    ApplyCapKeepsInv(a.world.store, p.grant, e.capNow, threshold);
    HandoffExactly(cap, s, p.grant, m, None, e.newId, e.now);
    OuterContextExactly(cap, a, m, p, c, e, threshold);
  }

  // ----- what a pass does -----------------------------------------------------------------

  /** The two stores differ in the lifecycle of reservations and outbox rows alone, as far as `m` can tell. */
  ghost predicate SameButStage(s: Store, t: Store, m: string) {
    && t.resOf == s.resOf && t.ndrs == s.ndrs && t.grants == s.grants && t.reservations.Keys == s.reservations.Keys
    && (m in t.outbox <==> m in s.outbox)
    && (m in s.outbox ==> t.outbox[m].grant == s.outbox[m].grant && t.outbox[m].generation == s.outbox[m].generation)
    && (m in s.resOf && s.resOf[m] in s.reservations ==> t.reservations[s.resOf[m]].grant == s.reservations[s.resOf[m]].grant)
  }

  lemma StageIsSame(s: Store, id: string, stage: Lifecycle, outbox: map<string, Outbox>, m: string)
    requires id in s.reservations
    requires (m in outbox <==> m in s.outbox)
             && (m in outbox ==> outbox[m].grant == s.outbox[m].grant && outbox[m].generation == s.outbox[m].generation)
    ensures SameButStage(s, s.(reservations := s.reservations[id := s.reservations[id].(state := stage)], outbox := outbox), m)
  {
  }

  lemma RestagingIsSame(s: Store, id: string, m: string)
    ensures SameButStage(s, ReconcileInflight(s, id).0, m) && SameButStage(s, ScheduleRetry(s, id).0, m)
  {
    if id in s.reservations {
      var n := s.reservations[id].msg;
      StageIsSame(s, id, FailedUnknown, Restaged(s.outbox, n, Inflight, FailedUnknown), m);
      StageIsSame(s, id, Retry, Restaged(s.outbox, n, FailedUnknown, Retry), m);
    }
  }

  /** A live reservation comes to a stage that the fence dispatches, and no other does. */
  lemma RestartedStage(s: Store, id: string)
    requires id in s.reservations
    ensures id in Restarted(s, id).reservations
    ensures var stage := Restarted(s, id).reservations[id].state;
      (stage == Reserved || stage == Retry <==> Live(s.reservations[id].state))
  {
    var t := ReconcileInflight(s, id).0;
    assert t.reservations[id].state == if s.reservations[id].state == Inflight then FailedUnknown else s.reservations[id].state;
  }

  lemma RestartedIs(s: Store, id: string, m: string)
    requires Inv(s)
    ensures Inv(Restarted(s, id)) && SameButStage(s, Restarted(s, id), m)
  {
    var t := ReconcileInflight(s, id).0;
    ReconcileKeepsInv(s, id);
    ReconcileKeepsInv(t, id);
    RestagingIsSame(s, id, m);
    RestagingIsSame(t, id, m);
  }

  /** The fence as one row meets it, in terms of the tables before it was resumed. */
  lemma ResumedMayHandOff(a: System, m: string, newId: string)
    requires Inv(a.world.store) && m in a.payloads
    ensures var g, s, t := a.payloads[m].grant, a.world.store, Resumed(a, Joined(a, m)).world.store;
      Inv(t) && t.grants == s.grants && t.resOf == s.resOf
      && (MayHandOff(t, g, m, None, newId) <==>
            && Selected(a, m) && Open(s, g)
            && (m in s.outbox ==> s.outbox[m].grant == g && s.outbox[m].generation == s.grants[g].generation)
            && if m in s.resOf then Joined(a, m).Some? else newId !in s.reservations)
  {
    var s := a.world.store;
    assert AgreementOk(s, m) && OutboxOk(s, m);
    if Joined(a, m).Some? {
      RestartedIs(s, s.resOf[m], m);
      RestartedStage(s, s.resOf[m]);
    }
  }

  /** Settled for ever: an NDR, or a reservation that is sent or released. */
  predicate Closed(s: Store, m: string) {
    m in s.ndrs || StageOf(s, m) == Some(Sent) || StageOf(s, m) == Some(Released)
  }

  lemma UnselectedIsClosed(a: System, m: string)
    requires AdapterInv(a) && m in a.payloads && !Selected(a, m)
    ensures Closed(a.world.store, m)
  {
    var s := a.world.store;
    assert OutboxOk(s, m) && AgreementOk(s, m);
  }

  lemma ClosedStays(cap: Option<real>, w: World, op: Op, m: string)
    requires WorldInv(w) && Closed(w.store, m)
    ensures Closed(Step(cap, w, op).store, m) && !HandsOffMessage(cap, w, op, m)
  {
    assert Run(cap, w, [op]) == Run(cap, Step(cap, w, op), [op][1..]);
    assert Run(cap, w, []) == w;
    if m in w.store.ndrs {
      NdrIsFinal(cap, w, [op], m, op);
      NdrIsFinal(cap, w, [], m, op);
    } else {
      TerminalStageIsFinal(cap, w, [op], m, op);
      TerminalStageIsFinal(cap, w, [], m, op);
    }
  }

  /** No call between the two states carried `m`. */
  ghost predicate SentOthers(a: System, b: System, m: string) {
    && |a.wire| <= |b.wire|
    && forall i :: |a.wire| <= i < |b.wire| ==> b.wire[i].m != m
  }

  lemma ActIsNotSent(cap: Option<real>, a: System, t: nat, newId: string, now: real, m: string)
    requires AdapterInv(a) && Closed(a.world.store, m) && t in a.threads && a.threads[t].Acting?
    ensures var b := Advance(cap, a, t, Act(newId, now));
      Closed(b.world.store, m) && SentOthers(a, b, m)
  {
    var op := DoFence(a.threads[t].p.grant, a.threads[t].m, None, newId, now);
    ClosedStays(cap, a.world, op, m);
    assert Advance(cap, a, t, Act(newId, now)).world == Step(cap, a.world, op);
  }

  lemma QuietAdvance(cap: Option<real>, a: System, t: nat, move: Move)
    requires t in a.threads && !a.threads[t].InTransport?
    requires move.Act? ==> !a.threads[t].Acting? && !a.threads[t].Accepting?
    ensures Advance(cap, a, t, move).world == a.world && Advance(cap, a, t, move).wire == a.wire
  {
  }

  lemma AdvanceIsNotSent(cap: Option<real>, a: System, t: nat, move: Move, m: string)
    requires AdapterInv(a) && Closed(a.world.store, m) && t in a.threads
    ensures Closed(Advance(cap, a, t, move).world.store, m) && SentOthers(a, Advance(cap, a, t, move), m)
  {
    if a.threads[t].Acting? && move.Act? {
      ActIsNotSent(cap, a, t, move.newId, move.now, m);
    } else if a.threads[t].Accepting? && move.Act? {
      ClosedStays(cap, a.world, DoEnforceCap(a.threads[t].d.grant, move.now), m);
    } else if a.threads[t].InTransport? {
      ClosedStays(cap, a.world, if move.Finish? then DoRecord(move.outcome) else Crash, m);
    } else {
      QuietAdvance(cap, a, t, move);
    }
  }

  lemma ClosedIsNotSent(cap: Option<real>, a: System, t: nat, move: Move, m: string)
    requires AdapterInv(a) && Closed(a.world.store, m)
    ensures Closed(Next(cap, a, t, move).world.store, m) && SentOthers(a, Next(cap, a, t, move), m)
  {
    if move.Authority? {
      ClosedStays(cap, a.world, move.op, m);
    } else if Next(cap, a, t, move) != a && t in a.threads {
      AdvanceIsNotSent(cap, a, t, move, m);
    }
  }

  lemma {:induction false} ClosedNeverSent(cap: Option<real>, a: System, run: seq<(nat, Move)>, m: string)
    requires AdapterInv(a) && Closed(a.world.store, m)
    ensures SentOthers(a, Moves(cap, a, run), m) && a.wire <= Moves(cap, a, run).wire
    decreases |run|
  {
    if run != [] {
      var b := Next(cap, a, run[0].0, run[0].1);
      NextKeepsInv(cap, a, run[0].0, run[0].1);
      NextGrows(cap, a, run[0].0, run[0].1);
      ClosedIsNotSent(cap, a, run[0].0, run[0].1, m);
      ClosedNeverSent(cap, b, run[1..], m);
      WireChain(a, b, Moves(cap, b, run[1..]), m);
    }
  }

  lemma WireChain(a: System, b: System, c: System, m: string)
    requires a.wire <= b.wire <= c.wire && SentOthers(a, b, m) && SentOthers(b, c, m)
    ensures a.wire <= c.wire && SentOthers(a, c, m)
  {
  }

  /** The query passes over nothing that could still be sent: no later call of any adapter carries such a row. */
  lemma PassedOverIsFinal(cap: Option<real>, a: System, run: seq<(nat, Move)>, m: string, i: int)
    requires AdapterInv(a) && m in a.payloads && !Selected(a, m)
    requires |a.wire| <= i < |Moves(cap, a, run).wire|
    ensures Moves(cap, a, run).wire[i].m != m
  {
    UnselectedIsClosed(a, m);
    ClosedNeverSent(cap, a, run, m);
  }

  lemma CapCloses(s: Store, g: string, now: real, threshold: real)
    ensures ApplyCap(s, g, now, threshold).0 == s || !Open(ApplyCap(s, g, now, threshold).0, g)
  {
    if ApplyCap(s, g, now, threshold).0 != s {
      CappedIsClosed(s, g);
    }
  }

  lemma SentVerdictIs(cap: Option<real>, b: System, m: string, p: Payload, e: Weather, threshold: real)
    requires m in b.payloads && b.payloads[m] == p && p.encV == 2
    ensures var t := ApplyCap(b.world.store, p.grant, e.capNow, threshold).0;
      SentVerdict(cap, b, m, p, p.context, e, threshold).Handoff?
      <==> (e.gatePasses || m in b.world.store.resOf) && Fence(cap, t, p.grant, m, None, e.newId, e.now).1.Handoff?
  {
  }

  /**
  Exactly when a resumed row is sent: the query selects it, it passes the gate or has a reservation, and
  its grant is open within its cap, at the generation of its outbox row and the same as its reservation's.
  */
  lemma ReconcileDispatchesExactly(cap: Option<real>, a: System, m: string, e: Weather, threshold: real)
    requires AdapterInv(a) && a.world.calling == None && m in a.payloads && a.payloads[m].encV == 2
    ensures var p, s := a.payloads[m], a.world.store;
      var b := Resumed(a, Joined(a, m));
      var t := ApplyCap(b.world.store, p.grant, e.capNow, threshold).0;
      RowSent(cap, a, Row(m, Joined(a, m)), e, threshold).1.Handoff? <==>
        && Selected(a, m)
        && Open(t, p.grant) && WithinCap(cap, t, p.grant, e.now)
        && (m in s.outbox ==> s.outbox[m].grant == p.grant && s.outbox[m].generation == GenerationOf(s, p.grant))
        && if m in s.resOf then Joined(a, m).Some? else e.gatePasses && e.newId !in s.reservations
  {
    var p, s := a.payloads[m], a.world.store;
    var b := Resumed(a, Joined(a, m));
    var t := ApplyCap(b.world.store, p.grant, e.capNow, threshold).0;
    ResumedMayHandOff(a, m, e.newId);
    ApplyCapKeepsInv(b.world.store, p.grant, e.capNow, threshold);
    CapCloses(b.world.store, p.grant, e.capNow, threshold);
    HandoffExactly(cap, t, p.grant, m, None, e.newId, e.now);
    SentVerdictIs(cap, b, m, p, e, threshold);
  }

  lemma RowSentIs(cap: Option<real>, a: System, row: Row, e: Weather, threshold: real)
    requires a.threads == map[] && a.world.calling == None && a.holder == None
    ensures var b := RowSent(cap, a, row, e, threshold).0;
      && Grows(a, b) && b.payloads == a.payloads && b.threads == map[] && b.world.calling == None && b.holder == None
      && (b.wire == a.wire
          || (row.m in a.payloads && exists gated :: b.wire == a.wire + [Wire(row.m, a.payloads[row.m], Outer(a.payloads[row.m].context, gated))]))
  {
    ReconcileGrows(cap, a, row, e, threshold);
    if row.m in a.payloads && a.payloads[row.m].encV == 2 {
      var r, p := Resumed(a, row.res), a.payloads[row.m];
      OuterContextExactly(cap, r, row.m, p, p.context, e, threshold);
      SentSettles(cap, r, row.m, p, p.context, e, threshold);
    }
  }

  lemma {:induction false} PassGrows(cap: Option<real>, a: System, rows: seq<Row>, es: seq<Weather>, threshold: real)
    requires a.threads == map[] && a.world.calling == None && a.holder == None && |rows| <= |es|
    ensures Grows(a, Reconciled(cap, a, rows, es, threshold).0)
    decreases |rows|
  {
    if rows != [] {
      RowSentIs(cap, a, rows[0], es[0], threshold);
      var (b, verdict) := RowSent(cap, a, rows[0], es[0], threshold);
      if verdict != Failed {
        PassGrows(cap, b, rows[1..], es[1..], threshold);
      }
    }
  }

  /** Every call of a pass carries a selected row's journalled bytes and the context they sign. */
  lemma {:induction false} ReconcileSendsSignedContext(cap: Option<real>, a: System, rows: seq<Row>, es: seq<Weather>,
                                                       threshold: real, i: int)
    requires a.threads == map[] && a.world.calling == None && a.holder == None && |rows| <= |es|
    requires var b := Reconciled(cap, a, rows, es, threshold).0; |a.wire| <= i < |b.wire|
    ensures var b := Reconciled(cap, a, rows, es, threshold).0;
      && (exists k :: 0 <= k < |rows| && rows[k].m == b.wire[i].m)
      && b.wire[i].m in a.payloads && b.wire[i].p == a.payloads[b.wire[i].m] && b.wire[i].o.context == b.wire[i].p.context
    decreases |rows|
  {
    var row, e := rows[0], es[0];
    var (b, verdict) := RowSent(cap, a, row, e, threshold);
    RowSentIs(cap, a, row, e, threshold);
    if verdict != Failed && i >= |b.wire| {
      ReconcileSendsSignedContext(cap, b, rows[1..], es[1..], threshold, i);
    } else if verdict != Failed {
      PassGrows(cap, b, rows[1..], es[1..], threshold);
    }
  }
}
