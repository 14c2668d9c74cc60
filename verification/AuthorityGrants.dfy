/**
The life of a grant and of a pending message, told row by row without the transactions' own functions:
which step moves a grant and to what, how long an authority lasts, and where a message can go.
*/
module AuthorityGrants {
  import opened Wrappers
  import opened AuthorityState
  import opened AuthoritySafety
  import opened AuthorityHistory
  import opened AuthorityRuns
  import opened AuthorityTheorems
  import opened AuthorityConservation
  import opened AuthorityLineage

  // ----- one grant, one step --------------------------------------------------------------

  /** The time from the last verification to the sample reaches the limit, on a grant that can still be capped. */
  predicate Elapsed(row: Grant, limit: Option<real>, now: real) {
    && (row.state == OK || row.state == SUSPECT) && row.tombstone == None
    && limit.Some? && now - row.watermark >= limit.value
  }

  /** A batch that names each grant once, none of them revoked, under a nonce never seen. */
  predicate BatchHolds(s: Store, nonce: string, gids: seq<string>) {
    && gids != [] && nonce !in s.nonces
    && (forall i, j :: 0 <= i < j < |gids| ==> gids[i] != gids[j])
    && (forall g :: g in gids ==> g in s.grants && s.grants[g].state != REVOKED && s.grants[g].tombstone == None)
  }

  /** Authentic evidence, used for the first time, about exactly this row and newer than its watermark. */
  predicate EvidenceHolds(s: Store, ev: Evidence) {
    && ev.authentic && ev.id !in s.evidence && ev.grant in s.grants
    && (ev.prior == CAPPED || ev.prior == SUSPECT) && s.grants[ev.grant].state == ev.prior
    && s.grants[ev.grant].tombstone == None
    && ev.expected >= 1 && s.grants[ev.grant].generation == ev.expected
    && ev.verifiedAt > s.grants[ev.grant].watermark
  }

  /** The row of grant `g` after one transaction. */
  function NextGrant(cap: Option<real>, s: Store, op: Op, g: string): Grant
    requires g in s.grants
  {
    var row := s.grants[g];
    var gen := row.generation + 1;
    match op
    case DoSetGrant(h, target) =>
      if h == g && target == SUSPECT && row.state == OK && row.tombstone == None
      then Grant(gen, SUSPECT, None, row.watermark) else row
    case DoCap(h, now, threshold) =>
      if h == g && threshold > 0.0 && Elapsed(row, Some(threshold), now)
      then Grant(gen, CAPPED, None, row.watermark) else row
    case DoEnforceCap(h, now) =>
      if h == g && Elapsed(row, cap, now) then Grant(gen, CAPPED, None, row.watermark) else row
    case DoFence(h, _, _, _, now) =>
      if h == g && Elapsed(row, cap, now) then Grant(gen, CAPPED, None, row.watermark) else row
    case DoRevoke(nonce, gids, reason) =>
      if BatchHolds(s, nonce, gids) && g in gids then Grant(gen, REVOKED, Some(reason), row.watermark) else row
    case DoRecheck(ev) =>
      if ev.grant == g && EvidenceHolds(s, ev) then Grant(gen, OK, None, ev.verifiedAt) else row
    case _ => row
  }

  lemma CappedGrants(s: Store, g: string)
    requires g in s.grants
    ensures Capped(s, g).grants == s.grants[g := s.grants[g].(generation := s.grants[g].generation + 1, state := CAPPED)]
  {
  }

  /** The cap closes a grant whose time is over, one generation up, and changes nothing before that. */
  lemma CapClosesExactly(cap: Option<real>, s: Store, g: string, now: real)
    ensures var t := EnforceCap(cap, s, g, now);
      if g in s.grants && Elapsed(s.grants[g], cap, now)
      then t.grants == s.grants[g := Grant(s.grants[g].generation + 1, CAPPED, None, s.grants[g].watermark)]
      else t == s
  {
    if g in s.grants {
      CappedGrants(s, g);
    }
  }

  /** A fence at or past the cap closes the grant and hands nothing off. */
  lemma FenceCloses(cap: Option<real>, s: Store, g: string, m: string, supplied: Option<string>, newId: string, now: real)
    requires Inv(s)
    ensures var (t, verdict) := Fence(cap, s, g, m, supplied, newId, now);
      if g in s.grants && Elapsed(s.grants[g], cap, now)
      then !verdict.Handoff? && t.grants == s.grants[g := Grant(s.grants[g].generation + 1, CAPPED, None, s.grants[g].watermark)]
      else t.grants == s.grants
  {
    CapClosesExactly(cap, s, g, now);
    EnforceCapKeepsInv(cap, s, g, now);
    DecideKeepsRows(EnforceCap(cap, s, g, now), g, m, supplied, newId);
    HandoffExactly(cap, s, g, m, supplied, newId, now);
  }

  // ----- revocation -----------------------------------------------------------------------

  /** A batch commits if and only if it holds, and then revokes each of its grants and no other. */
  lemma RevocationExactly(s: Store, nonce: string, gids: seq<string>, reason: string)
    ensures var (t, reply) := RevokeBatch(s, nonce, gids, reason);
      && (reply.RevokeDone? <==> BatchHolds(s, nonce, gids))
      && (!reply.RevokeDone? ==> t == s)
      && t.grants.Keys == s.grants.Keys
      && (forall g :: g in s.grants && !(reply.RevokeDone? && g in gids) ==> t.grants[g] == s.grants[g])
      && (forall g :: g in s.grants && reply.RevokeDone? && g in gids ==>
            t.grants[g] == Grant(s.grants[g].generation + 1, REVOKED, Some(reason), s.grants[g].watermark))
  {
    if RevokeBatch(s, nonce, gids, reason).1.RevokeDone? {
      RevokeConserves(s, nonce, gids, reason);
    }
    assert Revocable(s, gids) <==>
      forall g :: g in gids ==> g in s.grants && s.grants[g].state != REVOKED && s.grants[g].tombstone == None by {
      if Revocable(s, gids) {
        forall g | g in gids ensures g in s.grants && s.grants[g].state != REVOKED && s.grants[g].tombstone == None {
          var i :| 0 <= i < |gids| && gids[i] == g;
        }
      }
    }
  }

  // ----- every transaction ----------------------------------------------------------------

  /** Grants are never added or removed, and each moves as its row and the request say. */
  ghost predicate GrantsFollow(cap: Option<real>, s: Store, op: Op, t: Store) {
    t.grants.Keys == s.grants.Keys && forall g :: g in s.grants ==> t.grants[g] == NextGrant(cap, s, op, g)
  }

  lemma EdgeGrants(s: Store, g: string, row: Grant)
    requires g in s.grants
    ensures Edge(s, g, row).grants == s.grants[g := row]
  {
  }

  lemma CapMovesGrants(cap: Option<real>, s: Store, op: Op)
    requires Inv(s) && (op.DoEnforceCap? || op.DoFence?)
    ensures GrantsFollow(cap, s, op, Transact(cap, s, op))
  {
    if op.DoFence? {
      FenceCloses(cap, s, op.g, op.m, op.supplied, op.newId, op.now);
    } else {
      CapClosesExactly(cap, s, op.g, op.now);
    }
  }

  lemma CapOrderMovesGrants(cap: Option<real>, s: Store, op: Op)
    requires op.DoCap?
    ensures GrantsFollow(cap, s, op, Transact(cap, s, op))
  {
    if op.g in s.grants {
      CappedGrants(s, op.g);
    }
  }

  lemma OperatorMovesGrants(cap: Option<real>, s: Store, op: Op)
    requires op.DoSetGrant? || op.DoRecheck?
    ensures GrantsFollow(cap, s, op, Transact(cap, s, op))
  {
    match op
    case DoSetGrant(g, target) =>
      if g in s.grants {
        EdgeGrants(s, g, s.grants[g].(generation := s.grants[g].generation + 1, state := SUSPECT));
      }
    case DoRecheck(ev) =>
      if ev.grant in s.grants {
        EdgeGrants(s.(evidence := s.evidence + {ev.id}), ev.grant, Grant(ev.expected + 1, OK, None, ev.verifiedAt));
      }
  }

  /** The grant table after any transaction is the row-by-row one. */
  lemma GrantsMoveExactly(cap: Option<real>, w: World, op: Op)
    requires WorldInv(w)
    ensures var t := Step(cap, w, op).store;
      if w.calling == None then GrantsFollow(cap, w.store, op, t) else t.grants == w.store.grants
  {
    var s := w.store;
    if w.calling == None {
      match op
      case DoSetGrant(_, _) => OperatorMovesGrants(cap, s, op);
      case DoRecheck(_) => OperatorMovesGrants(cap, s, op);
      case DoCap(_, _, _) => CapOrderMovesGrants(cap, s, op);
      case DoEnforceCap(_, _) => CapMovesGrants(cap, s, op);
      case DoFence(_, _, _, _, _) => CapMovesGrants(cap, s, op);
      case DoRevoke(nonce, gids, reason) => RevocationExactly(s, nonce, gids, reason);
      case DoQueue(_, _) =>
      case DoMarkHeld(_, _) =>
      case DoResolveQueued(_) =>
      case DoReserve(_, _, _) =>
      case DoReconcile(_) =>
      case DoScheduleRetry(_) =>
      case DoRelease(_) =>
      case DoRecord(_) =>
      case Crash =>
    }
  }

  // ----- how long an authority lasts ------------------------------------------------------

  /** The grant's last verification: the watermark at the start, or the newest accepted evidence of the run. */
  function LastVerified(cap: Option<real>, w: World, ops: seq<Op>, g: string, start: real): real
    decreases |ops|
  {
    if ops == [] then start
    else
      var op := ops[0];
      var verified := w.calling == None && op.DoRecheck? && op.ev.grant == g && EvidenceHolds(w.store, op.ev);
      LastVerified(cap, Step(cap, w, op), ops[1..], g, if verified then op.ev.verifiedAt else start)
  }

  lemma {:induction false} WatermarkIsLastVerified(cap: Option<real>, w: World, ops: seq<Op>, g: string)
    requires WorldInv(w) && g in w.store.grants
    ensures var t := Run(cap, w, ops).store;
      g in t.grants && t.grants[g].watermark == LastVerified(cap, w, ops, g, w.store.grants[g].watermark)
    decreases |ops|
  {
    if ops != [] {
      StepKeepsInv(cap, w, ops[0]);
      GrantsMoveExactly(cap, w, ops[0]);
      WatermarkIsLastVerified(cap, Step(cap, w, ops[0]), ops[1..], g);
    }
  }

  /** Every transport call of a run comes less than the cap after the last verification of its grant. */
  lemma HandoffsAreFresh(cap: Option<real>, w: World, ops: seq<Op>, op: Op)
    requires WorldInv(w) && HandsOff(cap, Run(cap, w, ops), op)
    ensures op.g in w.store.grants
    ensures cap.Some? ==> op.now < LastVerified(cap, w, ops, op.g, w.store.grants[op.g].watermark) + cap.value
  {
    RunKeepsInv(cap, w, ops);
    HandoffNeedsBinding(cap, Run(cap, w, ops), op);
    RunKeepsGrants(cap, w, ops);
    WatermarkIsLastVerified(cap, w, ops, op.g);
  }

  lemma {:induction false} RunKeepsGrants(cap: Option<real>, w: World, ops: seq<Op>)
    requires WorldInv(w)
    ensures Run(cap, w, ops).store.grants.Keys == w.store.grants.Keys
    decreases |ops|
  {
    if ops != [] {
      StepKeepsInv(cap, w, ops[0]);
      GrantsMoveExactly(cap, w, ops[0]);
      RunKeepsGrants(cap, Step(cap, w, ops[0]), ops[1..]);
    }
  }

  /** Transaction `k` of the run is a recheck of `g` on evidence that held then. */
  ghost predicate Rechecked(cap: Option<real>, w: World, ops: seq<Op>, k: int, g: string) {
    && 0 <= k < |ops| && ops[k].DoRecheck? && ops[k].ev.grant == g
    && Run(cap, w, ops[..k]).calling == None && EvidenceHolds(Run(cap, w, ops[..k]).store, ops[k].ev)
  }

  lemma RecheckedShift(cap: Option<real>, w: World, ops: seq<Op>, k: nat, g: string)
    requires ops != [] && Rechecked(cap, Step(cap, w, ops[0]), ops[1..], k, g)
    ensures Rechecked(cap, w, ops, k + 1, g)
  {
    assert ops[..k + 1][1..] == ops[1..][..k];
  }

  /** A grant that is not OK hands nothing off until a recheck of it on evidence that held. */
  lemma {:induction false} OnlyEvidenceReopens(cap: Option<real>, w: World, ops: seq<Op>, op: Op)
    requires WorldInv(w) && HandsOff(cap, Run(cap, w, ops), op)
    requires op.g in w.store.grants && w.store.grants[op.g].state != OK
    ensures exists k :: Rechecked(cap, w, ops, k, op.g)
    decreases |ops|
  {
    if ops == [] {
      HandoffNeedsBinding(cap, w, op);
    } else {
      var v := Step(cap, w, ops[0]);
      StepKeepsInv(cap, w, ops[0]);
      GrantsMoveExactly(cap, w, ops[0]);
      if v.store.grants[op.g].state != OK {
        OnlyEvidenceReopens(cap, v, ops[1..], op);
        var k :| Rechecked(cap, v, ops[1..], k, op.g);
        RecheckedShift(cap, w, ops, k, op.g);
      } else {
        assert ops[..0] == [];
        assert Rechecked(cap, w, ops, 0, op.g);
      }
    }
  }

  /** The evidence ids accepted so far never shrink, and an accepted recheck adds its own. */
  lemma StepKeepsEvidence(cap: Option<real>, w: World, op: Op)
    ensures w.store.evidence <= Step(cap, w, op).store.evidence
    ensures w.calling == None && op.DoRecheck? && EvidenceHolds(w.store, op.ev) ==> op.ev.id in Step(cap, w, op).store.evidence
  {
    if w.calling == None && op.DoRevoke? {
      BatchKeepsEvidence(w.store, op.nonce, op.gids, op.reason);
    } else if w.calling == None && op.DoFence? {
      DecideKeepsEvidence(EnforceCap(cap, w.store, op.g, op.now), op.g, op.m, op.supplied, op.newId);
    }
  }

  lemma {:induction false} ResolveAllKeepsEvidence(s: Store, gids: seq<string>, reason: string)
    requires forall i :: 0 <= i < |gids| ==> gids[i] in s.grants
    ensures ResolveAll(s, gids, reason).evidence == s.evidence
    decreases |gids|
  {
    if gids != [] {
      ResolveAllKeepsEvidence(ResolveRevoked(s, gids[0], reason), gids[1..], reason);
    }
  }

  lemma BatchKeepsEvidence(s: Store, nonce: string, gids: seq<string>, reason: string)
    ensures RevokeBatch(s, nonce, gids, reason).0.evidence == s.evidence
  {
    if RevokeBatch(s, nonce, gids, reason).1.RevokeDone? {
      ResolveAllKeepsEvidence(TombstoneAll(s, gids, reason).(nonces := s.nonces + {nonce}), gids, reason);
    }
  }

  lemma NamedKeepsEvidence(s0: Store, s: Store, g: string, m: string, res: string)
    requires g in s.grants && s0.evidence == s.evidence
    ensures DecideNamed(s0, s, g, m, res).0.evidence == s.evidence
  {
  }

  lemma DecideKeepsEvidence(s: Store, g: string, m: string, supplied: Option<string>, newId: string)
    ensures Decide(s, g, m, supplied, newId).0.evidence == s.evidence
  {
    if Open(s, g) {
      match supplied
      case Some(res) => NamedKeepsEvidence(s, s, g, m, res);
      case None =>
        if m in s.resOf {
          NamedKeepsEvidence(s, s, g, m, s.resOf[m]);
        } else {
          NamedKeepsEvidence(s, Prepared(s, g, m, newId), g, m, newId);
        }
    } else {
      assert DecideClosed(s, g, m, supplied).0.evidence == s.evidence;
    }
  }

  lemma {:induction false} RunKeepsEvidence(cap: Option<real>, w: World, ops: seq<Op>)
    ensures w.store.evidence <= Run(cap, w, ops).store.evidence
    decreases |ops|
  {
    if ops != [] {
      StepKeepsEvidence(cap, w, ops[0]);
      RunKeepsEvidence(cap, Step(cap, w, ops[0]), ops[1..]);
    }
  }

  /** Evidence opens a grant once: once accepted it never holds again. */
  lemma EvidenceIsSpent(cap: Option<real>, w: World, ev: Evidence, ops: seq<Op>, again: Evidence)
    requires w.calling == None && EvidenceHolds(w.store, ev)
    requires again.id == ev.id
    ensures var t := Run(cap, Step(cap, w, DoRecheck(ev)), ops).store;
      !EvidenceHolds(t, again) && Recheck(t, again) == (t, Refused)
  {
    StepKeepsEvidence(cap, w, DoRecheck(ev));
    RunKeepsEvidence(cap, Step(cap, w, DoRecheck(ev)), ops);
  }

  /** After a revocation no run hands anything off under any of its grants. */
  lemma RevokedNeverHandsOff(cap: Option<real>, w: World, nonce: string, gids: seq<string>, reason: string, ops: seq<Op>, op: Op)
    requires WorldInv(w) && w.calling == None && BatchHolds(w.store, nonce, gids)
    ensures var v := Step(cap, w, DoRevoke(nonce, gids, reason)); HandsOff(cap, Run(cap, v, ops), op) ==> op.g !in gids
  {
    var revoke := DoRevoke(nonce, gids, reason);
    var v := Step(cap, w, revoke);
    StepKeepsInv(cap, w, revoke);
    RevocationExactly(w.store, nonce, gids, reason);
    assert v.store == RevokeBatch(w.store, nonce, gids, reason).0;
    if op.DoFence? && op.g in gids {
      assert v.store.grants[op.g].state == REVOKED;
      RevocationIsFinal(cap, v, ops, op.g, op);
    }
  }

  // ----- what an edge carries and what a cap releases -------------------------------------

  /** The message's own reservation is live at this generation of this grant, and its outbox row mirrors it. */
  predicate Mirrored(s: Store, m: string, g: string, gen: nat) {
    && m in s.outbox && m in s.resOf && s.resOf[m] in s.reservations
    && var r := s.reservations[s.resOf[m]];
       && r.msg == m && r.grant == g && r.generation == gen && r.snapshot == OK
       && r.state != Sent && r.state != Released && s.outbox[m] == Outbox(g, gen, At(r.state))
  }

  /** The message is held with an authoritative lineage at this generation of this grant. */
  predicate HeldWithLineage(s: Store, m: string, g: string, gen: nat) {
    && m in s.outbox && s.outbox[m] == Outbox(g, gen, Held) && m in s.held && s.held[m] == Binding(g, gen)
    && m in s.holds && s.holds[m].grant == g && s.holds[m].generation == gen && m !in s.ndrs
    && match s.holds[m].res
       case None => m !in s.resOf
       case Some(id) =>
         && id in s.reservations
         && var r := s.reservations[id];
            r.msg == m && r.grant == g && r.generation == gen && r.snapshot == OK && r.state != Sent && r.state != Released
  }

  /** An edge moves the live reservations of its generation and the outbox rows that mirror them or belong to a lineage. */
  lemma EdgeMovesExactly(s: Store, g: string, row: Grant, m: string, id: string)
    requires Inv(s) && g in s.grants && row.generation == s.grants[g].generation + 1
    ensures var t := Edge(s, g, row); var gen := s.grants[g].generation;
      && t.reservations.Keys == s.reservations.Keys && t.outbox.Keys == s.outbox.Keys
      && (id in s.reservations ==>
            var r := s.reservations[id];
            var moves := r.grant == g && r.generation == gen && r.snapshot == OK && r.state != Sent && r.state != Released;
            t.reservations[id] == if moves then r.(generation := row.generation) else r)
      && (m in s.outbox ==>
            var moves := Mirrored(s, m, g, gen) || HeldWithLineage(s, m, g, gen);
            t.outbox[m] == if moves then s.outbox[m].(generation := row.generation) else s.outbox[m])
  {
    var gen := s.grants[g].generation;
    LineagesAgree(s, g, row, m, gen);
    if m in s.outbox && s.outbox[m].grant == g && s.outbox[m].generation == gen {
      MirrorsAgree(s, AdvancedReservations(s.reservations, g, gen, row.generation), m, g, gen, row.generation);
    }
  }

  /** It moves the hold and the display row of a lineage too, and nothing else. */
  lemma EdgeMovesLineages(s: Store, g: string, row: Grant, m: string)
    requires g in s.grants
    ensures var t := Edge(s, g, row); var gen := s.grants[g].generation;
      && t == s.(grants := s.grants[g := row], reservations := t.reservations, outbox := t.outbox, held := t.held, holds := t.holds)
      && t.held.Keys == s.held.Keys && t.holds.Keys == s.holds.Keys
      && (m in s.held ==> t.held[m] == if HeldWithLineage(s, m, g, gen) then Binding(g, row.generation) else s.held[m])
      && (m in s.holds ==>
            t.holds[m] == if HeldWithLineage(s, m, g, gen) then s.holds[m].(generation := row.generation) else s.holds[m])
  {
    LineagesAgree(s, g, row, m, s.grants[g].generation);
  }

  lemma LineagesAgree(s: Store, g: string, row: Grant, m: string, gen: nat)
    ensures Lineage(WithGrant(s, g, row), m, g, gen) <==> HeldWithLineage(s, m, g, gen)
  {
  }

  lemma MirrorsAgree(s: Store, rs: map<string, Reservation>, m: string, g: string, prev: nat, next: nat)
    requires Inv(s) && m in s.outbox && g in s.grants && prev == s.grants[g].generation
    requires rs == AdvancedReservations(s.reservations, g, prev, next) && next == prev + 1
    requires s.outbox[m].grant == g && s.outbox[m].generation == prev
    ensures MirrorsLive(rs, s.resOf, m, s.outbox[m], next) <==> Mirrored(s, m, g, prev)
  {
    assert AgreementOk(s, m);
    if m in s.resOf {
      assert ReservationOk(s, s.resOf[m]);
    }
  }
}
