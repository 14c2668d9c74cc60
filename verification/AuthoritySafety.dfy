/**
What every transaction of the federation authority keeps: the live-binding invariant, the
irreversibility of stale, sent, released and NDR-resolved messages, and what one handoff implies.
*/
module AuthoritySafety {
  import opened Wrappers
  import opened AuthorityState

  // ----- the live-binding invariant -------------------------------------------------------

  /** A live reservation is at its grant's generation, or exactly one behind a revoked grant. */
  ghost predicate ReservationOk(s: Store, id: string) {
    id in s.reservations ==>
      var r := s.reservations[id];
      && r.msg in s.resOf && s.resOf[r.msg] == id
      && r.grant in s.grants && r.snapshot == OK
      && r.generation <= s.grants[r.grant].generation
      && (Live(r.state) ==>
            s.grants[r.grant].generation
            == if s.grants[r.grant].state == REVOKED then r.generation + 1 else r.generation)
  }

  ghost predicate OutboxOk(s: Store, m: string) {
    m in s.outbox ==>
      var o := s.outbox[m];
      && o.grant in s.grants && o.generation <= s.grants[o.grant].generation
      && o.state != At(Reserved)
      && (o.state.At? ==> m in s.resOf)
  }

  /** Reservation and outbox of one message agree: `sent` together, and while live, equal or held. */
  ghost predicate AgreementOk(s: Store, m: string) {
    m in s.resOf ==>
      && s.resOf[m] in s.reservations && s.reservations[s.resOf[m]].msg == m
      && var stage := s.reservations[s.resOf[m]].state;
      && (stage == Sent <==> m in s.outbox && s.outbox[m].state == At(Sent))
      && (Live(stage) ==>
            if m in s.outbox then s.outbox[m].state == Held || s.outbox[m].state == At(stage)
            else stage == Reserved)
  }

  ghost predicate PendingOk(s: Store, m: string) {
    && (m in s.queued ==> s.queued[m].grant in s.grants)
    && (m in s.held ==> s.held[m].grant in s.grants)
  }

  ghost predicate Inv(s: Store) {
    && (forall r {:trigger ReservationOk(s, r)} :: ReservationOk(s, r))
    && (forall m {:trigger OutboxOk(s, m)} :: OutboxOk(s, m))
    && (forall m {:trigger AgreementOk(s, m)} :: AgreementOk(s, m))
    && (forall m {:trigger PendingOk(s, m)} :: PendingOk(s, m))
  }

  /** An approved bootstrap store: grants only, whatever their state. */
  ghost predicate Bootstrap(s: Store) {
    s == Store(s.grants, map[], map[], map[], map[], map[], map[], map[], {}, {})
  }

  lemma EdgeKeepsInv(s: Store, g: string, grant: Grant)
    requires Inv(s) && g in s.grants && s.grants[g].state != REVOKED && grant.state != REVOKED
    requires grant.generation == s.grants[g].generation + 1
    ensures Inv(Edge(s, g, grant))
  {
    var t := Edge(s, g, grant);
    forall r ensures ReservationOk(t, r) {
      assert ReservationOk(s, r);
    }
    forall m ensures OutboxOk(t, m) {
      assert OutboxOk(s, m);
    }
    forall m ensures AgreementOk(t, m) {
      assert AgreementOk(s, m);
    }
    forall m ensures PendingOk(t, m) {
      assert PendingOk(s, m);
    }
  }

  lemma SetGrantKeepsInv(s: Store, g: string, target: GrantState)
    requires Inv(s)
    ensures Inv(SetGrant(s, g, target).0)
  {
    if SetGrant(s, g, target).0 != s {
      EdgeKeepsInv(s, g, s.grants[g].(generation := s.grants[g].generation + 1, state := SUSPECT));
    }
  }

  lemma ReleaseStrandedKeepsInv(s: Store, g: string, prev: nat, next: nat, stranded: set<string>)
    requires Inv(s) && g in s.grants && prev <= next == s.grants[g].generation
    ensures Inv(ReleaseStranded(s, g, prev, next, stranded))
  {
    var t := ReleaseStranded(s, g, prev, next, stranded);
    forall r ensures ReservationOk(t, r) {
      assert ReservationOk(s, r);
    }
    forall m ensures OutboxOk(t, m) {
      assert OutboxOk(s, m);
    }
    forall m ensures AgreementOk(t, m) {
      assert AgreementOk(s, m);
      assert m in s.resOf ==> ReservationOk(s, s.resOf[m]);
      assert OutboxOk(s, m);
    }
    forall m ensures PendingOk(t, m) {
      assert PendingOk(s, m);
    }
  }

  lemma NdrsAndDropKeepInv(s: Store, g: string, ndrs: map<string, Ndr>)
    requires Inv(s)
    ensures Inv(s.(ndrs := ndrs)) && Inv(DropPending(s, g))
  {
    var t, u := s.(ndrs := ndrs), DropPending(s, g);
    forall r ensures ReservationOk(t, r) && ReservationOk(u, r) {
      assert ReservationOk(s, r);
    }
    forall m ensures OutboxOk(t, m) && AgreementOk(t, m) && PendingOk(t, m) {
      assert OutboxOk(s, m) && AgreementOk(s, m) && PendingOk(s, m);
    }
    forall m ensures OutboxOk(u, m) && AgreementOk(u, m) && PendingOk(u, m) {
      assert OutboxOk(s, m) && AgreementOk(s, m) && PendingOk(s, m);
    }
  }

  lemma CappedKeepsInv(s: Store, g: string)
    requires Inv(s) && g in s.grants && !Terminal(s.grants[g])
    ensures Inv(Capped(s, g))
  {
    var row := s.grants[g];
    EdgeKeepsInv(s, g, CapRow(row));
    ResolveCappedKeepsInv(Edge(s, g, CapRow(row)), g, row.generation);
  }

  lemma ResolveCappedKeepsInv(s: Store, g: string, prev: nat)
    requires Inv(s) && g in s.grants && s.grants[g].generation == prev + 1
    ensures Inv(ResolveCapped(s, g, prev, prev + 1))
  {
    var stranded := Stranded(s, g);
    var s1 := s.(ndrs := WithNdrs(s.ndrs, stranded, Ndr(g, prev + 1, CapReason, CapDetail)));
    NdrsAndDropKeepInv(s, g, s1.ndrs);
    ReleaseStrandedKeepsInv(s1, g, prev, prev + 1, stranded);
    NdrsAndDropKeepInv(ReleaseStranded(s1, g, prev, prev + 1, stranded), g, s1.ndrs);
  }

  lemma TombstoneAllKeepsInv(s: Store, gids: seq<string>, reason: string)
    requires Inv(s) && Revocable(s, gids)
    ensures Inv(TombstoneAll(s, gids, reason))
  {
    var t := TombstoneAll(s, gids, reason);
    forall r ensures ReservationOk(t, r) {
      assert ReservationOk(s, r);
    }
    forall m ensures OutboxOk(t, m) && AgreementOk(t, m) && PendingOk(t, m) {
      assert OutboxOk(s, m) && AgreementOk(s, m) && PendingOk(s, m);
    }
  }

  lemma {:induction false} ResolveAllKeepsInv(s: Store, gids: seq<string>, reason: string)
    requires Inv(s) && forall i :: 0 <= i < |gids| ==> gids[i] in s.grants
    ensures Inv(ResolveAll(s, gids, reason))
    decreases |gids|
  {
    if gids != [] {
      var g := gids[0];
      var ndr := Ndr(g, s.grants[g].generation, RevokeReason, RevokeDetail(reason));
      var s1 := s.(ndrs := WithNdrs(s.ndrs, Stranded(s, g), ndr));
      NdrsAndDropKeepInv(s, g, s1.ndrs);
      NdrsAndDropKeepInv(s1, g, s1.ndrs);
      ResolveAllKeepsInv(ResolveRevoked(s, g, reason), gids[1..], reason);
    }
  }

  lemma ConsumedKeepsInv(s: Store, nonces: set<string>, evidence: set<string>)
    requires Inv(s)
    ensures Inv(s.(nonces := nonces)) && Inv(s.(evidence := evidence))
  {
    var t, u := s.(nonces := nonces), s.(evidence := evidence);
    forall r ensures ReservationOk(t, r) && ReservationOk(u, r) {
      assert ReservationOk(s, r);
    }
    forall m ensures OutboxOk(t, m) && AgreementOk(t, m) && PendingOk(t, m) {
      assert OutboxOk(s, m) && AgreementOk(s, m) && PendingOk(s, m);
    }
    forall m ensures OutboxOk(u, m) && AgreementOk(u, m) && PendingOk(u, m) {
      assert OutboxOk(s, m) && AgreementOk(s, m) && PendingOk(s, m);
    }
  }

  lemma RevokeKeepsInv(s: Store, nonce: string, gids: seq<string>, reason: string)
    requires Inv(s)
    ensures Inv(RevokeBatch(s, nonce, gids, reason).0)
  {
    if RevokeBatch(s, nonce, gids, reason).1.RevokeDone? {
      var s1 := TombstoneAll(s, gids, reason);
      TombstoneAllKeepsInv(s, gids, reason);
      ConsumedKeepsInv(s1, s.nonces + {nonce}, s1.evidence);
      ResolveAllKeepsInv(s1.(nonces := s.nonces + {nonce}), gids, reason);
    }
  }

  lemma RecheckKeepsInv(s: Store, ev: Evidence)
    requires Inv(s)
    ensures Inv(Recheck(s, ev).0)
  {
    if Admissible(s, ev) {
      ConsumedKeepsInv(s, s.nonces, s.evidence + {ev.id});
      EdgeKeepsInv(s.(evidence := s.evidence + {ev.id}), ev.grant, Grant(ev.expected + 1, OK, None, ev.verifiedAt));
    }
  }

  lemma WithReservationKeepsInv(s: Store, g: string, m: string, newId: string)
    requires Inv(s) && Open(s, g) && m !in s.resOf && newId !in s.reservations
    ensures Inv(WithReservation(s, newId, FreshReservation(s, g, m)))
  {
    var t := WithReservation(s, newId, FreshReservation(s, g, m));
    forall r ensures ReservationOk(t, r) {
      assert ReservationOk(s, r);
    }
    forall n ensures OutboxOk(t, n) && AgreementOk(t, n) && PendingOk(t, n) {
      assert OutboxOk(s, n) && AgreementOk(s, n) && PendingOk(s, n);
    }
  }

  lemma HoldsKeepInv(s: Store, holds: map<string, Hold>)
    requires Inv(s)
    ensures Inv(s.(holds := holds))
  {
    var t := s.(holds := holds);
    forall r ensures ReservationOk(t, r) {
      assert ReservationOk(s, r);
    }
    forall m ensures OutboxOk(t, m) && AgreementOk(t, m) && PendingOk(t, m) {
      assert OutboxOk(s, m) && AgreementOk(s, m) && PendingOk(s, m);
    }
  }

  lemma ReserveKeepsInv(s: Store, g: string, m: string, newId: string)
    requires Inv(s)
    ensures Inv(ReserveDispatch(s, g, m, newId).0)
  {
    if ReserveDispatch(s, g, m, newId).0 != s {
      HoldsKeepInv(s, Adopted(s, g, m, newId).holds);
      WithReservationKeepsInv(Adopted(s, g, m, newId), g, m, newId);
    }
  }

  /** Moving one reservation and its outbox row together to a legal next stage. */
  lemma RestageKeepsInv(s: Store, res: string, r: Reservation, outbox: map<string, Outbox>)
    requires Inv(s) && res in s.reservations
    requires r == s.reservations[res].(state := r.state, attempts := r.attempts)
    requires Live(r.state) ==> Live(s.reservations[res].state)
    requires forall m :: m != r.msg ==> (m in outbox <==> m in s.outbox) && (m in outbox ==> outbox[m] == s.outbox[m])
    requires OutboxOk(s.(outbox := outbox), r.msg)
    requires AgreementOk(s.(reservations := s.reservations[res := r], outbox := outbox), r.msg)
    ensures Inv(s.(reservations := s.reservations[res := r], outbox := outbox))
  {
    var t := s.(reservations := s.reservations[res := r], outbox := outbox);
    assert ReservationOk(s, res);
    forall id ensures ReservationOk(t, id) {
      assert ReservationOk(s, id);
    }
    forall m ensures OutboxOk(t, m) && AgreementOk(t, m) && PendingOk(t, m) {
      assert OutboxOk(s, m) && AgreementOk(s, m) && PendingOk(s, m);
    }
  }

  lemma ReconcileKeepsInv(s: Store, res: string)
    requires Inv(s)
    ensures Inv(ReconcileInflight(s, res).0)
    ensures Inv(ScheduleRetry(s, res).0)
    ensures Inv(ReleaseReservation(s, res).0)
  {
    if res in s.reservations {
      var r := s.reservations[res];
      assert ReservationOk(s, res) && OutboxOk(s, r.msg) && AgreementOk(s, r.msg);
      if r.state == Inflight {
        RestageKeepsInv(s, res, r.(state := FailedUnknown), Restaged(s.outbox, r.msg, Inflight, FailedUnknown));
      }
      if r.state == FailedUnknown {
        RestageKeepsInv(s, res, r.(state := Retry), Restaged(s.outbox, r.msg, FailedUnknown, Retry));
      }
      if r.state != Sent {
        RestageKeepsInv(s, res, r.(state := Released), s.outbox);
      }
    }
  }

  lemma HoldRowKeepsInv(s: Store, m: string, g: string)
    requires Inv(s) && g in s.grants
    requires m in s.outbox ==> s.outbox[m].state != At(Sent)
    ensures Inv(HoldRow(s, m, g, s.grants[g].generation))
  {
    var t := HoldRow(s, m, g, s.grants[g].generation);
    forall r ensures ReservationOk(t, r) {
      assert ReservationOk(s, r);
    }
    forall n ensures OutboxOk(t, n) && AgreementOk(t, n) && PendingOk(t, n) {
      assert OutboxOk(s, n) && AgreementOk(s, n) && PendingOk(s, n);
    }
  }

  lemma DispatchedKeepsInv(s: Store, m: string, res: string)
    requires Inv(s) && res in s.reservations && s.reservations[res].msg == m
    requires s.reservations[res].state == Reserved || s.reservations[res].state == Retry
    ensures Inv(Dispatched(s, m, res))
  {
    assert ReservationOk(s, res) && OutboxOk(s, m) && AgreementOk(s, m);
    HoldsKeepInv(s, s.holds - {m});
    var s1 := s.(holds := s.holds - {m});
    var t := Dispatched(s, m, res);
    RestageKeepsInv(s1, res, t.reservations[res], t.outbox);
  }

  lemma DecideNamedKeepsInv(s0: Store, s: Store, g: string, m: string, res: string)
    requires Inv(s0) && Inv(s) && g in s.grants
    requires m in s.outbox ==> s.outbox[m].state != At(Sent)
    ensures Inv(DecideNamed(s0, s, g, m, res).0)
  {
    HoldRowKeepsInv(s, m, g);
    if DecideNamed(s0, s, g, m, res).1.Handoff? {
      DispatchedKeepsInv(s, m, res);
    }
  }

  lemma DecideKeepsInv(s: Store, g: string, m: string, supplied: Option<string>, newId: string)
    requires Inv(s)
    ensures Inv(Decide(s, g, m, supplied, newId).0)
  {
    if m in s.outbox && s.outbox[m].state == At(Sent) {
    } else if Open(s, g) {
      match supplied
      case Some(res) => DecideNamedKeepsInv(s, s, g, m, res);
      case None =>
        if m in s.resOf {
          DecideNamedKeepsInv(s, s, g, m, s.resOf[m]);
        } else if newId !in s.reservations {
          WithReservationKeepsInv(s, g, m, newId);
          DecideNamedKeepsInv(s, WithReservation(s, newId, FreshReservation(s, g, m)), g, m, newId);
        }
    } else if g in s.grants {
      HoldRowKeepsInv(s, m, g);
      var s1 := HoldRow(s, m, g, s.grants[g].generation);
      HoldsKeepInv(s1, s1.holds[m := Hold(g, s.grants[g].generation, ReservationOf(s, m))]);
    }
  }

  // ----- what a handoff implies -----------------------------------------------------------

  /** The store a handoff dispatches from: a direct call first inserts its own reservation. */
  function Prepared(s: Store, g: string, m: string, newId: string): Store
    requires g in s.grants
  {
    if m in s.resOf then s else WithReservation(s, newId, FreshReservation(s, g, m))
  }

  lemma NamedHandoff(s0: Store, s: Store, g: string, m: string, res: string)
    requires g in s.grants && DecideNamed(s0, s, g, m, res).1.Handoff?
    ensures DecideNamed(s0, s, g, m, res) == (if res in s.reservations then Dispatched(s, m, res) else s, Handoff(res))
    ensures res in s.reservations
    ensures var r := s.reservations[res];
            r.msg == m && LiveBinding(r, g, s.grants[g].generation) && (r.state == Reserved || r.state == Retry)
            && (m in s.outbox ==> s.outbox[m].state == Held || s.outbox[m].state == At(r.state))
  {
  }

  /** The one reservation of the message, bound to this grant's current generation, is dispatched. */
  lemma HandoffShape(s: Store, g: string, m: string, supplied: Option<string>, newId: string)
    requires Inv(s) && Decide(s, g, m, supplied, newId).1.Handoff?
    ensures Open(s, g) && m !in s.ndrs
    ensures m in s.outbox ==> s.outbox[m].grant == g && s.outbox[m].generation == s.grants[g].generation
    ensures
      var id := Decide(s, g, m, supplied, newId).1.res;
      var base := Prepared(s, g, m, newId);
      && (if m in s.resOf then id == s.resOf[m] else id == newId && newId !in s.reservations)
      && (supplied == None || supplied == Some(id))
      && id in base.reservations
      && var r := base.reservations[id];
      && r.msg == m && LiveBinding(r, g, s.grants[g].generation) && (r.state == Reserved || r.state == Retry)
      && (m in s.outbox ==> s.outbox[m].state == Held || s.outbox[m].state == At(r.state))
      && Decide(s, g, m, supplied, newId).0 == Dispatched(base, m, id)
  {
    assert !DecideClosed(s, g, m, supplied).1.Handoff?;
    assert Decide(s, g, m, supplied, newId) == DecideOpen(s, g, m, supplied, newId);
    match supplied
    case Some(res) =>
      NamedHandoff(s, s, g, m, res);
      assert ReservationOk(s, res);
    case None =>
      if m in s.resOf {
        NamedHandoff(s, s, g, m, s.resOf[m]);
      } else {
        NamedHandoff(s, Prepared(s, g, m, newId), g, m, newId);
      }
  }

  /**
  The grant is OK and untombstoned, the message has no NDR, its outbox row (if any) is at this grant
  and generation, and its one reservation is reserved or in retry on this grant, or is created here
  under an id not yet taken.
  */
  predicate MayHandOff(s: Store, g: string, m: string, supplied: Option<string>, newId: string) {
    && g in s.grants && s.grants[g].state == OK && s.grants[g].tombstone == None && m !in s.ndrs
    && (m in s.outbox ==> s.outbox[m].grant == g && s.outbox[m].generation == s.grants[g].generation)
    && if m in s.resOf then
         && (supplied == None || supplied == Some(s.resOf[m]))
         && s.resOf[m] in s.reservations
         && s.reservations[s.resOf[m]].grant == g
         && (s.reservations[s.resOf[m]].state == Reserved || s.reservations[s.resOf[m]].state == Retry)
       else supplied == None && newId !in s.reservations
  }

  /** The last verification of the grant is less than the cap ago. */
  predicate WithinCap(cap: Option<real>, s: Store, g: string, now: real) {
    g in s.grants && cap.Some? ==> now - s.grants[g].watermark < cap.value
  }

  lemma NamedMayHandOff(s0: Store, s: Store, g: string, m: string, res: string)
    requires g in s.grants && res in s.reservations
    requires var r := s.reservations[res];
      r.msg == m && LiveBinding(r, g, s.grants[g].generation) && (r.state == Reserved || r.state == Retry)
      && (m in s.outbox ==> s.outbox[m].state == Held || s.outbox[m].state == At(r.state))
    ensures DecideNamed(s0, s, g, m, res).1 == Handoff(res)
  {
  }

  lemma DecideMayHandOff(s: Store, g: string, m: string, supplied: Option<string>, newId: string)
    requires Inv(s) && MayHandOff(s, g, m, supplied, newId)
    ensures Decide(s, g, m, supplied, newId).1.Handoff?
  {
    assert OutboxOk(s, m) && AgreementOk(s, m);
    var id := if m in s.resOf then s.resOf[m] else newId;
    if m in s.resOf {
      assert ReservationOk(s, id);
    }
    assert Decide(s, g, m, supplied, newId) == DecideOpen(s, g, m, supplied, newId);
    NamedMayHandOff(s, Prepared(s, g, m, newId), g, m, id);
  }

  lemma CappedIsClosed(s: Store, g: string)
    requires g in s.grants
    ensures g in Capped(s, g).grants && Capped(s, g).grants[g].state == CAPPED
    ensures Capped(s, g).grants[g].generation == s.grants[g].generation + 1
  {
  }

  /** Exactly when the fence hands a message to the transport, at its in-lock clock sample. */
  lemma HandoffExactly(cap: Option<real>, s: Store, g: string, m: string, supplied: Option<string>,
                       newId: string, now: real)
    requires Inv(s)
    ensures Fence(cap, s, g, m, supplied, newId, now).1.Handoff?
            <==> MayHandOff(s, g, m, supplied, newId) && WithinCap(cap, s, g, now)
  {
    if CapDue(cap, s, g, now) {
      if Fence(cap, s, g, m, supplied, newId, now).1.Handoff? {
        CappedKeepsInv(s, g);
        CappedIsClosed(s, g);
        HandoffShape(Capped(s, g), g, m, supplied, newId);
      }
    } else {
      if Fence(cap, s, g, m, supplied, newId, now).1.Handoff? {
        HandoffShape(s, g, m, supplied, newId);
      }
      if MayHandOff(s, g, m, supplied, newId) {
        DecideMayHandOff(s, g, m, supplied, newId);
      }
    }
  }
}
