/**
The federation authority as the program runs it: one object whose tables each transaction updates in
place. Every method is proved equal to its specification function and keeps the binding invariant.
*/
module FederationAuthority {
  import opened Wrappers
  import opened AuthorityState
  import opened AuthoritySafety
  import opened AuthorityRuns
  import opened AuthorityConservation

  // ----- how the row-by-row loops add up --------------------------------------------------

  function MoveOutbox(rows: map<string, Outbox>, moved: set<string>, next: nat): map<string, Outbox> {
    map m | m in rows :: if m in moved then rows[m].(generation := next) else rows[m]
  }

  function MoveHeld(rows: map<string, Binding>, moved: set<string>, next: nat): map<string, Binding> {
    map m | m in rows :: if m in moved then MovedTo(rows[m], next) else rows[m]
  }

  function MoveHolds(rows: map<string, Hold>, moved: set<string>, next: nat): map<string, Hold> {
    map m | m in rows :: if m in moved then rows[m].(generation := next) else rows[m]
  }

  /** The set-oriented outbox update, after the reservations have moved. */
  function MirroredOutbox(rows: map<string, Outbox>, reservations: map<string, Reservation>,
                          resOf: map<string, string>, g: string, prev: nat, next: nat): map<string, Outbox>
  {
    map m | m in rows ::
      if rows[m].grant == g && rows[m].generation == prev && MirrorsLive(reservations, resOf, m, rows[m], next)
      then rows[m].(generation := next) else rows[m]
  }

  /** The holds that move with the grant, selected before anything is updated. */
  function CarriedBy(s: Store, g: string, prev: nat): set<string> {
    set m | m in s.holds && Lineage(s, m, g, prev)
  }

  /** The set-oriented updates followed by the loop over the carried holds give `Advanced`. */
  lemma AdvancedByLoop(s: Store, g: string, prev: nat, next: nat)
    ensures var carried := CarriedBy(s, g, prev);
      Advanced(s, g, prev, next)
      == s.(reservations := AdvancedReservations(s.reservations, g, prev, next),
            outbox := MoveOutbox(MirroredOutbox(s.outbox, AdvancedReservations(s.reservations, g, prev, next),
                                                s.resOf, g, prev, next), carried, next),
            held := MoveHeld(s.held, carried, next),
            holds := MoveHolds(s.holds, carried, next))
  {
  }

  lemma MovesOneMore(outbox: map<string, Outbox>, held: map<string, Binding>, holds: map<string, Hold>,
                     done: set<string>, m: string, next: nat)
    requires m in outbox && m in held && m in holds && m !in done
    ensures MoveOutbox(outbox, done + {m}, next)
            == MoveOutbox(outbox, done, next)[m := outbox[m].(generation := next)]
    ensures MoveHeld(held, done + {m}, next) == MoveHeld(held, done, next)[m := MovedTo(held[m], next)]
    ensures MoveHolds(holds, done + {m}, next) == MoveHolds(holds, done, next)[m := holds[m].(generation := next)]
  {
  }

  lemma OneMoreNdr(ndrs: map<string, Ndr>, done: set<string>, m: string, ndr: Ndr)
    ensures WithNdrs(ndrs, done + {m}, ndr)
            == var t := WithNdrs(ndrs, done, ndr); if m in t then t else t[m := ndr]
  {
  }

  lemma NothingDone(outbox: map<string, Outbox>, rows: map<string, Reservation>, ndrs: map<string, Ndr>,
                    resOf: map<string, string>, g: string, prev: nat, next: nat)
    ensures ReleasedReservations(rows, g, next, {}) == rows
    ensures ReleasedOutbox(outbox, rows, resOf, g, prev, next, {}) == outbox
    ensures forall ndr :: WithNdrs(ndrs, {}, ndr) == ndrs
  {
  }

  lemma SizeOneMore(done: set<string>, keys: set<string>, m: string)
    requires m !in done
    ensures |(done + {m}) - keys| == |done - keys| + if m in keys then 0 else 1
  {
    assert (done + {m}) - keys == if m in keys then done - keys else (done - keys) + {m};
  }

  lemma OneMoreReleased(outbox: map<string, Outbox>, rows: map<string, Reservation>, resOf: map<string, string>,
                        g: string, prev: nat, next: nat, done: set<string>, m: string)
    ensures ReleasedReservations(ReleasedReservations(rows, g, next, done), g, next, {m})
            == ReleasedReservations(rows, g, next, done + {m})
    ensures ReleasedOutbox(ReleasedOutbox(outbox, rows, resOf, g, prev, next, done),
                           ReleasedReservations(rows, g, next, done), resOf, g, prev, next, {m})
            == ReleasedOutbox(outbox, rows, resOf, g, prev, next, done + {m})
  {
  }

  lemma TailUnfolds(s: Store, gids: seq<string>, i: nat, reason: string)
    requires i < |gids| && forall j :: 0 <= j < |gids| ==> gids[j] in s.grants
    ensures ResolveAll(s, gids[i..], reason) == ResolveAll(ResolveRevoked(s, gids[i], reason), gids[i + 1..], reason)
  {
    assert gids[i..][0] == gids[i] && gids[i..][1..] == gids[i + 1..];
  }

  lemma KeysAddUp(a: set<string>, b: set<string>, c: set<string>)
    requires a <= b <= c
    ensures |c - a| == |b - a| + |c - b|
  {
    assert c - a == (b - a) + (c - b);
  }

  /** The UNIQUE constraint on reservations.msg_id and its index. */
  ghost predicate UniqueIndex(rows: map<string, Reservation>, resOf: map<string, string>) {
    && (forall r :: r in rows ==> rows[r].msg in resOf && resOf[rows[r].msg] == r)
    && (forall m :: m in resOf ==> resOf[m] in rows && rows[resOf[m]].msg == m)
  }

  lemma InvHasUniqueIndex(s: Store)
    requires Inv(s)
    ensures UniqueIndex(s.reservations, s.resOf)
  {
    forall r | r in s.reservations ensures s.reservations[r].msg in s.resOf && s.resOf[s.reservations[r].msg] == r {
      assert ReservationOk(s, r);
    }
    forall m | m in s.resOf ensures s.resOf[m] in s.reservations && s.reservations[s.resOf[m]].msg == m {
      assert AgreementOk(s, m);
    }
  }

  lemma CapSteps(s: Store, g: string)
    requires Inv(s) && g in s.grants && !Terminal(s.grants[g])
    ensures var t := Edge(s, g, CapRow(s.grants[g]));
      && Inv(Capped(s, g)) && UniqueIndex(t.reservations, t.resOf)
      && Stranded(t, g) == Stranded(s, g) && t.ndrs == s.ndrs
      && Capped(s, g) == ResolveCapped(t, g, s.grants[g].generation, s.grants[g].generation + 1)
  {
    CappedKeepsInv(s, g);
    EdgeKeepsInv(s, g, CapRow(s.grants[g]));
    InvHasUniqueIndex(Edge(s, g, CapRow(s.grants[g])));
    EdgeKeepsStranded(s, g, CapRow(s.grants[g]), g);
  }

  class Authority {
    const cap: Option<real>
    var grants: map<string, Grant>
    var queued: map<string, Binding>
    var held: map<string, Binding>
    var ndrs: map<string, Ndr>
    var outbox: map<string, Outbox>
    var reservations: map<string, Reservation>
    var resOf: map<string, string>
    var holds: map<string, Hold>
    var nonces: set<string>
    var evidence: set<string>

    function State(): Store
      reads this
    {
      Store(grants, queued, held, ndrs, outbox, reservations, resOf, holds, nonces, evidence)
    }

    ghost predicate Valid()
      reads this
    {
      Inv(State())
    }

    /** Binds an approved store: its grants are given, no grant is ever installed here. */
    constructor Configure(cap: Option<real>, grants: map<string, Grant>)
      ensures Valid() && Bootstrap(State()) && this.grants == grants && this.cap == cap
    {
      this.cap := cap;
      this.grants := grants;
      queued, held, ndrs, outbox := map[], map[], map[], map[];
      reservations, resOf, holds := map[], map[], map[];
      nonces, evidence := {}, {};
    }

    // ----- grant edges --------------------------------------------------------------------

    /** The three single-row updates for one carried hold. */
    method MoveOne(m: string, g: string, prev: nat, next: nat)
      requires m in outbox && outbox[m].grant == g && outbox[m].generation == prev
      requires m in held && held[m] == Binding(g, prev)
      requires m in holds && holds[m].grant == g && holds[m].generation == prev
      modifies this`outbox, this`held, this`holds
      ensures outbox == old(outbox)[m := old(outbox[m]).(generation := next)]
      ensures held == old(held)[m := MovedTo(old(held[m]), next)]
      ensures holds == old(holds)[m := old(holds[m]).(generation := next)]
    {
      if m in outbox && outbox[m].grant == g && outbox[m].generation == prev {
        outbox := outbox[m := outbox[m].(generation := next)];
      }
      if m in held && held[m] == Binding(g, prev) {
        held := held[m := Binding(g, next)];
      }
      if m in holds && holds[m].grant == g && holds[m].generation == prev {
        holds := holds[m := holds[m].(generation := next)];
      }
    }

    /** The loop over the carried holds. */
    method MoveCarried(carried: set<string>, g: string, prev: nat, next: nat)
      requires forall m :: m in carried ==>
        m in outbox && outbox[m].grant == g && outbox[m].generation == prev
        && m in held && held[m] == Binding(g, prev)
        && m in holds && holds[m].grant == g && holds[m].generation == prev
      modifies this`outbox, this`held, this`holds
      ensures outbox == MoveOutbox(old(outbox), carried, next)
      ensures held == MoveHeld(old(held), carried, next)
      ensures holds == MoveHolds(old(holds), carried, next)
    {
      var done := {};
      while done != carried
        invariant done <= carried
        invariant outbox == MoveOutbox(old(outbox), done, next)
        invariant held == MoveHeld(old(held), done, next)
        invariant holds == MoveHolds(old(holds), done, next)
        decreases carried - done
      {
        var m :| m in carried && m !in done;
        MoveOne(m, g, prev, next);
        MovesOneMore(old(outbox), old(held), old(holds), done, m, next);
        done := done + {m};
      }
    }

    method AdvanceLiveGeneration(g: string, prev: nat, next: nat)
      modifies this
      ensures State() == Advanced(old(State()), g, prev, next)
    {
      ghost var s := State();
      var carried := CarriedBy(State(), g, prev);
      reservations := AdvancedReservations(reservations, g, prev, next);
      outbox := MirroredOutbox(outbox, reservations, resOf, g, prev, next);
      MoveCarried(carried, g, prev, next);
      AdvancedByLoop(s, g, prev, next);
    }

    method SetGrant(g: string, target: GrantState) returns (reply: Reply)
      requires Valid()
      modifies this
      ensures Valid() && (State(), reply) == AuthorityState.SetGrant(old(State()), g, target)
    {
      SetGrantKeepsInv(State(), g, target);
      if g !in grants {
        return Refused;
      }
      var row := grants[g];
      if target == row.state {
        return Done;
      }
      if row.state == REVOKED || row.tombstone != None || target == CAPPED || target == REVOKED
         || row.state == SUSPECT || row.state == CAPPED || row.state != OK || target != SUSPECT {
        return Refused;
      }
      grants := grants[g := row.(generation := row.generation + 1, state := SUSPECT)];
      AdvanceLiveGeneration(g, row.generation, row.generation + 1);
      return Done;
    }

    method VerifiedRecheck(ev: Evidence) returns (reply: Reply)
      requires Valid()
      modifies this
      ensures Valid() && (State(), reply) == Recheck(old(State()), ev)
    {
      RecheckKeepsInv(State(), ev);
      if !ev.authentic || ev.expected < 1 || (ev.prior != CAPPED && ev.prior != SUSPECT) {
        return Refused;
      }
      if ev.id in evidence || ev.grant !in grants {
        return Refused;
      }
      var row := grants[ev.grant];
      if row.generation != ev.expected || row.state == REVOKED || row.tombstone != None
         || row.state != ev.prior || ev.verifiedAt <= row.watermark {
        return Refused;
      }
      evidence := evidence + {ev.id};
      grants := grants[ev.grant := Grant(ev.expected + 1, OK, None, ev.verifiedAt)];
      AdvanceLiveGeneration(ev.grant, ev.expected, ev.expected + 1);
      return Done;
    }

    // ----- queue and display rows ---------------------------------------------------------

    method QueueMessage(g: string, m: string) returns (reply: Reply)
      requires Valid()
      modifies this`queued
      ensures Valid() && (State(), reply) == AuthorityState.QueueMessage(old(State()), g, m)
    {
      TransactKeepsInv(cap, State(), DoQueue(g, m));
      if g !in grants {
        return Refused;
      }
      queued := queued[m := Binding(g, grants[g].generation)];
      return Done;
    }

    method MarkHeld(g: string, m: string) returns (reply: Reply)
      requires Valid()
      modifies this`held
      ensures Valid() && (State(), reply) == AuthorityState.MarkHeld(old(State()), g, m)
    {
      TransactKeepsInv(cap, State(), DoMarkHeld(g, m));
      if g !in grants {
        return Refused;
      }
      held := held[m := Binding(g, grants[g].generation)];
      return Done;
    }

    method ResolveQueued(m: string)
      requires Valid()
      modifies this`queued
      ensures Valid() && State() == AuthorityState.ResolveQueued(old(State()), m)
    {
      TransactKeepsInv(cap, State(), DoResolveQueued(m));
      queued := queued - {m};
    }

    // ----- non-delivery records, caps and revocations -------------------------------------

    method EmitNdr(m: string, g: string, gen: nat, reason: string, detail: string) returns (written: bool)
      modifies this`ndrs
      ensures written <==> m !in old(ndrs)
      ensures ndrs == if written then old(ndrs)[m := Ndr(g, gen, reason, detail)] else old(ndrs)
    {
      if m in ndrs {
        return false;
      }
      ndrs := ndrs[m := Ndr(g, gen, reason, detail)];
      return true;
    }

    method StrandedRows(g: string) returns (rows: set<string>)
      ensures rows == Stranded(State(), g)
    {
      rows := (set m | m in queued && queued[m].grant == g) + (set m | m in held && held[m].grant == g);
    }

    method DropPendingRows(g: string)
      modifies this`queued, this`held
      ensures State() == DropPending(old(State()), g)
    {
      queued := map m | m in queued && queued[m].grant != g :: queued[m];
      held := map m | m in held && held[m].grant != g :: held[m];
    }

    /** Completes the live reservation of one NDR-resolved message, with its outbox row. */
    method ReleaseForCap(m: string, g: string, prev: nat, next: nat)
      requires UniqueIndex(reservations, resOf)
      modifies this`reservations, this`outbox
      ensures UniqueIndex(reservations, resOf)
      ensures reservations == ReleasedReservations(old(reservations), g, next, {m})
      ensures outbox == ReleasedOutbox(old(outbox), old(reservations), resOf, g, prev, next, {m})
    {
      if m in resOf && reservations[resOf[m]].grant == g && reservations[resOf[m]].generation == next
         && Live(reservations[resOf[m]].state) {
        reservations := reservations[resOf[m] := reservations[resOf[m]].(state := Released)];
        if m in outbox && outbox[m].grant == g && (outbox[m].generation == prev || outbox[m].generation == next)
           && (outbox[m].state == Held || Live(outbox[m].state.stage)) {
          outbox := outbox[m := Outbox(g, next, At(Released))];
        }
      }
    }

    method ResolveOneCapped(m: string, g: string, prev: nat, next: nat) returns (written: bool)
      requires UniqueIndex(reservations, resOf)
      modifies this`ndrs, this`reservations, this`outbox
      ensures UniqueIndex(reservations, resOf)
      ensures written <==> m !in old(ndrs)
      ensures ndrs == if written then old(ndrs)[m := Ndr(g, next, CapReason, CapDetail)] else old(ndrs)
      ensures reservations == ReleasedReservations(old(reservations), g, next, {m})
      ensures outbox == ReleasedOutbox(old(outbox), old(reservations), resOf, g, prev, next, {m})
    {
      written := EmitNdr(m, g, next, CapReason, CapDetail);
      ReleaseForCap(m, g, prev, next);
    }

    /** The loop over the stranded rows. */
    method ResolveEachCapped(rows: set<string>, g: string, prev: nat, next: nat) returns (resolved: set<string>)
      requires UniqueIndex(reservations, resOf)
      modifies this`ndrs, this`reservations, this`outbox
      ensures ndrs == WithNdrs(old(ndrs), rows, Ndr(g, next, CapReason, CapDetail))
      ensures reservations == ReleasedReservations(old(reservations), g, next, rows)
      ensures outbox == ReleasedOutbox(old(outbox), old(reservations), resOf, g, prev, next, rows)
      ensures resolved == rows - old(ndrs).Keys
    {
      ghost var ndrs0, reservations0, outbox0 := ndrs, reservations, outbox;
      var done := {};
      resolved := {};
      NothingDone(outbox0, reservations0, ndrs0, resOf, g, prev, next);
      while done != rows
        invariant done <= rows
        invariant UniqueIndex(reservations, resOf)
        invariant ndrs == WithNdrs(ndrs0, done, Ndr(g, next, CapReason, CapDetail))
        invariant reservations == ReleasedReservations(reservations0, g, next, done)
        invariant outbox == ReleasedOutbox(outbox0, reservations0, resOf, g, prev, next, done)
        invariant resolved == done - ndrs0.Keys
        decreases rows - done
      {
        var m :| m in rows && m !in done;
        OneMoreNdr(ndrs0, done, m, Ndr(g, next, CapReason, CapDetail));
        OneMoreReleased(outbox0, reservations0, resOf, g, prev, next, done, m);
        var written := ResolveOneCapped(m, g, prev, next);
        if written {
          resolved := resolved + {m};
        }
        done := done + {m};
      }
    }

    method ResolveCappedRows(g: string, prev: nat, next: nat) returns (resolved: set<string>)
      requires UniqueIndex(reservations, resOf)
      modifies this
      ensures State() == ResolveCapped(old(State()), g, prev, next)
      ensures resolved == Stranded(old(State()), g) - old(ndrs).Keys
    {
      var rows := StrandedRows(g);
      resolved := ResolveEachCapped(rows, g, prev, next);
      DropPendingRows(g);
    }

    method CapEdge(g: string)
      requires g in grants
      modifies this
      ensures State() == Edge(old(State()), g, CapRow(old(grants[g])))
    {
      var row := grants[g];
      grants := grants[g := row.(generation := row.generation + 1, state := CAPPED)];
      AdvanceLiveGeneration(g, row.generation, row.generation + 1);
    }

    method ApplyCapTransition(g: string) returns (resolved: set<string>)
      requires Valid() && g in grants && !Terminal(grants[g])
      modifies this
      ensures Valid() && State() == Capped(old(State()), g)
      ensures resolved == Stranded(old(State()), g) - old(ndrs).Keys
    {
      ghost var s := State();
      var row := grants[g];
      CapSteps(s, g);
      CapEdge(g);
      ghost var t := State();
      resolved := ResolveCappedRows(g, row.generation, row.generation + 1);
      assert State() == ResolveCapped(t, g, row.generation, row.generation + 1);
    }

    method EnforceCapInTransaction(g: string, now: real)
      requires Valid()
      modifies this
      ensures Valid() && State() == EnforceCap(cap, old(State()), g, now)
    {
      if cap == None || g !in grants {
        return;
      }
      var row := grants[g];
      if row.state == CAPPED || row.state == REVOKED || row.tombstone != None {
        return;
      }
      if now - row.watermark < cap.value {
        return;
      }
      var _ := ApplyCapTransition(g);
    }

    method ApplyPartitionCap(g: string, now: real, threshold: real) returns (reply: CapReply)
      requires Valid()
      modifies this
      ensures Valid() && (State(), reply) == ApplyCap(old(State()), g, now, threshold)
    {
      if threshold <= 0.0 || g !in grants {
        return CapRefused;
      }
      var row := grants[g];
      if row.state == REVOKED || row.tombstone != None {
        return CapRefused;
      }
      if row.state == CAPPED {
        return CapDone({});
      }
      if now - row.watermark < threshold {
        return CapNotDue;
      }
      CapConserves(State(), g);
      var resolved := ApplyCapTransition(g);
      return CapDone(resolved);
    }

    method EmitEach(rows: set<string>, g: string, gen: nat, reason: string, detail: string) returns (written: nat)
      modifies this`ndrs
      ensures ndrs == WithNdrs(old(ndrs), rows, Ndr(g, gen, reason, detail))
      ensures written == |rows - old(ndrs).Keys|
    {
      ghost var ndrs0 := ndrs;
      var done := {};
      written := 0;
      while done != rows
        invariant done <= rows
        invariant ndrs == WithNdrs(ndrs0, done, Ndr(g, gen, reason, detail))
        invariant written == |done - ndrs0.Keys|
        decreases rows - done
      {
        var m :| m in rows && m !in done;
        OneMoreNdr(ndrs0, done, m, Ndr(g, gen, reason, detail));
        SizeOneMore(done, ndrs0.Keys, m);
        var one := EmitNdr(m, g, gen, reason, detail);
        if one {
          written := written + 1;
        }
        done := done + {m};
      }
    }

    /** NDRs for one revoked grant's rows, then their removal. */
    method ResolveRevokedRows(g: string, reason: string) returns (written: nat)
      requires g in grants
      modifies this`ndrs, this`queued, this`held
      ensures State() == ResolveRevoked(old(State()), g, reason)
      ensures old(ndrs).Keys <= ndrs.Keys && written == |ndrs.Keys - old(ndrs).Keys|
    {
      var rows := StrandedRows(g);
      written := EmitEach(rows, g, grants[g].generation, RevokeReason, RevokeDetail(reason));
      assert ndrs.Keys - old(ndrs).Keys == rows - old(ndrs).Keys;
      DropPendingRows(g);
    }

    method CommitRevokeBatch(nonce: string, gids: seq<string>, reason: string) returns (reply: RevokeReply)
      requires Valid()
      modifies this
      ensures Valid() && (State(), reply) == RevokeBatch(old(State()), nonce, gids, reason)
    {
      ghost var s := State();
      RevokeKeepsInv(s, nonce, gids, reason);
      if gids == [] || exists i, j :: 0 <= i < j < |gids| && gids[i] == gids[j] {
        return RevokeRefused;
      }
      if nonce in nonces {
        return NonceReplay;
      }
      if exists i :: 0 <= i < |gids|
                     && (gids[i] !in grants || grants[gids[i]].state == REVOKED || grants[gids[i]].tombstone != None) {
        return RevokeRefused;
      }
      nonces := nonces + {nonce};
      TombstoneGrants(gids, reason);
      assert State() == TombstoneAll(s, gids, reason).(nonces := s.nonces + {nonce});
      var count := ResolveBatch(gids, reason);
      return RevokeDone(|gids|, count);
    }

    method TombstoneGrants(gids: seq<string>, reason: string)
      requires Distinct(gids) && forall i :: 0 <= i < |gids| ==> gids[i] in grants
      modifies this`grants
      ensures State() == TombstoneAll(old(State()), gids, reason)
    {
      ghost var s := State();
      for i := 0 to |gids|
        invariant grants == TombstoneAll(s, gids[..i], reason).grants
      {
        assert gids[..i + 1] == gids[..i] + [gids[i]];
        grants := grants[gids[i] := Tombstoned(grants[gids[i]], reason)];
      }
      assert gids[..|gids|] == gids;
    }

    method ResolveBatch(gids: seq<string>, reason: string) returns (count: nat)
      requires forall i :: 0 <= i < |gids| ==> gids[i] in grants
      modifies this`ndrs, this`queued, this`held
      ensures State() == ResolveAll(old(State()), gids, reason)
      ensures old(ndrs).Keys <= ndrs.Keys && count == |ndrs.Keys - old(ndrs).Keys|
    {
      ghost var s := State();
      count := 0;
      for i := 0 to |gids|
        invariant grants == s.grants
        invariant ResolveAll(State(), gids[i..], reason) == ResolveAll(s, gids, reason)
        invariant s.ndrs.Keys <= ndrs.Keys && count == |ndrs.Keys - s.ndrs.Keys|
      {
        ghost var before := State();
        var written := ResolveRevokedRows(gids[i], reason);
        TailUnfolds(before, gids, i, reason);
        KeysAddUp(s.ndrs.Keys, before.ndrs.Keys, ndrs.Keys);
        count := count + written;
      }
    }

    // ----- reservations -------------------------------------------------------------------

    method ReserveDispatch(g: string, m: string, newId: string) returns (reply: ReserveReply)
      requires Valid()
      modifies this
      ensures Valid() && (State(), reply) == AuthorityState.ReserveDispatch(old(State()), g, m, newId)
    {
      ReserveKeepsInv(State(), g, m, newId);
      if g !in grants || grants[g].state != OK || grants[g].tombstone != None {
        return ReserveDenied;
      }
      if m in resOf {
        return Reserve(resOf[m]);
      }
      if newId in reservations {
        return ReserveFailed;
      }
      var gen := grants[g].generation;
      if m in holds && holds[m] == Hold(g, gen, None) && m in outbox && outbox[m] == Outbox(g, gen, Held)
         && m in held && held[m] == Binding(g, gen) && m !in ndrs {
        holds := holds[m := Hold(g, gen, Some(newId))];
      }
      reservations := reservations[newId := Reservation(g, gen, m, OK, Reserved, 0)];
      resOf := resOf[m := newId];
      return Reserve(newId);
    }

    method ReconcileInflight(res: string) returns (stage: Option<Lifecycle>)
      requires Valid()
      modifies this
      ensures Valid() && (State(), stage) == AuthorityState.ReconcileInflight(old(State()), res)
    {
      ReconcileKeepsInv(State(), res);
      if res !in reservations {
        return None;
      }
      var r := reservations[res];
      if r.state == Inflight {
        reservations := reservations[res := r.(state := FailedUnknown)];
        if r.msg in outbox && outbox[r.msg].state == At(Inflight) {
          outbox := outbox[r.msg := outbox[r.msg].(state := At(FailedUnknown))];
        }
        return Some(FailedUnknown);
      }
      return Some(r.state);
    }

    method ScheduleRetry(res: string) returns (stage: Option<Lifecycle>)
      requires Valid()
      modifies this
      ensures Valid() && (State(), stage) == AuthorityState.ScheduleRetry(old(State()), res)
    {
      ReconcileKeepsInv(State(), res);
      if res !in reservations || reservations[res].state != FailedUnknown {
        return None;
      }
      var r := reservations[res];
      reservations := reservations[res := r.(state := Retry)];
      if r.msg in outbox && outbox[r.msg].state == At(FailedUnknown) {
        outbox := outbox[r.msg := outbox[r.msg].(state := At(Retry))];
      }
      return Some(Retry);
    }

    method ReleaseReservation(res: string) returns (reply: Reply)
      requires Valid()
      modifies this
      ensures Valid() && (State(), reply) == AuthorityState.ReleaseReservation(old(State()), res)
    {
      ReconcileKeepsInv(State(), res);
      if res !in reservations || reservations[res].state == Sent {
        return Refused;
      }
      reservations := reservations[res := reservations[res].(state := Released)];
      return Done;
    }

    // ----- the action fence ---------------------------------------------------------------

    method HoldWithConnection(m: string, g: string, gen: nat)
      modifies this`holds, this`outbox, this`held
      ensures State() == HoldRow(old(State()), m, g, gen)
    {
      holds := holds - {m};
      outbox := outbox[m := Outbox(g, gen, Held)];
      held := held[m := Binding(g, gen)];
    }

    /** The decision at a grant that is not OK: refuse read-only, or hold the message. */
    method HoldAtClosed(g: string, m: string, supplied: Option<string>) returns (verdict: Verdict)
      modifies this`holds, this`outbox, this`held
      ensures (State(), verdict) == DecideClosed(old(State()), g, m, supplied)
    {
      var gen := if g in grants then grants[g].generation else 0;
      var reservation := if m in resOf then Some(resOf[m]) else None;
      if m in outbox {
        var backed;
        if outbox[m].state == Held {
          backed := m in holds && holds[m].grant == g && holds[m].generation == gen && holds[m].res == reservation;
        } else {
          backed := m in resOf && resOf[m] in reservations && At(reservations[resOf[m]].state) == outbox[m].state;
        }
        if !backed {
          return HeldBack;
        }
      }
      if m in resOf {
        if resOf[m] !in reservations {
          return HeldBack;
        }
        var r := reservations[resOf[m]];
        if r.grant != g || r.generation != gen || r.snapshot != OK || !Live(r.state)
           || (supplied != None && supplied != reservation) {
          return HeldBack;
        }
      } else if supplied != None {
        return HeldBack;
      }
      if g !in grants {
        return Failed;
      }
      HoldWithConnection(m, g, gen);
      if grants[g].tombstone == None && grants[g].state == SUSPECT {
        holds := holds[m := Hold(g, gen, reservation)];
      }
      return HeldBack;
    }

    /** The lineage is consumed and the attempt recorded before any wire byte. */
    method PersistInflight(m: string, res: string)
      requires res in reservations
      modifies this`holds, this`reservations, this`outbox
      ensures State() == Dispatched(old(State()), m, res)
    {
      var r := reservations[res];
      holds := holds - {m};
      reservations := reservations[res := r.(state := Inflight, attempts := r.attempts + 1)];
      outbox := outbox[m := if m in outbox then outbox[m].(state := At(Inflight))
                            else Outbox(r.grant, r.generation, At(Inflight))];
    }

    method Rollback(savedReservations: map<string, Reservation>, savedResOf: map<string, string>)
      modifies this`reservations, this`resOf
      ensures State() == old(State()).(reservations := savedReservations, resOf := savedResOf)
    {
      reservations, resOf := savedReservations, savedResOf;
    }

    /** The decision for a named reservation; a direct call passes the rows to roll back to. */
    method DispatchNamed(g: string, m: string, res: string, ghost s0: Store,
                         savedReservations: map<string, Reservation>, savedResOf: map<string, string>)
      returns (verdict: Verdict)
      requires g in grants
      requires s0 == State().(reservations := savedReservations, resOf := savedResOf)
      modifies this
      ensures (State(), verdict) == DecideNamed(s0, old(State()), g, m, res)
    {
      var gen := grants[g].generation;
      if res !in reservations {
        HoldWithConnection(m, g, gen);
        return HeldBack;
      }
      var r := reservations[res];
      if r.grant != g || r.msg != m || r.generation != gen || r.snapshot != OK {
        HoldWithConnection(m, g, gen);
        return HeldBack;
      }
      if r.state == Sent {
        Rollback(savedReservations, savedResOf);
        return AlreadySent;
      }
      if r.state == Released {
        HoldWithConnection(m, g, gen);
        return HeldBack;
      }
      if r.state == Inflight || r.state == FailedUnknown {
        Rollback(savedReservations, savedResOf);
        return Uncertain;
      }
      if m in outbox && outbox[m].state != At(r.state) && outbox[m].state != Held {
        Rollback(savedReservations, savedResOf);
        return HeldBack;
      }
      PersistInflight(m, res);
      return Handoff(res);
    }

    method DispatchAtOpen(g: string, m: string, supplied: Option<string>, newId: string) returns (verdict: Verdict)
      requires Open(State(), g)
      modifies this
      ensures (State(), verdict) == DecideOpen(old(State()), g, m, supplied, newId)
    {
      ghost var s := State();
      var savedReservations, savedResOf := reservations, resOf;
      var res;
      if supplied != None {
        res := supplied.value;
      } else if m in resOf {
        res := resOf[m];
      } else {
        if newId in reservations {
          return Failed;
        }
        res := newId;
        reservations := reservations[res := Reservation(g, grants[g].generation, m, OK, Reserved, 0)];
        resOf := resOf[m := res];
        assert State() == WithReservation(s, newId, FreshReservation(s, g, m));
      }
      verdict := DispatchNamed(g, m, res, s, savedReservations, savedResOf);
    }

    /** Everything an action commits before the transport is called. */
    method ActionFence(g: string, m: string, supplied: Option<string>, newId: string, now: real)
      returns (verdict: Verdict)
      requires Valid()
      modifies this
      ensures Valid() && (State(), verdict) == Fence(cap, old(State()), g, m, supplied, newId, now)
    {
      EnforceCapInTransaction(g, now);
      DecideKeepsInv(State(), g, m, supplied, newId);
      var gen := if g in grants then grants[g].generation else 0;
      if m in outbox && (outbox[m].grant != g || outbox[m].generation != gen) {
        return HeldBack;
      }
      if m in ndrs {
        return HeldBack;
      }
      if m in outbox && outbox[m].state == At(Sent) {
        return AlreadySent;
      }
      if m in outbox && outbox[m].state == At(Released) {
        return HeldBack;
      }
      if g !in grants || grants[g].state != OK || grants[g].tombstone != None {
        verdict := HoldAtClosed(g, m, supplied);
      } else {
        verdict := DispatchAtOpen(g, m, supplied, newId);
      }
    }

    /** The commit after the transport returned or raised. */
    method RecordOutcome(m: string, res: string, outcome: Outcome)
      requires Valid() && InCall(State(), Call(m, res))
      modifies this
      ensures Valid() && State() == Record(old(State()), m, res, outcome)
    {
      RecordKeepsInv(State(), Call(m, res), outcome);
      match outcome {
        case Accepted =>
          reservations := reservations[res := reservations[res].(state := Sent)];
          outbox := outbox[m := outbox[m].(state := At(Sent))];
          held := held - {m};
        case Rejected =>
          reservations := reservations[res := reservations[res].(state := Released)];
          outbox := outbox[m := outbox[m].(state := At(Released))];
        case Unknown =>
          reservations := reservations[res := reservations[res].(state := FailedUnknown)];
          outbox := outbox[m := outbox[m].(state := At(FailedUnknown))];
      }
    }

    /** One uncrashed action; `outcome` is what the transport would do if it is called. */
    method Action(g: string, m: string, supplied: Option<string>, newId: string, now: real, outcome: Outcome)
      returns (verdict: Verdict)
      requires Valid()
      modifies this
      ensures Valid()
      ensures var (s, v) := Fence(cap, old(State()), g, m, supplied, newId, now);
        verdict == v && State() == if v.Handoff? then Record(s, m, v.res, outcome) else s
    {
      ghost var s := State();
      verdict := ActionFence(g, m, supplied, newId, now);
      if verdict.Handoff? {
        EnforceCapKeepsInv(cap, s, g, now);
        HandoffShape(EnforceCap(cap, s, g, now), g, m, supplied, newId);
        RecordOutcome(m, verdict.res, outcome);
      }
    }
  }
}
