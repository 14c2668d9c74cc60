/** No message disappears in a cap or a revocation: every stranded one ends with exactly one NDR. */
module AuthorityConservation {
  import opened Wrappers
  import opened AuthorityState
  import opened AuthoritySafety

  /** `ndrs` grew by exactly the stranded messages that had none, each with the given record. */
  ghost predicate NdrsGrewBy(s: Store, t: Store, stranded: set<string>, ndr: Ndr) {
    && t.ndrs.Keys == s.ndrs.Keys + stranded
    && (forall m :: m in s.ndrs ==> t.ndrs[m] == s.ndrs[m])
    && (forall m :: m in stranded && m !in s.ndrs ==> t.ndrs[m] == ndr)
  }

  ghost predicate NoneLive(t: Store, g: string, stranded: set<string>) {
    forall m :: m in stranded && m in t.resOf ==>
      t.resOf[m] in t.reservations
      && (t.reservations[t.resOf[m]].grant != g
          || t.reservations[t.resOf[m]].state == Sent || t.reservations[t.resOf[m]].state == Released)
  }

  /** The message has a queued or held row of the grant. */
  predicate Waits(s: Store, m: string, g: string) {
    (m in s.queued && s.queued[m].grant == g) || (m in s.held && s.held[m].grant == g)
  }

  /** Grant `g` has nothing pending any more; every other grant has what it had. */
  ghost predicate OnlyCleared(s: Store, t: Store, g: string) {
    && Stranded(t, g) == {}
    && forall h :: h != g ==> Stranded(t, h) == Stranded(s, h)
  }

  lemma EdgeKeepsStranded(s: Store, g: string, grant: Grant, h: string)
    requires g in s.grants
    ensures Stranded(Edge(s, g, grant), h) == Stranded(s, h)
  {
    assert forall m :: m in Edge(s, g, grant).held ==> Edge(s, g, grant).held[m].grant == s.held[m].grant;
  }

  lemma ResolveCappedConserves(s: Store, g: string, prev: nat)
    requires Inv(s) && g in s.grants && s.grants[g].generation == prev + 1 && s.grants[g].state == CAPPED
    ensures var t := ResolveCapped(s, g, prev, prev + 1);
      && OnlyCleared(s, t, g) && NoneLive(t, g, Stranded(s, g))
      && NdrsGrewBy(s, t, Stranded(s, g), Ndr(g, prev + 1, CapReason, CapDetail))
      && t.grants == s.grants
  {
    var t := ResolveCapped(s, g, prev, prev + 1);
    forall m | m in Stranded(s, g) && m in t.resOf
      ensures t.resOf[m] in t.reservations
              && (t.reservations[t.resOf[m]].grant != g
                  || t.reservations[t.resOf[m]].state == Sent || t.reservations[t.resOf[m]].state == Released)
    {
      assert AgreementOk(s, m) && ReservationOk(s, s.resOf[m]);
    }
  }

  lemma ConservedFrom(s: Store, s1: Store, t: Store, g: string, stranded: set<string>, ndr: Ndr)
    requires s1.ndrs == s.ndrs && forall h :: Stranded(s1, h) == Stranded(s, h)
    requires stranded == Stranded(s, g)
    requires OnlyCleared(s1, t, g) && NdrsGrewBy(s1, t, stranded, ndr)
    ensures OnlyCleared(s, t, g) && NdrsGrewBy(s, t, stranded, ndr)
    ensures t.ndrs.Keys - s.ndrs.Keys == stranded - s.ndrs.Keys
  {
  }

  lemma CappedConserves(s: Store, g: string)
    requires Inv(s) && g in s.grants && !Terminal(s.grants[g])
    ensures var t := Capped(s, g);
      && OnlyCleared(s, t, g) && NoneLive(t, g, Stranded(s, g))
      && NdrsGrewBy(s, t, Stranded(s, g), Ndr(g, s.grants[g].generation + 1, CapReason, CapDetail))
      && CapResolved(s, g) == Stranded(s, g) - s.ndrs.Keys
      && t.grants == s.grants[g := CapRow(s.grants[g])]
  {
    var row := s.grants[g];
    var s1 := Edge(s, g, CapRow(row));
    var t := ResolveCapped(s1, g, row.generation, row.generation + 1);
    assert Capped(s, g) == t;
    EdgeKeepsInv(s, g, CapRow(row));
    forall h ensures Stranded(s1, h) == Stranded(s, h) {
      EdgeKeepsStranded(s, g, CapRow(row), h);
    }
    ResolveCappedConserves(s1, g, row.generation);
    ConservedFrom(s, s1, t, g, Stranded(s, g), Ndr(g, row.generation + 1, CapReason, CapDetail));
  }

  lemma ClearedWaits(s: Store, t: Store, g: string)
    requires OnlyCleared(s, t, g)
    ensures forall m, h :: Waits(t, m, h) <==> h != g && Waits(s, m, h)
  {
    forall m, h ensures Waits(t, m, h) <==> h != g && Waits(s, m, h) {
      assert Waits(t, m, h) <==> m in Stranded(t, h);
      assert Waits(s, m, h) <==> m in Stranded(s, h);
    }
  }

  /**
  A cap leaves no queued or held row of the grant, gives every message that had one exactly one NDR,
  leaves none of them with a live reservation on that grant, and touches no other grant's rows.
  */
  lemma CapConserves(s: Store, g: string)
    requires Inv(s) && g in s.grants && s.grants[g].state != REVOKED && s.grants[g].tombstone == None
    ensures var t := Capped(s, g);
      && (forall m, h :: Waits(t, m, h) <==> h != g && Waits(s, m, h))
      && NoneLive(t, g, Stranded(s, g)) && (forall m :: m in Stranded(s, g) <==> Waits(s, m, g))
      && NdrsGrewBy(s, t, Stranded(s, g), Ndr(g, s.grants[g].generation + 1, "partition_cap", "partition cap executed"))
      && CapResolved(s, g) == Stranded(s, g) - s.ndrs.Keys
      && t.grants == s.grants[g := s.grants[g].(generation := s.grants[g].generation + 1, state := CAPPED)]
  {
    CappedConserves(s, g);
    ClearedWaits(s, Capped(s, g), g);
  }

  // ----- revocation batches ---------------------------------------------------------------

  function StrandedAll(s: Store, gids: seq<string>): set<string>
    decreases |gids|
  {
    if gids == [] then {} else Stranded(s, gids[0]) + StrandedAll(s, gids[1..])
  }

  lemma {:induction false} StrandedAllMember(s: Store, gids: seq<string>, m: string)
    ensures m in StrandedAll(s, gids) <==> exists i :: 0 <= i < |gids| && m in Stranded(s, gids[i])
    decreases |gids|
  {
    if gids != [] {
      StrandedAllMember(s, gids[1..], m);
      if m in StrandedAll(s, gids[1..]) {
        var i :| 0 <= i < |gids[1..]| && m in Stranded(s, gids[1..][i]);
        assert gids[i + 1] == gids[1..][i];
      }
      if i :| 0 <= i < |gids| && m in Stranded(s, gids[i]) {
        assert i > 0 ==> gids[1..][i - 1] == gids[i];
      }
    }
  }

  /** Each new NDR names a revoked grant that had the message, at its tombstone generation. */
  ghost predicate RevokedBy(s: Store, gids: seq<string>, reason: string, m: string, ndr: Ndr) {
    exists i :: 0 <= i < |gids| && gids[i] in s.grants && m in Stranded(s, gids[i])
                && ndr == Ndr(gids[i], s.grants[gids[i]].generation, RevokeReason, RevokeDetail(reason))
  }

  ghost predicate AllRevokedBy(s: Store, t: Store, gids: seq<string>, reason: string) {
    forall m :: m in t.ndrs && m !in s.ndrs ==> RevokedBy(s, gids, reason, m, t.ndrs[m])
  }

  ghost predicate NdrsKept(s: Store, t: Store) {
    forall m :: m in s.ndrs ==> m in t.ndrs && t.ndrs[m] == s.ndrs[m]
  }

  ghost predicate AllCleared(s: Store, t: Store, gids: seq<string>) {
    forall h :: Stranded(t, h) == if h in gids then {} else Stranded(s, h)
  }

  lemma DropsOneGrant(s: Store, g: string, reason: string)
    requires g in s.grants
    ensures var t := ResolveRevoked(s, g, reason);
      && OnlyCleared(s, t, g) && t.grants == s.grants && t.nonces == s.nonces
      && NdrsGrewBy(s, t, Stranded(s, g), Ndr(g, s.grants[g].generation, RevokeReason, RevokeDetail(reason)))
  {
  }

  /** NDRs written for the tail of a batch are as good for the whole batch. */
  lemma RevokedByTail(s: Store, s1: Store, t: Store, gids: seq<string>, reason: string)
    requires gids != [] && gids[0] in s.grants && s1.grants == s.grants && OnlyCleared(s, s1, gids[0])
    requires NdrsGrewBy(s, s1, Stranded(s, gids[0]),
                        Ndr(gids[0], s.grants[gids[0]].generation, RevokeReason, RevokeDetail(reason)))
    requires NdrsKept(s1, t) && AllRevokedBy(s1, t, gids[1..], reason)
    ensures AllRevokedBy(s, t, gids, reason)
  {
    forall m | m in t.ndrs && m !in s.ndrs ensures RevokedBy(s, gids, reason, m, t.ndrs[m]) {
      if m in s1.ndrs {
        assert m in Stranded(s, gids[0]);
      } else {
        assert RevokedBy(s1, gids[1..], reason, m, t.ndrs[m]);
        var i :| 0 <= i < |gids[1..]| && gids[1..][i] in s1.grants && m in Stranded(s1, gids[1..][i])
          && t.ndrs[m] == Ndr(gids[1..][i], s1.grants[gids[1..][i]].generation, RevokeReason, RevokeDetail(reason));
        assert gids[i + 1] == gids[1..][i];
        assert m in Stranded(s, gids[i + 1]);
      }
    }
  }

  lemma OthersStranded(s: Store, t: Store, gids: seq<string>)
    requires gids != [] && Distinct(gids) && OnlyCleared(s, t, gids[0])
    ensures StrandedAll(s, gids) == Stranded(s, gids[0]) + StrandedAll(t, gids[1..])
  {
    forall m ensures m in StrandedAll(s, gids[1..]) <==> m in StrandedAll(t, gids[1..]) {
      StrandedAllMember(s, gids[1..], m);
      StrandedAllMember(t, gids[1..], m);
      assert forall i :: 0 <= i < |gids[1..]| ==> gids[1..][i] == gids[i + 1] != gids[0];
    }
  }

  /** What resolving the rows of a list of revoked grants amounts to. */
  ghost predicate Resolved(s: Store, t: Store, gids: seq<string>, reason: string) {
    && t.ndrs.Keys == s.ndrs.Keys + StrandedAll(s, gids)
    && NdrsKept(s, t) && AllRevokedBy(s, t, gids, reason) && AllCleared(s, t, gids)
    && t.nonces == s.nonces && t.grants == s.grants
  }

  lemma ResolvedHeadTail(s: Store, s1: Store, t: Store, gids: seq<string>, reason: string)
    requires gids != [] && Distinct(gids) && gids[0] in s.grants
    requires s1.grants == s.grants && s1.nonces == s.nonces && OnlyCleared(s, s1, gids[0])
    requires NdrsGrewBy(s, s1, Stranded(s, gids[0]),
                        Ndr(gids[0], s.grants[gids[0]].generation, RevokeReason, RevokeDetail(reason)))
    requires Resolved(s1, t, gids[1..], reason)
    ensures Resolved(s, t, gids, reason)
  {
    OthersStranded(s, s1, gids);
    RevokedByTail(s, s1, t, gids, reason);
    forall h ensures Stranded(t, h) == if h in gids then {} else Stranded(s, h) {
      assert gids == [gids[0]] + gids[1..];
      assert h in gids <==> h == gids[0] || h in gids[1..];
    }
  }

  lemma {:induction false} ResolveAllConserves(s: Store, gids: seq<string>, reason: string)
    requires Distinct(gids) && forall i :: 0 <= i < |gids| ==> gids[i] in s.grants
    ensures Resolved(s, ResolveAll(s, gids, reason), gids, reason)
    decreases |gids|
  {
    if gids != [] {
      var s1 := ResolveRevoked(s, gids[0], reason);
      DropsOneGrant(s, gids[0], reason);
      ResolveAllConserves(s1, gids[1..], reason);
      ResolvedHeadTail(s, s1, ResolveAll(s1, gids[1..], reason), gids, reason);
    }
  }

  /** The record of one revoked grant that had the message: at the generation that the tombstone gives it. */
  ghost predicate NamesRevoked(s: Store, gids: seq<string>, reason: string, m: string, ndr: Ndr) {
    exists i :: 0 <= i < |gids| && gids[i] in s.grants && Waits(s, m, gids[i])
                && ndr == Ndr(gids[i], s.grants[gids[i]].generation + 1, "rejected_consent", "tombstone: " + reason)
  }

  lemma RevokedIsNamed(s: Store, gids: seq<string>, reason: string, m: string, ndr: Ndr)
    requires RevokedBy(TombstoneAll(s, gids, reason), gids, reason, m, ndr)
    ensures NamesRevoked(s, gids, reason, m, ndr)
  {
    var s0 := TombstoneAll(s, gids, reason);
    var i :| 0 <= i < |gids| && gids[i] in s0.grants && m in Stranded(s0, gids[i])
      && ndr == Ndr(gids[i], s0.grants[gids[i]].generation, RevokeReason, RevokeDetail(reason));
    assert Waits(s, m, gids[i]);
  }

  /**
  A committed revocation consumes its nonce, revokes each of its grants one generation up and no other,
  leaves them no queued or held row, and gives every message that had one exactly one NDR naming a revoked
  grant it was under.
  */
  lemma RevokeConserves(s: Store, nonce: string, gids: seq<string>, reason: string)
    requires RevokeBatch(s, nonce, gids, reason).1.RevokeDone?
    ensures var (t, reply) := RevokeBatch(s, nonce, gids, reason);
      && nonce !in s.nonces && t.nonces == s.nonces + {nonce} && t.grants.Keys == s.grants.Keys
      && (forall g :: g in s.grants && g !in gids ==> t.grants[g] == s.grants[g])
      && (forall g :: g in gids ==>
            g in s.grants && t.grants[g] == Grant(s.grants[g].generation + 1, REVOKED, Some(reason), s.grants[g].watermark))
      && NdrsKept(s, t)
      && (forall m :: m in t.ndrs && m !in s.ndrs ==> NamesRevoked(s, gids, reason, m, t.ndrs[m]))
    ensures var t := RevokeBatch(s, nonce, gids, reason).0;
      && (forall m, h :: Waits(t, m, h) <==> h !in gids && Waits(s, m, h))
      && (forall m, h :: h in gids && Waits(s, m, h) ==> m in t.ndrs)
    ensures var (t, reply) := RevokeBatch(s, nonce, gids, reason);
      reply == RevokeDone(|gids|, |t.ndrs.Keys - s.ndrs.Keys|)
  {
    var s0 := TombstoneAll(s, gids, reason);
    var s1 := s0.(nonces := s.nonces + {nonce});
    var t := ResolveAll(s1, gids, reason);
    assert RevokeBatch(s, nonce, gids, reason) == (t, RevokeDone(|gids|, |t.ndrs.Keys - s.ndrs.Keys|));
    ResolveAllConserves(s1, gids, reason);
    ResolvedFromStart(s, s0, s1, t, gids, reason);
    forall m | m in t.ndrs && m !in s.ndrs ensures NamesRevoked(s, gids, reason, m, t.ndrs[m]) {
      assert RevokedBy(s0, gids, reason, m, t.ndrs[m]);
      RevokedIsNamed(s, gids, reason, m, t.ndrs[m]);
    }
    WaitsAreStranded(s, t, gids);
  }

  lemma WaitsAreStranded(s: Store, t: Store, gids: seq<string>)
    requires AllCleared(s, t, gids) && t.ndrs.Keys == s.ndrs.Keys + StrandedAll(s, gids)
    ensures forall m, h :: Waits(t, m, h) <==> h !in gids && Waits(s, m, h)
    ensures forall m, h :: h in gids && Waits(s, m, h) ==> m in t.ndrs
  {
    forall m, h ensures Waits(t, m, h) <==> h !in gids && Waits(s, m, h) {
      assert Waits(t, m, h) <==> m in Stranded(t, h);
      assert Waits(s, m, h) <==> m in Stranded(s, h);
    }
    forall m, h | h in gids && Waits(s, m, h) ensures m in t.ndrs {
      var i :| 0 <= i < |gids| && gids[i] == h;
      assert m in Stranded(s, gids[i]);
      StrandedAllMember(s, gids, m);
    }
  }

  lemma ResolvedFromStart(s: Store, s0: Store, s1: Store, t: Store, gids: seq<string>, reason: string)
    requires s0 == s.(grants := s0.grants) && s1 == s0.(nonces := s1.nonces) && Resolved(s1, t, gids, reason)
    ensures t.ndrs.Keys == s.ndrs.Keys + StrandedAll(s, gids)
    ensures t.ndrs.Keys - s.ndrs.Keys == StrandedAll(s, gids) - s.ndrs.Keys
    ensures NdrsKept(s, t) && AllCleared(s, t, gids) && AllRevokedBy(s0, t, gids, reason)
  {
    SameStranded(s, s1, gids);
    SameRevoker(s0, s1, t, gids, reason);
  }

  lemma SameRevoker(s: Store, s1: Store, t: Store, gids: seq<string>, reason: string)
    requires s1 == s.(nonces := s1.nonces) && AllRevokedBy(s1, t, gids, reason)
    ensures AllRevokedBy(s, t, gids, reason)
  {
    forall m | m in t.ndrs && m !in s.ndrs ensures RevokedBy(s, gids, reason, m, t.ndrs[m]) {
      assert RevokedBy(s1, gids, reason, m, t.ndrs[m]);
      var i :| 0 <= i < |gids| && gids[i] in s1.grants && m in Stranded(s1, gids[i])
        && t.ndrs[m] == Ndr(gids[i], s1.grants[gids[i]].generation, RevokeReason, RevokeDetail(reason));
      assert m in Stranded(s, gids[i]);
    }
  }

  lemma {:induction false} SameStranded(s: Store, t: Store, gids: seq<string>)
    requires t.queued == s.queued && t.held == s.held
    ensures StrandedAll(t, gids) == StrandedAll(s, gids)
    ensures forall h :: Stranded(t, h) == Stranded(s, h)
    decreases |gids|
  {
    if gids != [] {
      SameStranded(s, t, gids[1..]);
    }
  }
}
