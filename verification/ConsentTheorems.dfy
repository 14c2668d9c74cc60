/** The promises of the consent protocol and the mailbox, over every run of the relay. */
module ConsentTheorems {
  import opened Wrappers
  import opened ConsentState
  import opened ConsentSafety
  import opened ConsentRuns

  // ----- runs -----------------------------------------------------------------------------

  lemma {:induction false} RunLast(expiry: real, s: Relay, ops: seq<Op>)
    requires ops != []
    ensures Run(expiry, s, ops) == Step(expiry, Run(expiry, s, ops[..|ops| - 1]), ops[|ops| - 1])
    decreases |ops|
  {
    if |ops| == 1 {
      assert Run(expiry, s, ops) == Run(expiry, Step(expiry, s, ops[0]), ops[1..]);
    } else {
      RunLast(expiry, Step(expiry, s, ops[0]), ops[1..]);
      assert ops[1..][..|ops| - 2] == ops[..|ops| - 1][1..];
    }
  }

  // ----- encryption slots -----------------------------------------------------------------

  /** `who` mints the link `l` and says in it that it can encrypt. */
  predicate MintsCapable(op: Op, who: string, l: string) {
    op.DoMint? && op.who == who && op.id == l && (op.says == Some(true) || (op.says == None && op.kind.Short?))
  }

  /** `who` says so about this pair at this generation. */
  predicate SaysSo(op: Op, who: string, k: Pair, generation: nat) {
    match op
    case DoAccept(pair, g, me, says, _) => me == who && pair == k && g == generation && says == Some(true)
    case DoAdvertise(pair, g, me, says) => me == who && pair == k && g == generation && says == Some(true)
    case _ => false
  }

  /** A capable link that `who` minted is redeemed by the other party, leaving the pair at this generation. */
  predicate AppliesLink(expiry: real, s: Relay, op: Op, who: string, k: Pair, generation: nat) {
    && op.DoRedeem? && op.q.link in s.invites && k == PairOf(who, op.q.redeemer)
    && s.invites[op.q.link].inviter == who && s.invites[op.q.link].encrypts
    && k in Step(expiry, s, op).rows && Step(expiry, s, op).rows[k].generation == generation
  }

  lemma PairedVouchesNothing(s: Relay, k: Pair, i: Invite, q: Redemption, expiry: real, now: real)
    requires q.link in s.invites
    ensures var r := Paired(s, k, i, q, expiry, now); r.Some? ==>
      && r.value.spoke == s.spoke && r.value.invites.Keys == s.invites.Keys
      && k in r.value.rows && r.value.rows[k].generation == NextGeneration(s, k, i, q)
  {
    if (q.link, k) !in s.killed && k in s.rows && Idempotent(i, q, s.rows[k], now) {
      assert Upgraded(s, k, i).invites == s.invites;
    }
  }

  lemma RedeemSpeaks(expiry: real, s: Relay, q: Redemption, now: real, who: string, k: Pair, generation: nat)
    ensures var t := Redeem(s, q, expiry, now);
      && t.invites.Keys == s.invites.Keys
      && (Advert(who, k, generation) in t.spoke && Advert(who, k, generation) !in s.spoke ==>
            && q.link in s.invites && s.invites[q.link].inviter == who && s.invites[q.link].encrypts
            && k == PairOf(who, q.redeemer) && k in t.rows && t.rows[k].generation == generation)
  {
    if q.link in s.invites {
      var i := s.invites[q.link];
      var x := PairOf(i.inviter, q.redeemer);
      var c := Claimed(s, q);
      assert c.invites.Keys == s.invites.Keys && c.spoke == s.spoke && c.rows == s.rows;
      var h := Heard(c, x, i, q);
      assert h == c.(spoke := h.spoke) && NextGeneration(h, x, i, q) == NextGeneration(c, x, i, q);
      PairedVouchesNothing(h, x, i, q, expiry, now);
    }
  }

  lemma AcceptSpeaks(s: Relay, k: Pair, generation: nat, me: string, says: Option<bool>, now: real)
    ensures var t := Accept(s, k, generation, me, says, now);
      t.spoke == Said(s, me, k, generation, says).spoke && t.invites == s.invites
  {
  }

  lemma AdvertiseSpeaks(s: Relay, k: Pair, generation: nat, me: string, says: Option<bool>)
    ensures var t := Advertise(s, k, generation, me, says);
      t.spoke == Said(s, me, k, generation, says).spoke && t.invites == s.invites
  {
  }

  lemma StepSpeaks(expiry: real, s: Relay, op: Op, who: string, k: Pair, generation: nat)
    requires Vouched(Step(expiry, s, op), who, k, generation)
    ensures Vouched(s, who, k, generation) || SaysSo(op, who, k, generation) || AppliesLink(expiry, s, op, who, k, generation)
  {
    match op
    case DoRedeem(q, now) => RedeemSpeaks(expiry, s, q, InLock(s, now), who, k, generation);
    case DoAccept(x, g, me, says, now) => AcceptSpeaks(s, x, g, me, says, InLock(s, now));
    case DoAdvertise(x, g, me, says) => AdvertiseSpeaks(s, x, g, me, says);
    case _ => assert Step(expiry, s, op).spoke == s.spoke;
  }

  lemma StepMints(expiry: real, s: Relay, op: Op, l: string)
    requires l in Step(expiry, s, op).invites && l !in s.invites && Step(expiry, s, op).invites[l].encrypts
    ensures MintsCapable(op, Step(expiry, s, op).invites[l].inviter, l)
  {
    match op
    case DoMint(_, _, _, _, _, _, _, _) =>
    case DoRedeem(q, now) => RedeemSpeaks(expiry, s, q, InLock(s, now), "", Pair("", ""), 0);
    case DoAccept(x, g, me, says, now) => AcceptSpeaks(s, x, g, me, says, InLock(s, now));
    case DoAdvertise(x, g, me, says) => AdvertiseSpeaks(s, x, g, me, says);
    case _ =>
  }

  predicate MintedIn(ops: seq<Op>, who: string, l: string) {
    exists i :: 0 <= i < |ops| && MintsCapable(ops[i], who, l)
  }

  /** Nobody has advertised anything yet. */
  predicate Silent(s: Relay) {
    s.spoke == {} && forall l :: l in s.invites ==> !s.invites[l].encrypts
  }

  /** A capable link was minted as one, by its inviter. */
  lemma {:induction false} CapableLinksWereMinted(expiry: real, s: Relay, ops: seq<Op>, l: string)
    requires Inv(s) && Silent(s) && l in Run(expiry, s, ops).invites && Run(expiry, s, ops).invites[l].encrypts
    ensures MintedIn(ops, Run(expiry, s, ops).invites[l].inviter, l)
    decreases |ops|
  {
    if ops != [] {
      var last := |ops| - 1;
      var t := Run(expiry, s, ops[..last]);
      RunLast(expiry, s, ops);
      RunKeepsInv(expiry, s, ops[..last]);
      StepKeepsInv(expiry, t, ops[last]);
      if l in t.invites {
        assert LinkKept(t.invites[l], Step(expiry, t, ops[last]).invites[l]);
        CapableLinksWereMinted(expiry, s, ops[..last], l);
        var i :| 0 <= i < last && MintsCapable(ops[..last][i], t.invites[l].inviter, l);
        assert MintsCapable(ops[i], t.invites[l].inviter, l);
      } else {
        StepMints(expiry, t, ops[last], l);
      }
    }
  }

  /** Step `j` is where `who` said so: itself, or through a link it had minted capable before. */
  ghost predicate SaidAt(expiry: real, s: Relay, ops: seq<Op>, j: int, who: string, k: Pair, generation: nat) {
    && 0 <= j < |ops|
    && (SaysSo(ops[j], who, k, generation)
        || (AppliesLink(expiry, Run(expiry, s, ops[..j]), ops[j], who, k, generation)
            && MintedIn(ops[..j], who, ops[j].q.link)))
  }

  ghost predicate SaidIn(expiry: real, s: Relay, ops: seq<Op>, who: string, k: Pair, generation: nat) {
    exists j :: SaidAt(expiry, s, ops, j, who, k, generation)
  }

  lemma {:induction false} RunSpeaks(expiry: real, s: Relay, ops: seq<Op>, who: string, k: Pair, generation: nat)
    requires Inv(s) && Silent(s) && Vouched(Run(expiry, s, ops), who, k, generation)
    ensures SaidIn(expiry, s, ops, who, k, generation)
    decreases |ops|
  {
    if ops != [] {
      var last := |ops| - 1;
      var t := Run(expiry, s, ops[..last]);
      RunLast(expiry, s, ops);
      RunKeepsInv(expiry, s, ops[..last]);
      StepSpeaks(expiry, t, ops[last], who, k, generation);
      if SaysSo(ops[last], who, k, generation) {
        assert SaidAt(expiry, s, ops, last, who, k, generation);
      } else if AppliesLink(expiry, t, ops[last], who, k, generation) {
        CapableLinksWereMinted(expiry, s, ops[..last], ops[last].q.link);
        assert SaidAt(expiry, s, ops, last, who, k, generation);
      } else {
        RunSpeaks(expiry, s, ops[..last], who, k, generation);
        var j :| SaidAt(expiry, s, ops[..last], j, who, k, generation);
        assert ops[..last][..j] == ops[..j] && ops[..last][j] == ops[j];
        assert SaidAt(expiry, s, ops, j, who, k, generation);
      }
    }
  }

  /**
  Capability is the conjunction of the slots, and a live slot holds what its owner itself said about this
  pair at its generation: in an accept, in an advertisement, or in a link that this pair then redeemed.
  */
  lemma SlotsBelongToTheirOwners(expiry: real, s: Relay, ops: seq<Op>, k: Pair)
    requires Inv(s) && Silent(s) && k in Run(expiry, s, ops).rows
    ensures var t := Run(expiry, s, ops); var row := t.rows[k]; var minter := MinterOf(t.invites, k, row);
      && (row.capable <==> row.minterSays && row.redeemerSays)
      && Party(k, minter)
      && (row.status != Revoked && row.minterSays ==> SaidIn(expiry, s, ops, minter, k, row.generation))
      && (row.status != Revoked && row.redeemerSays ==> SaidIn(expiry, s, ops, Other(k, minter), k, row.generation))
  {
    var t := Run(expiry, s, ops);
    RunKeepsInv(expiry, s, ops);
    assert RowInv(t, k);
    var row := t.rows[k];
    var minter := MinterOf(t.invites, k, row);
    MinterIsParty(t, k);
    if row.status != Revoked && row.minterSays {
      RunSpeaks(expiry, s, ops, minter, k, row.generation);
    }
    if row.status != Revoked && row.redeemerSays {
      RunSpeaks(expiry, s, ops, Other(k, minter), k, row.generation);
    }
  }

  // ----- activation -----------------------------------------------------------------------

  /** Only the recorded redeemer's accept, at the current generation and over the other party's link, activates. */
  lemma ActivationNeedsBothConsents(expiry: real, s: Relay, op: Op, k: Pair)
    requires Inv(s) && k in Step(expiry, s, op).rows && Step(expiry, s, op).rows[k].status == Active
    requires !(k in s.rows && s.rows[k].status == Active)
    ensures op.DoAccept? && op.k == k && k in s.rows
    ensures var row := s.rows[k];
      && row.status == Pending && row.generation == op.generation && row.redeemer == Some(op.me)
      && row.pendingUntil.Some? && InLock(s, op.now) < row.pendingUntil.value
      && row.via.Some? && row.via.value in s.invites && (row.via.value, k) !in s.killed
      && var link := s.invites[row.via.value];
         && link.handshake && link.inviter == Other(k, op.me) && link.inviter != op.me
         && (link.target.Some? || link.short ==> !link.revoked && InLock(s, op.now) < link.expires)
  {
    StepMovesPair(expiry, s, op, k);
    assert PairMoves(expiry, s, Step(expiry, s, op), op, k);
    assert RowInv(s, k);
  }

  predicate RedeemedIn(ops: seq<Op>, redeemer: string, link: string) {
    exists i :: 0 <= i < |ops| && ops[i].DoRedeem? && ops[i].q.redeemer == redeemer && ops[i].q.link == link
  }

  lemma PairedPends(s: Relay, k: Pair, i: Invite, q: Redemption, expiry: real, now: real, x: Pair)
    requires q.link in s.invites
    ensures var r := Paired(s, k, i, q, expiry, now); r.Some? && x in r.value.rows && r.value.rows[x].status == Pending ==>
      || (x in s.rows && r.value.rows[x] == s.rows[x])
      || (r.value.rows[x].redeemer == Some(q.redeemer) && r.value.rows[x].via == Some(q.link))
  {
    if (q.link, k) !in s.killed && k in s.rows && Idempotent(i, q, s.rows[k], now) {
      assert Paired(s, k, i, q, expiry, now) == Some(Upgraded(s, k, i));
    } else {
      var row := Ceremonial(i, q, NextGeneration(s, k, i, q), expiry, now);
      assert row.redeemer == Some(q.redeemer) && row.via == Some(q.link);
    }
  }

  lemma RedeemPends(expiry: real, s: Relay, q: Redemption, now: real, k: Pair)
    requires k in Redeem(s, q, expiry, now).rows && Redeem(s, q, expiry, now).rows[k].status == Pending
    ensures var row := Redeem(s, q, expiry, now).rows[k];
      || (k in s.rows && s.rows[k] == row)
      || (row.redeemer == Some(q.redeemer) && row.via == Some(q.link))
  {
    if q.link in s.invites {
      var i := s.invites[q.link];
      var c := Claimed(s, q);
      assert c.rows == s.rows;
      var x := PairOf(i.inviter, q.redeemer);
      var h := Heard(c, x, i, q);
      assert h == c.(spoke := h.spoke);
      PairedPends(h, x, i, q, expiry, now, k);
    }
  }

  lemma AcceptPends(s: Relay, x: Pair, generation: nat, me: string, says: Option<bool>, now: real, k: Pair)
    ensures var t := Accept(s, x, generation, me, says, now);
      t.rows.Keys == s.rows.Keys && (k in s.rows ==> t.rows[k] == s.rows[k] || t.rows[k].status == Active)
  {
    var u := Said(s, me, x, generation, says).(clock := now);
    assert u.rows == s.rows;
  }

  lemma AdvertisePends(s: Relay, x: Pair, generation: nat, me: string, says: Option<bool>, k: Pair)
    ensures var t := Advertise(s, x, generation, me, says);
      t.rows.Keys == s.rows.Keys && (k in s.rows ==> t.rows[k] == s.rows[k] || t.rows[k].status == Active)
  {
    var u := Said(s, me, x, generation, says);
    assert u.rows == s.rows;
  }

  /** A pending row is either untouched or the work of this very redeem. */
  lemma StepPends(expiry: real, s: Relay, op: Op, k: Pair)
    requires k in Step(expiry, s, op).rows && Step(expiry, s, op).rows[k].status == Pending
    ensures var row := Step(expiry, s, op).rows[k];
      || (k in s.rows && s.rows[k] == row)
      || (op.DoRedeem? && row.redeemer == Some(op.q.redeemer) && row.via == Some(op.q.link))
  {
    match op
    case DoRedeem(q, now) => RedeemPends(expiry, s, q, InLock(s, now), k);
    case DoAccept(x, generation, me, says, now) => AcceptPends(s, x, generation, me, says, InLock(s, now), k);
    case DoAdvertise(x, generation, me, says) => AdvertisePends(s, x, generation, me, says, k);
    case DoRevoke(_, _, _) =>
    case DoSweep(_, _) => SweepMovesPair(expiry, s, op, k);
    case _ => RowsUntouched(expiry, s, op);
  }

  /** Whoever is recorded as the redeemer asked for it, over the recorded link. */
  lemma {:induction false} PendingWasRedeemed(expiry: real, s: Relay, ops: seq<Op>, k: Pair)
    requires k in Run(expiry, s, ops).rows && Run(expiry, s, ops).rows[k].status == Pending
    ensures var row := Run(expiry, s, ops).rows[k];
      || (k in s.rows && s.rows[k] == row)
      || (row.redeemer.Some? && row.via.Some? && RedeemedIn(ops, row.redeemer.value, row.via.value))
    decreases |ops|
  {
    if ops != [] {
      var last := |ops| - 1;
      RunLast(expiry, s, ops);
      var t := Run(expiry, s, ops[..last]);
      StepPends(expiry, t, ops[last], k);
      if k in t.rows && t.rows[k] == Run(expiry, s, ops).rows[k] {
        PendingWasRedeemed(expiry, s, ops[..last], k);
      }
    }
  }

  // ----- generations ----------------------------------------------------------------------

  lemma {:induction false} GenerationsNeverFall(expiry: real, s: Relay, ops: seq<Op>, k: Pair)
    requires k in s.rows
    ensures k in Run(expiry, s, ops).rows && s.rows[k].generation <= Run(expiry, s, ops).rows[k].generation
    decreases |ops|
  {
    if ops != [] {
      StepMovesPair(expiry, s, ops[0], k);
      assert PairMoves(expiry, s, Step(expiry, s, ops[0]), ops[0], k);
      GenerationsNeverFall(expiry, Step(expiry, s, ops[0]), ops[1..], k);
    }
  }

  /** The two ways a generation rises: a revoke of the pair, or a new ceremony over a pending one. */
  predicate Revokes(s: Relay, op: Op, k: Pair) {
    op.DoRevoke? && Revocable(s, op.x, op.y) && PairOf(s.peers[op.x], s.peers[op.y]) == k
  }

  predicate Supersedes(expiry: real, s: Relay, op: Op, k: Pair) {
    && op.DoRedeem? && op.q.link in s.invites && k in s.rows
    && PairOf(s.invites[op.q.link].inviter, op.q.redeemer) == k
    && Replaces(s.invites[op.q.link], op.q, s.rows[k])
    && TryRedeem(s, op.q, expiry, InLock(s, op.now)).Some?
  }

  lemma PairedSparesOthers(s: Relay, k: Pair, i: Invite, q: Redemption, expiry: real, now: real, x: Pair)
    requires q.link in s.invites && x != k
    ensures var r := Paired(s, k, i, q, expiry, now);
      r.Some? && x in s.rows ==> x in r.value.rows && r.value.rows[x] == s.rows[x]
  {
  }

  lemma RedeemRaisesExactly(expiry: real, s: Relay, q: Redemption, now: real, k: Pair)
    requires k in s.rows
    ensures k in Redeem(s, q, expiry, now).rows
    ensures s.clock <= now ==>
      (Redeem(s, q, expiry, now).rows[k].generation > s.rows[k].generation <==> Supersedes(expiry, s, DoRedeem(q, now), k))
  {
    if q.link in s.invites {
      var i := s.invites[q.link];
      var c := Claimed(s, q);
      assert c.rows == s.rows;
      var key := PairOf(i.inviter, q.redeemer);
      var h := Heard(c, key, i, q);
      assert h == c.(spoke := h.spoke);
      PairedVouchesNothing(h, key, i, q, expiry, now);
      if key != k {
        PairedSparesOthers(h, key, i, q, expiry, now, k);
      }
      if key in c.rows && Idempotent(i, q, c.rows[key], now) {
        assert !Replaces(i, q, c.rows[key]);
      }
    }
  }

  lemma RevokeRaisesExactly(expiry: real, s: Relay, op: Op, k: Pair)
    requires op.DoRevoke? && k in s.rows
    ensures k in Step(expiry, s, op).rows
    ensures Step(expiry, s, op).rows[k].generation > s.rows[k].generation <==> Revokes(s, op, k)
  {
  }

  /** A pair's generation rises exactly when the pair is revoked or its pending ceremony is superseded. */
  lemma GenerationRisesExactly(expiry: real, s: Relay, op: Op, k: Pair)
    requires k in s.rows
    ensures k in Step(expiry, s, op).rows
    ensures Step(expiry, s, op).rows[k].generation > s.rows[k].generation
      <==> Revokes(s, op, k) || Supersedes(expiry, s, op, k)
  {
    match op
    case DoRedeem(q, now) => RedeemRaisesExactly(expiry, s, q, InLock(s, now), k);
    case DoRevoke(_, _, _) => RevokeRaisesExactly(expiry, s, op, k);
    case DoAccept(x, generation, me, says, now) => AcceptTouches(s, x, generation, me, says, InLock(s, now));
    case DoAdvertise(x, generation, me, says) => AdvertiseTouches(s, x, generation, me, says);
    case DoSweep(_, _) => SweepMovesPair(expiry, s, op, k);
    case _ => RowsUntouched(expiry, s, op);
  }

  /** An id issued before a revoke or a replacement changes nothing, ever after. */
  lemma OldIdsNeverAccept(expiry: real, s: Relay, op: Op, ops: seq<Op>, k: Pair, stale: nat, me: string, says: Option<bool>, now: real)
    requires k in s.rows && stale <= s.rows[k].generation
    requires Revokes(s, op, k) || Supersedes(expiry, s, op, k)
    ensures var u := Run(expiry, Step(expiry, s, op), ops);
      Step(expiry, u, DoAccept(k, stale, me, says, now)).rows == u.rows
  {
    GenerationRisesExactly(expiry, s, op, k);
    GenerationsNeverFall(expiry, Step(expiry, s, op), ops, k);
  }

  /** A lapsed ceremony renewed over a bearer link keeps its generation, so its id still fits the new one. */
  lemma LapsedCeremonyKeepsItsId(expiry: real, s: Relay, q: Redemption, now: real)
    requires q.link in s.invites && Presentable(s.invites[q.link], q)
    requires var i := s.invites[q.link]; var k := PairOf(i.inviter, q.redeemer);
      && i.target == None && !i.short && Spendable(i, now) && (q.link, k) !in s.killed
      && k in s.rows && s.rows[k].status == Pending && s.rows[k].pendingUntil.Some? && s.rows[k].pendingUntil.value <= now
    ensures var k := PairOf(s.invites[q.link].inviter, q.redeemer); var t := Redeem(s, q, expiry, now);
      k in t.rows && t.rows[k].status == Pending && Acceptable(t, k, s.rows[k].generation, q.redeemer, now)
  {
    var i := s.invites[q.link];
    var k := PairOf(i.inviter, q.redeemer);
    assert Claimed(s, q) == s;
    assert MayBegin(s, k, i, q, now);
    assert NextGeneration(s, k, i, q) == s.rows[k].generation;
    assert PENDING_WINDOW > 0.0;
  }

  // ----- links ----------------------------------------------------------------------------

  /** A pair that revoked a handshake made by a link is never pending or active over that link again. */
  lemma RevokedLinkNeverReturns(expiry: real, s: Relay, x: string, y: string, now: real, ops: seq<Op>)
    requires Inv(s) && s.clock <= now && Revocable(s, x, y)
    ensures var k := PairOf(s.peers[x], s.peers[y]); var u := Run(expiry, Revoke(s, x, y, now), ops);
      s.rows[k].via.Some? && k in u.rows && u.rows[k].via == s.rows[k].via ==> u.rows[k].status == Revoked
  {
    var k := PairOf(s.peers[x], s.peers[y]);
    RevokeKeepsInv(s, x, y, now);
    RunKeepsInv(expiry, Revoke(s, x, y, now), ops);
    assert RowInv(Run(expiry, Revoke(s, x, y, now), ops), k);
  }

  /** No link is used more often than it was minted for, and a short link has one claimant for good. */
  lemma LinksAreLimited(expiry: real, s: Relay, ops: seq<Op>, l: string)
    requires Inv(s) && l in s.invites
    ensures var u := Run(expiry, s, ops);
      && l in u.invites && u.invites[l].uses <= u.invites[l].maxUses == s.invites[l].maxUses
      && (s.invites[l].claimed.Some? ==> u.invites[l].claimed == s.invites[l].claimed)
      && (s.invites[l].revoked ==> u.invites[l].revoked)
  {
    RunKeepsInv(expiry, s, ops);
    var u := Run(expiry, s, ops);
    assert LinkKept(s.invites[l], u.invites[l]);
    assert InviteInv(u.invites[l]);
    assert InviteInv(s.invites[l]);
  }

  /** A claimed short link refuses every other identity, for good. */
  lemma ClaimIsExclusive(expiry: real, s: Relay, ops: seq<Op>, q: Redemption, now: real)
    requires Inv(s) && q.link in s.invites && s.invites[q.link].claimed.Some?
    requires s.invites[q.link].claimed != Some(q.redeemer)
    ensures TryRedeem(Run(expiry, s, ops), q, expiry, now) == None
  {
    LinksAreLimited(expiry, s, ops, q.link);
    RunKeepsInv(expiry, s, ops);
    assert InviteInv(Run(expiry, s, ops).invites[q.link]);
  }

  // ----- revocation and mail --------------------------------------------------------------

  /** Once a revoke committed at `now`, a poll sampled at or after `now` never returns older pair mail. */
  lemma RevocationKillsMail(expiry: real, s: Relay, x: string, y: string, now: real, ops: seq<Op>, who: string, at: real)
    requires Inv(s) && Revocable(s, x, y) && now <= at
    ensures var t := Revoke(s, x, y, now); var u := Run(expiry, t, ops);
      forall id :: id in Poll(u.mail, who, at) && Between(u.mail[id], x, y) ==> t.serial <= u.mail[id].serial
  {
    var t := Revoke(s, x, y, now);
    var u := Run(expiry, t, ops);
    RunMovesMail(expiry, t, ops);
    forall id | id in Poll(u.mail, who, at) && Between(u.mail[id], x, y) ensures t.serial <= u.mail[id].serial {
      assert (id in t.mail && SameMessage(t.mail[id], u.mail[id])) || t.serial <= u.mail[id].serial;
    }
  }

  /** A poll that sampled its clock before the lock can still see the dead mail: exactly when it sampled too early. */
  lemma PollAfterRevokeExactly(s: Relay, x: string, y: string, now: real, id: string, at: real)
    requires Revocable(s, x, y) && id in s.mail && Between(s.mail[id], x, y)
    requires s.mail[id].acked == None && now < s.mail[id].until
    ensures id in Poll(Revoke(s, x, y, now).mail, s.mail[id].recipient, at) <==> at < now
  {
    assert Revoke(s, x, y, now).mail == DeadLettered(s.mail, x, y, now);
  }

  /** Step `i` is the redeem that made this pending row, which it was not before. */
  predicate BeginsAt(expiry: real, s: Relay, ops: seq<Op>, k: Pair, row: Handshake, i: int) {
    && 0 <= i < |ops| && ops[i].DoRedeem?
    && row.status == Pending && row.redeemer == Some(ops[i].q.redeemer) && row.via == Some(ops[i].q.link)
    && var t := Run(expiry, s, ops[..i]);
       && !(k in t.rows && t.rows[k] == row)
       && k in Step(expiry, t, ops[i]).rows && Step(expiry, t, ops[i]).rows[k] == row
  }

  /** A pending row was there from the start, or a redeem of the run made it just as it is. */
  lemma {:induction false} PendingWasBegun(expiry: real, s: Relay, ops: seq<Op>, k: Pair)
    requires k in Run(expiry, s, ops).rows && Run(expiry, s, ops).rows[k].status == Pending
    ensures var row := Run(expiry, s, ops).rows[k];
      || (k in s.rows && s.rows[k] == row)
      || exists i :: BeginsAt(expiry, s, ops, k, row, i)
    decreases |ops|
  {
    if ops != [] {
      var last := |ops| - 1;
      var before := ops[..last];
      var t := Run(expiry, s, before);
      RunLast(expiry, s, ops);
      StepPends(expiry, t, ops[last], k);
      var row := Run(expiry, s, ops).rows[k];
      if k in t.rows && t.rows[k] == row {
        PendingWasBegun(expiry, s, before, k);
        if !(k in s.rows && s.rows[k] == row) {
          var i :| BeginsAt(expiry, s, before, k, row, i);
          assert before[..i] == ops[..i] && before[i] == ops[i];
          assert BeginsAt(expiry, s, ops, k, row, i);
        }
      } else {
        assert BeginsAt(expiry, s, ops, k, row, last);
      }
    }
  }

  /**
  One consent after another: the redeem `i` makes a pending row over a link that the other party minted
  and the pair has not revoked, and the accept `j` by its redeemer activates that very row, at a generation
  of at least `g`.
  */
  predicate ConsentGiven(expiry: real, s: Relay, ops: seq<Op>, k: Pair, g: nat, i: nat, j: nat) {
    && i < j < |ops| && ops[j].DoAccept?
    && var t := Run(expiry, s, ops[..j]);
       && k in t.rows && BeginsAt(expiry, s, ops, k, t.rows[k], i)
       && var row := t.rows[k];
          && g <= row.generation && Activates(expiry, t, ops[j], k, row.generation) && row.redeemer == Some(ops[j].me)
          && row.via.value in t.invites && t.invites[row.via.value].inviter == Other(k, ops[j].me)
          && (row.via.value, k) !in t.killed
  }

  ghost predicate FreshConsentIn(expiry: real, s: Relay, ops: seq<Op>, k: Pair, g: nat) {
    exists i, j :: ConsentGiven(expiry, s, ops, k, g, i, j)
  }

  lemma ConsentStands(expiry: real, s: Relay, ops: seq<Op>, k: Pair, g: nat, i: nat, j: nat)
    requires ops != [] && ConsentGiven(expiry, s, ops[..|ops| - 1], k, g, i, j)
    ensures ConsentGiven(expiry, s, ops, k, g, i, j)
  {
    var before := ops[..|ops| - 1];
    assert before[..j] == ops[..j] && before[..i] == ops[..i] && before[i] == ops[i] && before[j] == ops[j];
  }

  /** The accept that activates a pair, and the redeem before it. */
  lemma ActivationIsConsent(expiry: real, s: Relay, ops: seq<Op>, k: Pair)
    requires Inv(s) && k in s.rows && s.rows[k].status == Revoked && ops != []
    requires var t := Run(expiry, s, ops[..|ops| - 1]);
      && !(k in t.rows && t.rows[k].status == Active)
      && k in Step(expiry, t, ops[|ops| - 1]).rows && Step(expiry, t, ops[|ops| - 1]).rows[k].status == Active
    ensures FreshConsentIn(expiry, s, ops, k, s.rows[k].generation)
  {
    var last := |ops| - 1;
    var before := ops[..last];
    var t := Run(expiry, s, before);
    RunKeepsInv(expiry, s, before);
    GenerationsNeverFall(expiry, s, before, k);
    ActivationNeedsBothConsents(expiry, t, ops[last], k);
    StepMovesPair(expiry, t, ops[last], k);
    PendingWasBegun(expiry, s, before, k);
    var row := t.rows[k];
    var i :| BeginsAt(expiry, s, before, k, row, i);
    assert before[..i] == ops[..i] && before[i] == ops[i];
    assert ConsentGiven(expiry, s, ops, k, s.rows[k].generation, i, last);
  }

  /** An inactive pair becomes active only through a redeem over a live link followed by the accept of what it made. */
  lemma {:induction false} ActiveNeedsFreshConsent(expiry: real, s: Relay, ops: seq<Op>, k: Pair)
    requires Inv(s) && k in s.rows && s.rows[k].status == Revoked
    requires k in Run(expiry, s, ops).rows && Run(expiry, s, ops).rows[k].status == Active
    ensures FreshConsentIn(expiry, s, ops, k, s.rows[k].generation)
    decreases |ops|
  {
    var before := ops[..|ops| - 1];
    RunLast(expiry, s, ops);
    var t := Run(expiry, s, before);
    if k in t.rows && t.rows[k].status == Active {
      ActiveNeedsFreshConsent(expiry, s, before, k);
      var i, j :| ConsentGiven(expiry, s, before, k, s.rows[k].generation, i, j);
      ConsentStands(expiry, s, ops, k, s.rows[k].generation, i, j);
    } else {
      ActivationIsConsent(expiry, s, ops, k);
    }
  }

  lemma StepKeepsPeer(expiry: real, s: Relay, op: Op, x: string)
    requires x in s.peers
    ensures x in Step(expiry, s, op).peers && Step(expiry, s, op).peers[x] == s.peers[x]
  {
    match op
    case DoEnrol(_, _) =>
    case DoRedeem(q, now) => RedeemMovesPair(expiry, s, q, InLock(s, now), Pair("", ""));
    case DoAccept(k, generation, me, says, now) => AcceptTouches(s, k, generation, me, says, InLock(s, now));
    case DoAdvertise(k, generation, me, says) => AdvertiseTouches(s, k, generation, me, says);
    case DoSend(_, _, _, _, _, _, _) => MailLeavesConsent(expiry, s, op);
    case DoDeliver(_, _, _, _, _, _, _) => MailLeavesConsent(expiry, s, op);
    case DoCollect(_, _, _) => MailLeavesConsent(expiry, s, op);
    case DoAck(_, _, _) => MailLeavesConsent(expiry, s, op);
    case _ => assert Step(expiry, s, op).peers == s.peers;
  }

  lemma {:induction false} PeersKept(expiry: real, s: Relay, ops: seq<Op>, x: string)
    requires x in s.peers
    ensures x in Run(expiry, s, ops).peers && Run(expiry, s, ops).peers[x] == s.peers[x]
    decreases |ops|
  {
    if ops != [] {
      StepKeepsPeer(expiry, s, ops[0], x);
      PeersKept(expiry, Step(expiry, s, ops[0]), ops[1..], x);
    }
  }

  // ----- what a send needs ----------------------------------------------------------------

  /**
  A local send is taken if and only if the id is new to both lanes, both names are enrolled, their pair's row
  is active and not over at the in-lock clock, and fewer than 500 live messages wait for the recipient.
  */
  lemma TakenExactly(s: Relay, id: string, x: string, y: string, lane: bool, now: real)
    ensures SendVerdict(s, id, x, y, lane, now) == Taken <==>
      && id !in s.mail && !lane && x in s.peers && y in s.peers
      && (var k := PairOf(s.peers[x], s.peers[y]);
          k in s.rows && s.rows[k].status == Active && (s.rows[k].until == None || now < s.rows[k].until.value))
      && |set m | m in s.mail && s.mail[m].recipient == y && s.mail[m].acked == None && now < s.mail[m].until| < 500
  {
    assert Poll(s.mail, y, now)
        == set m | m in s.mail && s.mail[m].recipient == y && s.mail[m].acked == None && now < s.mail[m].until;
  }

  /** The other answers: the id is there already, or only the consent or the room is missing. */
  lemma RefusedExactly(s: Relay, id: string, x: string, y: string, lane: bool, now: real)
    ensures var answer := SendVerdict(s, id, x, y, lane, now);
      && (answer == Duplicate <==> id in s.mail && s.mail[id].sender == x)
      && (answer == Collision <==> if id in s.mail then s.mail[id].sender != x else lane)
      && (answer == NeedsConsent <==> id !in s.mail && !lane && !Consented(s, x, y, now))
      && (answer != Taken ==> forall body, ttl :: Send(s, id, x, y, body, ttl, lane, now) == s.(clock := now))
  {
  }

  /** A linked relay's delivery is taken only for an enrolled recipient from a sender who is not, and never twice. */
  lemma DeliveredExactly(s: Relay, id: string, x: string, y: string, body: string, lane: bool, now: real)
    ensures var answer := DeliverVerdict(s, id, x, y, body, lane, now);
      && (answer == Taken <==>
            && y in s.peers && x !in s.peers && id !in s.mail && !lane
            && |set m | m in s.mail && s.mail[m].recipient == y && s.mail[m].acked == None && now < s.mail[m].until| < 500)
      && (answer == Duplicate <==>
            y in s.peers && x !in s.peers && id in s.mail && s.mail[id].sender == x && s.mail[id].body == body)
      && (answer != Taken ==> forall until :: Deliver(s, id, x, y, body, until, lane, now) == s.(clock := now))
  {
    assert Poll(s.mail, y, now)
        == set m | m in s.mail && s.mail[m].recipient == y && s.mail[m].acked == None && now < s.mail[m].until;
  }

  /** The step sends this message, under consent if the sender is local: every field of the row it writes. */
  predicate Posts(s: Relay, op: Op, id: string, m: Message) {
    match op
    case DoSend(i, x, y, body, ttl, lane, now) =>
      && i == id && Consented(s, x, y, InLock(s, now)) && !lane
      && m == Message(s.serial, x, y, body, InLock(s, now), InLock(s, now) + ttl, None, false, None, 0)
    case DoDeliver(i, x, y, body, until, lane, now) =>
      && i == id && y in s.peers && x !in s.peers && !lane
      && m == Message(s.serial, x, y, body, InLock(s, now), until, None, false, None, 0)
    case _ => false
  }

  lemma StepPosts(expiry: real, s: Relay, op: Op, id: string)
    requires id !in s.mail && id in Step(expiry, s, op).mail
    ensures Posts(s, op, id, Step(expiry, s, op).mail[id])
  {
    match op
    case DoSend(_, _, _, _, _, _, _) =>
    case DoDeliver(_, _, _, _, _, _, _) =>
    case DoAck(recipient, acks, at) => AckKeepsMessages(s.mail, recipient, acks, BeforeLock(s, at));
    case DoRevoke(_, _, _) =>
    case DoCollect(_, _, _) =>
    case DoSweep(_, _) =>
    case _ => ConsentLeavesMail(expiry, s, op);
  }

  /** Transaction `i` of the run posted the message, as it then was, under the row of its id now. */
  ghost predicate PostedAt(expiry: real, s: Relay, ops: seq<Op>, id: string, m: Message, i: int) {
    && 0 <= i < |ops|
    && exists first: Message :: Posts(Run(expiry, s, ops[..i]), ops[i], id, first) && SameMessage(first, m)
  }

  /** Whatever is in the mailbox was sent by somebody whose pair consented at that moment, or delivered by a linked relay. */
  lemma {:induction false} MailWasPosted(expiry: real, s: Relay, ops: seq<Op>, id: string)
    requires id in Run(expiry, s, ops).mail && id !in s.mail
    ensures exists i :: PostedAt(expiry, s, ops, id, Run(expiry, s, ops).mail[id], i)
    decreases |ops|
  {
    if ops != [] {
      var last := |ops| - 1;
      var before := ops[..last];
      var t, u := Run(expiry, s, before), Run(expiry, s, ops);
      RunLast(expiry, s, ops);
      if id in t.mail {
        MailWasPosted(expiry, s, before, id);
        var i :| PostedAt(expiry, s, before, id, t.mail[id], i);
        StepKeepsContent(expiry, t, ops[last], id);
        PostedStands(expiry, s, ops, id, t.mail[id], u.mail[id], i);
      } else {
        StepPosts(expiry, t, ops[last], id);
        assert PostedAt(expiry, s, ops, id, u.mail[id], last);
      }
    }
  }

  lemma StepKeepsContent(expiry: real, s: Relay, op: Op, id: string)
    requires id in s.mail && id in Step(expiry, s, op).mail
    ensures SameMessage(s.mail[id], Step(expiry, s, op).mail[id])
  {
    match op
    case DoSend(_, _, _, _, _, _, _) => SentKeepsMessage(expiry, s, op, id);
    case DoDeliver(_, _, _, _, _, _, _) => SentKeepsMessage(expiry, s, op, id);
    case DoAck(recipient, acks, at) => AckKeepsMessages(s.mail, recipient, acks, BeforeLock(s, at));
    case DoRevoke(_, _, _) =>
    case DoCollect(_, _, _) =>
    case DoSweep(_, _) =>
    case _ => ConsentLeavesMail(expiry, s, op);
  }

  lemma PostedStands(expiry: real, s: Relay, ops: seq<Op>, id: string, m: Message, n: Message, i: int)
    requires ops != [] && PostedAt(expiry, s, ops[..|ops| - 1], id, m, i) && SameMessage(m, n)
    ensures PostedAt(expiry, s, ops, id, n, i)
  {
    var before := ops[..|ops| - 1];
    assert before[..i] == ops[..i] && before[i] == ops[i];
    var first :| Posts(Run(expiry, s, before[..i]), before[i], id, first) && SameMessage(first, m);
    assert SameMessage(first, n);
  }

  /** A send that is taken, or that changes the mailbox, finds its pair's row active. */
  lemma SendFindsActive(expiry: real, s: Relay, op: Op)
    requires op.DoSend?
    requires SendVerdict(s, op.id, op.x, op.y, op.lane, InLock(s, op.now)) == Taken || Step(expiry, s, op).mail != s.mail
    ensures op.x in s.peers && op.y in s.peers
    ensures var k := PairOf(s.peers[op.x], s.peers[op.y]); k in s.rows && s.rows[k].status == Active
  {
    TakenExactly(s, op.id, op.x, op.y, op.lane, InLock(s, op.now));
  }

  /**
  After a revoke no local send between the two names, either way, for any id, body or lane, is taken or puts
  anything into the mailbox, until the pair redeemed and accepted anew.
  */
  lemma NoSendWithoutFreshConsent(expiry: real, s: Relay, x: string, y: string, now: real, ops: seq<Op>, op: Op)
    requires Inv(s) && s.clock <= now && Revocable(s, x, y)
    requires op.DoSend? && ((op.x == x && op.y == y) || (op.x == y && op.y == x))
    requires var u := Run(expiry, Revoke(s, x, y, now), ops);
      || SendVerdict(u, op.id, op.x, op.y, op.lane, InLock(u, op.now)) == Taken
      || Step(expiry, u, op).mail != u.mail
    ensures FreshConsentIn(expiry, Revoke(s, x, y, now), ops, PairOf(s.peers[x], s.peers[y]),
                           s.rows[PairOf(s.peers[x], s.peers[y])].generation + 1)
  {
    var k, t := PairOf(s.peers[x], s.peers[y]), Revoke(s, x, y, now);
    SendFindsActive(expiry, Run(expiry, t, ops), op);
    RevokeKeepsInv(s, x, y, now);
    PairIsUnordered(s.peers[x], s.peers[y]);
    PeersKept(expiry, t, ops, x);
    PeersKept(expiry, t, ops, y);
    ActiveNeedsFreshConsent(expiry, t, ops, k);
  }

  // ----- the mailbox ----------------------------------------------------------------------

  /** The step acknowledges the message or revokes the consent it came with. */
  predicate Retires(op: Op, m: Message, id: string) {
    || (op.DoAck? && op.recipient == m.recipient && id in op.acks)
    || (op.DoRevoke? && ((op.x == m.sender && op.y == m.recipient) || (op.x == m.recipient && op.y == m.sender)))
  }

  predicate Untouched(m: Message, n: Message) {
    n == m.(collected := n.collected, fetches := n.fetches) && m.fetches <= n.fetches
  }

  lemma SentKeepsMessage(expiry: real, s: Relay, op: Op, id: string)
    requires op.DoSend? || op.DoDeliver?
    requires id in s.mail
    ensures id in Step(expiry, s, op).mail && Step(expiry, s, op).mail[id] == s.mail[id]
  {
  }

  lemma StepKeepsMessage(expiry: real, s: Relay, op: Op, id: string)
    requires id in s.mail && s.mail[id].acked == None && !Retires(op, s.mail[id], id)
    requires Step(expiry, s, op).clock < s.mail[id].until
    ensures id in Step(expiry, s, op).mail && Untouched(s.mail[id], Step(expiry, s, op).mail[id])
  {
    match op
    case DoAck(recipient, acks, at) => AckTouches(s.mail, recipient, acks, BeforeLock(s, at), id);
    case DoRevoke(_, _, _) =>
    case DoSend(_, _, _, _, _, _, _) => SentKeepsMessage(expiry, s, op, id);
    case DoDeliver(_, _, _, _, _, _, _) => SentKeepsMessage(expiry, s, op, id);
    case DoCollect(_, _, _) =>
    case DoSweep(_, _) =>
    case _ => ConsentLeavesMail(expiry, s, op);
  }

  /** An acknowledgement touches exactly the recipient's own messages it names. */
  lemma {:induction false} AckTouches(mail: map<string, Message>, recipient: string, ids: seq<string>, at: real, id: string)
    requires id in mail
    ensures var t := AckAll(mail, recipient, ids, at);
      && id in t
      && t[id] == if id in ids && mail[id].recipient == recipient && mail[id].acked == None
                  then mail[id].(acked := Some(at)) else mail[id]
  {
    if ids != [] {
      AckTouches(mail, recipient, ids[..|ids| - 1], at, id);
      assert ids == ids[..|ids| - 1] + [ids[|ids| - 1]];
    }
  }

  /** An accepted message is returned by every poll of its recipient until ack, revoke or TTL, whatever sweeps. */
  lemma {:induction false} MailIsDeliveredAtLeastOnce(expiry: real, s: Relay, ops: seq<Op>, id: string, at: real)
    requires id in s.mail && s.mail[id].acked == None
    requires forall i :: 0 <= i < |ops| ==> !Retires(ops[i], s.mail[id], id)
    requires Run(expiry, s, ops).clock < s.mail[id].until && at < s.mail[id].until
    ensures var u := Run(expiry, s, ops);
      id in Poll(u.mail, s.mail[id].recipient, at) && Untouched(s.mail[id], u.mail[id])
    decreases |ops|
  {
    if ops != [] {
      var t := Step(expiry, s, ops[0]);
      RunMovesMail(expiry, t, ops[1..]);
      StepKeepsMessage(expiry, s, ops[0], id);
      forall i | 0 <= i < |ops[1..]| ensures !Retires(ops[1..][i], t.mail[id], id) {
        assert !Retires(ops[i + 1], s.mail[id], id);
      }
      MailIsDeliveredAtLeastOnce(expiry, t, ops[1..], id, at);
    }
  }

  /** No recipient ever has more than the cap of live unacknowledged mail, no minter more than its quota of open links. */
  lemma QueuesStayBounded(expiry: real, s: Relay, ops: seq<Op>, who: string, at: real)
    requires Inv(s) && Run(expiry, s, ops).clock <= at
    ensures |Poll(Run(expiry, s, ops).mail, who, at)| <= PENDING_CAP
    ensures |OpenLinks(Run(expiry, s, ops).invites, who, at)| <= INVITE_QUOTA
  {
    RunKeepsInv(expiry, s, ops);
  }

  // ----- dead letters ---------------------------------------------------------------------

  lemma {:induction false} OldestOf(mail: map<string, Message>, ids: set<string>) returns (o: string)
    requires ids != {} && forall id :: id in ids ==> id in mail
    ensures o in ids && forall id :: id in ids ==> mail[o].sent <= mail[id].sent
    decreases |ids|
  {
    o :| o in ids;
    if ids - {o} != {} {
      var p := OldestOf(mail, ids - {o});
      if mail[p].sent < mail[o].sent {
        o := p;
      }
    }
  }

  /** The oldest of the dead letters can always be singled out. */
  lemma {:induction false} OverflowOf(mail: map<string, Message>, dead: set<string>, keep: nat) returns (pruned: set<string>)
    requires forall id :: id in dead ==> id in mail
    ensures pruned <= dead && |dead - pruned| == (if |dead| <= keep then |dead| else keep)
    ensures forall p, k :: p in pruned && k in dead && k !in pruned ==> mail[p].sent <= mail[k].sent
    decreases |dead|
  {
    if |dead| <= keep {
      pruned := {};
      assert dead - {} == dead;
    } else {
      var o := OldestOf(mail, dead);
      pruned := OverflowOf(mail, dead - {o}, keep);
      assert dead - {o} - pruned == dead - (pruned + {o});
      pruned := pruned + {o};
    }
  }

  lemma SweepAlwaysCan(mail: map<string, Message>, at: real) returns (pruned: set<string>)
    ensures Overflow(mail, pruned, at)
  {
    pruned := OverflowOf(mail, DeadLetters(mail, at), DEAD_LETTERS);
  }
}
