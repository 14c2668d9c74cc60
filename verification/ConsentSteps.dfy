/**
Each consent transaction told field by field, without the transactions' own functions: when it takes effect,
what it then writes, and what follows from that over every later run.
*/
module ConsentSteps {
  import opened Wrappers
  import opened ConsentState
  import opened ConsentSafety
  import opened ConsentRuns
  import opened ConsentTheorems

  // ----- links ----------------------------------------------------------------------------

  /** A link of `who` that is not revoked, expired or used up. */
  function LiveLinks(s: Relay, who: string, now: real): set<string> {
    set l | l in s.invites && s.invites[l].inviter == who && !s.invites[l].revoked
            && now < s.invites[l].expires && s.invites[l].uses < s.invites[l].maxUses
  }

  /** A link is minted within the bounds on uses and lifetime, to another enrolled identity, and up to ten live ones. */
  lemma MintExactly(s: Relay, who: string, kind: LinkKind, uses: int, seconds: real, says: Option<bool>,
                    id: string, asked: real, now: real)
    ensures var allowed :=
        && id !in s.invites && 1 <= uses <= 25 && 60.0 <= seconds <= 604800.0
        && (kind.Short? || kind.Public? ==> uses == 1)
        && (kind.Public? ==> kind.target != who && exists name :: name in s.peers && s.peers[name] == kind.target)
        && |LiveLinks(s, who, now)| < 10;
      Mint(s, who, kind, uses, seconds, says, id, asked, now).invites
      == if allowed
         then s.invites[id := Invite(who, asked + seconds, uses, 0, false, kind != Enrolment,
                                     kind != Enrolment && (says == Some(true) || (says == None && kind == Short)),
                                     if kind.Public? then Some(kind.target) else None, kind == Short, None)]
         else s.invites
  {
    assert LiveLinks(s, who, now) == OpenLinks(s.invites, who, now);
    assert kind.Public? ==> (kind.target in s.peers.Values <==> exists name :: name in s.peers && s.peers[name] == kind.target);
  }

  /** Its minter or an operator revokes a link, and nobody else. */
  lemma RevokeLinkExactly(s: Relay, who: string, operator: bool, id: string)
    ensures var t := RevokeLink(s, who, operator, id);
      && t == s.(invites := t.invites) && t.invites.Keys == s.invites.Keys
      && forall l :: l in s.invites ==>
           t.invites[l] == if l == id && (operator || who == s.invites[l].inviter)
                           then s.invites[l].(revoked := true) else s.invites[l]
  {
  }

  /** A new name for a new identity; everything already enrolled stays. */
  lemma EnrolExactly(s: Relay, name: string, identity: string)
    ensures var t := Enrol(s, name, identity);
      t == if name !in s.peers && (forall n :: n in s.peers ==> s.peers[n] != identity)
           then s.(peers := s.peers[name := identity]) else s
  {
    assert identity in s.peers.Values <==> exists n :: n in s.peers && s.peers[n] == identity;
  }

  /** Enrolment spends a live link that is neither a public request nor short. */
  lemma EnrolByLinkExactly(s: Relay, id: string, now: real)
    ensures EnrolByLink(s, id, now) == s.(clock := now, invites :=
      if id in s.invites && s.invites[id].target == None && !s.invites[id].short
         && !s.invites[id].revoked && now < s.invites[id].expires && s.invites[id].uses < s.invites[id].maxUses
      then s.invites[id := s.invites[id].(uses := s.invites[id].uses + 1)] else s.invites)
  {
  }

  // ----- a ceremony begins ----------------------------------------------------------------

  /** The request fits its link: shown in time by somebody else, to whom it is addressed or who proved the secret. */
  predicate Presented(i: Invite, q: Redemption) {
    && i.handshake && !q.seenRevoked && q.asked < i.expires && q.redeemer != i.inviter
    && (if q.public then !i.short && i.target == Some(q.redeemer) else (i.short || i.target == None) && q.proved)
    && (i.short ==> i.claimed == None)
  }

  /** The pair is new, was revoked, or its pending ceremony lapsed or gives way to another request of the minter. */
  predicate Vacant(s: Relay, k: Pair, q: Redemption, i: Invite, now: real) {
    k in s.rows ==>
      var row := s.rows[k];
      var other := (q.public || i.short) && row.via != Some(q.link);
      || row.status == Revoked
      || (&& row.status == Pending
          && (row.pendingUntil == None || row.pendingUntil.value <= now || other)
          && (other ==> row.generation < 0x7fff_ffff_ffff_ffff))
  }

  /** A redeem begins a ceremony on a live link that the pair has not revoked. */
  predicate Begins(s: Relay, q: Redemption, now: real) {
    && q.link in s.invites
    && var i := s.invites[q.link];
       && Presented(i, q) && !i.revoked && now < i.expires && i.uses < i.maxUses
       && var k := PairOf(i.inviter, q.redeemer); (q.link, k) !in s.killed && Vacant(s, k, q, i, now)
  }

  function BegunGeneration(s: Relay, k: Pair, q: Redemption, i: Invite): nat {
    if k !in s.rows then 0
    else if s.rows[k].status == Pending && (q.public || i.short) && s.rows[k].via != Some(q.link) then s.rows[k].generation + 1
    else s.rows[k].generation
  }

  function Lesser(x: real, y: real): real {
    if x < y then x else y
  }

  /** The row of a ceremony: pending for a day at most, for the redeemer alone, with the minter's slot as its link says. */
  function BegunRow(s: Relay, q: Redemption, expiry: real, now: real): Handshake
    requires q.link in s.invites
  {
    var i := s.invites[q.link];
    Handshake(Pending,
              Some(if i.short || i.target.Some? then Lesser(i.expires, now + 86400.0) else now + 86400.0),
              if expiry > 0.0 then Some(now + expiry) else None, Some(q.link), Some(q.redeemer),
              BegunGeneration(s, PairOf(i.inviter, q.redeemer), q, i), false, i.encrypts, false, Ceremony)
  }

  /** The two rows agree but for the encryption slots. */
  predicate SameButSlots(r: Handshake, t: Handshake) {
    t == r.(capable := t.capable, minterSays := t.minterSays, redeemerSays := t.redeemerSays)
  }

  lemma UpgradedIsSame(s: Relay, k: Pair, i: Invite, x: Pair)
    requires k in s.rows
    ensures var t := Upgraded(s, k, i);
      t.rows.Keys == s.rows.Keys && t.invites == s.invites && (x in s.rows ==> SameButSlots(s.rows[x], t.rows[x]))
  {
  }

  lemma PairedExactly(s: Relay, c: Relay, q: Redemption, expiry: real, now: real, x: Pair)
    requires q.link in s.invites && c.invites.Keys == s.invites.Keys && c.rows == s.rows && c.killed == s.killed
    requires Presentable(s.invites[q.link], q) && Confirmed(s.invites[q.link], q, now)
    ensures var i := s.invites[q.link]; var k := PairOf(i.inviter, q.redeemer); var r := Paired(c, k, i, q, expiry, now);
      if Begins(s, q, now)
      then r.Some? && r.value.rows == s.rows[k := BegunRow(s, q, expiry, now)]
      else r.Some? ==> r.value.rows.Keys == s.rows.Keys && (x in s.rows ==> SameButSlots(s.rows[x], r.value.rows[x]))
  {
    var i := s.invites[q.link];
    var k := PairOf(i.inviter, q.redeemer);
    if k in c.rows {
      UpgradedIsSame(c, k, i, x);
    }
  }

  /** When a redeem begins a ceremony, and what it writes; any other changes no more than an encryption slot. */
  lemma RedeemBeginsExactly(s: Relay, q: Redemption, expiry: real, now: real, x: Pair)
    ensures var t := Redeem(s, q, expiry, now);
      if Begins(s, q, now)
      then t.rows == s.rows[PairOf(s.invites[q.link].inviter, q.redeemer) := BegunRow(s, q, expiry, now)]
      else t.rows.Keys == s.rows.Keys && (x in s.rows ==> SameButSlots(s.rows[x], t.rows[x]))
  {
    if q.link in s.invites {
      var i := s.invites[q.link];
      if Presentable(i, q) && Confirmed(i, q, now) {
        var c := Claimed(s, q);
        assert c.rows == s.rows && c.killed == s.killed && c.invites.Keys == s.invites.Keys;
        var k := PairOf(i.inviter, q.redeemer);
        PairedExactly(s, Heard(c, k, i, q), q, expiry, now, x);
      }
    }
  }

  /** The request fits its link, and where the link is a request or short it still stands for this redeemer. */
  predicate Stands(i: Invite, q: Redemption, now: real) {
    && i.handshake && !q.seenRevoked && q.asked < i.expires && q.redeemer != i.inviter
    && (if q.public then !i.short && i.target == Some(q.redeemer) else (i.short || i.target == None) && q.proved)
    && (q.public || i.short ==> !i.revoked && now < i.expires)
    && (i.short ==> if i.claimed == None then i.uses < i.maxUses else i.claimed == Some(q.redeemer))
  }

  /** The pair is active already, or this redeemer repeats its own pending ceremony. */
  predicate Repeats(s: Relay, k: Pair, q: Redemption, i: Invite, now: real) {
    && k in s.rows
    && var row := s.rows[k];
       || row.status == Active
       || (&& row.status == Pending && row.redeemer == Some(q.redeemer)
           && row.pendingUntil.Some? && now < row.pendingUntil.value
           && (q.public || i.short ==> row.via == Some(q.link)))
  }

  /** A redeem succeeds if and only if it begins a ceremony or repeats what there is, over a link that the pair has not revoked. */
  lemma RedeemSucceedsExactly(s: Relay, q: Redemption, expiry: real, now: real)
    ensures TryRedeem(s, q, expiry, now).Some? <==>
      || Begins(s, q, now)
      || (&& q.link in s.invites && Stands(s.invites[q.link], q, now)
          && var i := s.invites[q.link]; var k := PairOf(i.inviter, q.redeemer);
             (q.link, k) !in s.killed && Repeats(s, k, q, i, now))
  {
    if q.link in s.invites {
      var i := s.invites[q.link];
      assert Presentable(i, q) && Confirmed(i, q, now) <==> Stands(i, q, now);
      if Presentable(i, q) && Confirmed(i, q, now) {
        var c := Claimed(s, q);
        assert c.rows == s.rows && c.killed == s.killed && c.invites.Keys == s.invites.Keys;
        var k := PairOf(i.inviter, q.redeemer);
        PairedSucceeds(s, Heard(c, k, i, q), q, expiry, now);
      }
    }
  }

  lemma PairedSucceeds(s: Relay, c: Relay, q: Redemption, expiry: real, now: real)
    requires q.link in s.invites && c.invites.Keys == s.invites.Keys && c.rows == s.rows && c.killed == s.killed
    requires Presentable(s.invites[q.link], q) && Confirmed(s.invites[q.link], q, now)
    ensures var i := s.invites[q.link]; var k := PairOf(i.inviter, q.redeemer);
      Paired(c, k, i, q, expiry, now).Some? <==> Begins(s, q, now) || ((q.link, k) !in s.killed && Repeats(s, k, q, i, now))
  {
  }

  /** A short link in the hands of its claimant. */
  function Taken(i: Invite, q: Redemption): Invite {
    i.(uses := i.uses + 1, claimed := Some(q.redeemer), target := Some(q.redeemer))
  }

  /** What a redeem does to links: a ceremony costs its link one use, and a short link is bound to who claims it. */
  lemma RedeemSpendsExactly(s: Relay, q: Redemption, expiry: real, now: real, l: string)
    requires l in s.invites
    ensures var t := Redeem(s, q, expiry, now); var i := s.invites[l];
      && t.invites.Keys == s.invites.Keys
      && (l != q.link || i.revoked || now >= i.expires || i.uses >= i.maxUses ==> t.invites[l] == i)
      && (l == q.link && Begins(s, q, now) ==>
            t.invites[l] == if i.short then Taken(i, q) else i.(uses := i.uses + 1))
      && (t.invites[l] != i && !Begins(s, q, now) ==> i.short && i.claimed == None && t.invites[l] == Taken(i, q))
  {
    if q.link in s.invites {
      var i := s.invites[q.link];
      if Presentable(i, q) && Confirmed(i, q, now) {
        var k := PairOf(i.inviter, q.redeemer);
        var c, h := Claimed(s, q), Heard(Claimed(s, q), k, i, q);
        ClaimedIs(s, q);
        assert h == c.(spoke := h.spoke);
        PairedSpends(s, h, q, expiry, now);
        assert TryRedeem(s, q, expiry, now) == Paired(h, k, i, q, expiry, now);
      }
    }
  }

  lemma ClaimedIs(s: Relay, q: Redemption)
    requires q.link in s.invites
    ensures var i := s.invites[q.link];
      Claimed(s, q) == s.(invites := s.invites[q.link := if i.short && i.claimed == None then Taken(i, q) else i])
  {
    assert s.invites[q.link := s.invites[q.link]] == s.invites;
  }

  lemma PairedSpends(s: Relay, c: Relay, q: Redemption, expiry: real, now: real)
    requires q.link in s.invites && c.invites.Keys == s.invites.Keys && c.rows == s.rows && c.killed == s.killed
    requires Presentable(s.invites[q.link], q) && Confirmed(s.invites[q.link], q, now)
    ensures var i := s.invites[q.link]; var k := PairOf(i.inviter, q.redeemer); var r := Paired(c, k, i, q, expiry, now);
      var spends := Begins(s, q, now) && !i.short;
      && (r.Some? && spends ==> r.value.invites == c.invites[q.link := c.invites[q.link].(uses := c.invites[q.link].uses + 1)])
      && (r.Some? && !spends ==> r.value.invites == c.invites)
  {
    var i := s.invites[q.link];
    var k := PairOf(i.inviter, q.redeemer);
    if k in c.rows {
      UpgradedIsSame(c, k, i, k);
    }
  }

  // ----- a revoked link is dead -----------------------------------------------------------

  lemma StepKeepsDeadLink(expiry: real, s: Relay, op: Op, l: string)
    requires Inv(s) && l in s.invites && s.invites[l].revoked
    ensures l in Step(expiry, s, op).invites && Step(expiry, s, op).invites[l] == s.invites[l]
  {
    match op
    case DoRedeem(q, now) => RedeemSpendsExactly(s, q, expiry, InLock(s, now), l);
    case DoMint(who, kind, uses, seconds, says, id, asked, now) =>
    case DoRevokeLink(who, operator, id) => RevokeLinkExactly(s, who, operator, id);
    case DoEnrolByLink(id, now) => EnrolByLinkExactly(s, id, InLock(s, now));
    case DoEnrol(_, _) =>
    case DoAccept(k, generation, me, says, now) => AcceptSpeaks(s, k, generation, me, says, InLock(s, now));
    case DoAdvertise(k, generation, me, says) => AdvertiseSpeaks(s, k, generation, me, says);
    case DoRevoke(_, _, _) =>
    case DoSend(_, _, _, _, _, _, _) => MailLeavesConsent(expiry, s, op);
    case DoDeliver(_, _, _, _, _, _, _) => MailLeavesConsent(expiry, s, op);
    case DoCollect(_, _, _) => MailLeavesConsent(expiry, s, op);
    case DoAck(_, _, _) => MailLeavesConsent(expiry, s, op);
    case DoSweep(_, _) =>
  }

  lemma DeadLinkBeginsNothing(expiry: real, s: Relay, op: Op, l: string, k: Pair)
    requires l in s.invites && s.invites[l].revoked
    requires k in Step(expiry, s, op).rows
    requires Step(expiry, s, op).rows[k].status == Pending && Step(expiry, s, op).rows[k].via == Some(l)
    ensures k in s.rows && s.rows[k].status == Pending && SameButSlots(s.rows[k], Step(expiry, s, op).rows[k])
  {
    StepPends(expiry, s, op, k);
    if op.DoRedeem? {
      RedeemBeginsExactly(s, op.q, expiry, InLock(s, op.now), k);
    }
  }

  /** Once revoked, a link is used, claimed or redeemed into a ceremony by no later step of any run. */
  lemma {:induction false} RevokedLinkIsDead(expiry: real, s: Relay, ops: seq<Op>, l: string, k: Pair)
    requires Inv(s) && l in s.invites && s.invites[l].revoked
    ensures var u := Run(expiry, s, ops);
      && l in u.invites && u.invites[l] == s.invites[l]
      && (k in u.rows && u.rows[k].status == Pending && u.rows[k].via == Some(l) ==>
            k in s.rows && s.rows[k].status == Pending && SameButSlots(s.rows[k], u.rows[k]))
    decreases |ops|
  {
    if ops != [] {
      var t := Step(expiry, s, ops[0]);
      StepKeepsInv(expiry, s, ops[0]);
      StepKeepsDeadLink(expiry, s, ops[0], l);
      RevokedLinkIsDead(expiry, t, ops[1..], l, k);
      if k in t.rows && t.rows[k].status == Pending && t.rows[k].via == Some(l) {
        DeadLinkBeginsNothing(expiry, s, ops[0], l, k);
      }
    }
  }

  // ----- accept and advertise -------------------------------------------------------------

  /** The pending ceremony is this redeemer's, current and in time, and a request or short link behind it still stands. */
  predicate Current(s: Relay, k: Pair, generation: nat, me: string, now: real) {
    && (me == k.a || me == k.b) && k in s.rows
    && var row := s.rows[k];
       && row.status == Pending && row.redeemer == Some(me) && row.generation == generation
       && row.pendingUntil.Some? && now < row.pendingUntil.value
       && (row.via.Some? && row.via.value in s.invites ==>
             var i := s.invites[row.via.value];
             i.target.Some? || i.short ==>
               && !i.revoked && now < i.expires && (i.target == None || i.target == Some(me))
               && (i.short ==> i.claimed == None || i.claimed == Some(me)))
  }

  /** The slot's owner, as the class of the row tells it. */
  function IssuerOf(s: Relay, k: Pair, row: Handshake): Option<string> {
    if row.provenance == Ceremony && row.via.Some? && row.via.value in s.invites
       && (s.invites[row.via.value].inviter == k.a || s.invites[row.via.value].inviter == k.b)
    then Some(s.invites[row.via.value].inviter)
    else if row.provenance == Attested && row.via == None then Some(k.a)
    else None
  }

  /** An accept activates exactly a current ceremony; on an active row it sets no more than the redeemer's own slot. */
  lemma AcceptExactly(s: Relay, k: Pair, generation: nat, me: string, says: Option<bool>, now: real)
    ensures var yes := says == Some(true);
      Accept(s, k, generation, me, says, now).rows
      == if Current(s, k, generation, me, now)
         then s.rows[k := s.rows[k].(status := Active, pendingUntil := None, redeemer := None,
                                     redeemerSays := yes, capable := s.rows[k].minterSays && yes)]
         else if k in s.rows && s.rows[k].status == Active && s.rows[k].generation == generation && says.Some?
                 && (me == k.a || me == k.b)
                 && IssuerOf(s, k, s.rows[k]).Some? && me == Other(k, IssuerOf(s, k, s.rows[k]).value)
         then s.rows[k := s.rows[k].(redeemerSays := yes, capable := s.rows[k].minterSays && yes)]
         else s.rows
  {
    var u := Said(s, me, k, generation, says).(clock := now);
    assert u == s.(spoke := u.spoke, clock := now);
    assert Acceptable(u, k, generation, me, now) && Party(k, me) <==> Current(s, k, generation, me, now);
    if k in s.rows {
      assert SlotOwner(u.invites, k, u.rows[k]) == IssuerOf(s, k, s.rows[k]);
    }
  }

  /** An advertisement sets its own party's slot of an active row of that generation, whatever it had said before. */
  lemma AdvertiseExactly(s: Relay, k: Pair, generation: nat, me: string, says: Option<bool>)
    ensures var t := Advertise(s, k, generation, me, says).rows;
      if k in s.rows && s.rows[k].status == Active && s.rows[k].generation == generation && says.Some? && (me == k.a || me == k.b)
      then var row := s.rows[k];
        var minter := if row.via.Some? && row.via.value in s.invites then s.invites[row.via.value].inviter else k.a;
        t == s.rows[k := if me == minter then row.(minterSays := says.value, capable := says.value && row.redeemerSays)
                         else row.(redeemerSays := says.value, capable := says.value && row.minterSays)]
      else t == s.rows
  {
    var u := Said(s, me, k, generation, says);
    assert u == s.(spoke := u.spoke);
  }

  /** A capable link shown to an active pair sets its issuer's slot, where the class of the row says whose slot is whose. */
  lemma UpgradeExactly(s: Relay, k: Pair, i: Invite)
    requires k in s.rows
    ensures var row := s.rows[k]; var issuer := IssuerOf(s, k, row);
      Upgraded(s, k, i) ==
        if row.status == Active && i.encrypts && !row.capable && issuer.Some? && (i.inviter == k.a || i.inviter == k.b)
        then s.(rows := s.rows[k := if i.inviter == issuer.value then row.(minterSays := true, capable := row.redeemerSays)
                                    else row.(redeemerSays := true, capable := row.minterSays)])
        else s
  {
    assert SlotOwner(s.invites, k, s.rows[k]) == IssuerOf(s, k, s.rows[k]);
  }

  // ----- revoke and sweep -----------------------------------------------------------------

  /** A revoke by either enrolled name ends the pair's row one generation up, kills its link for it and all its live mail. */
  lemma RevokeExactly(s: Relay, x: string, y: string, now: real, id: string)
    ensures var t := Revoke(s, x, y, now);
      if x in s.peers && y in s.peers && s.peers[x] != s.peers[y]
         && PairOf(s.peers[x], s.peers[y]) in s.rows && s.rows[PairOf(s.peers[x], s.peers[y])].status != Revoked
      then
        var k := PairOf(s.peers[x], s.peers[y]); var row := s.rows[k];
        && t.rows == s.rows[k := row.(status := Revoked, pendingUntil := None, redeemer := None, generation := row.generation + 1)]
        && t.killed == (if row.via.Some? then s.killed + {(row.via.value, k)} else s.killed)
        && t.mail.Keys == s.mail.Keys
        && (id in s.mail ==>
              var m := s.mail[id];
              t.mail[id] == if ((m.sender == x && m.recipient == y) || (m.sender == y && m.recipient == x))
                               && m.acked == None && now < m.until
                            then m.(until := now, dead := true) else m)
      else t == s.(clock := now)
  {
  }

  /** A sweep retires the rows whose time is over, ceremonies and active ones alike, at their generation. */
  lemma SweepRetiresExactly(s: Relay, pruned: set<string>, expiry: real, at: real, k: Pair)
    ensures var t := Sweep(s, pruned, expiry, at);
      && t.rows.Keys == s.rows.Keys
      && (k in s.rows ==>
            var row := s.rows[k];
            var over := (row.status == Pending && row.pendingUntil.Some? && row.pendingUntil.value <= at)
                        || (row.status != Revoked && expiry > 0.0 && row.until.Some? && row.until.value <= at);
            t.rows[k] == if over then row.(status := Revoked, pendingUntil := None, redeemer := None) else row)
  {
  }

  /** A sweep removes acknowledged mail a week after the acknowledgement or at its end, other mail a week after its end, and the overflow. */
  lemma SweepRemovesExactly(s: Relay, pruned: set<string>, expiry: real, at: real, id: string)
    requires id in s.mail
    ensures var t := Sweep(s, pruned, expiry, at); var m := s.mail[id];
      var done := match m.acked case Some(acked) => m.until <= at || acked + 604800.0 <= at case None => m.until + 604800.0 <= at;
      && (id in t.mail <==> !done && (id in pruned ==> m.acked.Some? || at < m.until))
      && (id in t.mail ==> t.mail[id] == m)
  {
  }

  /** A collection counts the poll for the recipient's own live mail, and keeps the time of the first. */
  lemma CollectExactly(s: Relay, recipient: string, ids: set<string>, at: real, id: string)
    ensures var t := Collect(s, recipient, ids, at);
      && t == s.(mail := t.mail) && t.mail.Keys == s.mail.Keys
      && (id in s.mail ==>
            var m := s.mail[id];
            t.mail[id] == if id in ids && m.recipient == recipient && at < m.until && !m.dead
                          then m.(fetches := m.fetches + 1, collected := if m.collected == None then Some(at) else m.collected) else m)
  {
  }

  /** A poll returns the recipient's own unacknowledged, unexpired mail and nothing else. */
  lemma PollExactly(s: Relay, recipient: string, at: real, id: string)
    ensures id in Poll(s.mail, recipient, at) <==>
      id in s.mail && s.mail[id].recipient == recipient && s.mail[id].acked == None && at < s.mail[id].until
  {
  }
}
