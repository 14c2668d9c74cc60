/** The invariant of the consent and mailbox tables and its preservation by every transaction. */
module ConsentSafety {
  import opened Wrappers
  import opened ConsentState

  // ----- the invariant --------------------------------------------------------------------

  predicate InviteInv(i: Invite) {
    && i.uses <= i.maxUses
    && (i.claimed.Some? ==> i.short && i.target == i.claimed && i.claimed.value != i.inviter)
    && (i.short && i.claimed == None ==> i.target == None)
  }

  /** `who` itself said, about this pair at this generation, that it can encrypt. */
  ghost predicate Vouched(s: Relay, who: string, k: Pair, generation: nat) {
    Advert(who, k, generation) in s.spoke
  }

  /** The slots of a live row hold only what their owners said; capability is their conjunction. */
  ghost predicate SlotInv(s: Relay, k: Pair, row: Handshake) {
    && (row.capable <==> row.minterSays && row.redeemerSays)
    && (row.status != Revoked && row.minterSays ==> Vouched(s, MinterOf(s.invites, k, row), k, row.generation))
    && (row.status != Revoked && row.redeemerSays ==>
          Vouched(s, Other(k, MinterOf(s.invites, k, row)), k, row.generation))
  }

  predicate LinkBacked(s: Relay, k: Pair, row: Handshake) {
    row.via.Some? ==>
      && row.via.value in s.invites && Party(k, s.invites[row.via.value].inviter)
      && s.invites[row.via.value].handshake
      && ((row.via.value, k) in s.killed ==> row.status == Revoked)
  }

  predicate StageInv(s: Relay, k: Pair, row: Handshake) {
    if row.status == Pending then
      && row.via.Some? && row.via.value in s.invites && row.provenance == Ceremony
      && row.redeemer == Some(Other(k, s.invites[row.via.value].inviter))
      && row.pendingUntil.Some? && !row.redeemerSays
    else row.redeemer == None && row.pendingUntil == None
  }

  ghost predicate RowInv(s: Relay, k: Pair) {
    k in s.rows ==> k.a != k.b && LinkBacked(s, k, s.rows[k]) && StageInv(s, k, s.rows[k]) && SlotInv(s, k, s.rows[k])
  }

  predicate Links(s: Relay) {
    forall l :: l in s.invites ==> InviteInv(s.invites[l])
  }

  ghost predicate Quota(invites: map<string, Invite>, since: real) {
    forall who, t: real {:trigger OpenLinks(invites, who, t)} :: since <= t ==> |OpenLinks(invites, who, t)| <= INVITE_QUOTA
  }

  ghost predicate Bounded(mail: map<string, Message>, since: real) {
    forall r, t: real {:trigger Poll(mail, r, t)} :: since <= t ==> |Poll(mail, r, t)| <= PENDING_CAP
  }

  predicate Injective(peers: map<string, string>) {
    forall x, y :: x in peers && y in peers && peers[x] == peers[y] ==> x == y
  }

  predicate Numbered(s: Relay) {
    forall id :: id in s.mail ==> s.mail[id].serial < s.serial
  }

  ghost predicate Rows(s: Relay) {
    forall k :: RowInv(s, k)
  }

  ghost predicate Inv(s: Relay) {
    && Links(s) && Rows(s)
    && Quota(s.invites, s.clock) && Bounded(s.mail, s.clock)
    && Injective(s.peers) && Numbered(s)
  }

  // ----- frames ---------------------------------------------------------------------------

  /** Links keep their terms; they are only spent, claimed once and revoked. */
  predicate LinkKept(i: Invite, j: Invite) {
    && j.inviter == i.inviter && j.expires == i.expires && j.maxUses == i.maxUses && i.uses <= j.uses
    && (i.revoked ==> j.revoked) && j.handshake == i.handshake && j.encrypts == i.encrypts && j.short == i.short
    && (!i.short ==> j.target == i.target) && (i.claimed.Some? ==> j.claimed == i.claimed)
  }

  predicate LinksKept(i: map<string, Invite>, j: map<string, Invite>) {
    forall l :: l in i ==> l in j && LinkKept(i[l], j[l])
  }

  /** The evidence only grows. */
  predicate EvidenceKept(s: Relay, t: Relay) {
    LinksKept(s.invites, t.invites) && s.spoke <= t.spoke && s.killed <= t.killed
  }

  /** A row that nobody touched stays sound while the evidence grows elsewhere. */
  lemma RowKept(s: Relay, t: Relay, k: Pair)
    requires EvidenceKept(s, t) && RowInv(s, k)
    requires k in s.rows && k in t.rows && t.rows[k] == s.rows[k]
    requires t.rows[k].via.Some? && (t.rows[k].via.value, k) in t.killed ==> (t.rows[k].via.value, k) in s.killed
    ensures RowInv(t, k)
  {
    var row := s.rows[k];
    if row.via.Some? {
      assert LinkKept(s.invites[row.via.value], t.invites[row.via.value]);
    }
    assert MinterOf(s.invites, k, row) == MinterOf(t.invites, k, row);
  }

  lemma RowsKept(s: Relay, t: Relay)
    requires Rows(s) && EvidenceKept(s, t) && t.rows == s.rows && t.killed == s.killed
    ensures Rows(t)
  {
    forall k ensures RowInv(t, k) {
      assert RowInv(s, k);
      if k in s.rows {
        RowKept(s, t, k);
      }
    }
  }

  lemma SubsetCard<T>(a: set<T>, b: set<T>)
    requires a <= b
    ensures |a| <= |b|
  {
    assert b == a + (b - a);
  }

  /** Spending, revoking and claiming never reopens a link, so no quota is exceeded. */
  lemma QuotaKept(i: map<string, Invite>, j: map<string, Invite>, since: real, now: real)
    requires Quota(i, since) && since <= now && LinksKept(i, j) && j.Keys == i.Keys
    ensures Quota(j, now)
  {
    forall who, t: real | now <= t ensures |OpenLinks(j, who, t)| <= INVITE_QUOTA {
      assert OpenLinks(j, who, t) <= OpenLinks(i, who, t) by {
        forall l | l in OpenLinks(j, who, t) ensures l in OpenLinks(i, who, t) {
          assert LinkKept(i[l], j[l]);
        }
      }
      SubsetCard(OpenLinks(j, who, t), OpenLinks(i, who, t));
    }
  }

  /** Mail that only dies, is acknowledged, is counted or disappears never fills a queue. */
  predicate MailShrinks(a: map<string, Message>, b: map<string, Message>) {
    forall id :: id in b ==>
      && id in a && b[id].serial == a[id].serial && b[id].recipient == a[id].recipient && b[id].sender == a[id].sender
      && b[id].until <= a[id].until && (a[id].acked.Some? ==> b[id].acked.Some?)
  }

  lemma BoundedKept(a: map<string, Message>, b: map<string, Message>, since: real, now: real)
    requires Bounded(a, since) && since <= now && MailShrinks(a, b)
    ensures Bounded(b, now)
  {
    forall r, t: real | now <= t ensures |Poll(b, r, t)| <= PENDING_CAP {
      assert Poll(b, r, t) <= Poll(a, r, t);
      SubsetCard(Poll(b, r, t), Poll(a, r, t));
    }
  }

  lemma OneMore<T>(a: set<T>, b: set<T>, x: T)
    requires a <= b + {x}
    ensures |a| <= |b| + 1
  {
    SubsetCard(a, b + {x});
  }

  // ----- links ----------------------------------------------------------------------------

  lemma ChangedLinkKeepsInv(s: Relay, id: string, j: Invite, now: real)
    requires Inv(s) && s.clock <= now
    requires id in s.invites && LinkKept(s.invites[id], j) && InviteInv(j)
    ensures Inv(s.(invites := s.invites[id := j], clock := now))
    ensures EvidenceKept(s, s.(invites := s.invites[id := j], clock := now))
  {
    var t := s.(invites := s.invites[id := j], clock := now);
    assert LinksKept(s.invites, t.invites);
    RowsKept(s, t);
    assert t.invites.Keys == s.invites.Keys;
    QuotaKept(s.invites, t.invites, s.clock, now);
    BoundedKept(s.mail, t.mail, s.clock, now);
  }

  lemma ClockKeepsInv(s: Relay, now: real)
    requires Inv(s) && s.clock <= now
    ensures Inv(s.(clock := now)) && EvidenceKept(s, s.(clock := now))
  {
    var t := s.(clock := now);
    assert LinksKept(s.invites, t.invites);
    RowsKept(s, t);
    QuotaKept(s.invites, t.invites, s.clock, now);
    BoundedKept(s.mail, t.mail, s.clock, now);
  }

  lemma NewLinkKeepsQuota(invites: map<string, Invite>, id: string, j: Invite, since: real, now: real)
    requires Quota(invites, since) && since <= now && id !in invites
    requires |OpenLinks(invites, j.inviter, now)| < INVITE_QUOTA
    ensures Quota(invites[id := j], now)
  {
    var more := invites[id := j];
    forall who, t: real | now <= t ensures |OpenLinks(more, who, t)| <= INVITE_QUOTA {
      if who == j.inviter {
        assert OpenLinks(more, who, t) <= OpenLinks(invites, who, now) + {id};
        OneMore(OpenLinks(more, who, t), OpenLinks(invites, who, now), id);
      } else {
        assert OpenLinks(more, who, t) == OpenLinks(invites, who, t);
      }
    }
  }

  lemma MintKeepsInv(s: Relay, who: string, kind: LinkKind, uses: int, seconds: real, says: Option<bool>,
                     id: string, asked: real, now: real)
    requires Inv(s) && s.clock <= now
    ensures var t := Mint(s, who, kind, uses, seconds, says, id, asked, now); Inv(t) && EvidenceKept(s, t)
  {
    var t := Mint(s, who, kind, uses, seconds, says, id, asked, now);
    ClockKeepsInv(s, now);
    if t.invites != s.invites {
      assert LinksKept(s.invites, t.invites);
      RowsKept(s, t);
      NewLinkKeepsQuota(s.invites, id, t.invites[id], s.clock, now);
      BoundedKept(s.mail, t.mail, s.clock, now);
    }
  }

  lemma RevokeLinkKeepsInv(s: Relay, who: string, operator: bool, id: string)
    requires Inv(s)
    ensures var t := RevokeLink(s, who, operator, id); Inv(t) && EvidenceKept(s, t)
  {
    ClockKeepsInv(s, s.clock);
    if id in s.invites {
      ChangedLinkKeepsInv(s, id, s.invites[id].(revoked := true), s.clock);
    }
  }

  lemma EnrolByLinkKeepsInv(s: Relay, id: string, now: real)
    requires Inv(s) && s.clock <= now
    ensures var t := EnrolByLink(s, id, now); Inv(t) && EvidenceKept(s, t)
  {
    ClockKeepsInv(s, now);
    if id in s.invites && Spendable(s.invites[id], now) {
      ChangedLinkKeepsInv(s, id, s.invites[id].(uses := s.invites[id].uses + 1), now);
    }
  }

  lemma EnrolKeepsInv(s: Relay, name: string, identity: string)
    requires Inv(s)
    ensures var t := Enrol(s, name, identity); Inv(t) && EvidenceKept(s, t)
  {
    var t := Enrol(s, name, identity);
    assert LinksKept(s.invites, t.invites);
    RowsKept(s, t);
    assert Injective(t.peers) by {
      forall x, y | x in t.peers && y in t.peers && t.peers[x] == t.peers[y] ensures x == y {
        assert x in s.peers ==> s.peers[x] in s.peers.Values;
        assert y in s.peers ==> s.peers[y] in s.peers.Values;
      }
    }
  }

  // ----- one row changes ------------------------------------------------------------------

  /** Replacing one row by a sound one keeps the invariant. */
  lemma ChangedRowKeepsInv(s: Relay, k: Pair, row: Handshake, now: real)
    requires Inv(s) && s.clock <= now
    requires RowInv(s.(rows := s.rows[k := row]), k)
    ensures Inv(s.(rows := s.rows[k := row], clock := now))
  {
    var t := s.(rows := s.rows[k := row], clock := now);
    var u := s.(rows := s.rows[k := row]);
    assert LinksKept(s.invites, t.invites);
    assert LinksKept(u.invites, t.invites);
    forall x ensures RowInv(t, x) {
      assert RowInv(s, x);
      if x == k {
        RowKept(u, t, k);
      } else if x in s.rows {
        RowKept(s, t, x);
      }
    }
    QuotaKept(s.invites, t.invites, s.clock, now);
    BoundedKept(s.mail, t.mail, s.clock, now);
  }

  lemma SaidKeepsInv(s: Relay, me: string, k: Pair, generation: nat, says: Option<bool>)
    requires Inv(s)
    ensures var t := Said(s, me, k, generation, says);
      Inv(t) && EvidenceKept(s, t) && (says == Some(true) ==> Vouched(t, me, k, generation))
  {
    var t := Said(s, me, k, generation, says);
    assert LinksKept(s.invites, t.invites);
    RowsKept(s, t);
  }

  lemma OwnersAgree(s: Relay, k: Pair)
    requires k in s.rows && RowInv(s, k) && SlotOwner(s.invites, k, s.rows[k]).Some?
    ensures SlotOwner(s.invites, k, s.rows[k]).value == MinterOf(s.invites, k, s.rows[k])
    ensures Party(k, MinterOf(s.invites, k, s.rows[k]))
  {
  }

  lemma MinterIsParty(s: Relay, k: Pair)
    requires k in s.rows && RowInv(s, k)
    ensures Party(k, MinterOf(s.invites, k, s.rows[k]))
  {
  }

  lemma UpgradedKeepsInv(s: Relay, k: Pair, link: string)
    requires Inv(s) && k in s.rows && link in s.invites
    requires s.invites[link].encrypts ==> Vouched(s, s.invites[link].inviter, k, s.rows[k].generation)
    ensures Inv(Upgraded(s, k, s.invites[link]))
  {
    var i := s.invites[link];
    var t := Upgraded(s, k, i);
    assert RowInv(s, k);
    if t != s {
      OwnersAgree(s, k);
      assert t.rows == s.rows[k := t.rows[k]];
      assert SlotInv(t, k, t.rows[k]) by {
        assert MinterOf(t.invites, k, t.rows[k]) == MinterOf(s.invites, k, s.rows[k]);
      }
      ChangedRowKeepsInv(s, k, t.rows[k], s.clock);
    }
  }

  lemma CeremonialIsSound(s: Relay, k: Pair, i: Invite, q: Redemption, generation: nat, expiry: real, now: real)
    requires q.link in s.invites && LinkKept(i, s.invites[q.link]) && i.handshake
    requires k == PairOf(i.inviter, q.redeemer) && i.inviter != q.redeemer && (q.link, k) !in s.killed
    requires i.encrypts ==> Vouched(s, i.inviter, k, generation)
    ensures RowInv(s.(rows := s.rows[k := Ceremonial(i, q, generation, expiry, now)]), k)
  {
    var row := Ceremonial(i, q, generation, expiry, now);
    var t := s.(rows := s.rows[k := row]);
    assert MinterOf(t.invites, k, row) == i.inviter;
  }

  lemma PairedKeepsInv(s: Relay, k: Pair, i: Invite, q: Redemption, expiry: real, now: real)
    requires Inv(s) && q.link in s.invites && LinkKept(i, s.invites[q.link]) && i.handshake
    requires !i.short ==> s.invites[q.link] == i
    requires k == PairOf(i.inviter, q.redeemer) && i.inviter != q.redeemer
    requires i.encrypts ==> Vouched(s, i.inviter, k, NextGeneration(s, k, i, q))
    ensures var r := Paired(s, k, i, q, expiry, now); r.Some? ==> Inv(r.value) && EvidenceKept(s, r.value)
  {
    var r := Paired(s, k, i, q, expiry, now);
    if r.Some? {
      if k in s.rows && Idempotent(i, q, s.rows[k], now) {
        UpgradedKeepsInv(s, k, q.link);
        assert Upgraded(s, k, i) == Upgraded(s, k, s.invites[q.link]);
        assert r.value.invites == s.invites;
      } else {
        var t := if i.short then s else Spent(s, q.link);
        if !i.short {
          ChangedLinkKeepsInv(s, q.link, t.invites[q.link], s.clock);
          assert t == s.(invites := s.invites[q.link := t.invites[q.link]], clock := s.clock);
        }
        assert Inv(t) && LinksKept(s.invites, t.invites);
        CeremonialIsSound(t, k, i, q, NextGeneration(s, k, i, q), expiry, now);
        ChangedRowKeepsInv(t, k, Ceremonial(i, q, NextGeneration(s, k, i, q), expiry, now), t.clock);
      }
    }
  }

  lemma ClaimedKeepsInv(s: Relay, q: Redemption, now: real)
    requires Inv(s) && q.link in s.invites && Presentable(s.invites[q.link], q) && Confirmed(s.invites[q.link], q, now)
    ensures Inv(Claimed(s, q)) && LinkKept(s.invites[q.link], Claimed(s, q).invites[q.link])
    ensures EvidenceKept(s, Claimed(s, q))
  {
    var i := s.invites[q.link];
    var t := Claimed(s, q);
    assert LinkKept(i, t.invites[q.link]);
    ChangedLinkKeepsInv(s, q.link, t.invites[q.link], s.clock);
    assert s.invites[q.link := i] == s.invites;
    assert t == s.(invites := s.invites[q.link := t.invites[q.link]], clock := s.clock);
  }

  lemma HeardKeepsInv(s: Relay, k: Pair, i: Invite, q: Redemption)
    requires Inv(s)
    ensures var t := Heard(s, k, i, q); Inv(t) && EvidenceKept(s, t)
  {
    var t := Heard(s, k, i, q);
    assert LinksKept(s.invites, t.invites);
    RowsKept(s, t);
  }

  lemma RedeemKeepsInv(s: Relay, q: Redemption, expiry: real, now: real)
    requires Inv(s) && s.clock <= now
    ensures var t := Redeem(s, q, expiry, now); Inv(t) && EvidenceKept(s, t)
  {
    ClockKeepsInv(s, now);
    var r := TryRedeem(s, q, expiry, now);
    if r.Some? {
      var i := s.invites[q.link];
      var c := Claimed(s, q);
      ClaimedKeepsInv(s, q, now);
      var k := PairOf(i.inviter, q.redeemer);
      var h := Heard(c, k, i, q);
      HeardKeepsInv(c, k, i, q);
      PairedKeepsInv(h, k, i, q, expiry, now);
      EvidenceTransitive(s, c, h);
      EvidenceTransitive(s, h, r.value);
      assert r.value.clock == s.clock;
      ClockKeepsInv(r.value, now);
      EvidenceTransitive(s, r.value, r.value.(clock := now));
    }
  }

  lemma EvidenceTransitive(s: Relay, t: Relay, u: Relay)
    requires EvidenceKept(s, t) && EvidenceKept(t, u)
    ensures EvidenceKept(s, u)
  {
    forall l | l in s.invites ensures l in u.invites && LinkKept(s.invites[l], u.invites[l]) {
      assert LinkKept(s.invites[l], t.invites[l]);
      assert LinkKept(t.invites[l], u.invites[l]);
    }
  }

  // ----- accept, advertise, revoke --------------------------------------------------------

  lemma AcceptedRowIsSound(v: Relay, k: Pair, generation: nat, me: string, says: Option<bool>, now: real)
    requires RowInv(v, k) && Acceptable(v, k, generation, me, now)
    requires says == Some(true) ==> Vouched(v, me, k, generation)
    ensures RowInv(v.(rows := v.rows[k := Accepted(v.rows[k], says)]), k)
  {
    var row := Accepted(v.rows[k], says);
    assert MinterOf(v.invites, k, row) == MinterOf(v.invites, k, v.rows[k]);
    assert me == Other(k, MinterOf(v.invites, k, v.rows[k]));
  }

  lemma AcceptKeepsInv(s: Relay, k: Pair, generation: nat, me: string, says: Option<bool>, now: real)
    requires Inv(s) && s.clock <= now
    ensures var t := Accept(s, k, generation, me, says, now); Inv(t) && EvidenceKept(s, t)
  {
    var u := Said(s, me, k, generation, says);
    SaidKeepsInv(s, me, k, generation, says);
    ClockKeepsInv(u, now);
    var v := u.(clock := now);
    EvidenceTransitive(s, u, v);
    var t := Accept(s, k, generation, me, says, now);
    assert RowInv(v, k);
    if Party(k, me) && Acceptable(v, k, generation, me, now) {
      AcceptedRowIsSound(v, k, generation, me, says, now);
      ChangedRowKeepsInv(v, k, t.rows[k], now);
      assert t == v.(rows := v.rows[k := t.rows[k]], clock := now);
    } else if Party(k, me) && says.Some? && Reaccepts(v, k, generation, me) {
      OwnersAgree(v, k);
      var row := v.rows[k].(redeemerSays := says.value, capable := v.rows[k].minterSays && says.value);
      AdvertisedRowIsSound(v, k, generation, me, says.value, row);
      ChangedRowKeepsInv(v, k, row, now);
      assert t == v.(rows := v.rows[k := row], clock := now);
    }
  }

  lemma AdvertisedRowIsSound(v: Relay, k: Pair, generation: nat, me: string, says: bool, row: Handshake)
    requires k in v.rows && RowInv(v, k) && Party(k, me)
    requires v.rows[k].status == Active && v.rows[k].generation == generation
    requires says ==> Vouched(v, me, k, generation)
    requires row == if me == MinterOf(v.invites, k, v.rows[k])
                    then v.rows[k].(minterSays := says, capable := says && v.rows[k].redeemerSays)
                    else v.rows[k].(redeemerSays := says, capable := v.rows[k].minterSays && says)
    ensures RowInv(v.(rows := v.rows[k := row]), k)
  {
    MinterIsParty(v, k);
    assert MinterOf(v.invites, k, row) == MinterOf(v.invites, k, v.rows[k]);
  }

  lemma AdvertiseKeepsInv(s: Relay, k: Pair, generation: nat, me: string, says: Option<bool>)
    requires Inv(s)
    ensures var t := Advertise(s, k, generation, me, says); Inv(t) && EvidenceKept(s, t)
  {
    var v := Said(s, me, k, generation, says);
    SaidKeepsInv(s, me, k, generation, says);
    var t := Advertise(s, k, generation, me, says);
    assert RowInv(v, k);
    if Party(k, me) && k in v.rows && says.Some? && v.rows[k].status == Active && v.rows[k].generation == generation {
      var row := t.rows[k];
      AdvertisedRowIsSound(v, k, generation, me, says.value, row);
      ChangedRowKeepsInv(v, k, row, v.clock);
      assert t == v.(rows := v.rows[k := row], clock := v.clock);
    }
  }

  lemma RevokeKeepsInv(s: Relay, x: string, y: string, now: real)
    requires Inv(s) && s.clock <= now
    ensures var t := Revoke(s, x, y, now); Inv(t) && EvidenceKept(s, t)
  {
    var t := Revoke(s, x, y, now);
    ClockKeepsInv(s, now);
    if Revocable(s, x, y) {
      var k := PairOf(s.peers[x], s.peers[y]);
      assert LinksKept(s.invites, t.invites);
      forall z ensures RowInv(t, z) {
        assert RowInv(s, z);
        if z in s.rows && z != k {
          RowKept(s, t, z);
        }
      }
      QuotaKept(s.invites, t.invites, s.clock, now);
      BoundedKept(s.mail, t.mail, s.clock, now);
    }
  }

  // ----- mail and sweep -------------------------------------------------------------------

  lemma MailOnlyKeepsInv(s: Relay, mail: map<string, Message>)
    requires Inv(s) && MailShrinks(s.mail, mail)
    ensures Inv(s.(mail := mail)) && EvidenceKept(s, s.(mail := mail))
  {
    var t := s.(mail := mail);
    assert LinksKept(s.invites, t.invites);
    RowsKept(s, t);
    BoundedKept(s.mail, mail, s.clock, s.clock);
  }

  lemma StoredKeepsInv(s: Relay, id: string, x: string, y: string, body: string, until: real, now: real)
    requires Inv(s) && s.clock <= now && id !in s.mail && |Poll(s.mail, y, now)| < PENDING_CAP
    ensures var t := Stored(s, id, x, y, body, until, now); Inv(t) && EvidenceKept(s, t)
  {
    var t := Stored(s, id, x, y, body, until, now);
    ClockKeepsInv(s, now);
    assert LinksKept(s.invites, t.invites);
    RowsKept(s, t);
    forall r, w: real | now <= w ensures |Poll(t.mail, r, w)| <= PENDING_CAP {
      if r == y {
        assert Poll(t.mail, y, w) <= Poll(s.mail, y, now) + {id};
        OneMore(Poll(t.mail, y, w), Poll(s.mail, y, now), id);
      } else {
        assert Poll(t.mail, r, w) == Poll(s.mail, r, w);
      }
    }
  }

  lemma SendKeepsInv(s: Relay, id: string, x: string, y: string, body: string, ttl: real, lane: bool, now: real)
    requires Inv(s) && s.clock <= now
    ensures var t := Send(s, id, x, y, body, ttl, lane, now); Inv(t) && EvidenceKept(s, t)
  {
    if SendVerdict(s, id, x, y, lane, now) == Taken {
      StoredKeepsInv(s, id, x, y, body, now + ttl, now);
    } else {
      ClockKeepsInv(s, now);
    }
  }

  lemma DeliverKeepsInv(s: Relay, id: string, x: string, y: string, body: string, until: real, lane: bool, now: real)
    requires Inv(s) && s.clock <= now
    ensures var t := Deliver(s, id, x, y, body, until, lane, now); Inv(t) && EvidenceKept(s, t)
  {
    if DeliverVerdict(s, id, x, y, body, lane, now) == Taken {
      StoredKeepsInv(s, id, x, y, body, until, now);
    } else {
      ClockKeepsInv(s, now);
    }
  }

  lemma {:induction false} AckShrinks(mail: map<string, Message>, recipient: string, ids: seq<string>, at: real)
    ensures MailShrinks(mail, AckAll(mail, recipient, ids, at)) && AckAll(mail, recipient, ids, at).Keys == mail.Keys
  {
    if ids != [] {
      AckShrinks(mail, recipient, ids[..|ids| - 1], at);
    }
  }

  /** After a sweep the dead letters are exactly the newest that it keeps. */
  lemma SweepKeepsTheNewest(mail: map<string, Message>, pruned: set<string>, at: real)
    requires Overflow(mail, pruned, at)
    ensures var t := SweptMail(mail, pruned, at);
      && DeadLetters(t, at) == DeadLetters(mail, at) - pruned
      && |DeadLetters(t, at)| == (if |DeadLetters(mail, at)| < 2000 then |DeadLetters(mail, at)| else 2000)
      && forall id :: id in mail && id !in t ==>
           Finished(mail[id], at) || (forall k :: k in DeadLetters(t, at) ==> mail[id].sent <= mail[k].sent)
  {
    var t := SweptMail(mail, pruned, at);
    assert DeadLetters(t, at) == DeadLetters(mail, at) - pruned;
  }

  lemma SweepKeepsInv(s: Relay, pruned: set<string>, expiry: real, at: real)
    requires Inv(s)
    ensures var t := Sweep(s, pruned, expiry, at); Inv(t) && EvidenceKept(s, t)
  {
    var mid := s.(mail := SweptMail(s.mail, pruned, at));
    var t := Sweep(s, pruned, expiry, at);
    MailOnlyKeepsInv(s, mid.mail);
    forall z ensures RowInv(t, z) {
      assert RowInv(mid, z);
      if z in mid.rows && t.rows[z] == mid.rows[z] {
        assert LinksKept(mid.invites, t.invites);
        RowKept(mid, t, z);
      }
    }
  }
}
