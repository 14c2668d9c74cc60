/**
The relay's handlers as a program over its tables. Each method is one transaction under the write
lock and is proved to take the tables exactly where the specification says.
*/
module RelayServer {
  import opened Wrappers
  import opened ConsentState
  import opened ConsentSafety
  import opened ConsentRuns

  lemma CollectOneMore(s: Relay, recipient: string, done: set<string>, id: string, at: real)
    requires id !in done
    ensures ConsentState.Collect(ConsentState.Collect(s, recipient, done, at), recipient, {id}, at).mail
      == ConsentState.Collect(s, recipient, done + {id}, at).mail
  {
  }

  class Server {
    var peers: map<string, string>
    var invites: map<string, Invite>
    var rows: map<Pair, Handshake>
    var killed: set<(string, Pair)>
    var mail: map<string, Message>
    var serial: nat
    ghost var spoke: set<Advert>
    ghost var clock: real

    ghost function State(): Relay
      reads this
    {
      Relay(peers, invites, rows, killed, mail, serial, spoke, clock)
    }

    ghost predicate Valid()
      reads this
    {
      Inv(State())
    }

    constructor ()
      ensures Valid() && Silent()
    {
      peers, invites, rows, killed, mail, serial, spoke, clock := map[], map[], map[], {}, map[], 0, {}, 0.0;
      new;
      assert forall who, t: real :: OpenLinks(invites, who, t) == {};
      assert forall r, t: real :: Poll(mail, r, t) == {};
    }

    ghost predicate Silent()
      reads this
    {
      spoke == {} && invites == map[]
    }

    // ----- links --------------------------------------------------------------------------

    method Mint(who: string, kind: LinkKind, uses: int, seconds: real, says: Option<bool>,
                id: string, asked: real, now: real) returns (ok: bool)
      requires Valid() && clock <= now
      modifies this
      ensures Valid() && State() == ConsentState.Mint(old(State()), who, kind, uses, seconds, says, id, asked, now)
      ensures ok <==> id !in old(invites) && id in invites
    {
      ghost var s := State();
      MintKeepsInv(s, who, kind, uses, seconds, says, id, asked, now);
      ok := false;
      clock := now;
      if kind.Short? && uses != 1 {
        return;
      }
      if kind.Public? {
        if uses != 1 || kind.target !in peers.Values || kind.target == who {
          return;
        }
      }
      if uses < 1 || INVITE_MAX_USES < uses || seconds < INVITE_MIN_EXPIRY || INVITE_MAX_EXPIRY < seconds {
        return;
      }
      assert MintAllowed(s, who, kind, uses, seconds);
      var open := OpenLinks(invites, who, now);
      if |open| >= INVITE_QUOTA || id in invites {
        return;
      }
      var encrypts := match says case Some(v) => v case None => kind.Short?;
      var target := if kind.Public? then Some(kind.target) else None;
      var link := Invite(who, asked + seconds, uses, 0, false, !kind.Enrolment?, encrypts && !kind.Enrolment?,
                         target, kind.Short?, None);
      assert link == Minted(who, kind, uses, asked + seconds, says);
      invites := invites[id := link];
      ok := true;
    }

    method RevokeLink(who: string, operator: bool, id: string) returns (ok: bool)
      requires Valid()
      modifies this
      ensures Valid() && State() == ConsentState.RevokeLink(old(State()), who, operator, id)
      ensures ok <==> id in old(invites) && (old(invites)[id].inviter == who || operator)
      ensures ok ==> invites[id].revoked
    {
      RevokeLinkKeepsInv(State(), who, operator, id);
      ok := id in invites && (invites[id].inviter == who || operator);
      if ok {
        invites := invites[id := invites[id].(revoked := true)];
      }
    }

    // ----- redeem -------------------------------------------------------------------------

    /** The guarded use count: one statement revalidates the link and consumes a use. */
    method ConsumeUse(id: string, now: real) returns (ok: bool)
      requires id in invites
      modifies this`invites
      ensures ok <==> Spendable(old(invites)[id], now)
      ensures invites == if ok then Spent(old(State()), id).invites else old(invites)
    {
      var i := invites[id];
      ok := !i.revoked && now < i.expires && i.uses < i.maxUses;
      if ok {
        invites := invites[id := i.(uses := i.uses + 1)];
      }
    }

    /** The active pair's upgrade over a capable link. */
    method Upgrade(k: Pair, i: Invite)
      requires k in rows
      modifies this`rows
      ensures rows == Upgraded(old(State()), k, i).rows
    {
      var row := rows[k];
      if row.status == Active && i.encrypts && !row.capable {
        var minterSays, redeemerSays, known := row.minterSays, row.redeemerSays, false;
        match row.provenance {
          case Ceremony =>
            if row.via.Some? && row.via.value in invites {
              var origin := invites[row.via.value].inviter;
              if Party(k, origin) {
                if i.inviter == origin {
                  minterSays, known := true, true;
                } else if i.inviter == Other(k, origin) {
                  redeemerSays, known := true, true;
                }
              }
            }
          case Attested =>
            if row.via == None {
              if i.inviter == k.a {
                minterSays, known := true, true;
              } else if i.inviter == k.b {
                redeemerSays, known := true, true;
              }
            }
          case Unreviewed =>
        }
        if known {
          rows := rows[k := row.(minterSays := minterSays, redeemerSays := redeemerSays,
                                 capable := minterSays && redeemerSays)];
        }
      }
    }

    method Begin(k: Pair, i: Invite, q: Redemption, generation: nat, expiry: real, now: real)
      modifies this`rows
      ensures rows == old(rows)[k := Ceremonial(i, q, generation, expiry, now)]
    {
      var until := now + PENDING_WINDOW;
      if (i.target.Some? || i.short) && i.expires < until {
        until := i.expires;
      }
      var hard := if expiry > 0.0 then Some(now + expiry) else None;
      rows := rows[k := Handshake(Pending, Some(until), hard, Some(q.link), Some(q.redeemer), generation,
                                  false, i.encrypts, false, Ceremony)];
    }

    /** The pair part of the transaction; a refusal is rolled back by the caller. */
    method PairUp(k: Pair, i: Invite, q: Redemption, expiry: real, now: real) returns (ok: bool)
      requires q.link in invites && (!i.short ==> invites[q.link] == i)
      modifies this`rows, this`invites
      ensures ok <==> Paired(old(State()), k, i, q, expiry, now).Some?
      ensures ok ==> State() == Paired(old(State()), k, i, q, expiry, now).value
    {
      ok := false;
      if (q.link, k) in killed {
        return;
      }
      var generation := 0;
      if k in rows {
        var row := rows[k];
        var replace := (q.public || i.short) && row.status == Pending && row.via != Some(q.link);
        var live := row.pendingUntil.Some? && now < row.pendingUntil.value;
        if row.status == Active
           || (row.status == Pending && row.redeemer == Some(q.redeemer) && live
               && ((!q.public && !i.short) || row.via == Some(q.link))) {
          Upgrade(k, i);
          ok := true;
          return;
        }
        if !(row.status == Revoked || (row.status == Pending && (!live || replace))) {
          return;
        }
        generation := row.generation;
        if replace {
          if generation >= GENERATION_LIMIT {
            return;
          }
          generation := generation + 1;
        }
      }
      if !i.short {
        var consumed := ConsumeUse(q.link, now);
        if !consumed {
          return;
        }
      } else if i.claimed.Some? {
        return;
      }
      Begin(k, i, q, generation, expiry, now);
      ok := true;
    }

    /** The checks of the link, before and under the lock; a short link is bound to its first claimant. */
    method Claim(q: Redemption, now: real) returns (ok: bool)
      requires q.link in invites
      modifies this`invites
      ensures ok <==> Presentable(old(invites)[q.link], q) && Confirmed(old(invites)[q.link], q, now)
      ensures State() == if ok then Claimed(old(State()), q) else old(State())
    {
      var i := invites[q.link];
      if !Presentable(i, q) || (q.public && (i.revoked || i.expires <= now)) {
        return false;
      }
      if i.short {
        if i.revoked || i.expires <= now || (i.claimed.Some? && i.claimed.value != q.redeemer)
           || (i.claimed == None && i.uses >= i.maxUses) {
          return false;
        }
        if i.claimed == None {
          invites := invites[q.link := i.(claimed := Some(q.redeemer), target := Some(q.redeemer), uses := i.uses + 1)];
        }
      }
      return true;
    }

    method Redeem(q: Redemption, expiry: real, now: real) returns (ok: bool)
      requires Valid() && clock <= now
      modifies this
      ensures Valid() && State() == ConsentState.Redeem(old(State()), q, expiry, now)
      ensures ok <==> TryRedeem(old(State()), q, expiry, now).Some?
    {
      RedeemKeepsInv(State(), q, expiry, now);
      ok := false;
      if q.link in invites {
        var begun, begunRows, i := invites, rows, invites[q.link];
        ghost var begunSpoke := spoke;
        ok := Claim(q, now);
        if ok {
          var k := PairOf(i.inviter, q.redeemer);
          spoke := Heard(State(), k, i, q).spoke;
          ok := PairUp(k, i, q, expiry, now);
          if !ok {
            invites, rows, spoke := begun, begunRows, begunSpoke;
          }
        }
      }
      clock := now;
    }

    // ----- accept, advertise, revoke ------------------------------------------------------

    /** The guarded update, or the established redeemer's re-accept. */
    method AcceptRow(k: Pair, generation: nat, me: string, says: Option<bool>, now: real) returns (ok: bool)
      requires Party(k, me)
      modifies this`rows
      ensures rows == ConsentState.Accept(old(State()), k, generation, me, says, now).rows
      ensures ok <==> k in rows && rows[k].status == Active && rows[k].generation == generation
    {
      ok := false;
      if k !in rows {
        return;
      }
      var row := rows[k];
      var says0 := says == Some(true);
      if row.status == Pending && row.redeemer == Some(me) && row.pendingUntil.Some? && now < row.pendingUntil.value
         && row.generation == generation
         && !(row.via.Some? && row.via.value in invites && !Backed(invites[row.via.value], me, now)) {
        rows := rows[k := row.(status := Active, pendingUntil := None, redeemer := None, redeemerSays := says0,
                               capable := row.minterSays && says0)];
        ok := true;
        return;
      }
      ok := row.status == Active && row.generation == generation;
      if ok && says.Some? {
        var owner := SlotOwner(invites, k, row);
        if owner.Some? && me == Other(k, owner.value) {
          rows := rows[k := row.(redeemerSays := says.value, capable := row.minterSays && says.value)];
        }
      }
    }

    /** True when the caller is told that the pair is active. */
    method Accept(k: Pair, generation: nat, me: string, says: Option<bool>, now: real) returns (ok: bool)
      requires Valid() && clock <= now
      modifies this
      ensures Valid() && State() == ConsentState.Accept(old(State()), k, generation, me, says, now)
      ensures ok <==> Party(k, me) && k in rows && rows[k].status == Active && rows[k].generation == generation
    {
      ghost var s := State();
      ghost var t := ConsentState.Accept(s, k, generation, me, says, now);
      AcceptKeepsInv(s, k, generation, me, says, now);
      AcceptTouches(s, k, generation, me, says, now);
      ok := false;
      if me == k.a || me == k.b {
        ok := AcceptRow(k, generation, me, says, now);
      }
      spoke := Said(s, me, k, generation, says).spoke;
      clock := now;
      assert State() == t;
    }

    method Advertise(k: Pair, generation: nat, me: string, says: Option<bool>) returns (ok: bool)
      requires Valid()
      modifies this
      ensures Valid() && State() == ConsentState.Advertise(old(State()), k, generation, me, says)
      ensures ok <==> Party(k, me) && k in rows && rows[k].status == Active && rows[k].generation == generation
    {
      ghost var s := State();
      AdvertiseKeepsInv(s, k, generation, me, says);
      spoke := Said(s, me, k, generation, says).spoke;
      ok := (me == k.a || me == k.b) && k in rows && rows[k].status == Active && rows[k].generation == generation;
      if !ok || says == None {
        return;
      }
      var row := rows[k];
      var minter := k.a;
      if row.via.Some? && row.via.value in invites {
        minter := invites[row.via.value].inviter;
      }
      var minterSays, redeemerSays := row.minterSays, row.redeemerSays;
      if me == minter {
        minterSays := says.value;
      } else {
        redeemerSays := says.value;
      }
      rows := rows[k := row.(minterSays := minterSays, redeemerSays := redeemerSays, capable := minterSays && redeemerSays)];
    }

    method Revoke(x: string, y: string, now: real) returns (ok: bool)
      requires Valid() && clock <= now
      modifies this
      ensures Valid() && State() == ConsentState.Revoke(old(State()), x, y, now)
      ensures ok ==> Poll(mail, x, now) * Poll(old(mail), x, now) == set id | id in Poll(old(mail), x, now) && old(mail)[id].sender != y
    {
      ghost var s := State();
      RevokeKeepsInv(s, x, y, now);
      clock := now;
      ok := false;
      if x !in peers || y !in peers || peers[x] == peers[y] {
        return;
      }
      var k := PairOf(peers[x], peers[y]);
      if k !in rows || rows[k].status == Revoked {
        return;
      }
      var row := rows[k];
      rows := rows[k := row.(status := Revoked, pendingUntil := None, redeemer := None, generation := row.generation + 1)];
      if row.via.Some? {
        killed := killed + {(row.via.value, k)};
      }
      mail := DeadLettered(mail, x, y, now);
      ok := true;
    }

    // ----- mail ---------------------------------------------------------------------------

    method Send(id: string, x: string, y: string, body: string, ttl: real, lane: bool, now: real) returns (answer: Answer)
      requires Valid() && clock <= now
      modifies this
      ensures Valid() && State() == ConsentState.Send(old(State()), id, x, y, body, ttl, lane, now)
      ensures answer == SendVerdict(old(State()), id, x, y, lane, now)
    {
      ghost var s := State();
      SendKeepsInv(s, id, x, y, body, ttl, lane, now);
      clock := now;
      if id in mail {
        return if mail[id].sender == x then Duplicate else Collision;
      }
      if lane {
        return Collision;
      }
      if x !in peers || y !in peers {
        return NeedsConsent;
      }
      var k := PairOf(peers[x], peers[y]);
      if k !in rows || rows[k].status != Active || (rows[k].until.Some? && rows[k].until.value <= now) {
        return NeedsConsent;
      }
      var waiting := Fetch(y, now);
      if |waiting| >= PENDING_CAP {
        return QueueFull;
      }
      mail := mail[id := Message(serial, x, y, body, now, now + ttl, None, false, None, 0)];
      serial := serial + 1;
      return Taken;
    }

    /** The linked relay's delivery of a message from a sender that is not enrolled here. */
    method Deliver(id: string, x: string, y: string, body: string, until: real, lane: bool, now: real) returns (answer: Answer)
      requires Valid() && clock <= now
      modifies this
      ensures Valid() && State() == ConsentState.Deliver(old(State()), id, x, y, body, until, lane, now)
      ensures answer == DeliverVerdict(old(State()), id, x, y, body, lane, now)
      ensures answer == Taken || answer == Duplicate ==> id in mail && mail[id].sender == x && mail[id].body == body
    {
      ghost var s := State();
      DeliverKeepsInv(s, id, x, y, body, until, lane, now);
      clock := now;
      if y !in peers {
        return NotLocal;
      }
      if x in peers {
        return LocalSender;
      }
      if id in mail {
        return if mail[id].sender == x && mail[id].body == body then Duplicate else Collision;
      }
      if lane {
        return Collision;
      }
      var waiting := Fetch(y, now);
      if |waiting| >= PENDING_CAP {
        return QueueFull;
      }
      mail := mail[id := Message(serial, x, y, body, now, until, None, false, None, 0)];
      serial := serial + 1;
      return Taken;
    }

    method Fetch(recipient: string, at: real) returns (ids: set<string>)
      ensures ids == Poll(mail, recipient, at)
    {
      ids := set id | id in mail && mail[id].recipient == recipient && mail[id].acked == None && at < mail[id].until;
    }

    method MarkOne(recipient: string, id: string, at: real)
      modifies this`mail
      ensures mail == ConsentState.Collect(old(State()), recipient, {id}, at).mail
    {
      if id in mail && mail[id].recipient == recipient && at < mail[id].until && !mail[id].dead {
        var m := mail[id];
        var first := if m.collected.Some? then m.collected else Some(at);
        mail := mail[id := m.(collected := first, fetches := m.fetches + 1)];
      }
    }

    /** One update per fetched message; a message that died in between is skipped. */
    method MarkCollected(recipient: string, ids: set<string>, at: real)
      modifies this`mail
      ensures mail == ConsentState.Collect(old(State()), recipient, ids, at).mail
    {
      ghost var s := State();
      var done: set<string> := {};
      assert mail == ConsentState.Collect(s, recipient, done, at).mail;
      while done != ids
        invariant done <= ids
        invariant mail == ConsentState.Collect(s, recipient, done, at).mail
        decreases ids - done
      {
        var id :| id in ids && id !in done;
        MarkOne(recipient, id, at);
        CollectOneMore(s, recipient, done, id, at);
        done := done + {id};
      }
    }

    method Collect(recipient: string, ids: set<string>, at: real)
      requires Valid()
      modifies this
      ensures Valid() && State() == ConsentState.Collect(old(State()), recipient, ids, at)
      ensures forall r, t: real :: Poll(mail, r, t) == Poll(old(mail), r, t)
    {
      MailOnlyKeepsInv(State(), ConsentState.Collect(State(), recipient, ids, at).mail);
      MarkCollected(recipient, ids, at);
    }

    /** Acknowledges each id in turn and reports what became of it. */
    method AckEach(recipient: string, ids: seq<string>, at: real)
      returns (acked: seq<string>, already: seq<string>, unknown: seq<string>)
      modifies this`mail
      ensures mail == AckAll(old(mail), recipient, ids, at)
      ensures forall id :: id in ids <==> id in acked || id in already || id in unknown
      ensures forall id :: id in acked || id in already ==>
        id in mail && mail[id].recipient == recipient && mail[id].acked.Some?
      ensures forall id :: id in unknown ==> id !in mail || mail[id].recipient != recipient
    {
      ghost var was := mail;
      acked, already, unknown := [], [], [];
      for n := 0 to |ids|
        invariant mail == AckAll(was, recipient, ids[..n], at)
        invariant forall id :: id in ids[..n] <==> id in acked || id in already || id in unknown
        invariant forall id :: id in acked || id in already ==>
          id in mail && mail[id].recipient == recipient && mail[id].acked.Some?
        invariant forall id :: id in unknown ==> id !in mail || mail[id].recipient != recipient
      {
        var id := ids[n];
        assert ids[..n + 1][..n] == ids[..n];
        assert ids[..n + 1] == ids[..n] + [id];
        if id !in mail || mail[id].recipient != recipient {
          unknown := unknown + [id];
        } else if mail[id].acked.Some? {
          already := already + [id];
        } else {
          mail := mail[id := mail[id].(acked := Some(at))];
          acked := acked + [id];
        }
      }
      assert ids[..|ids|] == ids;
    }

    method Ack(recipient: string, ids: seq<string>, at: real)
      returns (acked: seq<string>, already: seq<string>, unknown: seq<string>)
      requires Valid()
      modifies this
      ensures Valid() && State() == ConsentState.Ack(old(State()), recipient, ids, at)
      ensures forall id :: id in ids <==> id in acked || id in already || id in unknown
      ensures forall id :: id in acked || id in already ==>
        id in mail && mail[id].recipient == recipient && mail[id].acked.Some?
      ensures forall id :: id in unknown ==> id !in mail || mail[id].recipient != recipient
    {
      AckShrinks(mail, recipient, ids, at);
      MailOnlyKeepsInv(State(), AckAll(mail, recipient, ids, at));
      acked, already, unknown := AckEach(recipient, ids, at);
    }

    method SweepMail(pruned: set<string>, at: real)
      modifies this`mail
      ensures mail == SweptMail(old(mail), pruned, at)
    {
      mail := map id | id in mail && !(mail[id].acked.Some? && mail[id].until <= at) :: mail[id];
      mail := map id | id in mail && !(mail[id].acked.Some? && mail[id].acked.value <= at - RETENTION) :: mail[id];
      mail := map id | id in mail && !(mail[id].acked == None && mail[id].until <= at - RETENTION) :: mail[id];
      mail := map id | id in mail && !(id in pruned && mail[id].acked == None && mail[id].until <= at) :: mail[id];
    }

    method SweepRows(expiry: real, at: real)
      modifies this`rows
      ensures rows == SweptRows(old(rows), expiry, at)
    {
      rows := map k | k in rows ::
        if rows[k].status == Pending && rows[k].pendingUntil.Some? && rows[k].pendingUntil.value <= at
        then rows[k].(status := Revoked, pendingUntil := None, redeemer := None) else rows[k];
      if expiry > 0.0 {
        rows := map k | k in rows ::
          if rows[k].status != Revoked && rows[k].until.Some? && rows[k].until.value <= at
          then rows[k].(status := Revoked, pendingUntil := None, redeemer := None) else rows[k];
      }
    }

    /** Drops finished mail, then all but the newest dead letters, then retires lapsed rows. */
    method Sweep(pruned: set<string>, expiry: real, at: real)
      requires Valid() && Overflow(mail, pruned, at)
      modifies this
      ensures Valid() && State() == ConsentState.Sweep(old(State()), pruned, expiry, at)
      ensures forall id :: id in mail ==> id in old(mail) && mail[id] == old(mail)[id]
      ensures |DeadLetters(mail, at)| <= DEAD_LETTERS
    {
      SweepKeepsTheNewest(mail, pruned, at);
      SweepKeepsInv(State(), pruned, expiry, at);
      SweepMail(pruned, at);
      SweepRows(expiry, at);
    }
  }
}
