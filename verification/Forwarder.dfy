/**
The source's forwarder as a program over its outbox: enqueue, sweep, claim the due rows, attempt each in
turn and record how it ended.
*/
module Forwarder {
  import opened Wrappers
  import opened ForwardingState
  import opened ForwardingTheorems

  /** One attempt of a claimed row: expired on the spot, or marked by how it ended. */
  function Attempted(outbox: map<string, Row>, c: Claim, o: Outcome, now: real): map<string, Row> {
    if c.row.expires <= now then MarkExpired(outbox, c.id) else Marked(outbox, c, o, now)
  }

  /** Every attempt samples its own clock. */
  function AttemptedAll(outbox: map<string, Row>, cs: seq<Claim>, os: seq<Outcome>, nows: seq<real>): map<string, Row>
    requires |cs| == |os| == |nows|
  {
    if cs == [] then outbox
    else
      var last := |cs| - 1;
      Attempted(AttemptedAll(outbox, cs[..last], os[..last], nows[..last]), cs[last], os[last], nows[last])
  }

  /** What happens to the request, on the network and at the destination while an attempt is under way. */
  predicate Elsewhere(ops: seq<Op>) {
    forall i :: 0 <= i < |ops| ==> ops[i].DoPost? || ops[i].DoDeliver? || ops[i].DoLocal? || ops[i].DoRemove?
  }

  lemma {:induction false} ElsewhereLeavesSource(w: World, ops: seq<Op>)
    requires Elsewhere(ops)
    ensures var u := Run(w, ops); u.outbox == w.outbox && u.claims == w.claims && u.flight == w.flight
    decreases |ops|
  {
    if ops != [] {
      ElsewhereLeavesSource(Step(w, ops[0]), ops[1..]);
    }
  }

  /** The steps of a pass over the claims, with what happened elsewhere during each attempt. */
  function PassOps(os: seq<Outcome>, between: seq<seq<Op>>, nows: seq<real>): seq<Op>
    requires |between| == |os| == |nows|
    decreases |os|
  {
    if os == [] then []
    else [DoStart(nows[0])] + between[0] + [DoFinish(os[0], nows[0])] + PassOps(os[1..], between[1..], nows[1..])
  }

  /** Every attempt ends in a way that is possible by then. */
  predicate PassPossible(w: World, os: seq<Outcome>, between: seq<seq<Op>>, nows: seq<real>)
    requires |between| == |os| == |nows| == |w.claims|
    requires w.flight == None && forall i :: 0 <= i < |between| ==> Elsewhere(between[i])
    decreases |os|
  {
    os == [] ||
    (ElsewhereLeavesSource(Start(w, nows[0]), between[0]);
     var u := Run(Start(w, nows[0]), between[0]);
     && (w.claims[0].row.expires <= nows[0] || Possible(u, os[0]))
     && PassPossible(Finish(u, os[0], nows[0]), os[1..], between[1..], nows[1..]))
  }

  lemma {:induction false} AttemptedFromHead(outbox: map<string, Row>, cs: seq<Claim>, os: seq<Outcome>, nows: seq<real>)
    requires |cs| == |os| == |nows| && cs != []
    ensures AttemptedAll(outbox, cs, os, nows)
      == AttemptedAll(Attempted(outbox, cs[0], os[0], nows[0]), cs[1..], os[1..], nows[1..])
  {
    var last := |cs| - 1;
    if last > 0 {
      AttemptedFromHead(outbox, cs[..last], os[..last], nows[..last]);
      assert cs[..last][1..] == cs[1..][..last - 1] && os[..last][1..] == os[1..][..last - 1];
      assert nows[..last][1..] == nows[1..][..last - 1];
    } else {
      assert cs[..last] == [] && os[..last] == [] && nows[..last] == [];
      assert cs[1..] == [] && os[1..] == [] && nows[1..] == [];
    }
  }

  lemma OneAttempt(w: World, mid: seq<Op>, o: Outcome, now: real)
    ensures Run(w, [DoStart(now)] + mid + [DoFinish(o, now)]) == Finish(Run(Start(w, now), mid), o, now)
  {
    RunSplit(w, [DoStart(now)] + mid, [DoFinish(o, now)]);
    RunSplit(w, [DoStart(now)], mid);
    RunOne(w, DoStart(now));
    RunOne(Run(Start(w, now), mid), DoFinish(o, now));
  }

  /** The forwarder's pass is a run of the protocol, whatever the network and the destination do meanwhile. */
  lemma {:induction false} PassIsRun(w: World, os: seq<Outcome>, between: seq<seq<Op>>, nows: seq<real>)
    requires |between| == |os| == |nows| == |w.claims|
    requires w.flight == None && forall i :: 0 <= i < |between| ==> Elsewhere(between[i])
    requires PassPossible(w, os, between, nows)
    ensures var u := Run(w, PassOps(os, between, nows));
      u.outbox == AttemptedAll(w.outbox, w.claims, os, nows) && u.claims == [] && u.flight == None
    decreases |os|
  {
    if os != [] {
      var now := nows[0];
      var v := Start(w, now);
      var u := Run(v, between[0]);
      var x := Finish(u, os[0], now);
      ElsewhereLeavesSource(v, between[0]);
      assert x.outbox == Attempted(w.outbox, w.claims[0], os[0], now) && x.claims == w.claims[1..] && x.flight == None;
      PassIsRun(x, os[1..], between[1..], nows[1..]);
      AttemptedFromHead(w.outbox, w.claims, os, nows);
      OneAttempt(w, between[0], os[0], now);
      RunSplit(w, [DoStart(now)] + between[0] + [DoFinish(os[0], now)], PassOps(os[1..], between[1..], nows[1..]));
    }
  }

  function Proofs(os: seq<Outcome>, cs: seq<Claim>, nows: seq<real>): nat
    requires |cs| == |os| == |nows|
  {
    if os == [] then 0
    else
      var last := |os| - 1;
      Proofs(os[..last], cs[..last], nows[..last])
      + (if os[last].Proven? && nows[last] < cs[last].row.expires then 1 else 0)
  }

  predicate Mentions(cs: seq<Claim>, id: string) {
    exists i :: 0 <= i < |cs| && cs[i].id == id
  }

  lemma MentionsLast(cs: seq<Claim>, id: string)
    requires cs != []
    ensures Mentions(cs, id) <==> cs[|cs| - 1].id == id || Mentions(cs[..|cs| - 1], id)
  {
    if Mentions(cs[..|cs| - 1], id) {
      var i :| 0 <= i < |cs| - 1 && cs[..|cs| - 1][i].id == id;
      assert cs[i].id == id;
    }
    if Mentions(cs, id) && cs[|cs| - 1].id != id {
      var i :| 0 <= i < |cs| && cs[i].id == id;
      assert cs[..|cs| - 1][i].id == id;
    }
  }

  /** A pass touches only the claimed ids, and leaves none of them inflight. */
  lemma {:induction false} PassSettlesClaims(outbox: map<string, Row>, cs: seq<Claim>, os: seq<Outcome>, nows: seq<real>, id: string)
    requires |cs| == |os| == |nows| && id in outbox
    ensures var t := AttemptedAll(outbox, cs, os, nows);
      && id in t && t[id].serial == outbox[id].serial && t[id].content == outbox[id].content
      && (!Mentions(cs, id) ==> t[id] == outbox[id])
      && (Mentions(cs, id) ==> t[id].state != Inflight)
  {
    if cs != [] {
      var last := |cs| - 1;
      MentionsLast(cs, id);
      PassSettlesClaims(outbox, cs[..last], os[..last], nows[..last], id);
    }
  }

  class Source {
    var outbox: map<string, Row>
    var serial: nat

    constructor ()
      ensures outbox == map[] && serial == 0
    {
      outbox, serial := map[], 0;
    }

    method Send(id: string, recipient: string, c: Content, ttl: real, lane: bool, grant: bool, now: real) returns (reply: Reply)
      modifies this
      ensures outbox == Enqueue(old(outbox), old(serial), id, recipient, c, ttl, lane, grant, now)
      ensures reply == EnqueueReply(old(outbox), id, recipient, c, lane, grant)
      ensures reply == Enqueued || reply == Duplicate ==>
        id in outbox && outbox[id].content == c && outbox[id].recipient == recipient
      ensures serial == old(serial) + 1
    {
      var mine := serial;
      serial := serial + 1;
      if id in outbox {
        return if outbox[id].content == c && outbox[id].recipient == recipient then Duplicate else Collision;
      }
      if lane {
        return Collision;
      }
      if !grant {
        return NoGrant;
      }
      outbox := outbox[id := Row(mine, recipient, c, now + ttl, Queued, 0, now, now)];
      return Enqueued;
    }

    method Expire(now: real)
      modifies this`outbox
      ensures outbox == Lapsed(old(outbox), now)
    {
      outbox := map id | id in outbox ::
        if (outbox[id].state == Queued || outbox[id].state == Inflight) && outbox[id].expires <= now
        then outbox[id].(state := Expired) else outbox[id];
    }

    method Sweep(now: real)
      modifies this`outbox
      ensures outbox == Swept(old(outbox), now)
    {
      Expire(now);
      outbox := map id | id in outbox && (Open(outbox[id].state) || now - RETENTION < outbox[id].created) :: outbox[id];
    }

    /** Updates by id alone, whatever row carries it by now. */
    method Mark(id: string, state: State, bump: nat, next: Option<real>)
      modifies this`outbox
      ensures outbox == if id !in old(outbox) then old(outbox) else
        var r := old(outbox)[id];
        old(outbox)[id := r.(state := state, attempts := r.attempts + bump, next := if next.Some? then next.value else r.next)]
    {
      if id in outbox {
        var r := outbox[id];
        r := r.(state := state, attempts := r.attempts + bump);
        if next.Some? {
          r := r.(next := next.value);
        }
        outbox := outbox[id := r];
      }
    }

    /** True when the destination proved that it accepted. */
    method Attempt(c: Claim, o: Outcome, now: real) returns (confirmed: bool)
      modifies this`outbox
      ensures outbox == Attempted(old(outbox), c, o, now)
      ensures confirmed <==> o.Proven? && now < c.row.expires
    {
      confirmed := false;
      if c.row.expires <= now {
        Mark(c.id, Expired, 0, None);
        return;
      }
      match o
      case Proven => Mark(c.id, Delivered, 0, None); confirmed := true;
      case Refused => Mark(c.id, Rejected, 0, None);
      case Corrupt => Mark(c.id, Rejected, 0, None);
      case Unsigned => Mark(c.id, Failed, 0, None);
      case Busy(wait) =>
        var delay := Backoff(c.row.attempts + 1);
        if wait.Some? {
          delay := if wait.value < MAX_BACKOFF then wait.value else MAX_BACKOFF;
        }
        Mark(c.id, Queued, 1, Some(now + delay));
      case _ => Mark(c.id, Queued, 1, Some(now + Backoff(c.row.attempts + 1)));
    }

    method AttemptEach(cs: seq<Claim>, os: seq<Outcome>, nows: seq<real>) returns (forwarded: nat)
      requires |os| == |cs| == |nows|
      modifies this`outbox
      ensures outbox == AttemptedAll(old(outbox), cs, os, nows) && forwarded == Proofs(os, cs, nows)
    {
      forwarded := 0;
      for i := 0 to |cs|
        invariant outbox == AttemptedAll(old(outbox), cs[..i], os[..i], nows[..i])
        invariant forwarded == Proofs(os[..i], cs[..i], nows[..i])
      {
        assert cs[..i + 1][..i] == cs[..i] && os[..i + 1][..i] == os[..i] && nows[..i + 1][..i] == nows[..i];
        var confirmed := Attempt(cs[i], os[i], nows[i]);
        if confirmed {
          forwarded := forwarded + 1;
        }
      }
      assert cs[..|cs|] == cs && os[..|cs|] == os && nows[..|cs|] == nows;
    }

    /** Expires, claims the selected due rows and attempts each; `os` is how the attempts end and `nows` when they began. */
    method ForwardPending(ids: seq<string>, os: seq<Outcome>, now: real, nows: seq<real>) returns (forwarded: nat)
      requires Selection(Lapsed(outbox, now), ids, now) && |os| == |ids| == |nows|
      modifies this`outbox
      ensures var lapsed := Lapsed(old(outbox), now); var cs := ClaimsOf(lapsed, ids);
        outbox == AttemptedAll(Claimed(lapsed, ids), cs, os, nows) && forwarded == Proofs(os, cs, nows)
      ensures forall id :: id in ids ==> id in outbox && outbox[id].state != Inflight
      ensures forall id :: id in old(outbox) && id !in ids ==> id in outbox && outbox[id] == Lapsed(old(outbox), now)[id]
    {
      ghost var lapsed := Lapsed(outbox, now);
      Expire(now);
      var cs := ClaimsOf(outbox, ids);
      outbox := Claimed(outbox, ids);
      ghost var claimed := outbox;
      forwarded := AttemptEach(cs, os, nows);
      forall id | id in lapsed
        ensures id in outbox && (id in ids ==> outbox[id].state != Inflight) && (id !in ids ==> outbox[id] == lapsed[id])
      {
        PassSettlesClaims(claimed, cs, os, nows, id);
        ClaimsMention(lapsed, ids, id);
      }
    }
  }

  /** A whole pass, from the selection of the due rows on, as `ForwardPending` performs it. */
  lemma ForwardPendingIsRun(w: World, ids: seq<string>, os: seq<Outcome>, between: seq<seq<Op>>, now: real, nows: seq<real>)
    requires w.flight == None && w.claims == [] && Selection(Lapsed(w.outbox, now), ids, now)
    requires |between| == |os| == |nows| == |ids| && forall i :: 0 <= i < |between| ==> Elsewhere(between[i])
    requires PassPossible(Step(w, DoClaim(ids, now)), os, between, nows)
    ensures var lapsed := Lapsed(w.outbox, now);
      Run(w, [DoClaim(ids, now)] + PassOps(os, between, nows)).outbox
      == AttemptedAll(Claimed(lapsed, ids), ClaimsOf(lapsed, ids), os, nows)
  {
    RunSplit(w, [DoClaim(ids, now)], PassOps(os, between, nows));
    RunOne(w, DoClaim(ids, now));
    PassIsRun(Step(w, DoClaim(ids, now)), os, between, nows);
  }

  lemma ClaimsMention(outbox: map<string, Row>, ids: seq<string>, id: string)
    requires forall x :: x in ids ==> x in outbox
    ensures Mentions(ClaimsOf(outbox, ids), id) <==> id in ids
  {
    if id in ids {
      var i :| 0 <= i < |ids| && ids[i] == id;
      assert ClaimsOf(outbox, ids)[i].id == id;
    }
  }
}
