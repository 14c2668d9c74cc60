/**
Each step of forwarding told field by field, without the step functions of the model: what a send answers,
when a row is due, how long a failed attempt waits, what an outcome leaves, and what the destination does.
*/
module ForwardingSteps {
  import opened Wrappers
  import opened ForwardingState
  import opened ForwardingTheorems

  /** A send is written once, under a new id of neither lane, and only if the sender may; the row says everything it brought. */
  lemma EnqueueExactly(outbox: map<string, Row>, serial: nat, id: string, recipient: string, c: Content,
                       ttl: real, lane: bool, grant: bool, now: real)
    ensures var reply := EnqueueReply(outbox, id, recipient, c, lane, grant);
      && (reply == Enqueued <==> id !in outbox && !lane && grant)
      && (reply == Duplicate <==> id in outbox && outbox[id].recipient == recipient && outbox[id].content == c)
      && (reply == Collision <==> if id in outbox then outbox[id].recipient != recipient || outbox[id].content != c else lane)
      && Enqueue(outbox, serial, id, recipient, c, ttl, lane, grant, now)
         == if id !in outbox && !lane && grant
            then outbox[id := Row(serial, recipient, c, now + ttl, Queued, 0, now, now)] else outbox
  {
  }

  /** The time since which a row that is neither final nor expired may be attempted, until it ends. */
  predicate Attemptable(r: Row, now: real) {
    (r.state == Queued || r.state == Inflight) && r.next <= now < r.expires
  }

  function ExpiredAt(r: Row, now: real): Row {
    if (r.state == Queued || r.state == Inflight) && r.expires <= now then r.(state := Expired) else r
  }

  /** The forwarder claims any distinct due rows, as they are, when it holds none; whatever else is over expires. */
  lemma ClaimExactly(w: World, ids: seq<string>, now: real)
    ensures var u := Step(w, DoClaim(ids, now));
      if w.claims == [] && w.flight == None
         && (forall i, j :: 0 <= i < j < |ids| ==> ids[i] != ids[j])
         && (forall id :: id in ids ==> id in w.outbox && Attemptable(w.outbox[id], now))
      then
        && u.outbox.Keys == w.outbox.Keys
        && (forall id :: id in w.outbox ==>
              u.outbox[id] == if id in ids then w.outbox[id].(state := Inflight) else ExpiredAt(w.outbox[id], now))
        && u == w.(outbox := u.outbox, claims := u.claims)
        && |u.claims| == |ids|
        && (forall i :: 0 <= i < |ids| ==> ids[i] in w.outbox && u.claims[i] == Claim(ids[i], w.outbox[ids[i]]))
      else u == w
  {
    var lapsed := Lapsed(w.outbox, now);
    assert forall id :: id in w.outbox ==> lapsed[id] == ExpiredAt(w.outbox[id], now);
    assert forall id :: id in w.outbox && Attemptable(w.outbox[id], now) ==> lapsed[id] == w.outbox[id];
    assert Selection(lapsed, ids, now) <==>
      && (forall i, j :: 0 <= i < j < |ids| ==> ids[i] != ids[j])
      && (forall id :: id in ids ==> id in w.outbox && Attemptable(w.outbox[id], now));
  }

  /** A claimed row is attempted only before it ends; after that it expires instead. */
  lemma StartExactly(w: World, now: real)
    ensures var u := Step(w, DoStart(now));
      if w.flight.Some? || w.claims == [] then u == w
      else if now < w.claims[0].row.expires
      then u == w.(claims := w.claims[1..], flight := Some(w.claims[0]), posted := false)
      else u == w.(claims := w.claims[1..],
                   outbox := if w.claims[0].id in w.outbox
                             then w.outbox[w.claims[0].id := w.outbox[w.claims[0].id].(state := Expired)] else w.outbox)
  {
  }

  /** The wait after a failure doubles from ten seconds and stays at five minutes from the sixth attempt on. */
  lemma BackoffIs(n: nat)
    requires n > 0
    ensures Backoff(n)
      == if n == 1 then 10.0 else if n == 2 then 20.0 else if n == 3 then 40.0
         else if n == 4 then 80.0 else if n == 5 then 160.0 else 300.0
  {
    assert Pow2(1) == 2 && Pow2(2) == 4 && Pow2(3) == 8 && Pow2(4) == 16;
    assert Pow2(5) == 2 * Pow2(4) && Pow2(6) == 2 * Pow2(5);
  }

  /** A proof delivers; a refusal or a corrupt payload rejects; an unsignable one fails; everything else is tried again later. */
  lemma OutcomeExactly(w: World, o: Outcome, now: real)
    requires Possible(w, o)
    ensures var u := Step(w, DoFinish(o, now)); var c := w.flight.value;
      && u == w.(outbox := u.outbox, flight := None)
      && u.outbox.Keys == w.outbox.Keys
      && (forall id :: id in w.outbox && id != c.id ==> u.outbox[id] == w.outbox[id])
      && (c.id in w.outbox ==>
            var r := w.outbox[c.id];
            u.outbox[c.id] == match o
              case Proven => r.(state := Delivered)
              case Refused => r.(state := Rejected)
              case Corrupt => r.(state := Rejected)
              case Unsigned => r.(state := Failed)
              case Busy(Some(wait)) =>
                r.(state := Queued, attempts := r.attempts + 1, next := now + (if wait < 300.0 then wait else 300.0))
              case _ => r.(state := Queued, attempts := r.attempts + 1, next := now + Backoff(c.row.attempts + 1)))
  {
  }

  /** A queued row that failed is due again within five minutes, as often as it takes, until it ends. */
  lemma FailedIsDueAgain(w: World, o: Outcome, now: real, later: real)
    requires Possible(w, o) && w.claims == [] && w.flight.value.id in w.outbox
    requires o == Raised || o == Unproven || o == Odd || o.Busy?
    requires now + 300.0 <= later < w.outbox[w.flight.value.id].expires
    ensures var id := w.flight.value.id; var u := Step(w, DoFinish(o, now));
      Step(u, DoClaim([id], later)).claims == [Claim(id, u.outbox[id])]
  {
    var id := w.flight.value.id;
    var u := Step(w, DoFinish(o, now));
    OutcomeExactly(w, o, now);
    BackoffIs(w.flight.value.row.attempts + 1);
    assert Attemptable(u.outbox[id], later);
    ClaimExactly(u, [id], later);
  }

  /** Every sweep expires what is over, and removes what ended a week after it was sent. */
  lemma SweepExactly(outbox: map<string, Row>, now: real, id: string)
    requires id in outbox
    ensures var t := Swept(outbox, now); var r := ExpiredAt(outbox[id], now);
      && (id in t <==> r.state == Queued || r.state == Inflight || now < r.created + 604800.0)
      && (id in t ==> t[id] == r)
  {
  }

  /** The destination stores an admitted request of a new id for which there is room, and accepts what it has stored. */
  lemma DeliverExactly(w: World, q: Request, admits: bool, room: bool)
    ensures var u := Step(w, DoDeliver(q, admits, room));
      var stores := q in w.requests && admits && q.id !in w.mailbox && room;
      var accepts := stores || (q in w.requests && admits && q.id in w.mailbox && w.mailbox[q.id] == q.content);
      u == w.(mailbox := if stores then w.mailbox[q.id := q.content] else w.mailbox,
              stored := if stores then w.stored + {(q.id, q.content)} else w.stored,
              acceptances := if accepts then w.acceptances + {Acceptance(q.nonce, q.id)} else w.acceptances)
  {
  }

  /** A request carries what its attempt claimed, under a nonce of its own, once. */
  lemma PostExactly(w: World)
    ensures var u := Step(w, DoPost);
      if w.flight.Some? && !w.posted
      then var c := w.flight.value;
        u == w.(posted := true, nonce := w.nonce + 1,
                requests := w.requests + {Request(c.id, c.row.content, c.row.expires, w.nonce)})
      else u == w
  {
  }
}
