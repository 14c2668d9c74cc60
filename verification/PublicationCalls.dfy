/**
The client's system calls and the guards around them, told by the names and the journal alone: what a call
changes, when an undoing is made, and what must be in place before a publication is recorded as done.
*/
module PublicationCalls {
  import opened Wrappers
  import opened PublicationState
  import opened PublicationSteps

  /** An exchange swaps two names that are both taken, at the cost of one call, and is refused otherwise. */
  lemma ExchangeExactly(m: Machine, role: Role, hand: Option<Inode>)
    ensures var o := Exchange(m, role, hand); var dest, stage := Dest(role), Stage(role);
      var met := if hand.Some? then m.files[dest := hand.value] else m.files;
      && (m.budget == 0 ==> o == Outcome(m.(files := met), Died))
      && (m.budget > 0 && dest in met && stage in met ==>
            o == Outcome(m.(files := met[stage := met[dest]][dest := met[stage]], budget := m.budget - 1), Ok))
      && (m.budget > 0 && !(dest in met && stage in met) ==>
            o == Outcome(m.(files := met, budget := m.budget - 1), Raised))
  {
  }

  /** A move takes a file to a name that is free, and is refused otherwise. */
  lemma MoveExactly(m: Machine, x: Name, y: Name)
    requires x != y
    ensures var o := MoveNoReplace(m, x, y);
      && (m.budget == 0 ==> o == Outcome(m, Died))
      && (m.budget > 0 && x in m.files && y !in m.files ==>
            o.flow == Ok && o.m == m.(files := o.m.files, budget := m.budget - 1)
            && x !in o.m.files && y in o.m.files && o.m.files[y] == m.files[x]
            && forall z :: z != x && z != y ==> At(o.m.files, z) == At(m.files, z))
      && (m.budget > 0 && !(x in m.files && y !in m.files) ==> o == Outcome(m.(budget := m.budget - 1), Raised))
  {
  }

  /** A transition is undone only while its candidate is canonical, and by the call that undoes what it did. */
  lemma RollbackExactly(m: Machine, j: Journal, role: Role, move: Move, hand: Option<Inode>)
    requires Sane(j)
    ensures var o := Rollback(m, j, role, move, hand);
      var mine := At(m.files, Dest(role)) == Some(Staged(j, role));
      var call := if move == Placed then MoveNoReplace(Put(m, role, hand), Dest(role), Stage(role)) else Exchange(m, role, hand);
      var baseline := if move == Placed then None else Expected(j, role);
      var undone := At(call.m.files, Dest(role)) == baseline && At(call.m.files, Stage(role)) == Some(Staged(j, role));
      && (move == Unmoved ==> o == Outcome(m, Ok))
      && (move != Unmoved && (!mine || (move == Exchanged && At(m.files, Stage(role)) != Expected(j, role))) ==> o == Outcome(m, Raised))
      && (move != Unmoved && mine && (move == Exchanged ==> At(m.files, Stage(role)) == Expected(j, role)) ==>
            o == Outcome(call.m, if call.flow == Ok && !undone then Raised else call.flow))
  {
  }

  // ----- done means in place --------------------------------------------------------------

  lemma SettleKeepsPlaces(m: Machine)
    ensures var o := Settle(m); At(o.m.files, ConfigFile) == At(m.files, ConfigFile) && At(o.m.files, KeyFile) == At(m.files, KeyFile)
    ensures var o := Settle(m); o.m.journal == m.journal || o.m.journal == None
    ensures Settle(m).flow == Ok ==> Settle(m).m.journal == None
  {
  }

  lemma TransitionKeepsJournal(m: Machine, j: Journal, role: Role, hand: Option<Inode>, back: Option<Inode>)
    requires Sane(j)
    ensures Transition(m, j, role, hand, back).m.journal == m.journal
  {
  }

  lemma PublishKeyKeepsJournal(m: Machine, j: Journal, h: Hands)
    requires Sane(j)
    ensures PublishKey(m, j, h).m.journal == m.journal
  {
    TransitionKeepsJournal(m, j, Key, h.key, h.keyBack);
    var t := Transition(m, j, Key, h.key, h.keyBack);
    TransitionKeepsJournal(Put(t.m, Config, h.drift), j, Config, None, None);
    var c := Transition(Put(t.m, Config, h.drift), j, Config, None, None);
    TransitionKeepsJournal(c.m, j, Key, None, None);
    RollbackKeepsJournal(c.m, j, Key, t.move, h.rollback);
  }

  lemma RollbackKeepsJournal(m: Machine, j: Journal, role: Role, move: Move, hand: Option<Inode>)
    requires Sane(j)
    ensures Rollback(m, j, role, move, hand).m.journal == m.journal
  {
  }

  /** Publishing leaves the journal as it was, or records the end over the accepted bytes at both names. */
  lemma PublishRecordsInPlace(m: Machine, j: Journal, h: Hands)
    requires Sane(j)
    ensures var o := Publish(m, j, h); o.m.journal == m.journal || InPlace(o.m.files, j)
    ensures Publish(m, j, h).flow == Ok ==> Publish(m, j, h).m.journal == None && InPlace(Publish(m, j, h).m.files, j)
  {
    TransitionKeepsJournal(m, j, Config, h.config, h.configBack);
    var c := Transition(m, j, Config, h.config, h.configBack);
    TransitionKeepsJournal(Put(c.m, Config, h.recheck), j, Config, None, None);
    var d := Transition(Put(c.m, Config, h.recheck), j, Config, None, None);
    PublishKeyKeepsJournal(d.m, j, h);
    var k := PublishKey(d.m, j, h);
    ConcludeRecordsInPlace(Put(Put(k.m, Config, h.lateConfig), Key, h.lateKey), j);
  }

  lemma ConcludeRecordsInPlace(m: Machine, j: Journal)
    ensures var o := Conclude(m, j); o.m.journal == m.journal || InPlace(o.m.files, j)
    ensures Conclude(m, j).flow == Ok ==> Conclude(m, j).m.journal == None && InPlace(Conclude(m, j).m.files, j)
  {
    SettleKeepsPlaces(WriteJournal(m, Some(j.(phase := Published))).m);
  }

  lemma PrepareKeepsWork(m: Machine, j: Journal, torn: string)
    requires m.journal == Some(j) && j.phase == Accepted
    ensures var o := Prepare(m, j, torn);
      && o.m.journal.Some? && SameWork(o.m.journal.value, j) && o.m.journal.value.phase != Published
      && (o.flow == Ok ==> o.m.journal.value.phase == Publishing && Sane(o.m.journal.value))
  {
  }

  /**
  Whatever operators put at the canonical names and wherever the client stops, a run that records the end, drops
  the journal or succeeds leaves the accepted config and key at both names.
  */
  lemma DoneMeansInPlace(m: Machine, h: Hands, torn: string)
    requires m.journal.Some?
    ensures var o := Resume(m, h, torn); var j := m.journal.value;
      var done := o.m.journal == None || (j.phase != Published && o.m.journal.value.phase == Published);
      && (done ==> ConfigFile in o.m.files && o.m.files[ConfigFile].data == j.target)
      && (done ==> KeyFile in o.m.files && o.m.files[KeyFile].data == j.candidate)
      && (o.flow == Ok ==> o.m.journal == None)
  {
    var j := m.journal.value;
    if j.phase == Accepted {
      PrepareKeepsWork(m, j, torn);
      var p := Prepare(m, j, torn);
      if p.flow == Ok {
        PublishRecordsInPlace(p.m, p.m.journal.value, h);
      }
    } else if Sane(j) && j.phase == Publishing {
      var a := Adopt(m, j);
      if a.flow == Ok && Sane(a.m.journal.value) {
        PublishRecordsInPlace(a.m, a.m.journal.value, h);
      }
    } else {
      SettleKeepsPlaces(m);
    }
  }
}
