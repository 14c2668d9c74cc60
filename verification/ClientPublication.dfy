/** The client's publication of an accepted key as a program over its files, with an operator beside it. */
module ClientPublication {
  import opened Wrappers
  import opened PublicationState
  import opened PublicationSteps
  import opened PublicationTheorems
  import opened PublicationOperators

  class Client {
    var files: map<Name, Inode>
    var journal: Option<Journal>
    var budget: nat
    var next: nat
    ghost var unlinked: set<Inode>

    ghost function State(): Machine
      reads this
    {
      Machine(files, journal, budget, next, unlinked)
    }

    // ----- system calls -------------------------------------------------------------------

    /** An operator replaces the canonical file of a role. */
    method Meet(role: Role, hand: Option<Inode>)
      modifies this`files
      ensures State() == Put(old(State()), role, hand)
    {
      if hand.Some? {
        files := files[Dest(role) := hand.value];
      }
    }

    method ExchangeNames(role: Role, hand: Option<Inode>) returns (flow: Flow)
      modifies this`files, this`budget
      ensures Outcome(State(), flow) == Exchange(old(State()), role, hand)
    {
      Meet(role, hand);
      if budget == 0 {
        return Died;
      }
      budget := budget - 1;
      var x, y := Stage(role), Dest(role);
      if x !in files || y !in files {
        return Raised;
      }
      files := files[x := files[y]][y := files[x]];
      return Ok;
    }

    method Move(x: Name, y: Name) returns (flow: Flow)
      modifies this`files, this`budget
      ensures Outcome(State(), flow) == MoveNoReplace(old(State()), x, y)
    {
      if budget == 0 {
        return Died;
      }
      budget := budget - 1;
      if x !in files || y in files {
        return Raised;
      }
      files := (files - {x})[y := files[x]];
      return Ok;
    }

    method RetireStage(x: Name) returns (flow: Flow)
      modifies this`files, this`budget, this`unlinked
      ensures Outcome(State(), flow) == Unlink(old(State()), x)
    {
      if x !in files {
        return Ok;
      }
      if budget == 0 {
        return Died;
      }
      budget := budget - 1;
      unlinked := unlinked + {files[x]};
      files := files - {x};
      return Ok;
    }

    method UpdateJournal(j: Option<Journal>) returns (flow: Flow)
      modifies this`journal, this`budget
      ensures Outcome(State(), flow) == WriteJournal(old(State()), j)
    {
      if budget == 0 {
        return Died;
      }
      budget := budget - 1;
      journal := j;
      return Ok;
    }

    // ----- one role -----------------------------------------------------------------------

    /** Swaps back a file that an earlier, interrupted exchange displaced. */
    method Compensate(role: Role, hand: Option<Inode>) returns (flow: Flow)
      modifies this`files, this`budget
      ensures Outcome(State(), flow) == PutBack(old(State()), role, hand)
    {
      if Stage(role) !in files {
        return Raised;
      }
      flow := ExchangeNames(role, hand);
      if flow == Ok {
        flow := Raised;
      }
    }

    method SwapStaged(j: Journal, role: Role, hand: Option<Inode>, back: Option<Inode>) returns (flow: Flow)
      requires Sane(j)
      modifies this`files, this`budget
      ensures Outcome(State(), flow) == SwapIn(old(State()), j, role, hand, back)
    {
      flow := ExchangeNames(role, hand);
      if flow == Ok && !(At(files, Dest(role)) == Some(Staged(j, role)) && At(files, Stage(role)) == Expected(j, role)) {
        flow := ExchangeNames(role, back);
        if flow == Ok {
          flow := Raised;
        }
      }
    }

    /**
    Publishes a ready role, repeats nothing, refuses a drifted one, and puts back a displaced file. A
    success is attested on both names.
    */
    method TransitionArtifact(j: Journal, role: Role, hand: Option<Inode>, back: Option<Inode>)
      returns (flow: Flow, move: Move)
      requires Sane(j)
      modifies this`files, this`budget
      ensures Transit(State(), flow, move) == Transition(old(State()), j, role, hand, back)
      ensures flow == Ok ==> Attested(files, j, role)
    {
      AnyTransition(State(), j, role, hand, back);
      flow, move := Raised, Unmoved;
      var current, stage := At(files, Dest(role)), At(files, Stage(role));
      if Already(j.publication.value, role) {
        if current == Expected(j, role) {
          flow := Ok;
        }
        return;
      }
      if current == Some(Staged(j, role)) {
        if stage == Expected(j, role) {
          flow := Ok;
        } else if Expected(j, role).Some? {
          flow := Compensate(role, back);
        }
        return;
      }
      if stage != Some(Staged(j, role)) || current != Expected(j, role) {
        return;
      }
      if Expected(j, role) == None {
        Meet(role, hand);
        flow := Move(Stage(role), Dest(role));
        move := Placed;
      } else {
        flow := SwapStaged(j, role, hand, back);
        move := Exchanged;
      }
    }

    /** Undoes a transition of this run and proves both names; what it cannot prove it reports. */
    method RollbackTransition(j: Journal, role: Role, move: Move, hand: Option<Inode>) returns (flow: Flow)
      requires Sane(j)
      modifies this`files, this`budget
      ensures Outcome(State(), flow) == Rollback(old(State()), j, role, move, hand)
    {
      if move == Unmoved {
        return Ok;
      }
      if At(files, Dest(role)) != Some(Staged(j, role)) {
        return Raised;
      }
      var was := Expected(j, role);
      if move == Placed {
        was := None;
        Meet(role, hand);
        flow := Move(Dest(role), Stage(role));
      } else {
        if At(files, Stage(role)) != Expected(j, role) {
          return Raised;
        }
        flow := ExchangeNames(role, hand);
      }
      if flow == Ok && (At(files, Dest(role)) != was || At(files, Stage(role)) != Some(Staged(j, role))) {
        flow := Raised;
      }
    }

    // ----- preparing ----------------------------------------------------------------------

    method StageArtifact(name: Name, data: string, torn: string) returns (flow: Flow)
      modifies this`files, this`budget, this`next
      ensures Outcome(State(), flow) == StageFile(old(State()), name, data, torn)
    {
      if name in files {
        return if files[name].data == data then Ok else Raised;
      }
      if budget == 0 {
        return Died;
      }
      var id := next;
      next := next + 1;
      budget := budget - 1;
      files := files[name := Inode(id, torn)];
      if budget == 0 {
        return Died;
      }
      budget := budget - 1;
      files := files[name := Inode(id, data)];
      return Ok;
    }

    method PreparePublication(j: Journal, torn: string) returns (flow: Flow)
      modifies this`files, this`budget, this`next, this`journal
      ensures Outcome(State(), flow) == Prepare(old(State()), j, torn)
      ensures flow == Ok ==> journal.Some? && Sane(journal.value)
    {
      flow := StageArtifact(KeyStage, j.candidate, torn);
      if flow != Ok {
        return;
      }
      flow := StageArtifact(ConfigStage, j.target, torn);
      if flow != Ok {
        return;
      }
      if ConfigFile !in files || (files[ConfigFile].data != j.base && files[ConfigFile].data != j.target) {
        return Raised;
      }
      if KeyFile !in files {
        if j.prior.Some? {
          return Raised;
        }
      } else if files[KeyFile].data != j.candidate && Some(files[KeyFile].data) != j.prior {
        return Raised;
      }
      flow := UpdateJournal(Some(Begun(files, j)));
    }

    /** Adopts a baseline restored by the operator; otherwise changes nothing. */
    method AdoptRestored(j: Journal) returns (flow: Flow)
      requires Sane(j) && journal == Some(j)
      modifies this`budget, this`journal
      ensures Outcome(State(), flow) == Adopt(old(State()), j)
      ensures journal.Some? && Sane(journal.value)
    {
      var p := j.publication.value;
      var n := p;
      if !p.targeted && At(files, ConfigStage) == Some(Staged(j, Config))
         && ConfigFile in files && files[ConfigFile].data == j.base && files[ConfigFile].id != p.configExpected {
        n := n.(configExpected := files[ConfigFile].id);
      }
      if p.keyState == Prior && At(files, KeyStage) == Some(Staged(j, Key))
         && KeyFile in files && files[KeyFile].data == j.prior.value && files[KeyFile].id != p.keyExpected.value {
        n := n.(keyExpected := Some(files[KeyFile].id));
      }
      flow := Ok;
      if n != p {
        flow := UpdateJournal(Some(j.(publication := Some(n))));
      }
    }

    // ----- publishing ---------------------------------------------------------------------

    /** Published: drop the stages, retire the journal. */
    method CleanUp() returns (flow: Flow)
      modifies this
      ensures Outcome(State(), flow) == Settle(old(State()))
    {
      flow := RetireStage(KeyStage);
      if flow == Ok {
        flow := RetireStage(ConfigStage);
        if flow == Ok {
          flow := UpdateJournal(None);
        }
      }
    }

    method PublishKeyUnderConfig(j: Journal, h: Hands) returns (flow: Flow)
      requires Sane(j)
      modifies this`files, this`budget
      ensures Outcome(State(), flow) == PublishKey(old(State()), j, h)
    {
      var move, again;
      flow, move := TransitionArtifact(j, Key, h.key, h.keyBack);
      if flow != Ok {
        return;
      }
      Meet(Config, h.drift);
      flow, again := TransitionArtifact(j, Config, None, None);
      if flow == Raised {
        flow := RollbackTransition(j, Key, move, h.rollback);
        if flow == Ok {
          flow := Raised;
        }
      } else if flow == Ok {
        flow, again := TransitionArtifact(j, Key, None, None);
      }
    }

    /**
    Config, config again, key, the comparison of both, and then the durable `published`. Under any hands
    only files with journalled bytes are unlinked, and with none the publication finishes or stays under way.
    */
    method PublishAccepted(j: Journal, h: Hands) returns (flow: Flow)
      requires Sane(j) && journal == Some(j)
      modifies this
      ensures Outcome(State(), flow) == Publish(old(State()), j, h)
      ensures old(Owned(State(), j)) && j.phase == Publishing ==> OnlyKnownUnlinked(old(State()), State(), j)
      ensures h == CALM && old(InProgress(State())) ==> UnderWay(State(), j) && flow != Raised
    {
      if Owned(State(), j) && j.phase == Publishing {
        PublishUnlinksKnown(State(), j, h);
      }
      if InProgress(State()) {
        CalmPublication(State(), j);
      }
      var move;
      flow, move := TransitionArtifact(j, Config, h.config, h.configBack);
      if flow != Ok {
        return;
      }
      Meet(Config, h.recheck);
      flow, move := TransitionArtifact(j, Config, None, None);
      if flow != Ok {
        return;
      }
      flow := PublishKeyUnderConfig(j, h);
      if flow != Ok {
        return;
      }
      Meet(Config, h.lateConfig);
      Meet(Key, h.lateKey);
      if ConfigFile !in files || files[ConfigFile].data != j.target
         || KeyFile !in files || files[KeyFile].data != j.candidate {
        return Raised;
      }
      flow := UpdateJournal(Some(j.(phase := Published)));
      if flow == Ok {
        flow := CleanUp();
      }
    }

    /** One run on what an earlier, stopped run left. */
    method ResumeRegistration(h: Hands, torn: string) returns (flow: Flow)
      modifies this
      ensures Outcome(State(), flow) == Resume(old(State()), h, torn)
    {
      if journal == None {
        return Ok;
      }
      var j := journal.value;
      if j.phase == Accepted {
        flow := PreparePublication(j, torn);
        if flow == Ok {
          flow := PublishAccepted(journal.value, h);
        }
      } else if !Sane(j) {
        flow := Raised;
      } else if j.phase == Publishing {
        flow := AdoptRestored(j);
        if flow == Ok {
          flow := PublishAccepted(journal.value, h);
        }
      } else if ConfigFile !in files || files[ConfigFile].data != j.target
                || KeyFile !in files || files[KeyFile].data != j.candidate {
        flow := Raised;
      } else {
        flow := CleanUp();
      }
    }

    /** Any number of runs, each stopped after some of its calls, and one more that is left alone. */
    method RecoverFromStops(stops: seq<nat>, torn: string, ghost j: Journal) returns (flow: Flow)
      requires Sane(j) && UnderWay(State(), j)
      modifies this
      ensures flow == Ok && Finished(State(), j)
      ensures old(unlinked) <= unlinked <= old(unlinked) + OwnFiles(j)
    {
      for i := 0 to |stops|
        invariant UnderWay(State(), j)
        invariant old(unlinked) <= unlinked <= old(unlinked) + OwnFiles(j)
      {
        budget := stops[i];
        CalmRun(State(), j, torn);
        flow := ResumeRegistration(CALM, torn);
      }
      budget := 6;
      CalmRun(State(), j, torn);
      flow := ResumeRegistration(CALM, torn);
    }
  }
}
