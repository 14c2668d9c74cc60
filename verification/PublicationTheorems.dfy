/** What becomes of the client's files over any number of stopped runs, alone and under an operator's hands. */
module PublicationTheorems {
  import opened Wrappers
  import opened PublicationState
  import opened PublicationSteps

  // ----- the client alone -----------------------------------------------------------------

  lemma CalmTransition(m: Machine, j: Journal, role: Role)
    requires Sane(j) && Distinct(j.publication.value)
    ensures var t := Transition(m, j, role, None, None);
      && (Attested(m.files, j, role) ==> t == Transit(m, Ok, Unmoved))
      && (Before(m.files, j, role) && !Already(j.publication.value, role) ==>
            && t.flow == (if m.budget == 0 then Died else Ok)
            && t.move == (if Expected(j, role) == None then Placed else Exchanged)
            && (t.flow == Died ==> t.m == m)
            && (t.flow == Ok ==>
                  && After(t.m.files, j, role) && t.m == Spent(m).(files := t.m.files)
                  && forall n :: n != Dest(role) && n != Stage(role) ==> At(t.m.files, n) == At(m.files, n)))
  {
  }

  /** A role as publication finds it when only the client wrote. */
  predicate Going(files: map<Name, Inode>, j: Journal, role: Role)
    requires Sane(j)
  {
    Before(files, j, role) || After(files, j, role)
  }

  lemma OtherRoleKept(files: map<Name, Inode>, now: map<Name, Inode>, j: Journal, role: Role, other: Role)
    requires Sane(j) && role != other
    requires forall n :: n != Dest(role) && n != Stage(role) ==> At(now, n) == At(files, n)
    ensures Before(now, j, other) == Before(files, j, other) && After(now, j, other) == After(files, j, other)
    ensures Attested(now, j, other) == Attested(files, j, other)
  {
    assert Dest(other) != Dest(role) && Stage(other) != Stage(role);
    assert At(now, Dest(other)) == At(files, Dest(other)) && At(now, Stage(other)) == At(files, Stage(other));
  }

  lemma SettlingFinishes(m: Machine)
    requires Settling(m)
    ensures var o := Settle(m); var j := m.journal.value;
      && o.flow != Raised && (m.budget >= 3 ==> o.flow == Ok)
      && (o.flow == Ok ==> Finished(o.m, j))
      && (o.flow == Died ==> Settling(o.m) && o.m.journal == m.journal)
      && m.unlinked <= o.m.unlinked <= m.unlinked + OwnFiles(j)
  {
  }

  lemma CalmConclusion(m: Machine, j: Journal)
    requires InProgress(m) && m.journal == Some(j) && Attested(m.files, j, Config) && Attested(m.files, j, Key)
    ensures var o := Conclude(m, j);
      && o.flow != Raised && (m.budget >= 4 ==> o.flow == Ok)
      && (o.flow == Ok ==> Finished(o.m, j))
      && (o.flow == Died ==>
            o.m == m || (Settling(o.m) && o.m.journal == Some(j.(phase := Published))))
      && m.unlinked <= o.m.unlinked <= m.unlinked + OwnFiles(j)
  {
    var w := WriteJournal(m, Some(j.(phase := Published)));
    if w.flow == Ok {
      SettlingFinishes(w.m);
      assert OwnFiles(j.(phase := Published)) == OwnFiles(j);
    }
  }

  lemma CalmPublication(m: Machine, j: Journal)
    requires InProgress(m) && m.journal == Some(j)
    ensures var o := Publish(m, j, CALM);
      && o.flow != Raised && (m.budget >= 6 ==> o.flow == Ok)
      && (o.flow == Ok ==> Finished(o.m, j))
      && (o.flow == Died ==>
            (InProgress(o.m) && o.m.journal == Some(j)) || (Settling(o.m) && o.m.journal == Some(j.(phase := Published))))
      && m.unlinked <= o.m.unlinked <= m.unlinked + OwnFiles(j)
  {
    var c := Transition(m, j, Config, None, None);
    CalmTransition(m, j, Config);
    if c.flow != Ok {
      return;
    }
    OtherRoleKept(m.files, c.m.files, j, Config, Key);
    CalmTransition(c.m, j, Config);
    var k := Transition(c.m, j, Key, None, None);
    CalmTransition(c.m, j, Key);
    assert InProgress(c.m);
    if k.flow != Ok {
      return;
    }
    OtherRoleKept(c.m.files, k.m.files, j, Key, Config);
    CalmTransition(k.m, j, Config);
    CalmTransition(k.m, j, Key);
    assert PublishKey(c.m, j, CALM) == Outcome(k.m, Ok);
    CalmConclusion(k.m, j);
  }

  lemma NothingToAdopt(m: Machine, j: Journal)
    requires InProgress(m) && m.journal == Some(j)
    ensures Adopt(m, j) == Outcome(m, Ok)
  {
  }

  /** The publication `j` is under way, or done. */
  predicate UnderWay(m: Machine, j: Journal)
    requires Sane(j)
  {
    if m.journal == None then Finished(m, j)
    else (InProgress(m) || Settling(m)) && m.journal.value.(phase := Publishing) == j.(phase := Publishing)
  }

  lemma CalmRun(m: Machine, j: Journal, torn: string)
    requires Sane(j) && UnderWay(m, j)
    ensures var o := Resume(m, CALM, torn);
      && UnderWay(o.m, j) && o.flow != Raised && (o.flow == Ok <==> o.m.journal == None)
      && (m.budget >= 6 ==> o.flow == Ok)
      && m.unlinked <= o.m.unlinked <= m.unlinked + OwnFiles(j)
  {
    if m.journal.Some? {
      var i := m.journal.value;
      assert OwnFiles(i) == OwnFiles(j);
      if i.phase == Publishing {
        NothingToAdopt(m, i);
        CalmPublication(m, i);
      } else {
        SettlingFinishes(m);
      }
    }
  }

  /**
  However often and wherever the client stops, its files stay recoverable, nothing but its own files is
  unlinked, and the next run that lives long enough finishes: target and candidate in place, nothing left.
  */
  lemma {:induction false} RecoversFromStops(m: Machine, j: Journal, es: seq<Event>, budget: nat, torn: string)
    requires Sane(j) && UnderWay(m, j) && Calm(es)
    ensures var u := History(m, es); var o := Resume(u.(budget := budget), CALM, torn);
      && UnderWay(u, j) && UnderWay(o.m, j) && o.flow != Raised
      && (budget >= 6 ==> o.flow == Ok && Finished(o.m, j))
      && m.unlinked <= o.m.unlinked <= m.unlinked + OwnFiles(j)
    decreases |es|
  {
    if es == [] {
      CalmRun(m.(budget := budget), j, torn);
    } else {
      CalmRun(m.(budget := es[0].budget), j, es[0].torn);
      RecoversFromStops(Happen(m, es[0]), j, es[1..], budget, torn);
    }
  }

  /** A candidate key that publication put in place is canonical only under the target config. */
  lemma KeyOnlyUnderTarget(m: Machine, j: Journal, es: seq<Event>)
    requires Sane(j) && UnderWay(m, j) && Calm(es)
    requires At(History(m, es).files, KeyFile) == Some(Staged(j, Key))
    ensures var u := History(m, es); ConfigFile in u.files && u.files[ConfigFile].data == j.target
  {
    RecoversFromStops(m, j, es, 0, "");
  }

  /** Until `published` is durable both baselines survive, at the canonical or at the stage name. */
  lemma BaselinesSurvive(m: Machine, j: Journal, es: seq<Event>, role: Role)
    requires Sane(j) && UnderWay(m, j) && Calm(es) && Expected(j, role).Some?
    ensures var u := History(m, es);
      u.journal.Some? && u.journal.value.phase == Publishing ==>
        At(u.files, Dest(role)) == Expected(j, role) || At(u.files, Stage(role)) == Expected(j, role)
  {
    RecoversFromStops(m, j, es, 0, "");
  }

  // ----- preparing ------------------------------------------------------------------------

  /** Every file has one name and was created before the next one. */
  predicate Tidy(m: Machine) {
    SingleLinks(m.files) && forall n :: n in m.files ==> m.files[n].id < m.next
  }

  /** Everything that preparing checks. */
  predicate Ready(m: Machine, j: Journal) {
    Stageable(m.files, KeyStage, j.candidate) && Stageable(m.files, ConfigStage, j.target) && Undrifted(m.files, j)
  }

  predicate Preparing(m: Machine, j: Journal) {
    m.journal == Some(j) && j.phase == Accepted && Tidy(m)
  }

  lemma RecordingBegins(m: Machine, j: Journal)
    requires SingleLinks(m.files) && Undrifted(m.files, j)
    requires At(m.files, ConfigStage).Some? && m.files[ConfigStage].data == j.target
    requires At(m.files, KeyStage).Some? && m.files[KeyStage].data == j.candidate
    ensures var n := Begun(m.files, j);
      InProgress(m.(journal := Some(n))) && Before(m.files, n, Config) && Before(m.files, n, Key)
  {
  }

  /** The calls that creating a stage file takes. */
  function Cost(m: Machine, name: Name): nat {
    if name in m.files then 0 else 2
  }

  /** The client stops between the two writes of a stage file and leaves something else than its bytes. */
  predicate Cuts(m: Machine, j: Journal, budget: nat, torn: string) {
    || (KeyStage !in m.files && budget == 1 && torn != j.candidate)
    || (ConfigStage !in m.files && budget == Cost(m, KeyStage) + 1 && torn != j.target)
  }

  /** A stage name holds something else than the bytes to be staged, and all before it is staged. */
  predicate Torn(m: Machine, j: Journal) {
    && m.journal == Some(j) && j.phase == Accepted && KeyStage in m.files
    && (m.files[KeyStage].data != j.candidate || (ConfigStage in m.files && m.files[ConfigStage].data != j.target))
  }

  lemma NewFileIsTidy(m: Machine, name: Name, data: string, n: Machine)
    requires Tidy(m) && n.files == m.files[name := Inode(m.next, data)] && n.next == m.next + 1
    ensures Tidy(n)
  {
    forall x, y | x in n.files && y in n.files && n.files[x].id == n.files[y].id ensures x == y {
      assert x != name ==> m.files[x].id < m.next;
      assert y != name ==> m.files[y].id < m.next;
    }
  }

  lemma StageFileIs(m: Machine, name: Name, data: string, torn: string)
    requires Tidy(m) && Stageable(m.files, name, data)
    ensures var o := StageFile(m, name, data, torn);
      && Tidy(o.m) && o.m.journal == m.journal && o.m.unlinked == m.unlinked
      && (o.flow == if m.budget >= Cost(m, name) then Ok else Died)
      && (o.flow == Ok ==> o.m.budget == m.budget - Cost(m, name) && name in o.m.files && o.m.files[name].data == data)
      && (o.flow == Died ==> if m.budget == 0 then o.m == m else At(o.m.files, name) == Some(Inode(m.next, torn)))
      && forall n :: n != name ==> At(o.m.files, n) == At(m.files, n)
  {
    var o := StageFile(m, name, data, torn);
    if name !in m.files && m.budget > 0 {
      NewFileIsTidy(m, name, o.m.files[name].data, o.m);
    }
  }

  /** Preparing succeeds, stops with everything as ready as before, or stops having torn a stage. */
  lemma PrepareIs(m: Machine, j: Journal, torn: string)
    requires Preparing(m, j) && Ready(m, j)
    ensures var o := Prepare(m, j, torn);
      && o.flow != Raised && (m.budget >= 5 ==> o.flow == Ok) && o.m.unlinked == m.unlinked
      && (o.flow == Ok ==>
            && o.m.journal == Some(Begun(o.m.files, j)) && InProgress(o.m) && m.budget <= o.m.budget + 5)
      && (o.flow == Died && !Cuts(m, j, m.budget, torn) ==> Preparing(o.m, j) && Ready(o.m, j))
      && (Cuts(m, j, m.budget, torn) ==> o.flow == Died && Torn(o.m, j))
  {
    var k := StageFile(m, KeyStage, j.candidate, torn);
    StageFileIs(m, KeyStage, j.candidate, torn);
    SameCanonical(m, k.m, j);
    if k.flow == Ok {
      assert At(k.m.files, ConfigStage) == At(m.files, ConfigStage);
      StagedKey(k.m, j, torn);
    } else {
      assert At(k.m.files, ConfigStage) == At(m.files, ConfigStage);
    }
  }

  lemma StagedKey(m: Machine, j: Journal, torn: string)
    requires Preparing(m, j) && Ready(m, j) && KeyStage in m.files
    ensures var c := StageFile(m, ConfigStage, j.target, torn);
      && c.flow != Raised && (m.budget >= 2 ==> c.flow == Ok) && Preparing(c.m, j) && Undrifted(c.m.files, j)
      && KeyStage in c.m.files && c.m.files[KeyStage].data == j.candidate && c.m.unlinked == m.unlinked
      && (c.flow == Ok ==>
            && ConfigStage in c.m.files && m.budget <= c.m.budget + 2
            && InProgress(c.m.(journal := Some(Begun(c.m.files, j)))) && Ready(c.m, j))
      && (c.flow == Died ==>
            if ConfigStage !in m.files && m.budget == 1 && torn != j.target then Torn(c.m, j) else Ready(c.m, j))
  {
    var c := StageFile(m, ConfigStage, j.target, torn);
    StageFileIs(m, ConfigStage, j.target, torn);
    assert At(c.m.files, KeyStage) == At(m.files, KeyStage);
    SameCanonical(m, c.m, j);
    if c.flow == Ok {
      RecordingBegins(c.m, j);
    }
  }

  lemma SameCanonical(m: Machine, n: Machine, j: Journal)
    requires At(m.files, ConfigFile) == At(n.files, ConfigFile) && At(m.files, KeyFile) == At(n.files, KeyFile)
    ensures Undrifted(m.files, j) == Undrifted(n.files, j)
  {
  }

  /** A torn stage is refused by every later run, which changes nothing. */
  lemma {:induction false} TornStaysTorn(m: Machine, j: Journal, es: seq<Event>, budget: nat, torn: string)
    requires Torn(m, j) && Calm(es)
    ensures var u := History(m, es);
      u == m.(budget := u.budget) && Resume(u.(budget := budget), CALM, torn) == Outcome(u.(budget := budget), Raised)
    decreases |es|
  {
    if es != [] {
      TornStaysTorn(m.(budget := es[0].budget), j, es[1..], budget, torn);
    }
  }

  /** No stop of the history cuts a stage file short. */
  predicate NeverCut(m: Machine, j: Journal, es: seq<Event>)
    requires Calm(es)
    decreases |es|
  {
    es == [] || (!(m.journal == Some(j) && Cuts(m, j, es[0].budget, es[0].torn)) && NeverCut(Happen(m, es[0]), j, es[1..]))
  }

  /** Stops from the accepted key on: recovery finishes if and only if none of them cut a stage file short. */
  lemma {:induction false} RecoversUnlessTorn(m: Machine, j: Journal, es: seq<Event>, budget: nat, torn: string)
    requires Preparing(m, j) && Ready(m, j) && Calm(es) && budget >= 11
    ensures var u := History(m, es); var o := Resume(u.(budget := budget), CALM, torn);
      && (o.flow == Ok <==> NeverCut(m, j, es))
      && (o.flow == Ok ==> o.m.journal == None && InPlace(o.m.files, j) && ConfigStage !in o.m.files && KeyStage !in o.m.files)
      && (o.flow != Ok ==> o.flow == Raised && Torn(u, j))
    decreases |es|
  {
    if es == [] {
      PreparedRun(m.(budget := budget), j, torn);
    } else {
      var e := es[0];
      var n := Happen(m, e);
      PreparedRun(m.(budget := e.budget), j, e.torn);
      if Cuts(m, j, e.budget, e.torn) {
        TornStaysTorn(n, j, es[1..], budget, torn);
      } else if n.journal == Some(j) {
        RecoversUnlessTorn(n, j, es[1..], budget, torn);
      } else {
        var i :| Sane(i) && UnderWay(n, i) && SameWork(i, j) && i.phase == Publishing;
        RecoversFromStops(n, i, es[1..], budget, torn);
        BegunIsNeverCut(n, i, j, es[1..]);
      }
    }
  }

  lemma {:induction false} BegunIsNeverCut(m: Machine, i: Journal, j: Journal, es: seq<Event>)
    requires Sane(i) && UnderWay(m, i) && j.phase == Accepted && Calm(es)
    ensures NeverCut(m, j, es)
    decreases |es|
  {
    if es != [] {
      CalmRun(m.(budget := es[0].budget), i, es[0].torn);
      BegunIsNeverCut(Happen(m, es[0]), i, j, es[1..]);
    }
  }

  lemma PreparedRun(m: Machine, j: Journal, torn: string)
    requires Preparing(m, j) && Ready(m, j)
    ensures var o := Resume(m, CALM, torn); var cut := Cuts(m, j, m.budget, torn);
      && (cut ==> o.flow == Died && Torn(o.m, j))
      && (!cut ==> o.flow != Raised && (m.budget >= 11 ==> o.flow == Ok))
      && (!cut && o.m.journal == Some(j) ==> Preparing(o.m, j) && Ready(o.m, j) && o.flow == Died)
      && (!cut && o.m.journal != Some(j) ==>
            exists i :: Sane(i) && UnderWay(o.m, i) && SameWork(i, j) && i.phase == Publishing)
      && (o.flow == Ok ==>
            o.m.journal == None && InPlace(o.m.files, j) && ConfigStage !in o.m.files && KeyStage !in o.m.files)
  {
    PrepareIs(m, j, torn);
    var p := Prepare(m, j, torn);
    if p.flow == Ok {
      var i := p.m.journal.value;
      CalmPublication(p.m, i);
      var o := Publish(p.m, i, CALM);
      assert UnderWay(o.m, i) && SameWork(i, j);
    }
  }

  /** A stop after the first of two writes is enough: the key is never published. */
  lemma OneStopTearsForGood(m: Machine, j: Journal, torn: string, es: seq<Event>)
    requires Preparing(m, j) && Ready(m, j) && KeyStage !in m.files && torn != j.candidate && Calm(es)
    ensures var n := Happen(m, Start(1, CALM, torn)); var u := History(n, es);
      && n.files == m.files[KeyStage := Inode(m.next, torn)] && !Ready(n, j)
      && u.files == n.files && u.journal == Some(j)
  {
    var n := Happen(m, Start(1, CALM, torn));
    PreparedRun(m.(budget := 1), j, torn);
    TornStaysTorn(n, j, es, 0, "");
  }

  // ----- restored baselines ---------------------------------------------------------------

  /** The exact bytes of the baseline are canonical, under whatever inode, and the candidate is staged. */
  predicate Restored(files: map<Name, Inode>, j: Journal, role: Role)
    requires Sane(j)
  {
    && !Already(j.publication.value, role) && Expected(j, role).Some?
    && At(files, Stage(role)) == Some(Staged(j, role))
    && At(files, Dest(role)).Some? && files[Dest(role)].data == Expected(j, role).value.data
  }

  /** An operator who restores the bytes of either baseline, or of both, makes the publication recoverable again. */
  lemma AdoptingRecovers(m: Machine, j: Journal)
    requires m.journal == Some(j) && j.phase == Publishing && Sane(j) && Distinct(j.publication.value) && SingleLinks(m.files)
    requires Going(m.files, j, Config) || Restored(m.files, j, Config)
    requires Before(m.files, j, Key) || Restored(m.files, j, Key) || (After(m.files, j, Config) && After(m.files, j, Key))
    ensures var a := Adopt(m, j);
      && a.flow != Raised && (m.budget > 0 ==> a.flow == Ok)
      && (a.flow == Ok ==> InProgress(a.m) && SameWork(a.m.journal.value, j) && a.m.files == m.files)
      && (a.flow == Died ==> a.m == m)
  {
    var n := j.(publication := Some(Adopted(m.files, j)));
    assert SingleLinks(m.files);
    if Restored(m.files, j, Config) {
      assert Before(m.files, n, Config);
    } else {
      assert n.publication.value.configExpected == j.publication.value.configExpected;
    }
    if Restored(m.files, j, Key) {
      assert Before(m.files, n, Key);
    } else {
      assert n.publication.value.keyExpected == j.publication.value.keyExpected;
    }
    AdoptedTokensDiffer(m, j);
  }

  lemma AdoptedTokensDiffer(m: Machine, j: Journal)
    requires Sane(j) && Distinct(j.publication.value) && SingleLinks(m.files)
    requires Going(m.files, j, Config) || Restored(m.files, j, Config)
    requires Before(m.files, j, Key) || Restored(m.files, j, Key) || (After(m.files, j, Config) && After(m.files, j, Key))
    ensures Distinct(Adopted(m.files, j))
  {
    var p, n := j.publication.value, Adopted(m.files, j);
    assert forall x, y :: x in m.files && y in m.files && m.files[x].id == m.files[y].id ==> x == y;
  }
}
