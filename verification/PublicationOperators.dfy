/**
An operator who replaces canonical files while the client publishes: which of those files come back to
their name, which stay displaced, and that none is ever unlinked.
*/
module PublicationOperators {
  import opened Wrappers
  import opened PublicationState
  import opened PublicationSteps
  import opened PublicationTheorems

  // ----- one call -------------------------------------------------------------------------

  /** A file that is not of this publication, nor a restored baseline. */
  predicate Foreign(j: Journal, role: Role, x: Inode)
    requires Sane(j)
  {
    && x !in OwnFiles(j)
    && (Expected(j, role).Some? ==> x.data != Expected(j, role).value.data)
  }

  /** The operator's file is canonical, and the candidate staged. */
  predicate Back(files: map<Name, Inode>, j: Journal, role: Role, x: Inode)
    requires Sane(j)
  {
    At(files, Dest(role)) == Some(x) && At(files, Stage(role)) == Some(Staged(j, role))
  }

  /** An exchange that was not undone has left the operator's file at the stage name. */
  predicate Strayed(files: map<Name, Inode>, j: Journal, role: Role, x: Inode)
    requires Sane(j)
  {
    && Expected(j, role).Some?
    && At(files, Dest(role)) == Some(Staged(j, role)) && At(files, Stage(role)) == Some(x)
  }

  predicate OnlyRole(m: Machine, n: Machine, role: Role) {
    && n.(files := m.files, budget := m.budget) == m
    && forall name :: name != Dest(role) && name != Stage(role) ==> At(n.files, name) == At(m.files, name)
  }

  lemma ExchangeKeepsOthers(m: Machine, role: Role, hand: Option<Inode>)
    ensures OnlyRole(m, Exchange(m, role, hand).m, role)
  {
  }

  lemma SwapInKeepsOthers(m: Machine, j: Journal, role: Role, hand: Option<Inode>, back: Option<Inode>)
    requires Sane(j)
    ensures OnlyRole(m, SwapIn(m, j, role, hand, back).m, role)
  {
    var o := Exchange(m, role, hand);
    ExchangeKeepsOthers(m, role, hand);
    ExchangeKeepsOthers(o.m, role, back);
  }

  /**
  A file met by the publishing call is canonical again unless the client stops in between; a file met by
  the call that undoes the exchange takes its place at the stage name.
  */
  lemma TransitionReturnsExactly(m: Machine, j: Journal, role: Role, x: Inode, back: Option<Inode>)
    requires Sane(j) && Distinct(j.publication.value) && !Already(j.publication.value, role)
    requires Before(m.files, j, role) && Foreign(j, role, x)
    ensures var t := Transition(m, j, role, Some(x), back);
      && t.flow != Ok && OnlyRole(m, t.m, role)
      && (Expected(j, role) == None || m.budget == 0 ==> Back(t.m.files, j, role, x))
      && (Expected(j, role).Some? && m.budget == 1 && back == None ==> Strayed(t.m.files, j, role, x))
      && (Expected(j, role).Some? && m.budget >= 2 ==>
            && At(t.m.files, Dest(role)) == Some(x)
            && At(t.m.files, Stage(role)) == if back.Some? then back else Some(Staged(j, role)))
  {
    SwapInKeepsOthers(m, j, role, Some(x), back);
    if Expected(j, role).Some? {
      var o := Exchange(m, role, Some(x));
      assert Transition(m, j, role, Some(x), back).m == SwapIn(m, j, role, Some(x), back).m;
      if m.budget > 0 {
        assert Strayed(o.m.files, j, role, x);
      }
    }
  }

  /** So is one that is put back later, and again a file met by that call is displaced. */
  lemma PutBackReturnsExactly(m: Machine, j: Journal, role: Role, x: Inode, back: Option<Inode>)
    requires Sane(j) && !Already(j.publication.value, role) && Strayed(m.files, j, role, x) && Foreign(j, role, x)
    ensures var t := Transition(m, j, role, None, back);
      && t.flow == (if m.budget == 0 then Died else Raised) && OnlyRole(m, t.m, role)
      && (m.budget == 0 && back == None ==> t.m == m)
      && (m.budget > 0 ==>
            && At(t.m.files, Dest(role)) == Some(x)
            && At(t.m.files, Stage(role)) == if back.Some? then back else Some(Staged(j, role)))
  {
  }

  /** A key met by the rollback is canonical afterwards if and only if the client stopped before the call. */
  lemma RollbackReturnsExactly(m: Machine, j: Journal, move: Move, x: Inode)
    requires Sane(j) && Distinct(j.publication.value) && !Already(j.publication.value, Key) && Foreign(j, Key, x)
    requires After(m.files, j, Key) && move == (if Expected(j, Key) == None then Placed else Exchanged)
    ensures var o := Rollback(m, j, Key, move, Some(x));
      && o.flow != Ok && OnlyRole(m, o.m, Key)
      && (At(o.m.files, KeyFile) == Some(x) <==> m.budget == 0)
      && (m.budget > 0 ==>
            o.flow == Raised && At(o.m.files, KeyStage) == Some(x) && At(o.m.files, KeyFile) == Expected(j, Key))
  {
  }

  // ----- whole runs -----------------------------------------------------------------------

  /** The other role gives the run of `role` its way: nothing to adopt, and the key comes second. */
  predicate Leads(files: map<Name, Inode>, j: Journal, role: Role)
    requires Sane(j)
  {
    if role == Config then Going(files, j, Key) else Attested(files, j, Config) && Going(files, j, Config)
  }

  predicate Publishes(m: Machine, j: Journal) {
    m.journal == Some(j) && j.phase == Publishing && Sane(j) && Distinct(j.publication.value)
  }

  /** The file that an operator swapped in is canonical, or waits at the stage name to be put back. */
  predicate Swapped(m: Machine, j: Journal, role: Role, x: Inode) {
    && Publishes(m, j) && !Already(j.publication.value, role) && Foreign(j, role, x)
    && (Back(m.files, j, role, x) || Strayed(m.files, j, role, x))
    && Leads(m.files, j, role)
  }

  lemma SwappedRun(m: Machine, j: Journal, role: Role, x: Inode, torn: string)
    requires Swapped(m, j, role, x)
    ensures var o := Resume(m, CALM, torn);
      && o.flow != Ok && Swapped(o.m, j, role, x) && o.m.unlinked == m.unlinked
      && (m.budget > 0 || Back(m.files, j, role, x) ==> Back(o.m.files, j, role, x))
  {
    assert Adopt(m, j) == Outcome(m, Ok);
    var c := Transition(m, j, Config, None, None);
    if role == Key {
      CalmTransition(m, j, Config);
      assert c == Transit(m, Ok, Unmoved);
      var k := Transition(m, j, Key, None, None);
      assert PublishKey(m, j, CALM) == Outcome(k.m, k.flow);
      OtherRoleKept(m.files, k.m.files, j, Key, Config);
    } else {
      OtherRoleKept(m.files, c.m.files, j, Config, Key);
    }
  }

  predicate SomeBudget(es: seq<Event>) {
    exists i :: 0 <= i < |es| && es[i].Start? && es[i].budget > 0
  }

  lemma {:induction false} SwappedStays(m: Machine, j: Journal, role: Role, x: Inode, es: seq<Event>)
    requires Swapped(m, j, role, x) && Calm(es)
    ensures var u := History(m, es);
      && Swapped(u, j, role, x) && u.unlinked == m.unlinked
      && (SomeBudget(es) || Back(m.files, j, role, x) ==> Back(u.files, j, role, x))
    decreases |es|
  {
    if es != [] {
      SwappedRun(m.(budget := es[0].budget), j, role, x, es[0].torn);
      SwappedStays(Happen(m, es[0]), j, role, x, es[1..]);
      if es[0].budget == 0 && SomeBudget(es) {
        var i :| 0 <= i < |es| && es[i].Start? && es[i].budget > 0;
        assert es[1..][i - 1] == es[i];
      }
    }
  }

  /** An operator who replaces one canonical file, inside the exchange of its role. */
  function Swapping(role: Role, x: Inode): Hands {
    if role == Config then CALM.(config := Some(x)) else CALM.(key := Some(x))
  }

  /** The run in which it happens: the file is swapped in, or the run never came to that exchange. */
  lemma SwappingRun(m: Machine, j: Journal, role: Role, x: Inode, torn: string)
    requires InProgress(m) && m.journal == Some(j) && Foreign(j, role, x)
    ensures var o := Resume(m, Swapping(role, x), torn);
      || o == Resume(m, CALM, torn)
      || (o.flow != Ok && o.m.unlinked == m.unlinked && Swapped(o.m, j, role, x))
  {
    NothingToAdopt(m, j);
    if role == Config {
      if Before(m.files, j, Config) && !Already(j.publication.value, Config) {
        var t := Transition(m, j, Config, Some(x), None);
        TransitionReturnsExactly(m, j, Config, x, None);
        OtherRoleKept(m.files, t.m.files, j, Config, Key);
      } else {
        CalmTransition(m, j, Config);
        assert Transition(m, j, Config, Some(x), None) == Transition(m, j, Config, None, None);
      }
    } else {
      SwappingKey(m, j, x);
    }
  }

  lemma SwappingKey(m: Machine, j: Journal, x: Inode)
    requires InProgress(m) && m.journal == Some(j) && Foreign(j, Key, x)
    ensures var o := Publish(m, j, Swapping(Key, x));
      || o == Publish(m, j, CALM)
      || (o.flow != Ok && o.m.unlinked == m.unlinked && Swapped(o.m, j, Key, x))
  {
    var c := Transition(m, j, Config, None, None);
    CalmTransition(m, j, Config);
    if c.flow == Ok {
      OtherRoleKept(m.files, c.m.files, j, Config, Key);
      CalmTransition(c.m, j, Config);
      if Before(c.m.files, j, Key) && !Already(j.publication.value, Key) {
        var t := Transition(c.m, j, Key, Some(x), None);
        TransitionReturnsExactly(c.m, j, Key, x, None);
        OtherRoleKept(c.m.files, t.m.files, j, Key, Config);
        assert PublishKey(c.m, j, Swapping(Key, x)) == Outcome(t.m, t.flow);
      } else {
        CalmTransition(c.m, j, Key);
        assert Transition(c.m, j, Key, Some(x), None) == Transition(c.m, j, Key, None, None);
        assert PublishKey(c.m, j, Swapping(Key, x)) == PublishKey(c.m, j, CALM);
      }
    }
  }

  /**
  An operator's file swapped in at an exchange, in a run that may stop anywhere, before any further runs
  that may stop anywhere: nothing is unlinked, the publication never finishes over it, and the first run
  that lives to make a single call leaves it at its canonical name.
  */
  lemma SwappedFileComesBack(m: Machine, j: Journal, role: Role, x: Inode, budget: nat, torn: string, es: seq<Event>)
    requires InProgress(m) && m.journal == Some(j) && Foreign(j, role, x) && Calm(es)
    ensures var n := Happen(m, Start(budget, Swapping(role, x), torn)); var u := History(n, es);
      || n == Happen(m, Start(budget, CALM, torn))
      || (u.journal == m.journal && u.unlinked == m.unlinked
          && (Back(u.files, j, role, x) || (!SomeBudget(es) && Strayed(u.files, j, role, x))))
  {
    SwappingRun(m.(budget := budget), j, role, x, torn);
    var n := Happen(m, Start(budget, Swapping(role, x), torn));
    if n != Happen(m, Start(budget, CALM, torn)) {
      SwappedStays(n, j, role, x, es);
    }
  }

  // ----- displaced for good ---------------------------------------------------------------

  /** A foreign file at the stage name, with nothing for the other role to adopt. */
  predicate Displaced(m: Machine, j: Journal, role: Role, y: Inode) {
    && Publishes(m, j) && !Already(j.publication.value, role) && y !in OwnFiles(j)
    && At(m.files, Stage(role)) == Some(y)
    && (if role == Config then Going(m.files, j, Key)
        else At(m.files, ConfigStage) == if Already(j.publication.value, Config) then Some(Staged(j, Config)) else Expected(j, Config))
  }

  /** The next run that can make a call exchanges the names again. */
  predicate Returnable(m: Machine, j: Journal, role: Role)
    requires Sane(j)
  {
    && Expected(j, role).Some? && At(m.files, Dest(role)) == Some(Staged(j, role))
    && (role == Key ==> Attested(m.files, j, Config))
  }

  lemma DisplacedRun(m: Machine, j: Journal, role: Role, y: Inode, torn: string)
    requires Displaced(m, j, role, y)
    ensures var o := Resume(m, CALM, torn);
      && o.flow != Ok && o.m.unlinked == m.unlinked && o.m.journal == m.journal
      && (if m.budget > 0 && Returnable(m, j, role) then Back(o.m.files, j, role, y) && Leads(o.m.files, j, role)
          else o.m == m)
  {
    assert Adopt(m, j) == Outcome(m, Ok);
    var c := Transition(m, j, Config, None, None);
    if role == Key {
      if Attested(m.files, j, Config) {
        CalmTransition(m, j, Config);
        var k := Transition(m, j, Key, None, None);
        assert PublishKey(m, j, CALM) == Outcome(k.m, k.flow);
        OtherRoleKept(m.files, k.m.files, j, Key, Config);
      } else {
        assert c == Transit(m, Raised, Unmoved);
      }
    } else {
      OtherRoleKept(m.files, c.m.files, j, Config, Key);
    }
  }

  /**
  A displaced file returns, in the first run that can make a call, if and only if the candidate that was
  exchanged for it is canonical; otherwise every run refuses and leaves all files alone, for good.
  */
  lemma {:induction false} DisplacedFileReturnsExactly(m: Machine, j: Journal, role: Role, y: Inode, es: seq<Event>)
    requires Displaced(m, j, role, y) && Foreign(j, role, y) && At(m.files, Dest(role)) != Some(y)
    requires Calm(es) && SomeBudget(es)
    ensures var u := History(m, es);
      && (At(u.files, Dest(role)) == Some(y) <==> Returnable(m, j, role))
      && (!Returnable(m, j, role) ==> u.files == m.files)
      && u.unlinked == m.unlinked && u.journal == m.journal
    decreases |es|
  {
    var n := Happen(m, es[0]);
    DisplacedRun(m.(budget := es[0].budget), j, role, y, es[0].torn);
    if es[0].budget > 0 && Returnable(m, j, role) {
      SwappedStays(n, j, role, y, es[1..]);
    } else {
      Stuck(m, j, role, y, es);
      if es[0].budget == 0 {
        var i :| 0 <= i < |es| && es[i].Start? && es[i].budget > 0;
        assert es[1..][i - 1] == es[i];
        DisplacedFileReturnsExactly(n, j, role, y, es[1..]);
      }
    }
  }

  lemma {:induction false} Stuck(m: Machine, j: Journal, role: Role, y: Inode, es: seq<Event>)
    requires Displaced(m, j, role, y) && Calm(es)
    ensures var u := History(m, es);
      !Returnable(m, j, role) ==> u.files == m.files && u.unlinked == m.unlinked && u.journal == m.journal
    decreases |es|
  {
    if es != [] && !Returnable(m, j, role) {
      DisplacedRun(m.(budget := es[0].budget), j, role, y, es[0].torn);
      Stuck(Happen(m, es[0]), j, role, y, es[1..]);
    }
  }

  // ----- a config that drifts around the key transition -----------------------------------

  /** An operator replaces the config after the key transition, and perhaps the key during the rollback. */
  function Drifting(d: Inode, x: Option<Inode>): Hands {
    CALM.(drift := Some(d), rollback := x)
  }

  lemma DriftedKey(m: Machine, j: Journal, d: Inode, x: Option<Inode>)
    requires Publishes(m, j) && Attested(m.files, j, Config) && Some(d) != Canonical(j, Config) && d !in OwnFiles(j)
    requires Before(m.files, j, Key) && !Already(j.publication.value, Key) && (x.Some? ==> Foreign(j, Key, x.value))
    ensures var o := PublishKey(m, j, Drifting(d, x));
      && o.flow != Ok && o.m.journal == m.journal && o.m.unlinked == m.unlinked
      && At(o.m.files, ConfigStage) == At(m.files, ConfigStage)
      && (m.budget == 0 ==> o == Outcome(m, Died))
      && (m.budget > 0 ==> At(o.m.files, ConfigFile) == Some(d))
      && (m.budget == 1 && x == None ==> o.flow == Died && After(o.m.files, j, Key))
      && (m.budget >= 2 && x == None ==> o.flow == Raised && Before(o.m.files, j, Key))
      && (m.budget >= 2 && x.Some? ==> o.flow == Raised && At(o.m.files, KeyStage) == x && At(o.m.files, KeyFile) == Expected(j, Key))
  {
    var t := Transition(m, j, Key, None, None);
    CalmTransition(m, j, Key);
    if t.flow == Ok {
      var n := Put(t.m, Config, Some(d));
      assert At(n.files, ConfigStage) == At(m.files, ConfigStage);
      assert Transition(n, j, Config, None, None) == Transit(n, Raised, Unmoved);
      OtherRoleKept(t.m.files, n.files, j, Config, Key);
      assert After(n.files, j, Key);
      if x.Some? {
        RollbackReturnsExactly(n, j, t.move, x.value);
      } else {
        CalmRollback(n, j, t.move);
      }
    }
  }

  /** Undoing is exact: a rollback that nobody meets gives back what was there. */
  lemma CalmRollback(m: Machine, j: Journal, move: Move)
    requires Sane(j) && Distinct(j.publication.value) && !Already(j.publication.value, Key) && After(m.files, j, Key)
    requires move == (if Expected(j, Key) == None then Placed else Exchanged)
    ensures var o := Rollback(m, j, Key, move, None);
      && OnlyRole(m, o.m, Key)
      && if m.budget == 0 then o == Outcome(m, Died) else o.flow == Ok && Before(o.m.files, j, Key)
  {
  }

  /** A config that drifts after the key transition is left alone and the key taken back, unless it met a file. */
  lemma DriftTakesKeyBack(m: Machine, j: Journal, d: Inode, x: Option<Inode>)
    requires InProgress(m) && m.journal == Some(j) && Before(m.files, j, Key) && !Already(j.publication.value, Key)
    requires Some(d) != Canonical(j, Config) && d !in OwnFiles(j) && (x.Some? ==> Foreign(j, Key, x.value))
    ensures var o := Publish(m, j, Drifting(d, x));
      && o.flow != Ok && o.m.journal == m.journal && o.m.unlinked == m.unlinked
      && (m.budget >= 3 ==>
            && o.flow == Raised && At(o.m.files, ConfigFile) == Some(d)
            && At(o.m.files, ConfigStage) == (if Already(j.publication.value, Config) then Some(Staged(j, Config)) else Expected(j, Config))
            && (if x == None then Before(o.m.files, j, Key)
                else At(o.m.files, KeyStage) == x && At(o.m.files, KeyFile) == Expected(j, Key)))
  {
    var c := Transition(m, j, Config, None, None);
    CalmTransition(m, j, Config);
    if c.flow == Ok {
      OtherRoleKept(m.files, c.m.files, j, Config, Key);
      CalmTransition(c.m, j, Config);
      DriftedKey(c.m, j, d, x);
    }
  }

  /** Starts of the client, and whatever an operator puts in place of the config. */
  predicate KeyUntouched(es: seq<Event>) {
    forall i :: 0 <= i < |es| ==> if es[i].Start? then es[i].hands == CALM else es[i].role == Config
  }

  lemma {:induction false} StrandedForGood(m: Machine, j: Journal, y: Inode, es: seq<Event>)
    requires Displaced(m, j, Key, y) && At(m.files, KeyFile) != Some(Staged(j, Key)) && KeyUntouched(es)
    ensures var u := History(m, es);
      At(u.files, KeyFile) == At(m.files, KeyFile) && At(u.files, KeyStage) == Some(y) && u.unlinked == m.unlinked
    decreases |es|
  {
    if es != [] {
      var n := Happen(m, es[0]);
      if es[0].Start? {
        DisplacedRun(m.(budget := es[0].budget), j, Key, y, es[0].torn);
      } else {
        assert At(n.files, KeyFile) == At(m.files, KeyFile) && At(n.files, KeyStage) == At(m.files, KeyStage);
        assert At(n.files, ConfigStage) == At(m.files, ConfigStage);
      }
      StrandedForGood(n, j, y, es[1..]);
    }
  }

  /** The key met by the rollback never returns, not even after the config was put right. */
  lemma RollbackStrandsTheKey(m: Machine, j: Journal, d: Inode, x: Inode, budget: nat, torn: string, es: seq<Event>)
    requires InProgress(m) && m.journal == Some(j) && Before(m.files, j, Key) && !Already(j.publication.value, Key)
    requires Some(d) != Canonical(j, Config) && d !in OwnFiles(j) && Foreign(j, Key, x)
    requires budget >= 3 && KeyUntouched(es)
    ensures var u := History(Happen(m, Start(budget, Drifting(d, Some(x)), torn)), es);
      At(u.files, KeyFile) == Expected(j, Key) && At(u.files, KeyStage) == Some(x) && u.unlinked == m.unlinked
  {
    var n := m.(budget := budget);
    NothingToAdopt(n, j);
    DriftTakesKeyBack(n, j, d, Some(x));
    StrandedForGood(Happen(m, Start(budget, Drifting(d, Some(x)), torn)), j, x, es);
  }

  // ----- nothing foreign is unlinked ------------------------------------------------------

  /** One of the four contents that the journal knows. */
  predicate Known(j: Journal, data: string) {
    data == j.base || data == j.target || data == j.candidate || Some(data) == j.prior
  }

  predicate StageKnown(files: map<Name, Inode>, j: Journal, role: Role) {
    Stage(role) in files ==> Known(j, files[Stage(role)].data)
  }

  /** What an operator who writes canonical names cannot break. */
  predicate Owned(m: Machine, j: Journal) {
    && m.journal == Some(j)
    && match j.phase
       case Accepted => true
       case Publishing => Sane(j) ==>
         forall role :: Already(j.publication.value, role) ==> At(m.files, Stage(role)) == Some(Staged(j, role))
       case Published => StageKnown(m.files, j, Config) && StageKnown(m.files, j, Key)
  }

  predicate OwnedOrDone(m: Machine, j: Journal) {
    m.journal.Some? ==> SameWork(m.journal.value, j) && Owned(m, m.journal.value)
  }

  predicate OnlyKnownUnlinked(m: Machine, n: Machine, j: Journal) {
    m.unlinked <= n.unlinked && forall x :: x in n.unlinked && x !in m.unlinked ==> Known(j, x.data)
  }

  /** Whatever is met, a transition only ever succeeds with its role attested, and unlinks nothing. */
  lemma AnyTransition(m: Machine, j: Journal, role: Role, hand: Option<Inode>, back: Option<Inode>)
    requires Sane(j)
    ensures var t := Transition(m, j, role, hand, back);
      && OnlyRole(m, t.m, role)
      && (Already(j.publication.value, role) ==> t.m == m)
      && (t.flow == Ok ==> Attested(t.m.files, j, role))
  {
    ExchangeKeepsOthers(m, role, back);
    SwapInKeepsOthers(m, j, role, hand, back);
  }

  lemma TransitionKeepsOwned(m: Machine, j: Journal, role: Role, hand: Option<Inode>, back: Option<Inode>)
    requires Sane(j) && Owned(m, j) && j.phase == Publishing
    ensures Owned(Transition(m, j, role, hand, back).m, j)
  {
    var t := Transition(m, j, role, hand, back);
    AnyTransition(m, j, role, hand, back);
    forall other | Already(j.publication.value, other)
      ensures At(t.m.files, Stage(other)) == At(m.files, Stage(other))
    {
      if other != role {
        assert Stage(other) != Stage(role) && Stage(other) != Dest(role);
      }
    }
  }

  lemma PutKeepsOwned(m: Machine, j: Journal, role: Role, hand: Option<Inode>)
    requires Owned(m, j)
    ensures Owned(Put(m, role, hand), j)
    ensures forall other :: At(Put(m, role, hand).files, Stage(other)) == At(m.files, Stage(other))
  {
    assert forall other :: Stage(other) != Dest(role);
  }

  lemma AttestedStage(m: Machine, j: Journal, role: Role)
    requires Sane(j) && Owned(m, j) && j.phase == Publishing && Attested(m.files, j, role)
    ensures StageKnown(m.files, j, role)
  {
  }

  lemma SettleUnlinksKnown(m: Machine, j: Journal)
    requires Owned(m, j) && j.phase == Published
    ensures var o := Settle(m); OwnedOrDone(o.m, j) && OnlyKnownUnlinked(m, o.m, j)
  {
  }

  lemma ConcludeUnlinksKnown(m: Machine, j: Journal)
    requires Owned(m, j) && j.phase == Publishing && StageKnown(m.files, j, Config) && StageKnown(m.files, j, Key)
    ensures var o := Conclude(m, j); OwnedOrDone(o.m, j) && OnlyKnownUnlinked(m, o.m, j)
  {
    if InPlace(m.files, j) && m.budget > 0 {
      var i := j.(phase := Published);
      SettleUnlinksKnown(WriteJournal(m, Some(i)).m, i);
    }
  }

  lemma RollbackKeepsOwned(m: Machine, j: Journal, move: Move, hand: Option<Inode>)
    requires Sane(j) && Owned(m, j) && j.phase == Publishing && (move != Unmoved ==> !Already(j.publication.value, Key))
    ensures var o := Rollback(m, j, Key, move, hand); Owned(o.m, j) && o.m.unlinked == m.unlinked
  {
    var o := Rollback(m, j, Key, move, hand);
    assert At(o.m.files, ConfigStage) == At(m.files, ConfigStage);
  }

  lemma KeyUnlinksNothing(m: Machine, j: Journal, h: Hands)
    requires Sane(j) && Owned(m, j) && j.phase == Publishing
    ensures var o := PublishKey(m, j, h);
      && Owned(o.m, j) && o.m.unlinked == m.unlinked
      && (o.flow == Ok ==> StageKnown(o.m.files, j, Config) && StageKnown(o.m.files, j, Key))
  {
    var t := Transition(m, j, Key, h.key, h.keyBack);
    TransitionKeepsOwned(m, j, Key, h.key, h.keyBack);
    AnyTransition(m, j, Key, h.key, h.keyBack);
    if t.flow == Ok {
      var n := Put(t.m, Config, h.drift);
      PutKeepsOwned(t.m, j, Config, h.drift);
      var c := Transition(n, j, Config, None, None);
      TransitionKeepsOwned(n, j, Config, None, None);
      AnyTransition(n, j, Config, None, None);
      if c.flow == Raised {
        assert t.move != Unmoved ==> !Already(j.publication.value, Key);
        RollbackKeepsOwned(c.m, j, t.move, h.rollback);
      } else if c.flow == Ok {
        var k := Transition(c.m, j, Key, None, None);
        TransitionKeepsOwned(c.m, j, Key, None, None);
        AnyTransition(c.m, j, Key, None, None);
        AttestedStage(c.m, j, Config);
        assert At(k.m.files, ConfigStage) == At(c.m.files, ConfigStage);
        if k.flow == Ok {
          AttestedStage(k.m, j, Key);
        }
      }
    }
  }

  lemma PublishUnlinksKnown(m: Machine, j: Journal, h: Hands)
    requires Sane(j) && Owned(m, j) && j.phase == Publishing
    ensures var o := Publish(m, j, h); OwnedOrDone(o.m, j) && OnlyKnownUnlinked(m, o.m, j)
  {
    var c := Transition(m, j, Config, h.config, h.configBack);
    TransitionKeepsOwned(m, j, Config, h.config, h.configBack);
    AnyTransition(m, j, Config, h.config, h.configBack);
    if c.flow == Ok {
      var n := Put(c.m, Config, h.recheck);
      PutKeepsOwned(c.m, j, Config, h.recheck);
      var d := Transition(n, j, Config, None, None);
      TransitionKeepsOwned(n, j, Config, None, None);
      AnyTransition(n, j, Config, None, None);
      if d.flow == Ok {
        var k := PublishKey(d.m, j, h);
        KeyUnlinksNothing(d.m, j, h);
        if k.flow == Ok {
          var l := Put(k.m, Config, h.lateConfig);
          PutKeepsOwned(k.m, j, Config, h.lateConfig);
          PutKeepsOwned(l, j, Key, h.lateKey);
          assert forall role :: At(Put(l, Key, h.lateKey).files, Stage(role)) == At(k.m.files, Stage(role));
          ConcludeUnlinksKnown(Put(l, Key, h.lateKey), j);
        }
      }
    }
  }

  lemma ResumeUnlinksKnown(m: Machine, j: Journal, h: Hands, torn: string)
    requires Owned(m, j)
    ensures var o := Resume(m, h, torn); OwnedOrDone(o.m, j) && OnlyKnownUnlinked(m, o.m, j)
  {
    match j.phase
    case Accepted =>
      var p := Prepare(m, j, torn);
      PreparedIsOwned(m, j, torn);
      if p.flow == Ok {
        PublishUnlinksKnown(p.m, p.m.journal.value, h);
      }
    case Publishing =>
      if Sane(j) {
        var a := Adopt(m, j);
        if a.flow == Ok && Sane(a.m.journal.value) {
          PublishUnlinksKnown(a.m, a.m.journal.value, h);
        }
      }
    case Published =>
      if InPlace(m.files, j) {
        SettleUnlinksKnown(m, j);
      }
  }

  lemma PreparedIsOwned(m: Machine, j: Journal, torn: string)
    requires Owned(m, j) && j.phase == Accepted
    ensures var p := Prepare(m, j, torn);
      && p.m.unlinked == m.unlinked && p.m.journal.Some? && SameWork(p.m.journal.value, j)
      && Owned(p.m, p.m.journal.value)
      && (p.flow == Ok ==> p.m.journal.value.phase == Publishing && Sane(p.m.journal.value))
  {
    var b := StageBoth(m, j, torn);
    assert b.m.journal == m.journal && b.m.unlinked == m.unlinked;
    if b.flow == Ok && Undrifted(b.m.files, j) && KeyStage in b.m.files && ConfigStage in b.m.files {
      assert b.m.files[KeyStage].data == j.candidate && b.m.files[ConfigStage].data == j.target;
      RecordedIsOwned(b.m, j);
    }
  }

  lemma RecordedIsOwned(m: Machine, j: Journal)
    requires Undrifted(m.files, j) && KeyStage in m.files && ConfigStage in m.files
    requires m.files[KeyStage].data == j.candidate && m.files[ConfigStage].data == j.target
    ensures var n := Begun(m.files, j);
      Sane(n) && SameWork(n, j) && Owned(m.(journal := Some(n)), n)
  {
  }

  /**
  Under any stops and whatever operators put at the canonical names at any moment, nothing is ever
  unlinked but files with the bytes of the two baselines, the target and the candidate.
  */
  lemma {:induction false} NothingForeignIsUnlinked(m: Machine, j: Journal, es: seq<Event>)
    requires OwnedOrDone(m, j)
    ensures var u := History(m, es); OwnedOrDone(u, j) && OnlyKnownUnlinked(m, u, j)
    decreases |es|
  {
    if es != [] {
      var n := Happen(m, es[0]);
      if m.journal.Some? {
        var i := m.journal.value;
        if es[0].Start? {
          ResumeUnlinksKnown(m.(budget := es[0].budget), i, es[0].hands, es[0].torn);
        } else {
          PutKeepsOwned(m, i, es[0].role, Some(es[0].x));
        }
      }
      NothingForeignIsUnlinked(n, j, es[1..]);
    }
  }
}
