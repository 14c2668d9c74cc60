/**
What each operation of the client does to its files and its journal, as functions. An operator may
replace a canonical file below every check: `hand` is the file that a system call meets there.
*/
module PublicationSteps {
  import opened Wrappers
  import opened PublicationState

  datatype Flow = Ok | Raised | Died

  /** What a transition did: nothing, an exchange of two names, or a move to a free name. */
  datatype Move = Unmoved | Exchanged | Placed

  datatype Outcome = Outcome(m: Machine, flow: Flow)

  datatype Transit = Transit(m: Machine, flow: Flow, move: Move)

  // ----- system calls ---------------------------------------------------------------------

  /** An operator puts a file at the canonical name of a role. */
  function Put(m: Machine, role: Role, hand: Option<Inode>): Machine {
    if hand.Some? then m.(files := m.files[Dest(role) := hand.value]) else m
  }

  function Spent(m: Machine): Machine
    requires m.budget > 0
  {
    m.(budget := m.budget - 1)
  }

  /** Atomically exchanges the stage name and the canonical name. */
  function Exchange(m: Machine, role: Role, hand: Option<Inode>): Outcome {
    var n := Put(m, role, hand);
    if n.budget == 0 then Outcome(n, Died)
    else if Stage(role) !in n.files || Dest(role) !in n.files then Outcome(Spent(n), Raised)
    else
      Outcome(Spent(n).(files := n.files[Stage(role) := n.files[Dest(role)]][Dest(role) := n.files[Stage(role)]]), Ok)
  }

  /** Moves a file to a name that must be free. */
  function MoveNoReplace(m: Machine, x: Name, y: Name): Outcome {
    if m.budget == 0 then Outcome(m, Died)
    else if x !in m.files || y in m.files then Outcome(Spent(m), Raised)
    else Outcome(Spent(m).(files := (m.files - {x})[y := m.files[x]]), Ok)
  }

  function Unlink(m: Machine, x: Name): Outcome {
    if x !in m.files then Outcome(m, Ok)
    else if m.budget == 0 then Outcome(m, Died)
    else Outcome(Spent(m).(files := m.files - {x}, unlinked := m.unlinked + {m.files[x]}), Ok)
  }

  /** The journal is replaced atomically and durably. */
  function WriteJournal(m: Machine, j: Option<Journal>): Outcome {
    if m.budget == 0 then Outcome(m, Died) else Outcome(Spent(m).(journal := j), Ok)
  }

  // ----- one role -------------------------------------------------------------------------

  /** A call that was made only to undo something: even its success is reported. */
  function Raising(o: Outcome): Outcome {
    if o.flow == Ok then o.(flow := Raised) else o
  }

  /** Puts back a file that an earlier, interrupted exchange displaced. */
  function PutBack(m: Machine, role: Role, hand: Option<Inode>): Outcome {
    if Stage(role) !in m.files then Outcome(m, Raised) else Raising(Exchange(m, role, hand))
  }

  /** Swaps baseline and candidate; a file the kernel should not have met is swapped straight back. */
  function SwapIn(m: Machine, j: Journal, role: Role, hand: Option<Inode>, back: Option<Inode>): Outcome
    requires Sane(j)
  {
    var o := Exchange(m, role, hand);
    if o.flow == Ok && !(At(o.m.files, Dest(role)) == Some(Staged(j, role)) && At(o.m.files, Stage(role)) == Expected(j, role))
    then Raising(Exchange(o.m, role, back)) else o
  }

  /** Moves the candidate to the free canonical name; a name that was taken meanwhile refuses. */
  function MoveIn(m: Machine, role: Role, hand: Option<Inode>): Outcome {
    MoveNoReplace(Put(m, role, hand), Stage(role), Dest(role))
  }

  /** `hand` is met by the publishing call, `back` by the call that undoes a displacement. */
  function Transition(m: Machine, j: Journal, role: Role, hand: Option<Inode>, back: Option<Inode>): Transit
    requires Sane(j)
  {
    var current, stage := At(m.files, Dest(role)), At(m.files, Stage(role));
    if Already(j.publication.value, role) then
      Transit(m, if current == Expected(j, role) then Ok else Raised, Unmoved)
    else if current == Some(Staged(j, role)) then
      if stage == Expected(j, role) then Transit(m, Ok, Unmoved)
      else if Expected(j, role) == None then Transit(m, Raised, Unmoved)
      else var o := PutBack(m, role, back); Transit(o.m, o.flow, Unmoved)
    else if stage != Some(Staged(j, role)) || current != Expected(j, role) then Transit(m, Raised, Unmoved)
    else if Expected(j, role) == None then
      var o := MoveIn(m, role, hand); Transit(o.m, o.flow, Placed)
    else
      var o := SwapIn(m, j, role, hand, back); Transit(o.m, o.flow, Exchanged)
  }

  /** Undoes a transition of this run; `hand` is met by the undoing call itself. */
  function Rollback(m: Machine, j: Journal, role: Role, move: Move, hand: Option<Inode>): Outcome
    requires Sane(j)
  {
    if move == Unmoved then Outcome(m, Ok)
    else if At(m.files, Dest(role)) != Some(Staged(j, role)) then Outcome(m, Raised)
    else if move == Placed then
      var o := MoveNoReplace(Put(m, role, hand), Dest(role), Stage(role));
      if At(o.m.files, Dest(role)) != None || At(o.m.files, Stage(role)) != Some(Staged(j, role)) then Raising(o) else o
    else if At(m.files, Stage(role)) != Expected(j, role) then Outcome(m, Raised)
    else
      var o := Exchange(m, role, hand);
      if At(o.m.files, Dest(role)) != Expected(j, role) || At(o.m.files, Stage(role)) != Some(Staged(j, role))
      then Raising(o) else o
  }

  // ----- preparing ------------------------------------------------------------------------

  /**
  Creates a stage file, or reuses one that already holds exactly the bytes. A client that stops between
  the creation and the last write leaves `torn`.
  */
  function StageFile(m: Machine, name: Name, data: string, torn: string): Outcome {
    if name in m.files then Outcome(m, if m.files[name].data == data then Ok else Raised)
    else if m.budget == 0 then Outcome(m, Died)
    else
      var n := Spent(m).(next := m.next + 1);
      if n.budget == 0 then Outcome(n.(files := m.files[name := Inode(m.next, torn)]), Died)
      else Outcome(Spent(n).(files := m.files[name := Inode(m.next, data)]), Ok)
  }

  function StageBoth(m: Machine, j: Journal, torn: string): Outcome {
    var o := StageFile(m, KeyStage, j.candidate, torn);
    if o.flow == Ok then StageFile(o.m, ConfigStage, j.target, torn) else o
  }

  /** The journal of a publication of the files as they are. */
  function Begun(files: map<Name, Inode>, j: Journal): Journal
    requires ConfigFile in files && ConfigStage in files && KeyStage in files
  {
    j.(phase := Publishing, publication := Some(Recorded(files, j)))
  }

  /** Stages both candidates, attests both baselines and records their tokens. */
  function Prepare(m: Machine, j: Journal, torn: string): Outcome {
    var o := StageBoth(m, j, torn);
    if o.flow != Ok then o
    else if !Undrifted(o.m.files, j) || KeyStage !in o.m.files || ConfigStage !in o.m.files then Outcome(o.m, Raised)
    else WriteJournal(o.m, Some(Begun(o.m.files, j)))
  }

  /** The tokens after the exact bytes of a baseline were found under a new inode. */
  function Adopted(files: map<Name, Inode>, j: Journal): Publication
    requires Sane(j)
  {
    var p := j.publication.value;
    var config := !p.targeted && At(files, ConfigStage) == Some(Staged(j, Config))
                  && ConfigFile in files && files[ConfigFile].data == j.base;
    var key := p.keyState == Prior && At(files, KeyStage) == Some(Staged(j, Key))
               && KeyFile in files && files[KeyFile].data == j.prior.value;
    p.(configExpected := if config then files[ConfigFile].id else p.configExpected,
       keyExpected := if key then Some(files[KeyFile].id) else p.keyExpected)
  }

  function Adopt(m: Machine, j: Journal): Outcome
    requires Sane(j)
  {
    var p := Adopted(m.files, j);
    if p == j.publication.value then Outcome(m, Ok) else WriteJournal(m, Some(j.(publication := Some(p))))
  }

  // ----- publishing -----------------------------------------------------------------------

  /** What an operator puts at the canonical names, and when. */
  datatype Hands = Hands(
    config: Option<Inode>, configBack: Option<Inode>,  // met by the config exchange, and by its undoing
    recheck: Option<Inode>,                            // a config put there before it is attested again
    key: Option<Inode>, keyBack: Option<Inode>,
    drift: Option<Inode>,                              // a config put there after the key transition
    rollback: Option<Inode>,                           // a key met by the rollback
    lateConfig: Option<Inode>, lateKey: Option<Inode>) // put there before the final comparison

  const CALM := Hands(None, None, None, None, None, None, None, None, None)

  /** Drops both stages, then the journal. */
  function Settle(m: Machine): Outcome {
    var k := Unlink(m, KeyStage);
    if k.flow != Ok then k
    else
      var c := Unlink(k.m, ConfigStage);
      if c.flow != Ok then c else WriteJournal(c.m, None)
  }

  /** Records `published` durably once both names hold the accepted bytes, and cleans up. */
  function Conclude(m: Machine, j: Journal): Outcome {
    if !InPlace(m.files, j) then Outcome(m, Raised)
    else
      var o := WriteJournal(m, Some(j.(phase := Published)));
      if o.flow == Ok then Settle(o.m) else o
  }

  /** The key transition between two attestations of the config; a drift found after it is undone. */
  function PublishKey(m: Machine, j: Journal, h: Hands): Outcome
    requires Sane(j)
  {
    var t := Transition(m, j, Key, h.key, h.keyBack);
    if t.flow != Ok then Outcome(t.m, t.flow)
    else
      var c := Transition(Put(t.m, Config, h.drift), j, Config, None, None);
      if c.flow == Raised then Raising(Rollback(c.m, j, Key, t.move, h.rollback))
      else if c.flow == Died then Outcome(c.m, Died)
      else var k := Transition(c.m, j, Key, None, None); Outcome(k.m, k.flow)
  }

  /** Config, config again, key, and then the durable `published`. */
  function Publish(m: Machine, j: Journal, h: Hands): Outcome
    requires Sane(j)
  {
    var c := Transition(m, j, Config, h.config, h.configBack);
    if c.flow != Ok then Outcome(c.m, c.flow)
    else
      var d := Transition(Put(c.m, Config, h.recheck), j, Config, None, None);
      if d.flow != Ok then Outcome(d.m, d.flow)
      else
        var k := PublishKey(d.m, j, h);
        if k.flow != Ok then k else Conclude(Put(Put(k.m, Config, h.lateConfig), Key, h.lateKey), j)
  }

  /** Publishes under the journal as it was just written. */
  function PublishRecorded(o: Outcome, h: Hands): Outcome {
    if o.flow == Ok && o.m.journal.Some? && Sane(o.m.journal.value) then Publish(o.m, o.m.journal.value, h) else o
  }

  /** One run of the client for a key that the relay has accepted. */
  function Resume(m: Machine, h: Hands, torn: string): Outcome {
    if m.journal == None then Outcome(m, Ok)
    else
      var j := m.journal.value;
      if j.phase == Accepted then PublishRecorded(Prepare(m, j, torn), h)
      else if !Sane(j) then Outcome(m, Raised)
      else if j.phase == Publishing then PublishRecorded(Adopt(m, j), h)
      else if !InPlace(m.files, j) then Outcome(m, Raised)
      else Settle(m)
  }

  // ----- histories ------------------------------------------------------------------------

  /** The client is started, with the calls it lives for; or an operator replaces a canonical file. */
  datatype Event =
    | Start(budget: nat, hands: Hands, torn: string)
    | Replace(role: Role, x: Inode)

  function Happen(m: Machine, e: Event): Machine {
    match e
    case Start(budget, hands, torn) => Resume(m.(budget := budget), hands, torn).m
    case Replace(role, x) => Put(m, role, Some(x))
  }

  function History(m: Machine, es: seq<Event>): Machine
    decreases |es|
  {
    if es == [] then m else History(Happen(m, es[0]), es[1..])
  }

  /** Nobody but the client writes. */
  predicate Calm(es: seq<Event>) {
    forall i :: 0 <= i < |es| ==> es[i].Start? && es[i].hands == CALM
  }
}
