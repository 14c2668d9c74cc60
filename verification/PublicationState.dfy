/**
The client's private files and its pending journal while an accepted key is published by atomic
renames: which inode sits at which name, and which arrangements a stopped client may leave.
*/
module PublicationState {
  import opened Wrappers

  datatype Name = ConfigFile | KeyFile | ConfigStage | KeyStage

  /** A single-link file: its identity and its bytes. */
  datatype Inode = Inode(id: nat, data: string)

  datatype Role = Config | Key

  datatype KeyState = Absent | Prior | Candidate

  /** The tokens recorded when publication began; `targeted` says the config was the target already. */
  datatype Publication = Publication(
    configStage: nat, configExpected: nat, targeted: bool,
    keyStage: nat, keyExpected: Option<nat>, keyState: KeyState)

  datatype Phase = Accepted | Publishing | Published

  datatype Journal = Journal(
    phase: Phase, base: string, target: string, prior: Option<string>, candidate: string,
    publication: Option<Publication>)

  /**
  The client at work. It may stop before any system call: every call spends one unit of `budget`, and a
  client without budget is gone. `next` is the id of the next file it creates, `unlinked` what it removed.
  */
  datatype Machine = Machine(
    files: map<Name, Inode>, journal: Option<Journal>, budget: nat, next: nat, unlinked: set<Inode>)

  function Dest(role: Role): Name {
    if role == Config then ConfigFile else KeyFile
  }

  function Stage(role: Role): Name {
    if role == Config then ConfigStage else KeyStage
  }

  function At(files: map<Name, Inode>, name: Name): Option<Inode> {
    if name in files then Some(files[name]) else None
  }

  /** The publication is recorded, with a token for every file that its states speak of. */
  predicate Sane(j: Journal) {
    && j.publication.Some?
    && var p := j.publication.value;
       && (p.keyState == Absent <==> p.keyExpected == None)
       && (p.keyState == Prior ==> j.prior.Some?)
  }

  /** The tokens are those of different files. */
  predicate Distinct(p: Publication) {
    && p.configStage != p.configExpected && p.configStage != p.keyStage && p.configExpected != p.keyStage
    && (p.keyExpected.Some? ==>
          p.keyExpected.value != p.configStage && p.keyExpected.value != p.configExpected && p.keyExpected.value != p.keyStage)
  }

  predicate Already(p: Publication, role: Role) {
    if role == Config then p.targeted else p.keyState == Candidate
  }

  /** The staged file with the bytes to be published. */
  function Staged(j: Journal, role: Role): Inode
    requires Sane(j)
  {
    var p := j.publication.value;
    if role == Config then Inode(p.configStage, j.target) else Inode(p.keyStage, j.candidate)
  }

  /** The file recorded at the canonical name before publication, if there was one. */
  function Expected(j: Journal, role: Role): Option<Inode>
    requires Sane(j)
  {
    var p := j.publication.value;
    if role == Config then Some(Inode(p.configExpected, if p.targeted then j.target else j.base))
    else match p.keyState
      case Absent => None
      case Prior => Some(Inode(p.keyExpected.value, j.prior.value))
      case Candidate => Some(Inode(p.keyExpected.value, j.candidate))
  }

  /** The file that must be canonical once the role is published. */
  function Canonical(j: Journal, role: Role): Option<Inode>
    requires Sane(j)
  {
    if Already(j.publication.value, role) then Expected(j, role) else Some(Staged(j, role))
  }

  /** Nothing of this role has been published: the baseline is canonical, the candidate is staged. */
  predicate Before(files: map<Name, Inode>, j: Journal, role: Role)
    requires Sane(j)
  {
    At(files, Dest(role)) == Expected(j, role) && At(files, Stage(role)) == Some(Staged(j, role))
  }

  /** This role is published: the candidate is canonical and the baseline is kept at the stage name. */
  predicate After(files: map<Name, Inode>, j: Journal, role: Role)
    requires Sane(j)
  {
    if Already(j.publication.value, role) then Before(files, j, role)
    else At(files, Dest(role)) == Some(Staged(j, role)) && At(files, Stage(role)) == Expected(j, role)
  }

  /** What a transition attests: for a role that was in place already, only the canonical name. */
  predicate Attested(files: map<Name, Inode>, j: Journal, role: Role)
    requires Sane(j)
  {
    if Already(j.publication.value, role) then At(files, Dest(role)) == Expected(j, role) else After(files, j, role)
  }

  /** The config leads: the key is published only under a published config. */
  predicate InProgress(m: Machine) {
    && m.journal.Some? && m.journal.value.phase == Publishing && Sane(m.journal.value)
    && Distinct(m.journal.value.publication.value)
    && var j := m.journal.value;
       || (Before(m.files, j, Config) && Before(m.files, j, Key))
       || (After(m.files, j, Config) && Before(m.files, j, Key))
       || (After(m.files, j, Config) && After(m.files, j, Key))
  }

  predicate InPlace(files: map<Name, Inode>, j: Journal) {
    && ConfigFile in files && files[ConfigFile].data == j.target
    && KeyFile in files && files[KeyFile].data == j.candidate
  }

  /** The tokens a finished publication may leave at a stage name. */
  predicate Residue(files: map<Name, Inode>, j: Journal, role: Role)
    requires Sane(j)
  {
    At(files, Stage(role)) == None || At(files, Stage(role)) == Expected(j, role)
    || (Already(j.publication.value, role) && At(files, Stage(role)) == Some(Staged(j, role)))
  }

  /** `published` is durable; some stages may already be gone. */
  predicate Settling(m: Machine) {
    && m.journal.Some? && m.journal.value.phase == Published && Sane(m.journal.value)
    && InPlace(m.files, m.journal.value)
    && Residue(m.files, m.journal.value, Config) && Residue(m.files, m.journal.value, Key)
  }

  /** Both files are the accepted ones, and nothing else is left. */
  predicate Finished(m: Machine, j: Journal) {
    m.journal == None && InPlace(m.files, j) && ConfigStage !in m.files && KeyStage !in m.files
  }

  /** The files of this publication: its two stages and its baselines. */
  function OwnFiles(j: Journal): set<Inode>
    requires Sane(j)
  {
    {Staged(j, Config), Staged(j, Key), Expected(j, Config).value}
    + (if Expected(j, Key).Some? then {Expected(j, Key).value} else {})
  }

  /** Everything but the phase and the recorded tokens. */
  predicate SameWork(i: Journal, j: Journal) {
    i.(phase := j.phase, publication := j.publication) == j
  }

  /** A candidate key that publication put in place is canonical only under the target config. */
  lemma KeyOnlyUnderTarget(m: Machine)
    requires InProgress(m) || Settling(m)
    requires var j := m.journal.value; At(m.files, KeyFile) == Some(Staged(j, Key))
    ensures ConfigFile in m.files && m.files[ConfigFile].data == m.journal.value.target
  {
  }

  /** Until `published` is durable both baselines survive, at the canonical or at the stage name. */
  lemma BaselinesSurvive(m: Machine, role: Role)
    requires InProgress(m) && Expected(m.journal.value, role).Some?
    ensures var j := m.journal.value;
      At(m.files, Dest(role)) == Expected(j, role) || At(m.files, Stage(role)) == Expected(j, role)
  {
  }

  // ----- preparing ------------------------------------------------------------------------

  /** A stage name is free or holds exactly the bytes to be staged. */
  predicate Stageable(files: map<Name, Inode>, name: Name, data: string) {
    name !in files || files[name].data == data
  }

  /** The canonical files are as the journal remembers them, or already as it wants them. */
  predicate Undrifted(files: map<Name, Inode>, j: Journal) {
    && ConfigFile in files && (files[ConfigFile].data == j.base || files[ConfigFile].data == j.target)
    && (if KeyFile in files then files[KeyFile].data == j.candidate || Some(files[KeyFile].data) == j.prior
        else j.prior == None)
  }

  /** Every file has one name. */
  predicate SingleLinks(files: map<Name, Inode>) {
    forall x, y :: x in files && y in files && files[x].id == files[y].id ==> x == y
  }

  /** The tokens of the files as they are. */
  function Recorded(files: map<Name, Inode>, j: Journal): Publication
    requires ConfigFile in files && ConfigStage in files && KeyStage in files
  {
    Publication(
      files[ConfigStage].id, files[ConfigFile].id, files[ConfigFile].data != j.base,
      files[KeyStage].id, if KeyFile in files then Some(files[KeyFile].id) else None,
      if KeyFile !in files then Absent else if files[KeyFile].data == j.candidate then Candidate else Prior)
  }
}
