/**
Publishing one identity key to two stores, the database and the config file, under faults. Every
database and file operation may raise before or after it took effect, or the machine may stop there.
*/
module RegistrationState {
  import opened Wrappers

  const NONCE_STORE_CAP: nat := 100000

  // ----- what the outside does to one operation -------------------------------------------

  /** The exception classes the handler tells apart. */
  datatype Kind = Integrity | Os | Other

  datatype Fault = Fine | Raises(landed: bool, kind: Kind) | Dies(landed: bool)

  predicate Lands(f: Fault) {
    f.Fine? || f.landed
  }

  /** One read of the config file: an operator may have edited it just before. */
  datatype Glimpse =
    | Sees(edit: Option<Config>)
    | Fails(edit: Option<Config>)
    | Stops(edit: Option<Config>)

  /** Everything the outside decides during one registration. */
  datatype Weather = Weather(
    now: real, entry: Glimpse, begin: Fault, reserve: Fault, drop: Fault, update: Fault, stage: Fault, check: Glimpse,
    commit: Fault, look: Glimpse, replace: Fault, sync: Fault, recheck: Glimpse,
    rollback: Fault, undo: Fault, undoCommit: Fault, memory: Fault)

  // ----- stores ---------------------------------------------------------------------------

  datatype Nonce = Nonce(peer: string, expires: real)

  datatype Tables = Tables(keys: map<string, Option<string>>, nonces: map<string, Nonce>)

  /** The bytes of the config: its key map, the peers it manages, and whether it is in canonical layout. */
  datatype Config = Config(keys: map<string, string>, managed: set<string>, pretty: bool)

  datatype Request = Request(peer: string, key: string, nonce: Option<string>, expires: real)

  /**
  `tx` is the open transaction's working copy, `disk` what a stop of the whole machine may leave in
  the file, `keys` and `baseline` the process's mirrors, and `wrote` whether the file is
  this request's write: the replace took effect and no operator replaced the file since.
  */
  datatype Machine = Machine(
    db: Tables, tx: Option<Tables>, file: Config, disk: set<Config>,
    keys: map<string, string>, baseline: Config, latch: bool, wrote: bool)

  datatype Reply =
    Registered | Replay | NonceFull | InUse | RestartRequired | StorageFailed | PersistFailed | FailStop | Crashed

  datatype Outcome = Outcome(machine: Machine, reply: Reply)

  predicate Refused(r: Reply) {
    !r.Registered? && !r.FailStop? && !r.Crashed?
  }

  predicate Taken(t: Tables, q: Request) {
    exists x :: x in t.keys && x != q.peer && t.keys[x] == Some(q.key)
  }

  function Candidate(c: Config, q: Request): Config {
    Config(c.keys[q.peer := q.key], c.managed, true)
  }

  function Reserved(t: Tables, q: Request): Tables {
    if q.nonce == None then t else t.(nonces := t.nonces[q.nonce.value := Nonce(q.peer, q.expires)])
  }

  /** The tables after a registration. */
  function Rekeyed(t: Tables, q: Request): Tables {
    Reserved(t, q).(keys := t.keys[q.peer := Some(q.key)])
  }

  function LiveNonces(t: Tables, now: real): set<string> {
    set n | n in t.nonces && now < t.nonces[n].expires
  }

  function Edited(m: Machine, g: Glimpse): Machine {
    if g.edit.Some? then m.(file := g.edit.value, disk := {g.edit.value}, wrote := false) else m
  }

  function Stopped(m: Machine): Outcome {
    Outcome(m.(tx := None), Crashed)
  }

  function Latched(m: Machine): Outcome {
    Outcome(m.(latch := true), FailStop)
  }

  // ----- undoing --------------------------------------------------------------------------

  /** Rolls an open transaction back and answers `reply`; a rollback that raises latches the process. */
  function Abort(m: Machine, reply: Reply, w: Weather): Outcome {
    if m.tx == None then Outcome(m, reply)
    else match w.rollback
      case Fine => Outcome(m.(tx := None), reply)
      case Raises(landed, _) => Latched(if landed then m.(tx := None) else m)
      case Dies(_) => Stopped(m)
  }

  function Forgotten(nonces: map<string, Nonce>, q: Request): map<string, Nonce> {
    if q.nonce.Some? && q.nonce.value in nonces && nonces[q.nonce.value].peer == q.peer
    then nonces - {q.nonce.value} else nonces
  }

  function Restored(t: Tables, q: Request, was: Option<string>): Tables {
    Tables(t.keys[q.peer := was], Forgotten(t.nonces, q))
  }

  function UndoCommitted(m: Machine, q: Request, was: Option<string>, reply: Reply, w: Weather): Outcome {
    var done := if Lands(w.undoCommit) then m.(db := Restored(m.db, q, was)) else m;
    match w.undoCommit
    case Fine => Outcome(done, reply)
    case Raises(_, _) => Latched(done)
    case Dies(_) => Stopped(done)
  }

  /** Restores the key and the nonce set from a fresh transaction; any trouble latches the process. */
  function Compensate(m: Machine, q: Request, was: Option<string>, reply: Reply, w: Weather): Outcome {
    var n := m.(tx := None);
    if q.peer !in n.db.keys || (n.db.keys[q.peer] != was && n.db.keys[q.peer] != Some(q.key)) then Latched(n)
    else match w.undo
      case Raises(_, _) => Latched(n)
      case Dies(_) => Stopped(n)
      case Fine => UndoCommitted(n, q, was, reply, w)
  }

  // ----- publishing the config ------------------------------------------------------------

  datatype Ending = InPlace | Drifted | NotInPlace | Uncertain | Unclear | Gone

  datatype Publication = Publication(machine: Machine, end: Ending)

  /** An OSError came up: judge by the visible bytes whether the candidate is in place. */
  function Judge(m: Machine, candidate: Config, w: Weather): Publication {
    var n := Edited(m, w.recheck);
    match w.recheck
    case Sees(_) => Publication(n, if n.file == candidate then Uncertain else NotInPlace)
    case Fails(_) => Publication(n, NotInPlace)
    case Stops(_) => Publication(n, Gone)
  }

  function Replaced(m: Machine, candidate: Config): Machine {
    m.(file := candidate, disk := m.disk + {candidate}, wrote := true)
  }

  function Replace(m: Machine, candidate: Config, w: Weather): Publication {
    var n := if Lands(w.replace) then Replaced(m, candidate) else m;
    match w.replace
    case Raises(_, kind) => if kind == Os then Judge(n, candidate, w) else Publication(n, Unclear)
    case Dies(_) => Publication(n, Gone)
    case Fine =>
      var s := if Lands(w.sync) then n.(disk := {candidate}) else n;
      match w.sync
      case Fine => Publication(s, InPlace)
      case Raises(_, kind) => Publication(s, if kind == Os then Uncertain else Unclear)
      case Dies(_) => Publication(s, Gone)
  }

  function Publish(m: Machine, expected: Config, candidate: Config, w: Weather): Publication {
    var n := Edited(m, w.look);
    match w.look
    case Fails(_) => Judge(n, candidate, w)
    case Stops(_) => Publication(n, Gone)
    case Sees(_) => if n.file != expected then Publication(n, Drifted) else Replace(n, candidate, w)
  }

  function Mirrored(m: Machine, candidate: Config): Machine {
    m.(keys := candidate.keys, baseline := candidate)
  }

  /** The config part, after the database committed. */
  function Announce(m: Machine, q: Request, was: Option<string>, current: Config, w: Weather): Outcome {
    var candidate := Candidate(current, q);
    var p := Publish(m, current, candidate, w);
    match p.end
    case Gone => Stopped(p.machine)
    case Drifted => Compensate(p.machine, q, was, RestartRequired, w)
    case NotInPlace => Compensate(p.machine, q, was, PersistFailed, w)
    case Unclear => Latched(p.machine)
    case Uncertain => Latched(if Lands(w.memory) then Mirrored(p.machine, candidate) else p.machine)
    case InPlace =>
      var n := if Lands(w.memory) then Mirrored(p.machine, candidate) else p.machine;
      match w.memory
      case Fine => Outcome(n, Registered)
      case Raises(_, _) => Latched(n)
      case Dies(_) => Stopped(n)
  }

  // ----- the database transaction ---------------------------------------------------------

  function Excuse(kind: Kind): Reply {
    if kind == Integrity then InUse else StorageFailed
  }

  /** A statement of the open transaction raised or the machine stopped there. */
  function Broken(m: Machine, f: Fault, w: Weather): Outcome
    requires !f.Fine?
  {
    if f.Dies? then Stopped(m) else Abort(m, Excuse(f.kind), w)
  }

  /** Commit, with the outcomes of a commit that raised. */
  function Commit(m: Machine, q: Request, was: Option<string>, w: Weather): Outcome
    requires m.tx.Some?
  {
    var n := if Lands(w.commit) then m.(db := m.tx.value, tx := None) else m;
    match w.commit
    case Fine => Outcome(n, Registered)
    case Dies(_) => Stopped(n)
    case Raises(landed, kind) =>
      if !landed then Abort(n, Excuse(kind), w)
      else if kind == Integrity then Outcome(n, InUse)
      else Compensate(n, q, was, StorageFailed, w)
  }

  /** Stage the candidate file and look once more before the commit. */
  function Stage(m: Machine, q: Request, was: Option<string>, managed: bool, current: Config, w: Weather): Outcome
    requires m.tx.Some?
  {
    if !managed then Commit(m, q, was, w)
    else if !w.stage.Fine? then Broken(m, w.stage, w)
    else
      var n := Edited(m, w.check);
      match w.check
      case Stops(_) => Stopped(n)
      case Fails(_) => Abort(n, StorageFailed, w)
      case Sees(_) => if n.file != current then Abort(n, RestartRequired, w) else Commit(n, q, was, w)
  }

  function Update(m: Machine, q: Request, was: Option<string>, managed: bool, current: Config, w: Weather): Outcome
    requires m.tx.Some?
  {
    if !w.update.Fine? then Broken(m, w.update, w)
    else if Taken(m.tx.value, q) then Abort(m, InUse, w)
    else if q.peer !in m.tx.value.keys then Abort(m, StorageFailed, w)
    else Stage(m.(tx := Some(m.tx.value.(keys := m.tx.value.keys[q.peer := Some(q.key)]))), q, was, managed, current, w)
  }

  /** A refused nonce is rolled back on the spot. */
  function Drop(m: Machine, reply: Reply, w: Weather): Outcome {
    match w.drop
    case Fine => Outcome(m.(tx := None), reply)
    case Dies(_) => Stopped(m)
    case Raises(landed, kind) => Abort(if landed then m.(tx := None) else m, Excuse(kind), w)
  }

  function Transact(m: Machine, q: Request, was: Option<string>, managed: bool, current: Config, w: Weather): Outcome {
    var n := if Lands(w.begin) then m.(tx := Some(m.db)) else m;
    if !w.begin.Fine? then Broken(n, w.begin, w)
    else if q.nonce == None then Update(n, q, was, managed, current, w)
    else if !w.reserve.Fine? then Broken(n, w.reserve, w)
    else if q.nonce.value in m.db.nonces then Drop(n, Replay, w)
    else if |LiveNonces(m.db, w.now)| >= NONCE_STORE_CAP then Drop(n, NonceFull, w)
    else Update(n.(tx := Some(Reserved(m.db, q))), q, was, managed, current, w)
  }

  function Locked(m: Machine, q: Request, managed: bool, current: Config, w: Weather): Outcome {
    var was := if q.peer in m.db.keys then m.db.keys[q.peer] else None;
    var o := Transact(m, q, was, managed, current, w);
    if o.reply == Registered && managed then Announce(o.machine, q, was, current, w) else o
  }

  /** One register-key request, for a peer that the config manages or not. */
  function Register(m: Machine, q: Request, managed: bool, w: Weather): Outcome {
    if !managed then Locked(m, q, false, m.baseline, w)
    else
      var n := Edited(m, w.entry);
      match w.entry
      case Stops(_) => Stopped(n)
      case Fails(_) => Outcome(n, StorageFailed)
      case Sees(_) =>
        if n.file != n.baseline || q.peer !in n.file.managed then Outcome(n, RestartRequired)
        else Locked(n, q, true, n.file, w)
  }

  // ----- restart --------------------------------------------------------------------------

  function ConfigKey(c: Config, x: string): Option<string> {
    if x in c.keys then Some(c.keys[x]) else None
  }

  predicate Unique(t: Tables) {
    forall x, y :: x in t.keys && y in t.keys && t.keys[x].Some? && t.keys[x] == t.keys[y] ==> x == y
  }

  /** The database agrees with the config on every peer the config manages. */
  predicate Agrees(t: Tables, c: Config) {
    forall x :: x in c.managed ==> x in t.keys && t.keys[x] == ConfigKey(c, x)
  }

  /** Start-up writes the config's key, or none, into the row of every managed peer. */
  function Rebuilt(t: Tables, c: Config): Tables {
    t.(keys := map x | x in t.keys :: if x in c.managed then ConfigKey(c, x) else t.keys[x])
  }

  /** No update of the rebuild meets another row that still holds the key, in whatever order it goes. */
  predicate Recoverable(t: Tables, c: Config) {
    && (forall x :: x in c.managed ==> x in t.keys)
    && (forall x, y :: x in c.managed && x in c.keys && y in t.keys && y != x ==> t.keys[y] != Some(c.keys[x]))
    && (forall x, y :: x in c.managed && x in c.keys && y in c.managed && y in c.keys && c.keys[x] == c.keys[y] ==> x == y)
  }
}
