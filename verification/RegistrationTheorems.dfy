/** The two-store publication is all-or-nothing, and a restart repairs whatever a stop left behind. */
module RegistrationTheorems {
  import opened Wrappers
  import opened RegistrationState

  /** A process between requests. */
  predicate Idle(m: Machine) {
    m.tx == None && !m.latch && !m.wrote && Unique(m.db) && m.keys == m.baseline.keys
  }

  /** Both stores agree and nobody touched the file since the process read it. */
  predicate Settled(m: Machine) {
    Idle(m) && m.baseline == m.file && m.disk == {m.file} && Agrees(m.db, m.file)
  }

  predicate Untouched(w: Weather) {
    w.entry.edit == None && w.check.edit == None && w.look.edit == None && w.recheck.edit == None
  }

  // ----- the guard of the two branches that misjudge --------------------------------------

  /** The config the request works from. */
  function Current(m: Machine, managed: bool, w: Weather): Config {
    if managed then Edited(m, w.entry).file else m.baseline
  }

  /** The request gets as far as the commit. */
  predicate ReachesCommit(m: Machine, q: Request, managed: bool, w: Weather) {
    && (managed ==> w.entry.Sees? && Edited(m, w.entry).file == m.baseline && q.peer in m.baseline.managed)
    && w.begin.Fine?
    && (q.nonce.Some? ==>
          w.reserve.Fine? && q.nonce.value !in m.db.nonces && |LiveNonces(m.db, w.now)| < NONCE_STORE_CAP)
    && w.update.Fine? && !Taken(m.db, q) && q.peer in m.db.keys
    && (managed ==> w.stage.Fine? && w.check.Sees? && (w.check.edit.Some? ==> w.check.edit.value == m.baseline))
  }

  /** The commit of a real change landed and then claimed a constraint violation. */
  predicate FalseViolation(m: Machine, q: Request, managed: bool, w: Weather) {
    ReachesCommit(m, q, managed, w) && w.commit == Raises(true, Integrity) && Rekeyed(m.db, q) != m.db
  }

  /** The replace landed and raised, and the look that should have noticed raised as well. */
  predicate Blind(m: Machine, q: Request, managed: bool, w: Weather) {
    && managed && ReachesCommit(m, q, managed, w) && w.commit.Fine?
    && w.look.Sees? && (w.look.edit.Some? ==> w.look.edit.value == m.baseline)
    && w.replace == Raises(true, Os) && w.recheck.Fails? && w.recheck.edit == None
  }

  // ----- the transaction ------------------------------------------------------------------

  lemma AbortIs(m: Machine, reply: Reply, w: Weather)
    requires !reply.FailStop?
    ensures var o := Abort(m, reply, w); var n := o.machine;
      && n.(tx := m.tx, latch := m.latch) == m
      && (o.reply == FailStop ==> n.latch)
      && (o.reply != FailStop ==> n.latch == m.latch && n.tx == None && (o.reply == reply || o.reply == Crashed))
  {
  }

  lemma CommitIs(m: Machine, q: Request, was: Option<string>, w: Weather)
    requires m.tx.Some? && !m.latch
    ensures var o := Commit(m, q, was, w); var n := o.machine;
      && n.(db := m.db, tx := m.tx, latch := m.latch) == m
      && (o.reply == FailStop <==> n.latch)
      && (o.reply == Registered <==> w.commit.Fine?)
      && (o.reply == Registered ==> n.db == m.tx.value && n.tx == None)
      && (o.reply != FailStop ==> n.tx == None)
      && (Refused(o.reply) ==>
            n.db == if w.commit == Raises(true, Integrity) then m.tx.value
                    else if Lands(w.commit) then Restored(m.tx.value, q, was) else m.db)
      && (n.db == m.db || n.db == m.tx.value || n.db == Restored(m.tx.value, q, was))
  {
  }

  /** Undoing a rekeying gives back exactly the key and the nonce set of before. */
  lemma RestoringUndoesRekeying(t: Tables, q: Request)
    requires q.peer in t.keys && (q.nonce.Some? ==> q.nonce.value !in t.nonces)
    ensures Restored(Rekeyed(t, q), q, t.keys[q.peer]) == t
  {
    assert t.keys[q.peer := Some(q.key)][q.peer := t.keys[q.peer]] == t.keys;
    if q.nonce.Some? {
      assert t.nonces[q.nonce.value := Nonce(q.peer, q.expires)] - {q.nonce.value} == t.nonces;
    }
  }

  lemma StageIs(m: Machine, q: Request, was: Option<string>, managed: bool, current: Config, w: Weather)
    requires m.tx.Some? && !m.latch
    ensures var o := Stage(m, q, was, managed, current, w); var n := o.machine;
      var through := managed ==> w.stage.Fine? && w.check.Sees? && Edited(m, w.check).file == current;
      && n.keys == m.keys && n.baseline == m.baseline && (n.wrote ==> m.wrote)
      && (n.file == m.file || (managed && w.check.edit == Some(n.file)))
      && (n.disk == m.disk || (managed && w.check.edit == Some(n.file) && n.disk == {n.file}))
      && (o.reply == FailStop <==> n.latch)
      && (o.reply != FailStop ==> n.tx == None)
      && (o.reply == Registered <==> through && w.commit.Fine?)
      && (o.reply == Registered ==> n.db == m.tx.value && (managed ==> n == Edited(m, w.check).(db := m.tx.value, tx := None)))
      && (!through ==> n.db == m.db)
      && (through && Refused(o.reply) ==>
            n.db == if w.commit == Raises(true, Integrity) then m.tx.value
                    else if Lands(w.commit) then Restored(m.tx.value, q, was) else m.db)
      && (n.db == m.db || n.db == m.tx.value || n.db == Restored(m.tx.value, q, was))
  {
    if !managed {
      CommitIs(m, q, was, w);
    } else if !w.stage.Fine? {
      if w.stage.Raises? {
        AbortIs(m, Excuse(w.stage.kind), w);
      }
    } else {
      var n := Edited(m, w.check);
      CommitIs(n, q, was, w);
      AbortIs(n, StorageFailed, w);
      AbortIs(n, RestartRequired, w);
    }
  }

  /** What the database transaction leaves behind, whatever went wrong in it. */
  lemma TransactIs(m: Machine, q: Request, managed: bool, w: Weather)
    requires Idle(m) && q.peer in m.db.keys
    requires managed ==> w.entry.Sees? && Edited(m, w.entry) == m && m.file == m.baseline && q.peer in m.baseline.managed
    ensures var o := Transact(m, q, m.db.keys[q.peer], managed, Current(m, managed, w), w); var n := o.machine;
      && n.keys == m.keys && n.baseline == m.baseline && !n.wrote
      && (n.file == m.file || (managed && w.check.edit == Some(n.file)))
      && (n.disk == m.disk || (managed && w.check.edit == Some(n.file) && n.disk == {n.file}))
      && (o.reply == FailStop <==> n.latch)
      && (o.reply != FailStop ==> n.tx == None)
      && (o.reply == Registered <==> ReachesCommit(m, q, managed, w) && w.commit.Fine?)
      && (o.reply == Registered ==> n.db == Rekeyed(m.db, q) && (managed ==> n.file == m.baseline))
      && (Refused(o.reply) ==> n.db == if FalseViolation(m, q, managed, w) then Rekeyed(m.db, q) else m.db)
      && (n.db == m.db || n.db == Rekeyed(m.db, q))
  {
    var was, current := m.db.keys[q.peer], Current(m, managed, w);
    var begun := if Lands(w.begin) then m.(tx := Some(m.db)) else m;
    if !w.begin.Fine? {
      if w.begin.Raises? {
        AbortIs(begun, Excuse(w.begin.kind), w);
      }
    } else if q.nonce.Some? && (!w.reserve.Fine? || q.nonce.value in m.db.nonces || |LiveNonces(m.db, w.now)| >= NONCE_STORE_CAP) {
      NonceRefused(m, q, was, managed, current, w);
    } else {
      var r := begun.(tx := Some(Reserved(m.db, q)));
      assert Transact(m, q, was, managed, current, w) == Update(r, q, was, managed, current, w);
      UpdateIs(m, r, q, managed, current, w);
    }
  }

  lemma NonceRefused(m: Machine, q: Request, was: Option<string>, managed: bool, current: Config, w: Weather)
    requires Idle(m) && w.begin.Fine? && q.nonce.Some?
    requires !w.reserve.Fine? || q.nonce.value in m.db.nonces || |LiveNonces(m.db, w.now)| >= NONCE_STORE_CAP
    ensures var o := Transact(m, q, was, managed, current, w); var n := o.machine;
      && n.(tx := None, latch := false) == m
      && (o.reply == FailStop <==> n.latch) && (o.reply != FailStop ==> n.tx == None) && o.reply != Registered
  {
    var begun := m.(tx := Some(m.db));
    if !w.reserve.Fine? {
      if w.reserve.Raises? {
        AbortIs(begun, Excuse(w.reserve.kind), w);
      }
    } else if w.drop.Raises? {
      AbortIs(if w.drop.landed then begun.(tx := None) else begun, Excuse(w.drop.kind), w);
    }
  }

  lemma UpdateIs(m: Machine, r: Machine, q: Request, managed: bool, current: Config, w: Weather)
    requires Idle(m) && r == m.(tx := Some(Reserved(m.db, q))) && q.peer in m.db.keys
    requires q.nonce.Some? ==> q.nonce.value !in m.db.nonces
    ensures var o := Update(r, q, m.db.keys[q.peer], managed, current, w); var n := o.machine;
      var through := w.update.Fine? && !Taken(m.db, q)
        && (managed ==> w.stage.Fine? && w.check.Sees? && Edited(m, w.check).file == current);
      && n.keys == m.keys && n.baseline == m.baseline && !n.wrote
      && (n.file == m.file || (managed && w.check.edit == Some(n.file)))
      && (n.disk == m.disk || (managed && w.check.edit == Some(n.file) && n.disk == {n.file}))
      && (o.reply == FailStop <==> n.latch)
      && (o.reply != FailStop ==> n.tx == None)
      && (o.reply == Registered <==> through && w.commit.Fine?)
      && (o.reply == Registered ==> n.db == Rekeyed(m.db, q) && (managed ==> n.file == current))
      && (Refused(o.reply) ==> n.db == if through && w.commit == Raises(true, Integrity) then Rekeyed(m.db, q) else m.db)
      && (n.db == m.db || n.db == Rekeyed(m.db, q))
  {
    var was := m.db.keys[q.peer];
    RestoringUndoesRekeying(m.db, q);
    assert Taken(Reserved(m.db, q), q) == Taken(m.db, q);
    if !w.update.Fine? {
      if w.update.Raises? {
        AbortIs(r, Excuse(w.update.kind), w);
      }
    } else if Taken(m.db, q) {
      AbortIs(r, InUse, w);
    } else {
      var u := r.(tx := Some(Rekeyed(m.db, q)));
      assert Update(r, q, was, managed, current, w) == Stage(u, q, was, managed, current, w);
      StageIs(u, q, was, managed, current, w);
    }
  }

  // ----- the publication ------------------------------------------------------------------

  predicate Misjudged(m: Machine, current: Config, w: Weather) {
    && w.look.Sees? && Edited(m, w.look).file == current
    && w.replace == Raises(true, Os) && w.recheck.Fails? && w.recheck.edit == None
  }

  /** What a publication may do to the machine: the file only, and only in this way. */
  predicate Publishes(m: Machine, n: Machine, candidate: Config) {
    && n.(file := m.file, disk := m.disk, wrote := m.wrote) == m
    && (if n.wrote then n.file == candidate && candidate in n.disk && n.disk <= m.disk + {candidate}
        else n.file == m.file && n.disk == m.disk)
  }

  lemma ReplaceIs(m: Machine, candidate: Config, w: Weather)
    requires !m.wrote
    ensures var p := Replace(m, candidate, w); var n := p.machine;
      && n.(file := m.file, disk := m.disk, wrote := m.wrote) == m
      && p.end != Drifted
      && (p.end == InPlace ==> n.wrote && n.file == candidate && n.disk == {candidate})
      && (p.end == NotInPlace ==>
            (n.wrote <==>
              w.replace == Raises(true, Os) && w.recheck.Fails? && w.recheck.edit == None))
      && (p.end != NotInPlace ==> !(w.replace == Raises(true, Os) && w.recheck.Fails?))
      && (w.recheck.edit == None ==> Publishes(m, n, candidate))
  {
  }

  lemma PublishIs(m: Machine, current: Config, candidate: Config, w: Weather)
    requires !m.wrote
    ensures var p := Publish(m, current, candidate, w); var n := p.machine;
      && n.(file := m.file, disk := m.disk, wrote := m.wrote) == m
      && (p.end == InPlace ==> n.wrote && n.file == candidate && n.disk == {candidate})
      && (p.end == Drifted ==> !n.wrote)
      && (p.end == NotInPlace ==> (n.wrote <==> Misjudged(m, current, w)))
      && (p.end != NotInPlace ==> !Misjudged(m, current, w))
      && (w.look.edit == None && w.recheck.edit == None ==> Publishes(m, n, candidate))
  {
    var n := Edited(m, w.look);
    if w.look.Sees? && n.file == current {
      ReplaceIs(n, candidate, w);
    }
  }

  lemma CompensateIs(m: Machine, q: Request, was: Option<string>, reply: Reply, w: Weather)
    requires m.tx == None && !m.latch && Refused(reply) && q.peer in m.db.keys && m.db.keys[q.peer] == Some(q.key)
    ensures var o := Compensate(m, q, was, reply, w); var n := o.machine;
      && n.(db := m.db, latch := false) == m
      && (n.db == m.db || n.db == Restored(m.db, q, was))
      && (o.reply == FailStop <==> n.latch)
      && (Refused(o.reply) ==> o.reply == reply && n.db == Restored(m.db, q, was))
      && o.reply != Registered
  {
  }

  lemma AnnounceIs(m: Machine, q: Request, was: Option<string>, current: Config, w: Weather)
    requires m.tx == None && !m.latch && !m.wrote && q.peer in m.db.keys && m.db.keys[q.peer] == Some(q.key)
    ensures var o := Announce(m, q, was, current, w); var n := o.machine; var candidate := Candidate(current, q);
      && (o.reply == FailStop <==> n.latch) && n.tx == None
      && (o.reply == Registered ==> n == Mirrored(m, candidate).(file := candidate, disk := {candidate}, wrote := true))
      && (Refused(o.reply) ==>
            && n.keys == m.keys && n.baseline == m.baseline && n.db == Restored(m.db, q, was)
            && (n.wrote <==> Misjudged(m, current, w)))
      && (n.db == m.db || n.db == Restored(m.db, q, was))
      && (n.wrote && n.db != m.db ==> Misjudged(m, current, w))
      && (w.look.edit == None && w.recheck.edit == None ==>
            if n.wrote then n.file == candidate && candidate in n.disk && n.disk <= m.disk + {candidate}
            else n.file == m.file && n.disk == m.disk)
  {
    var candidate := Candidate(current, q);
    PublishIs(m, current, candidate, w);
    var p := Publish(m, current, candidate, w);
    if p.end == Drifted {
      CompensateIs(p.machine, q, was, RestartRequired, w);
    } else if p.end == NotInPlace {
      CompensateIs(p.machine, q, was, PersistFailed, w);
    }
  }

  // ----- all or nothing -------------------------------------------------------------------

  /** Database, file and memory all hold the new key, durably. */
  predicate AllNew(m: Machine, n: Machine, q: Request, managed: bool) {
    && n.db == Rekeyed(m.db, q) && n.tx == None
    && (managed ==> n.file == Candidate(m.baseline, q) && n.disk == {n.file} && n.baseline == n.file && n.keys == n.file.keys)
  }

  /** Key and nonce set are exactly as before, this request's config write is absent, memory is untouched. */
  predicate AllOld(m: Machine, n: Machine, q: Request) {
    && n.db == m.db && n.tx == None && n.keys == m.keys && n.baseline == m.baseline
    && !n.wrote
  }

  lemma EntryIs(m: Machine, q: Request, managed: bool, w: Weather)
    requires managed && w.entry.Sees? && Edited(m, w.entry).file == m.baseline && q.peer in m.baseline.managed
    ensures var n := Edited(m, w.entry);
      && Edited(n, w.entry) == n
      && Register(m, q, managed, w) == Locked(n, q, true, m.baseline, w)
      && ReachesCommit(n, q, managed, w) == ReachesCommit(m, q, managed, w)
      && Current(n, managed, w) == m.baseline
  {
  }

  /** All new, all old or latched, under every fault pattern but the two that misjudge their own success. */
  lemma AllOrNothing(m: Machine, q: Request, managed: bool, w: Weather)
    requires Idle(m) && q.peer in m.db.keys
    ensures var o := Register(m, q, managed, w);
      && (o.reply == Registered ==> AllNew(m, o.machine, q, managed) && !o.machine.latch)
      && (o.reply == FailStop <==> o.machine.latch)
      && (Refused(o.reply) ==>
            (AllOld(m, o.machine, q) <==> !FalseViolation(m, q, managed, w) && !Blind(m, q, managed, w)))
  {
    var o := Register(m, q, managed, w);
    if !managed {
      TransactIs(m, q, managed, w);
    } else if w.entry.Sees? && Edited(m, w.entry).file == m.baseline && q.peer in m.baseline.managed {
      var n := Edited(m, w.entry);
      EntryIs(m, q, managed, w);
      TransactIs(n, q, managed, w);
      var t := Transact(n, q, n.db.keys[q.peer], managed, m.baseline, w);
      if t.reply == Registered {
        AnnounceIs(t.machine, q, m.db.keys[q.peer], m.baseline, w);
        RestoringUndoesRekeying(m.db, q);
        assert ReachesCommit(m, q, managed, w) && t.machine.file == m.baseline;
        assert Misjudged(t.machine, m.baseline, w) == Blind(m, q, managed, w);
        assert o == Announce(t.machine, q, m.db.keys[q.peer], m.baseline, w);
      }
    }
  }

  // ----- what each disturbance is answered with -------------------------------------------

  /** The file as an operator left it before a look. */
  function Looked(file: Config, g: Glimpse): Config {
    if g.edit.Some? then g.edit.value else file
  }

  /** Whether the candidate is in place is judged by its visible bytes, whenever a call raised an error of the system. */
  lemma PublishExactly(m: Machine, expected: Config, candidate: Config, w: Weather)
    ensures var p := Publish(m, expected, candidate, w);
      var seen := Looked(m.file, w.look);
      var tried := w.look.Sees? && seen == expected;
      var left := Looked(if tried && Lands(w.replace) then candidate else seen, w.recheck);
      p.end == if w.look.Stops? then Gone
               else if w.look.Sees? && seen != expected then Drifted
               else if tried && w.replace.Dies? then Gone
               else if tried && w.replace.Raises? && w.replace.kind != Os then Unclear
               else if tried && w.replace.Fine? then
                 (match w.sync case Fine => InPlace case Raises(_, kind) => (if kind == Os then Uncertain else Unclear) case Dies(_) => Gone)
               else match w.recheck
                 case Sees(_) => if left == candidate then Uncertain else NotInPlace
                 case Fails(_) => NotInPlace
                 case Stops(_) => Gone
  {
  }

  /** A config that an operator changed asks for a restart, one that could not be written says so; the rest is fail-stop or success. */
  lemma AnnouncementReplies(m: Machine, q: Request, was: Option<string>, current: Config, w: Weather)
    requires m.tx == None && q.peer in m.db.keys && m.db.keys[q.peer] == Some(q.key)
    requires w.undo.Fine? && w.undoCommit.Fine? && w.memory.Fine?
    ensures var o := Announce(m, q, was, current, w); var end := Publish(m, current, Candidate(current, q), w).end;
      o.reply == match end
        case InPlace => Registered
        case Drifted => RestartRequired
        case NotInPlace => PersistFailed
        case Uncertain => FailStop
        case Unclear => FailStop
        case Gone => Crashed
  {
  }

  /** A statement that raised is answered as a conflict if a constraint did it, and as a failure of the store otherwise. */
  lemma FaultReplies(m: Machine, f: Fault, w: Weather)
    requires f.Raises? && w.rollback.Fine?
    ensures Broken(m, f, w) == Outcome(m.(tx := None), if f.kind == Integrity then InUse else StorageFailed)
  {
    assert m.tx == None ==> m.(tx := None) == m;
  }

  /** An undo applies only to a row that still holds the new key or has the old one back; anything else latches the process. */
  lemma UndoExactly(m: Machine, q: Request, was: Option<string>, reply: Reply, w: Weather)
    requires w.undo.Fine? && w.undoCommit.Fine?
    ensures var n := m.(tx := None);
      Compensate(m, q, was, reply, w)
      == if q.peer in m.db.keys && (m.db.keys[q.peer] == was || m.db.keys[q.peer] == Some(q.key))
         then Outcome(n.(db := Restored(m.db, q, was)), reply) else Outcome(n.(latch := true), FailStop)
  {
  }

  // ----- an undisturbed request -----------------------------------------------------------

  /** Every statement and every call succeeds, and nobody edits the file. */
  predicate Calm(w: Weather) {
    && w.entry == w.check == w.look == w.recheck == Sees(None)
    && w.begin == w.reserve == w.drop == w.update == w.stage == w.commit == w.replace == w.sync == Fine
    && w.rollback == w.undo == w.undoCommit == w.memory == Fine
  }

  /** The answer, in the order of the tests: the file, the nonce, the nonce store, the key, the row. */
  function CalmReply(m: Machine, q: Request, managed: bool, now: real): Reply {
    if managed && (m.file != m.baseline || q.peer !in m.file.managed) then RestartRequired
    else if q.nonce.Some? && q.nonce.value in m.db.nonces then Replay
    else if q.nonce.Some? && |set n | n in m.db.nonces && now < m.db.nonces[n].expires| >= 100000 then NonceFull
    else if exists x :: x in m.db.keys && x != q.peer && m.db.keys[x] == Some(q.key) then InUse
    else if q.peer !in m.db.keys then StorageFailed
    else Registered
  }

  /** Both stores after a registration: the key under its peer, the nonce until it expires, and the canonical config. */
  function Written(m: Machine, q: Request, managed: bool): Machine {
    var db := Tables(m.db.keys[q.peer := Some(q.key)],
                     if q.nonce.Some? then m.db.nonces[q.nonce.value := Nonce(q.peer, q.expires)] else m.db.nonces);
    if !managed then m.(db := db)
    else
      var file := Config(m.file.keys[q.peer := q.key], m.file.managed, true);
      m.(db := db, file := file, disk := {file}, keys := file.keys, baseline := file, wrote := true)
  }

  lemma CalmTransaction(m: Machine, q: Request, managed: bool, current: Config, w: Weather, was: Option<string>)
    requires m.tx == None && Calm(w) && (managed ==> current == m.file)
    ensures var reply := CalmReply(m, q, false, w.now);
      Transact(m, q, was, managed, current, w)
      == if reply == Registered then Outcome(m.(db := Written(m, q, false).db), Registered) else Outcome(m, reply)
  {
    assert LiveNonces(m.db, w.now) == set n | n in m.db.nonces && w.now < m.db.nonces[n].expires;
    assert m.(tx := None) == m;
  }

  /** Undisturbed, a request is answered as its tables say, and writes both stores if and only if it registers. */
  lemma CalmExactly(m: Machine, q: Request, managed: bool, w: Weather)
    requires m.tx == None && Calm(w)
    ensures var reply := CalmReply(m, q, managed, w.now);
      Register(m, q, managed, w) == Outcome(if reply == Registered then Written(m, q, managed) else m, reply)
  {
    var was := if q.peer in m.db.keys then m.db.keys[q.peer] else None;
    CalmTransaction(m, q, managed, if managed then m.file else m.baseline, w, was);
  }

  /** The misjudged commit answers `identity in use` with the new key in the database and the old one in the file. */
  lemma FalseViolationPartsTheStores(m: Machine, q: Request, w: Weather)
    requires Idle(m) && FalseViolation(m, q, true, w)
    ensures var o := Register(m, q, true, w);
      o.reply == InUse && o.machine.db == Rekeyed(m.db, q) && o.machine.file == m.baseline && !o.machine.latch
  {
    var n := Edited(m, w.entry);
    EntryIs(m, q, true, w);
    TransactIs(n, q, true, w);
    RestoringUndoesRekeying(m.db, q);
  }

  /** The misjudged publication answers `persist failed` with the old key in the database and the new one in the file. */
  lemma BlindnessPartsTheStores(m: Machine, q: Request, w: Weather)
    requires Idle(m) && Blind(m, q, true, w) && w.undo.Fine? && w.undoCommit.Fine?
    ensures var o := Register(m, q, true, w);
      o.reply == PersistFailed && o.machine.db == m.db && o.machine.file == Candidate(m.baseline, q) && !o.machine.latch
  {
    var n := Edited(m, w.entry);
    EntryIs(m, q, true, w);
    TransactIs(n, q, true, w);
    RestoringUndoesRekeying(m.db, q);
  }

  // ----- stop and restart -----------------------------------------------------------------

  /** What a stop at any point, or after any reply, can have left. */
  lemma StopsLeave(m: Machine, q: Request, w: Weather)
    requires Settled(m) && Untouched(w) && q.peer in m.file.managed
    ensures var n := Register(m, q, true, w).machine;
      && (n.db == m.db || n.db == Rekeyed(m.db, q))
      && (n.db == Rekeyed(m.db, q) ==> !Taken(m.db, q)) && (n.wrote ==> !Taken(m.db, q))
      && n.file in n.disk && n.disk <= {m.file, Candidate(m.file, q)}
      && (!n.wrote ==> n.disk == {m.file})
      && (n.wrote && n.db != Rekeyed(m.db, q) ==> Blind(m, q, true, w))
  {
    if w.entry.Sees? {
      EntryIs(m, q, true, w);
      TransactIs(m, q, true, w);
      var t := Transact(m, q, m.db.keys[q.peer], true, m.baseline, w);
      if Taken(m.db, q) {
        StopNeedsUpdate(m, q, w);
      }
      if t.reply == Registered {
        AnnounceIs(t.machine, q, m.db.keys[q.peer], m.baseline, w);
        RestoringUndoesRekeying(m.db, q);
      }
    }
  }

  /** A key that another row holds never gets into the tables. */
  lemma StopNeedsUpdate(m: Machine, q: Request, w: Weather)
    requires Settled(m) && q.peer in m.file.managed && Taken(m.db, q)
    ensures var o := Transact(m, q, m.db.keys[q.peer], true, m.baseline, w); o.machine.db == m.db
  {
  }

  lemma ConfigKeysAreUnique(m: Machine, q: Request, c: Config, t: Tables)
    requires Settled(m) && q.peer in m.file.managed
    requires c == m.file || (c == Candidate(m.file, q) && !Taken(m.db, q))
    requires t == m.db || (t == Rekeyed(m.db, q) && !Taken(m.db, q))
    ensures Recoverable(t, c)
  {
    forall x, y | x in c.managed && x in c.keys && y in t.keys && y != x ensures t.keys[y] != Some(c.keys[x]) {
      assert m.db.keys[x] == ConfigKey(m.file, x);
    }
    forall x, y | x in c.managed && x in c.keys && y in c.managed && y in c.keys && c.keys[x] == c.keys[y] ensures x == y {
      assert m.db.keys[x] == ConfigKey(m.file, x);
      assert m.db.keys[y] == ConfigKey(m.file, y);
    }
  }

  lemma RebuildIs(m: Machine, q: Request, c: Config, t: Tables)
    requires Settled(m) && q.peer in m.file.managed
    requires c == m.file || (c == Candidate(m.file, q) && !Taken(m.db, q))
    requires t == m.db || (t == Rekeyed(m.db, q) && !Taken(m.db, q))
    ensures Rebuilt(t, c).keys == if c == m.file then m.db.keys else m.db.keys[q.peer := Some(q.key)]
    ensures Unique(Rebuilt(t, c)) && Agrees(Rebuilt(t, c), c)
  {
    var r, was := Rebuilt(t, c), m.db.keys;
    assert r.keys.Keys == was.Keys;
    if c == m.file {
      assert r.keys == was;
    } else {
      assert r.keys == was[q.peer := Some(q.key)];
    }
    assert forall x :: x in c.managed ==> x in r.keys;
  }

  /**
  Stop anywhere and restart on whatever the disk kept: the rebuild succeeds, database and config agree
  on every managed peer, and the peer's key is the new one if and only if the config read is the one that
  names it: the old file gives back every old key, and any other file was written by this registration.
  */
  lemma RestartAgrees(m: Machine, q: Request, w: Weather, c: Config)
    requires Settled(m) && Untouched(w) && q.peer in m.file.managed
    requires c in Register(m, q, true, w).machine.disk
    ensures var n := Register(m, q, true, w).machine; var r := Rebuilt(n.db, c);
      && Recoverable(n.db, c)
      && (forall x, y :: x in c.managed && x in c.keys && y in n.db.keys && y != x ==> n.db.keys[y] != Some(c.keys[x]))
      && (forall x :: x in c.managed ==> x in r.keys && r.keys[x] == if x in c.keys then Some(c.keys[x]) else None)
      && (forall x, y :: x in r.keys && y in r.keys && r.keys[x].Some? && r.keys[x] == r.keys[y] ==> x == y)
      && (c != m.file ==> n.wrote && c == Candidate(m.file, q))
      && r.keys == (if c == m.file then m.db.keys else m.db.keys[q.peer := Some(q.key)])
      && (r.keys[q.peer] == Some(q.key) <==> ConfigKey(c, q.peer) == Some(q.key))
      && (Register(m, q, true, w).reply == Registered ==> r.keys == m.db.keys[q.peer := Some(q.key)])
  {
    var n := Register(m, q, true, w).machine;
    StopsLeave(m, q, w);
    AllOrNothing(m, q, true, w);
    ConfigKeysAreUnique(m, q, c, n.db);
    RebuildIs(m, q, c, n.db);
  }
}
