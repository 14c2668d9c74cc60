/**
The register-key handler as a program over the database connection, the config file and the process's
mirrors. Exceptions are flows; each method is proved to go where the specification says.
*/
module KeyRegistrar {
  import opened Wrappers
  import opened RegistrationState
  import opened RegistrationTheorems

  datatype Flow = Went | Threw(kind: Kind) | Died

  /** What an operation with fault `f` does to the control flow. */
  function FlowOf(f: Fault): Flow {
    match f
    case Fine => Went
    case Raises(_, kind) => Threw(kind)
    case Dies(_) => Died
  }

  class Registrar {
    var db: Tables
    var tx: Option<Tables>
    var file: Config
    ghost var disk: set<Config>
    var keys: map<string, string>
    var baseline: Config
    var latch: bool
    ghost var wrote: bool

    ghost function State(): Machine
      reads this
    {
      Machine(db, tx, file, disk, keys, baseline, latch, wrote)
    }

    /** One read of the config file; None is an OSError or a stop. */
    method ReadConfig(g: Glimpse) returns (seen: Option<Config>)
      modifies this`file, this`disk, this`wrote
      ensures State() == Edited(old(State()), g)
      ensures seen == if g.Sees? then Some(file) else None
    {
      if g.edit.Some? {
        file, disk, wrote := g.edit.value, {g.edit.value}, false;
      }
      seen := if g.Sees? then Some(file) else None;
    }

    method Stop() returns (reply: Reply)
      modifies this`tx
      ensures State() == Stopped(old(State())).machine && reply == Crashed
    {
      tx := None;
      reply := Crashed;
    }

    method FailStopNow() returns (reply: Reply)
      modifies this`latch
      ensures State() == Latched(old(State())).machine && reply == FailStop
    {
      latch := true;
      reply := FailStop;
    }

    /** Rolls back if a transaction is open; trouble latches. */
    method RollBack(answer: Reply, w: Weather) returns (reply: Reply)
      modifies this`tx, this`latch
      ensures State() == Abort(old(State()), answer, w).machine && reply == Abort(old(State()), answer, w).reply
    {
      reply := answer;
      if tx.Some? {
        if Lands(w.rollback) {
          tx := None;
        }
        match FlowOf(w.rollback) {
          case Went =>
          case Died => reply := Stop();
          case Threw(_) => reply := FailStopNow();
        }
      }
    }

    /** Commits the tables with the old key back and the nonce forgotten. */
    method CommitUndo(q: Request, was: Option<string>, answer: Reply, w: Weather) returns (reply: Reply)
      modifies this`tx, this`db, this`latch
      ensures State() == UndoCommitted(old(State()), q, was, answer, w).machine
      ensures reply == UndoCommitted(old(State()), q, was, answer, w).reply
    {
      if Lands(w.undoCommit) {
        db := db.(keys := db.keys[q.peer := was]);
        if q.nonce.Some? && q.nonce.value in db.nonces && db.nonces[q.nonce.value].peer == q.peer {
          db := db.(nonces := db.nonces - {q.nonce.value});
        }
      }
      match FlowOf(w.undoCommit) {
        case Died => reply := Stop();
        case Threw(_) => reply := FailStopNow();
        case Went => reply := answer;
      }
    }

    /** A fresh transaction undoes the registration, unless the row belongs to somebody else by now. */
    method Compensate(q: Request, was: Option<string>, answer: Reply, w: Weather) returns (reply: Reply)
      modifies this`tx, this`db, this`latch
      ensures State() == RegistrationState.Compensate(old(State()), q, was, answer, w).machine
      ensures reply == RegistrationState.Compensate(old(State()), q, was, answer, w).reply
    {
      tx := None;
      if q.peer !in db.keys || (db.keys[q.peer] != was && db.keys[q.peer] != Some(q.key)) {
        reply := FailStopNow();
        return;
      }
      match FlowOf(w.undo) {
        case Died => reply := Stop();
        case Threw(_) => reply := FailStopNow();
        case Went => reply := CommitUndo(q, was, answer, w);
      }
    }

    // ----- the config file ----------------------------------------------------------------

    method Judge(candidate: Config, w: Weather) returns (end: Ending)
      modifies this`file, this`disk, this`wrote
      ensures State() == RegistrationState.Judge(old(State()), candidate, w).machine
      ensures end == RegistrationState.Judge(old(State()), candidate, w).end
    {
      var seen := ReadConfig(w.recheck);
      if w.recheck.Stops? {
        return Gone;
      }
      end := if seen == Some(candidate) then Uncertain else NotInPlace;
    }

    /** Recheck the bytes, replace the file, make the directory entry durable. */
    method Publish(expected: Config, candidate: Config, w: Weather) returns (end: Ending)
      modifies this`file, this`disk, this`wrote
      ensures State() == RegistrationState.Publish(old(State()), expected, candidate, w).machine
      ensures end == RegistrationState.Publish(old(State()), expected, candidate, w).end
    {
      var seen := ReadConfig(w.look);
      if w.look.Stops? {
        return Gone;
      }
      if seen == None {
        end := Judge(candidate, w);
        return;
      }
      if seen.value != expected {
        return Drifted;
      }
      if Lands(w.replace) {
        file, disk, wrote := candidate, disk + {candidate}, true;
      }
      match FlowOf(w.replace) {
        case Died => return Gone;
        case Threw(kind) =>
          if kind != Os {
            return Unclear;
          }
          end := Judge(candidate, w);
          return;
        case Went =>
      }
      if Lands(w.sync) {
        disk := {candidate};
      }
      end := match FlowOf(w.sync)
        case Died => Gone
        case Threw(kind) => if kind == Os then Uncertain else Unclear
        case Went => InPlace;
    }

    method Announce(q: Request, was: Option<string>, current: Config, w: Weather) returns (reply: Reply)
      modifies this
      ensures State() == RegistrationState.Announce(old(State()), q, was, current, w).machine
      ensures reply == RegistrationState.Announce(old(State()), q, was, current, w).reply
    {
      var candidate := Candidate(current, q);
      var end := Publish(current, candidate, w);
      match end {
        case Gone => reply := Stop();
        case Drifted => reply := Compensate(q, was, RestartRequired, w);
        case NotInPlace => reply := Compensate(q, was, PersistFailed, w);
        case Unclear => reply := FailStopNow();
        case Uncertain =>
          if Lands(w.memory) {
            keys, baseline := candidate.keys, candidate;
          }
          reply := FailStopNow();
        case InPlace =>
          if Lands(w.memory) {
            keys, baseline := candidate.keys, candidate;
          }
          match FlowOf(w.memory) {
            case Died => reply := Stop();
            case Threw(_) => reply := FailStopNow();
            case Went => reply := Registered;
          }
      }
    }

    // ----- the transaction ----------------------------------------------------------------

    /** The handler of an exception inside the transaction, and of a stop. */
    method Handle(f: Fault, w: Weather) returns (reply: Reply)
      requires !f.Fine?
      modifies this`tx, this`latch
      ensures State() == Broken(old(State()), f, w).machine && reply == Broken(old(State()), f, w).reply
    {
      if f.Dies? {
        reply := Stop();
      } else {
        reply := RollBack(if f.kind == Integrity then InUse else StorageFailed, w);
      }
    }

    method CommitKey(q: Request, was: Option<string>, w: Weather) returns (reply: Reply)
      requires tx.Some?
      modifies this`tx, this`db, this`latch
      ensures State() == Commit(old(State()), q, was, w).machine && reply == Commit(old(State()), q, was, w).reply
    {
      if Lands(w.commit) {
        db, tx := tx.value, None;
      }
      match FlowOf(w.commit) {
        case Went => reply := Registered;
        case Died => reply := Stop();
        case Threw(kind) =>
          if kind == Integrity {
            reply := RollBack(InUse, w);
          } else if tx.Some? {
            reply := RollBack(StorageFailed, w);
          } else {
            reply := Compensate(q, was, StorageFailed, w);
          }
      }
    }

    method StageAndCommit(q: Request, was: Option<string>, managed: bool, current: Config, w: Weather) returns (reply: Reply)
      requires tx.Some?
      modifies this
      ensures State() == Stage(old(State()), q, was, managed, current, w).machine
      ensures reply == Stage(old(State()), q, was, managed, current, w).reply
    {
      if managed {
        if w.stage != Fine {
          reply := Handle(w.stage, w);
          return;
        }
        var seen := ReadConfig(w.check);
        if w.check.Stops? {
          reply := Stop();
          return;
        }
        if seen == None {
          reply := RollBack(StorageFailed, w);
          return;
        }
        if seen.value != current {
          reply := RollBack(RestartRequired, w);
          return;
        }
      }
      reply := CommitKey(q, was, w);
    }

    method UpdateKey(q: Request, was: Option<string>, managed: bool, current: Config, w: Weather) returns (reply: Reply)
      requires tx.Some?
      modifies this
      ensures State() == Update(old(State()), q, was, managed, current, w).machine
      ensures reply == Update(old(State()), q, was, managed, current, w).reply
    {
      if w.update != Fine {
        reply := Handle(w.update, w);
        return;
      }
      var t := tx.value;
      if Taken(t, q) {
        reply := RollBack(InUse, w);
        return;
      }
      if q.peer !in t.keys {
        reply := RollBack(StorageFailed, w);
        return;
      }
      tx := Some(t.(keys := t.keys[q.peer := Some(q.key)]));
      reply := StageAndCommit(q, was, managed, current, w);
    }

    method RunTransaction(q: Request, was: Option<string>, managed: bool, current: Config, w: Weather) returns (reply: Reply)
      modifies this
      ensures State() == Transact(old(State()), q, was, managed, current, w).machine
      ensures reply == Transact(old(State()), q, was, managed, current, w).reply
    {
      if Lands(w.begin) {
        tx := Some(db);
      }
      if w.begin != Fine {
        reply := Handle(w.begin, w);
        return;
      }
      if q.nonce.Some? {
        if w.reserve != Fine {
          reply := Handle(w.reserve, w);
          return;
        }
        if q.nonce.value in db.nonces || |LiveNonces(db, w.now)| >= NONCE_STORE_CAP {
          reply := if q.nonce.value in db.nonces then Replay else NonceFull;
          if Lands(w.drop) {
            tx := None;
          }
          match FlowOf(w.drop) {
            case Went =>
            case Died => reply := Stop();
            case Threw(kind) => reply := RollBack(if kind == Integrity then InUse else StorageFailed, w);
          }
          return;
        }
        tx := Some(db.(nonces := db.nonces[q.nonce.value := Nonce(q.peer, q.expires)]));
      }
      reply := UpdateKey(q, was, managed, current, w);
    }

    method StoreLocked(q: Request, managed: bool, current: Config, w: Weather) returns (reply: Reply)
      modifies this
      ensures State() == Locked(old(State()), q, managed, current, w).machine
      ensures reply == Locked(old(State()), q, managed, current, w).reply
    {
      var was := if q.peer in db.keys then db.keys[q.peer] else None;
      reply := RunTransaction(q, was, managed, current, w);
      if reply == Registered && managed {
        reply := Announce(q, was, current, w);
      }
    }

    /** One register-key request on an idle process. */
    method RegisterKey(q: Request, managed: bool, w: Weather) returns (reply: Reply)
      requires Idle(State()) && q.peer in db.keys
      modifies this
      ensures State() == Register(old(State()), q, managed, w).machine && reply == Register(old(State()), q, managed, w).reply
      ensures reply == Registered ==> AllNew(old(State()), State(), q, managed)
      ensures reply == FailStop <==> latch
      ensures Refused(reply) && !FalseViolation(old(State()), q, managed, w) && !Blind(old(State()), q, managed, w) ==>
        AllOld(old(State()), State(), q)
    {
      AllOrNothing(State(), q, managed, w);
      if !managed {
        reply := StoreLocked(q, false, baseline, w);
        return;
      }
      var seen := ReadConfig(w.entry);
      if w.entry.Stops? {
        reply := Stop();
        return;
      }
      if seen == None {
        return StorageFailed;
      }
      var current := seen.value;
      if current != baseline || q.peer !in current.managed {
        return RestartRequired;
      }
      reply := StoreLocked(q, true, current, w);
    }

    // ----- restart ------------------------------------------------------------------------

    /** The process is gone; the file holds `kept`, one of the contents the disk may have kept. */
    method Restart(kept: Config, order: seq<string>) returns (ok: bool)
      requires kept in disk
      requires forall x :: x in kept.managed <==> x in order
      modifies this
      ensures Recoverable(old(db), kept) ==> ok
      ensures ok ==> db == Rebuilt(old(db), kept) && Agrees(db, kept)
      ensures ok ==> file == baseline == kept && keys == kept.keys && !latch && tx == None
    {
      file, disk, tx, latch, wrote := kept, {kept}, None, false, false;
      keys, baseline := kept.keys, kept;
      ghost var was := db;
      ok := true;
      assert PartlyRebuilt(was, kept, [], db);
      for i := 0 to |order|
        invariant ok && PartlyRebuilt(was, kept, order[..i], db)
        invariant file == baseline == kept && keys == kept.keys && !latch && tx == None
      {
        var x := order[i];
        var key := ConfigKey(kept, x);
        if x !in db.keys || (key.Some? && exists y :: y in db.keys && y != x && db.keys[y] == key) {
          if Recoverable(was, kept) {
            NoClash(was, kept, order, i, db);
            assert false;
          }
          return false;
        }
        db := db.(keys := db.keys[x := key]);
        assert order[..i + 1] == order[..i] + [x];
      }
      assert order[..|order|] == order;
      assert db.keys == Rebuilt(was, kept).keys;
    }
  }

  /** The rows in `done` hold the config's key, the others what they held. */
  predicate PartlyRebuilt(was: Tables, c: Config, done: seq<string>, t: Tables) {
    && t.nonces == was.nonces && t.keys.Keys == was.keys.Keys
    && (forall x :: x in done ==> x in t.keys)
    && forall x :: x in t.keys ==> t.keys[x] == if x in done then ConfigKey(c, x) else was.keys[x]
  }

  lemma NoClash(was: Tables, c: Config, order: seq<string>, i: nat, t: Tables)
    requires Recoverable(was, c) && i < |order| && PartlyRebuilt(was, c, order[..i], t)
    requires forall x :: x in c.managed <==> x in order
    ensures order[i] in t.keys
    ensures ConfigKey(c, order[i]).Some? ==>
      forall y :: y in t.keys && y != order[i] ==> t.keys[y] != ConfigKey(c, order[i])
  {
    var x := order[i];
    assert x in c.managed;
    if x in c.keys {
      forall y | y in t.keys && y != x ensures t.keys[y] != ConfigKey(c, x) {
        if y in order[..i] {
          assert y in c.managed;
        }
      }
    }
  }
}
