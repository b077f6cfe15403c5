/** The database lock (libpkg/pkgdb.c): one row with an exclusive flag, an advisory flag and
    a reader count, and a table of the process ids that took a lock. */
module LockDb {

  type Pid = nat

  datatype LockType = Readonly | Advisory | Exclusive

  /** What a process asks for: a first lock, or a change of the one it has. */
  datatype Request = Obtain(kind: LockType) | Upgrade | Downgrade

  datatype Row = Row(exclusive: bool, advisory: bool, read: nat)

  const UNLOCKED := Row(false, false, 0)

  datatype Db = Db(row: Row, pids: set<Pid>)

  /** Outcome of one attempt: granted; granted but the pid could not be recorded; lock reset,
      try again; lock reset, start over with a fresh request; somebody else is alive. */
  datatype Outcome = Granted | Failed | WasReset | StartOver | Busy

  // ---------- the statements, as functions ----------

  predicate Guard(r: Row, q: Request) {
    match q
    case Obtain(Readonly) => !r.exclusive
    case Obtain(Advisory) => !r.exclusive && !r.advisory
    case Obtain(Exclusive) => !r.exclusive && !r.advisory && r.read == 0
    case Upgrade => !r.exclusive && r.advisory && r.read == 0
    case Downgrade => r.exclusive && r.advisory && r.read == 0
  }

  function Updated(r: Row, q: Request): Row {
    match q
    case Obtain(Readonly) => r.(read := r.read + 1)
    case Obtain(Advisory) => r.(advisory := true)
    case Obtain(Exclusive) => r.(exclusive := true)
    case Upgrade => Row(true, true, r.read)
    case Downgrade => Row(false, true, r.read)
  }

  predicate OthersAlive(pids: set<Pid>, me: Pid, alive: set<Pid>) {
    exists p :: p in pids && p != me && p in alive
  }

  /** pids left after the dead ones have been dropped. */
  function LivePids(pids: set<Pid>, me: Pid, alive: set<Pid>): set<Pid> {
    set p | p in pids && (p == me || p in alive)
  }

  /** One iteration of the loop in pkgdb_try_lock. */
  function Attempt(db: Db, q: Request, me: Pid, alive: set<Pid>): (Db, Outcome) {
    if Guard(db.row, q) then
      var row := Updated(db.row, q);
      if !q.Obtain? then (Db(row, db.pids), Granted)
      else if me in db.pids then (Db(row, db.pids), Failed)
      else (Db(row, db.pids + {me}), Granted)
    else
      var left := LivePids(db.pids, me, alive);
      if OthersAlive(db.pids, me, alive) then (Db(db.row, left), Busy)
      else if q.Obtain? then (Db(UNLOCKED, left), WasReset)
      else (Db(UNLOCKED, left - {me}), StartOver)
  }

  /** pkgdb_release_lock */
  function Release(db: Db, kind: LockType, me: Pid): Db {
    var r := db.row;
    match kind
    case Readonly => if r.read > 0 then Db(r.(read := r.read - 1), db.pids - {me}) else db
    case Advisory => if r.advisory then Db(r.(advisory := false), db.pids - {me}) else db
    case Exclusive => if r.exclusive then Db(r.(exclusive := false), db.pids - {me}) else db
  }

  // ---------- the procedures ----------

  class Database {
    var exclusive: bool
    var advisory: bool
    var read: nat
    var pids: set<Pid>

    function State(): Db
      reads this
    {
      Db(Row(exclusive, advisory, read), pids)
    }

    constructor ()
      ensures State() == Db(UNLOCKED, {})
    {
      exclusive, advisory, read, pids := false, false, 0, {};
    }

    /** Runs the UPDATE of a request; true when a row was changed. */
    method Execute(q: Request) returns (changed: bool)
      modifies this`exclusive, this`advisory, this`read
      ensures changed <==> Guard(old(State().row), q)
      ensures State() == if changed then Db(Updated(old(State().row), q), old(pids)) else old(State())
    {
      changed := true;
      match q
      case Obtain(kind) =>
        if kind == Readonly && !exclusive {
          read := read + 1;
        } else if kind == Advisory && !exclusive && !advisory {
          advisory := true;
        } else if kind == Exclusive && !exclusive && !advisory && read == 0 {
          exclusive := true;
        } else {
          changed := false;
        }
      case Upgrade =>
        if !exclusive && advisory && read == 0 {
          exclusive, advisory := true, true;
        } else {
          changed := false;
        }
      case Downgrade =>
        if exclusive && advisory && read == 0 {
          exclusive, advisory := false, true;
        } else {
          changed := false;
        }
    }

    /** pkgdb_check_lock_pid: drop the dead, report whether anybody else is alive. */
    method CheckLockPid(me: Pid, alive: set<Pid>) returns (others: bool)
      modifies this`pids
      ensures pids == LivePids(old(pids), me, alive)
      ensures others <==> OthersAlive(old(pids), me, alive)
    {
      var rest, found := pids, 0;
      while rest != {}
        invariant rest <= old(pids)
        invariant pids == LivePids(old(pids) - rest, me, alive) + rest
        invariant found > 0 <==> OthersAlive(old(pids) - rest, me, alive)
        decreases rest
      {
        var pid :| pid in rest;
        rest := rest - {pid};
        assert old(pids) - rest == (old(pids) - rest - {pid}) + {pid};
        if pid != me {
          if pid !in alive {
            pids := pids - {pid};
          } else {
            found := found + 1;
          }
        }
      }
      assert old(pids) - {} == old(pids);
      others := found > 0;
    }

    method ResetLock()
      modifies this`exclusive, this`advisory, this`read
      ensures State() == Db(UNLOCKED, old(pids))
    {
      exclusive, advisory, read := false, false, 0;
    }

    /** One iteration of pkgdb_try_lock for the process `me`. */
    method TryOnce(q: Request, me: Pid, alive: set<Pid>) returns (outcome: Outcome)
      modifies this
      ensures (State(), outcome) == Attempt(old(State()), q, me, alive)
    {
      var changed := Execute(q);
      if !changed {
        var others := CheckLockPid(me, alive);
        if others {
          return Busy;
        }
        ResetLock();
        if !q.Obtain? {
          pids := pids - {me};
          return StartOver;
        }
        return WasReset;
      }
      if q.Obtain? {
        if me in pids {
          return Failed;
        }
        pids := pids + {me};
      }
      return Granted;
    }

    /** pkgdb_try_lock for a first lock when nobody else acts meanwhile. A reset is followed by
        a successful UPDATE, so the loop ends although a reset does not count as a try. */
    method TryLock(kind: LockType, me: Pid, alive: set<Pid>, maxTries: int) returns (outcome: Outcome)
      modifies this
      ensures maxTries < 0 ==> outcome == Busy && State() == old(State())
      ensures maxTries >= 0 ==>
        (outcome == Busy <==> !Guard(old(State().row), Obtain(kind)) && OthersAlive(old(pids), me, alive))
      ensures outcome == Busy ==> State().row == old(State().row)
      ensures outcome != Busy ==> outcome == (if me in old(pids) then Failed else Granted) && me in pids
    {
      var tries := 0;
      outcome := Busy;
      ghost var wasReset := false;
      while tries <= maxTries
        invariant maxTries < 0 ==> tries == 0 && !wasReset
        invariant outcome == Busy && (me in pids <==> me in old(pids))
        invariant wasReset ==> State().row == UNLOCKED && tries == 0 && maxTries >= 0
        invariant wasReset ==> !OthersAlive(old(pids), me, alive)
        invariant !wasReset ==> State().row == old(State().row)
        invariant !wasReset && tries == 0 ==> pids == old(pids)
        invariant tries > 0 ==> !Guard(old(State().row), Obtain(kind))
        invariant tries > 0 ==> OthersAlive(old(pids), me, alive) && OthersAlive(pids, me, alive)
        decreases maxTries + 1 - tries, !wasReset
      {
        outcome := TryOnce(Obtain(kind), me, alive);
        if outcome == WasReset {
          outcome, wasReset := Busy, true;
          continue;
        }
        if outcome != Busy {
          return;
        }
        tries := tries + 1;
      }
    }

    /** pkgdb_release_lock: the pid is dropped only when the UPDATE changed the row. */
    method ReleaseLock(kind: LockType, me: Pid) returns (changed: bool)
      modifies this
      ensures State() == Release(old(State()), kind, me)
      ensures changed <==> State().row != old(State()).row
    {
      changed := true;
      match kind {
        case Readonly =>
          if read > 0 { read := read - 1; } else { changed := false; }
        case Advisory =>
          if advisory { advisory := false; } else { changed := false; }
        case Exclusive =>
          if exclusive { exclusive := false; } else { changed := false; }
      }
      if changed {
        pids := pids - {me};
      }
    }
  }
}
