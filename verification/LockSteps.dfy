/** The same protocol one SQL statement at a time (libpkg/pkgdb.c, pkgdb_try_lock and
    pkgdb_release_lock). No transaction holds the statements of an attempt together, so other
    processes may act between its UPDATE, its look at the pid table, its reset and its INSERT. */
module LockSteps {
  import opened LockDb
  import opened LockProtocol

  /** What a process in the middle of an attempt or a release does next: record its pid; look for
      live processes; reset the row; drop its own pid. */
  datatype Phase = Inserting | Refused(request: Request) | Resetting(request: Request) | Removing

  /** `held` of the system are the locks claimed: those the processes have and those whose UPDATE
      went through and whose pid is not recorded yet. */
  datatype State = State(sys: Sys, at: map<Pid, Phase>)

  datatype Step =
    | Ask(p: Pid, request: Request)
    | Check(p: Pid)
    | Reset(p: Pid)
    | Insert(p: Pid)
    | Remove(p: Pid)
    | Release(p: Pid)
    | Die(p: Pid)
    | Start(p: Pid)

  predicate Possible(t: State, e: Step) {
    match e
    case Ask(p, q) => p !in t.at && Enabled(t.sys, Try(p, q))
    case Check(p) => p in t.at && t.at[p].Refused?
    case Reset(p) => p in t.at && t.at[p].Resetting?
    case Insert(p) => p in t.at && t.at[p].Inserting?
    case Remove(p) => p in t.at && t.at[p].Removing?
    case Release(p) => p !in t.at && Enabled(t.sys, Free(p))
    case Die(p) => Enabled(t.sys, Crash(p))
    case Start(p) => Enabled(t.sys, Spawn(p))
  }

  function WithDb(s: Sys, row: Row, pids: set<Pid>): Sys { s.(db := Db(row, pids)) }

  function Asked(t: State, p: Pid, q: Request): State {
    var s := t.sys;
    if !Guard(s.db.row, q) then t.(at := t.at[p := Refused(q)])
    else
      var s' := WithDb(s, Updated(s.db.row, q), s.db.pids);
      if !q.Obtain? then t.(sys := s'.(held := s.held[p := Target(q)]))
      // the INSERT of a pid that is still listed will fail: such an attempt claims nothing
      else if p in s.db.pids then State(s', t.at[p := Inserting])
      else State(s'.(held := s.held[p := Target(q)]), t.at[p := Inserting])
  }

  function Next(t: State, e: Step): State
    requires Possible(t, e)
  {
    var s := t.sys;
    match e
    case Ask(p, q) => Asked(t, p, q)
    case Check(p) =>
      State(WithDb(s, s.db.row, LivePids(s.db.pids, p, s.alive)),
            if OthersAlive(s.db.pids, p, s.alive) then t.at - {p} else t.at[p := Resetting(t.at[p].request)])
    case Reset(p) =>
      State(WithDb(s, UNLOCKED, s.db.pids).(held := s.held - {p}),
            if t.at[p].request.Obtain? then t.at - {p} else t.at[p := Removing])
    case Insert(p) => State(WithDb(s, s.db.row, s.db.pids + {p}), t.at - {p})
    case Remove(p) => State(WithDb(s, s.db.row, s.db.pids - {p}), t.at - {p})
    case Release(p) =>
      var row := LockDb.Release(s.db, s.held[p], p).row;
      State(WithDb(s, row, s.db.pids).(held := s.held - {p}), if row == s.db.row then t.at else t.at[p := Removing])
    case Die(p) => State(LockProtocol.Step(s, Crash(p)), t.at - {p})
    case Start(p) => t.(sys := LockProtocol.Step(s, Spawn(p)))
  }

  predicate Run(t: State, es: seq<Step>)
    decreases es
  {
    es == [] || (Possible(t, es[0]) && Run(Next(t, es[0]), es[1..]))
  }

  function Final(t: State, es: seq<Step>): State
    requires Run(t, es)
    decreases es
  {
    if es == [] then t else Final(Next(t, es[0]), es[1..])
  }

  /** The locks processes have: claimed, and the pid is recorded. */
  function Holding(t: State): map<Pid, LockType> {
    map p | p in t.sys.held && !(p in t.at && t.at[p].Inserting?) :: t.sys.held[p]
  }

  /** No two processes have conflicting locks. */
  predicate Exclusion(t: State) {
    Safe(t.sys.(held := Holding(t)))
  }

  // ---------- what a run without harmful resets keeps ----------

  predicate Fits(t: State, p: Pid, phase: Phase) {
    match phase
    case Inserting => p in t.sys.held <==> p !in t.sys.db.pids
    case Removing => p !in t.sys.held
    case _ => Enabled(t.sys, Try(p, phase.request))
  }

  /** Every claim is covered by the row, and listed or about to be. */
  predicate Inv(t: State) {
    && Safe(t.sys) && Covered(t.sys)
    && (forall p :: p in t.at ==> p in t.sys.alive && Fits(t, p, t.at[p]))
    && (forall p :: p in t.sys.held ==>
          p in t.sys.alive && (p in t.sys.db.pids || (p in t.at && t.at[p].Inserting?)))
  }

  /** Nobody but p claims a lock. */
  predicate NoOtherClaim(t: State, p: Pid) {
    t.sys.held.Keys <= {p}
  }

  predicate Harmless(t: State, e: Step) {
    e.Reset? ==> NoOtherClaim(t, e.p)
  }

  lemma InvExcludes(t: State)
    requires Inv(t)
    ensures Exclusion(t)
  {
  }

  /** An UPDATE that went through for a claim. */
  lemma ClaimKeepsInv(t: State, p: Pid, q: Request)
    requires Inv(t) && Possible(t, Ask(p, q)) && Guard(t.sys.db.row, q) && (q.Obtain? ==> p !in t.sys.db.pids)
    ensures Inv(Asked(t, p, q))
  {
    UpdateMakesRoom(t.sys, Asked(t, p, q).sys, p, q);
  }

  /** One that will come to nothing, and one that changed no row. */
  lemma NoClaimKeepsInv(t: State, p: Pid, q: Request)
    requires Inv(t) && Possible(t, Ask(p, q)) && (Guard(t.sys.db.row, q) ==> q.Obtain? && p in t.sys.db.pids)
    ensures Inv(Asked(t, p, q))
  {
    assert Holders(Asked(t, p, q).sys, Readonly) == Holders(t.sys, Readonly);
  }

  lemma AskKeepsInv(t: State, p: Pid, q: Request)
    requires Inv(t) && Possible(t, Ask(p, q))
    ensures Inv(Asked(t, p, q))
  {
    if Guard(t.sys.db.row, q) && (q.Obtain? ==> p !in t.sys.db.pids) {
      ClaimKeepsInv(t, p, q);
    } else {
      NoClaimKeepsInv(t, p, q);
    }
  }

  lemma ReleaseKeepsInv(t: State, p: Pid)
    requires Inv(t) && Possible(t, Release(p))
    ensures Inv(Next(t, Release(p)))
  {
    assert t.sys.held[p] == Readonly ==> p in Holders(t.sys, Readonly);
    FewerHolders(t.sys, Next(t, Release(p)).sys, p);
  }

  lemma SameClaims(t: State, t': State)
    requires Safe(t.sys) && Covered(t.sys) && t'.sys.held == t.sys.held && t'.sys.db.row == t.sys.db.row
    ensures Safe(t'.sys) && Covered(t'.sys)
  {
    assert Holders(t'.sys, Readonly) == Holders(t.sys, Readonly);
  }

  lemma CheckKeepsInv(t: State, p: Pid)
    requires Inv(t) && Possible(t, Check(p))
    ensures Inv(Next(t, Check(p)))
  {
    SameClaims(t, Next(t, Check(p)));
  }

  lemma DieKeepsInv(t: State, p: Pid)
    requires Inv(t) && Possible(t, Die(p))
    ensures Inv(Next(t, Die(p)))
  {
    FewerHolders(t.sys, Next(t, Die(p)).sys, p);
  }

  lemma OtherStepKeepsInv(t: State, e: Step)
    requires Inv(t) && Possible(t, e) && (e.Insert? || e.Remove? || e.Start?)
    ensures Inv(Next(t, e))
  {
    SameClaims(t, Next(t, e));
  }

  /** A reset leaves the claims covered exactly when there are none but its own. */
  lemma ResetKeepsInvIff(t: State, p: Pid)
    requires Inv(t) && Possible(t, Reset(p))
    ensures Inv(Next(t, Reset(p))) <==> NoOtherClaim(t, p)
  {
    var s := Next(t, Reset(p)).sys;
    if NoOtherClaim(t, p) {
      assert s.held == map[];
      assert Holders(s, Readonly) == {};
    }
    if Covered(s) {
      NoReaders(s);
      assert s.held == map[];
    }
  }

  lemma StepKeepsInv(t: State, e: Step)
    requires Inv(t) && Possible(t, e) && Harmless(t, e)
    ensures Inv(Next(t, e))
  {
    match e
    case Ask(p, q) => AskKeepsInv(t, p, q);
    case Check(p) => CheckKeepsInv(t, p);
    case Release(p) => ReleaseKeepsInv(t, p);
    case Die(p) => DieKeepsInv(t, p);
    case Reset(p) => ResetKeepsInvIff(t, p);
    case _ => OtherStepKeepsInv(t, e);
  }

  predicate InvThroughout(t: State, es: seq<Step>)
    requires Run(t, es)
    decreases es
  {
    Inv(t) && (es == [] || InvThroughout(Next(t, es[0]), es[1..]))
  }

  predicate AllHarmless(t: State, es: seq<Step>)
    requires Run(t, es)
    decreases es
  {
    es == [] || (Harmless(t, es[0]) && AllHarmless(Next(t, es[0]), es[1..]))
  }

  /** A run keeps the database covering all claims exactly when each of its resets finds nobody
      else with a claim. */
  lemma {:induction false} InvThroughoutIffHarmless(t: State, es: seq<Step>)
    requires Inv(t) && Run(t, es)
    ensures InvThroughout(t, es) <==> AllHarmless(t, es)
    decreases es
  {
    if es != [] {
      if Harmless(t, es[0]) {
        StepKeepsInv(t, es[0]);
        InvThroughoutIffHarmless(Next(t, es[0]), es[1..]);
      } else {
        ResetKeepsInvIff(t, es[0].p);
      }
    }
  }

  lemma {:induction false} HarmlessRunIsSafe(t: State, es: seq<Step>)
    requires Inv(t) && Run(t, es) && AllHarmless(t, es)
    ensures Inv(Final(t, es)) && Exclusion(Final(t, es))
    decreases es
  {
    if es == [] {
      InvExcludes(t);
    } else {
      StepKeepsInv(t, es[0]);
      HarmlessRunIsSafe(Next(t, es[0]), es[1..]);
    }
  }

  // ---------- a harmful reset loses exclusion ----------

  /** Exclusion can still be lost, even if no later reset does harm. */
  ghost predicate CanBreak(t: State) {
    exists es :: Run(t, es) && AllHarmless(t, es) && !Exclusion(Final(t, es))
  }

  lemma OneMoreStep(t: State, e: Step, es: seq<Step>)
    requires Possible(t, e) && Harmless(t, e) && Run(Next(t, e), es) && AllHarmless(Next(t, e), es)
    ensures Run(t, [e] + es) && AllHarmless(t, [e] + es) && Final(t, [e] + es) == Final(Next(t, e), es)
  {
    assert ([e] + es)[0] == e && ([e] + es)[1..] == es;
  }

  lemma BreaksLater(t: State, e: Step)
    requires Possible(t, e) && Harmless(t, e) && CanBreak(Next(t, e))
    ensures CanBreak(t)
  {
    var es :| Run(Next(t, e), es) && AllHarmless(Next(t, e), es) && !Exclusion(Final(Next(t, e), es));
    OneMoreStep(t, e, es);
  }

  lemma BreaksNow(t: State, p: Pid, h: Pid)
    requires p != h && p in Holding(t) && h in Holding(t) && Holding(t)[p] == Exclusive
    ensures CanBreak(t)
  {
    assert Run(t, []) && AllHarmless(t, []) && Final(t, []) == t;
  }

  /** With the row reset while h still claims a lock, a new process gets the exclusive lock and h
      has, or will have, its own. */
  lemma ClaimOnUnlockedRowBreaks(t: State, h: Pid)
    requires t.sys.db.row == UNLOCKED && h in t.sys.held && h in t.sys.alive
    ensures CanBreak(t)
  {
    var z := FreshPid(t.sys.alive + t.sys.db.pids + t.sys.held.Keys + t.at.Keys);
    var t1 := Next(t, Start(z));
    var t2 := Next(t1, Ask(z, Obtain(Exclusive)));
    var t3 := Next(t2, Insert(z));
    assert z in Holding(t3) && Holding(t3)[z] == Exclusive && h in t3.sys.held;
    if h in t.at && t.at[h].Inserting? {
      var t4 := Next(t3, Insert(h));
      assert z in Holding(t4) && h in Holding(t4);
      BreaksNow(t4, z, h);
      BreaksLater(t3, Insert(h));
    } else {
      BreaksNow(t3, z, h);
    }
    BreaksLater(t2, Insert(z));
    BreaksLater(t1, Ask(z, Obtain(Exclusive)));
    BreaksLater(t, Start(z));
  }

  /** So a reset is safe for all that follows exactly when nobody else has a claim. */
  lemma ResetCanBreakIff(t: State, p: Pid)
    requires Inv(t) && Possible(t, Reset(p))
    ensures CanBreak(Next(t, Reset(p))) <==> !NoOtherClaim(t, p)
  {
    var t' := Next(t, Reset(p));
    ResetKeepsInvIff(t, p);
    if NoOtherClaim(t, p) {
      forall es | Run(t', es) && AllHarmless(t', es) ensures Exclusion(Final(t', es)) {
        HarmlessRunIsSafe(t', es);
      }
    } else {
      var h :| h in t.sys.held && h != p;
      ClaimOnUnlockedRowBreaks(t', h);
    }
  }

  // ---------- which interleavings are safe ----------

  /** Nobody looks at the pid table while another process has yet to record its pid, and no UPDATE
      goes through while another process that found nobody has yet to reset the row. */
  predicate Calm(t: State, e: Step) {
    match e
    case Check(p) => forall r :: r in t.at && r != p ==> !t.at[r].Inserting?
    case Ask(p, q) => Guard(t.sys.db.row, q) ==> forall r :: r in t.at && r != p ==> !t.at[r].Resetting?
    case _ => true
  }

  predicate AllCalm(t: State, es: seq<Step>)
    requires Run(t, es)
    decreases es
  {
    es == [] || (Calm(t, es[0]) && AllCalm(Next(t, es[0]), es[1..]))
  }

  /** Whoever is about to reset the row is the only one with a claim. */
  predicate Quiet(t: State) {
    forall p :: p in t.at && t.at[p].Resetting? ==> NoOtherClaim(t, p)
  }

  lemma CalmStep(t: State, e: Step)
    requires Inv(t) && Quiet(t) && Possible(t, e) && Calm(t, e)
    ensures Harmless(t, e) && Quiet(Next(t, e))
  {
    var t' := Next(t, e);
    forall p | p in t'.at && t'.at[p].Resetting? ensures NoOtherClaim(t', p) {
      if e == Check(p) {
        forall h | h in t.sys.held ensures h == p {
          assert h in t.sys.alive;
        }
      } else {
        assert p in t.at && t.at[p].Resetting?;
      }
    }
  }

  /** Runs without the two overlaps keep their resets harmless, and with them exclusion. */
  lemma {:induction false} CalmRunIsHarmless(t: State, es: seq<Step>)
    requires Inv(t) && Quiet(t) && Run(t, es) && AllCalm(t, es)
    ensures AllHarmless(t, es)
    decreases es
  {
    if es != [] {
      CalmStep(t, es[0]);
      StepKeepsInv(t, es[0]);
      CalmRunIsHarmless(Next(t, es[0]), es[1..]);
    }
  }

  lemma CalmFromAnyLeftovers(db: Db, alive: set<Pid>, es: seq<Step>)
    requires Run(State(Sys(db, alive, map[]), map[]), es) && AllCalm(State(Sys(db, alive, map[]), map[]), es)
    ensures Exclusion(Final(State(Sys(db, alive, map[]), map[]), es))
  {
    var t := State(Sys(db, alive, map[]), map[]);
    assert Holders(t.sys, Readonly) == {};
    CalmRunIsHarmless(t, es);
    HarmlessRunIsSafe(t, es);
  }

  // ---------- each overlap alone breaks exclusion ----------

  const WANT := Obtain(Exclusive)
  const LOCKED := Row(true, false, 0)

  lemma Stop(t: State)
    ensures Run(t, []) && Final(t, []) == t
  {
  }

  /** One step in front of a run that is known already. */
  lemma Before(t: State, e: Step, t': State, es: seq<Step>, end: State)
    requires Possible(t, e) && Next(t, e) == t' && Run(t', es) && Final(t', es) == end
    ensures Run(t, [e] + es) && Final(t, [e] + es) == end
  {
    assert ([e] + es)[0] == e && ([e] + es)[1..] == es;
  }

  lemma TwoInserts(a: Pid, b: Pid, t: State, es: seq<Step>, end: State)
    requires a != b && t == State(Sys(Db(UNLOCKED, {}), {a, b}, map[a := Exclusive]), map[a := Inserting])
    requires es == [Ask(b, WANT), Insert(b), Insert(a)]
    requires end == State(Sys(Db(LOCKED, {a, b}), {a, b}, map[a := Exclusive, b := Exclusive]), map[])
    ensures Run(t, es) && Final(t, es) == end
  {
    var t1 := State(Sys(Db(LOCKED, {}), {a, b}, end.sys.held), map[a := Inserting, b := Inserting]);
    var t2 := State(Sys(Db(LOCKED, {b}), {a, b}, end.sys.held), map[a := Inserting]);
    Stop(end);
    Before(t2, Insert(a), end, [], end);
    Before(t1, Insert(b), t2, [Insert(a)], end);
    Before(t, Ask(b, WANT), t1, [Insert(b), Insert(a)], end);
    assert es == [Ask(b, WANT)] + ([Insert(b)] + ([Insert(a)] + []));
  }

  /** The first overlap: b looks at the pid table after the UPDATE of a and before its INSERT,
      finds nobody, and resets the row; both end up with the exclusive lock. */
  lemma CheckBeforeInsertBreaks(a: Pid, b: Pid) returns (t: State, es: seq<Step>)
    requires a != b
    ensures t == State(Sys(Db(UNLOCKED, {}), {a, b}, map[]), map[]) && Run(t, es)
    ensures es == [Ask(a, WANT), Ask(b, WANT), Check(b), Reset(b), Ask(b, WANT), Insert(b), Insert(a)]
    ensures Holding(Final(t, es)) == map[a := Exclusive, b := Exclusive]
  {
    t := State(Sys(Db(UNLOCKED, {}), {a, b}, map[]), map[]);
    var s := Sys(Db(LOCKED, {}), {a, b}, map[a := Exclusive]);
    var t1 := State(s, map[a := Inserting]);
    var t2 := State(s, map[a := Inserting, b := Refused(WANT)]);
    var t3 := State(s, map[a := Inserting, b := Resetting(WANT)]);
    var t4 := State(Sys(Db(UNLOCKED, {}), {a, b}, map[a := Exclusive]), map[a := Inserting]);
    var end := State(Sys(Db(LOCKED, {a, b}), {a, b}, map[a := Exclusive, b := Exclusive]), map[]);
    var rest := [Ask(b, WANT), Insert(b), Insert(a)];
    TwoInserts(a, b, t4, rest, end);
    Before(t3, Reset(b), t4, rest, end);
    Before(t2, Check(b), t3, [Reset(b)] + rest, end);
    Before(t1, Ask(b, WANT), t2, [Check(b)] + ([Reset(b)] + rest), end);
    Before(t, Ask(a, WANT), t1, [Ask(b, WANT)] + ([Check(b)] + ([Reset(b)] + rest)), end);
    es := [Ask(a, WANT)] + ([Ask(b, WANT)] + ([Check(b)] + ([Reset(b)] + rest)));
  }

  lemma ResetTooLate(a: Pid, b: Pid, t: State, es: seq<Step>, end: State)
    requires a != b && t == State(Sys(Db(UNLOCKED, {}), {a, b}, map[]), map[b := Resetting(WANT)])
    requires es == [Ask(a, WANT), Insert(a), Reset(b), Ask(b, WANT), Insert(b)]
    requires end == State(Sys(Db(LOCKED, {a, b}), {a, b}, map[a := Exclusive, b := Exclusive]), map[])
    ensures Run(t, es) && Final(t, es) == end
  {
    var held := map[a := Exclusive];
    var t1 := State(Sys(Db(LOCKED, {}), {a, b}, held), map[a := Inserting, b := Resetting(WANT)]);
    var t2 := State(Sys(Db(LOCKED, {a}), {a, b}, held), map[b := Resetting(WANT)]);
    var t3 := State(Sys(Db(UNLOCKED, {a}), {a, b}, held), map[]);
    var t4 := State(Sys(Db(LOCKED, {a}), {a, b}, end.sys.held), map[b := Inserting]);
    Stop(end);
    Before(t4, Insert(b), end, [], end);
    Before(t3, Ask(b, WANT), t4, [Insert(b)], end);
    Before(t2, Reset(b), t3, [Ask(b, WANT), Insert(b)], end);
    Before(t1, Insert(a), t2, [Reset(b), Ask(b, WANT), Insert(b)], end);
    Before(t, Ask(a, WANT), t1, [Insert(a), Reset(b), Ask(b, WANT), Insert(b)], end);
    assert es == [Ask(a, WANT)] + [Insert(a), Reset(b), Ask(b, WANT), Insert(b)];
  }

  /** The second overlap: a process died with the lock, a and b are both refused and find nobody,
      and b resets the row only after a has taken the lock; both end up with it. */
  lemma LateResetBreaks(a: Pid, b: Pid) returns (t: State, es: seq<Step>)
    requires a != b
    ensures t == State(Sys(Db(LOCKED, {}), {a, b}, map[]), map[]) && Run(t, es)
    ensures es == [Ask(a, WANT), Ask(b, WANT), Check(a), Check(b), Reset(a),
                   Ask(a, WANT), Insert(a), Reset(b), Ask(b, WANT), Insert(b)]
    ensures Holding(Final(t, es)) == map[a := Exclusive, b := Exclusive]
  {
    t := State(Sys(Db(LOCKED, {}), {a, b}, map[]), map[]);
    var s := t.sys;
    var t1 := State(s, map[a := Refused(WANT)]);
    var t2 := State(s, map[a := Refused(WANT), b := Refused(WANT)]);
    var t3 := State(s, map[a := Resetting(WANT), b := Refused(WANT)]);
    var t4 := State(s, map[a := Resetting(WANT), b := Resetting(WANT)]);
    var t5 := State(Sys(Db(UNLOCKED, {}), {a, b}, map[]), map[b := Resetting(WANT)]);
    var end := State(Sys(Db(LOCKED, {a, b}), {a, b}, map[a := Exclusive, b := Exclusive]), map[]);
    var rest := [Ask(a, WANT), Insert(a), Reset(b), Ask(b, WANT), Insert(b)];
    ResetTooLate(a, b, t5, rest, end);
    Before(t4, Reset(a), t5, rest, end);
    var r1 := [Reset(a)] + rest;
    Before(t3, Check(b), t4, r1, end);
    var r2 := [Check(b)] + r1;
    Before(t2, Check(a), t3, r2, end);
    var r3 := [Check(a)] + r2;
    Before(t1, Ask(b, WANT), t2, r3, end);
    var r4 := [Ask(b, WANT)] + r3;
    Before(t, Ask(a, WANT), t1, r4, end);
    es := [Ask(a, WANT)] + r4;
  }

  // ---------- an uninterrupted attempt ----------

  function Alone(s: Sys): State { State(s, map[]) }

  /** The steps of one iteration of pkgdb_try_lock when nobody else acts. */
  function Steps(s: Sys, p: Pid, q: Request): seq<Step> {
    if Guard(s.db.row, q) then [Ask(p, q)] + if q.Obtain? then [Insert(p)] else []
    else if OthersAlive(s.db.pids, p, s.alive) then [Ask(p, q), Check(p)]
    else [Ask(p, q), Check(p), Reset(p)] + if q.Obtain? then [] else [Remove(p)]
  }

  /** Left alone, the statements of an attempt do what the whole attempt does. */
  lemma AttemptIsSteps(s: Sys, p: Pid, q: Request)
    requires Enabled(s, Try(p, q))
    ensures Run(Alone(s), Steps(s, p, q))
    ensures Final(Alone(s), Steps(s, p, q)) == Alone(Tried(s, p, q))
  {
    var end := Alone(Tried(s, p, q));
    var t1 := Next(Alone(s), Ask(p, q));
    Stop(end);
    if Guard(s.db.row, q) {
      if q.Obtain? {
        assert Next(t1, Insert(p)) == end;
        Before(t1, Insert(p), Next(t1, Insert(p)), [], end);
      }
    } else {
      var t2 := Next(t1, Check(p));
      if OthersAlive(s.db.pids, p, s.alive) {
        assert t2 == end;
        Before(t1, Check(p), Next(t1, Check(p)), [], end);
      } else {
        var t3 := Next(t2, Reset(p));
        if q.Obtain? {
          assert t3 == end;
        } else {
          assert Next(t3, Remove(p)) == end;
          Before(t3, Remove(p), Next(t3, Remove(p)), [], end);
        }
        Before(t2, Reset(p), Next(t2, Reset(p)), if q.Obtain? then [] else [Remove(p)], end);
        Before(t1, Check(p), Next(t1, Check(p)), [Reset(p)] + if q.Obtain? then [] else [Remove(p)], end);
      }
    }
    Before(Alone(s), Ask(p, q), Next(Alone(s), Ask(p, q)), Steps(s, p, q)[1..], end);
  }
}
