/** Many processes on one lock database (libpkg/pkgdb.c): every attempt, release, crash and
    start of a process is one step, and the steps interleave freely. */
module LockProtocol {
  import opened LockDb

  /** `alive` are the running processes, `held` the lock each of them believes it has. */
  datatype Sys = Sys(db: Db, alive: set<Pid>, held: map<Pid, LockType>)

  datatype Event =
    | Try(p: Pid, request: Request)
    | Free(p: Pid)
    | Crash(p: Pid)
    | Spawn(p: Pid)

  /** The discipline: ask for a lock only without one, upgrade an advisory lock, downgrade an
      exclusive one, release what is held. A crash may happen at any time, and pids are reused. */
  predicate Enabled(s: Sys, e: Event) {
    match e
    case Try(p, Obtain(_)) => p in s.alive && p !in s.held
    case Try(p, Upgrade) => p in s.alive && p in s.held && s.held[p] == Advisory
    case Try(p, Downgrade) => p in s.alive && p in s.held && s.held[p] == Exclusive
    case Free(p) => p in s.alive && p in s.held
    case Crash(p) => p in s.alive
    case Spawn(p) => p !in s.alive
  }

  function Target(q: Request): LockType {
    match q
    case Obtain(kind) => kind
    case Upgrade => Exclusive
    case Downgrade => Advisory
  }

  function Tried(s: Sys, p: Pid, q: Request): Sys {
    var (db, outcome) := Attempt(s.db, q, p, s.alive);
    match outcome
    case Granted => s.(db := db, held := s.held[p := Target(q)])
    case StartOver => s.(db := db, held := s.held - {p})
    case _ => s.(db := db)
  }

  function Freed(s: Sys, p: Pid, kind: LockType): Sys {
    s.(db := Release(s.db, kind, p), held := s.held - {p})
  }

  function Step(s: Sys, e: Event): Sys
    requires Enabled(s, e)
  {
    match e
    case Try(p, q) => Tried(s, p, q)
    case Free(p) => Freed(s, p, s.held[p])
    case Crash(p) => s.(alive := s.alive - {p}, held := s.held - {p})
    case Spawn(p) => s.(alive := s.alive + {p})
  }

  predicate Run(s: Sys, es: seq<Event>)
    decreases es
  {
    es == [] || (Enabled(s, es[0]) && Run(Step(s, es[0]), es[1..]))
  }

  function Final(s: Sys, es: seq<Event>): Sys
    requires Run(s, es)
    decreases es
  {
    if es == [] then s else Final(Step(s, es[0]), es[1..])
  }

  // ---------- what the lock promises ----------

  function Holders(s: Sys, kind: LockType): set<Pid> {
    set p | p in s.held && s.held[p] == kind
  }

  /** An exclusive lock is the only lock, and there is at most one advisory lock. */
  predicate Safe(s: Sys) {
    && (forall p, q :: p in s.held && q in s.held && s.held[p] == Exclusive ==> p == q)
    && (forall p, q :: p in s.held && q in s.held && s.held[p] == Advisory && s.held[q] == Advisory ==> p == q)
  }

  /** The row accounts for every live holder; it may account for more, left behind by processes
      that died. */
  predicate Covered(s: Sys) {
    && (forall p :: p in s.held && s.held[p] == Exclusive ==> s.db.row.exclusive)
    && (forall p :: p in s.held && s.held[p] == Advisory ==> s.db.row.advisory)
    && |Holders(s, Readonly)| <= s.db.row.read
  }

  /** So does the pid table. */
  predicate Recorded(s: Sys) {
    Covered(s) && forall p :: p in s.held ==> p in s.alive && p in s.db.pids
  }

  predicate Inv(s: Sys) {
    Safe(s) && Recorded(s)
  }

  // ---------- proofs ----------

  lemma NoReaders(s: Sys)
    requires Covered(s) && s.db.row.read == 0
    ensures forall p :: p in s.held ==> s.held[p] != Readonly
  {
    forall p | p in s.held ensures s.held[p] != Readonly {
      assert p !in Holders(s, Readonly);
    }
  }

  /** A reset never takes a lock away from another live process. */
  lemma ResetFindsNoOtherHolder(s: Sys, p: Pid, q: Request)
    requires Inv(s) && Attempt(s.db, q, p, s.alive).1 in {WasReset, StartOver}
    ensures s.held.Keys <= {p}
  {
    forall h | h in s.held ensures h == p {
      assert h in s.db.pids && h in s.alive;
    }
  }

  /** Losing holders keeps the promise as long as the row still covers the rest. */
  lemma FewerHolders(s: Sys, t: Sys, p: Pid)
    requires Safe(s) && Covered(s) && t.held == s.held - {p}
    requires forall h :: h in t.held && t.held[h] == Exclusive ==> t.db.row.exclusive
    requires forall h :: h in t.held && t.held[h] == Advisory ==> t.db.row.advisory
    requires t.db.row.read >= s.db.row.read ||
      (p in s.held && s.held[p] == Readonly && t.db.row.read + 1 == s.db.row.read)
    ensures Safe(t) && Covered(t)
  {
    assert Holders(t, Readonly) == Holders(s, Readonly) - {p};
  }

  /** The guard of a request leaves room for the lock it asks for. */
  lemma GuardLeavesRoom(s: Sys, p: Pid, q: Request)
    requires Safe(s) && Covered(s) && Enabled(s, Try(p, q)) && Guard(s.db.row, q)
    ensures forall h :: h in s.held && h != p ==> s.held[h] != Exclusive
    ensures Target(q) == Exclusive ==> s.held.Keys <= {p}
    ensures Target(q) == Advisory ==> forall h :: h in s.held && h != p ==> s.held[h] == Readonly
  {
    if s.db.row.read == 0 {
      NoReaders(s);
    }
  }

  /** How many readers there are once p holds `kind`. */
  lemma ReadersAfter(s: Sys, t: Sys, p: Pid, kind: LockType)
    requires t.held == s.held[p := kind]
    ensures |Holders(t, Readonly)| <= |Holders(s, Readonly)| + if kind == Readonly then 1 else 0
  {
    if kind == Readonly {
      assert Holders(t, Readonly) == Holders(s, Readonly) + {p};
    } else {
      assert Holders(t, Readonly) == Holders(s, Readonly) - {p};
    }
  }

  /** An UPDATE that changed the row made room for its process. */
  lemma UpdateMakesRoom(s: Sys, t: Sys, p: Pid, q: Request)
    requires Safe(s) && Covered(s) && Enabled(s, Try(p, q)) && Guard(s.db.row, q)
    requires t.held == s.held[p := Target(q)] && t.db.row == Updated(s.db.row, q)
    ensures Safe(t) && Covered(t)
  {
    GuardLeavesRoom(s, p, q);
    ReadersAfter(s, t, p, Target(q));
  }

  lemma RefusedKeepsInv(s: Sys, p: Pid, q: Request)
    requires Inv(s) && Enabled(s, Try(p, q)) && Attempt(s.db, q, p, s.alive).1 != Granted
    ensures Inv(Tried(s, p, q))
  {
    var t := Tried(s, p, q);
    if Attempt(s.db, q, p, s.alive).1 in {WasReset, StartOver} {
      ResetFindsNoOtherHolder(s, p, q);
      assert t.held == map[];
      assert Holders(t, Readonly) == {};
    } else {
      assert Holders(t, Readonly) == Holders(s, Readonly);
    }
  }

  lemma StepKeepsInv(s: Sys, e: Event)
    requires Inv(s) && Enabled(s, e)
    ensures Inv(Step(s, e))
  {
    match e
    case Try(p, q) =>
      if Attempt(s.db, q, p, s.alive).1 == Granted {
        UpdateMakesRoom(s, Tried(s, p, q), p, q);
      } else {
        RefusedKeepsInv(s, p, q);
      }
    case Free(p) =>
      assert s.held[p] == Readonly ==> p in Holders(s, Readonly);
      FewerHolders(s, Step(s, e), p);
    case Crash(p) =>
      FewerHolders(s, Step(s, e), p);
    case Spawn(p) =>
      assert Holders(Step(s, e), Readonly) == Holders(s, Readonly);
  }

  /** Whatever row and pid table earlier processes left behind, no run of the protocol lets two
      processes hold conflicting locks. */
  lemma {:induction false} EveryRunIsSafe(s: Sys, es: seq<Event>)
    requires Inv(s) && Run(s, es)
    ensures Inv(Final(s, es))
    decreases es
  {
    if es != [] {
      StepKeepsInv(s, es[0]);
      EveryRunIsSafe(Step(s, es[0]), es[1..]);
    }
  }

  lemma FromAnyLeftovers(db: Db, alive: set<Pid>, es: seq<Event>)
    requires Run(Sys(db, alive, map[]), es)
    ensures Safe(Final(Sys(db, alive, map[]), es))
  {
    assert Holders(Sys(db, alive, map[]), Readonly) == {};
    EveryRunIsSafe(Sys(db, alive, map[]), es);
  }

  // ---------- a release outside the discipline ----------

  /** When may a process that holds nothing run a release? Exactly when nobody holds that kind,
      or, for readers, when the row counts more readers than there are. */
  predicate Spare(s: Sys, kind: LockType) {
    if kind == Readonly then
      Holders(s, Readonly) == {} || |Holders(s, Readonly)| < s.db.row.read
    else
      Holders(s, kind) == {}
  }

  lemma ExtraReleaseHarmlessIffSpare(s: Sys, p: Pid, kind: LockType)
    requires Inv(s) && p !in s.held
    ensures Inv(Freed(s, p, kind)) <==> Spare(s, kind)
  {
    var t := Freed(s, p, kind);
    assert t.held == s.held;
    assert forall k :: Holders(t, k) == Holders(s, k);
    if kind != Readonly && Holders(s, kind) != {} {
      var h :| h in Holders(s, kind);
      assert h in t.held && t.held[h] == kind;
    }
  }

  // ---------- what such a release can lead to ----------

  ghost predicate MayBreak(s: Sys) {
    exists es :: Run(s, es) && !Safe(Final(s, es))
  }

  lemma BreaksAfter(s: Sys, e: Event)
    requires Enabled(s, e) && MayBreak(Step(s, e))
    ensures MayBreak(s)
  {
    var es :| Run(Step(s, e), es) && !Safe(Final(Step(s, e), es));
    assert ([e] + es)[0] == e && ([e] + es)[1..] == es;
    assert Run(s, [e] + es) && Final(s, [e] + es) == Final(Step(s, e), es);
  }

  lemma UnsafeIsBroken(s: Sys)
    requires !Safe(s)
    ensures MayBreak(s)
  {
    assert Run(s, []) && Final(s, []) == s;
  }

  lemma {:induction false} FreshPid(pids: set<Pid>) returns (z: Pid)
    ensures z !in pids && forall p :: p in pids ==> p < z
  {
    if pids == {} {
      z := 0;
    } else {
      var p :| p in pids;
      var y := FreshPid(pids - {p});
      z := if p < y then y else p + 1;
      assert forall q :: q in pids ==> q == p || q in pids - {p};
    }
  }

  /** While the exclusive flag is set every holder has the exclusive lock. */
  predicate FlagIsExclusive(s: Sys) {
    s.db.row.exclusive ==> forall p :: p in s.held ==> s.held[p] == Exclusive
  }

  lemma StepKeepsFlag(s: Sys, e: Event)
    requires Inv(s) && FlagIsExclusive(s) && Enabled(s, e)
    ensures FlagIsExclusive(Step(s, e))
  {
    match e
    case Try(p, q) =>
      if Guard(s.db.row, q) {
        GuardLeavesRoom(s, p, q);
      }
    case _ =>
  }

  lemma {:induction false} EveryRunKeepsFlag(s: Sys, es: seq<Event>)
    requires Inv(s) && FlagIsExclusive(s) && Run(s, es)
    ensures FlagIsExclusive(Final(s, es))
    decreases es
  {
    if es != [] {
      StepKeepsInv(s, es[0]);
      StepKeepsFlag(s, es[0]);
      EveryRunKeepsFlag(Step(s, es[0]), es[1..]);
    }
  }

  /** A new process gets the lock of the given kind next to the live holder h. */
  lemma NewcomerBreaks(s: Sys, h: Pid, kind: LockType)
    requires h in s.held && Guard(s.db.row, Obtain(kind))
    requires s.held[h] == Exclusive || kind == Exclusive || (s.held[h] == Advisory && kind == Advisory)
    ensures MayBreak(s)
  {
    var z := FreshPid(s.alive + s.db.pids + s.held.Keys);
    var s1 := Step(s, Spawn(z));
    var s2 := Step(s1, Try(z, Obtain(kind)));
    assert z in s2.held && h in s2.held && s2.held[z] == kind && s2.held[h] == s.held[h];
    UnsafeIsBroken(s2);
    BreaksAfter(s1, Try(z, Obtain(kind)));
    BreaksAfter(s, Spawn(z));
  }

  /** More readers than the row counts, and nothing that would hold off an exclusive lock. */
  ghost predicate Uncounted(s: Sys) {
    && !s.db.row.exclusive && (s.db.row.advisory ==> Holders(s, Advisory) != {})
    && |Holders(s, Readonly)| == s.db.row.read + 1
    && (forall p :: p in s.held ==> p in s.alive)
  }

  /** The counted readers leave, and somebody gets an exclusive lock next to the one that is not counted. */
  lemma {:induction false} UncountedReaderBreaks(s: Sys)
    requires Uncounted(s)
    ensures MayBreak(s)
    decreases s.db.row.read
  {
    var h :| h in Holders(s, Readonly);
    if s.db.row.read > 0 {
      var s1 := Step(s, Free(h));
      assert Holders(s1, Readonly) == Holders(s, Readonly) - {h};
      assert Holders(s1, Advisory) == Holders(s, Advisory);
      UncountedReaderBreaks(s1);
      BreaksAfter(s, Free(h));
    } else if s.db.row.advisory {
      var a :| a in Holders(s, Advisory);
      var s1 := Step(s, Try(a, Upgrade));
      assert s1.held[a] == Exclusive && h in s1.held && h != a;
      UnsafeIsBroken(s1);
      BreaksAfter(s, Try(a, Upgrade));
    } else {
      NewcomerBreaks(s, h, Exclusive);
    }
  }

  /** Only readers, behind an advisory flag that nobody can clear while one of them is alive. */
  predicate HeldOff(s: Sys) {
    && s.db.row.advisory && !s.db.row.exclusive
    && forall p :: p in s.held ==> s.held[p] == Readonly && p in s.alive && p in s.db.pids
  }

  lemma HeldOffStays(s: Sys, e: Event)
    requires HeldOff(s) && Enabled(s, e)
    ensures HeldOff(Step(s, e)) || Inv(Step(s, e))
  {
    if e.Try? && Attempt(s.db, e.request, e.p, s.alive).1 == WasReset {
      HeldOffResetFindsNobody(s, e.p, e.request);
      assert Holders(Step(s, e), Readonly) == {};
    }
  }

  lemma HeldOffResetFindsNobody(s: Sys, p: Pid, q: Request)
    requires HeldOff(s) && Enabled(s, Try(p, q)) && Attempt(s.db, q, p, s.alive).1 == WasReset
    ensures s.held == map[]
  {
    assert forall h :: h in s.held ==> h in s.db.pids && h in s.alive && h != p;
  }

  lemma {:induction false} HeldOffRunIsSafe(s: Sys, es: seq<Event>)
    requires (HeldOff(s) || Inv(s)) && Run(s, es)
    ensures Safe(Final(s, es))
    decreases es
  {
    if Inv(s) {
      EveryRunIsSafe(s, es);
    } else if es != [] {
      HeldOffStays(s, es[0]);
      HeldOffRunIsSafe(Step(s, es[0]), es[1..]);
    }
  }

  /** A release by a process that holds nothing can end in two conflicting locks exactly when it takes the
      record of a live holder away; for a reader only if no advisory flag was left behind, since a stale one
      holds off every other lock. */
  lemma ExtraReleaseMayBreakIff(s: Sys, p: Pid, kind: LockType)
    requires Inv(s) && FlagIsExclusive(s) && p !in s.held
    ensures MayBreak(Freed(s, p, kind)) <==>
      !Spare(s, kind) && (kind == Readonly && s.db.row.advisory ==> Holders(s, Advisory) != {})
  {
    var t := Freed(s, p, kind);
    assert t.held == s.held && forall k :: Holders(t, k) == Holders(s, k);
    ExtraReleaseHarmlessIffSpare(s, p, kind);
    if Spare(s, kind) {
      forall es | Run(t, es) ensures Safe(Final(t, es)) {
        EveryRunIsSafe(t, es);
      }
    } else if kind == Readonly {
      LostReader(s, t, p);
    } else {
      var h :| h in Holders(s, kind);
      NewcomerBreaks(t, h, if kind == Exclusive then Readonly else Advisory);
    }
  }

  lemma LostReader(s: Sys, t: Sys, p: Pid)
    requires Inv(s) && FlagIsExclusive(s) && p !in s.held && !Spare(s, Readonly) && t == Freed(s, p, Readonly)
    ensures MayBreak(t) <==> (s.db.row.advisory ==> Holders(s, Advisory) != {})
  {
    assert t.held == s.held && forall k :: Holders(t, k) == Holders(s, k);
    var h :| h in Holders(s, Readonly);
    assert h in s.held && s.held[h] == Readonly && !s.db.row.exclusive;
    assert s.db.row.read > 0 by {
      if s.db.row.read == 0 { NoReaders(s); }
    }
    if s.db.row.advisory && Holders(s, Advisory) == {} {
      forall q | q in t.held ensures t.held[q] == Readonly {
        assert q !in Holders(s, Advisory);
      }
      assert HeldOff(t);
      forall es | Run(t, es) ensures Safe(Final(t, es)) {
        HeldOffRunIsSafe(t, es);
      }
    } else {
      UncountedReaderBreaks(t);
    }
  }

  /** autoremove obtains an advisory lock, upgrades it, releases the exclusive lock, and releases
      the advisory lock once more at its end. When another process took the advisory lock in
      between, that last release frees it, and a third process gets the same lock. */
  lemma SecondAdvisoryReleaseBreaksExclusion(a: Pid, b: Pid, c: Pid)
    requires a != b && b != c && a != c
    ensures
      var s0 := Sys(Db(UNLOCKED, {}), {a, b, c}, map[]);
      var before := [Try(a, Obtain(Advisory)), Try(a, Upgrade), Free(a),
                     Try(b, Obtain(Advisory)), Try(b, Obtain(Advisory))];
      && Run(s0, before)
      && a !in Final(s0, before).held
      && var s1 := Freed(Final(s0, before), a, Advisory);
         && Enabled(s1, Try(c, Obtain(Advisory)))
         && {b, c} <= Holders(Step(s1, Try(c, Obtain(Advisory))), Advisory)
  {
    var s0 := Sys(Db(UNLOCKED, {}), {a, b, c}, map[]);
    var e1, e2, e3, e4 := Try(a, Obtain(Advisory)), Try(a, Upgrade), Free(a), Try(b, Obtain(Advisory));
    var t1 := Step(s0, e1);
    assert t1 == Sys(Db(Row(false, true, 0), {a}), {a, b, c}, map[a := Advisory]);
    var t2 := Step(t1, e2);
    assert t2 == Sys(Db(Row(true, true, 0), {a}), {a, b, c}, map[a := Exclusive]);
    var t3 := Step(t2, e3);
    assert t3 == Sys(Db(Row(false, true, 0), {}), {a, b, c}, map[]);
    var t4 := Step(t3, e4);
    assert t4 == Sys(Db(UNLOCKED, {}), {a, b, c}, map[]);
    var t5 := Step(t4, e4);
    assert t5 == Sys(Db(Row(false, true, 0), {b}), {a, b, c}, map[b := Advisory]);
    FiveSteps(s0, t1, t2, t3, t4, t5, e1, e2, e3, e4);
  }

  lemma FiveSteps(s: Sys, t1: Sys, t2: Sys, t3: Sys, t4: Sys, t5: Sys, e1: Event, e2: Event, e3: Event, e4: Event)
    requires Enabled(s, e1) && t1 == Step(s, e1)
    requires Enabled(t1, e2) && t2 == Step(t1, e2)
    requires Enabled(t2, e3) && t3 == Step(t2, e3)
    requires Enabled(t3, e4) && t4 == Step(t3, e4)
    requires Enabled(t4, e4) && t5 == Step(t4, e4)
    ensures Run(s, [e1, e2, e3, e4, e4]) && Final(s, [e1, e2, e3, e4, e4]) == t5
  {
    var es := [e1, e2, e3, e4, e4];
    assert es[1..] == [e2, e3, e4, e4] && es[1..][1..] == [e3, e4, e4];
    assert [e3, e4, e4][1..] == [e4, e4] && [e4, e4][1..] == [e4] && [e4][1..] == [];
    assert Run(t4, [e4]) && Final(t4, [e4]) == t5;
    assert Run(t3, [e4, e4]) && Final(t3, [e4, e4]) == t5;
    assert Run(t2, [e3, e4, e4]) && Final(t2, [e3, e4, e4]) == t5;
    assert Run(t1, [e2, e3, e4, e4]) && Final(t1, [e2, e3, e4, e4]) == t5;
  }
}
