/** Which automatically installed packages are no longer needed
    (libpkg/pkg_jobs.c, pkg_jobs_test_automatic and jobs_solve_autoremove). */
module Autoremove {
  import opened Lists
  import opened Packages
  import opened Jobs
  import opened Universe

  /** Reverse dependencies are installed packages. */
  ghost predicate Resolvable(db: Db) {
    forall q, d :: q in db.local && d in db.local[q].rdeps ==> d in db.local
  }

  /** A way up through reverse dependencies. */
  ghost predicate WayUp(db: Db, path: seq<Uid>) {
    && path != []
    && (forall i :: 0 <= i < |path| ==> path[i] in db.local)
    && (forall i: nat | i + 1 < |path| :: OneUp(db, path, i))
  }

  ghost predicate OneUp(db: Db, path: seq<Uid>, i: nat)
    requires i + 1 < |path|
  {
    path[i] in db.local && path[i + 1] in db.local[path[i]].rdeps
  }

  /** Every package that needs this one, however indirectly, was installed automatically. */
  ghost predicate Unneeded(db: Db, uid: Uid) {
    forall path :: WayUp(db, path) && |path| > 1 && path[0] == uid ==> db.local[path[|path| - 1]].automatic
  }

  /** A reverse dependency that does not keep a package. */
  ghost predicate Harmless(db: Db, d: Uid) {
    d in db.local && db.local[d].automatic && Unneeded(db, d)
  }

  /** Unneeded, one step at a time. */
  lemma UnneededStep(db: Db, uid: Uid)
    requires uid in db.local && forall d :: d in db.local[uid].rdeps ==> d in db.local
    ensures Unneeded(db, uid) <==>
      forall d :: d in db.local[uid].rdeps ==> Harmless(db, d)
  {
    if Unneeded(db, uid) {
      forall d | d in db.local[uid].rdeps ensures Harmless(db, d) {
        assert WayUp(db, [uid, d]);
        forall path | WayUp(db, path) && |path| > 1 && path[0] == d ensures db.local[path[|path| - 1]].automatic {
          LongerWay(db, uid, path);
        }
      }
    }
    if forall d :: d in db.local[uid].rdeps ==> Harmless(db, d) {
      forall path | WayUp(db, path) && |path| > 1 && path[0] == uid ensures db.local[path[|path| - 1]].automatic {
        assert OneUp(db, path, 0) && Harmless(db, path[1]);
        if |path| > 2 { ShorterWay(db, path); }
      }
    }
  }

  lemma LongerWay(db: Db, uid: Uid, path: seq<Uid>)
    requires WayUp(db, path) && uid in db.local && path[0] in db.local[uid].rdeps
    ensures WayUp(db, [uid] + path)
  {
    var longer := [uid] + path;
    forall i: nat | i + 1 < |longer| ensures OneUp(db, longer, i) {
      if i > 0 { assert OneUp(db, path, i - 1); }
    }
  }

  lemma ShorterWay(db: Db, path: seq<Uid>)
    requires WayUp(db, path) && |path| > 1
    ensures WayUp(db, path[1..])
  {
    var rest := path[1..];
    forall i: nat | i + 1 < |rest| ensures OneUp(db, rest, i) {
      assert OneUp(db, path, i + 1);
    }
  }

  /** The head of a chain of an autoremove universe is the installed package itself. */
  lemma HeadIsLocal(u: Universe, uid: Uid)
    requires u.Ready() && IsDelete(u.c.kind) && uid in u.chains
    ensures uid in u.c.db.local && u.chains[uid][0].pkg == u.c.db.local[uid]
  {
    assert Table.ChainOf(uid, u.T().chains[uid]);
    var x := u.chains[uid][0];
    assert u.T().Has(x) && x.pkg in u.c.db.Packages();
  }

  // ---------- the walk of pkg_jobs_test_automatic ----------

  /** An answer, or none within the calls allowed. */
  datatype Answer = Yes | No | Deeper {
    predicate Told() { !Deeper? }
  }

  function Is(r: bool): Answer { if r then Yes else No }

  /** What the recursion answers when it may go n calls deep; Deeper when that is not enough. */
  ghost function Walk(db: Db, uid: Uid, n: nat): Answer
    requires Resolvable(db) && uid in db.local
    decreases n, 0
  {
    if n == 0 then Deeper else WalkFrom(db, uid, 0, n - 1)
  }

  /** The loop over the reverse dependencies from position i on. */
  ghost function WalkFrom(db: Db, uid: Uid, i: nat, n: nat): Answer
    requires Resolvable(db) && uid in db.local && i <= |db.local[uid].rdeps|
    decreases n, |db.local[uid].rdeps| - i + 1
  {
    if i == |db.local[uid].rdeps| then Yes
    else
      var d := db.local[uid].rdeps[i];
      if !db.local[d].automatic then No
      else
        var r := Walk(db, d, n);
        if r == Yes then WalkFrom(db, uid, i + 1, n) else r
  }

  /** The recursion comes to an end. */
  ghost predicate Ends(db: Db, uid: Uid)
    requires Resolvable(db) && uid in db.local
  {
    exists n: nat :: Walk(db, uid, n).Told()
  }

  /** When the recursion ends it tells exactly whether the package is unneeded, on any graph. */
  lemma {:induction false} WalkIsUnneeded(db: Db, uid: Uid, n: nat)
    requires Resolvable(db) && uid in db.local && Walk(db, uid, n).Told()
    ensures Walk(db, uid, n).Yes? <==> Unneeded(db, uid)
    decreases n, 0
  {
    WalkFromIsHarmless(db, uid, 0, n - 1);
    UnneededStep(db, uid);
    var rdeps := db.local[uid].rdeps;
    assert forall d :: d in rdeps <==> exists k :: 0 <= k < |rdeps| && rdeps[k] == d;
  }

  lemma {:induction false} WalkFromIsHarmless(db: Db, uid: Uid, i: nat, n: nat)
    requires Resolvable(db) && uid in db.local && i <= |db.local[uid].rdeps| && WalkFrom(db, uid, i, n).Told()
    ensures WalkFrom(db, uid, i, n).Yes? <==>
      forall k :: i <= k < |db.local[uid].rdeps| ==> Harmless(db, db.local[uid].rdeps[k])
    decreases n, |db.local[uid].rdeps| - i + 1
  {
    var rdeps := db.local[uid].rdeps;
    if i < |rdeps| && db.local[rdeps[i]].automatic {
      WalkIsUnneeded(db, rdeps[i], n);
      if Walk(db, rdeps[i], n) == Yes {
        WalkFromIsHarmless(db, uid, i + 1, n);
      }
    }
  }

  // ---------- when the walk ends ----------

  /** The recursion for q goes on to its reverse dependency number k: it is automatic, and all
      before it are harmless. */
  ghost predicate ExploresAt(db: Db, q: Uid, d: Uid, k: nat)
    requires Resolvable(db)
  {
    && q in db.local && k < |db.local[q].rdeps| && db.local[q].rdeps[k] == d && db.local[d].automatic
    && forall j :: 0 <= j < k ==> Harmless(db, db.local[q].rdeps[j])
  }

  ghost predicate Explores(db: Db, q: Uid, d: Uid)
    requires Resolvable(db)
  {
    exists k :: ExploresAt(db, q, d, k)
  }

  /** A chain of calls. */
  ghost predicate Calls(db: Db, path: seq<Uid>)
    requires Resolvable(db)
  {
    && path != [] && path[0] in db.local
    && forall i: nat | i + 1 < |path| :: OneCall(db, path, i)
  }

  ghost predicate OneCall(db: Db, path: seq<Uid>, i: nat)
    requires Resolvable(db) && i + 1 < |path|
  {
    Explores(db, path[i], path[i + 1])
  }

  /** A way through reverse dependencies, with only harmless ones before it at every step, comes back to
      a package it has passed. */
  ghost predicate Returns(db: Db, uid: Uid)
    requires Resolvable(db)
  {
    exists path :: Calls(db, path) && path[0] == uid && !Distinct(path)
  }

  /** A recursion that ends within n + 1 calls ends within n calls from whatever it explores. */
  lemma ExploredEnds(db: Db, q: Uid, d: Uid, n: nat)
    requires Resolvable(db) && q in db.local && Walk(db, q, n).Told() && Explores(db, q, d)
    ensures n > 0 && d in db.local && Walk(db, d, n - 1).Told()
  {
    var k :| ExploresAt(db, q, d, k);
    ReachesPosition(db, q, d, k, 0, n - 1);
  }

  lemma {:induction false} ReachesPosition(db: Db, q: Uid, d: Uid, k: nat, i: nat, n: nat)
    requires Resolvable(db) && ExploresAt(db, q, d, k) && i <= k && WalkFrom(db, q, i, n).Told()
    ensures Walk(db, d, n).Told()
    decreases k - i
  {
    if i < k {
      var e := db.local[q].rdeps[i];
      assert Harmless(db, e);
      WalkIsUnneeded(db, e, n);
      ReachesPosition(db, q, d, k, i + 1, n);
    }
  }

  /** Along a chain of calls the number of calls left shrinks. */
  lemma {:induction false} CallsUseUp(db: Db, path: seq<Uid>, n: nat) returns (m: nat)
    requires Resolvable(db) && Calls(db, path) && Walk(db, path[0], n).Told()
    ensures m + |path| == n + 1 && path[|path| - 1] in db.local && Walk(db, path[|path| - 1], m).Told()
    decreases |path|
  {
    if |path| == 1 {
      m := n;
    } else {
      assert OneCall(db, path, 0);
      ExploredEnds(db, path[0], path[1], n);
      RestCalls(db, path);
      m := CallsUseUp(db, path[1..], n - 1);
    }
  }

  lemma RestCalls(db: Db, path: seq<Uid>)
    requires Resolvable(db) && Calls(db, path) && |path| > 1
    ensures Calls(db, path[1..])
  {
    var rest := path[1..];
    assert OneCall(db, path, 0);
    forall i: nat | i + 1 < |rest| ensures OneCall(db, rest, i) {
      assert OneCall(db, path, i + 1);
    }
  }

  lemma PartCalls(db: Db, path: seq<Uid>, i: nat, k: nat)
    requires Resolvable(db) && Calls(db, path) && i < k < |path|
    ensures Calls(db, path[i..k + 1])
  {
    var part := path[i..k + 1];
    assert OneCall(db, path, i);
    forall m: nat | m + 1 < |part| ensures OneCall(db, part, m) {
      assert OneCall(db, path, i + m);
    }
  }

  /** A cycle of calls never ends. */
  lemma {:induction false} NoEndOnCycle(db: Db, path: seq<Uid>, n: nat)
    requires Resolvable(db) && Calls(db, path) && |path| > 1 && path[0] == path[|path| - 1]
    ensures Walk(db, path[0], n).Deeper?
  {
    if Walk(db, path[0], n).Told() {
      var m := CallsUseUp(db, path, n);
      NoEndOnCycle(db, path, m);
    }
  }

  lemma EndsMeansNoReturn(db: Db, uid: Uid)
    requires Resolvable(db) && uid in db.local && Ends(db, uid)
    ensures !Returns(db, uid)
  {
    if Returns(db, uid) {
      var path :| Calls(db, path) && path[0] == uid && !Distinct(path);
      var i, k :| 0 <= i < k < |path| && path[i] == path[k];
      var n :| Walk(db, uid, n).Told();
      if i > 0 {
        PartCalls(db, path, 0, i);
        n := CallsUseUp(db, path[0..i + 1], n);
      }
      PartCalls(db, path, i, k);
      NoEndOnCycle(db, path[i..k + 1], n);
    }
  }

  /** When n calls are not enough there is a chain of n calls below the first. */
  lemma {:induction false} DeepCalls(db: Db, uid: Uid, n: nat) returns (path: seq<Uid>)
    requires Resolvable(db) && uid in db.local && Walk(db, uid, n).Deeper?
    ensures Calls(db, path) && path[0] == uid && |path| == n + 1
    decreases n
  {
    if n == 0 {
      path := [uid];
    } else {
      var k := StuckAt(db, uid, 0, n - 1);
      var d := db.local[uid].rdeps[k];
      var rest := DeepCalls(db, d, n - 1);
      path := [uid] + rest;
      assert Explores(db, uid, d);
      forall i: nat | i + 1 < |path| ensures OneCall(db, path, i) {
        if i > 0 {
          var h: nat := i - 1;
          assert OneCall(db, rest, h);
        }
      }
    }
  }

  lemma {:induction false} StuckAt(db: Db, uid: Uid, i: nat, n: nat) returns (k: nat)
    requires Resolvable(db) && uid in db.local && i <= |db.local[uid].rdeps| && WalkFrom(db, uid, i, n).Deeper?
    requires forall j :: 0 <= j < i ==> Harmless(db, db.local[uid].rdeps[j])
    ensures k < |db.local[uid].rdeps|
    ensures ExploresAt(db, uid, db.local[uid].rdeps[k], k) && Walk(db, db.local[uid].rdeps[k], n).Deeper?
    decreases |db.local[uid].rdeps| - i
  {
    var d := db.local[uid].rdeps[i];
    if Walk(db, d, n).Deeper? {
      k := i;
    } else {
      WalkIsUnneeded(db, d, n);
      assert Harmless(db, d);
      k := StuckAt(db, uid, i + 1, n);
    }
  }

  lemma {:induction false} DistinctIsSmall(path: seq<Uid>, all: set<Uid>)
    requires Distinct(path) && forall q :: q in path ==> q in all
    ensures |path| <= |all|
  {
    if path != [] {
      var last := path[|path| - 1];
      assert last in path;
      DistinctIsSmall(path[..|path| - 1], all - {last});
    }
  }

  lemma CalledAreInstalled(db: Db, path: seq<Uid>)
    requires Resolvable(db) && Calls(db, path)
    ensures forall q :: q in path ==> q in db.local
  {
    forall i | 0 <= i < |path| ensures path[i] in db.local {
      if i > 0 {
        var h: nat := i - 1;
        assert OneCall(db, path, h);
      }
    }
  }

  /** The recursion ends exactly when no such way through automatic packages comes back on itself. A cycle
      of reverse dependencies does no harm as long as a package that is not harmless is met before the
      cycle is closed. */
  lemma EndsIffNoReturn(db: Db, uid: Uid)
    requires Resolvable(db) && uid in db.local
    ensures Ends(db, uid) <==> !Returns(db, uid)
  {
    if Ends(db, uid) {
      EndsMeansNoReturn(db, uid);
    } else {
      var path := DeepCalls(db, uid, |db.local.Keys|);
      CalledAreInstalled(db, path);
      if Distinct(path) {
        DistinctIsSmall(path, db.local.Keys);
      }
    }
  }

  const FIRST := Pkg("a", "d0", "1", true, false, true, [], ["b"], [], [])
  const SECOND := Pkg("b", "d1", "1", true, false, true, [], ["a"], [], [])

  /** Two automatic packages that need each other. */
  function Mutual(): Db {
    Db(map["a" := FIRST, "b" := SECOND], map[], map[], (x: Pkg, y: Pkg) => false)
  }

  /** For them the recursion has no end. */
  lemma MutualNeverEnds()
    ensures Mutual().Valid() && Resolvable(Mutual()) && !Ends(Mutual(), "a")
  {
    var db, path := Mutual(), ["a", "b", "a"];
    assert forall x :: x in db.Packages() ==> x == FIRST || x == SECOND;
    assert ExploresAt(db, "a", "b", 0) && ExploresAt(db, "b", "a", 0);
    forall i: nat | i + 1 < |path| ensures OneCall(db, path, i) {
      assert i == 0 || i == 1;
    }
    assert path[0] == path[2] && !Distinct(path);
    EndsIffNoReturn(db, "a");
  }

  /** In particular it ends on acyclic reverse dependencies. */
  ghost predicate Ranked(db: Db, rank: map<Uid, nat>) {
    forall q :: q in db.local ==> q in rank && forall d :: d in db.local[q].rdeps ==> d in rank && rank[d] < rank[q]
  }

  lemma {:induction false} AcyclicEnds(db: Db, rank: map<Uid, nat>, uid: Uid)
    requires Resolvable(db) && Ranked(db, rank) && uid in db.local
    ensures Ends(db, uid)
  {
    if Returns(db, uid) {
      var path :| Calls(db, path) && path[0] == uid && !Distinct(path);
      CallsRankDown(db, rank, path);
    }
    EndsIffNoReturn(db, uid);
  }

  lemma CallsRankDown(db: Db, rank: map<Uid, nat>, path: seq<Uid>)
    requires Resolvable(db) && Ranked(db, rank) && Calls(db, path)
    ensures Distinct(path)
  {
    CalledAreInstalled(db, path);
    forall i, k | 0 <= i < k < |path| ensures path[i] != path[k] {
      RankBetween(db, rank, path, i, k);
    }
  }

  lemma {:induction false} RankBetween(db: Db, rank: map<Uid, nat>, path: seq<Uid>, i: nat, k: nat)
    requires Resolvable(db) && Ranked(db, rank) && Calls(db, path) && i < k < |path|
    requires forall q :: q in path ==> q in db.local
    ensures rank[path[k]] < rank[path[i]]
    decreases k - i
  {
    var h: nat := k - 1;
    assert OneCall(db, path, h) && path[h] in path && path[k] in path && path[i] in path;
    if i < h {
      RankBetween(db, rank, path, i, h);
    }
  }

  // ---------- the procedures ----------

  /** pkg_jobs_test_automatic: the recursion over reverse dependencies, wherever it ends. It may
      add the packages it meets to the universe. */
  method TestAutomatic(u: Universe, uid: Uid, ghost n: nat) returns (r: bool)
    requires u.Ready() && u.c.kind == Autoremove && Resolvable(u.c.db) && uid in u.c.db.local
    requires WalkFrom(u.c.db, uid, 0, n).Told()
    modifies u
    ensures u.Ready()
    ensures WalkFrom(u.c.db, uid, 0, n) == Is(r)
    decreases n, 1
  {
    r := true;
    var i, count := 0, |u.c.db.local[uid].rdeps|;
    while i < count && r
      invariant u.Ready() && i <= count
      invariant WalkFrom(u.c.db, uid, 0, n) == if r then WalkFrom(u.c.db, uid, i, n) else No
      decreases count - i
    {
      r := TestOne(u, uid, i, n);
      i := i + 1;
    }
  }

  /** What one round makes of the answer: a reverse dependency that is automatic is asked in turn. */
  lemma OneRound(db: Db, uid: Uid, i: nat, n: nat)
    requires Resolvable(db) && uid in db.local && i < |db.local[uid].rdeps| && WalkFrom(db, uid, i, n).Told()
    ensures var d := db.local[uid].rdeps[i];
      && d in db.local
      && (!db.local[d].automatic ==> WalkFrom(db, uid, i, n) == No)
      && (db.local[d].automatic ==>
          && n > 0 && WalkFrom(db, d, 0, n - 1).Told()
          && WalkFrom(db, uid, i, n) == if WalkFrom(db, d, 0, n - 1) == Yes then WalkFrom(db, uid, i + 1, n) else No)
  {
    var d := db.local[uid].rdeps[i];
    assert d in db.local;
    assert db.local[d].automatic ==> Walk(db, d, n).Told();
  }

  /** One round of the loop. */
  method TestOne(u: Universe, uid: Uid, i: nat, ghost n: nat) returns (r: bool)
    requires u.Ready() && u.c.kind == Autoremove && Resolvable(u.c.db) && uid in u.c.db.local
    requires i < |u.c.db.local[uid].rdeps| && WalkFrom(u.c.db, uid, i, n).Told()
    modifies u
    ensures u.Ready()
    ensures WalkFrom(u.c.db, uid, i, n) == if r then WalkFrom(u.c.db, uid, i + 1, n) else No
    decreases n, 0
  {
    OneRound(u.c.db, uid, i, n);
    var d := u.c.db.local[uid].rdeps[i];
    r := Automatic(u, d);
    if r {
      r := TestAutomatic(u, d, n - 1);
    }
  }

  /** Looking at one reverse dependency: its flag, and it joins the universe when it is set. */
  method Automatic(u: Universe, d: Uid) returns (automatic: bool)
    requires u.Ready() && u.c.kind == Autoremove && d in u.c.db.local
    modifies u
    ensures u.Ready()
    ensures automatic <==> u.c.db.local[d].automatic
  {
    if d in u.chains {
      HeadIsLocal(u, d);
      automatic := u.chains[d][0].pkg.automatic;
    } else {
      var npkg := u.c.db.local[d];
      automatic := npkg.automatic;
      if automatic {
        assert npkg in u.c.db.Packages();
        var _, _ := u.ProcessItem(npkg);
      }
    }
  }

  /** What an autoremove job asks for: unlocked automatic packages that nothing wanted needs. */
  ghost predicate ShouldGo(db: Db, uid: Uid) {
    uid in db.local && db.local[uid].automatic && !db.local[uid].locked && Unneeded(db, uid)
  }

  /** Uids of the requested units. */
  function RequestedUids(units: set<Unit>): set<Uid> { set x | x in units :: x.pkg.uid }

  ghost function Going(db: Db, uids: seq<Uid>): set<Uid> { set q | q in uids && ShouldGo(db, q) }

  lemma GoingStep(db: Db, uids: seq<Uid>, i: nat)
    requires i < |uids|
    ensures Going(db, uids[..i + 1]) == Going(db, uids[..i]) + Going(db, [uids[i]])
  {
    assert uids[..i + 1] == uids[..i] + [uids[i]];
  }

  lemma AllGoing(db: Db, uids: seq<Uid>)
    requires forall q :: q in uids <==> q in db.local && db.local[q].automatic
    ensures uids[..|uids|] == uids
    ensures forall q :: q in Going(db, uids) <==> ShouldGo(db, q)
  {
  }

  /** jobs_solve_autoremove: requests for exactly the automatic packages that should go. */
  method SolveAutoremove(u: Universe, j: Job, automatic: seq<Uid>)
    requires u.Ready() && u.c.kind == Autoremove && Resolvable(u.c.db)
    requires j.Valid() && j.kind == Autoremove && j.requestDelete == {}
    requires forall q :: q in automatic <==> q in u.c.db.local && u.c.db.local[q].automatic
    requires forall q :: q in automatic && !u.c.db.local[q].locked ==> Ends(u.c.db, q)
    modifies u, j`requestAdd, j`requestDelete
    ensures u.Ready() && j.Valid()
    ensures forall q :: q in RequestedUids(j.requestDelete) <==> ShouldGo(u.c.db, q)
  {
    var i := 0;
    while i < |automatic|
      invariant 0 <= i <= |automatic| && u.Ready() && j.Valid()
      invariant RequestedUids(j.requestDelete) == Going(u.c.db, automatic[..i])
    {
      assert automatic[i] in automatic;
      ConsiderPackage(u, j, automatic[i]);
      GoingStep(u.c.db, automatic, i);
      i := i + 1;
    }
    AllGoing(u.c.db, automatic);
  }

  method ConsiderPackage(u: Universe, j: Job, uid: Uid)
    requires u.Ready() && u.c.kind == Autoremove && Resolvable(u.c.db)
    requires j.Valid() && j.kind == Autoremove && uid in u.c.db.local && u.c.db.local[uid].automatic
    requires !u.c.db.local[uid].locked ==> Ends(u.c.db, uid)
    modifies u, j`requestAdd, j`requestDelete
    ensures u.Ready() && j.Valid()
    ensures RequestedUids(j.requestDelete)
         == RequestedUids(old(j.requestDelete)) + Going(u.c.db, [uid])
  {
    var unit := FindOrAdd(u, uid);
    var go := Decide(u, unit);
    if go {
      j.AddReq(unit);
    }
    GoingOne(u.c.db, uid, go);
    assert go ==> RequestedUids(old(j.requestDelete) + {unit}) == RequestedUids(old(j.requestDelete)) + {uid};
  }

  lemma GoingOne(db: Db, uid: Uid, go: bool)
    requires go <==> ShouldGo(db, uid)
    ensures Going(db, [uid]) == if go then {uid} else {}
  {
  }

  method Decide(u: Universe, unit: Unit) returns (go: bool)
    requires u.Ready() && u.c.kind == Autoremove && Resolvable(u.c.db)
    requires unit.pkg.uid in u.c.db.local && unit.pkg == u.c.db.local[unit.pkg.uid] && unit.pkg.automatic
    requires !unit.pkg.locked ==> Ends(u.c.db, unit.pkg.uid)
    modifies u
    ensures u.Ready() && (go <==> ShouldGo(u.c.db, unit.pkg.uid))
  {
    go := false;
    if !unit.pkg.locked {
      ghost var n: nat :| Walk(u.c.db, unit.pkg.uid, n).Told();
      go := TestAutomatic(u, unit.pkg.uid, n - 1);
      WalkIsUnneeded(u.c.db, unit.pkg.uid, n);
    }
  }

  method FindOrAdd(u: Universe, uid: Uid) returns (unit: Unit)
    requires u.Ready() && u.c.kind == Autoremove && uid in u.c.db.local
    modifies u
    ensures u.Ready() && unit.pkg == u.c.db.local[uid]
  {
    if uid in u.chains {
      HeadIsLocal(u, uid);
      unit := u.chains[uid][0];
    } else {
      var pkg := u.c.db.local[uid];
      assert pkg in u.c.db.Packages();
      var rc;
      rc, unit := u.ProcessItem(pkg);
      InstalledIsLocal(u.c.db, unit.pkg);
    }
  }

  /** The requests are closed under reverse dependencies, except for locked packages. */
  lemma RequestsAreClosed(db: Db, q: Uid, d: Uid)
    requires ShouldGo(db, q) && d in db.local[q].rdeps
    requires forall e :: e in db.local[q].rdeps ==> e in db.local
    ensures db.local[d].automatic && Unneeded(db, d)
    ensures !db.local[d].locked ==> ShouldGo(db, d)
  {
    UnneededStep(db, q);
  }
}
