/** Carrying out the ordered list: what is installed after each action
    (libpkg/pkg_jobs.c, pkg_jobs_set_priorities and pkg_jobs_execute). */
module Execution {
  import opened Sorting
  import opened Packages
  import opened Jobs
  import opened SatProblem
  import opened JobList
  import opened Universe
  import opened Plan
  import opened Deinstall
  import opened Priority
  import opened Schedule
  import opened Install

  // ---------- the actions of a plan, one by one ----------

  /** The action is about units of one chain. */
  predicate OnChain(s: Solved, chain: Chain) {
    && s.item in chain
    && (s.old_item.Some? ==> s.old_item.value in chain && s.old_item.value.pkg.installed)
    && (s.kind == SolvedUpgrade ==> s.old_item.Some?)
    && (s.kind == SolvedDelete ==> s == Delete(s.item))
    && s.kind != SolvedUpgradeRemove
  }

  lemma ChainJobsOnChain(k: JobType, chain: Chain, chosen: set<Unit>, s: Solved)
    requires s in ChainJobs(k, Coming(chain, chosen), Going(chain, chosen))
    ensures OnChain(s, chain)
    ensures (forall x :: x in chain ==> x.pkg.installed) ==> s.kind == SolvedDelete
  {
    var coming, going := Coming(chain, chosen), Going(chain, chosen);
    if coming == [] {
      OneOfDeletes(going, s);
    } else if s == ComingJob(k, coming[0], Last(going)) {
      assert coming[0] in coming && (going != [] ==> going[|going| - 1] in going);
    } else {
      var rest := if going == [] then [] else going[..|going| - 1];
      OneOfDeletes(rest, s);
      assert s.item in rest && s.item in going;
    }
  }

  lemma OneOfDeletes(units: seq<Unit>, s: Solved)
    requires s in Deletes(units)
    ensures s == Delete(s.item) && s.item in units
  {
    var i :| 0 <= i < |units| && Deletes(units)[i] == s;
  }

  lemma {:induction false} AllJobsOnChains(k: JobType, uids: seq<Uid>, chains: map<Uid, Chain>,
                                           chosen: set<Unit>, s: Solved)
    returns (uid: Uid)
    requires forall u :: u in uids ==> u in chains
    requires s in AllJobs(k, uids, chains, chosen)
    ensures uid in uids && OnChain(s, chains[uid])
    ensures (forall x :: x in chains[uid] ==> x.pkg.installed) ==> s.kind == SolvedDelete
  {
    var front, last := uids[..|uids| - 1], uids[|uids| - 1];
    if s in AllJobs(k, front, chains, chosen) {
      uid := AllJobsOnChains(k, front, chains, chosen, s);
    } else {
      uid := last;
      ChainJobsOnChain(k, chains[last], chosen, s);
    }
  }

  /** Every derived list is about units of the universe. */
  lemma DerivedIsPlaced(k: JobType, t: Table, chosen: set<Unit>)
    requires t.Valid()
    ensures Placed(t, AllJobs(k, t.uids, t.chains, chosen))
  {
    forall s | s in AllJobs(k, t.uids, t.chains, chosen) ensures PlacedJob(t, s) {
      var uid := AllJobsOnChains(k, t.uids, t.chains, chosen, s);
      assert Table.ChainOf(uid, t.chains[uid]);
    }
  }

  lemma SameActions(a: seq<Solved>, b: seq<Solved>)
    requires multiset(a) == multiset(b)
    ensures forall s :: s in a <==> s in b
    ensures Added(a) == Added(b) && Removed(a) == Removed(b)
  {
    SameElements(a, b);
  }

  lemma PrefixActions(jobs: seq<Solved>, n: nat)
    requires n <= |jobs|
    ensures forall s :: s in jobs[..n] ==> s in jobs
    ensures Added(jobs[..n]) <= Added(jobs) && Removed(jobs[..n]) <= Removed(jobs)
  {
  }

  // ---------- deinstall ----------

  lemma DeletesOnly(db: Db, t: Table, k: JobType, chosen: set<Unit>, s: Solved)
    requires db.Valid() && ReverseClosed(db, t) && s in AllJobs(k, t.uids, t.chains, chosen)
    ensures s == Delete(s.item) && t.Has(s.item)
  {
    var uid := AllJobsOnChains(k, t.uids, t.chains, chosen, s);
    assert Table.ChainOf(uid, t.chains[uid]);
    forall x | x in t.chains[uid] ensures x.pkg.installed {
      assert t.Has(x);
    }
  }

  // ---------- what is carried out ----------

  /** The part of a uid before the tilde is the name of the package. */
  function NameOf(uid: Uid): string {
    if uid == "" || uid[0] == '~' then "" else [uid[0]] + NameOf(uid[1..])
  }

  /** Without the force flag the deletion of the package manager itself is passed over. */
  predicate Skipped(force: bool, s: Solved) {
    !force && s.kind == SolvedDelete && NameOf(s.item.pkg.uid) in {"pkg", "pkg-devel"}
  }

  /** The actions that pkg_jobs_execute carries out of a list. */
  function CarriedOut(force: bool, jobs: seq<Solved>): (r: seq<Solved>)
    ensures forall s :: s in r <==> s in jobs && !Skipped(force, s)
  {
    if jobs == [] then []
    else
      var last := jobs[|jobs| - 1];
      assert jobs == jobs[..|jobs| - 1] + [last];
      CarriedOut(force, jobs[..|jobs| - 1]) + if Skipped(force, last) then [] else [last]
  }

  /** Stopped after any number of actions, the list leaves no installed package without something it
      needs. */
  ghost predicate NeverStrands(db: Db, force: bool, jobs: seq<Solved>) {
    forall n :: 0 <= n <= |jobs| ==> NothingStranded(db, RemovedUids(CarriedOut(force, jobs[..n])))
  }

  /** No package whose deletion is passed over needs one that is deleted. */
  ghost predicate SkippedNeedNothing(db: Db, force: bool, jobs: seq<Solved>) {
    forall s, d :: s in jobs && Skipped(force, s) && Needs(db, s.item.pkg.uid, d) ==>
      d !in RemovedUids(CarriedOut(force, jobs))
  }

  /** The action that takes out a package. */
  lemma RemovedAt(db: Db, t: Table, chosen: set<Unit>, jobs: seq<Solved>, n: nat, d: Uid) returns (k: nat)
    requires db.Valid() && ReverseClosed(db, t) && n <= |jobs| && d in RemovedUids(jobs[..n])
    requires multiset(jobs) == multiset(AllJobs(Deinstall, t.uids, t.chains, chosen))
    ensures k < n && jobs[k] == Delete(jobs[k].item) && jobs[k].item.pkg.uid == d
    ensures d in db.local && jobs[k].item.pkg == db.local[d]
  {
    SameActions(jobs, AllJobs(Deinstall, t.uids, t.chains, chosen));
    var u :| u in Removed(jobs[..n]) && u.pkg.uid == d;
    var s :| s in jobs[..n] && u in RemovedBy(s);
    k :| 0 <= k < n && jobs[k] == s;
    assert jobs[k] in jobs;
    DeletesOnly(db, t, Deinstall, chosen, s);
  }

  /** A package goes before what it needs does. */
  lemma DependentGoesFirst(db: Db, t: Table, chosen: set<Unit>, jobs: seq<Solved>, n: nat, q: Uid, d: Uid)
    requires db.Valid() && Mirrored(db) && ReverseClosed(db, t) && n <= |jobs| && Needs(db, q, d)
    requires multiset(jobs) == multiset(AllJobs(Deinstall, t.uids, t.chains, chosen)) && InOrder(UpdateDelete, jobs)
    requires d in RemovedUids(jobs[..n]) && q in RemovedUids(jobs)
    ensures q in RemovedUids(jobs[..n])
  {
    assert jobs[..|jobs|] == jobs;
    var k := RemovedAt(db, t, chosen, jobs, n, d);
    var m := RemovedAt(db, t, chosen, jobs, |jobs|, q);
    assert q in Above(jobs[k].item, UpdateDelete);
    assert jobs[m] in jobs[..n] && jobs[m].item in RemovedBy(jobs[m]);
    assert jobs[m].item in Removed(jobs[..n]);
  }

  /** In a list of deletions: an action removes its package unless it is passed over. */
  lemma CarriedOfDeletes(force: bool, part: seq<Solved>, q: Uid)
    requires forall s :: s in part ==> s == Delete(s.item)
    ensures q in RemovedUids(CarriedOut(force, part)) <==>
      q in RemovedUids(part) && (force || NameOf(q) !in {"pkg", "pkg-devel"})
  {
    RemovedByDeletes(part, q);
    RemovedByDeletes(CarriedOut(force, part), q);
  }

  lemma RemovedByDeletes(part: seq<Solved>, q: Uid)
    requires forall s :: s in part ==> s == Delete(s.item)
    ensures q in RemovedUids(part) <==> exists s :: s in part && s.item.pkg.uid == q
  {
    if q in RemovedUids(part) {
      var u :| u in Removed(part) && u.pkg.uid == q;
      var s :| s in part && u in RemovedBy(s);
    }
    if s :| s in part && s.item.pkg.uid == q {
      assert s.item in RemovedBy(s) && s.item in Removed(part);
    }
  }

  lemma CarriedRemoves(db: Db, t: Table, force: bool, chosen: set<Unit>, jobs: seq<Solved>, n: nat, q: Uid)
    requires db.Valid() && ReverseClosed(db, t) && n <= |jobs|
    requires multiset(jobs) == multiset(AllJobs(Deinstall, t.uids, t.chains, chosen))
    ensures q in RemovedUids(CarriedOut(force, jobs[..n])) <==>
      q in RemovedUids(jobs[..n]) && (force || NameOf(q) !in {"pkg", "pkg-devel"})
  {
    SameActions(jobs, AllJobs(Deinstall, t.uids, t.chains, chosen));
    PrefixActions(jobs, n);
    forall s | s in jobs[..n] ensures s == Delete(s.item) {
      DeletesOnly(db, t, Deinstall, chosen, s);
    }
    CarriedOfDeletes(force, jobs[..n], q);
  }

  /** With every deletion carried out nothing is stranded at any time. */
  lemma PrefixStrandsNothing(db: Db, t: Table, delete: set<Unit>, chosen: set<Unit>, jobs: seq<Solved>, n: nat)
    requires db.Valid() && Mirrored(db) && ReverseClosed(db, t) && Grants(t, {}, delete, chosen) && n <= |jobs|
    requires multiset(jobs) == multiset(AllJobs(Deinstall, t.uids, t.chains, chosen)) && InOrder(UpdateDelete, jobs)
    ensures NothingStranded(db, RemovedUids(jobs[..n]))
  {
    SameActions(jobs, AllJobs(Deinstall, t.uids, t.chains, chosen));
    DeinstallStrandsNothing(db, t, Deinstall, delete, chosen);
    assert NothingStranded(db, RemovedUids(jobs));
    forall q, d | Needs(db, q, d) && d in RemovedUids(jobs[..n]) ensures q in RemovedUids(jobs[..n]) {
      PrefixActions(jobs, n);
      DependentGoesFirst(db, t, chosen, jobs, n, q, d);
    }
  }

  /** The skipped package on the list. */
  lemma SkippedAt(db: Db, t: Table, force: bool, chosen: set<Unit>, jobs: seq<Solved>, q: Uid) returns (s: Solved)
    requires db.Valid() && ReverseClosed(db, t) && q in RemovedUids(jobs)
    requires multiset(jobs) == multiset(AllJobs(Deinstall, t.uids, t.chains, chosen))
    requires !force && NameOf(q) in {"pkg", "pkg-devel"}
    ensures s in jobs && Skipped(force, s) && s.item.pkg.uid == q
  {
    assert jobs[..|jobs|] == jobs;
    var k := RemovedAt(db, t, chosen, jobs, |jobs|, q);
    s := jobs[k];
  }

  /** An ordered deinstall strands nothing at any time if and only if no package whose deletion is passed
      over needs one that is deleted. */
  lemma NeverStrandsIff(db: Db, t: Table, delete: set<Unit>, force: bool, chosen: set<Unit>, jobs: seq<Solved>)
    requires db.Valid() && Mirrored(db) && ReverseClosed(db, t) && Grants(t, {}, delete, chosen)
    requires multiset(jobs) == multiset(AllJobs(Deinstall, t.uids, t.chains, chosen)) && InOrder(UpdateDelete, jobs)
    ensures NeverStrands(db, force, jobs) <==> SkippedNeedNothing(db, force, jobs)
  {
    assert jobs[..|jobs|] == jobs;
    if NeverStrands(db, force, jobs) {
      forall s, d | s in jobs && Skipped(force, s) && Needs(db, s.item.pkg.uid, d)
        ensures d !in RemovedUids(CarriedOut(force, jobs))
      {
        assert NothingStranded(db, RemovedUids(CarriedOut(force, jobs[..|jobs|])));
        CarriedRemoves(db, t, force, chosen, jobs, |jobs|, s.item.pkg.uid);
      }
    }
    if SkippedNeedNothing(db, force, jobs) {
      forall n, q, d | 0 <= n <= |jobs| && Needs(db, q, d) && d in RemovedUids(CarriedOut(force, jobs[..n]))
        ensures q in RemovedUids(CarriedOut(force, jobs[..n]))
      {
        KeptNeedsNothing(db, t, delete, force, chosen, jobs, n, q, d);
      }
    }
  }

  lemma NeedyIsCarriedOut(db: Db, t: Table, force: bool, chosen: set<Unit>, jobs: seq<Solved>, q: Uid, d: Uid)
    requires db.Valid() && ReverseClosed(db, t) && SkippedNeedNothing(db, force, jobs)
    requires multiset(jobs) == multiset(AllJobs(Deinstall, t.uids, t.chains, chosen))
    requires Needs(db, q, d) && q in RemovedUids(jobs) && d in RemovedUids(CarriedOut(force, jobs))
    ensures force || NameOf(q) !in {"pkg", "pkg-devel"}
  {
    if !force && NameOf(q) in {"pkg", "pkg-devel"} {
      var s := SkippedAt(db, t, force, chosen, jobs, q);
      assert false;
    }
  }

  lemma KeptNeedsNothing(db: Db, t: Table, delete: set<Unit>, force: bool, chosen: set<Unit>, jobs: seq<Solved>, n: nat,
                         q: Uid, d: Uid)
    requires db.Valid() && Mirrored(db) && ReverseClosed(db, t) && Grants(t, {}, delete, chosen)
    requires multiset(jobs) == multiset(AllJobs(Deinstall, t.uids, t.chains, chosen)) && InOrder(UpdateDelete, jobs)
    requires SkippedNeedNothing(db, force, jobs) && n <= |jobs|
    requires Needs(db, q, d) && d in RemovedUids(CarriedOut(force, jobs[..n]))
    ensures q in RemovedUids(CarriedOut(force, jobs[..n]))
  {
    assert jobs[..|jobs|] == jobs;
    CarriedRemoves(db, t, force, chosen, jobs, n, d);
    CarriedRemoves(db, t, force, chosen, jobs, |jobs|, d);
    PrefixStrandsNothing(db, t, delete, chosen, jobs, n);
    PrefixActions(jobs, n);
    NeedyIsCarriedOut(db, t, force, chosen, jobs, q, d);
    CarriedRemoves(db, t, force, chosen, jobs, n, q);
  }

  /** All units start with priority zero. */
  function NoPriorities(t: Table): Priorities {
    map x | x in t.Units() :: 0
  }

  /** Priorities from zero, and the sort; true when it ended at an assertion. */
  method SetOrder(t: Table, j: Job, ghost kind: UpdateType, ghost level: map<Uid, nat>)
    returns (asserts: bool, ghost ks: seq<nat>, ghost split: seq<Solved>)
    requires t.Valid() && j.Valid() && Placed(t, j.jobs)
    modifies j`jobs, j`count
    ensures j.Valid() && SplitInto(old(j.jobs), split, ks) && multiset(j.jobs) == multiset(split)
    ensures NoUnknownConflict(t, old(j.jobs)) ==> !asserts
    ensures Uniform(t, level, kind, old(j.jobs)) ==> !asserts && ks == [] && InOrder(kind, j.jobs)
  {
    var g := new Graph(t, NoPriorities(t));
    ghost var seen;
    asserts, ks, split, seen := SetPriorities(g, j, kind, level);
  }

  lemma DeletesArePlaced(db: Db, t: Table, chosen: set<Unit>)
    requires db.Valid() && ReverseClosed(db, t)
    ensures var jobs := AllJobs(Deinstall, t.uids, t.chains, chosen);
      Placed(t, jobs) && forall s :: s in jobs ==> s.kind == SolvedDelete
  {
    forall s | s in AllJobs(Deinstall, t.uids, t.chains, chosen) ensures PlacedJob(t, s) && s.kind == SolvedDelete {
      DeletesOnly(db, t, Deinstall, chosen, s);
    }
  }

  lemma SomeSplit(a: seq<Solved>, b: seq<Solved>, ks: seq<nat>) returns (s: Solved)
    requires SplitInto(a, b, ks) && ks != []
    ensures s in a && CanSplit(s)
  {
    s := a[ks[0]];
  }

  lemma NothingSplit(a: seq<Solved>, b: seq<Solved>, ks: seq<nat>)
    requires SplitInto(a, b, ks) && forall s :: s in a ==> s.kind == SolvedDelete
    ensures ks == [] && b == a
  {
    if ks != [] {
      var s := SomeSplit(a, b, ks);
      assert false;
    }
  }

  /** Levels for a set of packages: each comes below whatever must come before it, and none of them
      makes the update look at conflicts. */
  ghost predicate LevelledPackages(pkgs: set<Pkg>, kind: UpdateType, level: map<Uid, nat>) {
    && kind != UpdateConflict
    && (forall p :: p in pkgs ==> p.uid in level && level[p.uid] <= RECURSION_LIMIT)
    && (forall p :: p in pkgs ==> p.installed || (kind != UpdateDelete && p.conflicts == []))
    && (forall p, q :: p in pkgs && q in pkgs && q.uid in Above(Unit(0, p), kind) ==> level[p.uid] < level[q.uid])
    && (forall p, q :: p in pkgs && q in pkgs && q.uid in Below(Unit(0, p), kind) ==> level[q.uid] < level[p.uid])
  }

  lemma LevelledUniverse(pkgs: set<Pkg>, t: Table, kind: UpdateType, level: map<Uid, nat>)
    requires t.Valid() && LevelledPackages(pkgs, kind, level) && forall x :: t.Has(x) ==> x.pkg in pkgs
    ensures Levelled(t, kind, level)
  {
    forall u | u in t.chains ensures exists x :: t.Has(x) && x.pkg.uid == u && x.pkg in pkgs {
      assert Table.ChainOf(u, t.chains[u]) && t.Has(t.chains[u][0]);
    }
    forall x | t.Has(x)
      ensures Above(x, kind) == Above(Unit(0, x.pkg), kind) && Below(x, kind) == Below(Unit(0, x.pkg), kind)
    {
    }
  }

  lemma DeletesAreUniform(t: Table, level: map<Uid, nat>, jobs: seq<Solved>)
    requires Levelled(t, UpdateDelete, level) && forall s :: s in jobs ==> s.kind == SolvedDelete
    ensures Uniform(t, level, UpdateDelete, jobs)
  {
    assert forall i :: 0 <= i < |jobs| ==> jobs[i] in jobs;
  }

  /** Priorities and sort for the list of a deinstall job. */
  method OrderDeletes(db: Db, t: Table, j: Job, ghost chosen: set<Unit>, ghost level: map<Uid, nat>)
    requires db.Valid() && ReverseClosed(db, t) && j.Valid()
    requires j.jobs == AllJobs(Deinstall, t.uids, t.chains, chosen)
    modifies j`jobs, j`count
    ensures j.Valid() && multiset(j.jobs) == multiset(old(j.jobs))
    ensures Levelled(t, UpdateDelete, level) ==> InOrder(UpdateDelete, j.jobs)
  {
    ghost var all := j.jobs;
    DeletesArePlaced(db, t, chosen);
    if Levelled(t, UpdateDelete, level) {
      DeletesAreUniform(t, level, all);
    }
    var asserts;
    ghost var ks, split;
    asserts, ks, split := SetOrder(t, j, UpdateDelete, level);
    NothingSplit(all, split, ks);
  }

  /** The order of the list, put in terms of what an interrupted deinstall leaves behind. */
  lemma OrderedOutcome(db: Db, t: Table, delete: set<Unit>, chosen: set<Unit>, all: seq<Solved>, jobs: seq<Solved>,
                       level: map<Uid, nat>)
    requires db.Valid() && Mirrored(db) && ReverseClosed(db, t) && DeinstallPlan(t, delete, chosen, all)
    requires multiset(jobs) == multiset(all) && (Levelled(t, UpdateDelete, level) ==> InOrder(UpdateDelete, jobs))
    ensures RemovedUids(jobs) == RemovedUids(all)
    ensures LevelledPackages(db.local.Values, UpdateDelete, level) ==> SafeUnlessSkipped(db, jobs)
  {
    SameActions(jobs, all);
    if LevelledPackages(db.local.Values, UpdateDelete, level) {
      LevelledUniverse(db.local.Values, t, UpdateDelete, level);
      forall force ensures NeverStrands(db, force, jobs) <==> SkippedNeedNothing(db, force, jobs) {
        NeverStrandsIff(db, t, delete, force, chosen, jobs);
      }
    }
  }

  ghost predicate SafeUnlessSkipped(db: Db, jobs: seq<Solved>) {
    forall force :: NeverStrands(db, force, jobs) <==> SkippedNeedNothing(db, force, jobs)
  }

  /** A deinstall job with its list in the order of execution. */
  method DeinstallInOrder(db: Db, matched: seq<Pkg>, oracle: Oracle, confirm: (nat, int) -> bool,
                          ghost level: map<Uid, nat>)
    returns (j: Job, u: Universe)
    requires db.Valid() && Mirrored(db) && Sound(oracle)
    requires forall p :: p in matched ==> p in db.local.Values
    requires forall p, d :: p in db.local.Values && d in p.rdeps ==> d in db.local
    ensures fresh(j) && fresh(u) && j.Valid() && u.Ready() && u.c.db == db && ReverseClosed(db, u.T())
    ensures Fulfilled(db, matched, RemovedUids(j.jobs))
    ensures LevelledPackages(db.local.Values, UpdateDelete, level) ==> SafeUnlessSkipped(db, j.jobs)
  {
    ghost var chosen;
    j, u, chosen := SolveDeinstall(db, matched, oracle, confirm);
    ghost var all := j.jobs;
    OrderDeletes(db, u.T(), j, chosen, level);
    OrderedOutcome(db, u.T(), j.requestDelete, chosen, all, j.jobs, level);
  }

  // ---------- a deinstall that strands the package manager ----------

  const SELF := Pkg("pkg~p", "d0", "1", true, false, false, ["l"], [], [], [])
  const NEEDED := Pkg("l", "d1", "1", true, false, false, [], ["pkg~p"], [], [])

  function SelfAndLibrary(): Db {
    Db(map[SELF.uid := SELF, NEEDED.uid := NEEDED], map[], map[], (x: Pkg, y: Pkg) => false)
  }

  function SelfAndLibraryUnits(): Table {
    Table([NEEDED.uid, SELF.uid], map[NEEDED.uid := [Unit(0, NEEDED)], SELF.uid := [Unit(1, SELF)]], map[])
  }

  lemma NamesOfTheTwo()
    ensures NameOf(SELF.uid) == "pkg" && NameOf(NEEDED.uid) !in {"pkg", "pkg-devel"}
  {
    assert SELF.uid[1..][1..][1..][0] == '~' && NameOf(SELF.uid[1..][1..][1..]) == "";
    assert NameOf(SELF.uid) == ['p'] + NameOf(SELF.uid[1..]);
    assert NameOf(SELF.uid[1..]) == ['k'] + NameOf(SELF.uid[1..][1..]);
    assert NameOf(SELF.uid[1..][1..]) == ['g'] + NameOf(SELF.uid[1..][1..][1..]);
    assert NameOf(NEEDED.uid)[0] == 'l';
  }

  lemma TwoAreWellFormed()
    ensures SelfAndLibrary().Valid() && Mirrored(SelfAndLibrary())
  {
    assert forall x :: x in SelfAndLibrary().Packages() ==> x == SELF || x == NEEDED;
  }

  lemma TwoAreClosed()
    ensures SelfAndLibraryUnits().Valid() && ReverseClosed(SelfAndLibrary(), SelfAndLibraryUnits())
  {
    OnlyTheTwo();
  }

  lemma OnlyTheTwo()
    ensures forall x :: SelfAndLibraryUnits().Has(x) <==> x == Unit(0, NEEDED) || x == Unit(1, SELF)
  {
  }

  lemma RemovingBothIsGranted()
    ensures Grants(SelfAndLibraryUnits(), {}, {Unit(0, NEEDED)}, {})
  {
  }

  lemma SelfIsPassedOver()
    ensures CarriedOut(false, [Delete(Unit(1, SELF)), Delete(Unit(0, NEEDED))]) == [Delete(Unit(0, NEEDED))]
  {
    var a, b := Delete(Unit(1, SELF)), Delete(Unit(0, NEEDED));
    NamesOfTheTwo();
    assert [a, b][..1] == [a] && [a][..0] == [] && CarriedOut(false, [a]) == [];
  }

  /** Deinstalling what the package manager needs: both are on the ordered list, the deletion of the
      package manager is passed over, and it is left without what it needs. */
  lemma SelfMayBeStranded() returns (db: Db, t: Table, jobs: seq<Solved>)
    ensures db.Valid() && Mirrored(db) && ReverseClosed(db, t) && Grants(t, {}, {Unit(0, NEEDED)}, {})
    ensures jobs == [Delete(Unit(1, SELF)), Delete(Unit(0, NEEDED))] && InOrder(UpdateDelete, jobs)
    ensures CarriedOut(false, jobs) == [Delete(Unit(0, NEEDED))] && !NeverStrands(db, false, jobs)
  {
    db, t := SelfAndLibrary(), SelfAndLibraryUnits();
    jobs := [Delete(Unit(1, SELF)), Delete(Unit(0, NEEDED))];
    TwoAreWellFormed();
    TwoAreClosed();
    RemovingBothIsGranted();
    SelfIsPassedOver();
    LibraryGoesAlone();
    assert jobs[..2] == jobs;
    assert !NothingStranded(db, RemovedUids(CarriedOut(false, jobs[..2])));
  }

  lemma LibraryGoesAlone()
    ensures !NothingStranded(SelfAndLibrary(), RemovedUids([Delete(Unit(0, NEEDED))]))
  {
    var b := Delete(Unit(0, NEEDED));
    assert b in [b] && Unit(0, NEEDED) in RemovedBy(b);
    assert Removed([b]) == {Unit(0, NEEDED)};
    assert Needs(SelfAndLibrary(), SELF.uid, NEEDED.uid) && RemovedUids([b]) == {NEEDED.uid};
  }

  // ---------- install ----------

  /** After each action, every dependency of a package that has arrived is there, and no uid that was
      installed before has vanished. */
  ghost predicate NeverLacks(c: Config, t: Table, jobs: seq<Solved>) {
    forall n :: 0 <= n <= |jobs| ==>
      ArrivedHaveDependencies(c, t, jobs[..n]) && NothingVanished(t, jobs[..n])
  }

  ghost predicate ArrivedHaveDependencies(c: Config, t: Table, jobs: seq<Solved>) {
    forall u, d :: u in Added(jobs) && d in u.pkg.deps && c.Resolves(Flags(false, false, false, c.forceMissing), d) ==>
      Provides(Apply(jobs, Installed(t)), d)
  }

  ghost predicate NothingVanished(t: Table, jobs: seq<Solved>) {
    forall y :: y in Installed(t) ==> Provides(Apply(jobs, Installed(t)), y.pkg.uid)
  }

  ghost predicate Arrivals(jobs: seq<Solved>) {
    forall s :: s in jobs ==> s.kind in {SolvedInstall, SolvedFetch, SolvedUpgrade}
  }

  lemma AddedAt(jobs: seq<Solved>, n: nat, u: Unit) returns (k: nat)
    requires n <= |jobs| && u in Added(jobs[..n])
    ensures k < n && jobs[k].item == u && AddedBy(jobs[k]) == {u}
  {
    var s :| s in jobs[..n] && u in AddedBy(s);
    k :| 0 <= k < n && jobs[k] == s;
  }

  /** A chosen unit is there once everything that depends on it has arrived. */
  lemma ProviderIsThere(t: Table, k: JobType, chosen: set<Unit>, jobs: seq<Solved>, n: nat, u: Unit, x: Unit)
    requires t.Valid() && t.Has(x) && x in chosen && Settled(t.chains[x.pkg.uid], chosen)
    requires multiset(jobs) == multiset(AllJobs(k, t.uids, t.chains, chosen)) && InOrder(UpdateRequest, jobs)
    requires n <= |jobs| && u in Added(jobs[..n]) && x.pkg.uid in u.pkg.deps
    ensures x in Apply(jobs[..n], Installed(t))
  {
    AllEffect(k, t.uids, t.chains, chosen);
    SameActions(jobs, AllJobs(k, t.uids, t.chains, chosen));
    PrefixActions(jobs, n);
    if x.pkg.installed {
      assert x in Installed(t) && x !in Removed(jobs);
    } else {
      assert jobs[..|jobs|] == jobs;
      var i := AddedAt(jobs, n, u);
      var m := AddedAt(jobs, |jobs|, x);
      assert jobs[m].item.pkg.uid in Above(jobs[i].item, UpdateRequest);
      assert jobs[m] in jobs[..n];
    }
  }

  lemma DependencyIsThere(c: Config, t: Table, k: JobType, chosen: set<Unit>, jobs: seq<Solved>, n: nat,
                          u: Unit, d: Uid)
    requires t.Valid() && chosen <= t.Units() && DependenciesMet(c, chosen)
    requires forall uid :: uid in t.chains ==> Settled(t.chains[uid], chosen)
    requires multiset(jobs) == multiset(AllJobs(k, t.uids, t.chains, chosen)) && InOrder(UpdateRequest, jobs)
    requires n <= |jobs| && u in Added(jobs[..n]) && d in u.pkg.deps
    requires c.Resolves(Flags(false, false, false, c.forceMissing), d)
    ensures Provides(Apply(jobs[..n], Installed(t)), d)
  {
    ArrivedAreChosen(t, k, chosen, jobs, n, u);
    assert Provides(chosen, d);
    var x :| x in chosen && x.pkg.uid == d;
    assert x in t.Units() && t.Has(x);
    ProviderIsThere(t, k, chosen, jobs, n, u, x);
  }

  lemma PrefixHasDependencies(c: Config, t: Table, k: JobType, chosen: set<Unit>, jobs: seq<Solved>, n: nat)
    requires t.Valid() && chosen <= t.Units() && DependenciesMet(c, chosen)
    requires forall uid :: uid in t.chains ==> Settled(t.chains[uid], chosen)
    requires multiset(jobs) == multiset(AllJobs(k, t.uids, t.chains, chosen)) && InOrder(UpdateRequest, jobs)
    requires n <= |jobs|
    ensures ArrivedHaveDependencies(c, t, jobs[..n])
  {
    var part := jobs[..n];
    forall u, d | u in Added(part) && d in u.pkg.deps && c.Resolves(Flags(false, false, false, c.forceMissing), d)
      ensures Provides(Apply(part, Installed(t)), d)
    {
      DependencyIsThere(c, t, k, chosen, jobs, n, u, d);
    }
  }

  lemma ArrivedAreChosen(t: Table, k: JobType, chosen: set<Unit>, jobs: seq<Solved>, n: nat, u: Unit)
    requires t.Valid() && multiset(jobs) == multiset(AllJobs(k, t.uids, t.chains, chosen))
    requires n <= |jobs| && u in Added(jobs[..n])
    ensures u in chosen
  {
    AllEffect(k, t.uids, t.chains, chosen);
    SameActions(jobs, AllJobs(k, t.uids, t.chains, chosen));
    PrefixActions(jobs, n);
  }

  lemma PrefixKeepsUids(t: Table, k: JobType, chosen: set<Unit>, jobs: seq<Solved>, n: nat)
    requires t.Valid() && n <= |jobs| && Arrivals(jobs)
    requires multiset(jobs) == multiset(AllJobs(k, t.uids, t.chains, chosen))
    ensures NothingVanished(t, jobs[..n])
  {
    SameActions(jobs, AllJobs(k, t.uids, t.chains, chosen));
    PrefixActions(jobs, n);
    var after := Apply(jobs[..n], Installed(t));
    forall y | y in Installed(t) ensures Provides(after, y.pkg.uid) {
      if y in Removed(jobs[..n]) {
        var s :| s in jobs[..n] && y in RemovedBy(s);
        var uid := AllJobsOnChains(k, t.uids, t.chains, chosen, s);
        assert Table.ChainOf(uid, t.chains[uid]);
        assert s.item in AddedBy(s) && s.item in Added(jobs[..n]) && s.item in after;
      } else {
        assert y in after;
      }
    }
  }

  lemma PrefixesLackNothing(c: Config, t: Table, chosen: set<Unit>, jobs: seq<Solved>)
    requires t.Valid() && chosen <= t.Units() && DependenciesMet(c, chosen)
    requires forall uid :: uid in t.chains ==> Settled(t.chains[uid], chosen)
    requires multiset(jobs) == multiset(AllJobs(c.kind, t.uids, t.chains, chosen))
    requires InOrder(UpdateRequest, jobs) && Arrivals(jobs)
    ensures NeverLacks(c, t, jobs)
  {
    forall n | 0 <= n <= |jobs| ensures ArrivedHaveDependencies(c, t, jobs[..n]) && NothingVanished(t, jobs[..n]) {
      PrefixHasDependencies(c, t, c.kind, chosen, jobs, n);
      PrefixKeepsUids(t, c.kind, chosen, jobs, n);
    }
  }

  lemma UniformIsArrivals(t: Table, level: map<Uid, nat>, a: seq<Solved>, b: seq<Solved>)
    requires Uniform(t, level, UpdateRequest, a) && multiset(a) == multiset(b)
    ensures Arrivals(b)
  {
    SameActions(a, b);
  }

  /** All of it: the arrived have their dependencies and nothing vanishes, whenever the job stops. */
  lemma InstalledInOrder(c: Config, t: Table, level: map<Uid, nat>, chosen: set<Unit>,
                         all: seq<Solved>, jobs: seq<Solved>)
    requires t.Valid() && chosen <= t.Units() && all == AllJobs(c.kind, t.uids, t.chains, chosen)
    requires Uniform(t, level, UpdateRequest, all) && multiset(jobs) == multiset(all) && InOrder(UpdateRequest, jobs)
    requires DependenciesMet(c, chosen) && forall uid :: uid in t.chains ==> Settled(t.chains[uid], chosen)
    ensures NeverLacks(c, t, jobs)
  {
    UniformIsArrivals(t, level, all, jobs);
    PrefixesLackNothing(c, t, chosen, jobs);
  }

  /** Priorities and sort for the list of an install job. */
  method OrderInstall(c: Config, t: Table, j: Job, ghost chosen: set<Unit>, ghost level: map<Uid, nat>)
    returns (asserts: bool, ghost ks: seq<nat>, ghost split: seq<Solved>)
    requires j.Valid() && InstallPlan(c.kind, t, j.requestAdd, chosen, j.jobs)
    modifies j`jobs, j`count
    ensures j.Valid() && SplitInto(old(j.jobs), split, ks) && multiset(j.jobs) == multiset(split)
    ensures NoUnknownConflict(t, old(j.jobs)) ==> !asserts
    ensures Uniform(t, level, UpdateRequest, old(j.jobs)) ==> !asserts && ks == [] && InOrder(UpdateRequest, j.jobs)
  {
    DerivedIsPlaced(c.kind, t, chosen);
    asserts, ks, split := SetOrder(t, j, UpdateRequest, level);
  }
}
