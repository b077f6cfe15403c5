/** Recursive deinstall, end to end (libpkg/pkg_jobs.c, jobs_solve_deinstall):
    universe, requests, solver and actions together never strand an installed package. */
module Deinstall {
  import opened Lists
  import opened Packages
  import opened Jobs
  import opened Solve
  import opened SatProblem
  import opened JobList
  import opened Universe
  import opened Plan

  /** The local database: reverse dependencies mirror dependencies between installed packages. */
  ghost predicate Mirrored(db: Db) {
    forall q, d :: q in db.local && d in db.local && d in db.local[q].deps ==> q in db.local[d].rdeps
  }

  /** Installed package q needs installed package d. */
  ghost predicate Needs(db: Db, q: Uid, d: Uid) {
    q in db.local && d in db.local && d in db.local[q].deps
  }

  /** After the removals every installed package still has all it needs of what was there. */
  ghost predicate NothingStranded(db: Db, removed: set<Uid>) {
    forall q, d :: Needs(db, q, d) && d in removed ==> q in removed
  }

  /** Each step of the path needs the next one. */
  ghost predicate NeedsPath(db: Db, path: seq<Uid>) {
    path != [] && forall i :: 0 <= i < |path| - 1 ==> Needs(db, path[i], path[i + 1])
  }

  /** Everything that depends on a removed package, however indirectly, is removed too. */
  lemma {:induction false} TransitiveDependentsGo(db: Db, removed: set<Uid>, path: seq<Uid>)
    requires NothingStranded(db, removed) && NeedsPath(db, path)
    requires path[|path| - 1] in removed
    ensures path[0] in removed
    decreases |path|
  {
    if |path| > 1 {
      assert Needs(db, path[0], path[0 + 1]);
      forall i | 0 <= i < |path[1..]| - 1 ensures Needs(db, path[1..][i], path[1..][i + 1]) {
        assert Needs(db, path[i + 1], path[i + 1 + 1]);
      }
      TransitiveDependentsGo(db, removed, path[1..]);
    }
  }

  /** The mirror in the other direction; both hold when the two lists come from one table. */
  ghost predicate MirroredBack(db: Db) {
    forall q, d :: q in db.local && d in db.local && q in db.local[d].rdeps ==> d in db.local[q].deps
  }

  /** Some way of needs leads from q to one of the goals. */
  ghost predicate Leads(db: Db, q: Uid, goals: set<Uid>) {
    exists path :: LeadsBy(db, path, q, goals)
  }

  ghost predicate LeadsBy(db: Db, path: seq<Uid>, q: Uid, goals: set<Uid>) {
    NeedsPath(db, path) && path[0] == q && path[|path| - 1] in goals
  }

  /** The installed packages that are a goal or depend on one, however indirectly. */
  ghost function Dependents(db: Db, goals: set<Uid>): set<Uid> {
    set q | q in db.local && Leads(db, q, goals)
  }

  lemma LeadsFurther(db: Db, q: Uid, d: Uid, goals: set<Uid>)
    requires Needs(db, q, d) && Leads(db, d, goals)
    ensures Leads(db, q, goals)
  {
    var path :| LeadsBy(db, path, d, goals);
    var longer := [q] + path;
    forall i | 0 <= i < |longer| - 1 ensures Needs(db, longer[i], longer[i + 1]) {
      if i > 0 {
        var k := i - 1;
        assert Needs(db, path[k], path[k + 1]);
      }
    }
    assert LeadsBy(db, longer, q, goals);
  }

  lemma GoalsLead(db: Db, q: Uid, goals: set<Uid>)
    requires q in goals
    ensures Leads(db, q, goals)
  {
    assert LeadsBy(db, [q], q, goals);
  }

  lemma DependentsStay(db: Db, goals: set<Uid>)
    requires MirroredBack(db)
    ensures RdepsStay(db, Dependents(db, goals))
  {
    forall q, d | q in db.local && q in Dependents(db, goals) && d in db.local[q].rdeps && d in db.local
      ensures d in Dependents(db, goals)
    {
      LeadsFurther(db, d, q, goals);
    }
  }

  /** Uids of the packages that a list of actions takes out. */
  function RemovedUids(jobs: seq<Solved>): set<Uid> {
    set u | u in Removed(jobs) :: u.pkg.uid
  }

  /** A universe built by a recursive deinstall job: installed packages only, one unit per uid,
      closed under reverse dependencies. */
  ghost predicate ReverseClosed(db: Db, t: Table) {
    && t.Valid()
    && (forall x :: t.Has(x) ==> x.pkg.uid in db.local && x.pkg == db.local[x.pkg.uid])
    && (forall u :: u in t.chains ==> |t.chains[u]| == 1)
    && (forall x, q :: t.Has(x) && q in x.pkg.rdeps && q in db.local ==> q in t.chains)
  }

  /** In such a universe the dependency rules alone force out everything that needs a unit
      that is not chosen. */
  lemma DependentsAreNotChosen(db: Db, t: Table, chosen: set<Unit>, q: Uid, d: Uid)
    requires Mirrored(db) && ReverseClosed(db, t) && Consistent(t, chosen)
    requires Needs(db, q, d) && d in t.chains && t.chains[d][0] !in chosen
    ensures q in t.chains && t.chains[q][0] !in chosen
  {
    var x := t.chains[d][0];
    assert t.Has(x) && x.pkg.uid == d by { assert Table.ChainOf(d, t.chains[d]); }
    var y := t.chains[q][0];
    assert t.Has(y) && y.pkg.uid == q by { assert Table.ChainOf(q, t.chains[q]); }
    assert y.pkg == db.local[q] && x.pkg == db.local[d];
    UnitGranted(t, y, chosen);
    assert DependencyMet(t, y, d, chosen);
    assert Meets(t.chains[d], chosen) ==> x in chosen;
  }

  lemma OnlyUnit(db: Db, t: Table, u: Unit)
    requires db.Valid() && ReverseClosed(db, t) && t.Has(u)
    ensures u.pkg.installed && t.chains[u.pkg.uid] == [u]
  {
    assert |t.chains[u.pkg.uid]| == 1;
  }

  /** The actions take out exactly the units of the universe that are not chosen. */
  lemma RemovedAreUnchosen(db: Db, t: Table, k: JobType, chosen: set<Unit>, uid: Uid)
    requires db.Valid() && ReverseClosed(db, t)
    ensures uid in RemovedUids(AllJobs(k, t.uids, t.chains, chosen))
       <==> uid in t.chains && t.chains[uid][0] !in chosen
  {
    var removed := Removed(AllJobs(k, t.uids, t.chains, chosen));
    forall u ensures u in removed <==> t.Has(u) && u !in chosen {
      UnitRemovedIff(db, t, k, chosen, u);
    }
    if uid in t.chains {
      assert Table.ChainOf(uid, t.chains[uid]) && t.Has(t.chains[uid][0]);
      OnlyUnit(db, t, t.chains[uid][0]);
    }
  }

  lemma UnitRemovedIff(db: Db, t: Table, k: JobType, chosen: set<Unit>, u: Unit)
    requires db.Valid() && ReverseClosed(db, t)
    ensures u in Removed(AllJobs(k, t.uids, t.chains, chosen)) <==> t.Has(u) && u !in chosen
  {
    AllEffect(k, t.uids, t.chains, chosen);
    if t.Has(u) {
      OnlyUnit(db, t, u);
      assert Coming([u], chosen) == [];
    }
  }

  /** Nothing is stranded: by the universe, the rules and the actions together. */
  lemma DeinstallStrandsNothing(db: Db, t: Table, k: JobType, delete: set<Unit>, chosen: set<Unit>)
    requires db.Valid() && Mirrored(db) && ReverseClosed(db, t) && Grants(t, {}, delete, chosen)
    ensures NothingStranded(db, RemovedUids(AllJobs(k, t.uids, t.chains, chosen)))
    ensures forall u :: u in delete && t.Has(u) ==> u.pkg.uid in RemovedUids(AllJobs(k, t.uids, t.chains, chosen))
  {
    var removed := RemovedUids(AllJobs(k, t.uids, t.chains, chosen));
    forall q, d | Needs(db, q, d) && d in removed ensures q in removed {
      RemovedAreUnchosen(db, t, k, chosen, d);
      DependentsAreNotChosen(db, t, chosen, q, d);
      RemovedAreUnchosen(db, t, k, chosen, q);
    }
    forall u | u in delete && t.Has(u) ensures u.pkg.uid in removed {
      OnlyUnit(db, t, u);
      RemovedAreUnchosen(db, t, k, chosen, u.pkg.uid);
    }
  }

  lemma SingleUnit(chain: Chain)
    requires chain != [] && Distinct(chain) && forall i :: 0 <= i < |chain| ==> chain[i] == chain[0]
    ensures |chain| == 1
  {
    if |chain| > 1 { FirstTwoDiffer(chain); }
  }

  lemma FirstTwoDiffer(chain: Chain)
    requires |chain| > 1 && Distinct(chain)
    ensures chain[0] != chain[1]
  {
  }

  /** What the search of a recursive deinstall job leaves behind. */
  lemma SearchIsReverseClosed(u: Universe)
    requires u.Ready() && u.c.kind == Deinstall && u.c.recursive
    requires Step(u.c, Table([], map[], map[]), u.T()) && !Broken(u.c, u.T())
    ensures ReverseClosed(u.c.db, u.T())
  {
    var db, t := u.c.db, u.T();
    IsPass(u.c, true);
    var pass := Flags(true, false, true, u.c.forceMissing);
    forall x | t.Has(x) ensures x.pkg.uid in db.local && x.pkg == db.local[x.pkg.uid] {
      assert x.pkg in db.Packages() && x.pkg.installed;
    }
    forall uid | uid in t.chains ensures |t.chains[uid]| == 1 {
      var chain := t.chains[uid];
      assert Table.ChainOf(uid, chain);
      forall i | 0 <= i < |chain| ensures chain[i] == chain[0] {
        assert t.Has(chain[i]) && t.Has(chain[0]);
        assert chain[i].pkg == db.local[uid] == chain[0].pkg;
      }
      SingleUnit(chain);
    }
    forall x, q | t.Has(x) && q in x.pkg.rdeps && q in db.local ensures q in t.chains {
      assert Covered(u.c, t, x.pkg, pass);
    }
  }

  /** Reverse dependencies that are installed packages can all be looked up. */
  lemma NeverBroken(u: Universe)
    requires u.Ready() && u.c.kind == Deinstall
    requires forall p, d :: p in u.c.db.local.Values && d in p.rdeps ==> d in u.c.db.local
    ensures !Broken(u.c, u.T())
  {
    forall x, flags, d | u.T().Has(x) && flags in u.c.Passes() && d in Next(x.pkg, flags)
      ensures u.c.Resolves(flags, d)
    {
      assert x.pkg in u.c.db.Packages() && x.pkg.installed;
      assert x.pkg in u.c.db.local.Values;
    }
  }

  /** Each package that is not locked has a delete request for a unit of the universe. */
  ghost predicate Requested(matched: seq<Pkg>, t: Table, delete: set<Unit>) {
    RequestedTo(matched, |matched|, t, delete)
  }

  ghost predicate RequestedTo(matched: seq<Pkg>, n: nat, t: Table, delete: set<Unit>)
    requires n <= |matched|
  {
    forall k :: 0 <= k < n && !matched[k].locked ==> RequestedUid(t, delete, matched[k].uid)
  }

  ghost predicate RequestedUid(t: Table, delete: set<Unit>, uid: Uid) {
    exists x :: x in delete && t.Has(x) && x.pkg.uid == uid
  }

  /** One round of the loop over the matched packages. */
  method RequestNext(u: Universe, j: Job, matched: seq<Pkg>, i: nat)
    requires u.Ready() && u.c.kind == Deinstall && j.Valid() && j.kind == Deinstall && i < |matched|
    requires matched[i] in u.c.db.local.Values && matched[i].uid in u.bound
    requires RequestedTo(matched, i, u.T(), j.requestDelete)
    modifies u, j`requestAdd, j`requestDelete
    ensures u.Ready() && j.Valid() && Step(u.c, old(u.T()), u.T())
    ensures RequestedTo(matched, i + 1, u.T(), j.requestDelete)
  {
    ghost var t1, d1 := u.T(), j.requestDelete;
    var unit := RequestOne(u, j, matched[i]);
    RequestedStep(matched, i, t1, u.T(), d1, j.requestDelete, unit);
  }

  /** The loop over the matched packages: universe first, then the request unless locked. */
  method RequestAll(u: Universe, j: Job, matched: seq<Pkg>)
    requires u.Ready() && u.c.kind == Deinstall && u.T() == Table([], map[], map[])
    requires j.Valid() && j.kind == Deinstall && forall p :: p in matched ==> p in u.c.db.local.Values
    requires forall p :: p in matched ==> p.uid in u.bound
    modifies u, j`requestAdd, j`requestDelete
    ensures u.Ready() && j.Valid() && Requested(matched, u.T(), j.requestDelete)
    ensures Step(u.c, Table([], map[], map[]), u.T())
  {
    var i := 0;
    while i < |matched|
      invariant 0 <= i <= |matched| && u.Ready() && j.Valid()
      invariant Step(u.c, Table([], map[], map[]), u.T())
      invariant RequestedTo(matched, i, u.T(), j.requestDelete)
    {
      ghost var t1 := u.T();
      assert matched[i] in matched;
      RequestNext(u, j, matched, i);
      StepTransitive(u.c, Table([], map[], map[]), t1, u.T());
      i := i + 1;
    }
  }

  function UidsOf(matched: seq<Pkg>): set<Uid> { set p | p in matched :: p.uid }

  /** In a universe of installed packages a uid with a chain is the installed package itself. */
  lemma KnownIsSeen(c: Config, t: Table, seen: map<string, Unit>, bound: set<Uid>, pkg: Pkg)
    requires c.db.Valid() && t.Valid() && Sourced(c, t, seen, bound) && IsDelete(c.kind) && pkg in c.db.local.Values
    ensures pkg.uid in t.chains ==> pkg.digest in seen
  {
    if pkg.uid in t.chains {
      assert Table.ChainOf(pkg.uid, t.chains[pkg.uid]) && t.Has(t.chains[pkg.uid][0]);
      InstalledIsLocal(c.db, t.chains[pkg.uid][0].pkg);
    }
  }

  /** The search from one match. */
  method SearchMatch(u: Universe, pkg: Pkg) returns (unit: Unit)
    requires u.Ready() && u.c.kind == Deinstall && pkg in u.c.db.local.Values && pkg.uid in u.bound
    modifies u
    ensures u.Ready() && Step(u.c, old(u.T()), u.T())
    ensures u.T().Has(unit) && unit.pkg.uid == pkg.uid
  {
    assert pkg in u.c.db.Packages();
    KnownIsSeen(u.c, u.T(), u.seen, u.bound, pkg);
    var rc;
    rc, unit := u.ProcessItem(pkg);
  }

  method RequestOne(u: Universe, j: Job, pkg: Pkg) returns (unit: Unit)
    requires u.Ready() && u.c.kind == Deinstall && j.Valid() && j.kind == Deinstall
    requires pkg in u.c.db.local.Values && pkg.uid in u.bound
    modifies u, j`requestAdd, j`requestDelete
    ensures u.Ready() && j.Valid() && Step(u.c, old(u.T()), u.T())
    ensures u.T().Has(unit) && unit.pkg.uid == pkg.uid
    ensures j.requestDelete == if pkg.locked then old(j.requestDelete) else old(j.requestDelete) + {unit}
  {
    unit := SearchMatch(u, pkg);
    if !pkg.locked {
      assert unit.pkg.installed;
      j.AddReq(unit);
    }
  }

  lemma RequestedStep(matched: seq<Pkg>, i: nat, a: Table, b: Table, before: set<Unit>, after: set<Unit>, unit: Unit)
    requires i < |matched| && RequestedTo(matched, i, a, before) && Grows(a, b) && before <= after
    requires !matched[i].locked ==> unit in after && b.Has(unit) && unit.pkg.uid == matched[i].uid
    ensures RequestedTo(matched, i + 1, b, after)
  {
    forall k | 0 <= k < i + 1 && !matched[k].locked ensures RequestedUid(b, after, matched[k].uid) {
      if k < i {
        var x :| x in before && a.Has(x) && x.pkg.uid == matched[k].uid;
        assert x in after && b.Has(x);
      }
    }
  }

  /** Nothing outside the bound of the search is taken out. */
  lemma RemovedWithinBound(u: Universe, k: JobType, chosen: set<Unit>)
    requires u.Ready() && u.c.kind == Deinstall && ReverseClosed(u.c.db, u.T())
    ensures RemovedUids(AllJobs(k, u.T().uids, u.T().chains, chosen)) <= u.bound
  {
    var t := u.T();
    forall q | q in RemovedUids(AllJobs(k, t.uids, t.chains, chosen)) ensures q in u.bound {
      RemovedAreUnchosen(u.c.db, t, k, chosen, q);
      assert Table.ChainOf(q, t.chains[q]) && t.Has(t.chains[q][0]);
    }
  }

  /** What the search of a deinstall job may reach. */
  ghost function Reach(db: Db, matched: seq<Pkg>): set<Uid> {
    if MirroredBack(db) then Dependents(db, UidsOf(matched)) else db.local.Keys
  }

  lemma ReachStays(db: Db, matched: seq<Pkg>)
    requires db.Valid() && forall p :: p in matched ==> p in db.local.Values
    ensures RdepsStay(db, Reach(db, matched)) && forall p :: p in matched ==> p.uid in Reach(db, matched)
  {
    var goals := UidsOf(matched);
    if MirroredBack(db) {
      DependentsStay(db, goals);
      forall p | p in matched ensures p.uid in Reach(db, matched) {
        assert p.uid in goals && p.uid in db.local;
        GoalsLead(db, p.uid, goals);
      }
    }
  }

  /** Where nothing is stranded, all dependents of what goes go. */
  lemma DependentsGo(db: Db, goals: set<Uid>, removed: set<Uid>)
    requires NothingStranded(db, removed) && goals <= removed
    ensures Dependents(db, goals) <= removed
  {
    forall q | q in Dependents(db, goals) ensures q in removed {
      var path :| LeadsBy(db, path, q, goals);
      TransitiveDependentsGo(db, removed, path);
    }
  }

  /** The list is the one derived from a choice that grants the requests. */
  ghost predicate DeinstallPlan(t: Table, delete: set<Unit>, chosen: set<Unit>, jobs: seq<Solved>) {
    t.Valid() && Grants(t, {}, delete, chosen) && jobs == AllJobs(Deinstall, t.uids, t.chains, chosen)
  }

  /** What a deinstall job promises: all unlocked matches go, no installed package is stranded, and
      only matches and their dependents go; without locked matches these are exactly what goes. */
  ghost predicate Fulfilled(db: Db, matched: seq<Pkg>, removed: set<Uid>) {
    && NothingStranded(db, removed)
    && (forall p :: p in matched && !p.locked ==> p.uid in removed)
    && (MirroredBack(db) ==> removed <= Dependents(db, UidsOf(matched)))
    && (MirroredBack(db) && (forall p :: p in matched ==> !p.locked) ==>
          removed == Dependents(db, UidsOf(matched)))
  }

  lemma PlanFulfils(u: Universe, matched: seq<Pkg>, delete: set<Unit>, chosen: set<Unit>, jobs: seq<Solved>)
    requires u.Ready() && u.c.kind == Deinstall && Mirrored(u.c.db) && ReverseClosed(u.c.db, u.T())
    requires u.bound == Reach(u.c.db, matched) && Requested(matched, u.T(), delete)
    requires DeinstallPlan(u.T(), delete, chosen, jobs)
    ensures Fulfilled(u.c.db, matched, RemovedUids(jobs))
  {
    var removed := RemovedUids(jobs);
    DeinstallStrandsNothing(u.c.db, u.T(), Deinstall, delete, chosen);
    MatchesGo(matched, u.T(), delete, removed);
    RemovedWithinBound(u, Deinstall, chosen);
    BoundsFulfil(u.c.db, matched, removed);
  }

  lemma MatchesGo(matched: seq<Pkg>, t: Table, delete: set<Unit>, removed: set<Uid>)
    requires Requested(matched, t, delete)
    requires forall x :: x in delete && t.Has(x) ==> x.pkg.uid in removed
    ensures forall p :: p in matched && !p.locked ==> p.uid in removed
  {
    forall p | p in matched && !p.locked ensures p.uid in removed {
      var k :| 0 <= k < |matched| && matched[k] == p;
      assert RequestedUid(t, delete, p.uid);
    }
  }

  lemma BoundsFulfil(db: Db, matched: seq<Pkg>, removed: set<Uid>)
    requires NothingStranded(db, removed) && removed <= Reach(db, matched)
    requires forall p :: p in matched && !p.locked ==> p.uid in removed
    ensures Fulfilled(db, matched, removed)
  {
    if forall p :: p in matched ==> !p.locked {
      DependentsGo(db, UidsOf(matched), removed);
    }
  }

  /** jobs_solve_deinstall, from an empty universe. */
  method BuildDeinstall(db: Db, matched: seq<Pkg>) returns (j: Job, u: Universe)
    requires db.Valid() && forall p :: p in matched ==> p in db.local.Values
    requires forall p, d :: p in db.local.Values && d in p.rdeps ==> d in db.local
    ensures fresh(j) && fresh(u) && j.Valid() && u.Ready() && ReverseClosed(db, u.T())
    ensures u.c.db == db && u.c.kind == Deinstall && j.kind == Deinstall && u.bound == Reach(db, matched)
    ensures Requested(matched, u.T(), j.requestDelete) && j.jobs == []
  {
    j := new Job(Deinstall);
    ReachStays(db, matched);
    u := new Universe(Config(db, Deinstall, true, false), Reach(db, matched));
    RequestAll(u, j, matched);
    NeverBroken(u);
    SearchIsReverseClosed(u);
  }

  /** From matched packages to the list of actions, for every sound solver. */
  method SolveDeinstall(db: Db, matched: seq<Pkg>, oracle: Oracle, confirm: (nat, int) -> bool)
    returns (j: Job, u: Universe, ghost chosen: set<Unit>)
    requires db.Valid() && Mirrored(db) && Sound(oracle)
    requires forall p :: p in matched ==> p in db.local.Values
    requires forall p, d :: p in db.local.Values && d in p.rdeps ==> d in db.local
    ensures fresh(j) && fresh(u) && j.Valid() && u.Ready() && u.c.db == db && ReverseClosed(db, u.T())
    ensures DeinstallPlan(u.T(), j.requestDelete, chosen, j.jobs)
    ensures Fulfilled(db, matched, RemovedUids(j.jobs))
  {
    j, u := BuildDeinstall(db, matched);
    var t := u.T();
    assert forall uid :: uid in t.chains ==> |t.chains[uid]| == 1;
    var ret, choice := SolveRequests(j, t, u.nitems, oracle, confirm);
    chosen := choice;
    PlanFulfils(u, matched, j.requestDelete, chosen, j.jobs);
  }
}
