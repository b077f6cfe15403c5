/** An install job up to its ordered list, and the assertions on the way
    (libpkg/pkg_jobs.c, pkg_jobs_set_priorities; libpkg/pkg_jobs_universe.c,
    pkg_jobs_update_conflict_priority). */
module InstallOrder {
  import opened Lists
  import opened Packages
  import opened Jobs
  import opened SatProblem
  import opened JobList
  import opened Universe
  import opened Plan
  import opened Priority
  import opened Schedule
  import opened Install
  import opened Execution

  // ---------- when the assertions hold ----------

  /** Whatever an installed package conflicts with is not installed and has a repository candidate. */
  ghost predicate ConflictsOffered(db: Db) {
    forall p, k :: p in db.local && k in db.local[p].conflicts ==> k.uid !in db.local && Offered(db, k.uid)
  }

  lemma OfferedIsKnown(u: Universe, x: Unit, k: Conflict)
    requires u.Ready() && Installs(u.c.kind) && ConflictsOffered(u.c.db)
    requires Step(u.c, Table([], map[], map[]), u.T()) && !Broken(u.c, u.T())
    requires u.T().Has(x) && x.pkg.installed && k in x.pkg.conflicts
    ensures RemoteKnown(u.T(), k.uid)
  {
    InstalledIsLocal(u.c.db, x.pkg);
    assert Done(u.c, u.T(), x.pkg);
    var i :| 0 <= i < |x.pkg.conflicts| && x.pkg.conflicts[i] == k;
    assert ConflictKnown(u.c, u.T(), x.pkg, x.pkg.conflicts[i].uid);
    var head := u.T().chains[k.uid][0];
    assert Table.ChainOf(k.uid, u.T().chains[k.uid]) && u.T().Has(head);
    if head.pkg.installed {
      InstalledIsLocal(u.c.db, head.pkg);
    }
  }

  /** With such a database no pass over a derived list ends at an assertion. */
  lemma OfferedPlanIsKnown(u: Universe, chosen: set<Unit>)
    requires u.Ready() && Installs(u.c.kind) && ConflictsOffered(u.c.db)
    requires Step(u.c, Table([], map[], map[]), u.T()) && !Broken(u.c, u.T())
    ensures NoUnknownConflict(u.T(), AllJobs(u.c.kind, u.T().uids, u.T().chains, chosen))
  {
    var t := u.T();
    forall s | s in AllJobs(u.c.kind, t.uids, t.chains, chosen) && Conflicting(s) ensures !UnknownConflict(t, s) {
      var uid := AllJobsOnChains(u.c.kind, t.uids, t.chains, chosen, s);
      assert Table.ChainOf(uid, t.chains[uid]) && t.Has(s.old_item.value);
      forall k | k in s.old_item.value.pkg.conflicts ensures RemoteKnown(t, k.uid) {
        OfferedIsKnown(u, s.old_item.value, k);
      }
    }
  }

  /** An upgrade that an earlier action of a levelled pass depends on has a priority when it is visited,
      so its conflicts are not looked at and it never stops the pass. */
  lemma ShieldedNeverStops(t: Table, level: map<Uid, nat>, jobs: seq<Solved>, seen: seq<Priorities>, i: nat, n: nat)
    requires Placed(t, jobs) && PassGoesOn(t, jobs, seen) && AllPassAt(t, UpdateRequest, level, jobs, seen)
    requires i < n < |jobs| && n < |seen| && UniformTo(t, level, UpdateRequest, jobs, n)
    requires jobs[n].item.pkg.uid in jobs[i].item.pkg.deps
    ensures !Stops(t, seen[n], jobs[n])
  {
    assert jobs[n] in jobs && PlacedJob(t, jobs[n]) && jobs[i] in jobs && PlacedJob(t, jobs[i]);
    assert Good(t, UpdateRequest, seen[n], jobs[i].item);
  }

  /** The first action of a list is always visited with priority zero. */
  lemma FirstActionStops(t: Table, jobs: seq<Solved>, seen: seq<Priorities>, reply: Reply)
    requires PassEnds(t, jobs, seen, reply) && jobs != [] && Conflicting(jobs[0]) && UnknownConflict(t, jobs[0])
    ensures reply == Asserts && |seen| == 1
  {
    assert jobs[0] in jobs && Stops(t, seen[0], jobs[0]);
  }

  // ---------- an upgrade that ends at an assertion ----------

  const OLD := Pkg("a", "d0", "1", true, false, false, [], [], [Conflict("k", All)], [])
  const NEW := Pkg("a", "d1", "2", false, false, false, [], [], [], [])

  function OneUpgrade(): Db {
    Db(map["a" := OLD], map["a" := [NEW]], map[], (x: Pkg, y: Pkg) => x == NEW && y == OLD)
  }

  function OneChain(): Table {
    Table(["a"], map["a" := [Unit(0, OLD), Unit(1, NEW)]], map[])
  }

  lemma OnlyTwoPackages(x: Pkg)
    requires x in OneUpgrade().Packages()
    ensures x == OLD || x == NEW
  {
  }

  /** No search over this database finds anything for the conflict. */
  lemma ConflictStaysUnknown(u: Universe)
    requires u.Ready() && u.c.db == OneUpgrade()
    ensures !RemoteKnown(u.T(), "k")
  {
    if "k" in u.chains {
      var head := u.T().chains["k"][0];
      assert Table.ChainOf("k", u.T().chains["k"]) && u.T().Has(head);
      OnlyTwoPackages(head.pkg);
    }
  }

  lemma OneChainIsConsistent()
    ensures OneChain().Valid() && Grants(OneChain(), {Unit(1, NEW)}, {}, {Unit(1, NEW)})
  {
    var t := OneChain();
    assert forall x :: t.Has(x) <==> x == Unit(0, OLD) || x == Unit(1, NEW);
  }

  lemma NewReplacesOld()
    ensures Coming([Unit(0, OLD), Unit(1, NEW)], {Unit(1, NEW)}) == [Unit(1, NEW)]
    ensures Going([Unit(0, OLD), Unit(1, NEW)], {Unit(1, NEW)}) == [Unit(0, OLD)]
  {
    var chain, chosen := [Unit(0, OLD), Unit(1, NEW)], {Unit(1, NEW)};
    FilterStep(chain, chosen, 1);
    FilterStep(chain, chosen, 0);
    assert chain[..2] == chain && chain[..0] == [];
  }

  lemma UpgradeIsTheList()
    ensures AllJobs(Upgrade, OneChain().uids, OneChain().chains, {Unit(1, NEW)})
         == [Solved(SolvedUpgrade, Unit(1, NEW), Some(Unit(0, OLD)), false)]
  {
    NewReplacesOld();
    assert OneChain().uids[..0] == [];
  }

  /** A package that conflicts with something no database knows: the choice of its upgrade is granted, the
      list is this upgrade, and every pass over it ends at the assertion. */
  lemma UpgradeEndsAtAssertion() returns (t: Table, jobs: seq<Solved>)
    ensures OneUpgrade().Valid() && t.Valid() && Grants(t, {Unit(1, NEW)}, {}, {Unit(1, NEW)})
    ensures jobs == AllJobs(Upgrade, t.uids, t.chains, {Unit(1, NEW)}) && Placed(t, jobs)
    ensures forall seen, reply :: PassEnds(t, jobs, seen, reply) ==> reply == Asserts
  {
    t, jobs := OneChain(), AllJobs(Upgrade, OneChain().uids, OneChain().chains, {Unit(1, NEW)});
    forall x | x in OneUpgrade().Packages() ensures x == OLD || x == NEW {
      OnlyTwoPackages(x);
    }
    OneChainIsConsistent();
    UpgradeIsTheList();
    DerivedIsPlaced(Upgrade, t, {Unit(1, NEW)});
    assert Conflict("k", All) in OLD.conflicts && !RemoteKnown(t, "k");
    forall seen, reply | PassEnds(t, jobs, seen, reply) ensures reply == Asserts {
      FirstActionStops(t, jobs, seen, reply);
    }
  }

  // ---------- the whole job ----------

  /** A list of arrivals on a levelled universe is sound at any time. */
  ghost predicate InOrderOutcome(c: Config, t: Table, level: map<Uid, nat>, chosen: set<Unit>, plan: seq<Solved>,
                                 jobs: seq<Solved>, asserts: bool)
  {
    Uniform(t, level, UpdateRequest, plan) && DependenciesMet(c, chosen) && AllSettled(t, chosen) ==>
      !asserts && NeverLacks(c, t, jobs)
  }

  ghost predicate AllSettled(t: Table, chosen: set<Unit>) {
    forall uid :: uid in t.chains ==> Settled(t.chains[uid], chosen)
  }

  lemma OrderedInstall(c: Config, t: Table, level: map<Uid, nat>, chosen: set<Unit>, plan: seq<Solved>,
                       jobs: seq<Solved>, asserts: bool)
    requires t.Valid() && chosen <= t.Units() && plan == AllJobs(c.kind, t.uids, t.chains, chosen)
    requires Uniform(t, level, UpdateRequest, plan) ==>
      !asserts && multiset(jobs) == multiset(plan) && InOrder(UpdateRequest, jobs)
    ensures InOrderOutcome(c, t, level, chosen, plan, jobs, asserts)
  {
    if Uniform(t, level, UpdateRequest, plan) && DependenciesMet(c, chosen) && AllSettled(t, chosen) {
      InstalledInOrder(c, t, level, chosen, plan, jobs);
    }
  }

  method OrderPlan(c: Config, t: Table, j: Job, ghost chosen: set<Unit>, ghost level: map<Uid, nat>)
    returns (asserts: bool)
    requires j.Valid() && InstallPlan(c.kind, t, j.requestAdd, chosen, j.jobs)
    modifies j`jobs, j`count
    ensures j.Valid() && InOrderOutcome(c, t, level, chosen, old(j.jobs), j.jobs, asserts)
    ensures NoUnknownConflict(t, old(j.jobs)) ==> !asserts
  {
    ghost var plan, ks, split := j.jobs, [], [];
    asserts, ks, split := OrderInstall(c, t, j, chosen, level);
    if Uniform(t, level, UpdateRequest, plan) {
      assert split == plan;
    }
    assert chosen <= t.Units();
    OrderedInstall(c, t, level, chosen, plan, j.jobs, asserts);
  }

  /** What an install job ends with: a plan that keeps its promise, a list that is sound at any time, and
      no assertion on the way when the repositories offer whatever installed packages conflict with. */
  ghost predicate OrderedJob(c: Config, t: Table, level: map<Uid, nat>, add: set<Unit>, chosen: set<Unit>,
                             plan: seq<Solved>, jobs: seq<Solved>, asserts: bool)
  {
    && InstallPlan(c.kind, t, add, chosen, plan) && Promised(c, t, add, chosen, plan)
    && InOrderOutcome(c, t, level, chosen, plan, jobs, asserts)
    && (Installs(c.kind) && !Broken(c, t) && ConflictsOffered(c.db) ==> !asserts)
  }

  lemma JobIsOrdered(u: Universe, level: map<Uid, nat>, add: set<Unit>, chosen: set<Unit>, plan: seq<Solved>,
                     jobs: seq<Solved>, asserts: bool)
    requires u.Ready() && Step(u.c, Table([], map[], map[]), u.T())
    requires InstallPlan(u.c.kind, u.T(), add, chosen, plan) && Promised(u.c, u.T(), add, chosen, plan)
    requires InOrderOutcome(u.c, u.T(), level, chosen, plan, jobs, asserts)
    requires NoUnknownConflict(u.T(), plan) ==> !asserts
    ensures OrderedJob(u.c, u.T(), level, add, chosen, plan, jobs, asserts)
  {
    if Installs(u.c.kind) && !Broken(u.c, u.T()) && ConflictsOffered(u.c.db) {
      OfferedPlanIsKnown(u, chosen);
    }
  }

  /** From candidates to the list in the order of execution. */
  method InstallInOrder(c: Config, candidates: seq<Pkg>, oracle: Oracle, confirm: (nat, int) -> bool,
                        ghost level: map<Uid, nat>)
    returns (ret: Code, asserts: bool, j: Job, u: Universe, ghost plan: seq<Solved>, ghost chosen: set<Unit>)
    requires c.db.Valid() && UpgradesDiffer(c.db) && !IsDelete(c.kind) && Sound(oracle)
    requires forall p :: p in candidates ==> p in c.db.Packages() && !p.installed
    ensures fresh(j) && fresh(u) && j.Valid() && u.Ready() && u.c == c
    ensures ret == Ok ==> OrderedJob(c, u.T(), level, j.requestAdd, chosen, plan, j.jobs, asserts)
  {
    ghost var asked;
    ret, j, u, asked, chosen := SolveInstall(c, candidates, oracle, confirm);
    plan, asserts := j.jobs, false;
    if ret == Ok {
      asserts := OrderPlan(c, u.T(), j, chosen, level);
      JobIsOrdered(u, level, j.requestAdd, chosen, plan, j.jobs, asserts);
    }
  }
}
