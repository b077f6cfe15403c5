/** From requests to a list of actions: the retry loop of pkg_jobs_solve
    (libpkg/pkg_jobs.c) and what its result guarantees. */
module Plan {
  import opened Lists
  import opened Packages
  import opened Jobs
  import opened Solve
  import opened SatProblem
  import opened JobList
  import opened UpgradeChains
  import opened Universe

  lemma VariablesAreUnits(t: Table)
    requires t.Valid()
    ensures Distinct(Flatten(t.uids, t.chains))
    ensures forall u :: u in Flatten(t.uids, t.chains) <==> t.Has(u)
  {
    FlattenIsDistinct(t.uids, t.chains);
  }

  /** Prune, encode, ask, and start again with fewer requests until there is a result.
      The loop ends because every further round has lost an install request. */
  method SolveRequests(j: Job, t: Table, nitems: nat, oracle: Oracle, confirm: (nat, int) -> bool)
    returns (ret: Code, chosen: set<Unit>)
    requires j.Valid() && t.Valid() && Sound(oracle) && nitems == |Flatten(t.uids, t.chains)|
    requires forall uid :: uid in t.chains && NeedsSelection(t.chains[uid]) ==>
      exists u :: u in t.chains[uid] && IsRemote(u)
    modifies j
    ensures j.Valid() && j.requestDelete == old(j.requestDelete) && j.requestAdd <= old(j.requestAdd)
    ensures ret == Ok ==> Grants(t, j.requestAdd, j.requestDelete, chosen)
    ensures ret == Ok ==> j.jobs == old(j.jobs) + AllJobs(j.kind, t.uids, t.chains, chosen)
    ensures ret == Ok || (ret == Fatal && !IsDelete(j.kind) && exists n, l :: !confirm(n, l))
  {
    ret, chosen := Again, {};
    var round := 0;
    while ret == Again
      invariant j.Valid() && j.requestDelete == old(j.requestDelete) && j.requestAdd <= old(j.requestAdd)
      invariant j.jobs == old(j.jobs)
      invariant ret == Ok ==> Grants(t, j.requestAdd, j.requestDelete, chosen)
      invariant ret == Again && round > 0 ==> !IsDelete(j.kind)
      invariant ret == Fatal ==> !IsDelete(j.kind) && exists n, l :: !confirm(n, l)
      decreases ret == Again, |j.requestAdd|
    {
      ghost var before := j.requestAdd;
      ProcessUpgradeChains(j, t);
      VariablesAreUnits(t);
      var problem := JobsToSat(t, nitems, j.requestAdd, j.requestDelete);
      ghost var pruned := j.requestAdd;
      ret := SolveSat(problem, j, oracle, round, confirm);
      chosen := problem.toInstall;
      if ret == Again {
        SmallerSet(j.requestAdd, pruned, before);
      }
      round := round + 1;
    }
    if ret == Ok {
      SatToJobs(t, chosen, j);
    }
  }

  lemma SmallerSet(a: set<Unit>, b: set<Unit>, c: set<Unit>)
    requires a < b <= c
    ensures |a| < |c|
  {
    var x :| x in b && x !in a;
    assert a <= c - {x};
    CardinalityMonotone(a, c - {x});
  }

  lemma CardinalityMonotone(a: set<Unit>, b: set<Unit>)
    requires a <= b
    ensures |a| <= |b|
  {
    assert b == a + (b - a);
  }

  // ---------- what an install plan guarantees ----------

  /** Some unit of the set has the given uid. */
  ghost predicate Provides(s: set<Unit>, uid: Uid) {
    exists x :: x in s && x.pkg.uid == uid
  }

  /** The installed package of the uid has a unit in the universe. */
  ghost predicate Present(db: Db, t: Table, uid: Uid)
    requires uid in db.local
  {
    exists y :: t.Has(y) && y.pkg == db.local[uid]
  }

  /** The installed package of the uid is still there afterwards. */
  ghost predicate Remains(db: Db, t: Table, after: set<Unit>, uid: Uid)
    requires uid in db.local
  {
    forall y :: t.Has(y) && y.pkg == db.local[uid] ==> y in after
  }

  /** No unit that is there afterwards has a conflict that applies to another one. */
  ghost predicate ConflictFree(after: set<Unit>) {
    forall u, k, y :: u in after && k in u.pkg.conflicts && y in after && y.pkg.uid == k.uid ==>
      !ConflictApplies(k.kind, u, y)
  }

  /** Nor has a new unit one with an installed package, which the search is sure to have noticed. */
  ghost predicate NoneRemains(db: Db, t: Table, after: set<Unit>) {
    forall u, k ::
      u in after && !u.pkg.installed && k in u.pkg.conflicts && k.kind != RemoteRemote && k.uid in db.local ==>
      k.uid in t.chains && (Present(db, t, k.uid) ==> !Remains(db, t, after, k.uid))
  }

  /** Every dependency the databases can resolve is met. */
  ghost predicate DependenciesMet(c: Config, after: set<Unit>) {
    forall u, d :: u in after && d in u.pkg.deps && c.Resolves(Flags(false, false, false, c.forceMissing), d) ==>
      Provides(after, d)
  }

  /** For every library that a new unit requires and the repositories provide, a unit with the uid of a
      recorded provider is there. */
  ghost predicate LibrariesMet(c: Config, t: Table, after: set<Unit>) {
    forall u, s ::
      u in after && !u.pkg.installed && s in u.pkg.shlibsRequired && s in c.db.libs && c.db.libs[s] != [] ==>
      ProvidesLib(t, after, s)
  }

  /** What is installed of the universe after an install job. */
  ghost predicate InstallSound(c: Config, t: Table, add: set<Unit>, after: set<Unit>) {
    && (forall u :: u in add && t.Has(u) ==> u in after)
    && DependenciesMet(c, after)
    && ConflictFree(after)
    && NoneRemains(c.db, t, after)
    && LibrariesMet(c, t, after)
  }

  /** A universe that was built without a missing dependency, a choice that grants the requests
      and no two remote units on a chain: after the actions the chosen units are exactly what is
      installed of the universe, dependencies are met, as are the rules for libraries, no applicable
      conflict is violated, and every request is granted. */
  lemma InstallPlanIsSound(c: Config, t: Table, add: set<Unit>, chosen: set<Unit>)
    requires Installs(c.kind) && t.Valid() && c.db.Valid()
    requires Step(c, Table([], map[], map[]), t) && !Broken(c, t)
    requires Grants(t, add, {}, chosen)
    requires forall uid :: uid in t.chains ==> Settled(t.chains[uid], chosen)
    ensures var after := Apply(AllJobs(c.kind, t.uids, t.chains, chosen), Installed(t));
      after == chosen && InstallSound(c, t, add, after)
  {
    assert forall u :: u in chosen ==> u in t.Units();
    JobsAreExactDifference(c.kind, t, chosen);
    assert forall x :: t.Has(x) ==> Done(c, t, x.pkg);
    ChoiceMeetsDependencies(c, t, chosen);
    ChoiceRespectsConflicts(c, t, chosen);
    forall u, s | u in chosen && !u.pkg.installed && s in u.pkg.shlibsRequired && s in c.db.libs && c.db.libs[s] != []
      ensures ProvidesLib(t, chosen, s)
    {
      LibraryKnown(c, t, u.pkg, s);
      LibraryGranted(t, u, s, chosen);
    }
  }

  lemma ChoiceMeetsDependencies(c: Config, t: Table, chosen: set<Unit>)
    requires Installs(c.kind) && t.Valid() && Consistent(t, chosen) && chosen <= t.Units()
    requires forall x :: t.Has(x) ==> Done(c, t, x.pkg)
    ensures DependenciesMet(c, chosen)
  {
    IsPass(c, false);
    var pass := Flags(false, false, false, c.forceMissing);
    forall u, d | u in chosen && d in u.pkg.deps && c.Resolves(pass, d) ensures Provides(chosen, d) {
      assert t.Has(u) && Covered(c, t, u.pkg, pass);
      DependencyGranted(t, u, d, chosen);
    }
  }

  lemma ChoiceRespectsConflicts(c: Config, t: Table, chosen: set<Unit>)
    requires Installs(c.kind) && c.db.Valid() && t.Valid() && Consistent(t, chosen) && chosen <= t.Units()
    requires forall x :: t.Has(x) ==> Done(c, t, x.pkg)
    ensures ConflictFree(chosen) && NoneRemains(c.db, t, chosen)
  {
    forall u, k, y |
        u in chosen && k in u.pkg.conflicts && t.Has(y) && y.pkg.uid == k.uid && ConflictApplies(k.kind, u, y)
      ensures y !in chosen
    {
      UnitGranted(t, u, chosen);
      assert ConflictRespected(t, u, k, chosen);
    }
    forall u, k |
        u in chosen && !u.pkg.installed && k in u.pkg.conflicts && k.kind != RemoteRemote && k.uid in c.db.local
      ensures k.uid in t.chains && (Present(c.db, t, k.uid) ==> !Remains(c.db, t, chosen, k.uid))
    {
      ConflictNoticed(c, t, u.pkg, k);
      if y :| t.Has(y) && y.pkg == c.db.local[k.uid] {
        assert y.pkg.uid == k.uid && y.pkg.installed && ConflictApplies(k.kind, u, y);
      }
    }
  }

  lemma ConflictNoticed(c: Config, t: Table, p: Pkg, k: Conflict)
    requires Installs(c.kind) && !p.installed && Done(c, t, p) && k in p.conflicts && k.uid in c.db.local
    ensures k.uid in t.chains
  {
    var i :| 0 <= i < |p.conflicts| && p.conflicts[i] == k;
    assert ConflictKnown(c, t, p, p.conflicts[i].uid);
  }

  /** Some unit of the set has the uid of a recorded provider of the library. */
  ghost predicate ProvidesLib(t: Table, s: set<Unit>, shlib: string) {
    shlib in t.providers && exists p, x :: p in t.providers[shlib] && x in s && x.pkg.uid == p.pkg.uid
  }

  lemma LibraryKnown(c: Config, t: Table, p: Pkg, shlib: string)
    requires Installs(c.kind) && !p.installed && Done(c, t, p) && shlib in p.shlibsRequired
    requires shlib in c.db.libs && c.db.libs[shlib] != []
    ensures shlib in t.providers
  {
    var k :| 0 <= k < |p.shlibsRequired| && p.shlibsRequired[k] == shlib;
    assert LibKnown(c, t, p.shlibsRequired[k]);
  }

  lemma LibraryGranted(t: Table, u: Unit, shlib: string, chosen: set<Unit>)
    requires t.Valid() && Consistent(t, chosen) && t.Has(u) && u in chosen && !u.pkg.installed
    requires shlib in u.pkg.shlibsRequired && shlib in t.providers
    ensures ProvidesLib(t, chosen, shlib)
  {
    UnitGranted(t, u, chosen);
    assert LibraryMet(t, u, shlib, chosen);
    var p := t.providers[shlib][0];
    assert p in t.providers[shlib] && Table.ChainOf(p.pkg.uid, t.chains[p.pkg.uid]);
    var first := t.chains[p.pkg.uid][0];
    assert first in t.chains[p.pkg.uid] && first in Providers(t, shlib);
    var x :| x in Providers(t, shlib) && x in chosen;
    var q :| q in t.providers[shlib] && q.pkg.uid in t.chains && x in t.chains[q.pkg.uid];
    assert Table.ChainOf(q.pkg.uid, t.chains[q.pkg.uid]);
  }

  lemma UnitGranted(t: Table, u: Unit, chosen: set<Unit>)
    requires Consistent(t, chosen) && t.Has(u)
    ensures UnitConsistent(t, u, chosen)
  {
    var chain := t.chains[u.pkg.uid];
    assert ChainConsistent(t, chain, chosen);
    var k :| 0 <= k < |chain| && chain[k] == u;
  }

  lemma DependencyGranted(t: Table, u: Unit, d: Uid, chosen: set<Unit>)
    requires t.Valid() && Consistent(t, chosen) && t.Has(u) && u in chosen && d in u.pkg.deps && d in t.chains
    ensures Provides(chosen, d)
  {
    UnitGranted(t, u, chosen);
    assert DependencyMet(t, u, d, chosen);
    var x :| x in t.chains[d] && x in chosen;
    assert Table.ChainOf(d, t.chains[d]);
  }

  // ---------- chains of three ----------

  /** A table with one chain of one installed and two remote units. */
  function ThreeUnits(u0: Unit, u1: Unit, u2: Unit): Table {
    Table(["a"], map["a" := [u0, u1, u2]], map[])
  }

  lemma TwoRemoteAreConsistent(u0: Unit, u1: Unit, u2: Unit)
    requires u0.pkg.uid == u1.pkg.uid == u2.pkg.uid == "a" && u0 != u1 && u0 != u2 && u1 != u2
    requires forall u :: u in [u0, u1, u2] ==> u.pkg.deps == [] && u.pkg.conflicts == [] && u.pkg.shlibsRequired == []
    ensures ThreeUnits(u0, u1, u2).Valid() && {u1, u2} <= ThreeUnits(u0, u1, u2).Units()
    ensures Consistent(ThreeUnits(u0, u1, u2), {u1, u2})
  {
    var t := ThreeUnits(u0, u1, u2);
    assert t.Has(u1) && t.Has(u2);
    forall k | 0 <= k < 3 ensures UnitConsistent(t, t.chains["a"][k], {u1, u2}) {
      assert t.chains["a"][k] in [u0, u1, u2];
    }
  }

  /** On a longer chain only the head is exclusive: with a chain of one installed and two remote
      units, the rules accept both remote units, and then that chain gets no action at all. */
  lemma LongChainsMayStayUnsettled() returns (t: Table, chosen: set<Unit>)
    ensures t.Valid() && chosen <= t.Units() && Consistent(t, chosen)
    ensures exists uid :: uid in t.chains && !Settled(t.chains[uid], chosen)
    ensures Apply(AllJobs(Install, t.uids, t.chains, chosen), Installed(t)) != chosen
  {
    var p := Pkg("a", "d0", "1", true, false, false, [], [], [], []);
    var u0 := Unit(0, p);
    var u1 := Unit(1, p.(digest := "d1", version := "2", installed := false));
    var u2 := Unit(2, p.(digest := "d2", version := "3", installed := false));
    t, chosen := ThreeUnits(u0, u1, u2), {u1, u2};
    TwoRemoteAreConsistent(u0, u1, u2);
    TwoCome(u0, u1, u2);
    assert "a" in t.chains && !Settled(t.chains["a"], chosen);
    JobsAreExactDifference(Install, t, chosen);
  }

  lemma TwoCome(u0: Unit, u1: Unit, u2: Unit)
    requires u0.pkg.installed && !u1.pkg.installed && !u2.pkg.installed
    ensures !Settled([u0, u1, u2], {u1, u2})
  {
    var chosen := {u1, u2};
    FilterStep([u0, u1, u2], chosen, 2);
    FilterStep([u0, u1, u2], chosen, 1);
    assert [u0, u1, u2][..3] == [u0, u1, u2];
  }
}
