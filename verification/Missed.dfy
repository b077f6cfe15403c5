/** A conflict with an installed package that the solver never hears of
    (libpkg/pkg_jobs_universe.c, pkg_jobs_universe_process_conflicts). */
module Missed {
  import opened Packages
  import opened Jobs
  import opened Solve
  import opened SatProblem
  import opened JobList
  import opened Universe
  import opened Plan
  import opened Install

  /** When an installed package conflicts with a uid that has no chain yet, a repository candidate opens
      the chain, and the installed package of that uid is shut out for good. */
  lemma ShutOutStays(c: Config, a: Table, b: Table, d: Table, uid: Uid)
    requires c.db.Valid() && uid in c.db.local && !Present(c.db, a, uid)
    requires Grows(a, b) && NoneJoined(a, b, uid) && uid in b.chains && Step(c, b, d)
    ensures !Present(c.db, d, uid)
  {
    forall y | d.Has(y) ensures y.pkg != c.db.local[uid] {
      if b.Has(y) && a.Has(y) {
        assert y.pkg != c.db.local[uid];
      }
    }
  }

  /** Without dependencies and libraries, processing a package comes to adding it and looking at its
      conflicts. */
  predicate Bare(p: Pkg) { p.deps == [] && p.rdeps == [] && p.shlibsRequired == [] }

  lemma BareIsDone(c: Config, t: Table, p: Pkg)
    requires Bare(p) && |p.conflicts| == 1 && ConflictKnown(c, t, p, p.conflicts[0].uid)
    ensures Done(c, t, p)
  {
    DoneByPasses(c, t, p);
  }

  lemma OnlyChain(t: Table, first: Unit)
    requires OneMore(Table([], map[], map[]), t, first)
    ensures forall uid :: uid in t.chains ==> uid == first.pkg.uid
  {
    forall uid | uid in t.chains ensures uid == first.pkg.uid {
      assert Table.ChainOf(uid, t.chains[uid]) && t.Has(t.chains[uid][0]);
    }
  }

  /** What adding an installed package and looking at its one conflict amounts to. */
  lemma ConflictOutcome(c: Config, t1: Table, t2: Table, first: Unit, k: Uid)
    requires c.db.Valid() && OneMore(Table([], map[], map[]), t1, first) && Step(c, t1, t2)
    requires first.pkg.installed && first.pkg.uid != k && k in c.db.local && k in t2.chains && NoneJoined(t1, t2, k)
    requires Done(c, t2, first.pkg)
    ensures Step(c, Table([], map[], map[]), t2) && t2.Has(first) && !Present(c.db, t2, k)
  {
    ItemDone(c, Table([], map[], map[]), t1, t2, first);
    forall y | t2.Has(y) ensures y.pkg != c.db.local[k] {
      if t1.Has(y) {
        assert y == first;
      }
    }
  }

  /** The search below an installed package p whose one conflict is with an installed package that the
      repositories have a candidate for. */
  method SearchConflicting(u: Universe, p: Pkg) returns (first: Unit)
    requires u.Ready() && u.T() == Table([], map[], map[]) && Installs(u.c.kind) && !LocalsAgree(u.c.db)
    requires p in u.c.db.local.Values && Bare(p) && |p.conflicts| == 1
    requires p.digest !in u.seen && p.uid != p.conflicts[0].uid
    requires p.conflicts[0].uid in u.c.db.local && Offered(u.c.db, p.conflicts[0].uid)
    modifies u
    ensures u.Ready() && Step(u.c, Table([], map[], map[]), u.T()) && u.T().Has(first) && first.pkg == p
    ensures p.conflicts[0].uid in u.chains && !Present(u.c.db, u.T(), p.conflicts[0].uid)
  {
    first := AddFirst(u, p);
    ghost var t1 := u.T();
    u.ProcessConflict(first, p.conflicts[0]);
    BareIsDone(u.c, u.T(), p);
    ConflictOutcome(u.c, t1, u.T(), first, p.conflicts[0].uid);
  }

  method AddFirst(u: Universe, p: Pkg) returns (first: Unit)
    requires u.Ready() && u.T() == Table([], map[], map[]) && Installs(u.c.kind)
    requires p in u.c.db.local.Values && p.digest !in u.seen
    modifies u
    ensures u.Ready() && first.pkg == p && p.installed && OneMore(Table([], map[], map[]), u.T(), first)
    ensures forall uid :: uid in u.chains ==> uid == p.uid
  {
    assert p in u.c.db.Packages();
    first := u.AddNew(p);
    OnlyChain(u.T(), first);
  }

  lemma StepIsReflexive(c: Config, t: Table)
    ensures Step(c, t, t) && forall uid :: NoneJoined(t, t, uid)
  {
  }

  /** A table in which only the first and the added unit stand beside the candidates for uid k, and only
      these two have conflicts, with k. */
  ghost predicate CrossedTable(t: Table, first: Unit, added: Unit, k: Uid) {
    && t.Valid() && t.Has(first) && t.Has(added)
    && first.pkg.installed && !added.pkg.installed
    && first.pkg.uid != k && added.pkg.uid != k && first.pkg.uid != added.pkg.uid
    && (forall y :: t.Has(y) ==> y == first || y == added || y.pkg.uid == k)
    && (forall y :: t.Has(y) ==> y.pkg.deps == [] && y.pkg.shlibsRequired == [])
    && (forall y, e :: t.Has(y) && e in y.pkg.conflicts ==> e.uid == k)
  }

  lemma NoneOfTheTwo(t: Table, first: Unit, added: Unit, k: Uid, y: Unit)
    requires CrossedTable(t, first, added, k) && k in t.chains && y in t.chains[k]
    ensures y != first && y != added
  {
    assert Table.ChainOf(k, t.chains[k]);
  }

  lemma CrossedUnitIsConsistent(t: Table, first: Unit, added: Unit, k: Uid, x: Unit)
    requires CrossedTable(t, first, added, k) && t.Has(x)
    ensures UnitConsistent(t, x, {first, added})
  {
    forall e | e in x.pkg.conflicts ensures ConflictRespected(t, x, e, {first, added}) {
      if k in t.chains {
        forall y | y in t.chains[k] ensures y !in {first, added} {
          NoneOfTheTwo(t, first, added, k, y);
        }
      }
    }
  }

  lemma OneOfTheTwo(t: Table, first: Unit, added: Unit, k: Uid, uid: Uid, x: Unit, y: Unit)
    requires CrossedTable(t, first, added, k) && uid in t.chains && x in t.chains[uid] && y in t.chains[uid]
    requires x in {first, added} && y in {first, added}
    ensures x == y
  {
    assert Table.ChainOf(uid, t.chains[uid]);
  }

  lemma CrossedChain(t: Table, first: Unit, added: Unit, k: Uid, uid: Uid)
    requires CrossedTable(t, first, added, k) && uid in t.chains
    ensures ChainConsistent(t, t.chains[uid], {first, added}) && Settled(t.chains[uid], {first, added})
  {
    var chain, chosen := t.chains[uid], {first, added};
    assert Table.ChainOf(uid, chain);
    forall i | 0 <= i < |chain| ensures UnitConsistent(t, chain[i], chosen) {
      assert t.Has(chain[i]);
      CrossedUnitIsConsistent(t, first, added, k, chain[i]);
    }
    if chain[0] in chosen {
      forall i | 1 <= i < |chain| ensures chain[i] !in chosen {
        assert chain[i] != chain[0];
        if chain[i] in chosen { OneOfTheTwo(t, first, added, k, uid, chain[0], chain[i]); }
      }
    }
    var coming := Coming(chain, chosen);
    FilterIsDistinct(chain, chosen);
    if |coming| > 1 {
      OneOfTheTwo(t, first, added, k, uid, coming[0], coming[1]);
    }
  }

  lemma CrossedIsConsistent(t: Table, first: Unit, added: Unit, k: Uid)
    requires CrossedTable(t, first, added, k)
    ensures Consistent(t, {first, added})
    ensures forall uid :: uid in t.chains ==> Settled(t.chains[uid], {first, added})
  {
    forall uid | uid in t.chains
      ensures ChainConsistent(t, t.chains[uid], {first, added}) && Settled(t.chains[uid], {first, added})
    {
      CrossedChain(t, first, added, k, uid);
    }
  }

  /** Keeping the first and installing the added unit is granted, and no chain has two units to come. */
  lemma CrossedChoiceIsGranted(t: Table, first: Unit, added: Unit, k: Uid)
    requires CrossedTable(t, first, added, k)
    ensures Grants(t, {added}, {}, {first, added})
    ensures forall uid :: uid in t.chains ==> Settled(t.chains[uid], {first, added})
  {
    CrossedIsConsistent(t, first, added, k);
    ConsistentIsGranted(t, {added}, {first, added});
  }

  lemma ConsistentIsGranted(t: Table, add: set<Unit>, chosen: set<Unit>)
    requires Consistent(t, chosen) && add <= chosen && forall u :: u in chosen ==> t.Has(u)
    ensures Grants(t, add, {}, chosen)
  {
  }

  // ---------- a database for which it happens ----------

  const FIRST := Pkg("p", "d0", "1", true, false, false, [], [], [Conflict("k", All)], [])
  const KEPT := Pkg("k", "d1", "1", true, false, false, [], [], [], [])
  const NEWER := Pkg("k", "d2", "2", false, false, false, [], [], [], [])
  const ADDED := Pkg("n", "d3", "1", false, false, false, [], [], [Conflict("k", All)], [])

  function Crossed(): Db {
    Db(map["p" := FIRST, "k" := KEPT], map["k" := [NEWER], "n" := [ADDED]], map[], (x: Pkg, y: Pkg) => x == NEWER)
  }

  lemma OnlyFourPackages(x: Pkg)
    requires x in Crossed().Packages()
    ensures x == FIRST || x == KEPT || x == NEWER || x == ADDED
  {
  }

  lemma CrossedIsValid()
    ensures Crossed().Valid()
  {
    forall x | x in Crossed().Packages() ensures x == FIRST || x == KEPT || x == NEWER || x == ADDED {
      OnlyFourPackages(x);
    }
  }

  lemma CrossedDisagrees()
    ensures FIRST in Crossed().local.Values && "k" in Crossed().local
    ensures Offered(Crossed(), "k") && !LocalsAgree(Crossed())
  {
    assert Crossed().local["p"] == FIRST && Conflict("k", All) in Crossed().local["p"].conflicts;
  }

  lemma AddedIsOffered()
    ensures ADDED in Crossed().Packages() && ADDED.uid !in Crossed().local
  {
    assert ADDED in Crossed().remote["n"];
  }

  lemma UnitsOfCrossed(u: Universe, first: Unit, added: Unit, x: Unit)
    requires u.Ready() && u.c.db == Crossed() && u.T().Has(x)
    requires u.T().Has(first) && first.pkg == FIRST && u.T().Has(added) && added.pkg == ADDED
    requires !Present(Crossed(), u.T(), "k")
    ensures x == first || x == added || x.pkg == NEWER
  {
    OnlyFourPackages(x.pkg);
    assert Crossed().local["k"] == KEPT && x.pkg != KEPT;
    assert u.seen[x.pkg.digest] == x && u.seen[FIRST.digest] == first && u.seen[ADDED.digest] == added;
  }

  lemma CrossedUniverse(u: Universe, first: Unit, added: Unit)
    requires u.Ready() && u.c.db == Crossed()
    requires u.T().Has(first) && first.pkg == FIRST && u.T().Has(added) && added.pkg == ADDED
    requires !Present(Crossed(), u.T(), "k")
    ensures CrossedTable(u.T(), first, added, "k")
    ensures forall x :: u.T().Has(x) ==> Bare(x.pkg)
  {
    forall x | u.T().Has(x) ensures x == first || x == added || x.pkg == NEWER {
      UnitsOfCrossed(u, first, added, x);
    }
    ThreePackages(u.T(), first, added);
  }

  lemma ThreePackages(t: Table, first: Unit, added: Unit)
    requires t.Valid() && t.Has(first) && first.pkg == FIRST && t.Has(added) && added.pkg == ADDED
    requires forall x :: t.Has(x) ==> x == first || x == added || x.pkg == NEWER
    ensures CrossedTable(t, first, added, "k") && forall x :: t.Has(x) ==> Bare(x.pkg)
  {
  }

  lemma BareIsNotBroken(c: Config, t: Table)
    requires forall x :: t.Has(x) ==> Bare(x.pkg)
    ensures !Broken(c, t)
  {
    forall x, flags | t.Has(x) ensures Next(x.pkg, flags) == [] {
    }
  }

  /** After such a search the solver may keep an installed package next to a new one that conflicts with
      it: nothing was missing, the choice is granted, no chain has two units to come, and the installed
      package of uid k stays because it has no unit. */
  lemma ConflictIsMissed(c: Config, t: Table, first: Unit, added: Unit)
    requires c.db == Crossed() && CrossedTable(t, first, added, "k") && forall x :: t.Has(x) ==> Bare(x.pkg)
    requires added.pkg == ADDED && !Present(Crossed(), t, "k")
    ensures !Broken(c, t) && Grants(t, {added}, {}, {first, added})
    ensures forall uid :: uid in t.chains ==> Settled(t.chains[uid], {first, added})
    ensures !NoConflictRemains(Crossed(), t, {first, added})
  {
    BareIsNotBroken(c, t);
    CrossedChoiceIsGranted(t, first, added, "k");
    assert Conflict("k", All) in added.pkg.conflicts && Remains(Crossed(), t, {first, added}, "k");
  }

  /** And there is such a search: below the installed package first, then below the new one. */
  method CrossedSearch() returns (u: Universe, first: Unit, added: Unit)
    ensures fresh(u) && u.Ready() && u.c == Config(Crossed(), Install, false, false)
    ensures Step(u.c, Table([], map[], map[]), u.T()) && !Present(Crossed(), u.T(), "k")
    ensures CrossedTable(u.T(), first, added, "k") && added.pkg == ADDED && forall x :: u.T().Has(x) ==> Bare(x.pkg)
  {
    CrossedIsValid();
    CrossedDisagrees();
    u := new Universe(Config(Crossed(), Install, false, false), {});
    first := SearchConflicting(u, FIRST);
    ghost var t2 := u.T();
    added := SearchAdded(u);
    StepIsReflexive(u.c, t2);
    ShutOutStays(u.c, t2, t2, u.T(), "k");
    StepTransitive(u.c, Table([], map[], map[]), t2, u.T());
    CrossedUniverse(u, first, added);
  }

  method SearchAdded(u: Universe) returns (added: Unit)
    requires u.Ready() && u.c == Config(Crossed(), Install, false, false)
    modifies u
    ensures u.Ready() && Step(u.c, old(u.T()), u.T()) && u.T().Has(added) && added.pkg == ADDED
  {
    AddedIsOffered();
    var _, unit := u.ProcessItem(ADDED);
    added := unit;
    assert added.pkg in u.c.db.Packages();
    OnlyFourPackages(added.pkg);
  }
}
