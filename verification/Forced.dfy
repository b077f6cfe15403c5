/** Which packages a deinstall job takes out whatever the solver answers, and what that means for
    locked ones (libpkg/pkg_solve.c, libpkg/pkg_jobs.c). */
module Forced {
  import opened Packages
  import opened Jobs
  import opened Solve
  import opened SatProblem
  import opened JobList
  import opened Universe
  import opened Plan
  import opened Deinstall

  /** The uids that are requested to go. */
  ghost function Goals(t: Table, delete: set<Unit>): set<Uid> {
    set u | u in delete && t.Has(u) :: u.pkg.uid
  }

  /** Two units of the set conflict. */
  ghost predicate Clash(units: set<Unit>) {
    exists u, k, y ::
      u in units && k in u.pkg.conflicts && y in units && y.pkg.uid == k.uid && ConflictApplies(k.kind, u, y)
  }

  /** The units of everything that q needs, however indirectly, and of q itself. */
  ghost function Needed(db: Db, t: Table, q: Uid): set<Unit> {
    set u | u in t.Units() && Leads(db, q, {u.pkg.uid})
  }

  /** A way of needs from a chosen unit ends at a chosen unit. */
  lemma {:induction false} LeftOutUpwards(db: Db, t: Table, chosen: set<Unit>, path: seq<Uid>)
    requires db.Valid() && Mirrored(db) && ReverseClosed(db, t) && Consistent(t, chosen)
    requires NeedsPath(db, path) && path[|path| - 1] in t.chains && t.chains[path[|path| - 1]][0] !in chosen
    ensures path[0] in t.chains && t.chains[path[0]][0] !in chosen
    decreases |path|
  {
    if |path| > 1 {
      var rest := path[1..];
      forall i | 0 <= i < |rest| - 1 ensures Needs(db, rest[i], rest[i + 1]) {
        var k := i + 1;
        assert Needs(db, path[k], path[k + 1]);
      }
      LeftOutUpwards(db, t, chosen, rest);
      assert Needs(db, path[0], path[0 + 1]);
      DependentsAreNotChosen(db, t, chosen, path[0], path[1]);
    }
  }

  /** Every choice that takes q takes all it needs. */
  lemma NeededAreChosen(db: Db, t: Table, chosen: set<Unit>, q: Uid)
    requires db.Valid() && Mirrored(db) && ReverseClosed(db, t) && Consistent(t, chosen)
    requires q in t.chains && t.chains[q][0] in chosen
    ensures Needed(db, t, q) <= chosen
  {
    forall u | u in Needed(db, t, q) ensures u in chosen {
      OnlyUnit(db, t, u);
      var path :| LeadsBy(db, path, q, {u.pkg.uid});
      if u !in chosen {
        LeftOutUpwards(db, t, chosen, path);
      }
    }
  }

  /** A way of needs to a request forces a package out, in every choice. */
  lemma WayForcesOut(db: Db, t: Table, delete: set<Unit>, chosen: set<Unit>, path: seq<Uid>)
    requires db.Valid() && Mirrored(db) && ReverseClosed(db, t) && Grants(t, {}, delete, chosen)
    requires NeedsPath(db, path) && path[|path| - 1] in Goals(t, delete)
    ensures path[0] in t.chains && t.chains[path[0]][0] !in chosen
  {
    var u :| u in delete && t.Has(u) && u.pkg.uid == path[|path| - 1];
    OnlyUnit(db, t, u);
    LeftOutUpwards(db, t, chosen, path);
  }

  lemma LeadsOn(db: Db, q: Uid, r: Uid, d: Uid)
    requires Leads(db, q, {r}) && Needs(db, r, d)
    ensures Leads(db, q, {d})
  {
    var path :| LeadsBy(db, path, q, {r});
    var longer := path + [d];
    forall i | 0 <= i < |longer| - 1 ensures Needs(db, longer[i], longer[i + 1]) {
      if i < |path| - 1 {
        assert Needs(db, path[i], path[i + 1]);
      }
    }
    assert LeadsBy(db, longer, q, {d});
  }

  lemma NeededUnitIsConsistent(db: Db, t: Table, q: Uid, u: Unit)
    requires db.Valid() && ReverseClosed(db, t) && t.Has(u) && !Clash(Needed(db, t, q))
    ensures UnitConsistent(t, u, Needed(db, t, q))
  {
    var needed := Needed(db, t, q);
    OnlyUnit(db, t, u);
    forall d | d in u.pkg.deps ensures DependencyMet(t, u, d, needed) {
      if u in needed && d in t.chains {
        var x := t.chains[d][0];
        assert Table.ChainOf(d, t.chains[d]) && t.Has(x) && x in t.Units();
        assert Needs(db, u.pkg.uid, d);
        LeadsOn(db, q, u.pkg.uid, d);
        assert x in t.chains[d] && x in needed;
      }
    }
  }

  /** Taking q, all it needs and nothing else is a choice that grants the requests, unless something of it
      is to go or two of it conflict. */
  lemma NeededIsGranted(db: Db, t: Table, delete: set<Unit>, q: Uid)
    requires db.Valid() && ReverseClosed(db, t) && !Clash(Needed(db, t, q)) && !Leads(db, q, Goals(t, delete))
    ensures Grants(t, {}, delete, Needed(db, t, q))
  {
    var needed := Needed(db, t, q);
    forall uid | uid in t.chains ensures ChainConsistent(t, t.chains[uid], needed) {
      var chain := t.chains[uid];
      assert Table.ChainOf(uid, chain) && |chain| == 1;
      forall k | 0 <= k < |chain| ensures UnitConsistent(t, chain[k], needed) {
        assert t.Has(chain[k]);
        NeededUnitIsConsistent(db, t, q, chain[k]);
      }
    }
    forall u | u in delete && t.Has(u) ensures u !in needed {
      if u in needed {
        var path :| LeadsBy(db, path, q, {u.pkg.uid});
        assert u.pkg.uid in Goals(t, delete) && LeadsBy(db, path, q, Goals(t, delete));
      }
    }
  }

  /** A package is left out by every choice that grants the requests exactly when a way of needs leads from
      it to a request, or two of the packages it needs conflict. */
  lemma ForcedOutIff(db: Db, t: Table, delete: set<Unit>, q: Uid)
    requires db.Valid() && Mirrored(db) && ReverseClosed(db, t) && q in t.chains
    ensures (forall chosen :: Grants(t, {}, delete, chosen) ==> t.chains[q][0] !in chosen)
       <==> Leads(db, q, Goals(t, delete)) || Clash(Needed(db, t, q))
  {
    var x := t.chains[q][0];
    assert Table.ChainOf(q, t.chains[q]) && t.Has(x) && x in t.Units();
    if Leads(db, q, Goals(t, delete)) {
      var path :| LeadsBy(db, path, q, Goals(t, delete));
      forall chosen | Grants(t, {}, delete, chosen) ensures x !in chosen {
        WayForcesOut(db, t, delete, chosen, path);
      }
    } else if Clash(Needed(db, t, q)) {
      forall chosen | Grants(t, {}, delete, chosen) ensures x !in chosen {
        if x in chosen {
          NeededAreChosen(db, t, chosen, q);
          ChosenDoNotClash(t, chosen, Needed(db, t, q));
        }
      }
    } else {
      NeededIsGranted(db, t, delete, q);
      GoalsLead(db, q, {q});
      assert x in Needed(db, t, q);
    }
  }

  lemma ChosenDoNotClash(t: Table, chosen: set<Unit>, units: set<Unit>)
    requires t.Valid() && Consistent(t, chosen) && units <= chosen && units <= t.Units()
    ensures !Clash(units)
  {
    forall u, k, y | u in units && k in u.pkg.conflicts && y in units && y.pkg.uid == k.uid
      ensures !ConflictApplies(k.kind, u, y)
    {
      assert t.Has(u) && t.Has(y);
      UnitGranted(t, u, chosen);
      assert ConflictRespected(t, u, k, chosen);
    }
  }

  /** The lock of a package does not enter: whatever needs a request is on the list of actions. */
  lemma NeedyAreListed(db: Db, t: Table, delete: set<Unit>, chosen: set<Unit>, q: Uid)
    requires db.Valid() && Mirrored(db) && ReverseClosed(db, t) && Grants(t, {}, delete, chosen)
    requires Leads(db, q, Goals(t, delete))
    ensures q in RemovedUids(AllJobs(Deinstall, t.uids, t.chains, chosen))
  {
    var path :| LeadsBy(db, path, q, Goals(t, delete));
    WayForcesOut(db, t, delete, chosen, path);
    RemovedAreUnchosen(db, t, Deinstall, chosen, q);
  }

  // ---------- a locked package that needs a removed one ----------

  const NEEDED := Pkg("a", "d0", "1", true, false, false, [], ["b"], [], [])
  const LOCKED := Pkg("b", "d1", "1", true, true, false, ["a"], [], [], [])

  function TwoPackages(): Db {
    Db(map["a" := NEEDED, "b" := LOCKED], map[], map[], (x: Pkg, y: Pkg) => false)
  }

  function TwoUnits(): Table {
    Table(["a", "b"], map["a" := [Unit(0, NEEDED)], "b" := [Unit(1, LOCKED)]], map[])
  }

  lemma TwoPackagesAreWellFormed()
    ensures TwoPackages().Valid() && Mirrored(TwoPackages())
  {
    assert forall x :: x in TwoPackages().Packages() ==> x == NEEDED || x == LOCKED;
  }

  lemma TwoUnitsAreClosed()
    ensures TwoUnits().Has(Unit(0, NEEDED)) && TwoUnits().Has(Unit(1, LOCKED))
    ensures ReverseClosed(TwoPackages(), TwoUnits())
    ensures Grants(TwoUnits(), {}, {Unit(0, NEEDED)}, {})
  {
    assert forall x :: TwoUnits().Has(x) ==> x == Unit(0, NEEDED) || x == Unit(1, LOCKED);
  }

  lemma LockedNeedsTheRequest()
    ensures Leads(TwoPackages(), "b", Goals(TwoUnits(), {Unit(0, NEEDED)}))
  {
    var goals := Goals(TwoUnits(), {Unit(0, NEEDED)});
    TwoUnitsAreClosed();
    assert NEEDED.uid in goals;
    GoalsLead(TwoPackages(), "a", goals);
    assert Needs(TwoPackages(), "b", "a");
    LeadsFurther(TwoPackages(), "b", "a", goals);
  }

  /** Package b is locked and needs a; a is to go. There is a choice that grants this, and with
      every such choice the list of actions takes the locked package out. */
  lemma LockedDependentIsListed()
    ensures var db, t, delete := TwoPackages(), TwoUnits(), {Unit(0, NEEDED)};
      && LOCKED.locked && Unit(1, LOCKED) !in delete
      && (exists chosen :: Grants(t, {}, delete, chosen))
      && (forall chosen :: Grants(t, {}, delete, chosen) ==>
            LOCKED.uid in RemovedUids(AllJobs(Deinstall, t.uids, t.chains, chosen)))
  {
    var db, t, delete := TwoPackages(), TwoUnits(), {Unit(0, NEEDED)};
    TwoPackagesAreWellFormed();
    TwoUnitsAreClosed();
    LockedNeedsTheRequest();
    forall chosen | Grants(t, {}, delete, chosen)
      ensures LOCKED.uid in RemovedUids(AllJobs(Deinstall, t.uids, t.chains, chosen))
    {
      NeedyAreListed(db, t, delete, chosen, "b");
    }
  }
}
