/** What the rules for shared libraries promise, and what they do not
    (libpkg/pkg_solve.c, pkg_solve_add_require_rule and pkg_solve_handle_provide). */
module Libraries {
  import opened Packages
  import opened Jobs
  import opened Solve
  import opened SatProblem
  import opened Universe

  /** The unit is one of the repository packages that provide the library. */
  predicate Provider(c: Config, x: Unit, shlib: string) {
    shlib in c.db.libs && x.pkg in c.db.libs[shlib]
  }

  /** The rule for a library looks at the uids of its providers only. It makes sure that a provider is
      chosen exactly when every unit with such a uid is a provider. */
  lemma ProviderChosenIff(c: Config, t: Table, u: Unit, shlib: string)
    requires Providers(t, shlib) != {} && !Provider(c, u, shlib)
    ensures (forall chosen :: u in chosen && LibraryMet(t, u, shlib, chosen) ==> ProviderIn(c, chosen, shlib))
       <==> forall x :: x in Providers(t, shlib) ==> Provider(c, x, shlib)
  {
    if x :| x in Providers(t, shlib) && !Provider(c, x, shlib) {
      assert x in {u, x} && LibraryMet(t, u, shlib, {u, x}) && !ProviderIn(c, {u, x}, shlib);
    }
  }

  ghost predicate ProviderIn(c: Config, units: set<Unit>, shlib: string) {
    exists x :: x in units && Provider(c, x, shlib)
  }

  const OLDLIB := Pkg("q", "d0", "1", true, false, false, [], [], [], [])
  const NEWLIB := Pkg("q", "d1", "2", false, false, false, [], [], [], [])
  const USER := Pkg("n", "d2", "1", false, false, false, [], [], [], ["l"])

  function LibraryDb(): Db {
    Db(map["q" := OLDLIB], map["q" := [NEWLIB], "n" := [USER]], map["l" := [NEWLIB]], (x: Pkg, y: Pkg) => x == NEWLIB)
  }

  function LibraryUnits(): Table {
    Table(["n", "q"], map["n" := [Unit(0, USER)], "q" := [Unit(1, OLDLIB), Unit(2, NEWLIB)]],
          map["l" := [Unit(2, NEWLIB)]])
  }

  lemma OnlyLibraryUnits(x: Unit)
    requires LibraryUnits().Has(x)
    ensures x == Unit(0, USER) || x == Unit(1, OLDLIB) || x == Unit(2, NEWLIB)
  {
  }

  lemma LibraryUnitsAreConsistent()
    ensures LibraryUnits().Valid() && Consistent(LibraryUnits(), {Unit(0, USER), Unit(1, OLDLIB)})
  {
    var t, chosen := LibraryUnits(), {Unit(0, USER), Unit(1, OLDLIB)};
    assert Unit(1, OLDLIB) in t.chains["q"] && Unit(1, OLDLIB) in Providers(t, "l") && Unit(1, OLDLIB) in chosen;
    assert LibraryMet(t, Unit(0, USER), "l", chosen);
    forall x | t.Has(x) ensures UnitConsistent(t, x, chosen) {
      OnlyLibraryUnits(x);
    }
  }

  lemma LibraryDbIsValid()
    ensures LibraryDb().Valid()
  {
    forall x | x in LibraryDb().Packages() ensures x == OLDLIB || x == NEWLIB || x == USER {
      OnlyLibraryPackages(x);
    }
  }

  lemma OnlyLibraryPackages(x: Pkg)
    requires x in LibraryDb().Packages()
    ensures x == OLDLIB || x == NEWLIB || x == USER
  {
  }

  /** An installed package without the library meets the rule in place of the newer one that provides it. */
  lemma LibraryMayBeMissing() returns (c: Config, t: Table, chosen: set<Unit>)
    ensures c.db.Valid() && t.Valid() && Grants(t, {Unit(0, USER)}, {}, chosen)
    ensures Unit(0, USER) in chosen && "l" in USER.shlibsRequired && "l" in c.db.libs && c.db.libs["l"] != []
    ensures LibKnown(c, t, "l") && !ProviderIn(c, chosen, "l")
  {
    c, t, chosen := Config(LibraryDb(), Install, false, false), LibraryUnits(), {Unit(0, USER), Unit(1, OLDLIB)};
    LibraryDbIsValid();
    LibraryUnitsAreConsistent();
  }
}
