# A verified model of pkg's solver, indexes and protocols

This project models the parts of FreeBSD's package manager `pkg` in which a mistake is hardest to
see, and proves what they promise.

* **Dependency solver.** `Universe` is the depth-first search that collects candidate packages into
  chains by uid. `UpgradeChains` prunes requests. `Solve` turns the universe into clauses,
  `SatProblem` asks a SAT solver and handles failed assumptions, `JobList` turns the answer into
  actions, `Plan` is the retry loop around them. `Priority` and `Schedule` order the actions.
  `Install`, `Deinstall` and `Autoremove` follow those jobs from request to result, `Forced` says
  which packages a deinstall must take out, `Execution` and `InstallOrder` what is installed after
  each action, `Libraries` and `Missed` what the rules do not promise.
* **Version order.** `Version` reads version strings with the tokenizer of `pkg_version_cmp` and
  shows that its comparison is a total preorder on all strings.
* **Vulnerability index.** `Audit` and `AuditSearch` compare the sorted array, its jumps and its
  first-byte table with a plain scan.
* **Database lock.** `LockDb` has the lock row, the pid table and the procedures on them;
  `LockProtocol` interleaves whole attempts of any number of processes that may crash at any time,
  `LockSteps` their single SQL statements.
* **Digests.** `Base32` is the encoder with its carried bits, `Digest` what is hashed.
* **Repository catalogue.** `WorkSplit` hands packages to workers, `Catalogue` interleaves their
  locked appends, `Sigkeys` frames and parses signatures.

`CStrings`, `Lists`, `Sorting`, `Newest`, `Packages` and `Jobs` hold what these share.

## How the model is stated

Structures that the C code updates in place are classes (`Universe`, `Problem`, `Job`, `Graph`,
`Database`, `Index`) or arrays, and their methods are proved against predicates and functions on
plain values (`Packages.Table` for a universe, maps for priorities). Units of the universe are
values with an identity; their mutable fields `priority` and `to_install` are a map and a set.

What is outside the model comes in as a parameter with a stated assumption: the databases answer
lookups by uid (`Universe.Db`), a SAT solver is any function whose answers are models or failed
assumptions (`SatProblem.Sound`), a pattern match starts with the pattern's plain prefix
(`Audit.Respects`), a sort returns a sorted rearrangement, a package is no upgrade for one with the
same digest (`Install.UpgradesDiffer`, libpkg/pkg_jobs.c:899-903), the lists of dependencies and of
reverse dependencies of installed packages are read from one table (`Deinstall.Mirrored`,
`Deinstall.MirroredBack`), the user's answers are arbitrary, and a process is alive or not.

## What the proofs found

* The chain rule is emitted only from the head of a chain. Two chosen remote units on a chain of
  three satisfy all rules, and the chain then gets no action (`Plan.LongChainsMayStayUnsettled`).
  The actions are the exact difference precisely when no chain has two chosen remote units.
* The rules keep a chain to one chosen remote unit exactly when at most one stands behind its head
  (`JobList.RulesSettleIffNarrow`).
* The rule for a shared library looks at the uids of its providers: an installed package without the
  library meets it in place of the newer version that has it (`Libraries.LibraryMayBeMissing`,
  `Libraries.ProviderChosenIff`).
* A conflict of an installed package can open the chain of another installed package with a repository
  candidate. The installed one then never joins, and stays next to a new package that conflicts with it
  (`Missed.CrossedSearch`, `Missed.ConflictIsMissed`). Where no installed package conflicts with an
  installed one that the repositories offer this cannot happen (`Install.LocalsArePresent`).
* A locked package is never requested for removal, but when it needs a removed package the list of
  actions contains it (`Forced.LockedDependentIsListed`). Exactly those packages are forced onto it from
  which a way of needs leads to a request, or of whose needs two conflict (`Forced.ForcedOutIff`).
  `pkg_delete` then refuses the locked package (libpkg/pkg_delete.c:63-66) and the job stops there.
* Without the force flag the deletion of `pkg` itself is passed over and the job goes on. A deinstall
  is safe at any time exactly when no package passed over needs a deleted one
  (`Execution.NeverStrandsIff`, `Execution.SelfMayBeStranded`).
* The recursive test of autoremove has no end exactly when a way through automatic packages comes back
  on itself with only harmless reverse dependencies before it at every step
  (`Autoremove.EndsIffNoReturn`, `Autoremove.MutualNeverEnds`). Where it ends, its answer is right on
  every graph.
* The first-byte table of the vulnerability index misses patterns that start with a glob character,
  and only those (`Audit.IndexIsExactIffNoLeadingGlob`). Filling in the jumps reads one slot past
  the end exactly when the list of entries is empty (`AuditSearch.JumpLoopStaysInsideIff`).
* Jumps are filled only for runs followed by a prefix of another length, and never from the first
  slot; the search is correct all the same.
* A release by a process that holds nothing can lead to two conflicting locks exactly when somebody
  holds that kind of lock, for readers when the row counts no spare one and no dead process left an
  advisory flag (`LockProtocol.ExtraReleaseMayBreakIff`); `src/autoremove.c` ends with such a release.
* Between the SQL statements of an attempt a reset is safe exactly when no other process has a claim
  (`LockSteps.ResetCanBreakIff`). Two overlaps lose exclusion: a check between the UPDATE and the
  INSERT of another process, and an UPDATE between the check and the reset of another
  (`LockSteps.CheckBeforeInsertBreaks`, `LockSteps.LateResetBreaks`). Runs without them are safe.
* The priority update asserts that each conflict of a replaced package names a uid with a remote unit,
  but looks only while the new unit has priority zero. A pass ends at the assertion exactly when it
  visits such an upgrade (`Schedule.PassAssertsIff`). The search does not rule it out: no database need
  know the uid (`InstallOrder.UpgradeEndsAtAssertion`). It cannot happen when whatever installed packages
  conflict with is not installed and has a candidate (`InstallOrder.OfferedPlanIsKnown`).
* The capacity test of the base-32 encoder rounds down where the encoder rounds up and adds a NUL:
  one or two buffer sizes pass the test and are too small (`Base32.WritesStayInsideIff`,
  `Base32.OverrunsAreFew`). The one caller has room.
* The digest does not depend on insertion order, but packages with different options can feed it the
  same bytes (`Digest.DifferentPackagesShareAnInput`); the bytes determine the pairs only together
  with the places where they are cut (`Digest.SamePairsIffSameBytesAndShape`).

## Model

| member | source | states |
|---|---|---|
| `Universe.Universe.AddPkg` | libpkg/pkg_jobs_universe.c:126-189 | a package is added unless its digest was seen (or the caller forces it); table, digest index and `nitems` stay consistent, and exactly one unit is new |
| `Universe.Universe.Insert` | libpkg/pkg_jobs_universe.c:164-184 | the unit is appended to the chain of its uid, which is created when missing; every other unit stays where it was |
| `Universe.IndexedStep` | libpkg/pkg_jobs_universe.c:164-189 | one more unit keeps the index: `nitems` equals the total chain length, chains are uniform in uid, every `seen` entry leads to a unit with that digest |
| `Universe.Universe.ProcessItem` | libpkg/pkg_jobs_universe.c:437-499 | ends on every finite repository, cycles included; either the table holds a package with a dependency that no database knows, or the call succeeds and every unit that came in has all its resolvable (reverse) dependencies in the table, the libraries it requires looked up, and a chain for every installed package (of a new unit) or offered candidate (of an installed one) it conflicts with |
| `Universe.Universe.ProcessRest` | libpkg/pkg_jobs_universe.c:445-497 | which passes a job of each kind makes over a unit, and that all of them are covered afterwards |
| `Universe.Universe.ProcessDeps` | libpkg/pkg_jobs_universe.c:198-272 | after one pass every uid it follows that a database can resolve has a chain; failure only when something is unresolvable |
| `Universe.Universe.ProcessDep` | libpkg/pkg_jobs_universe.c:211-269 | one uid: the installed package is looked at, and the first of the newest repository candidates when nothing is installed or the upgrade is needed |
| `Universe.Universe.FindBoth` | libpkg/pkg_jobs_universe.c:217-241 | which packages a followed uid stands for: the installed one unless mirroring, and the newest candidate unless it improves on nothing |
| `Universe.Universe.ProcessConflict` | libpkg/pkg_jobs_universe.c:283-313 | a conflict with a uid that has no chain brings in the installed package of that uid for a new unit, and the first newest candidate for an installed unit or when the conflict is not with installed packages only; the candidate of an installed unit shuts the installed package of that uid out |
| `Universe.Universe.ProcessConflicts` | libpkg/pkg_jobs_universe.c:275-318 | the same for all conflicts of a package |
| `Universe.LocalsJoinStep` | libpkg/pkg_jobs_universe.c:211-313 | where no two installed packages conflict, a repository candidate joins only after the installed package of its uid |
| `Universe.Universe.ProcessShlibs` | libpkg/pkg_jobs_universe.c:320-434 | every required library that the repositories provide ends with recorded providers, and the chains of all recorded providers are in the table |
| `Universe.Universe.GetRemote` | libpkg/pkg_jobs_universe.c:78-119 | the remote unit a known chain starts with; otherwise, among the repository candidates of the uid, the first that no other candidate is newer than |
| `Universe.StepTransitive` | libpkg/pkg_jobs_universe.c:437-499 | closure composes: stretches of the search that leave everything new done leave everything new done together |
| `Universe.ItemDone` | libpkg/pkg_jobs_universe.c:437-499 | the search below a unit closes the unit itself, so the whole stretch is closed |
| `Universe.LeftDecreases` | libpkg/pkg_jobs_universe.c:139-160 | the measure of the recursion: each package that is really added uses up a digest of the databases |
| `Universe.FlattenLongerChain` | libpkg/pkg_jobs_universe.c:164-184 | appending to one chain makes the total length of all chains grow by one |
| `Solve.Problem.AddDependRule` | libpkg/pkg_solve.c:250-293 | the clause added holds of exactly the choices in which a chosen unit has some chosen unit of the dependency uid, if that uid is in the universe |
| `Solve.Problem.AddConflictRules` | libpkg/pkg_solve.c:296-358 | the clauses added hold of exactly the choices that choose no applicable pair, by conflict type and by what is installed |
| `Solve.Problem.AddRequireRule` | libpkg/pkg_solve.c:361-411 | the clause added holds of exactly the choices that meet the library, counting all units on the chains of known providers; nothing is added without a provider |
| `Solve.Problem.AddChainRules` | libpkg/pkg_solve.c:429-461 | the clauses added hold of exactly the choices in which the head of the chain excludes the rest of it |
| `Solve.Problem.AddUnaryRule` | libpkg/pkg_solve.c:414-426 | a request becomes one assumption and sets or clears the install flag |
| `Solve.Problem.ProcessUniverseVariable` | libpkg/pkg_solve.c:464-523 | one chain: rules hold of exactly the choices consistent on it, assumptions are exactly the requests among its units |
| `Solve.Problem.AddVariables` | libpkg/pkg_solve.c:526-556 | one variable per unit; the bound on the number of variables is never exceeded |
| `Solve.AddAllVariables` | libpkg/pkg_solve.c:575-590 | all units of the universe in table order; their number is `nitems`, so the array never overflows |
| `Solve.JobsToSat` | libpkg/pkg_solve.c:559-622 | the encoding is exact: a choice satisfies all generated rules if and only if it is consistent, and the assumptions are exactly the requests |
| `Solve.NothingChosenHolds` | libpkg/pkg_solve.c:250-461 | every rule has a negative literal, so choosing nothing satisfies the rules |
| `Solve.ShortChainsExclude` | libpkg/pkg_solve.c:514-519 | on chains of at most two units no two are chosen together |
| `SatProblem.LiteralMeaning` | libpkg/pkg_solve.c:634-656 | a numbered literal is true in an assignment exactly when its item holds of the units the assignment chooses |
| `SatProblem.ClauseMeaning` | libpkg/pkg_solve.c:634-645 | a clause holds of an assignment exactly when the rule holds of the chosen units |
| `SatProblem.AddClauses` | libpkg/pkg_solve.c:634-645 | the clauses handed to the solver are equivalent to the rules under the numbering of variables |
| `SatProblem.AssumptionMeaning` | libpkg/pkg_solve.c:647-656 | the assumed literals hold exactly when every request is granted |
| `SatProblem.FailedAssumptions` | libpkg/pkg_solve.c:658-701 | an unsatisfiable answer needs an install request: at least one failed assumption, all positive, each the variable of a requested unit, so the request is always found |
| `SatProblem.SomeFailedIsPositive` | libpkg/pkg_solve.c:658-701 | among failed assumptions that contradict the rules one is violated by choosing nothing, hence positive |
| `SatProblem.UnsatisfiableMeansNoGrant` | libpkg/pkg_solve.c:625-721 | when the solver finds no model, no consistent choice grants every request: numbering and assumptions lose nothing |
| `SatProblem.SolveSat` | libpkg/pkg_solve.c:625-721 | delete-only problems always succeed; success means a consistent choice that grants every request, anything else that there is none; a retry has strictly fewer requests; failure needs a refusal by the user |
| `SatProblem.DropFailed` | libpkg/pkg_solve.c:669-701 | when all failed assumptions are confirmed exactly their units lose their requests; after a refusal exactly those confirmed before it do |
| `Plan.SolveRequests` | libpkg/pkg_jobs.c:1545-1580 | the retry loop ends; on success the choice grants the remaining requests and the job list is the one derived from it |
| `JobList.Scan` | libpkg/pkg_solve.c:764-782 | the last unit to come and to go on a chain, and how many of each |
| `JobList.InsertResJob` | libpkg/pkg_solve.c:764-844 | appends exactly the actions of one chain and counts them: none for two arrivals, one action for an arrival, one deletion per other departure |
| `JobList.DeleteJobs` | libpkg/pkg_solve.c:818-838 | a deletion for each departing unit except the one an upgrade replaces |
| `JobList.SatToJobs` | libpkg/pkg_solve.c:847-857 | list and counter grow by the actions of all chains, chain after chain |
| `JobList.ChainEffect` | libpkg/pkg_solve.c:764-844 | the actions of one chain bring in and take out exactly what the choice changes there, when at most one remote unit is chosen, and nothing otherwise; no unit is touched twice |
| `JobList.AllEffect` | libpkg/pkg_solve.c:847-857 | the same for all chains together |
| `JobList.JobsAreExactDifference` | libpkg/pkg_solve.c:847-857 | carrying out the list turns the installed set into the chosen set if and only if no chain has two chosen remote units; every unit occurs in at most one action |
| `JobList.RulesSettleIffNarrow` | libpkg/pkg_solve.c:429-461 | the rules keep two remote units of a chain from being chosen together, whatever the solver answers, if and only if the chain has at most one remote unit behind its head |
| `Libraries.ProviderChosenIff` | libpkg/pkg_solve.c:221-247 | the rule for a library makes sure that a provider is chosen if and only if every unit with the uid of a provider is one |
| `Libraries.LibraryMayBeMissing` | libpkg/pkg_solve.c:231-244 | an installed package without the library meets the rule in place of its newer version that provides it |
| `Plan.InstallPlanIsSound` | libpkg/pkg_solve.c:559-857 | universe, rules and actions together: after an install plan every dependency a database can resolve is met, no applicable conflict is violated, an installed package that a new one conflicts with is noticed and does not remain if it is part of the universe, for every library that new units require and the repositories provide a unit with the uid of a provider is there, and every request is granted |
| `Plan.LongChainsMayStayUnsettled` | libpkg/pkg_solve.c:514-519 | an installed and two remote units on one chain: the rules accept both remote units, and then the chain gets no action |
| `UpgradeChains.Select` | libpkg/pkg_jobs_universe.c:814-828 | the selected unit is the first remote one that no remote unit of the chain is newer than |
| `UpgradeChains.IsUpgrade` | libpkg/pkg_version.c:361-380 | the change between two versions is an upgrade exactly when the second is older |
| `UpgradeChains.DropAllBut` | libpkg/pkg_jobs_universe.c:800-838 | every other request of the chain is dropped, requests elsewhere stay |
| `UpgradeChains.ProcessChain` | libpkg/pkg_jobs_universe.c:792-840 | locked chains keep no request; chains with several candidates keep at most the request for the newest; other chains keep theirs |
| `UpgradeChains.ProcessUpgradeChains` | libpkg/pkg_jobs_universe.c:786-842 | the same for every chain of the table at once, and no request is added |
| `Newest.NewestMoves` | libpkg/pkg_jobs_universe.c:814-828 | moving to a newer item keeps it newer than all earlier ones; needs the comparison to be transitive |
| `Newest.OlderByIsWeakOrder` | libpkg/pkg_version.c:277-336 | being older by version is such a comparison |
| `Deinstall.SearchIsReverseClosed` | libpkg/pkg_jobs_universe.c:198-272 | what the search of a recursive deinstall leaves: installed packages only, one unit per uid, closed under reverse dependencies |
| `Deinstall.NeverBroken` | libpkg/pkg_jobs_universe.c:243-256 | when reverse dependencies are installed packages the search cannot fail |
| `Deinstall.DependentsAreNotChosen` | libpkg/pkg_solve.c:250-293 | every model of the rules leaves out whatever needs a unit that is left out |
| `Deinstall.RemovedAreUnchosen` | libpkg/pkg_solve.c:820-838 | the actions take out exactly the units that are not chosen |
| `Deinstall.DeinstallStrandsNothing` | libpkg/pkg_jobs.c:1149-1183 | universe, rules and actions together leave no installed package that needs a removed one, and every request is carried out |
| `Deinstall.TransitiveDependentsGo` | libpkg/pkg_jobs.c:1149-1183 | hence everything that depends on a removed package, however indirectly, is removed |
| `Deinstall.RequestAll` | libpkg/pkg_jobs.c:1149-1183 | every unlocked match has a delete request for a unit of the universe, and the universe is closed |
| `Deinstall.DependentsStay` | libpkg/pkgdb_iterator.c:236-250 | what is a goal or depends on one is closed under reverse dependencies |
| `Deinstall.DependentsGo` | libpkg/pkg_jobs.c:1149-1183 | where nothing is stranded, all dependents of what goes go |
| `Deinstall.RemovedWithinBound` | libpkg/pkg_jobs_universe.c:198-272 | the search does not reach beyond the matches and their dependents, so nothing else is removed |
| `Deinstall.SolveDeinstall` | libpkg/pkg_jobs.c:1149-1183 | end to end from matched packages to the action list, for every sound solver: unlocked matches go, nothing is stranded, nothing goes but matches and their dependents, and without locked matches exactly these go |
| `Forced.WayForcesOut` | libpkg/pkg_solve.c:250-293 | a way of needs to a request forces a package out of every choice |
| `Forced.NeededAreChosen` | libpkg/pkg_solve.c:250-293 | every choice that takes a package takes all it needs, however indirectly |
| `Forced.NeededIsGranted` | libpkg/pkg_solve.c:250-358 | taking a package, all it needs and nothing else is a choice that grants the requests unless something of it is to go or two of it conflict |
| `Forced.ForcedOutIff` | libpkg/pkg_solve.c:250-358 | a package is left out by every choice that grants the requests if and only if a way of needs leads from it to a request or two of the packages it needs conflict, locked or not |
| `Forced.LockedDependentIsListed` | libpkg/pkg_jobs.c:1160-1176 | a locked package that needs a removed one is not requested, and yet every choice puts it on the list of actions |
| `Autoremove.TestAutomatic` | libpkg/pkg_jobs.c:379-417 | wherever the recursion comes to an end, cycles included, the method ends with its answer |
| `Autoremove.WalkIsUnneeded` | libpkg/pkg_jobs.c:379-417 | when the recursion ends, on any graph, its answer is: every package reachable through reverse dependencies is automatic |
| `Autoremove.EndsIffNoReturn` | libpkg/pkg_jobs.c:379-417 | the recursion ends if and only if no way through automatic reverse dependencies, with only harmless ones before it at every step, comes back to a package it has passed |
| `Autoremove.MutualNeverEnds` | libpkg/pkg_jobs.c:379-417 | two automatic packages that are reverse dependencies of each other: the recursion has no end |
| `Autoremove.AcyclicEnds` | libpkg/pkg_jobs.c:379-417 | so it ends on acyclic reverse dependencies |
| `Autoremove.UnneededStep` | libpkg/pkg_jobs.c:379-417 | that property can be checked one reverse dependency at a time |
| `Autoremove.SolveAutoremove` | libpkg/pkg_jobs.c:1186-1232 | requests are made for exactly the automatic, unlocked packages that nothing wanted needs |
| `Autoremove.RequestsAreClosed` | libpkg/pkg_jobs.c:1186-1232 | the request set is closed under reverse dependencies, locked packages apart |
| `Priority.Graph.Update` | libpkg/pkg_jobs_universe.c:511-617 | on any finite graph the update ends, never lowers a priority and never exceeds 1024; on levelled ones every unit it raises has all it depends on strictly above it |
| `Priority.Graph.UpdateOne` | libpkg/pkg_jobs_universe.c:534-615 | one turn of the loop over a chain, with the restart at a higher priority |
| `Priority.Graph.RaiseAbove` | libpkg/pkg_jobs_universe.c:566-577 | all units that must come first end strictly above |
| `Priority.Graph.MaxBelow` | libpkg/pkg_jobs_universe.c:579-590 | the restart priority is the least one above every dependent |
| `Priority.SetThenRaise` | libpkg/pkg_jobs_universe.c:553-577 | setting a unit and raising what is above it makes it well placed and keeps the units that were |
| `Priority.RestartDone` | libpkg/pkg_jobs_universe.c:591-596 | the restart settles the rest of the chain as well, so returning early loses nothing |
| `Schedule.SetRequestPriority` | libpkg/pkg_jobs.c:289-336 | visiting an action ends at an assertion if and only if it is an upgrade with a conflict uid that has no remote unit and its new unit has priority zero; a conflict splits exactly one upgrade not split before: it is marked and one removal of the replaced package is appended |
| `Schedule.UpdateConflictPriority` | libpkg/pkg_jobs_universe.c:620-650 | ends at an assertion if and only if some conflict of the replaced package names a uid without a remote unit; priorities only grow |
| `Schedule.SplitStep` | libpkg/pkg_jobs.c:307-325 | splits at different upgrades add up |
| `Schedule.SplitMakesProgress` | libpkg/pkg_jobs.c:307-325 | each split leaves fewer upgrades to split |
| `Schedule.PassAssertsIff` | libpkg/pkg_jobs.c:353-366 | a pass ends at an assertion if and only if it visits an upgrade at priority zero with a conflict uid that has no remote unit |
| `Schedule.AllPasses` | libpkg/pkg_jobs.c:353-366 | the restart loop ends, with at most one restart per upgrade and one removal for each, or at an assertion; never at one when every conflict uid of a replaced package has a remote unit |
| `Schedule.SortJobs` | libpkg/pkg_jobs.c:339-350 | a permutation sorted by priority, deletions first among equals |
| `Schedule.SortedIsInOrder` | libpkg/pkg_jobs.c:339-369 | a list sorted by well-placed priorities puts each dependency before what depends on it |
| `Schedule.SetPriorities` | libpkg/pkg_jobs.c:353-369 | on uid-acyclic universes within the recursion limit the final list is a topological order, mirrored for delete-only lists; always `count` grows by the number of splits; a list that is not sorted ended at an assertion |
| `Install.RemoteFrom` | libpkg/pkg_jobs.c:490-495 | walking back along the circular chain finds the nearest remote unit, or there is none |
| `Install.ProcessRemotePkg` | libpkg/pkg_jobs.c:467-617 | a repository candidate ends with a request for a unit of its uid that is the candidate or that it does not improve on, or it does not improve on the installed package; failure only when a dependency is unresolvable |
| `Install.SelectionHasRemote` | libpkg/pkg_jobs_universe.c:800-828 | a chain has at most one installed unit, so where a candidate has to be selected there is one |
| `Install.LocalsArePresent` | libpkg/pkg_jobs_universe.c:283-313 | where no two installed packages conflict, the installed package of every uid of the universe is part of it |
| `Install.SolveInstall` | libpkg/pkg_jobs.c:1322-1580 | end to end from repository candidates to the action list, for every sound solver: every candidate is answered, and when no dependency is missing and no chain has two candidates behind its head, what InstallPlanIsSound promises holds, including that no installed package remains that a new one conflicts with where no installed package conflicts with an installed one that the repositories offer |
| `Missed.ShutOutStays` | libpkg/pkg_jobs_universe.c:283-313 | once a conflict of an installed package has opened a chain with a repository candidate, the installed package of that uid never joins |
| `Missed.CrossedSearch` | libpkg/pkg_jobs_universe.c:283-313 | a run of the search in which that happens to a package the new one conflicts with |
| `Missed.ConflictIsMissed` | libpkg/pkg_solve.c:296-358 | after it, a choice that grants the request keeps the installed package next to the new one that conflicts with it |
| `InstallOrder.OfferedPlanIsKnown` | libpkg/pkg_jobs_universe.c:283-313 | when whatever installed packages conflict with is not installed and has a repository candidate, no derived list ends at an assertion |
| `InstallOrder.ShieldedNeverStops` | libpkg/pkg_jobs.c:303-304 | an upgrade that an earlier action of a levelled pass depends on never ends at the assertion, known conflict or not |
| `InstallOrder.ConflictStaysUnknown` | libpkg/pkg_jobs_universe.c:78-119 | a database over which no search finds a unit for a conflict of an installed package |
| `InstallOrder.UpgradeEndsAtAssertion` | libpkg/pkg_jobs_universe.c:626-640 | for it the upgrade of that package is granted, is the whole list, and every pass over the list ends at the assertion |
| `InstallOrder.InstallInOrder` | libpkg/pkg_jobs.c:1322-1580 | from repository candidates to the ordered list: plan, order and assertions together |
| `Execution.DependentGoesFirst` | libpkg/pkg_jobs.c:339-369 | in the ordered list of a deinstall a package goes before what it needs |
| `Execution.NeverStrandsIff` | libpkg/pkg_jobs.c:1778-1800 | stopped after any action, with the deletion of pkg itself passed over, an ordered deinstall leaves no installed package without something it needs if and only if no package passed over needs one that is deleted |
| `Execution.SelfMayBeStranded` | libpkg/pkg_jobs.c:1783-1790 | deinstalling what pkg needs: pkg stays and is left without it |
| `Execution.LevelledUniverse` | libpkg/pkg_jobs_universe.c:511-617 | levels for the packages of the databases are levels for every universe built from them |
| `Execution.DeinstallInOrder` | libpkg/pkg_jobs.c:1149-1183 | end to end with priorities and sort on databases with levels: the list is in order, and safe at any time exactly as NeverStrandsIff says |
| `Execution.PrefixHasDependencies` | libpkg/pkg_jobs.c:339-369 | stopped after any action, an ordered install has every dependency of the packages that arrived |
| `Execution.PrefixKeepsUids` | libpkg/pkg_solve.c:764-844 | a list of arrivals never leaves an installed uid without a package |
| `Execution.OrderInstall` | libpkg/pkg_jobs.c:353-369 | both, for the list of an install job on a levelled universe |
| `Version.GetComponent` | libpkg/pkg_version.c:160-252 | the pointer walk yields exactly the number, letter or stage, patch level and end of a component |
| `Version.VersionCmp` | libpkg/pkg_version.c:277-336 | -1, 0 or 1 as one key of epoch, padded components and revision is below, level with or above the other in lexicographic order |
| `Version.BodyCmp` | libpkg/pkg_version.c:293-327 | the component loop finds the sign of the first difference of the padded keys |
| `Version.KeyIgnoresCase` | libpkg/pkg_version.c:293-295 | names equal up to case have equal keys, so the shortcut agrees with the loop |
| `Version.StageTest` | libpkg/pkg_version.c:195-209 | the prefix tests for stage names see exactly whole words |
| `Version.KeyLessTransitive` | libpkg/pkg_version.c:277-336 | the order on keys is transitive |
| `Version.KeyTrichotomy` | libpkg/pkg_version.c:277-336 | two keys are below, above or equal after padding |
| `Version.VersionOrder` | libpkg/pkg_version.c:277-336 | on all strings the comparison is irreflexive, antisymmetric and transitive, and so is equivalence: a total preorder |
| `Audit.NoglobLen` | libpkg/pkg_audit.c:588-596 | the longest prefix without glob characters: all before are plain, the next is not |
| `Audit.CmpIsLexicographic` | libpkg/pkg_audit.c:602-626 | the comparison by `strncmp` and length is lexicographic order of plain prefixes |
| `Audit.EntriesAreOrdered` | libpkg/pkg_audit.c:602-626 | it is total and transitive on all entries, as qsort needs |
| `Audit.RestCannotHit` | libpkg/pkg_audit.c:811-822 | the early break: once the name sorts below a prefix no later entry matches |
| `Audit.RunCannotHit` | libpkg/pkg_audit.c:811-822 | the jump: a run of equal names fails together |
| `Audit.SkippedCannotHit` | libpkg/pkg_audit.c:686-693 | the first-byte table skips only entries that cannot match, if no pattern starts with a glob |
| `Audit.LeadingGlobIsMissed` | libpkg/pkg_audit.c:686-693 | for every pattern that starts with a glob (or is empty) there is a matcher and a package that the plain scan reports and the index does not |
| `Audit.IndexIsExactIffNoLeadingGlob` | libpkg/pkg_audit.c:686-693 | index and scan agree for every matcher and package if and only if no pattern starts with a glob |
| `AuditSearch.FillJumps` | libpkg/pkg_audit.c:671-685 | every slot ends with exactly its jump: over the rest of its run when a prefix of another length follows, one slot otherwise, and one from the first slot; the last slot read is number 1 or the number of entries |
| `AuditSearch.JumpLoopStaysInsideIff` | libpkg/pkg_audit.c:633-671 | the loop reads inside the array if and only if the list has an entry |
| `AuditSearch.FillTable` | libpkg/pkg_audit.c:687-694 | for each byte the first slot that does not start below it |
| `AuditSearch.QSort` | libpkg/pkg_audit.c:658 | a sorted rearrangement of the used slots, the sentinel untouched |
| `AuditSearch.Index.Preprocess` | libpkg/pkg_audit.c:633-696 | the sorted named entries with their jumps, the zero slot after them, and the table |
| `AuditSearch.VersionMatch` | libpkg/pkg_audit.c:699-725 | a missing bound matches; otherwise the version stands in the stated relation |
| `AuditSearch.SearchRun` | libpkg/pkg_audit.c:824-854 | all matching entries of one run in order, or the first of them in quiet mode |
| `AuditSearch.Search` | libpkg/pkg_audit.c:808-856 | from any start slot: exactly what a scan of the remaining slots finds, in order |
| `AuditSearch.Index.IsVulnerable` | libpkg/pkg_audit.c:786-864 | verdict and report are those of a walk over the whole list when no pattern starts with a glob; in general those of a scan from the first-byte slot |
| `AuditSearch.IndexAgreesWithList` | libpkg/pkg_audit.c:633-864 | the indexed search finds the entries of the list that match, each as often as it is listed, in sorted order |
| `AuditSearch.ScanOfList` | libpkg/pkg_audit.c:641-655 | scanning the slots is scanning the named entries of the list |
| `LockDb.Database.Execute` | libpkg/pkgdb.c:2946-3019 | each UPDATE changes the row exactly when its guard holds, and to exactly the stated row |
| `LockDb.Database.CheckLockPid` | libpkg/pkgdb.c:2819-2858 | the dead pids are dropped, and another live one is reported exactly when there is one |
| `LockDb.Database.TryOnce` | libpkg/pkgdb.c:2895-2940 | one iteration of the loop, with all outcomes |
| `LockDb.Database.TryLock` | libpkg/pkgdb.c:2876-2943 | alone, the loop ends: busy exactly when the guard fails and another holder is alive; otherwise the lock is had, unless the own pid is still recorded |
| `LockDb.Database.ReleaseLock` | libpkg/pkgdb.c:3022-3063 | the pid goes exactly when the row changed |
| `LockProtocol.ResetFindsNoOtherHolder` | libpkg/pkgdb.c:2905-2918 | a reset never happens while another live process holds a lock |
| `LockProtocol.StepKeepsInv` | libpkg/pkgdb.c:2768-3063 | attempt, release, crash and start of any process keep: an exclusive lock is the only one, at most one advisory lock, row and pid table cover every live holder |
| `LockProtocol.EveryRunIsSafe` | libpkg/pkgdb.c:2768-3063 | the same after every finite interleaving |
| `LockProtocol.FromAnyLeftovers` | libpkg/pkgdb.c:2768-3063 | whatever row and pid table earlier processes left, no run gives two processes conflicting locks |
| `LockProtocol.ExtraReleaseHarmlessIffSpare` | libpkg/pkgdb.c:3022-3063 | a release by a process that holds nothing keeps the invariant if and only if nobody holds that kind, or the row counts a spare reader |
| `LockProtocol.EveryRunKeepsFlag` | libpkg/pkgdb.c:2946-3019 | in every run, while the exclusive flag is set every holder has the exclusive lock |
| `LockProtocol.ExtraReleaseMayBreakIff` | libpkg/pkgdb.c:3022-3063 | such a release can end in two conflicting locks if and only if it takes the record of a live holder away; for a reader, only if no advisory flag was left behind by a dead process |
| `LockProtocol.SecondAdvisoryReleaseBreaksExclusion` | src/autoremove.c:149 | the second advisory release after the exclusive one can free the lock of another process: two live advisory holders |
| `LockSteps.AttemptIsSteps` | libpkg/pkgdb.c:2876-2943 | without interruption the single statements of an attempt do what the attempt as one step does |
| `LockSteps.ResetKeepsInvIff` | libpkg/pkgdb.c:2861-2873 | statement by statement, a reset leaves all claims covered if and only if no other process has or is about to record a lock |
| `LockSteps.InvThroughoutIffHarmless` | libpkg/pkgdb.c:2876-2943 | a run keeps row and pid table covering all claims if and only if each of its resets finds no other claim |
| `LockSteps.ResetCanBreakIff` | libpkg/pkgdb.c:2861-2918 | after a reset two processes can come to hold conflicting locks, without another harmful reset, if and only if another process had a claim |
| `LockSteps.CalmFromAnyLeftovers` | libpkg/pkgdb.c:2876-3063 | from any leftovers: exclusion holds in every run in which no check falls between the UPDATE and the INSERT of another process and no UPDATE takes effect between the check and the reset of another |
| `LockSteps.CheckBeforeInsertBreaks` | libpkg/pkgdb.c:2905-2933 | the first overlap alone: two live holders of the exclusive lock |
| `LockSteps.LateResetBreaks` | libpkg/pkgdb.c:2905-2933 | the second overlap alone: the same |
| `Base32.OrAbove` | libpkg/pkg_checksum.c:305-340 | or-ing shifted bits above smaller carried bits adds them |
| `Base32.EncodeByte` | libpkg/pkg_checksum.c:305-340 | one byte: the symbols written and the bits carried still denote the bytes read so far |
| `Base32.Encode` | libpkg/pkg_checksum.c:291-350 | nothing when the capacity test refuses; otherwise for n bytes exactly 8n/5 symbols, rounded up, and one NUL; as little-endian base-32 digits the symbols have the little-endian base-256 value of the input; the number of slots written is exact |
| `Base32.DecodeUndoesEncode` | libpkg/pkg_checksum.c:291-350 | a decoder gives the input back |
| `Base32.EncodingIsInjective` | libpkg/pkg_checksum.c:291-350 | inputs of one length share an encoding only when equal, and have only one |
| `Base32.WritesStayInsideIff` | libpkg/pkg_checksum.c:298-350 | in a buffer of `outlen` slots every write stays inside if and only if the test refuses or there is room for all symbols and the NUL |
| `Base32.OverrunsAreFew` | libpkg/pkg_checksum.c:298-350 | the sizes that pass the test and are too small: one when 5 divides the number of bytes, two otherwise |
| `Base32.OneByteOverruns` | libpkg/pkg_checksum.c:298-350 | one byte into one slot writes three; the digest of the one caller fits the 70 slots left |
| `Digest.EntriesAreOrdered` | libpkg/pkg_checksum.c:107-119 | the comparison of pairs is a total order: only equal pairs tie |
| `Digest.Generate` | libpkg/pkg_checksum.c:137-212 | what is hashed is the concatenation of the sorted pairs of the package |
| `Digest.DigestIsCanonical` | libpkg/pkg_checksum.c:137-212 | the bytes hashed depend only on the multiset of pairs, not on the order in which options, libraries, users, groups and dependencies were added |
| `Digest.SamePairsIffSameBytesAndShape` | libpkg/pkg_checksum.c:137-212 | two packages have the same pairs if and only if they feed the same bytes and their sorted pairs cut them at the same places |
| `Digest.DifferentPackagesShareAnInput` | libpkg/pkg_checksum.c:263-285 | two packages with different options that feed the same bytes |
| `Sorting.SortedFormIsUnique` | libpkg/pkg_checksum.c:196 | a list has one sorted form when only equal elements tie |
| `WorkSplit.Split` | libpkg/pkg_repo_create.c:630-688 | exactly min(workers, packages) workers, every package to exactly one of them, in order, shares differing by at most one |
| `WorkSplit.StartIs` | libpkg/pkg_repo_create.c:630-688 | closed form of where each share starts |
| `Catalogue.StepKeepsInv` | libpkg/pkg_repo_create.c:352-407 | locking, seeking, writing, unlocking, reporting and skipping by any worker keep the file a row of manifests and every remembered position right |
| `Catalogue.WriteKeepsInv` | libpkg/pkg_repo_create.c:359-369 | because the lock is held from the seek to the write, the position sought is where the manifest lands |
| `Catalogue.RecordsSelectTheirManifests` | libpkg/pkg_repo_create.c:352-407 | for every interleaving each record selects its own manifest followed by a newline, and no two records overlap |
| `Catalogue.RecordsTileTheFile` | libpkg/pkg_repo_create.c:352-407 | when all workers are done every byte of the file lies in some record |
| `Catalogue.SplitIsApart` | libpkg/pkg_repo_create.c:630-688 | cutting a list without repetition gives every package to one worker, once |
| `Catalogue.RepositoryIsIndexed` | libpkg/pkg_repo_create.c:352-688 | from the list of packages: however the workers that got the shares interleave, each record selects its manifest, no two overlap, and in the end they tile the file |
| `Catalogue.ContentAt` | libpkg/pkg_repo_create.c:359-369 | where manifest k of a row of manifests lies |
| `Sigkeys.Write` | libpkg/pkg_repo.c:287-350 | the stream is the frames of the members one after the other |
| `Sigkeys.IntRoundTrip` | libpkg/pkg_repo.c:311-321 | four bytes, low byte first, give the integer back |
| `Sigkeys.ReadUndoesFrameIff` | libpkg/pkg_repo.c:407-531 | reading undoes framing, whatever follows, if and only if the name has 1 to MAXPATHLEN - 1 bytes and there is data |
| `Sigkeys.ReadWasFramed` | libpkg/pkg_repo.c:407-531 | whatever is read was a frame of such a member |
| `Sigkeys.Parse` | libpkg/pkg_repo.c:407-531 | the state machine computes the frame-by-frame reading on every input, its cursor never leaves the buffer, and its missing-name errors cannot occur |
| `Sigkeys.ParseUndoesWrite` | libpkg/pkg_repo.c:407-531 | for members with NUL-free names the parser succeeds with, per name, the last signature and the last key |
| `Sigkeys.AcceptedIffFramed` | libpkg/pkg_repo.c:407-531 | an input is accepted if and only if it is whole frames followed by nothing or by a frame cut at the end of a field |

## Left out

- Universe.Universe.ProcessDep: does not copy the automatic flag of an installed package to its repository candidate, because no property here depends on it.
- Universe.Universe.ProcessRest: the mirror request branch of the dependency pass, whose unit is always absent there.
- Universe.Db: SQL queries, provider and conflict tables are maps given from outside; every package is assumed to have its digest.
- Plan.InstallPlanIsSound: an installed package whose conflict is noticed but whose unit is not in the universe may remain, as `Missed.ConflictIsMissed` shows.
- Priority.Graph.Update: with conflicts or cycles only termination, monotonicity and the limit are stated, since no order exists to be reached.
- Schedule.UpdateConflictPriority: does not say which priorities result, because cycles among conflicts have no final order.
- Autoremove.TestAutomatic: where the recursion has no end the model makes no statement; `Autoremove.EndsIffNoReturn` says when.
- AuditSearch.Index.Preprocess: the empty list, for which the source reads past its array; `AuditSearch.JumpLoopStaysInsideIff` says so.
- AuditSearch.Index.IsVulnerable: names whose first byte is 128 or more, for which the source indexes its table with a negative `char` where that type is signed.
- LockDb.Database.TryOnce: read-only databases, the switch that turns read locks off, waiting times and SQL errors are not modelled.
- LockSteps.Next: the look at the pid table is one step, with the deletions it makes.
- LockDb.Database.TryLock: a lone process only; with others acting in between each iteration is a step of `LockProtocol` and each statement one of `LockSteps`.
- Sigkeys.Parse: names with an embedded NUL are added under the part before it; of two records under one key the later is kept.
- Sigkeys.ParseBody: freeing a record on a late error, and what an error leaves in memory, is not modelled.
- Base32.Encode: the hexadecimal encoder and the digest prefix with version and type.
- Catalogue.StepKeepsInv: the file list written beside the manifests, and write errors.
- Solve.JobsToSat: export to and import from the DIMACS format, and the CUDF path.
- Version.VersionCmp: numbers are unbounded up to the limits of `strtoll` and `strtoul`, which saturate; no other width is modelled.
- Units and tables are values: aliasing between units, and replacing the uid of a unit in the universe, are not part of the model. Neither is the resolution of conflicts found in file lists, which marks units to be skipped.
- Install.ProcessRemotePkg: the force flag, package files as patterns, guessing a candidate for a package without one, and replacement of origins.
- Install.SolveInstall: resolution of conflicts between requests, and propagation of the automatic flag.
- Execution.CarriedOut: an action that fails stops the job; the file system, scripts and the transaction around the actions are not modelled.
- How patterns are matched by the databases.
- PicoSAT, SHA-256, fnmatch, expat, libarchive, libucl and SQLite are parameters or absent; so are memory failure, network, scripts, plugins and output.
