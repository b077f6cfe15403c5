/** Install and upgrade jobs, end to end (libpkg/pkg_jobs.c, pkg_jobs_process_remote_pkg and
    jobs_solve_install_upgrade, without the force flag). */
module Install {
  import opened Lists
  import opened Packages
  import opened Jobs
  import opened Solve
  import opened SatProblem
  import opened JobList
  import opened UpgradeChains
  import opened Universe
  import opened Plan

  /** EPKG_OK, EPKG_INSTALLED and EPKG_FATAL. */
  datatype Verdict = Accepted | AlreadyInstalled | Refused

  /** A package is no upgrade for one with the same digest. */
  ghost predicate UpgradesDiffer(db: Db) {
    forall p, q :: db.needUpgrade(p, q) ==> p.digest != q.digest
  }

  // ---------- the universe of an install job ----------

  /** At most one unit of a chain is installed. */
  lemma OneInstalledPerChain(u: Universe, x: Unit, y: Unit)
    requires u.Ready() && u.T().Has(x) && u.T().Has(y) && x.pkg.installed && y.pkg.installed
    requires x.pkg.uid == y.pkg.uid
    ensures x == y
  {
    InstalledIsLocal(u.c.db, x.pkg);
    InstalledIsLocal(u.c.db, y.pkg);
  }

  /** So a chain on which one candidate has to be picked offers one. */
  lemma SelectionHasRemote(u: Universe, uid: Uid)
    requires u.Ready() && uid in u.chains && NeedsSelection(u.chains[uid])
    ensures exists x :: x in u.chains[uid] && IsRemote(x)
  {
    var chain := u.chains[uid];
    assert Table.ChainOf(uid, u.T().chains[uid]);
    var x, y := chain[0], chain[1];
    assert x != y && u.T().Has(x) && u.T().Has(y);
    if x.pkg.installed && y.pkg.installed {
      OneInstalledPerChain(u, x, y);
    }
  }

  /** Where no installed package conflicts with another, the installed package of every uid of the
      universe is part of it. */
  lemma LocalsArePresent(u: Universe, uid: Uid)
    requires u.Ready() && Installs(u.c.kind) && LocalsAgree(u.c.db)
    requires uid in u.chains && uid in u.c.db.local
    ensures Present(u.c.db, u.T(), uid)
  {
    assert LocalIn(u.c.db, u.seen, uid);
    var x := u.seen[u.c.db.local[uid].digest];
    assert u.c.db.local[uid] in u.c.db.Packages();
    InstalledIsLocal(u.c.db, x.pkg);
  }

  // ---------- one candidate ----------

  /** The position e steps back from i on a circular list of n. */
  function Back(i: nat, e: nat, n: nat): nat
    requires i < n && e < n
  {
    if e <= i then i - e else n + i - e
  }

  /** r is e steps back from position i, and everything on the way is installed. */
  ghost predicate FirstBack(chain: Chain, i: nat, e: nat, r: Unit) {
    && i < |chain| && e < |chain| && chain[Back(i, e, |chain|)] == r && IsRemote(r)
    && forall k :: 0 <= k < e ==> !IsRemote(chain[Back(i, k, |chain|)])
  }

  /** The first remote unit on the way back along `prev`, starting at i and going all around. */
  method RemoteFrom(chain: Chain, i: nat) returns (r: Option<Unit>)
    requires i < |chain|
    ensures r.Some? ==> exists e :: FirstBack(chain, i, e, r.value)
    ensures r.None? ==> forall y :: y in chain ==> !IsRemote(y)
  {
    var n := |chain|;
    var e := 0;
    while e < n
      invariant 0 <= e <= n
      invariant forall k :: 0 <= k < e ==> !IsRemote(chain[Back(i, k, n)])
    {
      if IsRemote(chain[Back(i, e, n)]) {
        assert FirstBack(chain, i, e, chain[Back(i, e, n)]);
        return Some(chain[Back(i, e, n)]);
      }
      e := e + 1;
    }
    forall y | y in chain ensures !IsRemote(y) {
      var m :| 0 <= m < n && chain[m] == y;
      assert Back(i, if m <= i then i - m else n + i - m, n) == m;
    }
    r := None;
  }

  /** What a candidate comes to: a unit of its uid is requested that is the candidate itself or that
      it does not improve on, or it does not improve on the installed package. */
  ghost predicate Answered(db: Db, t: Table, add: set<Unit>, rp: Pkg) {
    || (exists x :: x in add && AnsweredBy(db, t, x, rp))
    || (rp.uid in db.local && !db.needUpgrade(rp, db.local[rp.uid]))
  }

  ghost predicate AnsweredBy(db: Db, t: Table, x: Unit, rp: Pkg) {
    t.Has(x) && x.pkg.uid == rp.uid && !x.pkg.installed && (x.pkg.digest == rp.digest || !db.needUpgrade(rp, x.pkg))
  }

  lemma AnsweredStays(db: Db, a: Table, b: Table, before: set<Unit>, after: set<Unit>, rp: Pkg)
    requires Grows(a, b) && before <= after && Answered(db, a, before, rp)
    ensures Answered(db, b, after, rp)
  {
    if x :| x in before && AnsweredBy(db, a, x, rp) {
      assert x in after && AnsweredBy(db, b, x, rp);
    }
  }

  /** pkg_jobs_process_remote_pkg */
  method ProcessRemotePkg(u: Universe, j: Job, rp: Pkg) returns (v: Verdict)
    requires u.Ready() && !IsDelete(u.c.kind) && UpgradesDiffer(u.c.db)
    requires j.Valid() && j.kind == u.c.kind && rp in u.c.db.Packages() && !rp.installed
    modifies u, j`requestAdd, j`requestDelete
    ensures u.Ready() && Step(u.c, old(u.T()), u.T())
    ensures j.Valid() && j.requestDelete == old(j.requestDelete) && old(j.requestAdd) <= j.requestAdd
    ensures forall x :: x in j.requestAdd && x !in old(j.requestAdd) ==> u.T().Has(x) && x.pkg.uid == rp.uid
    ensures v == Refused ==> Broken(u.c, u.T())
    ensures v != Refused ==> Answered(u.c.db, u.T(), j.requestAdd, rp)
  {
    if rp.digest in u.seen {
      v := RequestSeen(u, j, rp);
    } else {
      v := ProcessUnseen(u, j, rp);
    }
  }

  /** The digest is known: a remote unit of its chain is requested, if there is one. */
  method RequestSeen(u: Universe, j: Job, rp: Pkg) returns (v: Verdict)
    requires u.Ready() && !IsDelete(u.c.kind) && UpgradesDiffer(u.c.db)
    requires j.Valid() && j.kind == u.c.kind && rp in u.c.db.Packages() && rp.digest in u.seen
    modifies j`requestAdd, j`requestDelete
    ensures j.Valid() && j.requestDelete == old(j.requestDelete) && old(j.requestAdd) <= j.requestAdd
    ensures forall x :: x in j.requestAdd && x !in old(j.requestAdd) ==> u.T().Has(x) && x.pkg.uid == rp.uid
    ensures v == AlreadyInstalled && Answered(u.c.db, u.T(), j.requestAdd, rp)
  {
    var unit := u.seen[rp.digest];
    assert u.T().Has(unit) && unit.pkg.uid == rp.uid;
    assert Table.ChainOf(rp.uid, u.T().chains[rp.uid]);
    var i: nat :| i < |u.chains[rp.uid]| && u.chains[rp.uid][i] == unit;
    var jit := RemoteFrom(u.chains[rp.uid], i);
    if jit.Some? {
      j.AddReq(jit.value);
    }
    v := AlreadyInstalled;
    if unit.pkg.installed {
      InstalledIsLocal(u.c.db, unit.pkg);
    } else {
      RemoteIsItself(u.chains[rp.uid], i, jit);
      assert AnsweredBy(u.c.db, u.T(), unit, rp);
    }
  }

  lemma RemoteIsItself(chain: Chain, i: nat, r: Option<Unit>)
    requires i < |chain| && IsRemote(chain[i])
    requires if r.Some? then exists e :: FirstBack(chain, i, e, r.value) else forall y :: y in chain ==> !IsRemote(y)
    ensures r == Some(chain[i])
  {
    if r.Some? {
      var e :| FirstBack(chain, i, e, r.value);
      assert Back(i, 0, |chain|) == i;
    }
  }

  /** The unit a new candidate is compared with: the head of its chain, or the installed package. */
  method CurrentUnit(u: Universe, rp: Pkg) returns (jit: Option<Unit>)
    requires u.Ready() && !IsDelete(u.c.kind) && !rp.installed
    modifies u
    ensures u.Ready() && Step(u.c, old(u.T()), u.T())
    ensures MayJoin(u.c, u.T(), u.seen, rp)
    ensures jit.Some? ==> u.T().Has(jit.value) && jit.value.pkg.uid == rp.uid
    ensures jit.None? || rp.uid in old(u.chains) ==> u.seen == old(u.seen)
    ensures jit.None? ==> u.c.kind == Fetch || rp.uid !in u.c.db.local
    ensures jit.Some? && rp.uid !in old(u.chains) ==>
      rp.uid in u.c.db.local && jit.value.pkg.digest == u.c.db.local[rp.uid].digest
  {
    jit := None;
    if rp.uid in u.chains {
      assert Table.ChainOf(rp.uid, u.T().chains[rp.uid]);
      jit := Some(u.chains[rp.uid][0]);
    } else if u.c.kind != Fetch && rp.uid in u.c.db.local {
      assert u.c.db.local[rp.uid] in u.c.db.Packages();
      var _, unit := u.ProcessItem(u.c.db.local[rp.uid]);
      jit := Some(unit);
    }
  }

  /** The candidate does not improve on what there is. */
  method KeepCurrent(u: Universe, j: Job, rp: Pkg, jit: Unit) returns (v: Verdict)
    requires u.Ready() && !IsDelete(u.c.kind) && j.Valid() && j.kind == u.c.kind
    requires u.T().Has(jit) && jit.pkg.uid == rp.uid && !u.c.db.needUpgrade(rp, jit.pkg)
    modifies j`requestAdd, j`requestDelete
    ensures j.Valid() && j.requestDelete == old(j.requestDelete) && old(j.requestAdd) <= j.requestAdd
    ensures forall x :: x in j.requestAdd && x !in old(j.requestAdd) ==> u.T().Has(x) && x.pkg.uid == rp.uid
    ensures v != Refused && Answered(u.c.db, u.T(), j.requestAdd, rp)
  {
    if jit.pkg.installed {
      InstalledIsLocal(u.c.db, jit.pkg);
      return AlreadyInstalled;
    }
    j.AddReq(jit);
    assert AnsweredBy(u.c.db, u.T(), jit, rp);
    v := Accepted;
  }

  /** The unit of a candidate that was just processed. */
  method SearchCandidate(u: Universe, rp: Pkg) returns (rc: Code, unit: Unit)
    requires u.Ready() && !IsDelete(u.c.kind) && UpgradesDiffer(u.c.db)
    requires rp in u.c.db.Packages() && !rp.installed && MayJoin(u.c, u.T(), u.seen, rp)
    requires rp.digest !in u.seen || (rp.uid in u.c.db.local && rp.digest != u.c.db.local[rp.uid].digest)
    modifies u
    ensures u.Ready() && Step(u.c, old(u.T()), u.T())
    ensures u.T().Has(unit) && unit.pkg.uid == rp.uid && unit.pkg.digest == rp.digest && !unit.pkg.installed
    ensures rc != Ok ==> Broken(u.c, u.T())
  {
    rc, unit := u.ProcessItem(rp);
    if unit.pkg.installed {
      InstalledIsLocal(u.c.db, unit.pkg);
    }
  }

  /** A candidate with a new digest: compared with what there is, and processed when it improves on it. */
  method ProcessUnseen(u: Universe, j: Job, rp: Pkg) returns (v: Verdict)
    requires u.Ready() && !IsDelete(u.c.kind) && UpgradesDiffer(u.c.db)
    requires j.Valid() && j.kind == u.c.kind && rp in u.c.db.Packages() && !rp.installed && rp.digest !in u.seen
    modifies u, j`requestAdd, j`requestDelete
    ensures u.Ready() && Step(u.c, old(u.T()), u.T())
    ensures j.Valid() && j.requestDelete == old(j.requestDelete) && old(j.requestAdd) <= j.requestAdd
    ensures forall x :: x in j.requestAdd && x !in old(j.requestAdd) ==> u.T().Has(x) && x.pkg.uid == rp.uid
    ensures v == Refused ==> Broken(u.c, u.T())
    ensures v != Refused ==> Answered(u.c.db, u.T(), j.requestAdd, rp)
  {
    var jit := CurrentUnit(u, rp);
    ghost var t1 := u.T();
    if jit.Some? && !u.c.db.needUpgrade(rp, jit.value.pkg) {
      v := KeepCurrent(u, j, rp, jit.value);
      return;
    }
    var rc, unit := SearchCandidate(u, rp);
    StepTransitive(u.c, old(u.T()), t1, u.T());
    if rc != Ok {
      return Refused;
    }
    j.AddReq(unit);
    assert AnsweredBy(u.c.db, u.T(), unit, rp);
    v := Accepted;
  }

  // ---------- the whole job ----------

  ghost predicate AllKnown(t: Table, add: set<Unit>) {
    forall x :: x in add ==> t.Has(x)
  }

  /** The first n candidates are answered. */
  ghost predicate AllAnswered(db: Db, t: Table, add: set<Unit>, candidates: seq<Pkg>, n: nat)
    requires n <= |candidates|
  {
    forall k :: 0 <= k < n ==> Answered(db, t, add, candidates[k])
  }

  lemma AnsweredStep(db: Db, a: Table, b: Table, before: set<Unit>, after: set<Unit>, candidates: seq<Pkg>, i: nat)
    requires i < |candidates| && Grows(a, b) && before <= after
    requires AllAnswered(db, a, before, candidates, i) && Answered(db, b, after, candidates[i])
    ensures AllAnswered(db, b, after, candidates, i + 1)
  {
    forall k | 0 <= k < i ensures Answered(db, b, after, candidates[k]) {
      AnsweredStays(db, a, b, before, after, candidates[k]);
    }
  }

  /** The repository candidates of all patterns, one after the other, until one cannot be processed. */
  method FindCandidates(u: Universe, j: Job, candidates: seq<Pkg>) returns (ok: bool)
    requires u.Ready() && !IsDelete(u.c.kind) && UpgradesDiffer(u.c.db)
    requires j.Valid() && j.kind == u.c.kind && j.requestAdd == {}
    requires forall p :: p in candidates ==> p in u.c.db.Packages() && !p.installed
    modifies u, j`requestAdd, j`requestDelete
    ensures u.Ready() && Step(u.c, old(u.T()), u.T())
    ensures j.Valid() && j.requestDelete == old(j.requestDelete) && AllKnown(u.T(), j.requestAdd)
    ensures if ok then AllAnswered(u.c.db, u.T(), j.requestAdd, candidates, |candidates|) else Broken(u.c, u.T())
  {
    var i := 0;
    while i < |candidates|
      invariant 0 <= i <= |candidates| && u.Ready() && Step(u.c, old(u.T()), u.T())
      invariant j.Valid() && j.requestDelete == old(j.requestDelete) && AllKnown(u.T(), j.requestAdd)
      invariant AllAnswered(u.c.db, u.T(), j.requestAdd, candidates, i)
    {
      ghost var t1 := u.T();
      ok := NextCandidate(u, j, candidates, i);
      StepTransitive(u.c, old(u.T()), t1, u.T());
      if !ok {
        return;
      }
      i := i + 1;
    }
    ok := true;
  }

  /** One round of that loop. */
  method NextCandidate(u: Universe, j: Job, candidates: seq<Pkg>, i: nat) returns (ok: bool)
    requires u.Ready() && !IsDelete(u.c.kind) && UpgradesDiffer(u.c.db)
    requires j.Valid() && j.kind == u.c.kind && i < |candidates|
    requires candidates[i] in u.c.db.Packages() && !candidates[i].installed
    requires AllKnown(u.T(), j.requestAdd) && AllAnswered(u.c.db, u.T(), j.requestAdd, candidates, i)
    modifies u, j`requestAdd, j`requestDelete
    ensures u.Ready() && Step(u.c, old(u.T()), u.T())
    ensures j.Valid() && j.requestDelete == old(j.requestDelete) && AllKnown(u.T(), j.requestAdd)
    ensures if ok then AllAnswered(u.c.db, u.T(), j.requestAdd, candidates, i + 1) else Broken(u.c, u.T())
  {
    ghost var t1, add := u.T(), j.requestAdd;
    var v := ProcessRemotePkg(u, j, candidates[i]);
    ok := v != Refused;
    if ok {
      AnsweredStep(u.c.db, t1, u.T(), add, j.requestAdd, candidates, i);
    }
  }

  /** A list derived from a choice that grants the requests. */
  ghost predicate InstallPlan(k: JobType, t: Table, add: set<Unit>, chosen: set<Unit>, jobs: seq<Solved>) {
    t.Valid() && Grants(t, add, {}, chosen) && jobs == AllJobs(k, t.uids, t.chains, chosen)
  }

  /** What an install job is for: the actions install exactly the chosen units, and these are sound. */
  ghost predicate Delivered(c: Config, t: Table, add: set<Unit>, chosen: set<Unit>, jobs: seq<Solved>) {
    && Apply(jobs, Installed(t)) == chosen && InstallSound(c, t, add, chosen)
    && (LocalsAgree(c.db) ==> NoConflictRemains(c.db, t, chosen))
  }

  /** It is delivered when no dependency was missing and no chain has two units to come. */
  ghost predicate Promised(c: Config, t: Table, add: set<Unit>, chosen: set<Unit>, jobs: seq<Solved>) {
    Installs(c.kind) && !Broken(c, t) && (forall uid :: uid in t.chains ==> Settled(t.chains[uid], chosen)) ==>
      Delivered(c, t, add, chosen, jobs)
  }

  /** No chain of the universe has two repository candidates behind its head. */
  ghost predicate AllNarrow(t: Table) {
    forall uid :: uid in t.chains ==> Narrow(t.chains[uid])
  }

  lemma NarrowUniverseSettles(t: Table, chosen: set<Unit>)
    requires t.Valid() && Consistent(t, chosen) && AllNarrow(t)
    ensures forall uid :: uid in t.chains ==> Settled(t.chains[uid], chosen)
  {
    forall uid | uid in t.chains ensures Settled(t.chains[uid], chosen) {
      assert Table.ChainOf(uid, t.chains[uid]) && ChainConsistent(t, t.chains[uid], chosen);
      NarrowIsSettled(t.chains[uid], chosen);
    }
  }

  /** No installed package remains that a new one conflicts with. */
  ghost predicate NoConflictRemains(db: Db, t: Table, after: set<Unit>) {
    forall u, k ::
      u in after && !u.pkg.installed && k in u.pkg.conflicts && k.kind != RemoteRemote && k.uid in db.local ==>
      !Remains(db, t, after, k.uid)
  }

  lemma NoneOfThemRemains(u: Universe, after: set<Unit>)
    requires u.Ready() && Installs(u.c.kind) && LocalsAgree(u.c.db) && NoneRemains(u.c.db, u.T(), after)
    ensures NoConflictRemains(u.c.db, u.T(), after)
  {
    forall x, k | x in after && !x.pkg.installed && k in x.pkg.conflicts && k.kind != RemoteRemote
        && k.uid in u.c.db.local
      ensures !Remains(u.c.db, u.T(), after, k.uid)
    {
      LocalsArePresent(u, k.uid);
    }
  }

  lemma PlanKeepsPromise(u: Universe, add: set<Unit>, chosen: set<Unit>, jobs: seq<Solved>)
    requires u.Ready() && Step(u.c, Table([], map[], map[]), u.T())
    requires InstallPlan(u.c.kind, u.T(), add, chosen, jobs)
    ensures Promised(u.c, u.T(), add, chosen, jobs)
  {
    var c, t := u.c, u.T();
    if Installs(c.kind) && !Broken(c, t) && forall uid :: uid in t.chains ==> Settled(t.chains[uid], chosen) {
      InstallPlanIsSound(c, t, add, chosen);
      if LocalsAgree(c.db) {
        NoneOfThemRemains(u, chosen);
      }
    }
  }

  /** The universe and the requests of the job. */
  method BuildInstall(c: Config, candidates: seq<Pkg>) returns (ok: bool, j: Job, u: Universe)
    requires c.db.Valid() && UpgradesDiffer(c.db) && !IsDelete(c.kind)
    requires forall p :: p in candidates ==> p in c.db.Packages() && !p.installed
    ensures fresh(j) && fresh(u) && j.Valid() && u.Ready() && j.kind == c.kind && u.c == c
    ensures Step(c, Table([], map[], map[]), u.T()) && j.jobs == [] && j.requestDelete == {}
    ensures AllKnown(u.T(), j.requestAdd)
    ensures if ok then AllAnswered(c.db, u.T(), j.requestAdd, candidates, |candidates|) else Broken(c, u.T())
  {
    j := new Job(c.kind);
    u := new Universe(c, {});
    ok := FindCandidates(u, j, candidates);
  }

  /** From the candidates of the requested patterns to the list of actions, for every sound solver. */
  method SolveInstall(c: Config, candidates: seq<Pkg>, oracle: Oracle, confirm: (nat, int) -> bool)
    returns (ret: Code, j: Job, u: Universe, ghost asked: set<Unit>, ghost chosen: set<Unit>)
    requires c.db.Valid() && UpgradesDiffer(c.db) && !IsDelete(c.kind) && Sound(oracle)
    requires forall p :: p in candidates ==> p in c.db.Packages() && !p.installed
    ensures fresh(j) && fresh(u) && j.Valid() && j.kind == c.kind && u.Ready() && u.c == c
    ensures Step(c, Table([], map[], map[]), u.T())
    ensures ret == Ok ==> AllKnown(u.T(), asked) && AllAnswered(c.db, u.T(), asked, candidates, |candidates|)
    ensures ret == Ok ==> j.requestAdd <= asked && InstallPlan(c.kind, u.T(), j.requestAdd, chosen, j.jobs)
    ensures ret == Ok ==> Promised(c, u.T(), j.requestAdd, chosen, j.jobs)
    ensures ret == Ok && Installs(c.kind) && !Broken(c, u.T()) && AllNarrow(u.T()) ==>
      Delivered(c, u.T(), j.requestAdd, chosen, j.jobs)
    ensures ret != Ok ==> ret == Fatal && (Broken(c, u.T()) || exists n, l :: !confirm(n, l))
  {
    var ok;
    ok, j, u := BuildInstall(c, candidates);
    asked, chosen := j.requestAdd, {};
    if !ok {
      ret := Fatal;
      return;
    }
    var t := u.T();
    forall uid | uid in t.chains && NeedsSelection(t.chains[uid])
      ensures exists x :: x in t.chains[uid] && IsRemote(x)
    {
      SelectionHasRemote(u, uid);
    }
    var choice;
    ret, choice := SolveRequests(j, t, u.nitems, oracle, confirm);
    chosen := choice;
    if ret == Ok {
      PlanKeepsPromise(u, j.requestAdd, chosen, j.jobs);
      if AllNarrow(t) {
        NarrowUniverseSettles(t, chosen);
      }
    }
  }
}
