/** From the solver's choice to the list of actions
    (libpkg/pkg_solve.c, pkg_solve_insert_res_job and pkg_solve_sat_to_jobs). */
module JobList {
  import opened Lists
  import opened Packages
  import opened Jobs
  import opened Solve

  // ---------- what a list of actions does ----------

  /** Units an action brings in. */
  function AddedBy(s: Solved): set<Unit> {
    if s.kind in {SolvedInstall, SolvedFetch, SolvedUpgrade} then {s.item} else {}
  }

  /** Units an action takes out. */
  function RemovedBy(s: Solved): set<Unit> {
    if s.kind in {SolvedDelete, SolvedUpgradeRemove} then {s.item}
    else if s.kind == SolvedUpgrade && s.old_item.Some? then {s.old_item.value}
    else {}
  }

  function Added(jobs: seq<Solved>): set<Unit> {
    set s, u | s in jobs && u in AddedBy(s) :: u
  }

  function Removed(jobs: seq<Solved>): set<Unit> {
    set s, u | s in jobs && u in RemovedBy(s) :: u
  }

  /** The set of units after all actions have been carried out. */
  function Apply(jobs: seq<Solved>, installed: set<Unit>): set<Unit> {
    (installed - Removed(jobs)) + Added(jobs)
  }

  /** No unit is touched by two actions. */
  ghost predicate EachOnce(jobs: seq<Solved>) {
    forall i, k :: 0 <= i < k < |jobs| ==>
      (AddedBy(jobs[i]) + RemovedBy(jobs[i])) !! (AddedBy(jobs[k]) + RemovedBy(jobs[k]))
  }

  // ---------- what changes on one chain ----------

  /** A remote unit that the solver chose. */
  predicate Comes(u: Unit, chosen: set<Unit>) { u in chosen && !u.pkg.installed }

  /** An installed unit that the solver dropped. */
  predicate Goes(u: Unit, chosen: set<Unit>) { u !in chosen && u.pkg.installed }

  function Coming(chain: seq<Unit>, chosen: set<Unit>): (r: seq<Unit>)
    ensures forall u :: u in r <==> u in chain && Comes(u, chosen)
  {
    if chain == [] then []
    else
      var last := chain[|chain| - 1];
      assert chain == chain[..|chain| - 1] + [last];
      Coming(chain[..|chain| - 1], chosen) + if Comes(last, chosen) then [last] else []
  }

  function Going(chain: seq<Unit>, chosen: set<Unit>): (r: seq<Unit>)
    ensures forall u :: u in r <==> u in chain && Goes(u, chosen)
  {
    if chain == [] then []
    else
      var last := chain[|chain| - 1];
      assert chain == chain[..|chain| - 1] + [last];
      Going(chain[..|chain| - 1], chosen) + if Goes(last, chosen) then [last] else []
  }

  /** At most one remote unit of the chain is chosen. */
  predicate Settled(chain: Chain, chosen: set<Unit>) {
    |Coming(chain, chosen)| <= 1
  }

  lemma FilterStep(chain: Chain, chosen: set<Unit>, i: nat)
    requires i < |chain|
    ensures Coming(chain[..i + 1], chosen)
         == Coming(chain[..i], chosen) + if Comes(chain[i], chosen) then [chain[i]] else []
    ensures Going(chain[..i + 1], chosen)
         == Going(chain[..i], chosen) + if Goes(chain[i], chosen) then [chain[i]] else []
  {
    assert chain[..i + 1][..i] == chain[..i];
  }

  function Last(s: seq<Unit>): Option<Unit> {
    if s == [] then None else Some(s[|s| - 1])
  }

  /** The counting pass: the last unit to come and to go, and how many of each. */
  method Scan(chain: Chain, chosen: set<Unit>)
    returns (add: Option<Unit>, del: Option<Unit>, seenAdd: nat, seenDel: nat)
    ensures add == Last(Coming(chain, chosen)) && seenAdd == |Coming(chain, chosen)|
    ensures del == Last(Going(chain, chosen)) && seenDel == |Going(chain, chosen)|
  {
    add, del, seenAdd, seenDel := None, None, 0, 0;
    ghost var coming: seq<Unit>, going: seq<Unit> := [], [];
    var i := 0;
    while i < |chain|
      invariant 0 <= i <= |chain|
      invariant coming == Coming(chain[..i], chosen) && going == Going(chain[..i], chosen)
      invariant add == Last(coming) && seenAdd == |coming|
      invariant del == Last(going) && seenDel == |going|
    {
      FilterStep(chain, chosen, i);
      coming, going := Coming(chain[..i + 1], chosen), Going(chain[..i + 1], chosen);
      if chain[i] in chosen && !chain[i].pkg.installed {
        add := Some(chain[i]);
        seenAdd := seenAdd + 1;
      } else if chain[i] !in chosen && chain[i].pkg.installed {
        del := Some(chain[i]);
        seenDel := seenDel + 1;
      }
      i := i + 1;
    }
    assert chain[..i] == chain;
  }

  /** The action for the one unit that comes: an upgrade when something of the chain goes. */
  function ComingJob(k: JobType, add: Unit, del: Option<Unit>): Solved {
    if del.Some? then Solved(SolvedUpgrade, add, del, false)
    else Solved(if k == Fetch then SolvedFetch else SolvedInstall, add, None, false)
  }

  function Delete(u: Unit): Solved { Solved(SolvedDelete, u, None, false) }

  function Deletes(s: seq<Unit>): seq<Solved> {
    seq(|s|, k requires 0 <= k < |s| => Delete(s[k]))
  }

  /** The actions for one chain: none when two units come; otherwise one action for the unit
      that comes, which also replaces the last one that goes, and a deletion for each other. */
  function ChainJobs(k: JobType, coming: seq<Unit>, going: seq<Unit>): seq<Solved> {
    if |coming| > 1 then []
    else if coming == [] then Deletes(going)
    else [ComingJob(k, coming[0], Last(going))] + Deletes(if going == [] then [] else going[..|going| - 1])
  }

  /** pkg_solve_insert_res_job */
  method InsertResJob(chain: Chain, chosen: set<Unit>, j: Job)
    requires Distinct(chain) && j.Valid()
    modifies j`jobs, j`count
    ensures j.Valid()
    ensures j.jobs == old(j.jobs) + ChainJobs(j.kind, Coming(chain, chosen), Going(chain, chosen))
  {
    var add, del, seenAdd, seenDel := Scan(chain, chosen);
    if seenAdd > 1 {
      return;
    }
    if seenAdd > 0 || seenDel > 0 {
      if seenAdd > 0 {
        var res := if seenDel == 0
          then Solved(if j.kind == Fetch then SolvedFetch else SolvedInstall, add.value, None, false)
          else Solved(SolvedUpgrade, add.value, del, false);
        j.jobs := j.jobs + [res];
        j.count := j.count + 1;
      }
      var deletes := DeleteJobs(chain, chosen, if seenAdd > 0 then del else None);
      j.jobs := j.jobs + deletes;
      j.count := j.count + |deletes|;
    }
  }

  /** The second pass: a DELETE for every going unit except the one an upgrade replaces. */
  method DeleteJobs(chain: Chain, chosen: set<Unit>, skip: Option<Unit>) returns (news: seq<Solved>)
    requires Distinct(chain)
    requires skip == None || skip == Last(Going(chain, chosen))
    ensures news == Deletes(Without(Going(chain, chosen), skip))
  {
    news := [];
    var i := 0;
    while i < |chain|
      invariant 0 <= i <= |chain|
      invariant news == DeletesUpTo(chain, chosen, i, skip)
    {
      DeleteStep(chain, chosen, i, skip);
      if chain[i] !in chosen && chain[i].pkg.installed {
        if skip != Some(chain[i]) {
          news := news + [Delete(chain[i])];
        }
      }
      i := i + 1;
    }
    assert chain[..i] == chain;
  }

  /** The deletions for the first i units of a chain. */
  function DeletesUpTo(chain: Chain, chosen: set<Unit>, i: nat, skip: Option<Unit>): seq<Solved>
    requires i <= |chain|
  {
    Deletes(Without(Going(chain[..i], chosen), skip))
  }

  lemma DeleteStep(chain: Chain, chosen: set<Unit>, i: nat, skip: Option<Unit>)
    requires Distinct(chain) && i < |chain|
    requires skip == None || skip == Last(Going(chain, chosen))
    ensures DeletesUpTo(chain, chosen, i + 1, skip)
         == DeletesUpTo(chain, chosen, i, skip)
            + if Goes(chain[i], chosen) && skip != Some(chain[i]) then [Delete(chain[i])] else []
  {
    FilterStep(chain, chosen, i);
    var before, after := Going(chain[..i], chosen), Going(chain[..i + 1], chosen);
    if Goes(chain[i], chosen) {
      LastAppears(chain, chosen, i, skip);
      assert after == before + [chain[i]];
      DeletesStep(before, chain[i], skip);
    } else {
      assert after == before;
    }
  }

  lemma DeletesStep(before: seq<Unit>, u: Unit, skip: Option<Unit>)
    requires skip.Some? ==> skip.value !in before
    ensures Deletes(Without(before + [u], skip))
         == Deletes(Without(before, skip)) + if skip != Some(u) then [Delete(u)] else []
  {
    assert (before + [u])[..|before|] == before;
  }

  /** s without its last element when that is the one to skip. */
  function Without(s: seq<Unit>, skip: Option<Unit>): seq<Unit> {
    if skip.Some? && s != [] && s[|s| - 1] == skip.value then s[..|s| - 1] else s
  }

  /** The unit to skip is reached last, so it is not yet part of a shorter prefix. */
  lemma {:induction false} LastAppears(chain: Chain, chosen: set<Unit>, i: nat, skip: Option<Unit>)
    requires Distinct(chain) && i < |chain| && Goes(chain[i], chosen)
    requires skip == None || skip == Last(Going(chain, chosen))
    ensures skip.Some? ==> skip.value !in Going(chain[..i], chosen)
  {
    var n := |chain| - 1;
    if i < n && !Goes(chain[n], chosen) {
      assert chain[..n][..i] == chain[..i];
      LastAppears(chain[..n], chosen, i, skip);
    } else {
      assert forall k :: 0 <= k < i ==> chain[k] != chain[n];
    }
  }

  /** At most one remote unit behind the head. */
  predicate Narrow(chain: Chain) {
    forall i, k :: 1 <= i < k < |chain| ==> chain[i].pkg.installed || chain[k].pkg.installed
  }

  /** The rules settle a chain, whatever the solver answers, exactly when it is narrow. */
  lemma RulesSettleIffNarrow(chain: Chain)
    requires chain != [] && Distinct(chain)
    ensures (forall chosen :: HeadExclusive(chain, chosen) ==> Settled(chain, chosen)) <==> Narrow(chain)
  {
    if Narrow(chain) {
      forall chosen | HeadExclusive(chain, chosen) ensures Settled(chain, chosen) {
        NarrowIsSettled(chain, chosen);
      }
    } else {
      var i, k :| 1 <= i < k < |chain| && !chain[i].pkg.installed && !chain[k].pkg.installed;
      TwoBehindHead(chain, i, k);
    }
  }

  lemma NarrowIsSettled(chain: Chain, chosen: set<Unit>)
    requires chain != [] && Distinct(chain) && Narrow(chain) && HeadExclusive(chain, chosen)
    ensures Settled(chain, chosen)
  {
    var coming := Coming(chain, chosen);
    FilterIsDistinct(chain, chosen);
    if |coming| > 1 {
      OneComes(chain, chosen, coming[0], coming[1]);
    }
  }

  lemma OneComes(chain: Chain, chosen: set<Unit>, x: Unit, y: Unit)
    requires Narrow(chain) && HeadExclusive(chain, chosen)
    requires x in chain && y in chain && Comes(x, chosen) && Comes(y, chosen)
    ensures x == y
  {
    var i :| 0 <= i < |chain| && chain[i] == x;
    var k :| 0 <= k < |chain| && chain[k] == y;
  }

  lemma TwoBehindHead(chain: Chain, i: nat, k: nat)
    requires Distinct(chain) && 1 <= i < k < |chain| && !chain[i].pkg.installed && !chain[k].pkg.installed
    ensures HeadExclusive(chain, {chain[i], chain[k]}) && !Settled(chain, {chain[i], chain[k]})
  {
    var coming := Coming(chain, {chain[i], chain[k]});
    assert chain[i] in coming && chain[k] in coming && chain[i] != chain[k];
  }

  /** The actions for all chains, in table order. */
  function AllJobs(k: JobType, uids: seq<Uid>, chains: map<Uid, Chain>, chosen: set<Unit>): seq<Solved>
    requires forall u :: u in uids ==> u in chains
  {
    if uids == [] then []
    else
      var chain := chains[uids[|uids| - 1]];
      AllJobs(k, uids[..|uids| - 1], chains, chosen) + ChainJobs(k, Coming(chain, chosen), Going(chain, chosen))
  }

  lemma AllJobsStep(k: JobType, uids: seq<Uid>, chains: map<Uid, Chain>, chosen: set<Unit>, i: nat)
    requires i < |uids| && forall u :: u in uids ==> u in chains
    ensures var chain := chains[uids[i]];
      AllJobs(k, uids[..i + 1], chains, chosen)
      == AllJobs(k, uids[..i], chains, chosen) + ChainJobs(k, Coming(chain, chosen), Going(chain, chosen))
  {
    assert uids[..i + 1][..i] == uids[..i];
  }

  /** pkg_solve_sat_to_jobs: the list and its counter grow by the same actions. */
  method SatToJobs(t: Table, chosen: set<Unit>, j: Job)
    requires t.Valid() && j.Valid()
    modifies j`jobs, j`count
    ensures j.Valid()
    ensures j.jobs == old(j.jobs) + AllJobs(j.kind, t.uids, t.chains, chosen)
  {
    ghost var before := j.jobs;
    ghost var done: seq<Solved> := [];
    var i := 0;
    while i < |t.uids|
      invariant 0 <= i <= |t.uids| && j.Valid()
      invariant j.jobs == before + done && done == AllJobs(j.kind, t.uids[..i], t.chains, chosen)
    {
      var uid := t.uids[i];
      assert Table.ChainOf(uid, t.chains[uid]);
      AllJobsStep(j.kind, t.uids, t.chains, chosen, i);
      ghost var more := ChainJobs(j.kind, Coming(t.chains[uid], chosen), Going(t.chains[uid], chosen));
      InsertResJob(t.chains[uid], chosen, j);
      Associate(before, done, more);
      done := done + more;
      i := i + 1;
    }
    assert t.uids[..i] == t.uids;
  }

  lemma Associate(a: seq<Solved>, b: seq<Solved>, c: seq<Solved>)
    ensures (a + b) + c == a + (b + c)
  {
  }

  // ---------- the actions are the exact difference ----------

  lemma {:induction false} FilterIsDistinct(chain: Chain, chosen: set<Unit>)
    requires Distinct(chain)
    ensures Distinct(Coming(chain, chosen)) && Distinct(Going(chain, chosen))
  {
    if chain != [] {
      FilterIsDistinct(chain[..|chain| - 1], chosen);
    }
  }

  lemma DeletesEffect(s: seq<Unit>)
    requires Distinct(s)
    ensures Added(Deletes(s)) == {} && Removed(Deletes(s)) == ToSet(s)
    ensures EachOnce(Deletes(s))
  {
    var jobs := Deletes(s);
    forall u | u in s ensures u in Removed(jobs) {
      var k :| 0 <= k < |s| && s[k] == u;
      assert jobs[k] in jobs && u in RemovedBy(jobs[k]);
    }
  }

  lemma ConcatEffect(a: seq<Solved>, b: seq<Solved>)
    ensures Added(a + b) == Added(a) + Added(b) && Removed(a + b) == Removed(a) + Removed(b)
    ensures EachOnce(a) && EachOnce(b) && (Added(a) + Removed(a)) !! (Added(b) + Removed(b)) ==> EachOnce(a + b)
  {
    forall s ensures s in a + b <==> s in a || s in b {
    }
    if EachOnce(a) && EachOnce(b) && (Added(a) + Removed(a)) !! (Added(b) + Removed(b)) {
      forall i, k | 0 <= i < k < |a + b|
        ensures (AddedBy((a + b)[i]) + RemovedBy((a + b)[i])) !! (AddedBy((a + b)[k]) + RemovedBy((a + b)[k]))
      {
        if i < |a| <= k {
          assert a[i] in a && b[k - |a|] in b;
          assert AddedBy(a[i]) + RemovedBy(a[i]) <= Added(a) + Removed(a);
          assert AddedBy(b[k - |a|]) + RemovedBy(b[k - |a|]) <= Added(b) + Removed(b);
        }
      }
    }
  }

  /** One chain: exactly what comes and goes when the chain is settled, nothing otherwise. */
  lemma ChainEffect(k: JobType, chain: Chain, chosen: set<Unit>)
    requires Distinct(chain)
    ensures var jobs := ChainJobs(k, Coming(chain, chosen), Going(chain, chosen));
      && EachOnce(jobs)
      && (forall u :: u in Added(jobs) <==> u in chain && Comes(u, chosen) && Settled(chain, chosen))
      && (forall u :: u in Removed(jobs) <==> u in chain && Goes(u, chosen) && Settled(chain, chosen))
  {
    var coming, going := Coming(chain, chosen), Going(chain, chosen);
    FilterIsDistinct(chain, chosen);
    if coming == [] {
      DeletesEffect(going);
    } else if |coming| == 1 {
      assert forall u :: u in coming <==> u == coming[0];
      OneComesEffect(k, coming[0], going);
    }
  }

  lemma OneComesEffect(k: JobType, x: Unit, going: seq<Unit>)
    requires Distinct(going) && x !in going
    ensures var jobs := ChainJobs(k, [x], going);
      EachOnce(jobs) && Added(jobs) == {x} && Removed(jobs) == ToSet(going)
  {
    var first := ComingJob(k, x, Last(going));
    SingleEffect(first);
    var rest := if going == [] then [] else going[..|going| - 1];
    DeletesEffect(rest);
    if going != [] { FrontAndLast(going); }
    ConcatEffect([first], Deletes(rest));
    assert AddedBy(first) == {x};
    assert RemovedBy(first) == if going == [] then {} else {going[|going| - 1]};
  }

  function ToSet(s: seq<Unit>): set<Unit> { set u | u in s }

  lemma FrontAndLast(s: seq<Unit>)
    requires Distinct(s) && s != []
    ensures ToSet(s) == ToSet(s[..|s| - 1]) + {s[|s| - 1]}
    ensures Distinct(s[..|s| - 1]) && s[|s| - 1] !in s[..|s| - 1]
  {
    assert s == s[..|s| - 1] + [s[|s| - 1]];
  }

  lemma SingleEffect(s: Solved)
    ensures Added([s]) == AddedBy(s) && Removed([s]) == RemovedBy(s) && EachOnce([s])
  {
    assert forall x :: x in [s] <==> x == s;
  }

  lemma {:induction false} AllEffect(k: JobType, uids: seq<Uid>, chains: map<Uid, Chain>, chosen: set<Unit>)
    requires Distinct(uids)
    requires forall u :: u in uids ==> u in chains && Table.ChainOf(u, chains[u])
    ensures var jobs := AllJobs(k, uids, chains, chosen);
      && EachOnce(jobs)
      && (forall u :: u in Added(jobs) <==>
           (u.pkg.uid in uids && u in chains[u.pkg.uid] && Comes(u, chosen) && Settled(chains[u.pkg.uid], chosen)))
      && (forall u :: u in Removed(jobs) <==>
           (u.pkg.uid in uids && u in chains[u.pkg.uid] && Goes(u, chosen) && Settled(chains[u.pkg.uid], chosen)))
  {
    if uids != [] {
      var front, uid := uids[..|uids| - 1], uids[|uids| - 1];
      assert uids == front + [uid] && uid !in front;
      AllEffect(k, front, chains, chosen);
      ChainEffect(k, chains[uid], chosen);
      ConcatEffect(AllJobs(k, front, chains, chosen),
                   ChainJobs(k, Coming(chains[uid], chosen), Going(chains[uid], chosen)));
    }
  }

  /** The installed units of the universe. */
  function Installed(t: Table): set<Unit> {
    set u | u in t.Units() && u.pkg.installed
  }

  /** Carrying out the actions turns the installed set into the chosen one exactly when no
      chain has two chosen remote units; and no unit is ever touched twice. */
  lemma JobsAreExactDifference(k: JobType, t: Table, chosen: set<Unit>)
    requires t.Valid() && chosen <= t.Units()
    ensures var jobs := AllJobs(k, t.uids, t.chains, chosen);
      && EachOnce(jobs)
      && (Apply(jobs, Installed(t)) == chosen <==> forall uid :: uid in t.chains ==> Settled(t.chains[uid], chosen))
  {
    AllEffect(k, t.uids, t.chains, chosen);
    EffectDecides(t, chosen, AllJobs(k, t.uids, t.chains, chosen));
  }

  lemma EffectDecides(t: Table, chosen: set<Unit>, jobs: seq<Solved>)
    requires t.Valid() && chosen <= t.Units()
    requires forall u :: u in Added(jobs) <==> t.Has(u) && Comes(u, chosen) && Settled(t.chains[u.pkg.uid], chosen)
    requires forall u :: u in Removed(jobs) <==> t.Has(u) && Goes(u, chosen) && Settled(t.chains[u.pkg.uid], chosen)
    ensures Apply(jobs, Installed(t)) == chosen <==> forall uid :: uid in t.chains ==> Settled(t.chains[uid], chosen)
  {
    var after := Apply(jobs, Installed(t));
    if uid :| uid in t.chains && !Settled(t.chains[uid], chosen) {
      var u := Coming(t.chains[uid], chosen)[0];
      assert u in Coming(t.chains[uid], chosen) && t.Has(u);
      assert u in chosen && u !in after;
    } else {
      forall u ensures u in after <==> u in chosen {
        if u in chosen { assert t.Has(u); }
      }
    }
  }
}
