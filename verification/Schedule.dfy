/** Ordering the actions of a job by priority (libpkg/pkg_jobs.c, pkg_jobs_set_priorities). */
module Schedule {
  import opened Lists
  import opened Packages
  import opened Jobs
  import opened Priority
  import opened Sorting

  /** The action refers to units of the universe, and an upgrade names what it replaces. */
  ghost predicate PlacedJob(t: Table, s: Solved) {
    && t.Has(s.item)
    && (s.old_item.Some? ==> t.Has(s.old_item.value))
    && (s.kind == SolvedUpgrade ==> s.old_item.Some?)
  }

  /** What pkg_jobs_update_conflict_priority asserts of each conflict of a replaced package: the uid has
      a chain with a remote unit. */
  predicate RemoteKnown(t: Table, uid: Uid) {
    uid in t.chains && exists x :: x in t.chains[uid] && !x.pkg.installed
  }

  /** The update for this upgrade would reach one of those assertions. */
  predicate UnknownConflict(t: Table, s: Solved)
    requires s.old_item.Some?
  {
    exists c :: c in s.old_item.value.pkg.conflicts && !RemoteKnown(t, c.uid)
  }

  /** Visiting the action with these priorities ends at an assertion. The conflicts are looked at only
      while the new unit has priority zero. */
  predicate Stops(t: Table, m: Priorities, s: Solved) {
    Conflicting(s) && s.item in m && m[s.item] == 0 && UnknownConflict(t, s)
  }

  ghost predicate NoUnknownConflict(t: Table, jobs: seq<Solved>) {
    forall s :: s in jobs && Conflicting(s) ==> !UnknownConflict(t, s)
  }

  ghost predicate Placed(t: Table, jobs: seq<Solved>) {
    forall s :: s in jobs ==> PlacedJob(t, s)
  }

  // ---------- splitting conflicting upgrades ----------

  /** An upgrade whose replaced package has conflicts. */
  predicate Conflicting(s: Solved) {
    s.kind == SolvedUpgrade && s.old_item.Some? && s.old_item.value.pkg.conflicts != []
  }

  predicate CanSplit(s: Solved) { Conflicting(s) && !s.alreadyDeleted }

  function Marked(s: Solved): Solved { s.(alreadyDeleted := true) }

  function Removal(s: Solved): Solved
    requires s.old_item.Some?
  {
    Solved(SolvedUpgradeRemove, s.old_item.value, None, false)
  }

  /** Upgrades that can still be split. */
  function Unsplit(jobs: seq<Solved>): set<nat> {
    set k | 0 <= k < |jobs| && CanSplit(jobs[k])
  }

  /** One upgrade was marked and a removal of what it replaces was appended. */
  ghost predicate SplitOnce(a: seq<Solved>, b: seq<Solved>, k: nat) {
    k < |a| && CanSplit(a[k]) && b == a[k := Marked(a[k])] + [Removal(a[k])]
  }

  /** The upgrades at the listed positions were split: each is marked, and there is exactly one
      removal for each of them at the end. */
  ghost predicate SplitInto(a: seq<Solved>, b: seq<Solved>, ks: seq<nat>) {
    && |b| == |a| + |ks| && Distinct(ks)
    && (forall i :: 0 <= i < |ks| ==> ks[i] < |a| && CanSplit(a[ks[i]]) && b[|a| + i] == Removal(a[ks[i]]))
    && (forall k :: 0 <= k < |a| ==> b[k] == if k in ks then Marked(a[k]) else a[k])
  }

  lemma RemovalsAreFinal(a: seq<Solved>, m: seq<Solved>, ks: seq<nat>)
    requires SplitInto(a, m, ks)
    ensures forall k :: |a| <= k < |m| ==> !CanSplit(m[k])
  {
    forall k | |a| <= k < |m| ensures !CanSplit(m[k]) {
      assert m[|a| + (k - |a|)] == Removal(a[ks[k - |a|]]);
    }
  }

  lemma SplitStep(a: seq<Solved>, m: seq<Solved>, b: seq<Solved>, ks: seq<nat>, k: nat)
    requires SplitInto(a, m, ks) && SplitOnce(m, b, k)
    ensures SplitInto(a, b, ks + [k])
  {
    RemovalsAreFinal(a, m, ks);
    assert k < |a| && k !in ks;
    var longer := ks + [k];
    assert forall i :: 0 <= i < |longer| ==> longer[i] == if i < |ks| then ks[i] else k;
    assert forall x :: x in longer <==> x in ks || x == k;
  }

  lemma SplitMakesProgress(m: seq<Solved>, b: seq<Solved>, k: nat)
    requires SplitOnce(m, b, k)
    ensures |Unsplit(b)| < |Unsplit(m)|
  {
    assert Unsplit(m) == Unsplit(b) + {k} && k !in Unsplit(b);
  }

  lemma SplitIsPlaced(t: Table, a: seq<Solved>, b: seq<Solved>, k: nat)
    requires Placed(t, a) && SplitOnce(a, b, k)
    ensures Placed(t, b)
    ensures NoUnknownConflict(t, a) ==> NoUnknownConflict(t, b)
  {
    assert a[k] in a;
    forall s | s in b
      ensures PlacedJob(t, s) && (NoUnknownConflict(t, a) && Conflicting(s) ==> !UnknownConflict(t, s))
    {
      var i :| 0 <= i < |b| && b[i] == s;
      if i < |a| { assert a[i] in a; }
    }
  }

  // ---------- one pass ----------

  function IndexOf(chain: Chain, u: Unit): (i: nat)
    requires u in chain
    ensures i < |chain| && chain[i] == u
  {
    if chain[0] == u then 0 else 1 + IndexOf(chain[1..], u)
  }

  /** What an update of one unit is known to do on a levelled universe. */
  ghost predicate UnitUpdated(t: Table, kind: UpdateType, level: map<Uid, nat>, u: Unit, p: nat,
                              a: Priorities, b: Priorities)
    requires Covers(a, t) && Covers(b, t)
  {
    Tame(t, kind, level, u.pkg.uid, p, a) ==>
      Advances(t, kind, level, u.pkg.uid, a, b) && SettledAt(t, kind, u, p, a, b)
  }

  method UpdateUnit(g: Graph, u: Unit, p: nat, kind: UpdateType, ghost level: map<Uid, nat>)
    requires g.Valid() && g.t.Has(u)
    modifies g`prio
    ensures g.Valid() && Raised(old(g.prio), g.prio)
    ensures UnitUpdated(g.t, kind, level, u, p, old(g.prio), g.prio)
  {
    g.Update(u.pkg.uid, IndexOf(g.t.chains[u.pkg.uid], u), p, kind, level);
  }

  /** The first remote unit of a chain. */
  method FirstRemote(chain: Chain) returns (r: Option<Unit>)
    ensures r.Some? <==> exists x :: x in chain && !x.pkg.installed
    ensures r.Some? ==> r.value in chain && !r.value.pkg.installed
  {
    var k := 0;
    while k < |chain|
      invariant 0 <= k <= |chain| && forall m :: 0 <= m < k ==> chain[m].pkg.installed
    {
      if !chain[k].pkg.installed {
        return Some(chain[k]);
      }
      k := k + 1;
    }
    r := None;
  }

  /** One conflict of the replaced package. */
  method UpdateForConflict(g: Graph, req: Solved, uid: Uid) returns (known: bool)
    requires g.Valid() && PlacedJob(g.t, req) && Conflicting(req)
    modifies g`prio
    ensures g.Valid() && Raised(old(g.prio), g.prio)
    ensures known <==> RemoteKnown(g.t, uid)
  {
    var found := FirstRemote(if uid in g.t.chains then g.t.chains[uid] else []);
    known := found.Some?;
    if known {
      var lp, rit := req.old_item.value, found.value;
      assert Table.ChainOf(uid, g.t.chains[uid]) && g.t.Has(rit);
      if g.prio[rit] >= g.prio[lp] {
        UpdateUnit(g, lp, g.prio[rit] + 1, UpdateConflict, map[]);
        UpdateUnit(g, req.item, g.prio[req.item], UpdateRequest, map[]);
      }
    }
  }

  /** pkg_jobs_update_conflict_priority; false when it ends at an assertion. */
  method UpdateConflictPriority(g: Graph, req: Solved) returns (known: bool)
    requires g.Valid() && PlacedJob(g.t, req) && Conflicting(req)
    modifies g`prio
    ensures g.Valid() && Raised(old(g.prio), g.prio)
    ensures known <==> !UnknownConflict(g.t, req)
  {
    var conflicts := req.old_item.value.pkg.conflicts;
    known := true;
    var i := 0;
    while i < |conflicts|
      invariant 0 <= i <= |conflicts|
      invariant g.Valid() && Raised(old(g.prio), g.prio) && known
      invariant forall k :: 0 <= k < i ==> RemoteKnown(g.t, conflicts[k].uid)
    {
      known := UpdateForConflict(g, req, conflicts[i].uid);
      if !known {
        assert conflicts[i] in conflicts;
        return;
      }
      i := i + 1;
    }
  }

  /** How the visit of one action ends: EPKG_OK, EPKG_CONFLICT after a split, or at an assertion. */
  datatype Reply = Settles | Splits | Asserts

  /** Priorities only grow, and an action that already has one changes none. */
  ghost predicate VisitAt(s: Solved, a: Priorities, b: Priorities) {
    && Raised(a, b)
    && (s.item in a && a[s.item] != 0 ==> a == b)
  }

  /** The visit of an upgrade whose replaced package has conflicts. */
  method VisitUpgrade(g: Graph, j: Job, k: nat) returns (reply: Reply)
    requires g.Valid() && j.Valid() && Placed(g.t, j.jobs) && k < |j.jobs| && Conflicting(j.jobs[k])
    modifies g`prio, j`jobs, j`count
    ensures g.Valid() && j.Valid() && Placed(g.t, j.jobs) && VisitAt(old(j.jobs)[k], old(g.prio), g.prio)
    ensures reply == Asserts <==> Stops(g.t, old(g.prio), old(j.jobs)[k])
    ensures reply == Splits ==> SplitOnce(old(j.jobs), j.jobs, k)
    ensures reply != Splits ==> j.jobs == old(j.jobs)
  {
    var req := j.jobs[k];
    assert req in j.jobs && PlacedJob(g.t, req);
    if g.prio[req.item] == 0 {
      var known := UpdateConflictPriority(g, req);
      if !known {
        return Asserts;
      }
    }
    if g.prio[req.old_item.value] > g.prio[req.item] && !req.alreadyDeleted {
      j.jobs := j.jobs[k := Marked(req)] + [Removal(req)];
      j.count := j.count + 1;
      SplitIsPlaced(g.t, old(j.jobs), j.jobs, k);
      return Splits;
    }
    reply := Settles;
  }

  /** The visit of any other action. */
  method VisitPlain(g: Graph, req: Solved, ghost kind: UpdateType, ghost level: map<Uid, nat>)
    requires g.Valid() && PlacedJob(g.t, req) && !Conflicting(req)
    modifies g`prio
    ensures g.Valid() && VisitAt(req, old(g.prio), g.prio)
    ensures OfKind(kind, req) && kind != UpdateConflict && old(g.prio)[req.item] == 0 ==>
      UnitUpdated(g.t, kind, level, req.item, 0, old(g.prio), g.prio)
  {
    if g.prio[req.item] == 0 {
      if req.kind == SolvedDelete {
        UpdateUnit(g, req.item, 0, UpdateDelete, level);
      } else {
        UpdateUnit(g, req.item, 0, UpdateRequest, level);
      }
    }
  }

  /** pkg_jobs_set_request_priority */
  method SetRequestPriority(g: Graph, j: Job, k: nat, ghost kind: UpdateType, ghost level: map<Uid, nat>)
    returns (reply: Reply)
    requires g.Valid() && j.Valid() && Placed(g.t, j.jobs) && k < |j.jobs|
    modifies g`prio, j`jobs, j`count
    ensures g.Valid() && j.Valid() && Placed(g.t, j.jobs) && VisitAt(old(j.jobs)[k], old(g.prio), g.prio)
    ensures reply == Asserts <==> Stops(g.t, old(g.prio), old(j.jobs)[k])
    ensures reply == Splits ==> SplitOnce(old(j.jobs), j.jobs, k)
    ensures reply != Splits ==> j.jobs == old(j.jobs)
    ensures UniformTo(g.t, level, kind, old(j.jobs), k + 1) && PassAt(g.t, kind, level, old(j.jobs), k, old(g.prio)) ==>
      reply == Settles && PassAt(g.t, kind, level, j.jobs, k + 1, g.prio)
  {
    var req := j.jobs[k];
    assert req in j.jobs && PlacedJob(g.t, req);
    if Conflicting(req) {
      reply := VisitUpgrade(g, j, k);
    } else {
      VisitPlain(g, req, kind, level);
      reply := Settles;
      if UniformTo(g.t, level, kind, old(j.jobs), k + 1) && PassAt(g.t, kind, level, old(j.jobs), k, old(g.prio)) {
        PassStep(g.t, kind, level, old(j.jobs), k, old(g.prio), g.prio);
      }
    }
  }

  // ---------- the passes, and the sort ----------

  /** The first n actions are of one kind on a levelled universe: only removals, or nothing but arrivals
      that replace no package with conflicts. */
  ghost predicate UniformTo(t: Table, level: map<Uid, nat>, kind: UpdateType, jobs: seq<Solved>, n: nat) {
    && Levelled(t, kind, level)
    && (kind == UpdateRequest || kind == UpdateDelete)
    && forall i :: 0 <= i < n && i < |jobs| ==> OfKind(kind, jobs[i])
  }

  predicate OfKind(kind: UpdateType, s: Solved) {
    if kind == UpdateDelete then s.kind == SolvedDelete
    else s.kind in {SolvedInstall, SolvedFetch, SolvedUpgrade} && !Conflicting(s)
  }

  ghost predicate Uniform(t: Table, level: map<Uid, nat>, kind: UpdateType, jobs: seq<Solved>) {
    UniformTo(t, level, kind, jobs, |jobs|)
  }

  /** During a pass: raised actions are good, and so are all actions already visited. */
  ghost predicate PassAt(t: Table, kind: UpdateType, level: map<Uid, nat>, jobs: seq<Solved>, n: nat, m: Priorities)
    requires Covers(m, t)
  {
    && Bounded(t, level, m)
    && (forall i :: 0 <= i < |jobs| && jobs[i].item in m && m[jobs[i].item] > 0 ==> Good(t, kind, m, jobs[i].item))
    && (forall i :: 0 <= i < n && i < |jobs| ==> Good(t, kind, m, jobs[i].item))
  }

  lemma PassStep(t: Table, kind: UpdateType, level: map<Uid, nat>, jobs: seq<Solved>, n: nat,
                 a: Priorities, b: Priorities)
    requires Covers(a, t) && Covers(b, t) && Placed(t, jobs) && n < |jobs|
    requires PassAt(t, kind, level, jobs, n, a) && jobs[n].item in a
    requires if a[jobs[n].item] == 0
      then Advances(t, kind, level, jobs[n].item.pkg.uid, a, b) && SettledAt(t, kind, jobs[n].item, 0, a, b)
      else a == b
    ensures PassAt(t, kind, level, jobs, n + 1, b)
  {
    forall i | 0 <= i < |jobs| ensures t.Has(jobs[i].item) {
      assert jobs[i] in jobs && PlacedJob(t, jobs[i]);
    }
  }

  /** Setting all priorities of the actions to zero. */
  method Reset(g: Graph, jobs: seq<Solved>)
    requires g.Valid() && Placed(g.t, jobs)
    modifies g`prio
    ensures g.Valid()
    ensures forall x :: g.t.Has(x) ==> g.prio[x] <= old(g.prio)[x]
    ensures forall s :: s in jobs ==> g.t.Has(s.item) && g.prio[s.item] == 0
    ensures Limited(old(g.prio)) ==> Limited(g.prio)
  {
    var i := 0;
    while i < |jobs|
      invariant 0 <= i <= |jobs| && g.Valid()
      invariant forall x :: g.t.Has(x) ==> g.prio[x] <= old(g.prio)[x]
      invariant forall k :: 0 <= k < i ==> g.t.Has(jobs[k].item) && g.prio[jobs[k].item] == 0
      invariant Limited(old(g.prio)) ==> Limited(g.prio)
    {
      assert jobs[i] in jobs && PlacedJob(g.t, jobs[i]);
      g.prio := g.prio[jobs[i].item := 0];
      if jobs[i].old_item.Some? {
        g.prio := g.prio[jobs[i].old_item.value := 0];
      }
      i := i + 1;
    }
  }

  /** The priorities with which the first actions were visited: all zero on the list at first, growing,
      and unchanged by an action that is visited with a priority. */
  ghost predicate Visits(t: Table, jobs: seq<Solved>, seen: seq<Priorities>) {
    && seen != [] && |seen| <= |jobs| + 1
    && (forall i :: 0 <= i < |seen| ==> Covers(seen[i], t))
    && (forall s :: s in jobs ==> s.item in seen[0] && seen[0][s.item] == 0)
    && (forall i :: 0 <= i < |seen| - 1 ==> VisitAt(jobs[i], seen[i], seen[i + 1]))
  }

  /** None of the actions visited before the last stopped the pass. */
  ghost predicate PassGoesOn(t: Table, jobs: seq<Solved>, seen: seq<Priorities>) {
    Visits(t, jobs, seen) && forall i :: 0 <= i < |seen| - 1 ==> !Stops(t, seen[i], jobs[i])
  }

  /** How far a pass got and why: to the end, to a split, or to an action that stops it. */
  ghost predicate PassEnds(t: Table, jobs: seq<Solved>, seen: seq<Priorities>, reply: Reply) {
    && PassGoesOn(t, jobs, seen)
    && (if reply == Settles then |seen| == |jobs| + 1 else |seen| <= |jobs|)
    && (|seen| <= |jobs| ==> (reply == Asserts <==> Stops(t, seen[|seen| - 1], jobs[|seen| - 1])))
  }

  /** A pass ends at an assertion exactly when it visits an upgrade, whose new unit then has priority zero,
      with a conflict uid that has no remote unit. */
  lemma PassAssertsIff(t: Table, jobs: seq<Solved>, seen: seq<Priorities>, reply: Reply)
    requires PassEnds(t, jobs, seen, reply)
    ensures reply == Asserts <==> exists i :: 0 <= i < |seen| && i < |jobs| && Stops(t, seen[i], jobs[i])
  {
  }

  /** On a levelled universe the actions visited so far are well placed. */
  ghost predicate AllPassAt(t: Table, kind: UpdateType, level: map<Uid, nat>, jobs: seq<Solved>,
                            seen: seq<Priorities>)
  {
    forall n :: 0 <= n < |seen| && Covers(seen[n], t) && UniformTo(t, level, kind, jobs, n) ==>
      PassAt(t, kind, level, jobs, n, seen[n])
  }

  lemma VisitStep(t: Table, jobs: seq<Solved>, seen: seq<Priorities>, next: Priorities)
    requires PassGoesOn(t, jobs, seen) && Covers(next, t) && |seen| <= |jobs|
    requires VisitAt(jobs[|seen| - 1], seen[|seen| - 1], next) && !Stops(t, seen[|seen| - 1], jobs[|seen| - 1])
    ensures PassGoesOn(t, jobs, seen + [next])
  {
  }

  lemma PassAtStep(t: Table, kind: UpdateType, level: map<Uid, nat>, jobs: seq<Solved>, seen: seq<Priorities>,
                   next: Priorities)
    requires AllPassAt(t, kind, level, jobs, seen) && Covers(next, t)
    requires UniformTo(t, level, kind, jobs, |seen|) ==> PassAt(t, kind, level, jobs, |seen|, next)
    ensures AllPassAt(t, kind, level, jobs, seen + [next])
  {
  }

  /** Where a pass stands before it visits the next action. */
  ghost predicate PassState(t: Table, kind: UpdateType, level: map<Uid, nat>, tame: bool, jobs: seq<Solved>,
                            seen: seq<Priorities>, m: Priorities)
  {
    PassGoesOn(t, jobs, seen) && m == seen[|seen| - 1] && (tame ==> AllPassAt(t, kind, level, jobs, seen))
  }

  lemma PassStarts(t: Table, kind: UpdateType, level: map<Uid, nat>, tame: bool, jobs: seq<Solved>, m: Priorities)
    requires Covers(m, t) && forall s :: s in jobs ==> s.item in m && m[s.item] == 0
    requires tame ==> Bounded(t, level, m)
    ensures PassState(t, kind, level, tame, jobs, [m], m)
  {
    forall i | 0 <= i < |jobs| ensures m[jobs[i].item] == 0 {
      assert jobs[i] in jobs;
    }
  }

  /** The outcome of a pass: the list is as before unless an upgrade was split, and on a levelled
      universe the actions visited are well placed. */
  ghost predicate PassResult(t: Table, kind: UpdateType, level: map<Uid, nat>, tame: bool, jobs: seq<Solved>,
                             after: seq<Solved>, seen: seq<Priorities>, reply: Reply, m: Priorities)
  {
    && PassEnds(t, jobs, seen, reply)
    && (if reply == Splits then SplitOnce(jobs, after, |seen| - 1) else after == jobs)
    && (reply == Settles ==> m == seen[|seen| - 1])
    && (tame ==> AllPassAt(t, kind, level, jobs, seen))
  }

  lemma PassFinishes(t: Table, kind: UpdateType, level: map<Uid, nat>, tame: bool, jobs: seq<Solved>,
                     after: seq<Solved>, seen: seq<Priorities>, reply: Reply, m: Priorities)
    requires PassGoesOn(t, jobs, seen) && (tame ==> AllPassAt(t, kind, level, jobs, seen))
    requires if reply == Settles then |seen| == |jobs| + 1 && m == seen[|seen| - 1] else |seen| <= |jobs|
    requires if reply == Splits then SplitOnce(jobs, after, |seen| - 1) else after == jobs
    requires reply != Settles ==> (reply == Asserts <==> Stops(t, seen[|seen| - 1], jobs[|seen| - 1]))
    ensures PassResult(t, kind, level, tame, jobs, after, seen, reply, m)
  {
  }

  /** The visit of the next action, recorded. */
  method VisitNext(g: Graph, j: Job, ghost kind: UpdateType, ghost level: map<Uid, nat>, ghost tame: bool,
                   i: nat, ghost seen: seq<Priorities>)
    returns (reply: Reply, ghost more: seq<Priorities>)
    requires g.Valid() && j.Valid() && Placed(g.t, j.jobs) && i < |j.jobs| && i == |seen| - 1
    requires PassState(g.t, kind, level, tame, j.jobs, seen, g.prio)
    modifies g`prio, j`jobs, j`count
    ensures g.Valid() && j.Valid() && Placed(g.t, j.jobs) && Raised(old(g.prio), g.prio)
    ensures reply == Settles ==> j.jobs == old(j.jobs)
    ensures if reply == Settles then |more| == i + 2 && PassState(g.t, kind, level, tame, j.jobs, more, g.prio)
            else PassResult(g.t, kind, level, tame, old(j.jobs), j.jobs, more, reply, g.prio)
  {
    more := seen;
    reply := SetRequestPriority(g, j, i, kind, level);
    if reply == Settles {
      VisitStep(g.t, j.jobs, seen, g.prio);
      if tame {
        PassAtStep(g.t, kind, level, j.jobs, seen, g.prio);
      }
      more := seen + [g.prio];
    } else {
      PassFinishes(g.t, kind, level, tame, old(j.jobs), j.jobs, seen, reply, g.prio);
    }
  }

  /** One pass over the actions, cut short by a split or an assertion. */
  method Pass(g: Graph, j: Job, ghost kind: UpdateType, ghost level: map<Uid, nat>)
    returns (reply: Reply, ghost seen: seq<Priorities>)
    requires g.Valid() && j.Valid() && Placed(g.t, j.jobs)
    modifies g`prio, j`jobs, j`count
    ensures g.Valid() && j.Valid() && Placed(g.t, j.jobs)
    ensures Limited(old(g.prio)) ==> Limited(g.prio)
    ensures PassResult(g.t, kind, level, Bounded(g.t, level, old(g.prio)), old(j.jobs), j.jobs, seen, reply, g.prio)
  {
    Reset(g, j.jobs);
    reply, seen := Settles, [g.prio];
    ghost var tame := Bounded(g.t, level, old(g.prio));
    PassStarts(g.t, kind, level, tame, j.jobs, g.prio);
    var i := 0;
    while i < |j.jobs|
      invariant 0 <= i <= |j.jobs| && i == |seen| - 1 && j.jobs == old(j.jobs)
      invariant g.Valid() && j.Valid() && Placed(g.t, j.jobs) && reply == Settles
      invariant Limited(old(g.prio)) ==> Limited(g.prio)
      invariant PassState(g.t, kind, level, tame, j.jobs, seen, g.prio)
    {
      reply, seen := VisitNext(g, j, kind, level, tame, i, seen);
      if reply != Settles {
        return;
      }
      i := i + 1;
    }
    PassFinishes(g.t, kind, level, tame, j.jobs, j.jobs, seen, reply, g.prio);
  }

  /** pkg_jobs_sort_priority(a, b) <= 0: higher priority first, and deletions first among equals. */
  predicate SortsBefore(m: Priorities, a: Solved, b: Solved) {
    a.item in m && b.item in m &&
    (m[a.item] > m[b.item] || (m[a.item] == m[b.item] && (a.kind == SolvedDelete || b.kind != SolvedDelete)))
  }

  /** The same comparison on a total key, so that it orders all actions. */
  function SortKey(m: Priorities, s: Solved): (int, int) {
    (if s.item in m then m[s.item] else -1, if s.kind == SolvedDelete then 1 else 0)
  }

  predicate KeyBefore(a: (int, int), b: (int, int)) {
    a.0 > b.0 || (a.0 == b.0 && a.1 >= b.1)
  }

  lemma KeyIsComparison(m: Priorities, a: Solved, b: Solved)
    requires a.item in m && b.item in m
    ensures KeyBefore(SortKey(m, a), SortKey(m, b)) <==> SortsBefore(m, a, b)
  {
  }

  method SortJobs(m: Priorities, jobs: seq<Solved>) returns (r: seq<Solved>)
    requires forall s :: s in jobs ==> s.item in m
    ensures multiset(r) == multiset(jobs)
    ensures forall i, k :: 0 <= i < k < |r| ==> SortsBefore(m, r[i], r[k])
  {
    var le := (a: Solved, b: Solved) => KeyBefore(SortKey(m, a), SortKey(m, b));
    r := Sort(le, jobs);
    SameElements(jobs, r);
    forall i, k | 0 <= i < k < |r| ensures SortsBefore(m, r[i], r[k]) {
      assert r[i] in jobs && r[k] in jobs && le(r[i], r[k]);
      KeyIsComparison(m, r[i], r[k]);
    }
  }

  /** Whatever an action must wait for comes before it in the list. */
  ghost predicate InOrder(kind: UpdateType, jobs: seq<Solved>) {
    forall i, k :: 0 <= i < |jobs| && 0 <= k < |jobs| && jobs[k].item.pkg.uid in Above(jobs[i].item, kind) ==> k < i
  }

  lemma SortedIsInOrder(t: Table, kind: UpdateType, m: Priorities, jobs: seq<Solved>)
    requires Covers(m, t) && Placed(t, jobs)
    requires forall s :: s in jobs ==> Good(t, kind, m, s.item)
    requires forall i, k :: 0 <= i < k < |jobs| ==> SortsBefore(m, jobs[i], jobs[k])
    ensures InOrder(kind, jobs)
  {
    forall i, k | 0 <= i < |jobs| && 0 <= k < |jobs| && jobs[k].item.pkg.uid in Above(jobs[i].item, kind)
      ensures k < i
    {
      assert jobs[i] in jobs && jobs[k] in jobs && PlacedJob(t, jobs[k]);
      assert Good(t, kind, m, jobs[i].item);
      LowerComesLater(m, jobs[i], jobs[k]);
    }
  }

  lemma LowerComesLater(m: Priorities, a: Solved, b: Solved)
    requires a.item in m && b.item in m && m[a.item] < m[b.item]
    ensures !SortsBefore(m, a, b) && a != b
  {
  }

  /** A pass over actions of one kind on a levelled universe goes to the end. */
  lemma UniformPassSettles(t: Table, kind: UpdateType, level: map<Uid, nat>, jobs: seq<Solved>, after: seq<Solved>,
                           seen: seq<Priorities>, reply: Reply, m: Priorities)
    requires PassResult(t, kind, level, true, jobs, after, seen, reply, m) && Uniform(t, level, kind, jobs)
    ensures reply == Settles && PassAt(t, kind, level, jobs, |jobs|, m)
  {
    assert forall k :: 0 <= k < |jobs| ==> OfKind(kind, jobs[k]);
    assert forall k :: 0 <= k < |jobs| ==> !CanSplit(jobs[k]) && !Conflicting(jobs[k]);
  }

  lemma KnownPassGoesOn(t: Table, jobs: seq<Solved>, seen: seq<Priorities>, reply: Reply)
    requires PassEnds(t, jobs, seen, reply) && NoUnknownConflict(t, jobs)
    ensures reply != Asserts
  {
    assert forall k :: 0 <= k < |jobs| ==> jobs[k] in jobs;
  }

  /** What the restarts keep: the list is the first one with some upgrades split; nothing is split when
      all actions are of one kind on a levelled universe. */
  ghost predicate Restarted(t: Table, tame: bool, known: bool, first: seq<Solved>, jobs: seq<Solved>, ks: seq<nat>) {
    && SplitInto(first, jobs, ks)
    && (known ==> NoUnknownConflict(t, jobs))
    && (tame ==> ks == [] && jobs == first)
  }

  lemma SplitRound(t: Table, known: bool, first: seq<Solved>, jobs: seq<Solved>, after: seq<Solved>,
                   ks: seq<nat>, k: nat)
    requires Restarted(t, false, known, first, jobs, ks) && Placed(t, jobs) && SplitOnce(jobs, after, k)
    ensures Restarted(t, false, known, first, after, ks + [k]) && |Unsplit(after)| < |Unsplit(jobs)|
  {
    SplitStep(first, jobs, after, ks, k);
    SplitMakesProgress(jobs, after, k);
    SplitIsPlaced(t, jobs, after, k);
  }

  /** One pass and what it comes to. */
  method Round(g: Graph, j: Job, ghost kind: UpdateType, ghost level: map<Uid, nat>, ghost tame: bool,
               ghost known: bool, ghost first: seq<Solved>, ghost ks: seq<nat>)
    returns (reply: Reply, ghost more: seq<nat>, ghost seen: seq<Priorities>)
    requires g.Valid() && j.Valid() && Placed(g.t, j.jobs) && Restarted(g.t, tame, known, first, j.jobs, ks)
    requires tame ==> Uniform(g.t, level, kind, j.jobs) && Bounded(g.t, level, g.prio)
    modifies g`prio, j`jobs, j`count
    ensures g.Valid() && j.Valid() && Placed(g.t, j.jobs) && Restarted(g.t, tame, known, first, j.jobs, more)
    ensures Limited(old(g.prio)) ==> Limited(g.prio)
    ensures reply != Splits ==> PassEnds(g.t, j.jobs, seen, reply)
    ensures reply == Splits ==> !tame && |Unsplit(j.jobs)| < |Unsplit(old(j.jobs))|
    ensures known ==> reply != Asserts
    ensures tame ==> reply == Settles && PassAt(g.t, kind, level, j.jobs, |j.jobs|, g.prio)
  {
    more := ks;
    reply, seen := Pass(g, j, kind, level);
    if tame {
      UniformPassSettles(g.t, kind, level, old(j.jobs), j.jobs, seen, reply, g.prio);
    }
    if known {
      KnownPassGoesOn(g.t, old(j.jobs), seen, reply);
    }
    if reply == Splits {
      more := ks + [|seen| - 1];
      SplitRound(g.t, known, first, old(j.jobs), j.jobs, ks, |seen| - 1);
    }
  }

  /** The passes: restarted until no upgrade needs to be split.  Each restart splits one
      upgrade, and no upgrade is split twice. */
  method AllPasses(g: Graph, j: Job, ghost kind: UpdateType, ghost level: map<Uid, nat>)
    returns (asserts: bool, ghost ks: seq<nat>, ghost seen: seq<Priorities>)
    requires g.Valid() && j.Valid() && Placed(g.t, j.jobs)
    modifies g`prio, j`jobs, j`count
    ensures g.Valid() && j.Valid() && Placed(g.t, j.jobs)
    ensures SplitInto(old(j.jobs), j.jobs, ks)
    ensures Limited(old(g.prio)) ==> Limited(g.prio)
    ensures PassEnds(g.t, j.jobs, seen, if asserts then Asserts else Settles)
    ensures NoUnknownConflict(g.t, old(j.jobs)) ==> !asserts
    ensures Uniform(g.t, level, kind, old(j.jobs)) && Bounded(g.t, level, old(g.prio)) ==>
      !asserts && ks == [] && PassAt(g.t, kind, level, j.jobs, |j.jobs|, g.prio)
  {
    ks, seen := [], [];
    ghost var tame := Uniform(g.t, level, kind, old(j.jobs)) && Bounded(g.t, level, old(g.prio));
    ghost var known := NoUnknownConflict(g.t, old(j.jobs));
    var reply := Splits;
    while reply == Splits
      invariant g.Valid() && j.Valid() && Placed(g.t, j.jobs)
      invariant Limited(old(g.prio)) ==> Limited(g.prio)
      invariant Restarted(g.t, tame, known, old(j.jobs), j.jobs, ks)
      invariant reply != Splits ==> PassEnds(g.t, j.jobs, seen, reply) && (known ==> reply != Asserts)
      invariant tame ==> if reply == Splits then Bounded(g.t, level, g.prio)
                         else reply == Settles && PassAt(g.t, kind, level, j.jobs, |j.jobs|, g.prio)
      decreases reply == Splits, |Unsplit(j.jobs)|
    {
      reply, ks, seen := Round(g, j, kind, level, tame, known, old(j.jobs), ks);
    }
    asserts := reply == Asserts;
  }

  /** pkg_jobs_set_priorities: the passes, then the sort; true when a pass ended at an assertion.
      On a levelled universe the result is a topological order. */
  method SetPriorities(g: Graph, j: Job, ghost kind: UpdateType, ghost level: map<Uid, nat>)
    returns (asserts: bool, ghost ks: seq<nat>, ghost split: seq<Solved>, ghost seen: seq<Priorities>)
    requires g.Valid() && j.Valid() && Placed(g.t, j.jobs)
    modifies g`prio, j`jobs, j`count
    ensures g.Valid() && j.Valid()
    ensures SplitInto(old(j.jobs), split, ks) && multiset(j.jobs) == multiset(split)
    ensures j.count == old(j.count) + |ks|
    ensures Limited(old(g.prio)) ==> Limited(g.prio)
    ensures PassEnds(g.t, split, seen, if asserts then Asserts else Settles)
    ensures NoUnknownConflict(g.t, old(j.jobs)) ==> !asserts
    ensures !asserts ==> forall i, k :: 0 <= i < k < |j.jobs| ==> SortsBefore(g.prio, j.jobs[i], j.jobs[k])
    ensures Uniform(g.t, level, kind, old(j.jobs)) && Bounded(g.t, level, old(g.prio)) ==>
      !asserts && ks == [] && InOrder(kind, j.jobs)
  {
    asserts, ks, seen := AllPasses(g, j, kind, level);
    split := j.jobs;
    if asserts {
      return;
    }
    forall s | s in j.jobs ensures s.item in g.prio { assert PlacedJob(g.t, s); }
    j.jobs := SortJobs(g.prio, j.jobs);
    SameElements(split, j.jobs);
    if Uniform(g.t, level, kind, old(j.jobs)) && Bounded(g.t, level, old(g.prio)) {
      PassedIsGood(g.t, kind, level, split, g.prio);
      SortedIsInOrder(g.t, kind, g.prio, j.jobs);
    }
  }

  lemma PassedIsGood(t: Table, kind: UpdateType, level: map<Uid, nat>, jobs: seq<Solved>, m: Priorities)
    requires Covers(m, t) && PassAt(t, kind, level, jobs, |jobs|, m)
    ensures forall s :: s in jobs ==> Good(t, kind, m, s.item)
  {
  }
}
