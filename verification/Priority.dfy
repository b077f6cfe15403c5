/** Priorities of universe items (libpkg/pkg_jobs_universe.c,
    pkg_jobs_update_universe_item_priority). */
module Priority {
  import opened Packages

  const RECURSION_LIMIT: nat := 1024

  datatype UpdateType = UpdateRequest | UpdateUniverse | UpdateConflict | UpdateDelete

  type Priorities = map<Unit, nat>

  /** What must get a higher priority than the unit; delete updates turn the graph around. */
  function Above(u: Unit, kind: UpdateType): seq<Uid> {
    if kind == UpdateDelete then u.pkg.rdeps else u.pkg.deps
  }

  function Below(u: Unit, kind: UpdateType): seq<Uid> {
    if kind == UpdateDelete then u.pkg.deps else u.pkg.rdeps
  }

  // ---------- what any update keeps ----------

  ghost predicate Covers(m: Priorities, t: Table) {
    forall x :: t.Has(x) ==> x in m
  }

  ghost predicate Limited(m: Priorities) {
    forall x :: x in m ==> m[x] <= RECURSION_LIMIT
  }

  /** Priorities are never lowered, and never raised over the limit. */
  ghost predicate Raised(a: Priorities, b: Priorities) {
    && a.Keys == b.Keys
    && (forall x :: x in a ==> a[x] <= b[x])
    && (Limited(a) ==> Limited(b))
  }

  // ---------- acyclic universes ----------

  /** A level for every uid that strictly grows along the edges the update follows, with no
      path longer than the limit, and nothing else for the update to follow. */
  ghost predicate Levelled(t: Table, kind: UpdateType, level: map<Uid, nat>) {
    && (forall u :: u in t.chains ==> u in level && level[u] <= RECURSION_LIMIT)
    && (forall x, d :: t.Has(x) && d in t.chains && d in Above(x, kind) ==> level[x.pkg.uid] < level[d])
    && (forall x, r :: t.Has(x) && r in t.chains && r in Below(x, kind) ==> level[r] < level[x.pkg.uid])
    && (forall x :: t.Has(x) ==> x.pkg.installed || (kind != UpdateDelete && x.pkg.conflicts == []))
    && kind != UpdateConflict
  }

  ghost predicate Bounded(t: Table, level: map<Uid, nat>, m: Priorities)
    requires Covers(m, t)
  {
    forall x :: t.Has(x) && x.pkg.uid in level ==> m[x] <= level[x.pkg.uid]
  }

  /** All units that must come above x do. */
  ghost predicate Good(t: Table, kind: UpdateType, m: Priorities, x: Unit)
    requires Covers(m, t)
  {
    forall y :: t.Has(y) && y.pkg.uid in Above(x, kind) ==> x in m && m[x] < m[y]
  }

  /** What an update at the given uid does on a levelled universe: good units stay good, every
      unit that is raised becomes good, and only this chain and deeper levels are touched. */
  ghost predicate Advances(t: Table, kind: UpdateType, level: map<Uid, nat>, uid: Uid, a: Priorities, b: Priorities)
    requires Covers(a, t) && Covers(b, t)
  {
    && Bounded(t, level, b)
    && (forall x :: t.Has(x) && Good(t, kind, a, x) ==> Good(t, kind, b, x))
    && (forall x :: t.Has(x) && b[x] != a[x] ==> Good(t, kind, b, x))
    && (forall x :: t.Has(x) && b[x] != a[x] ==> x.pkg.uid == uid || Deeper(level, uid, x.pkg.uid))
  }

  ghost predicate Deeper(level: map<Uid, nat>, u: Uid, d: Uid) {
    u in level && d in level && level[u] < level[d]
  }

  lemma AdvancesTransitive(t: Table, kind: UpdateType, level: map<Uid, nat>, uid: Uid,
                           a: Priorities, b: Priorities, c: Priorities)
    requires Covers(a, t) && Covers(b, t) && Covers(c, t)
    requires Advances(t, kind, level, uid, a, b) && Advances(t, kind, level, uid, b, c)
    ensures Advances(t, kind, level, uid, a, c)
  {
  }

  lemma AdvancesFromDeeper(t: Table, kind: UpdateType, level: map<Uid, nat>, uid: Uid, d: Uid,
                           a: Priorities, b: Priorities)
    requires Covers(a, t) && Covers(b, t)
    requires Advances(t, kind, level, d, a, b) && Deeper(level, uid, d)
    ensures Advances(t, kind, level, uid, a, b)
  {
  }

  /** The situation in which an update at (uid, p) is known to order things. */
  ghost predicate Tame(t: Table, kind: UpdateType, level: map<Uid, nat>, uid: Uid, p: nat, m: Priorities)
    requires Covers(m, t)
  {
    Levelled(t, kind, level) && uid in t.chains && p <= level[uid] && Bounded(t, level, m)
  }

  /** The unit ends at p or above, and good unless it was above p to begin with. */
  ghost predicate SettledAt(t: Table, kind: UpdateType, x: Unit, p: nat, a: Priorities, b: Priorities)
    requires Covers(a, t) && Covers(b, t)
  {
    x in a && x in b && p <= b[x] && (a[x] <= p ==> Good(t, kind, b, x))
  }

  /** Only strictly deeper units differ. */
  ghost predicate OnlyDeeper(t: Table, level: map<Uid, nat>, uid: Uid, a: Priorities, b: Priorities)
    requires Covers(a, t) && Covers(b, t)
  {
    forall x :: t.Has(x) && b[x] != a[x] ==> Deeper(level, uid, x.pkg.uid)
  }

  lemma OnlyDeeperTransitive(t: Table, level: map<Uid, nat>, uid: Uid, a: Priorities, b: Priorities, c: Priorities)
    requires Covers(a, t) && Covers(b, t) && Covers(c, t)
    requires OnlyDeeper(t, level, uid, a, b) && OnlyDeeper(t, level, uid, b, c)
    ensures OnlyDeeper(t, level, uid, a, c)
  {
  }

  lemma GoodStays(t: Table, kind: UpdateType, level: map<Uid, nat>, uid: Uid, a: Priorities, b: Priorities, x: Unit)
    requires Covers(a, t) && Covers(b, t) && t.Has(x)
    requires Advances(t, kind, level, uid, a, b) && Good(t, kind, a, x)
    ensures Good(t, kind, b, x)
  {
  }

  /** Every unit on the given chains is above p. */
  ghost predicate AllAbove(t: Table, uids: seq<Uid>, p: nat, m: Priorities)
    requires Covers(m, t)
  {
    forall y :: t.Has(y) && y.pkg.uid in uids ==> p < m[y]
  }

  /** The first i chains that must be above the unit are. */
  ghost predicate RaisedTo(t: Table, kind: UpdateType, level: map<Uid, nat>, it: Unit, p: nat, i: nat,
                           a: Priorities, b: Priorities)
    requires Covers(a, t) && Covers(b, t) && i <= |Above(it, kind)|
  {
    && Advances(t, kind, level, it.pkg.uid, a, b)
    && OnlyDeeper(t, level, it.pkg.uid, a, b)
    && AllAbove(t, Above(it, kind)[..i], p, b)
  }

  /** The first k units of a chain are above p. */
  ghost predicate ChainRaised(t: Table, kind: UpdateType, level: map<Uid, nat>, d: Uid, p: nat, k: nat,
                              a: Priorities, b: Priorities)
    requires Covers(a, t) && Covers(b, t) && d in t.chains && k <= |t.chains[d]|
  {
    && Advances(t, kind, level, d, a, b)
    && forall m :: 0 <= m < k ==> IsAbove(t.chains[d][m], p, b)
  }

  ghost predicate IsAbove(x: Unit, p: nat, m: Priorities) { x in m && p < m[x] }

  lemma ChainStep(t: Table, kind: UpdateType, level: map<Uid, nat>, d: Uid, p: nat, k: nat,
                  a: Priorities, m: Priorities, b: Priorities)
    requires Covers(a, t) && Covers(m, t) && Covers(b, t) && t.Valid() && d in t.chains && k < |t.chains[d]|
    requires ChainRaised(t, kind, level, d, p, k, a, m) && Raised(m, b)
    requires m == b || Advances(t, kind, level, d, m, b)
    requires IsAbove(t.chains[d][k], p, b)
    ensures ChainRaised(t, kind, level, d, p, k + 1, a, b)
  {
    if m != b { AdvancesTransitive(t, kind, level, d, a, m, b); }
    forall n | 0 <= n < k ensures IsAbove(t.chains[d][n], p, b) {
      assert IsAbove(t.chains[d][n], p, m);
    }
  }

  lemma WholeChain(t: Table, d: Uid, p: nat, m: Priorities)
    requires Covers(m, t) && t.Valid() && d in t.chains
    requires forall k :: 0 <= k < |t.chains[d]| ==> IsAbove(t.chains[d][k], p, m)
    ensures AllAbove(t, [d], p, m)
  {
    forall y | t.Has(y) && y.pkg.uid in [d] ensures p < m[y] {
      var k :| 0 <= k < |t.chains[d]| && t.chains[d][k] == y;
      assert IsAbove(t.chains[d][k], p, m);
    }
  }

  /** Setting one unit and then raising what must be above it makes it good and keeps the rest. */
  lemma SetThenRaise(t: Table, kind: UpdateType, level: map<Uid, nat>, x: Unit, p: nat, a: Priorities, b: Priorities)
    requires Covers(a, t) && Covers(b, t) && t.Has(x) && a[x] <= p
    requires x.pkg.uid in level && p <= level[x.pkg.uid]
    requires Advances(t, kind, level, x.pkg.uid, a[x := p], b)
    requires OnlyDeeper(t, level, x.pkg.uid, a[x := p], b)
    requires AllAbove(t, Above(x, kind)[..|Above(x, kind)|], p, b)
    ensures b[x] == p && Good(t, kind, b, x)
    ensures Advances(t, kind, level, x.pkg.uid, a, b)
  {
    var m := a[x := p];
    assert Good(t, kind, b, x);
    forall z | t.Has(z) && z != x && Good(t, kind, a, z) ensures Good(t, kind, b, z) {
      assert Good(t, kind, m, z);
    }
  }

  /** What one round at position i achieves on a levelled universe. */
  ghost predicate RoundDone(t: Table, kind: UpdateType, level: map<Uid, nat>, uid: Uid, p: nat,
                            i: nat, stop: bool, a: Priorities, b: Priorities)
    requires Covers(a, t) && Covers(b, t) && uid in t.chains && i < |t.chains[uid]|
  {
    var chain := t.chains[uid];
    && Advances(t, kind, level, uid, a, b)
    && SettledAt(t, kind, chain[i], p, a, b)
    && (stop ==> forall k :: i <= k < |chain| ==> SettledAt(t, kind, chain[k], p, a, b))
    && (!stop ==> forall x :: t.Has(x) && x != chain[i] && b[x] != a[x] ==> Deeper(level, uid, x.pkg.uid))
  }

  /** Where the loop over a chain stands on a levelled universe. */
  ghost predicate LoopAt(t: Table, kind: UpdateType, level: map<Uid, nat>, uid: Uid, p: nat,
                         start: nat, i: nat, stop: bool, a: Priorities, b: Priorities)
    requires Covers(a, t) && Covers(b, t) && uid in t.chains && i <= |t.chains[uid]|
  {
    var chain := t.chains[uid];
    && Advances(t, kind, level, uid, a, b)
    && (forall k :: start <= k < (if stop then |chain| else i) ==> SettledAt(t, kind, chain[k], p, a, b))
    && (!stop ==> forall k :: i <= k < |chain| ==> Unchanged(chain[k], a, b))
  }

  ghost predicate Unchanged(x: Unit, a: Priorities, b: Priorities) {
    x in a && x in b && a[x] == b[x]
  }

  lemma LoopStep(t: Table, kind: UpdateType, level: map<Uid, nat>, uid: Uid, p: nat,
                 start: nat, i: nat, stop: bool, a: Priorities, m: Priorities, b: Priorities)
    requires Covers(a, t) && Covers(m, t) && Covers(b, t)
    requires t.Valid() && uid in t.chains && start <= i < |t.chains[uid]| && uid in level
    requires LoopAt(t, kind, level, uid, p, start, i, false, a, m)
    requires RoundDone(t, kind, level, uid, p, i, stop, m, b) && Raised(m, b)
    ensures LoopAt(t, kind, level, uid, p, start, i + 1, stop, a, b)
  {
    var chain := t.chains[uid];
    AdvancesTransitive(t, kind, level, uid, a, m, b);
    assert Table.ChainOf(uid, chain);
    forall k | start <= k < i ensures SettledAt(t, kind, chain[k], p, a, b) {
      SettledStays(t, kind, level, uid, chain[k], p, a, m, b);
    }
    forall k | i <= k < |chain| && (k == i || stop) ensures SettledAt(t, kind, chain[k], p, a, b) {
      UnchangedSettles(t, kind, chain[k], p, a, m, b);
    }
    if !stop {
      forall k | i < k < |chain| ensures Unchanged(chain[k], a, b) {
        assert Unchanged(chain[k], a, m) && chain[k] != chain[i] && t.Has(chain[k]);
      }
    }
  }

  lemma UnchangedSettles(t: Table, kind: UpdateType, x: Unit, p: nat, a: Priorities, m: Priorities, b: Priorities)
    requires Covers(a, t) && Covers(m, t) && Covers(b, t)
    requires Unchanged(x, a, m) && SettledAt(t, kind, x, p, m, b)
    ensures SettledAt(t, kind, x, p, a, b)
  {
  }

  lemma SettledStays(t: Table, kind: UpdateType, level: map<Uid, nat>, uid: Uid, x: Unit, p: nat,
                     a: Priorities, m: Priorities, b: Priorities)
    requires Covers(a, t) && Covers(m, t) && Covers(b, t) && t.Has(x)
    requires SettledAt(t, kind, x, p, a, m) && Advances(t, kind, level, uid, m, b) && Raised(m, b)
    ensures SettledAt(t, kind, x, p, a, b)
  {
    if a[x] <= p { GoodStays(t, kind, level, uid, m, b, x); }
  }

  class Graph {
    const t: Table
    var prio: Priorities

    constructor (table: Table, initial: Priorities)
      requires table.Valid() && Covers(initial, table)
      ensures Valid() && t == table && prio == initial
    {
      t, prio := table, initial;
    }

    ghost predicate Valid()
      reads this
    {
      t.Valid() && Covers(prio, t)
    }

    /** pkg_jobs_update_universe_item_priority for the item at position `start` of a chain. */
    method Update(uid: Uid, start: nat, p: nat, kind: UpdateType, ghost level: map<Uid, nat>)
      requires Valid() && uid in t.chains && start < |t.chains[uid]|
      modifies this`prio
      ensures Valid() && Raised(old(prio), prio)
      ensures Tame(t, kind, level, uid, p, old(prio)) ==> Advances(t, kind, level, uid, old(prio), prio)
      ensures Tame(t, kind, level, uid, p, old(prio)) ==>
        forall k :: start <= k < |t.chains[uid]| ==> SettledAt(t, kind, t.chains[uid][k], p, old(prio), prio)
      decreases if p > RECURSION_LIMIT then 0 else RECURSION_LIMIT + 1 - p, 5
    {
      if p > RECURSION_LIMIT {
        return;
      }
      var i := start;
      var stop := false;
      while i < |t.chains[uid]| && !stop
        invariant start <= i <= |t.chains[uid]|
        invariant Valid() && Raised(old(prio), prio)
        invariant Tame(t, kind, level, uid, p, old(prio)) ==>
          LoopAt(t, kind, level, uid, p, start, i, stop, old(prio), prio)
        decreases |t.chains[uid]| - i
      {
        ghost var before := prio;
        stop := UpdateOne(uid, i, p, kind, level);
        if Tame(t, kind, level, uid, p, old(prio)) {
          LoopStep(t, kind, level, uid, p, start, i, stop, old(prio), before, prio);
        }
        i := i + 1;
      }
    }

    /** One round of the loop over the chain; true when it ends the loop early.  List heads
        point back to the tail, so the test on item->prev always holds. */
    method UpdateOne(uid: Uid, i: nat, p: nat, kind: UpdateType, ghost level: map<Uid, nat>) returns (stop: bool)
      requires Valid() && uid in t.chains && i < |t.chains[uid]| && p <= RECURSION_LIMIT
      modifies this`prio
      ensures Valid() && Raised(old(prio), prio)
      ensures Tame(t, kind, level, uid, p, old(prio)) ==>
        RoundDone(t, kind, level, uid, p, i, stop, old(prio), prio)
      decreases RECURSION_LIMIT + 1 - p, 4
    {
      var it := t.chains[uid][i];
      assert Table.ChainOf(uid, t.chains[uid]) && t.Has(it);
      if !it.pkg.installed && (kind == UpdateConflict || kind == UpdateDelete) {
        return false;
      }
      if prio[it] > p {
        return false;
      }
      SetAndRaise(it, p, kind, level);
      ghost var raised := prio;
      var maxpri := MaxBelow(it, p, kind);
      if maxpri != p {
        if Tame(t, kind, level, uid, p, old(prio)) {
          MaxWithinLevel(t, kind, level, it, maxpri, prio);
        }
        Update(uid, i, maxpri, kind, level);
        if Tame(t, kind, level, uid, p, old(prio)) {
          RestartDone(t, kind, level, uid, p, maxpri, i, old(prio), raised, prio);
        }
        return true;
      }
      if !it.pkg.installed {
        RaiseConflicts(it, p);
      }
      return false;
    }

    method SetAndRaise(it: Unit, p: nat, kind: UpdateType, ghost level: map<Uid, nat>)
      requires Valid() && t.Has(it) && p <= RECURSION_LIMIT && prio[it] <= p
      modifies this`prio
      ensures Valid() && Raised(old(prio), prio) && p <= prio[it]
      ensures Tame(t, kind, level, it.pkg.uid, p, old(prio)) ==>
        && prio[it] == p && Good(t, kind, prio, it)
        && Advances(t, kind, level, it.pkg.uid, old(prio), prio)
        && OnlyDeeper(t, level, it.pkg.uid, old(prio)[it := p], prio)
      decreases RECURSION_LIMIT + 1 - p, 4, 0
    {
      prio := prio[it := p];
      RaiseAbove(it, p, kind, level);
      if Tame(t, kind, level, it.pkg.uid, p, old(prio)) {
        SetThenRaise(t, kind, level, it, p, old(prio), prio);
      }
    }

    /** Everything the update must place above `it` is raised to p + 1 at least. */
    method RaiseAbove(it: Unit, p: nat, kind: UpdateType, ghost level: map<Uid, nat>)
      requires Valid() && t.Has(it) && p <= RECURSION_LIMIT
      modifies this`prio
      ensures Valid() && Raised(old(prio), prio)
      ensures Tame(t, kind, level, it.pkg.uid, p, old(prio)) ==>
        RaisedTo(t, kind, level, it, p, |Above(it, kind)|, old(prio), prio)
      decreases RECURSION_LIMIT + 1 - p, 3
    {
      var above := Above(it, kind);
      var i := 0;
      while i < |above|
        invariant 0 <= i <= |above|
        invariant Valid() && Raised(old(prio), prio)
        invariant Tame(t, kind, level, it.pkg.uid, p, old(prio)) ==>
          RaisedTo(t, kind, level, it, p, i, old(prio), prio)
      {
        ghost var before := prio;
        if above[i] in t.chains {
          RaiseChain(above[i], p, kind, level);
        }
        if Tame(t, kind, level, it.pkg.uid, p, old(prio)) {
          RaiseStep(t, kind, level, it, p, i, old(prio), before, prio);
        }
        i := i + 1;
      }
    }

    method RaiseChain(d: Uid, p: nat, kind: UpdateType, ghost level: map<Uid, nat>)
      requires Valid() && d in t.chains && p <= RECURSION_LIMIT
      modifies this`prio
      ensures Valid() && Raised(old(prio), prio)
      ensures Tame(t, kind, level, d, p + 1, old(prio)) ==>
        Advances(t, kind, level, d, old(prio), prio) && AllAbove(t, [d], p, prio)
      decreases RECURSION_LIMIT + 1 - p, 2
    {
      var k := 0;
      while k < |t.chains[d]|
        invariant 0 <= k <= |t.chains[d]|
        invariant Valid() && Raised(old(prio), prio)
        invariant Tame(t, kind, level, d, p + 1, old(prio)) ==>
          ChainRaised(t, kind, level, d, p, k, old(prio), prio)
      {
        assert t.Has(t.chains[d][k]);
        ghost var before := prio;
        if prio[t.chains[d][k]] < p + 1 {
          Update(d, k, p + 1, kind, level);
        }
        if Tame(t, kind, level, d, p + 1, old(prio)) {
          ChainStep(t, kind, level, d, p, k, old(prio), before, prio);
        }
        k := k + 1;
      }
      if Tame(t, kind, level, d, p + 1, old(prio)) {
        WholeChain(t, d, p, prio);
      }
    }

    method MaxBelow(it: Unit, p: nat, kind: UpdateType) returns (maxpri: nat)
      requires Valid() && t.Has(it)
      ensures maxpri >= p
      ensures forall y :: t.Has(y) && y.pkg.uid in Below(it, kind) ==> prio[y] < maxpri
      ensures maxpri == p || exists y :: t.Has(y) && y.pkg.uid in Below(it, kind) && maxpri == prio[y] + 1
    {
      var below := Below(it, kind);
      maxpri := p;
      var i := 0;
      while i < |below|
        invariant 0 <= i <= |below| && maxpri >= p
        invariant forall y :: t.Has(y) && y.pkg.uid in below[..i] ==> prio[y] < maxpri
        invariant maxpri == p || exists y :: t.Has(y) && y.pkg.uid in below && maxpri == prio[y] + 1
      {
        assert below[..i + 1] == below[..i] + [below[i]] && below[i] in below;
        if below[i] in t.chains {
          maxpri := MaxOfChain(below[i], maxpri);
        }
        i := i + 1;
      }
      assert below[..i] == below;
    }

    method MaxOfChain(uid: Uid, p: nat) returns (maxpri: nat)
      requires Valid() && uid in t.chains
      ensures maxpri >= p
      ensures forall y :: t.Has(y) && y.pkg.uid == uid ==> prio[y] < maxpri
      ensures maxpri == p || exists y :: t.Has(y) && y.pkg.uid == uid && maxpri == prio[y] + 1
    {
      var chain := t.chains[uid];
      assert Table.ChainOf(uid, chain);
      maxpri := p;
      var k := 0;
      while k < |chain|
        invariant 0 <= k <= |chain| && maxpri >= p
        invariant forall y :: y in chain[..k] ==> y in prio && prio[y] < maxpri
        invariant maxpri == p || exists y :: t.Has(y) && y.pkg.uid == uid && maxpri == prio[y] + 1
      {
        assert chain[..k + 1] == chain[..k] + [chain[k]] && t.Has(chain[k]);
        if prio[chain[k]] >= maxpri {
          maxpri := prio[chain[k]] + 1;
        }
        k := k + 1;
      }
      assert chain[..k] == chain;
    }

    /** Installed units that a remote unit conflicts with are deleted before it arrives. */
    method RaiseConflicts(it: Unit, p: nat)
      requires Valid() && t.Has(it) && p <= RECURSION_LIMIT && p <= prio[it]
      modifies this`prio
      ensures Valid() && Raised(old(prio), prio)
      ensures it.pkg.conflicts == [] ==> prio == old(prio)
      decreases RECURSION_LIMIT + 1 - p, 3
    {
      var i := 0;
      while i < |it.pkg.conflicts|
        invariant 0 <= i <= |it.pkg.conflicts|
        invariant Valid() && Raised(old(prio), prio)
        invariant it.pkg.conflicts == [] ==> prio == old(prio)
      {
        var uid := it.pkg.conflicts[i].uid;
        if uid in t.chains {
          RaiseInstalled(it, uid, p);
        }
        i := i + 1;
      }
    }

    method RaiseInstalled(it: Unit, uid: Uid, p: nat)
      requires Valid() && t.Has(it) && uid in t.chains && p <= RECURSION_LIMIT && p <= prio[it]
      modifies this`prio
      ensures Valid() && Raised(old(prio), prio)
      decreases RECURSION_LIMIT + 1 - p, 2
    {
      var k := 0;
      while k < |t.chains[uid]|
        invariant 0 <= k <= |t.chains[uid]|
        invariant Valid() && Raised(old(prio), prio)
      {
        var cur := t.chains[uid][k];
        assert t.Has(cur);
        if cur.pkg.installed && prio[cur] <= prio[it] {
          Update(uid, k, prio[it] + 1, UpdateConflict, map[]);
        }
        k := k + 1;
      }
    }
  }

  lemma MaxWithinLevel(t: Table, kind: UpdateType, level: map<Uid, nat>, it: Unit, maxpri: nat, m: Priorities)
    requires Covers(m, t) && t.Has(it) && Levelled(t, kind, level) && Bounded(t, level, m)
    requires exists y :: t.Has(y) && y.pkg.uid in Below(it, kind) && maxpri == m[y] + 1
    ensures maxpri <= level[it.pkg.uid]
  {
    var y :| t.Has(y) && y.pkg.uid in Below(it, kind) && maxpri == m[y] + 1;
    assert level[y.pkg.uid] < level[it.pkg.uid];
  }

  lemma RaiseStep(t: Table, kind: UpdateType, level: map<Uid, nat>, it: Unit, p: nat, i: nat,
                  a: Priorities, m: Priorities, b: Priorities)
    requires Covers(a, t) && Covers(m, t) && Covers(b, t) && t.Has(it) && i < |Above(it, kind)|
    requires Tame(t, kind, level, it.pkg.uid, p, a) && Raised(m, b)
    requires RaisedTo(t, kind, level, it, p, i, a, m)
    requires Above(it, kind)[i] !in t.chains ==> m == b
    requires Tame(t, kind, level, Above(it, kind)[i], p + 1, m) ==>
      Advances(t, kind, level, Above(it, kind)[i], m, b) && AllAbove(t, [Above(it, kind)[i]], p, b)
    ensures RaisedTo(t, kind, level, it, p, i + 1, a, b)
  {
    var d := Above(it, kind)[i];
    assert d in Above(it, kind) && Above(it, kind)[..i + 1] == Above(it, kind)[..i] + [d];
    if d in t.chains {
      assert Deeper(level, it.pkg.uid, d);
      AdvancesFromDeeper(t, kind, level, it.pkg.uid, d, m, b);
      AdvancesTransitive(t, kind, level, it.pkg.uid, a, m, b);
      assert OnlyDeeper(t, level, it.pkg.uid, m, b);
      OnlyDeeperTransitive(t, level, it.pkg.uid, a, m, b);
    }
  }

  /** The restart at a higher priority settles the rest of the chain as well. */
  lemma RestartDone(t: Table, kind: UpdateType, level: map<Uid, nat>, uid: Uid, p: nat, q: nat,
                    i: nat, a: Priorities, m: Priorities, b: Priorities)
    requires Covers(a, t) && Covers(m, t) && Covers(b, t)
    requires t.Valid() && uid in t.chains && i < |t.chains[uid]| && uid in level && p <= q
    requires a[t.chains[uid][i]] <= p && m[t.chains[uid][i]] == p
    requires Advances(t, kind, level, uid, a, m) && Advances(t, kind, level, uid, m, b)
    requires OnlyDeeper(t, level, uid, a[t.chains[uid][i] := p], m)
    requires forall k :: i <= k < |t.chains[uid]| ==> SettledAt(t, kind, t.chains[uid][k], q, m, b)
    ensures RoundDone(t, kind, level, uid, p, i, true, a, b)
  {
    var chain := t.chains[uid];
    AdvancesTransitive(t, kind, level, uid, a, m, b);
    assert Table.ChainOf(uid, chain);
    forall k | i <= k < |chain| ensures SettledAt(t, kind, chain[k], p, a, b) {
      assert t.Has(chain[k]);
      assert k == i || chain[k] != chain[i];
    }
  }
}
