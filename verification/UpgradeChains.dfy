/** Pruning of requests before solving
    (libpkg/pkg_jobs_universe.c, pkg_jobs_universe_process_upgrade_chains). */
module UpgradeChains {
  import opened CStrings
  import opened Lists
  import opened Packages
  import opened Jobs
  import opened Version
  import opened Newest

  predicate IsRemote(u: Unit) { !u.pkg.installed }

  /** The last installed unit of a chain is locked. */
  ghost predicate LocalLocked(chain: Chain) {
    exists i :: 0 <= i < |chain| && chain[i].pkg.installed && chain[i].pkg.locked
      && forall k :: i < k < |chain| ==> IsRemote(chain[k])
  }

  ghost predicate HasLocal(chain: Chain) {
    exists u :: u in chain && u.pkg.installed
  }

  /** Chains on which one upgrade candidate has to be picked. */
  ghost predicate NeedsSelection(chain: Chain) {
    !LocalLocked(chain) && (|chain| > 2 || (|chain| > 1 && !HasLocal(chain)))
  }

  function VersionOf(u: Unit): CString { u.pkg.version }

  /** Position i holds the first of the newest remote units. */
  ghost predicate IsNewest(chain: Chain, i: nat) {
    NewestOf(IsRemote, OlderBy(VersionOf), chain, |chain|, i)
  }

  /** What is left of the requests of one chain. */
  ghost predicate Pruned(chain: Chain, before: set<Unit>, after: set<Unit>) {
    if LocalLocked(chain) then
      forall u :: u in chain ==> u !in after
    else if NeedsSelection(chain) then
      exists i: nat :: IsNewest(chain, i) && forall u :: u in chain ==> (u in after <==> u in before && u == chain[i])
    else
      forall u :: u in chain ==> (u in after <==> u in before)
  }

  /** pkg_version_change_between(cur, selected) == PKG_UPGRADE */
  method IsUpgrade(cur: Unit, selected: Unit) returns (r: bool)
    ensures r <==> OlderBy(VersionOf)(selected, cur)
  {
    var c := VersionCmp(selected.pkg.version, cur.pkg.version);
    r := c == -1;
    OlderByMeans(VersionOf, selected, cur);
  }

  /** The selection loop; its assertion that something was selected is the precondition. */
  method Select(chain: Chain) returns (s: nat)
    requires exists u :: u in chain && IsRemote(u)
    ensures IsNewest(chain, s)
  {
    ghost var older := OlderBy(VersionOf);
    OlderByIsWeakOrder(VersionOf);
    var selected := -1;
    var i := 0;
    while i < |chain|
      invariant 0 <= i <= |chain| && -1 <= selected < i
      invariant SelectedSoFar(IsRemote, older, chain, i, selected)
    {
      if chain[i].pkg.installed {
        NewestSkips(IsRemote, older, chain, i, selected);
      } else if selected == -1 {
        selected := i;
      } else {
        var newer := IsUpgrade(chain[i], chain[selected]);
        if newer {
          NewestMoves(IsRemote, older, chain, i, selected);
          selected := i;
        } else {
          NewestSkips(IsRemote, older, chain, i, selected);
        }
      }
      i := i + 1;
    }
    s := selected;
  }

  method DropAllBut(j: Job, chain: Chain, keep: int)
    requires j.Valid() && -1 <= keep < |chain| && Distinct(chain)
    modifies j`requestAdd
    ensures j.Valid()
    ensures forall u :: u in j.requestAdd <==>
      u in old(j.requestAdd) && (u in chain ==> keep >= 0 && u == chain[keep])
  {
    var i := 0;
    while i < |chain|
      invariant 0 <= i <= |chain|
      invariant forall u :: u in j.requestAdd <==>
        u in old(j.requestAdd) && (u in chain[..i] ==> keep >= 0 && u == chain[keep])
    {
      assert chain[..i + 1] == chain[..i] + [chain[i]];
      if i != keep {
        j.requestAdd := j.requestAdd - {chain[i]};
      }
      i := i + 1;
    }
    assert chain[..i] == chain;
  }

  method ProcessChain(j: Job, chain: Chain)
    requires j.Valid() && Distinct(chain)
    requires NeedsSelection(chain) ==> exists u :: u in chain && IsRemote(u)
    modifies j`requestAdd
    ensures j.Valid()
    ensures Pruned(chain, old(j.requestAdd), j.requestAdd)
    ensures forall u :: u !in chain ==> (u in j.requestAdd <==> u in old(j.requestAdd))
    ensures j.requestAdd <= old(j.requestAdd)
  {
    var local, vercnt := -1, 0;
    while vercnt < |chain|
      invariant 0 <= vercnt <= |chain| && -1 <= local < vercnt
      invariant local == -1 ==> forall k :: 0 <= k < vercnt ==> IsRemote(chain[k])
      invariant local >= 0 ==> chain[local].pkg.installed
      invariant forall k :: local < k < vercnt ==> IsRemote(chain[k])
    {
      if chain[vercnt].pkg.installed {
        local := vercnt;
      }
      vercnt := vercnt + 1;
    }
    assert local >= 0 ==> chain[local] in chain;
    assert LocalLocked(chain) <==> local >= 0 && chain[local].pkg.locked;
    assert HasLocal(chain) <==> local >= 0;
    if local >= 0 && chain[local].pkg.locked {
      DropAllBut(j, chain, -1);
    } else if vercnt > 1 {
      if (local == -1 && vercnt > 1) || vercnt > 2 {
        var selected := Select(chain);
        DropAllBut(j, chain, selected);
      }
    }
  }

  /** The first n chains are pruned, and the requests of all others are as before. */
  ghost predicate PrunedTo(t: Table, n: nat, before: set<Unit>, after: set<Unit>)
    requires t.Valid() && n <= |t.uids|
  {
    && after <= before
    && (forall k :: 0 <= k < n ==> Pruned(t.chains[t.uids[k]], before, after))
    && (forall u: Unit :: u.pkg.uid !in t.uids[..n] ==> (u in after <==> u in before))
    && (forall u :: !t.Has(u) ==> (u in after <==> u in before))
  }

  lemma PrunedStep(t: Table, i: nat, first: set<Unit>, before: set<Unit>, after: set<Unit>)
    requires t.Valid() && i < |t.uids| && PrunedTo(t, i, first, before) && after <= before
    requires Pruned(t.chains[t.uids[i]], before, after)
    requires forall u :: u !in t.chains[t.uids[i]] ==> (u in after <==> u in before)
    ensures PrunedTo(t, i + 1, first, after)
  {
    var uid := t.uids[i];
    assert uid !in t.uids[..i] && t.uids[..i + 1] == t.uids[..i] + [uid] && Table.ChainOf(uid, t.chains[uid]);
    PrunedSame(t.chains[uid], first, before, after, after);
    forall k | 0 <= k < i ensures Pruned(t.chains[t.uids[k]], first, after) {
      assert t.uids[k] != uid && Table.ChainOf(t.uids[k], t.chains[t.uids[k]]);
      PrunedSame(t.chains[t.uids[k]], first, first, before, after);
    }
  }

  /** Whether a chain is pruned depends only on the requests for its own units. */
  lemma PrunedSame(chain: Chain, a: set<Unit>, a': set<Unit>, b: set<Unit>, b': set<Unit>)
    requires Pruned(chain, a', b)
    requires forall u :: u in chain ==> (u in a <==> u in a') && (u in b <==> u in b')
    ensures Pruned(chain, a, b')
  {
  }

  /** All chains: each is pruned as above, and nothing else changes. */
  method ProcessUpgradeChains(j: Job, t: Table)
    requires j.Valid() && t.Valid()
    requires forall uid :: uid in t.chains && NeedsSelection(t.chains[uid]) ==>
      exists u :: u in t.chains[uid] && IsRemote(u)
    modifies j`requestAdd
    ensures j.Valid() && j.requestAdd <= old(j.requestAdd)
    ensures forall uid :: uid in t.chains ==> Pruned(t.chains[uid], old(j.requestAdd), j.requestAdd)
    ensures forall u :: !t.Has(u) ==> (u in j.requestAdd <==> u in old(j.requestAdd))
  {
    var i := 0;
    while i < |t.uids|
      invariant 0 <= i <= |t.uids| && j.Valid() && PrunedTo(t, i, old(j.requestAdd), j.requestAdd)
    {
      ghost var before := j.requestAdd;
      var uid := t.uids[i];
      assert Table.ChainOf(uid, t.chains[uid]);
      ProcessChain(j, t.chains[uid]);
      PrunedStep(t, i, old(j.requestAdd), before, j.requestAdd);
      i := i + 1;
    }
    forall uid | uid in t.chains ensures Pruned(t.chains[uid], old(j.requestAdd), j.requestAdd) {
      var k :| 0 <= k < |t.uids| && t.uids[k] == uid;
    }
  }
}
