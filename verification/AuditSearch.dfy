/** Building the vulnerability index in place and searching it (libpkg/pkg_audit.c). */
module AuditSearch {
  import opened CStrings
  import opened Lists
  import opened Sorting
  import opened Version
  import opened Audit

  // ---------- reference definitions ----------

  function ItemOf(e: Entry): Item {
    Item(Some(e), if e.pkgname.Some? then NoglobLen(e.pkgname.value) else 0, 1)
  }

  /** A slot for every entry that has a name, in list order. */
  function ItemsOf(entries: seq<Entry>): seq<Item> {
    if entries == [] then []
    else
      var last := entries[|entries| - 1];
      ItemsOf(entries[..|entries| - 1]) + (if last.pkgname.Some? then [ItemOf(last)] else [])
  }

  function WithJumps(its: seq<Item>): seq<Item> {
    seq(|its|, k requires 0 <= k < |its| => its[k].(incr := Jump(its, k)))
  }

  function FirstOf<T>(s: seq<T>): seq<T> {
    if s == [] then [] else [s[0]]
  }

  lemma {:induction false} ItemsAreNamed(entries: seq<Entry>)
    ensures |ItemsOf(entries)| <= |entries|
    ensures forall x :: x in ItemsOf(entries) ==>
      x.e.Some? && x.noglobLen == NoglobLen(NameOf(x)) && x.incr == 1
  {
    if entries != [] {
      ItemsAreNamed(entries[..|entries| - 1]);
    }
  }

  /** What a list entry contributes to a scan. */
  ghost function FoundIn(q: Query): Entry -> Option<Entry> {
    (e: Entry) => if e.pkgname.Some? && Hits(ItemOf(e), q) then Some(e) else None
  }

  /** Scanning the slots is scanning the list. */
  lemma {:induction false} ScanOfList(entries: seq<Entry>, q: Query)
    ensures Scan(ItemsOf(entries), q) == Picked(FoundIn(q), entries)
  {
    if entries != [] {
      var n := |entries| - 1;
      ScanOfList(entries[..n], q);
      if entries[n].pkgname.Some? {
        assert ItemsOf(entries)[..|ItemsOf(entries)| - 1] == ItemsOf(entries[..n]);
        assert FoundBy(q)(ItemOf(entries[n])) == FoundIn(q)(entries[n]);
      } else {
        assert ItemsOf(entries) == ItemsOf(entries[..n]);
      }
    }
  }

  /** No pattern starts with a glob character or is empty. */
  ghost predicate PlainStart(entries: seq<Entry>) {
    forall k :: 0 <= k < |entries| && entries[k].pkgname.Some? ==> NoglobLen(entries[k].pkgname.value) > 0
  }

  lemma {:induction false} ItemsStartPlain(entries: seq<Entry>)
    requires PlainStart(entries)
    ensures forall x :: x in ItemsOf(entries) ==> x.noglobLen > 0
  {
    if entries != [] {
      ItemsStartPlain(entries[..|entries| - 1]);
    }
  }

  /** The indexed search finds what a walk over the whole list finds, each entry as often. */
  lemma IndexAgreesWithList(entries: seq<Entry>, its: seq<Item>, table: seq<nat>, q: Query)
    requires SortOf(ItemLE, ItemsOf(entries), its) && Sorted(its) && IsTable(its, table)
    requires PlainStart(entries) && Respects(q.fnmatch) && Ascii(q.name)
    ensures
      var found := Between(its, From(its, table, q.name), |its|, q);
      && found == Scan(its, q)
      && multiset(found) == multiset(Picked(FoundIn(q), entries))
  {
    SameElements(ItemsOf(entries), its);
    ItemsStartPlain(entries);
    assert forall k :: 0 <= k < |its| ==> its[k] in its;
    var t := From(its, table, q.name);
    SkippedCannotHit(its, t, q);
    assert its[t..|its|] == its[t..];
    PickedFromPermutation(FoundBy(q), ItemsOf(entries), its);
    ScanOfList(entries, q);
  }

  /** The answer of a search against the whole list. */
  ghost predicate Agrees(entries: seq<Entry>, its: seq<Item>, q: Query, quiet: bool,
                         vulnerable: bool, report: seq<Entry>)
  {
    && (vulnerable <==> exists k :: 0 <= k < |entries| && FoundIn(q)(entries[k]).Some?)
    && (!quiet ==> report == Scan(its, q) && multiset(report) == multiset(Picked(FoundIn(q), entries)))
  }

  lemma AnswerAgrees(entries: seq<Entry>, its: seq<Item>, table: seq<nat>, q: Query, quiet: bool, report: seq<Entry>)
    requires SortOf(ItemLE, ItemsOf(entries), its) && Sorted(its) && IsTable(its, table)
    requires PlainStart(entries) && Respects(q.fnmatch) && Ascii(q.name)
    requires
      var found := Between(its, From(its, table, q.name), |its|, q);
      report == if quiet then FirstOf(found) else found
    ensures Agrees(entries, its, q, quiet, report != [], report)
  {
    IndexAgreesWithList(entries, its, table, q);
    SameNone(Scan(its, q), Picked(FoundIn(q), entries));
    PickedNone(FoundIn(q), entries);
  }

  lemma SameNone<T>(s: seq<T>, t: seq<T>)
    requires multiset(s) == multiset(t)
    ensures s == [] <==> t == []
  {
    assert |multiset(s)| == |s| && |multiset(t)| == |t|;
  }

  // ---------- building the index ----------

  method Collect(entries: seq<Entry>) returns (a: array<Item>, n: nat)
    ensures fresh(a) && a.Length == |entries| + 1 && n <= |entries|
    ensures a[..n] == ItemsOf(entries)
    ensures forall k :: n <= k < a.Length ==> a[k] == ZERO_ITEM
  {
    a := new Item[|entries| + 1](_ => ZERO_ITEM);
    n := 0;
    for i := 0 to |entries|
      invariant n <= i && a[..n] == ItemsOf(entries[..i])
      invariant forall k :: n <= k < a.Length ==> a[k] == ZERO_ITEM
    {
      assert entries[..i + 1][..i] == entries[..i];
      if entries[i].pkgname.Some? {
        a[n] := Item(Some(entries[i]), NoglobLen(entries[i].pkgname.value), 1);
        n := n + 1;
      }
    }
    assert entries[..|entries|] == entries;
  }

  method CopyBack(a: array<Item>, r: seq<Item>)
    requires |r| <= a.Length
    modifies a
    ensures a[..|r|] == r
    ensures forall m :: |r| <= m < a.Length ==> a[m] == old(a[m])
  {
    for i := 0 to |r|
      invariant a[..i] == r[..i]
      invariant forall m :: |r| <= m < a.Length ==> a[m] == old(a[m])
    {
      a[i] := r[i];
    }
  }

  /** qsort of the first n slots. */
  method QSort(a: array<Item>, n: nat)
    requires n <= a.Length
    modifies a
    ensures SortOf(ItemLE, old(a[..n]), a[..n])
    ensures forall m :: n <= m < a.Length ==> a[m] == old(a[m])
  {
    EntriesAreOrdered();
    var r := Sort(ItemLE, a[..n]);
    SameElements(a[..n], r);
    CopyBack(a, r);
  }

  predicate JumpAt(its: seq<Item>, s: seq<Item>, k: nat, i: nat)
    requires i < |its| == |s|
  {
    s[i] == its[i].(incr := if RunEnd(its, i) < k then Jump(its, i) else 1)
  }

  /** The slots when the jumps of the runs that end before k are written. */
  ghost predicate JumpsUpTo(its: seq<Item>, s: seq<Item>, k: nat) {
    |s| == |its| && forall i: nat :: i < |its| ==> JumpAt(its, s, k, i)
  }

  /** Slots k - tofill up to k are the run that reaches k, slot 0 apart. */
  ghost predicate OpenRun(its: seq<Item>, k: nat, tofill: nat) {
    && tofill < k
    && (forall i :: 1 <= i < k - tofill && i < |its| ==> RunEnd(its, i) < k)
    && (forall i :: k - tofill <= i < k && i < |its| ==> RunEnd(its, i) >= k)
  }

  /** The slots s with the jumps of the run of `tofill` slots before k written. */
  ghost predicate RunFilled(s: seq<Item>, t: seq<Item>, k: nat, tofill: nat) {
    && |t| == |s|
    && tofill <= k <= |s|
    && forall i :: 0 <= i < |s| ==>
         t[i] == if k - tofill <= i < k - 1 then s[i].(incr := k - i) else s[i]
  }

  lemma RunGoesOn(its: seq<Item>, s: seq<Item>, k: nat, tofill: nat)
    requires 1 <= k < |its| && OpenRun(its, k, tofill) && JumpsUpTo(its, s, k)
    requires NameOf(its[k]) == NameOf(its[k - 1])
    ensures OpenRun(its, k + 1, tofill + 1) && JumpsUpTo(its, s, k + 1)
  {
    var next := k + 1;
    forall i: nat | i < |its| ensures RunEnd(its, i) != k && JumpAt(its, s, next, i) {
      assert JumpAt(its, s, k, i);
    }
  }

  lemma RunEnds(its: seq<Item>, k: nat, tofill: nat)
    requires 1 <= k < |its| && OpenRun(its, k, tofill)
    requires NameOf(its[k]) != NameOf(its[k - 1])
    ensures OpenRun(its, k + 1, 1)
    ensures forall i :: 1 <= i < |its| ==> (RunEnd(its, i) == k <==> k - tofill <= i < k)
  {
    forall i | 0 <= i < k ensures RunEnd(its, i) <= k {
    }
  }

  lemma FilledRunIsDone(its: seq<Item>, s: seq<Item>, t: seq<Item>, k: nat, tofill: nat)
    requires 1 <= k < |its| && OpenRun(its, k, tofill) && JumpsUpTo(its, s, k)
    requires NameOf(its[k]) != NameOf(its[k - 1])
    requires RunFilled(s, t, k, if its[k].noglobLen != its[k - 1].noglobLen then tofill else 0)
    ensures JumpsUpTo(its, t, k + 1)
  {
    RunEnds(its, k, tofill);
    var next := k + 1;
    forall i: nat | i < |its| ensures JumpAt(its, t, next, i) {
      assert JumpAt(its, s, k, i);
    }
  }

  method FillRun(a: array<Item>, n: nat, k: nat, length: nat)
    requires length < k < n <= a.Length
    modifies a
    ensures RunFilled(old(a[..n]), a[..n], k, length)
    ensures forall m :: n <= m < a.Length ==> a[m] == old(a[m])
  {
    var b, i, tofill := k - length, 0, length;
    while tofill > 1
      invariant i + tofill == length
      invariant forall m :: 0 <= m < a.Length ==>
        a[m] == if b <= m < b + i && m < k - 1 then old(a[m]).(incr := k - m) else old(a[m])
      decreases tofill
    {
      a[b + i] := a[b + i].(incr := tofill);
      i, tofill := i + 1, tofill - 1;
    }
  }

  method FillStep(a: array<Item>, n: nat, k: nat, tofill: nat, ghost its: seq<Item>) returns (next: nat)
    requires 1 <= k < n <= a.Length && |its| == n
    requires JumpsUpTo(its, a[..n], k) && OpenRun(its, k, tofill)
    requires forall i :: 0 <= i < n ==> its[i].noglobLen == NoglobLen(NameOf(its[i]))
    modifies a
    ensures JumpsUpTo(its, a[..n], k + 1) && OpenRun(its, k + 1, next)
    ensures forall m :: 0 <= m < n ==> a[m].e == old(a[m].e)
    ensures forall m :: n <= m < a.Length ==> a[m] == old(a[m])
  {
    ghost var before := a[..n];
    assert JumpAt(its, before, k, k - 1) && JumpAt(its, before, k, k);
    if a[k - 1].noglobLen != a[k].noglobLen {
      FillRun(a, n, k, tofill);
      FilledRunIsDone(its, before, a[..n], k, tofill);
      RunEnds(its, k, tofill);
      next := 1;
    } else if NameOf(a[k - 1]) == NameOf(a[k]) {
      RunGoesOn(its, before, k, tofill);
      next := tofill + 1;
    } else {
      FilledRunIsDone(its, before, before, k, tofill);
      RunEnds(its, k, tofill);
      next := 1;
    }
  }

  lemma NothingWritten(its: seq<Item>)
    requires forall k :: 0 <= k < |its| ==> its[k].incr == 1
    ensures JumpsUpTo(its, its, 1) && OpenRun(its, 1, 0)
  {
  }

  lemma AllJumpsWritten(its: seq<Item>, s: seq<Item>, k: nat)
    requires JumpsUpTo(its, s, k) && k >= |its|
    ensures s == WithJumps(its)
  {
    forall i: nat | i < |its| ensures s[i] == WithJumps(its)[i] {
      assert JumpAt(its, s, k, i);
    }
  }

  /** The last slot the jump loop reads: the empty one after n named ones, but slot 1 at least. */
  function LastRead(n: nat): nat { if n < 1 then 1 else n }

  /** The loop stays within the array of `|list| + 1` slots exactly when the list has an entry; the
      empty list makes it read slot 1 of an array of one. */
  lemma JumpLoopStaysInsideIff(list: seq<Entry>)
    ensures LastRead(|ItemsOf(list)|) < |list| + 1 <==> list != []
  {
    ItemsAreNamed(list);
  }

  /** Writes the jump of every slot; the first n slots are named and start with a jump of 1. The
      result is the last slot read. */
  method FillJumps(a: array<Item>, n: nat) returns (last: nat)
    requires LastRead(n) < a.Length
    requires forall k :: 0 <= k < n ==> a[k].e.Some? && a[k].incr == 1
    requires forall k :: 0 <= k < n ==> a[k].noglobLen == NoglobLen(NameOf(a[k]))
    requires forall k :: n <= k < a.Length ==> a[k] == ZERO_ITEM
    modifies a
    ensures a[..n] == WithJumps(old(a[..n]))
    ensures forall k :: n <= k < a.Length ==> a[k] == ZERO_ITEM
    ensures last == LastRead(n)
  {
    ghost var its := a[..n];
    NothingWritten(its);
    var k, tofill := 1, 0;
    while a[k].e.Some?
      invariant 1 <= k < a.Length && (k <= n || (n == 0 && k == 1))
      invariant forall m :: n <= m < a.Length ==> a[m] == ZERO_ITEM
      invariant forall m :: 0 <= m < n ==> a[m].e.Some?
      invariant JumpsUpTo(its, a[..n], k) && OpenRun(its, k, tofill)
      decreases a.Length - k
    {
      tofill := FillStep(a, n, k, tofill, its);
      k := k + 1;
    }
    AllJumpsWritten(its, a[..n], k);
    last := k;
  }

  /** audit_entry_first_byte_idx. */
  method FillTable(a: array<Item>, n: nat, table: array<nat>)
    requires n < a.Length && table.Length == 256
    requires forall k :: 0 <= k < n ==> a[k].e.Some?
    requires a[n] == ZERO_ITEM
    modifies table
    ensures IsTable(a[..n], table[..])
  {
    forall c | 0 <= c < 256 {
      table[c] := 0;
    }
    var i := 0;
    for c := 1 to 256
      invariant i <= n && table[0] == 0
      invariant forall k :: 0 <= k < i ==> FirstByte(a[k]) < c
      invariant forall b :: 1 <= b < c ==> IsStart(a[..n], b, table[b])
    {
      while a[i].e.Some? && FirstByte(a[i]) < c
        invariant i <= n
        invariant forall k :: 0 <= k < i ==> FirstByte(a[k]) < c
        decreases n - i
      {
        i := i + 1;
      }
      table[c] := i;
    }
  }

  lemma SortedSlots(list: seq<Entry>, s: seq<Item>)
    requires SortOf(ItemLE, ItemsOf(list), s)
    ensures Sorted(s) && |s| <= |list| && forall k :: 0 <= k < |s| ==> s[k].incr == 1
  {
    SameElements(ItemsOf(list), s);
    ItemsAreNamed(list);
    assert forall k :: 0 <= k < |s| ==> s[k] in s;
  }

  method Build(list: seq<Entry>) returns (a: array<Item>, n: nat, ghost s: seq<Item>)
    requires list != []
    ensures fresh(a) && n < a.Length && |s| == n
    ensures SortOf(ItemLE, ItemsOf(list), s) && Sorted(s)
    ensures a[..n] == WithJumps(s)
    ensures forall k :: n <= k < a.Length ==> a[k] == ZERO_ITEM
  {
    a, n := Collect(list);
    QSort(a, n);
    s := a[..n];
    SortedSlots(list, s);
    assert forall k :: 0 <= k < n ==> a[k] == s[k];
    JumpLoopStaysInsideIff(list);
    var _ := FillJumps(a, n);
  }

  // ---------- searching ----------

  lemma BetweenParts(its: seq<Item>, a: nat, b: nat, c: nat, q: Query)
    requires a <= b <= c <= |its|
    ensures Between(its, a, c, q) == Between(its, a, b, q) + Between(its, b, c, q)
  {
    ScanParts(its[a..b], its[b..c], q);
    assert its[a..b] + its[b..c] == its[a..c];
  }

  lemma BetweenOne(its: seq<Item>, b: nat, q: Query)
    requires b < |its|
    ensures Between(its, b, b + 1, q) == if Hits(its[b], q) then [its[b].e.value] else []
  {
    var one := its[b..b + 1];
    assert one[..|one| - 1] == [] && one[|one| - 1] == its[b];
    assert FoundBy(q)(its[b]) == if Hits(its[b], q) then its[b].e else None;
    assert Picked(FoundBy(q), one[..|one| - 1]) == [];
  }

  /** Progress: the finds so far, with what the slots from b up to c still hold, are `all`. */
  ghost predicate SoFar(found: seq<Entry>, its: seq<Item>, b: nat, c: nat, q: Query, all: seq<Entry>)
    requires b <= c <= |its|
  {
    found + Between(its, b, c, q) == all
  }

  lemma SoFarMoves(found: seq<Entry>, its: seq<Item>, a: nat, b: nat, c: nat, q: Query, all: seq<Entry>)
    requires a <= b <= c <= |its| && SoFar(found, its, a, c, q, all)
    ensures SoFar(found + Between(its, a, b, q), its, b, c, q, all)
    ensures found == [] && Between(its, a, b, q) != [] ==> FirstOf(all) == FirstOf(Between(its, a, b, q))
  {
    BetweenParts(its, a, b, c, q);
    assert found + (Between(its, a, b, q) + Between(its, b, c, q))
        == (found + Between(its, a, b, q)) + Between(its, b, c, q);
  }

  /** What a search reports of the slots from b up to c: all finds, or the first in quiet mode. */
  ghost function Reported(its: seq<Item>, b: nat, c: nat, q: Query, quiet: bool): seq<Entry>
    requires b <= c <= |its|
  {
    if quiet then FirstOf(Between(its, b, c, q)) else Between(its, b, c, q)
  }

  lemma SoFarOne(found: seq<Entry>, its: seq<Item>, b: nat, c: nat, q: Query, all: seq<Entry>)
    requires b < c <= |its| && SoFar(found, its, b, c, q, all)
    ensures Hits(its[b], q) ==> SoFar(found + [its[b].e.value], its, b + 1, c, q, all)
    ensures !Hits(its[b], q) ==> SoFar(found, its, b + 1, c, q, all)
    ensures Hits(its[b], q) && found == [] ==> FirstOf(all) == [its[b].e.value]
  {
    SoFarMoves(found, its, b, b + 1, c, q, all);
    BetweenOne(its, b, q);
    assert found + [] == found;
  }

  lemma SoFarEnds(found: seq<Entry>, its: seq<Item>, b: nat, c: nat, q: Query, all: seq<Entry>)
    requires b <= c <= |its| && SoFar(found, its, b, c, q, all) && b == c
    ensures found == all
  {
    assert its[b..c] == [];
    assert found + [] == found;
  }

  predicate SlotIs(its: seq<Item>, s: seq<Item>, k: nat)
    requires k < |its| <= |s|
  {
    s[k] == its[k].(incr := Jump(its, k))
  }

  /** The array s holds the sorted slots with their jumps, and a zero slot after them. */
  ghost predicate Holds(its: seq<Item>, s: seq<Item>) {
    && |its| < |s|
    && (forall k: nat :: k < |its| ==> SlotIs(its, s, k))
    && s[|its|] == ZERO_ITEM
  }

  /** Only the slot after the last one is empty. */
  lemma UsedSlots(its: seq<Item>, s: seq<Item>)
    requires Holds(its, s) && Named(its)
    ensures forall k :: 0 <= k <= |its| ==> (s[k].e.Some? <==> k < |its|)
  {
    forall k: nat | k < |its| ensures s[k].e.Some? {
      assert SlotIs(its, s, k);
    }
  }

  lemma SlotAt(its: seq<Item>, s: seq<Item>, a: nat, q: Query)
    requires Holds(its, s) && Named(its) && a < |its|
    ensures s[a].e == its[a].e && s[a].e.Some? && s[a].noglobLen == its[a].noglobLen
    ensures NameOf(s[a]) == NameOf(its[a]) && s[a].incr == Jump(its, a)
    ensures 0 < Jump(its, a) && a + Jump(its, a) <= |its|
    ensures Hits(s[a], q) <==> Hits(its[a], q)
  {
    assert SlotIs(its, s, a);
  }

  /** pkg_audit_version_match */
  method VersionMatch(version: CString, v: Bound) returns (res: bool)
    ensures res <==> Within(version, v)
  {
    if v.version.None? {
      return true;
    }
    VersionOrder(version, v.version.value, version);
    var cmp := VersionCmp(version, v.version.value);
    res := false;
    if cmp == -1 {
      res := v.op == LT || v.op == LTE;
    } else if cmp == 0 {
      res := v.op == EQ || v.op == LTE || v.op == GTE;
    } else {
      res := v.op == GT || v.op == GTE;
    }
  }

  /** Does one slot match? With a version, some range must hold on both of its ends. */
  method Matches(x: Item, q: Query) returns (hit: bool)
    requires x.e.Some?
    ensures hit <==> Hits(x, q)
  {
    if !q.fnmatch(NameOf(x), q.name) {
      return false;
    }
    if q.version.None? {
      return true;
    }
    var version, ranges := q.version.value, x.e.value.ranges;
    for i := 0 to |ranges|
      invariant forall k :: 0 <= k < i ==> !(Within(version, ranges[k].v1) && Within(version, ranges[k].v2))
    {
      var res1 := VersionMatch(version, ranges[i].v1);
      var res2 := VersionMatch(version, ranges[i].v2);
      if res1 && res2 {
        return true;
      }
    }
    hit := false;
  }

  /** One entry of the inner loop. */
  method MatchSlot(items: array<Item>, b: nat, q: Query, ghost its: seq<Item>) returns (hit: bool, e: Option<Entry>)
    requires Holds(its, items[..]) && Named(its) && b < |its|
    ensures hit <==> Hits(its[b], q)
    ensures e == its[b].e && e.Some?
  {
    SlotAt(its, items[..], b, q);
    e := items[b].e;
    hit := Matches(items[b], q);
  }

  /** The inner loop: every entry of one run of equal names. */
  method SearchRun(items: array<Item>, a: nat, incr: nat, q: Query, quiet: bool, ghost its: seq<Item>)
    returns (found: seq<Entry>)
    requires Holds(its, items[..]) && Named(its) && a + incr <= |its|
    ensures found == Reported(its, a, a + incr, q, quiet)
  {
    found := [];
    var i := 0;
    ghost var all, b, end := Between(its, a, a + incr, q), a, a + incr;
    assert SoFar([], its, a, end, q, all);
    while i < incr
      invariant i <= incr && b == a + i && SoFar(found, its, b, end, q, all)
      invariant quiet ==> found == []
    {
      SoFarOne(found, its, b, end, q, all);
      var hit, e := MatchSlot(items, a + i, q, its);
      i, b := i + 1, b + 1;
      if hit {
        found := found + [e.value];
        if quiet {
          return;
        }
      }
    }
    SoFarEnds(found, its, b, end, q, all);
  }

  /** What comparing the name with the prefix of slot a settles. */
  ghost predicate Settled(its: seq<Item>, s: seq<Item>, a: nat, q: Query) {
    && a < |its| && a < |s|
    && 0 < s[a].incr && a + s[a].incr <= |its|
    && var cmp := StrNCmp(q.name, NameOf(s[a]), s[a].noglobLen);
       && (cmp > 0 ==> Between(its, a, a + s[a].incr, q) == [])
       && (cmp < 0 ==> Between(its, a, |its|, q) == [])
  }

  lemma PrefixSettles(its: seq<Item>, s: seq<Item>, a: nat, q: Query)
    requires Holds(its, s) && Sorted(its) && a < |its| && Respects(q.fnmatch)
    ensures Settled(its, s, a, q)
  {
    SlotAt(its, s, a, q);
    var cmp := StrNCmp(q.name, NameOf(s[a]), s[a].noglobLen);
    if cmp > 0 {
      RunCannotHit(its, a, q);
    } else if cmp < 0 {
      RestCannotHit(its, a, q);
    }
  }

  /** One turn of the outer loop: look at the prefix of slot a, search its run or jump over it;
      `stop` when nothing later can match. */
  method SearchStep(items: array<Item>, a: nat, q: Query, quiet: bool, ghost its: seq<Item>)
    returns (found: seq<Entry>, next: nat, stop: bool)
    requires Holds(its, items[..]) && Named(its) && Settled(its, items[..], a, q)
    ensures a < next <= |its|
    ensures stop ==> Between(its, a, |its|, q) == []
    ensures !stop ==> found == Reported(its, a, next, q, quiet)
  {
    var x := items[a];
    found, next, stop := [], a + x.incr, false;
    var cmp := StrNCmp(q.name, NameOf(x), x.noglobLen);
    if cmp < 0 {
      stop := true;
    } else if cmp == 0 {
      found := SearchRun(items, a, x.incr, q, quiet, its);
    }
  }

  /** The outer loop, from slot `start`. */
  method Search(items: array<Item>, start: nat, q: Query, quiet: bool, ghost its: seq<Item>)
    returns (report: seq<Entry>)
    requires Holds(its, items[..]) && Sorted(its) && start <= |its| && Respects(q.fnmatch)
    ensures report == Reported(its, start, |its|, q, quiet)
  {
    report := [];
    var a := start;
    ghost var all, end := Between(its, start, |its|, q), |its|;
    assert SoFar([], its, start, end, q, all);
    UsedSlots(its, items[..]);
    while items[a].e.Some?
      invariant start <= a <= end && SoFar(report, its, a, end, q, all)
      invariant quiet ==> report == []
      decreases end - a
    {
      PrefixSettles(its, items[..], a, q);
      var found, next, stop := SearchStep(items, a, q, quiet, its);
      if stop {
        SoFarMoves(report, its, a, end, end, q, all);
        SoFarEnds(report + [], its, end, end, q, all);
        assert report + [] == report;
        return;
      }
      SoFarMoves(report, its, a, next, end, q, all);
      report := report + found;
      if report != [] && quiet {
        return;
      }
      a := next;
    }
    SoFarEnds(report, its, a, end, q, all);
  }

  // ---------- the index ----------

  class Index {
    var parsed: bool
    var items: array<Item>
    const firstByte: array<nat>

    /** The parsed list, and its named entries as qsort left them. */
    ghost var entries: seq<Entry>
    ghost var sorted: seq<Item>

    ghost predicate Ready()
      reads this, items, firstByte
    {
      && |sorted| < items.Length
      && SortOf(ItemLE, ItemsOf(entries), sorted) && Sorted(sorted)
      && items[..|sorted|] == WithJumps(sorted)
      && (forall k :: |sorted| <= k < items.Length ==> items[k] == ZERO_ITEM)
      && IsTable(sorted, firstByte[..])
    }

    constructor ()
      ensures !parsed && fresh(items) && fresh(firstByte) && firstByte.Length == 256
    {
      parsed := false;
      items := new Item[1](_ => ZERO_ITEM);
      firstByte := new nat[256](_ => 0);
      entries, sorted := [], [];
    }

    /** pkg_audit_preprocess and pkg_audit_process. The list is not empty: that is exactly when the
        jump loop stays within its array. */
    method Preprocess(list: seq<Entry>)
      requires list != [] && firstByte.Length == 256
      modifies this, firstByte
      ensures parsed && Ready() && entries == list && fresh(items)
    {
      ghost var s: seq<Item>;
      var a, n;
      a, n, s := Build(list);
      FillTable(a, n, firstByte);
      SameTable(a[..n], s, firstByte[..]);
      items, entries, sorted, parsed := a, list, s, true;
    }

    /** pkg_audit_is_vulnerable: the verdict, and the entries that are printed. */
    method IsVulnerable(q: Query, quiet: bool) returns (vulnerable: bool, report: seq<Entry>)
      requires parsed ==> Ready()
      requires Respects(q.fnmatch) && Ascii(q.name)
      ensures !parsed ==> !vulnerable && report == []
      ensures parsed ==>
        && var found := Between(sorted, From(sorted, firstByte[..], q.name), |sorted|, q);
        && (vulnerable <==> found != [])
        && report == Reported(sorted, From(sorted, firstByte[..], q.name), |sorted|, q, quiet)
      ensures parsed && PlainStart(entries) ==> Agrees(entries, sorted, q, quiet, vulnerable, report)
    {
      if !parsed {
        return false, [];
      }
      SlotsAreSorted(sorted, items[..|sorted|]);
      assert forall k :: 0 <= k < |sorted| ==> items[k] == items[..|sorted|][k];
      var start := firstByte[At(q.name, 0) as nat];
      assert start == From(sorted, firstByte[..], q.name);
      report := Search(items, start, q, quiet, sorted);
      vulnerable := report != [];
      if PlainStart(entries) {
        AnswerAgrees(entries, sorted, firstByte[..], q, quiet, report);
      }
    }
  }

  lemma SlotsAreSorted(its: seq<Item>, s: seq<Item>)
    requires s == WithJumps(its)
    ensures forall k :: 0 <= k < |its| ==> s[k].e == its[k].e && s[k].noglobLen == its[k].noglobLen
    ensures forall k :: 0 <= k < |its| ==> s[k].incr == Jump(its, k)
  {
  }

  lemma SameTable(s: seq<Item>, its: seq<Item>, table: seq<nat>)
    requires s == WithJumps(its) && IsTable(s, table)
    ensures IsTable(its, table)
  {
    assert forall k :: 0 <= k < |its| ==> FirstByte(its[k]) == FirstByte(s[k]);
    forall c | 1 <= c < 256 ensures IsStart(its, c, table[c]) {
      assert IsStart(s, c, table[c]);
    }
  }
}
