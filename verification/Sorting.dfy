/** What the library sorts (qsort, DL_SORT) promise: a sorted permutation. */
module Sorting {

  ghost predicate TotalPreorder<T(!new)>(le: (T, T) -> bool) {
    && (forall x, y :: le(x, y) || le(y, x))
    && (forall x, y, z :: le(x, y) && le(y, z) ==> le(x, z))
  }

  ghost predicate SortedBy<T>(le: (T, T) -> bool, s: seq<T>) {
    forall i, k :: 0 <= i < k < |s| ==> le(s[i], s[k])
  }

  ghost predicate SortOf<T>(le: (T, T) -> bool, s: seq<T>, r: seq<T>) {
    SortedBy(le, r) && multiset(r) == multiset(s)
  }

  /** Sorts by insertion; callers rely on the contract only. */
  method Sort<T(!new)>(le: (T, T) -> bool, s: seq<T>) returns (r: seq<T>)
    requires TotalPreorder(le)
    ensures SortOf(le, s, r)
  {
    r := [];
    var i := 0;
    while i < |s|
      invariant 0 <= i <= |s|
      invariant SortedBy(le, r) && multiset(r) == multiset(s[..i])
    {
      var k := |r|;
      while k > 0 && !le(r[k - 1], s[i])
        invariant 0 <= k <= |r|
        invariant forall m :: k <= m < |r| ==> le(s[i], r[m])
      {
        k := k - 1;
      }
      InsertKeepsOrder(le, r, k, s[i]);
      assert s[..i + 1] == s[..i] + [s[i]];
      assert r == r[..k] + r[k..];
      r := r[..k] + [s[i]] + r[k..];
      i := i + 1;
    }
    assert s[..i] == s;
  }

  lemma InsertKeepsOrder<T(!new)>(le: (T, T) -> bool, r: seq<T>, k: nat, x: T)
    requires TotalPreorder(le) && SortedBy(le, r) && k <= |r|
    requires k > 0 ==> le(r[k - 1], x)
    requires forall m :: k <= m < |r| ==> le(x, r[m])
    ensures SortedBy(le, r[..k] + [x] + r[k..])
  {
    forall m | 0 <= m < k ensures le(r[m], x) {
      if m < k - 1 { assert le(r[m], r[k - 1]); }
    }
  }

  lemma SameElements<T>(s: seq<T>, r: seq<T>)
    requires multiset(r) == multiset(s)
    ensures |r| == |s| && forall x :: x in r <==> x in s
  {
    assert |multiset(r)| == |r| && |multiset(s)| == |s|;
    assert forall x :: x in r <==> x in multiset(r);
    assert forall x :: x in s <==> x in multiset(s);
  }

  lemma RemoveAt<T>(s: seq<T>, i: nat)
    requires i < |s|
    ensures multiset(s[..i] + s[i + 1..]) == multiset(s) - multiset{s[i]}
  {
    assert s == s[..i] + ([s[i]] + s[i + 1..]);
  }

  ghost predicate Antisymmetric<T(!new)>(le: (T, T) -> bool) {
    forall x, y :: le(x, y) && le(y, x) ==> x == y
  }

  lemma SameLeast<T(!new)>(le: (T, T) -> bool, r: seq<T>, s: seq<T>)
    requires TotalPreorder(le) && Antisymmetric(le)
    requires SortedBy(le, r) && SortedBy(le, s) && r != []
    requires |r| == |s| && forall x :: x in r <==> x in s
    ensures r[0] == s[0]
  {
    assert r[0] in s && s[0] in r;
    var i :| 0 <= i < |s| && s[i] == r[0];
    var k :| 0 <= k < |r| && r[k] == s[0];
    assert le(r[0], r[0]);
    assert le(r[0], r[k]) && le(s[0], s[i]);
  }

  lemma Behead<T>(s: seq<T>)
    requires s != []
    ensures multiset(s[1..]) == multiset(s) - multiset{s[0]} && s == [s[0]] + s[1..]
  {
    assert s == [s[0]] + s[1..];
  }

  /** When only equal elements tie, a list has one sorted form. */
  lemma {:induction false} SortedFormIsUnique<T(!new)>(le: (T, T) -> bool, r: seq<T>, s: seq<T>)
    requires TotalPreorder(le) && Antisymmetric(le)
    requires SortedBy(le, r) && SortedBy(le, s) && multiset(r) == multiset(s)
    ensures r == s
  {
    SameElements(r, s);
    if r != [] {
      SameLeast(le, r, s);
      Behead(r);
      Behead(s);
      SortedFormIsUnique(le, r[1..], s[1..]);
    }
  }
}
