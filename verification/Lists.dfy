/** Optional values, lists without repetition, and picking values out of a list. */
module Lists {
  import opened Sorting

  datatype Option<+T> = None | Some(value: T)

  predicate Distinct<T(==)>(s: seq<T>) {
    forall i, j :: 0 <= i < j < |s| ==> s[i] != s[j]
  }

  /** What f yields along s, in order. */
  ghost function Picked<T, U>(f: T -> Option<U>, s: seq<T>): seq<U> {
    if s == [] then []
    else
      var r := f(s[|s| - 1]);
      Picked(f, s[..|s| - 1]) + (if r.Some? then [r.value] else [])
  }

  lemma {:induction false} PickedParts<T, U>(f: T -> Option<U>, s: seq<T>, t: seq<T>)
    ensures Picked(f, s + t) == Picked(f, s) + Picked(f, t)
  {
    if t == [] {
      assert s + t == s;
    } else {
      assert (s + t)[..|s + t| - 1] == s + t[..|t| - 1];
      PickedParts(f, s, t[..|t| - 1]);
    }
  }

  lemma {:induction false} PickedNone<T, U>(f: T -> Option<U>, s: seq<T>)
    ensures Picked(f, s) == [] <==> forall k :: 0 <= k < |s| ==> f(s[k]).None?
  {
    if s != [] {
      PickedNone(f, s[..|s| - 1]);
    }
  }

  lemma TakeOut<T>(s: seq<T>, t: seq<T>) returns (i: nat)
    requires multiset(s) == multiset(t) && s != []
    ensures i < |t| && t[i] == s[|s| - 1]
    ensures multiset(s[..|s| - 1]) == multiset(t[..i] + t[i + 1..])
  {
    var last := |s| - 1;
    SameElements(s, t);
    assert s[last] in t;
    i :| 0 <= i < |t| && t[i] == s[last];
    RemoveAt(s, last);
    assert s[..last] + s[last + 1..] == s[..last];
    RemoveAt(t, i);
  }

  lemma CountsAdd<T>(a: seq<T>, b: seq<T>, c: seq<T>)
    ensures multiset(a + (b + c)) == multiset(a + c) + multiset(b)
  {
  }

  lemma PickedAround<T, U>(f: T -> Option<U>, a: seq<T>, x: T, b: seq<T>)
    ensures Picked(f, a + ([x] + b)) == Picked(f, a) + (Picked(f, [x]) + Picked(f, b))
  {
    PickedParts(f, a, [x] + b);
    PickedParts(f, [x], b);
  }

  lemma SplitAt<T>(t: seq<T>, i: nat)
    requires i < |t|
    ensures t == t[..i] + ([t[i]] + t[i + 1..])
  {
  }

  lemma PickedInsert<T, U>(f: T -> Option<U>, t: seq<T>, i: nat)
    requires i < |t|
    ensures multiset(Picked(f, t)) == multiset(Picked(f, t[..i] + t[i + 1..])) + multiset(Picked(f, [t[i]]))
  {
    var a, x, b := t[..i], t[i], t[i + 1..];
    SplitAt(t, i);
    PickedAround(f, a, x, b);
    PickedParts(f, a, b);
    CountsAdd(Picked(f, a), Picked(f, [x]), Picked(f, b));
  }

  lemma {:induction false} PickedFromPermutation<T, U>(f: T -> Option<U>, s: seq<T>, t: seq<T>)
    requires multiset(s) == multiset(t)
    ensures multiset(Picked(f, s)) == multiset(Picked(f, t))
  {
    SameElements(s, t);
    if s != [] {
      var last := |s| - 1;
      var i := TakeOut(s, t);
      PickedFromPermutation(f, s[..last], t[..i] + t[i + 1..]);
      PickedInsert(f, t, i);
      PickedInsert(f, s, last);
      assert s[..last] + s[last + 1..] == s[..last];
    }
  }
}
