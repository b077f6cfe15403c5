/** Picking the newest of a list, as the selection loops over packages do. */
module Newest {
  import opened CStrings
  import opened Version

  /** What the loops need of a comparison: nothing is older than something older than it, and not
      being newer than an older thing makes older. */
  ghost predicate WeakOrder<T(!new)>(older: (T, T) -> bool) {
    && (forall x, y :: older(x, y) ==> !older(y, x))
    && (forall x, y, z :: !older(y, x) && older(y, z) ==> older(x, z))
  }

  /** x has an older version than y. */
  ghost function OlderBy<T>(version: T -> CString): (T, T) -> bool {
    (x: T, y: T) => VersionLess(version(x), version(y))
  }

  lemma OlderByMeans<T>(version: T -> CString, x: T, y: T)
    ensures OlderBy(version)(x, y) <==> VersionLess(version(x), version(y))
  {
  }

  lemma OlderByIsWeakOrder<T(!new)>(version: T -> CString)
    ensures WeakOrder(OlderBy(version))
  {
    var older := OlderBy(version);
    forall x: T, y: T | older(x, y) ensures !older(y, x) {
      VersionOrder(version(x), version(y), version(x));
    }
    forall x: T, y: T, z: T | !older(y, x) && older(y, z) ensures older(x, z) {
      LessAfterNotLess(version(x), version(y), version(z));
    }
  }

  /** Among the first n, position i holds the first of the newest eligible ones. */
  ghost predicate NewestOf<T>(eligible: T -> bool, older: (T, T) -> bool, s: seq<T>, n: nat, i: nat) {
    && i < n <= |s| && eligible(s[i])
    && (forall k :: 0 <= k < i && eligible(s[k]) ==> older(s[k], s[i]))
    && (forall k :: i < k < n && eligible(s[k]) ==> !older(s[i], s[k]))
  }

  /** The same while a loop runs; -1 as long as nothing was eligible. */
  ghost predicate SelectedSoFar<T>(eligible: T -> bool, older: (T, T) -> bool, s: seq<T>, n: nat, i: int)
    requires n <= |s| && -1 <= i
  {
    if i == -1 then forall k :: 0 <= k < n ==> !eligible(s[k]) else NewestOf(eligible, older, s, n, i)
  }

  lemma NewestSkips<T>(eligible: T -> bool, older: (T, T) -> bool, s: seq<T>, n: nat, i: int)
    requires n < |s| && -1 <= i < n && SelectedSoFar(eligible, older, s, n, i)
    requires eligible(s[n]) ==> i >= 0 && !older(s[i], s[n])
    ensures SelectedSoFar(eligible, older, s, n + 1, i)
  {
  }

  /** Moving to a newer one keeps it newer than all before it; this needs transitivity. */
  lemma NewestMoves<T(!new)>(eligible: T -> bool, older: (T, T) -> bool, s: seq<T>, n: nat, i: nat)
    requires WeakOrder(older)
    requires n < |s| && NewestOf(eligible, older, s, n, i) && eligible(s[n]) && older(s[i], s[n])
    ensures NewestOf(eligible, older, s, n + 1, n)
  {
    forall k | 0 <= k < n && eligible(s[k]) ensures older(s[k], s[n]) {
      assert k == i || !older(s[i], s[k]);
    }
  }
}
