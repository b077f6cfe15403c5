/** Handing the packages of a repository to its workers (pkg_create_repo in
    libpkg/pkg_repo_create.c). */
module WorkSplit {

  function Joined<T>(parts: seq<seq<T>>): seq<T> {
    if parts == [] then [] else Joined(parts[..|parts| - 1]) + parts[|parts| - 1]
  }

  /** Index of the first package of worker k: the first `extra` workers get one more than `each`. */
  function Start(k: nat, each: nat, extra: nat): nat {
    if k == 0 then 0 else Start(k - 1, each, extra) + Share(k - 1, each, extra)
  }

  function Share(k: nat, each: nat, extra: nat): nat {
    if k < extra then each + 1 else each
  }

  lemma {:induction false} StartIs(k: nat, each: nat, extra: nat)
    ensures Start(k, each, extra) == k * each + (if k < extra then k else extra)
  {
    if k > 0 {
      StartIs(k - 1, each, extra);
    }
  }

  lemma {:induction false} StartGrows(j: nat, k: nat, each: nat, extra: nat)
    requires j < k && each > 0
    ensures Start(j, each, extra) < Start(k, each, extra)
  {
    if j < k - 1 {
      StartGrows(j, k - 1, each, extra);
    }
  }

  lemma AllShares(len: nat, numWorkers: nat)
    requires 0 < numWorkers <= len
    ensures len / numWorkers > 0 && Start(numWorkers, len / numWorkers, len % numWorkers) == len
  {
    StartIs(numWorkers, len / numWorkers, len % numWorkers);
  }

  /** The list walk that starts a worker whenever its share is complete: every package goes to
      exactly one of exactly min(workers, packages) workers, in order, and the shares differ by
      at most one. */
  method Split<T>(items: seq<T>, workers: nat) returns (parts: seq<seq<T>>)
    requires items != [] && workers > 0
    ensures |parts| == if workers < |items| then workers else |items|
    ensures Joined(parts) == items
    ensures forall k :: 0 <= k < |parts| ==> |parts[k]| == Share(k, |items| / |parts|, |items| % |parts|)
    ensures forall k :: 0 <= k < |parts| ==> parts[k] != []
  {
    var len := |items|;
    var numWorkers := if workers < len then workers else len;
    var each := len / numWorkers;
    var remain: int := len % numWorkers;
    ghost var extra := len % numWorkers;
    AllShares(len, numWorkers);
    var curJobs := if remain > 0 then each + 1 else each;
    var remainJobs := curJobs;
    var start := 0;
    parts := [];
    for cur := 0 to len
      invariant remain == extra - |parts|
      invariant curJobs == Share(|parts|, each, extra)
      invariant start == Start(|parts|, each, extra) <= cur < start + curJobs
      invariant remainJobs == start + curJobs - cur
      invariant |parts| <= numWorkers && (|parts| == numWorkers ==> cur == len)
      invariant Joined(parts) == items[..start]
      invariant forall k :: 0 <= k < |parts| ==> |parts[k]| == Share(k, each, extra)
    {
      remainJobs := remainJobs - 1;
      if remainJobs == 0 {
        NextStart(|parts|, numWorkers, each, extra, len);
        AddPart(items, parts, start, start + curJobs);
        parts := parts + [items[start..start + curJobs]];
        remain := remain - 1;
        curJobs := if remain > 0 then each + 1 else each;
        remainJobs := curJobs;
        start := cur + 1;
      }
    }
    if |parts| < numWorkers {
      NextStart(|parts|, numWorkers, each, extra, len);
    }
    assert items[..start] == items;
  }

  lemma AddPart<T>(items: seq<T>, parts: seq<seq<T>>, start: nat, stop: nat)
    requires start <= stop <= |items| && Joined(parts) == items[..start]
    ensures Joined(parts + [items[start..stop]]) == items[..stop]
  {
    assert (parts + [items[start..stop]])[..|parts|] == parts;
  }

  lemma NextStart(k: nat, numWorkers: nat, each: nat, extra: nat, len: nat)
    requires k < numWorkers && each > 0 && Start(numWorkers, each, extra) == len
    ensures Start(k + 1, each, extra) <= len
    ensures Start(k + 1, each, extra) == len <==> k + 1 == numWorkers
  {
    if k + 1 < numWorkers {
      StartGrows(k + 1, numWorkers, each, extra);
    }
  }
}
