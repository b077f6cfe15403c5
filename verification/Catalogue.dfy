/** Workers of pkg_create_repo (libpkg/pkg_repo_create.c) appending manifests to one file. Taking
    the lock, seeking to the end, writing, unlocking and reporting are separate steps, and the
    steps of different workers interleave freely. */
module Catalogue {
  import opened Lists
  import opened WorkSplit

  type Package = nat

  type Text = seq<char>

  /** Where a worker is with the first package of its list. */
  datatype Phase = Ready | Locked | Sought(mpos: nat) | Appended(mpos: nat) | Released(mpos: nat)

  datatype Worker = Worker(todo: seq<Package>, phase: Phase)

  /** What a worker reports for one package: position and length of its manifest. */
  datatype Record = Record(pkg: Package, mpos: nat, mlen: nat)

  /** `holder` has the file lock; `order` is the history of the writes. */
  datatype Sys = Sys(file: Text, holder: set<nat>, workers: seq<Worker>, records: seq<Record>, order: seq<Package>)

  datatype Event = Lock(w: nat) | Seek(w: nat) | Write(w: nat) | Unlock(w: nat) | Report(w: nat) | Skip(w: nat)

  type Manifests = Package -> Text

  predicate Enabled(s: Sys, e: Event) {
    && e.w < |s.workers| && s.workers[e.w].todo != []
    && var phase := s.workers[e.w].phase;
       match e
       case Lock(_) => phase == Ready && s.holder == {}
       case Seek(_) => phase == Locked
       case Write(_) => phase.Sought?
       case Unlock(_) => phase.Appended?
       case Report(_) => phase.Released?
       case Skip(_) => phase == Ready
  }

  function At(s: Sys, w: nat, phase: Phase): seq<Worker>
    requires w < |s.workers|
  {
    s.workers[w := s.workers[w].(phase := phase)]
  }

  function NextPackage(s: Sys, w: nat): seq<Worker>
    requires w < |s.workers| && s.workers[w].todo != []
  {
    s.workers[w := Worker(s.workers[w].todo[1..], Ready)]
  }

  /** One step. The descriptor is in append mode, so a write goes to the end of the file whatever
      was sought; a package that cannot be opened is skipped. */
  function Step(m: Manifests, s: Sys, e: Event): Sys
    requires Enabled(s, e)
  {
    var w := e.w;
    var pkg, phase := s.workers[w].todo[0], s.workers[w].phase;
    match e
    case Lock(_) => s.(holder := {w}, workers := At(s, w, Locked))
    case Seek(_) => s.(workers := At(s, w, Sought(|s.file|)))
    case Write(_) =>
      s.(file := s.file + m(pkg) + "\n", order := s.order + [pkg], workers := At(s, w, Appended(phase.mpos)))
    case Unlock(_) => s.(holder := s.holder - {w}, workers := At(s, w, Released(phase.mpos)))
    case Report(_) => s.(records := s.records + [Record(pkg, phase.mpos, |m(pkg)|)], workers := NextPackage(s, w))
    case Skip(_) => s.(workers := NextPackage(s, w))
  }

  predicate Run(m: Manifests, s: Sys, es: seq<Event>)
    decreases es
  {
    es == [] || (Enabled(s, es[0]) && Run(m, Step(m, s, es[0]), es[1..]))
  }

  function Final(m: Manifests, s: Sys, es: seq<Event>): Sys
    requires Run(m, s, es)
    decreases es
  {
    if es == [] then s else Final(m, Step(m, s, es[0]), es[1..])
  }

  // ---------- the file as a row of manifests ----------

  function Content(m: Manifests, order: seq<Package>): Text {
    if order == [] then ""
    else Content(m, order[..|order| - 1]) + m(order[|order| - 1]) + "\n"
  }

  /** Where manifest number k starts. */
  function Offset(m: Manifests, order: seq<Package>, k: nat): nat
    requires k <= |order|
  {
    |Content(m, order[..k])|
  }

  lemma {:induction false} ContentAt(m: Manifests, order: seq<Package>, k: nat)
    requires k < |order|
    ensures
      var from, len := Offset(m, order, k), |m(order[k])|;
      && from + len + 1 == Offset(m, order, k + 1) <= |Content(m, order)|
      && Content(m, order)[from..from + len] == m(order[k])
      && Content(m, order)[from + len] == '\n'
  {
    var n := |order| - 1;
    assert order[..k + 1][..k] == order[..k];
    if k == n {
      assert order[..n + 1] == order;
    } else {
      ContentAt(m, order[..n], k);
      assert order[..n][..k] == order[..k] && order[..n][..k + 1] == order[..k + 1];
      var from, len := Offset(m, order, k), |m(order[k])|;
      assert Content(m, order)[..|Content(m, order[..n])|] == Content(m, order[..n]);
    }
  }

  /** Offsets do not change when more is appended. */
  lemma OffsetStays(m: Manifests, order: seq<Package>, pkg: Package, k: nat)
    requires k <= |order|
    ensures Offset(m, order + [pkg], k) == Offset(m, order, k)
  {
    assert (order + [pkg])[..k] == order[..k];
  }

  // ---------- what every step keeps ----------

  /** Package pkg is manifest number k of the file and starts at mpos. */
  predicate IsPlaced(m: Manifests, order: seq<Package>, pkg: Package, mpos: nat, k: nat) {
    k < |order| && order[k] == pkg && mpos == Offset(m, order, k)
  }

  ghost predicate Placed(m: Manifests, order: seq<Package>, pkg: Package, mpos: nat) {
    exists k :: IsPlaced(m, order, pkg, mpos, k)
  }

  predicate InFile(phase: Phase) { phase.Appended? || phase.Released? }

  predicate HoldsLock(phase: Phase) { phase.Locked? || phase.Sought? || phase.Appended? }

  ghost predicate WorkerOk(m: Manifests, s: Sys, w: nat)
    requires w < |s.workers|
  {
    var phase, todo := s.workers[w].phase, s.workers[w].todo;
    && (phase != Ready ==> todo != [])
    && (HoldsLock(phase) ==> s.holder == {w})
    && (phase.Sought? ==> phase.mpos == |s.file|)
    && (InFile(phase) ==> Placed(m, s.order, todo[0], phase.mpos))
    && TodoOk(s.order, todo, InFile(phase))
  }

  /** No package of the list is in the file yet, apart from the first when the worker has got that far. */
  ghost predicate TodoOk(order: seq<Package>, todo: seq<Package>, firstInFile: bool) {
    forall j :: 0 <= j < |todo| ==> (todo[j] in order <==> j == 0 && firstInFile)
  }

  /** Every package is with one worker only, and once. */
  ghost predicate Apart(workers: seq<Worker>) {
    forall v, i, w, j ::
      0 <= v < |workers| && 0 <= i < |workers[v].todo| && 0 <= w < |workers| && 0 <= j < |workers[w].todo| ==>
      workers[v].todo[i] == workers[w].todo[j] ==> v == w && i == j
  }

  predicate Waiting(workers: seq<Worker>, pkg: Package) {
    exists w :: 0 <= w < |workers| && pkg in workers[w].todo
  }

  ghost predicate RecordsOk(m: Manifests, s: Sys) {
    && (forall r :: r in s.records ==>
          Placed(m, s.order, r.pkg, r.mpos) && r.mlen == |m(r.pkg)| && !Waiting(s.workers, r.pkg))
    && (forall i, k :: 0 <= i < k < |s.records| ==> s.records[i].pkg != s.records[k].pkg)
  }

  predicate Recorded(records: seq<Record>, pkg: Package) {
    exists r :: r in records && r.pkg == pkg
  }

  ghost predicate Inv(m: Manifests, s: Sys) {
    && s.file == Content(m, s.order) && Distinct(s.order)
    && Apart(s.workers) && RecordsOk(m, s)
    && (forall w: nat :: w < |s.workers| ==> WorkerOk(m, s, w))
    && (forall pkg :: pkg in s.order ==> Recorded(s.records, pkg) || Waiting(s.workers, pkg))
  }

  lemma ContentGrows(m: Manifests, order: seq<Package>, pkg: Package)
    ensures Content(m, order + [pkg]) == Content(m, order) + m(pkg) + "\n"
    ensures Placed(m, order + [pkg], pkg, |Content(m, order)|)
  {
    assert (order + [pkg])[..|order|] == order;
    assert IsPlaced(m, order + [pkg], pkg, |Content(m, order)|, |order|);
  }

  lemma PlacedStays(m: Manifests, order: seq<Package>, pkg: Package, p: Package, mpos: nat)
    requires Placed(m, order, p, mpos)
    ensures Placed(m, order + [pkg], p, mpos)
  {
    var k :| IsPlaced(m, order, p, mpos, k);
    OffsetStays(m, order, pkg, k);
    assert IsPlaced(m, order + [pkg], p, mpos, k);
  }

  /** Lock, seek and unlock leave file, lists and records alone. */
  lemma PhaseKeepsInv(m: Manifests, s: Sys, e: Event)
    requires Inv(m, s) && Enabled(s, e) && (e.Lock? || e.Seek? || e.Unlock?)
    ensures Inv(m, Step(m, s, e))
  {
    var t := Step(m, s, e);
    SameLists(s.workers, t.workers);
    forall v: nat | v < |t.workers| ensures WorkerOk(m, t, v) {
      assert WorkerOk(m, s, v) && WorkerOk(m, s, e.w);
    }
  }

  lemma SameLists(workers: seq<Worker>, after: seq<Worker>)
    requires |after| == |workers| && forall v :: 0 <= v < |workers| ==> after[v].todo == workers[v].todo
    ensures Apart(workers) ==> Apart(after)
    ensures forall pkg :: Waiting(after, pkg) <==> Waiting(workers, pkg)
  {
  }

  /** After a write the writer's own package is in the file too, and no other one is. */
  lemma WriteAddsOwnPackage(s: Sys, w: nat, v: nat, j: nat)
    requires Apart(s.workers) && w < |s.workers| && s.workers[w].todo != []
    requires v < |s.workers| && j < |s.workers[v].todo|
    ensures s.workers[v].todo[j] in s.order + [s.workers[w].todo[0]] <==>
      s.workers[v].todo[j] in s.order || (v == w && j == 0)
  {
    assert s.workers[v].todo[j] == s.workers[w].todo[0] <==> v == w && j == 0;
  }

  lemma WriteKeepsTodo(m: Manifests, s: Sys, e: Event, v: nat)
    requires Apart(s.workers) && Enabled(s, e) && e.Write? && v < |s.workers|
    requires TodoOk(s.order, s.workers[v].todo, InFile(s.workers[v].phase))
    ensures TodoOk(Step(m, s, e).order, s.workers[v].todo, InFile(Step(m, s, e).workers[v].phase))
  {
    var t, todo := Step(m, s, e), s.workers[v].todo;
    forall j | 0 <= j < |todo| ensures todo[j] in t.order <==> j == 0 && InFile(t.workers[v].phase) {
      WriteAddsOwnPackage(s, e.w, v, j);
    }
  }

  lemma WriteKeepsWorker(m: Manifests, s: Sys, e: Event, v: nat)
    requires Apart(s.workers) && s.file == Content(m, s.order) && Enabled(s, e) && e.Write? && v < |s.workers|
    requires WorkerOk(m, s, e.w) && WorkerOk(m, s, v)
    ensures WorkerOk(m, Step(m, s, e), v)
  {
    var pkg := s.workers[e.w].todo[0];
    WriteKeepsTodo(m, s, e, v);
    if v == e.w {
      ContentGrows(m, s.order, pkg);
    } else if s.workers[v].phase.Released? {
      PlacedStays(m, s.order, pkg, s.workers[v].todo[0], s.workers[v].phase.mpos);
    }
  }

  lemma WriteKeepsRecords(m: Manifests, s: Sys, e: Event)
    requires RecordsOk(m, s) && Enabled(s, e) && e.Write?
    ensures RecordsOk(m, Step(m, s, e))
  {
    var t := Step(m, s, e);
    SameLists(s.workers, t.workers);
    forall r | r in t.records ensures Placed(m, t.order, r.pkg, r.mpos) {
      PlacedStays(m, s.order, s.workers[e.w].todo[0], r.pkg, r.mpos);
    }
  }

  lemma WriteKeepsOrder(m: Manifests, s: Sys, e: Event)
    requires s.file == Content(m, s.order) && Distinct(s.order) && Enabled(s, e) && e.Write? && WorkerOk(m, s, e.w)
    ensures Step(m, s, e).file == Content(m, Step(m, s, e).order) && Distinct(Step(m, s, e).order)
  {
    var pkg := s.workers[e.w].todo[0];
    ContentGrows(m, s.order, pkg);
    assert pkg !in s.order;
  }

  lemma WriteKeepsInv(m: Manifests, s: Sys, e: Event)
    requires Inv(m, s) && Enabled(s, e) && e.Write?
    ensures Inv(m, Step(m, s, e))
  {
    var t := Step(m, s, e);
    assert WorkerOk(m, s, e.w);
    WriteKeepsOrder(m, s, e);
    WriteKeepsRecords(m, s, e);
    SameLists(s.workers, t.workers);
    forall v: nat | v < |t.workers| ensures WorkerOk(m, t, v) {
      WriteKeepsWorker(m, s, e, v);
    }
    assert s.workers[e.w].todo[0] in s.workers[e.w].todo;
    assert Waiting(s.workers, s.workers[e.w].todo[0]);
    forall pkg | pkg in t.order ensures Recorded(t.records, pkg) || Waiting(t.workers, pkg) {
      assert pkg in s.order || pkg == s.workers[e.w].todo[0];
    }
  }

  /** The lists after worker w is done with its first package. */
  lemma NextLists(workers: seq<Worker>, w: nat)
    requires w < |workers| && workers[w].todo != [] && Apart(workers)
    ensures
      var after := workers[w := Worker(workers[w].todo[1..], Ready)];
      && Apart(after) && !Waiting(after, workers[w].todo[0])
      && forall pkg :: Waiting(after, pkg) ==> Waiting(workers, pkg)
  {
    var after := workers[w := Worker(workers[w].todo[1..], Ready)];
    assert forall v: nat, j: nat :: v < |workers| && j < |after[v].todo| ==>
      after[v].todo[j] == workers[v].todo[if v == w then j + 1 else j];
  }

  lemma NextKeepsWorkers(m: Manifests, s: Sys, e: Event)
    requires Inv(m, s) && Enabled(s, e) && (e.Report? || e.Skip?)
    ensures forall v: nat :: v < |s.workers| ==> WorkerOk(m, Step(m, s, e), v)
  {
    assert WorkerOk(m, s, e.w);
    forall v: nat | v < |s.workers| ensures WorkerOk(m, Step(m, s, e), v) {
      assert WorkerOk(m, s, v);
      assert v == e.w ==> forall j: nat :: j < |s.workers[v].todo| - 1 ==>
        Step(m, s, e).workers[v].todo[j] == s.workers[v].todo[j + 1];
    }
  }

  lemma NextKeepsRecords(m: Manifests, s: Sys, e: Event)
    requires Inv(m, s) && Enabled(s, e) && (e.Report? || e.Skip?)
    ensures RecordsOk(m, Step(m, s, e))
  {
    assert WorkerOk(m, s, e.w);
    NextLists(s.workers, e.w);
    assert Waiting(s.workers, s.workers[e.w].todo[0]);
  }

  lemma NextKeepsInv(m: Manifests, s: Sys, e: Event)
    requires Inv(m, s) && Enabled(s, e) && (e.Report? || e.Skip?)
    ensures Inv(m, Step(m, s, e))
  {
    var t := Step(m, s, e);
    var pkg := s.workers[e.w].todo[0];
    assert WorkerOk(m, s, e.w);
    NextLists(s.workers, e.w);
    NextKeepsWorkers(m, s, e);
    NextKeepsRecords(m, s, e);
    forall q | q in t.order ensures Recorded(t.records, q) || Waiting(t.workers, q) {
      if q == pkg {
        assert Record(pkg, s.workers[e.w].phase.mpos, |m(pkg)|) in t.records;
      } else if Recorded(s.records, q) {
        var r :| r in s.records && r.pkg == q;
        assert r in t.records;
      } else {
        StillWaiting(s.workers, e.w, q);
      }
    }
  }

  lemma StillWaiting(workers: seq<Worker>, w: nat, q: Package)
    requires w < |workers| && workers[w].todo != [] && Waiting(workers, q) && q != workers[w].todo[0]
    ensures Waiting(workers[w := Worker(workers[w].todo[1..], Ready)], q)
  {
    var v :| 0 <= v < |workers| && q in workers[v].todo;
    var after := workers[w := Worker(workers[w].todo[1..], Ready)];
    if v == w {
      assert workers[w].todo == [workers[w].todo[0]] + workers[w].todo[1..];
    }
    assert q in after[v].todo;
  }

  lemma StepKeepsInv(m: Manifests, s: Sys, e: Event)
    requires Inv(m, s) && Enabled(s, e)
    ensures Inv(m, Step(m, s, e))
  {
    match e
    case Write(_) => WriteKeepsInv(m, s, e);
    case Report(_) => NextKeepsInv(m, s, e);
    case Skip(_) => NextKeepsInv(m, s, e);
    case Lock(_) => PhaseKeepsInv(m, s, e);
    case Seek(_) => PhaseKeepsInv(m, s, e);
    case Unlock(_) => PhaseKeepsInv(m, s, e);
  }

  lemma {:induction false} RunKeepsInv(m: Manifests, s: Sys, es: seq<Event>)
    requires Inv(m, s) && Run(m, s, es)
    ensures Inv(m, Final(m, s, es))
    decreases es
  {
    if es != [] {
      StepKeepsInv(m, s, es[0]);
      RunKeepsInv(m, Step(m, s, es[0]), es[1..]);
    }
  }

  // ---------- what the records say ----------

  /** The new file and the workers before anyone starts. */
  function Launched(lists: seq<seq<Package>>): Sys {
    Sys("", {}, seq(|lists|, w requires 0 <= w < |lists| => Worker(lists[w], Ready)), [], [])
  }

  /** Positions in the lists and in the list they were cut from. */
  lemma {:induction false} PositionInJoined(parts: seq<seq<Package>>, v: nat, i: nat) returns (at: nat)
    requires v < |parts| && i < |parts[v]|
    ensures at < |Joined(parts)| && Joined(parts)[at] == parts[v][i]
    ensures |Joined(parts[..v])| <= at < |Joined(parts[..v + 1])| && at == |Joined(parts[..v])| + i
  {
    var front := parts[..|parts| - 1];
    if v == |parts| - 1 {
      at := |Joined(front)| + i;
      assert parts[..v + 1] == parts;
    } else {
      at := PositionInJoined(front, v, i);
      assert front[..v] == parts[..v] && front[..v + 1] == parts[..v + 1];
    }
  }

  lemma {:induction false} JoinedGrows(parts: seq<seq<Package>>, v: nat, w: nat)
    requires v <= w <= |parts|
    ensures |Joined(parts[..v])| <= |Joined(parts[..w])|
  {
    if v < w {
      JoinedGrows(parts, v, w - 1);
      assert parts[..w][..w - 1] == parts[..w - 1];
    }
  }

  /** Cutting a list without repetition gives every package to one worker, once. */
  lemma SplitIsApart(items: seq<Package>, parts: seq<seq<Package>>)
    requires Distinct(items) && Joined(parts) == items
    ensures Apart(Launched(parts).workers)
  {
    forall v, i, w, j | 0 <= v < |parts| && 0 <= i < |parts[v]| && 0 <= w < |parts| && 0 <= j < |parts[w]|
        && parts[v][i] == parts[w][j]
      ensures v == w && i == j
    {
      var a := PositionInJoined(parts, v, i);
      var b := PositionInJoined(parts, w, j);
      if v < w {
        JoinedGrows(parts, v + 1, w);
      } else if w < v {
        JoinedGrows(parts, w + 1, v);
      }
    }
  }

  /** The record selects its own manifest, followed by a newline. */
  predicate Selects(m: Manifests, file: Text, r: Record) {
    && r.mlen == |m(r.pkg)| && r.mpos + r.mlen < |file|
    && file[r.mpos..r.mpos + r.mlen] == m(r.pkg) && file[r.mpos + r.mlen] == '\n'
  }

  /** Manifest and newline of one record do not overlap those of the other. */
  predicate NoOverlap(a: Record, b: Record) {
    a.mpos + a.mlen < b.mpos || b.mpos + b.mlen < a.mpos
  }

  lemma {:induction false} OffsetsGrow(m: Manifests, order: seq<Package>, i: nat, k: nat)
    requires i < k <= |order|
    ensures Offset(m, order, i) + |m(order[i])| < Offset(m, order, k)
  {
    ContentAt(m, order, k - 1);
    if i < k - 1 {
      OffsetsGrow(m, order, i, k - 1);
    }
  }

  lemma PlacedSelects(m: Manifests, s: Sys, r: Record)
    requires s.file == Content(m, s.order) && Placed(m, s.order, r.pkg, r.mpos) && r.mlen == |m(r.pkg)|
    ensures Selects(m, s.file, r)
  {
    var k :| IsPlaced(m, s.order, r.pkg, r.mpos, k);
    ContentAt(m, s.order, k);
  }

  lemma PlacedApart(m: Manifests, s: Sys, a: Record, b: Record)
    requires Placed(m, s.order, a.pkg, a.mpos) && a.mlen == |m(a.pkg)|
    requires Placed(m, s.order, b.pkg, b.mpos) && b.mlen == |m(b.pkg)|
    requires a.pkg != b.pkg
    ensures NoOverlap(a, b)
  {
    var i :| IsPlaced(m, s.order, a.pkg, a.mpos, i);
    var k :| IsPlaced(m, s.order, b.pkg, b.mpos, k);
    if i < k {
      OffsetsGrow(m, s.order, i, k);
    } else {
      OffsetsGrow(m, s.order, k, i);
    }
  }

  /** In every run, at every moment: each record selects its manifest, and no two overlap. */
  lemma RecordsSelectTheirManifests(m: Manifests, lists: seq<seq<Package>>, es: seq<Event>)
    requires Apart(Launched(lists).workers) && Run(m, Launched(lists), es)
    ensures
      var s := Final(m, Launched(lists), es);
      && (forall r :: r in s.records ==> Selects(m, s.file, r))
      && (forall i, k :: 0 <= i < k < |s.records| ==> NoOverlap(s.records[i], s.records[k]))
  {
    StartInv(m, lists);
    RunKeepsInv(m, Launched(lists), es);
    var s := Final(m, Launched(lists), es);
    forall r | r in s.records ensures Selects(m, s.file, r) {
      PlacedSelects(m, s, r);
    }
    forall i, k | 0 <= i < k < |s.records| ensures NoOverlap(s.records[i], s.records[k]) {
      assert s.records[i] in s.records && s.records[k] in s.records;
      PlacedApart(m, s, s.records[i], s.records[k]);
    }
  }

  lemma StartInv(m: Manifests, lists: seq<seq<Package>>)
    requires Apart(Launched(lists).workers)
    ensures Inv(m, Launched(lists))
  {
  }

  predicate Covers(r: Record, i: nat) { r.mpos <= i <= r.mpos + r.mlen }

  predicate Covered(records: seq<Record>, i: nat) {
    exists r :: r in records && Covers(r, i)
  }

  lemma {:induction false} SomeManifestCovers(m: Manifests, order: seq<Package>, i: nat) returns (k: nat)
    requires i < |Content(m, order)|
    ensures k < |order| && Offset(m, order, k) <= i <= Offset(m, order, k) + |m(order[k])|
  {
    var n := |order| - 1;
    if i < |Content(m, order[..n])| {
      k := SomeManifestCovers(m, order[..n], i);
      assert order[..n][..k] == order[..k];
    } else {
      k := n;
    }
  }

  lemma PlacedOnce(m: Manifests, order: seq<Package>, pkg: Package, mpos: nat, k: nat)
    requires Distinct(order) && Placed(m, order, pkg, mpos) && k < |order| && order[k] == pkg
    ensures mpos == Offset(m, order, k)
  {
    var i :| IsPlaced(m, order, pkg, mpos, i);
  }

  /** When every worker is done, the records tile the file: each byte lies in the manifest or the
      newline of a record. */
  lemma RecordsTileTheFile(m: Manifests, lists: seq<seq<Package>>, es: seq<Event>, i: nat)
    requires Apart(Launched(lists).workers) && Run(m, Launched(lists), es)
    requires
      var s := Final(m, Launched(lists), es);
      i < |s.file| && forall w :: 0 <= w < |s.workers| ==> s.workers[w].todo == []
    ensures Covered(Final(m, Launched(lists), es).records, i)
  {
    StartInv(m, lists);
    RunKeepsInv(m, Launched(lists), es);
    var s := Final(m, Launched(lists), es);
    var k := SomeManifestCovers(m, s.order, i);
    assert Recorded(s.records, s.order[k]);
    var r :| r in s.records && r.pkg == s.order[k];
    PlacedOnce(m, s.order, r.pkg, r.mpos, k);
    assert Covers(r, i);
  }

  /** A repository from its list of packages: however the workers that got the shares interleave, each
      record selects its manifest, no two overlap, and in the end they tile the file. */
  lemma RepositoryIsIndexed(m: Manifests, items: seq<Package>, parts: seq<seq<Package>>, es: seq<Event>)
    requires Distinct(items) && Joined(parts) == items && Run(m, Launched(parts), es)
    ensures
      var s := Final(m, Launched(parts), es);
      && (forall r :: r in s.records ==> Selects(m, s.file, r))
      && (forall i, k :: 0 <= i < k < |s.records| ==> NoOverlap(s.records[i], s.records[k]))
      && ((forall w :: 0 <= w < |s.workers| ==> s.workers[w].todo == []) ==>
            forall i :: 0 <= i < |s.file| ==> Covered(s.records, i))
  {
    SplitIsApart(items, parts);
    RecordsSelectTheirManifests(m, parts, es);
    var s := Final(m, Launched(parts), es);
    if forall w :: 0 <= w < |s.workers| ==> s.workers[w].todo == [] {
      forall i | 0 <= i < |s.file| ensures Covered(s.records, i) {
        RecordsTileTheFile(m, parts, es, i);
      }
    }
  }
}
