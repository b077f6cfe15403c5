/** The vulnerability index (libpkg/pkg_audit.c): a sorted array of patterns with jumps over
    equal names and a table by first byte, against a plain scan over all entries. */
module Audit {
  import opened CStrings
  import opened Lists
  import opened Sorting
  import opened Version

  datatype Op = Unset | EQ | LT | LTE | GT | GTE

  datatype Bound = Bound(version: Option<CString>, op: Op)

  datatype Range = Range(v1: Bound, v2: Bound)

  datatype Entry = Entry(id: nat, pkgname: Option<CString>, ranges: seq<Range>)

  /** One slot of the array; the slot after the last one is all zero. */
  datatype Item = Item(e: Option<Entry>, noglobLen: nat, incr: nat)

  const ZERO_ITEM := Item(None, 0, 0)

  function NameOf(x: Item): CString {
    if x.e.Some? && x.e.value.pkgname.Some? then x.e.value.pkgname.value else ""
  }

  predicate IsGlob(c: char) { c == '*' || c == '?' || c == '[' || c == '{' || c == '\\' }

  /** Length of the longest prefix without glob characters. */
  function NoglobLen(s: CString): (n: nat)
    ensures n <= |s|
    ensures forall k :: 0 <= k < n ==> !IsGlob(s[k])
    ensures n < |s| ==> IsGlob(s[n])
  {
    if s == "" || IsGlob(s[0]) then 0 else 1 + NoglobLen(s[1..])
  }

  // ---------- the order of prefixes ----------

  function Tail(s: CString): CString { if s == "" then s else s[1..] }

  /** The first n bytes of a C string, NUL after its end. */
  function Pad(s: CString, n: nat): string {
    if n == 0 then "" else [At(s, 0)] + Pad(Tail(s), n - 1)
  }

  /** strncmp; past the end of both strings every byte is NUL. */
  function StrNCmp(a: CString, b: CString, n: nat): int {
    if n == 0 then 0
    else if At(a, 0) != At(b, 0) then (if At(a, 0) < At(b, 0) then -1 else 1)
    else StrNCmp(Tail(a), Tail(b), n - 1)
  }

  function EntryCmp(x: Item, y: Item): int {
    var least := if x.noglobLen < y.noglobLen then x.noglobLen else y.noglobLen;
    var result := StrNCmp(NameOf(x), NameOf(y), least);
    if result != 0 then result
    else if x.noglobLen < y.noglobLen then -1
    else if x.noglobLen > y.noglobLen then 1
    else 0
  }

  predicate ItemLE(x: Item, y: Item) { EntryCmp(x, y) <= 0 }

  /** Lexicographic order. */
  predicate LexLE(s: string, t: string) {
    s == "" || (t != "" && (s[0] < t[0] || (s[0] == t[0] && LexLE(s[1..], t[1..]))))
  }

  lemma {:induction false} CmpIsLexicographic(a: CString, m: nat, b: CString, n: nat)
    ensures
      var c := StrNCmp(a, b, if m < n then m else n);
      LexLE(Pad(a, m), Pad(b, n)) <==> (if c == 0 then m <= n else c < 0)
  {
    if m > 0 && n > 0 && At(a, 0) == At(b, 0) {
      CmpIsLexicographic(Tail(a), m - 1, Tail(b), n - 1);
    }
  }

  lemma {:induction false} LexTotal(s: string, t: string)
    ensures LexLE(s, t) || LexLE(t, s)
  {
    if s != "" && t != "" {
      LexTotal(s[1..], t[1..]);
    }
  }

  lemma {:induction false} LexTransitive(s: string, t: string, u: string)
    requires LexLE(s, t) && LexLE(t, u)
    ensures LexLE(s, u)
  {
    if s != "" && s[0] == t[0] == u[0] {
      LexTransitive(s[1..], t[1..], u[1..]);
    }
  }

  lemma EntriesAreOrdered()
    ensures TotalPreorder(ItemLE)
  {
    forall x, y ensures ItemLE(x, y) <==> LexLE(Pad(NameOf(x), x.noglobLen), Pad(NameOf(y), y.noglobLen)) {
      CmpIsLexicographic(NameOf(x), x.noglobLen, NameOf(y), y.noglobLen);
    }
    forall x, y ensures ItemLE(x, y) || ItemLE(y, x) {
      LexTotal(Pad(NameOf(x), x.noglobLen), Pad(NameOf(y), y.noglobLen));
    }
    forall x, y, z | ItemLE(x, y) && ItemLE(y, z) ensures ItemLE(x, z) {
      LexTransitive(Pad(NameOf(x), x.noglobLen), Pad(NameOf(y), y.noglobLen), Pad(NameOf(z), z.noglobLen));
    }
  }

  // ---------- what a search asks ----------

  /** A package and the pattern matcher of the system. */
  datatype Query = Query(name: CString, version: Option<CString>, fnmatch: (CString, CString) -> bool)

  /** What is assumed of fnmatch: a match starts with the pattern's plain prefix. */
  ghost predicate Respects(fnmatch: (CString, CString) -> bool) {
    forall p: CString, s: CString :: fnmatch(p, s) ==> Pad(s, NoglobLen(p)) == Pad(p, NoglobLen(p))
  }

  ghost predicate Within(version: CString, v: Bound) {
    v.version.Some? ==>
      match v.op
      case Unset => false
      case EQ => SameVersion(version, v.version.value)
      case LT => VersionLess(version, v.version.value)
      case LTE => !VersionLess(v.version.value, version)
      case GT => VersionLess(v.version.value, version)
      case GTE => !VersionLess(version, v.version.value)
  }

  ghost predicate Affected(version: CString, ranges: seq<Range>) {
    exists k :: 0 <= k < |ranges| && Within(version, ranges[k].v1) && Within(version, ranges[k].v2)
  }

  ghost predicate Hits(x: Item, q: Query) {
    && x.e.Some?
    && q.fnmatch(NameOf(x), q.name)
    && (q.version.Some? ==> Affected(q.version.value, x.e.value.ranges))
  }

  ghost function FoundBy(q: Query): Item -> Option<Entry> {
    (x: Item) => if Hits(x, q) then x.e else None
  }

  /** The plain scan: every entry that hits, in order. */
  ghost function Scan(s: seq<Item>, q: Query): seq<Entry> {
    Picked(FoundBy(q), s)
  }

  lemma ScanParts(s: seq<Item>, t: seq<Item>, q: Query)
    ensures Scan(s + t, q) == Scan(s, q) + Scan(t, q)
  {
    PickedParts(FoundBy(q), s, t);
  }

  /** The finds in the slots from b up to c. */
  ghost function Between(its: seq<Item>, b: nat, c: nat, q: Query): seq<Entry>
    requires b <= c <= |its|
  {
    Scan(its[b..c], q)
  }

  lemma BetweenEmpty(its: seq<Item>, b: nat, c: nat, q: Query)
    requires b <= c <= |its|
    ensures Between(its, b, c, q) == [] <==> forall k :: b <= k < c ==> !Hits(its[k], q)
  {
    ScanEmpty(its[b..c], q);
    assert forall k :: b <= k < c ==> its[k] == its[b..c][k - b];
    assert forall k :: 0 <= k < c - b ==> its[b..c][k] == its[b + k];
  }

  lemma ScanSplit(s: seq<Item>, t: nat, q: Query)
    requires t <= |s|
    ensures Scan(s, q) == Scan(s[..t], q) + Scan(s[t..], q)
  {
    ScanParts(s[..t], s[t..], q);
    assert s[..t] + s[t..] == s;
  }

  lemma ScanEmpty(s: seq<Item>, q: Query)
    ensures Scan(s, q) == [] <==> forall k :: 0 <= k < |s| ==> !Hits(s[k], q)
  {
    PickedNone(FoundBy(q), s);
    assert forall k :: 0 <= k < |s| ==> (FoundBy(q)(s[k]).None? <==> !Hits(s[k], q));
  }

  // ---------- the index ----------

  ghost predicate Named(its: seq<Item>) {
    forall k :: 0 <= k < |its| ==> its[k].e.Some? && its[k].noglobLen == NoglobLen(NameOf(its[k]))
  }

  /** The slots in use: named entries, sorted by their plain prefix. */
  ghost predicate Sorted(its: seq<Item>) {
    Named(its) && SortedBy(ItemLE, its)
  }

  /** End of the run of equal names that starts at i. */
  function RunEnd(its: seq<Item>, i: nat): (j: nat)
    requires i < |its|
    ensures i < j <= |its|
    ensures forall k :: i <= k < j ==> NameOf(its[k]) == NameOf(its[i])
    ensures j < |its| ==> NameOf(its[j]) != NameOf(its[i])
    decreases |its| - i
  {
    if i + 1 < |its| && NameOf(its[i + 1]) == NameOf(its[i]) then RunEnd(its, i + 1) else i + 1
  }

  /** How far a search may jump from slot i: over the rest of its run when the run is followed by
      a prefix of another length; by one slot otherwise, and always from the first slot. */
  function Jump(its: seq<Item>, i: nat): nat
    requires i < |its|
  {
    var j := RunEnd(its, i);
    if 0 < i && j < |its| && its[j].noglobLen != its[j - 1].noglobLen then j - i else 1
  }

  /** `(size_t)(ret[i].e->pkgname[0])` with a signed char. */
  function FirstByte(x: Item): nat {
    var c := At(NameOf(x), 0) as nat;
    if c < 128 then c else 0x1_0000_0000_0000_0000 - 256 + c
  }

  /** The first slot whose pattern does not start below byte c. */
  predicate IsStart(its: seq<Item>, c: nat, t: nat) {
    && t <= |its|
    && (forall k :: 0 <= k < t ==> FirstByte(its[k]) < c)
    && (t < |its| ==> FirstByte(its[t]) >= c)
  }

  /** The first-byte table of an array of slots. */
  ghost predicate IsTable(its: seq<Item>, table: seq<nat>) {
    |table| == 256 && table[0] == 0 && forall c :: 1 <= c < 256 ==> IsStart(its, c, table[c])
  }

  /** Where the search for a name starts. */
  ghost function From(its: seq<Item>, table: seq<nat>, name: CString): (t: nat)
    requires IsTable(its, table) && Ascii(name)
    ensures IsStart(its, At(name, 0) as nat, t)
  {
    var c := At(name, 0) as nat;
    assert c > 0 ==> IsStart(its, c, table[c]);
    table[c]
  }

  predicate Ascii(name: CString) { At(name, 0) as int < 128 }

  // ---------- why the shortcuts are sound ----------

  lemma {:induction false} SmallerIsBeforeTheRest(name: CString, p: CString, m: nat, p': CString, n: nat)
    requires StrNCmp(name, p, m) < 0 && LexLE(Pad(p, m), Pad(p', n))
    ensures Pad(name, n) != Pad(p', n)
  {
    if n > 0 && At(name, 0) == At(p, 0) == At(p', 0) {
      SmallerIsBeforeTheRest(Tail(name), Tail(p), m - 1, Tail(p'), n - 1);
      assert Pad(name, n)[1..] == Pad(Tail(name), n - 1);
      assert Pad(p', n)[1..] == Pad(Tail(p'), n - 1);
    } else if n > 0 {
      assert Pad(name, n)[0] == At(name, 0) && Pad(p', n)[0] == At(p', 0);
    }
  }

  lemma {:induction false} DifferentPrefix(name: CString, p: CString, n: nat)
    ensures StrNCmp(name, p, n) == 0 <==> Pad(name, n) == Pad(p, n)
  {
    if n > 0 {
      DifferentPrefix(Tail(name), Tail(p), n - 1);
      assert Pad(name, n)[0] == At(name, 0) && Pad(name, n)[1..] == Pad(Tail(name), n - 1);
      assert Pad(p, n)[0] == At(p, 0) && Pad(p, n)[1..] == Pad(Tail(p), n - 1);
    }
  }

  /** The early break: once the name sorts before a prefix, nothing later can match. */
  lemma RestCannotHit(its: seq<Item>, a: nat, q: Query)
    requires Sorted(its) && a < |its| && Respects(q.fnmatch)
    requires StrNCmp(q.name, NameOf(its[a]), its[a].noglobLen) < 0
    ensures Between(its, a, |its|, q) == []
  {
    forall k | a <= k < |its| ensures !Hits(its[k], q) {
      LaterCannotHit(its, a, k, q);
    }
    BetweenEmpty(its, a, |its|, q);
  }

  lemma LaterCannotHit(its: seq<Item>, a: nat, k: nat, q: Query)
    requires Sorted(its) && a <= k < |its| && Respects(q.fnmatch)
    requires StrNCmp(q.name, NameOf(its[a]), its[a].noglobLen) < 0
    ensures !Hits(its[k], q)
  {
    EntriesAreOrdered();
    assert ItemLE(its[a], its[k]);
    var p, p' := NameOf(its[a]), NameOf(its[k]);
    CmpIsLexicographic(p, its[a].noglobLen, p', its[k].noglobLen);
    SmallerIsBeforeTheRest(q.name, p, its[a].noglobLen, p', its[k].noglobLen);
  }

  lemma SameNameCannotHit(x: Item, y: Item, q: Query)
    requires NameOf(y) == NameOf(x) && x.noglobLen == NoglobLen(NameOf(x)) && Respects(q.fnmatch)
    requires StrNCmp(q.name, NameOf(x), x.noglobLen) != 0
    ensures !Hits(y, q)
  {
    DifferentPrefix(q.name, NameOf(x), x.noglobLen);
  }

  /** The jump: a run of equal names fails together. */
  lemma RunCannotHit(its: seq<Item>, a: nat, q: Query)
    requires Sorted(its) && a < |its| && Respects(q.fnmatch)
    requires StrNCmp(q.name, NameOf(its[a]), its[a].noglobLen) != 0
    ensures a + Jump(its, a) <= |its| && Between(its, a, a + Jump(its, a), q) == []
  {
    var next := a + Jump(its, a);
    forall k | a <= k < next ensures !Hits(its[k], q) {
      SameNameCannotHit(its[a], its[k], q);
    }
    BetweenEmpty(its, a, next, q);
  }

  ghost predicate NoLeadingGlob(its: seq<Item>) {
    forall k :: 0 <= k < |its| ==> its[k].noglobLen > 0
  }

  lemma SmallerByteCannotHit(x: Item, q: Query)
    requires x.noglobLen == NoglobLen(NameOf(x)) && x.noglobLen > 0 && Respects(q.fnmatch)
    requires Ascii(q.name) && FirstByte(x) < At(q.name, 0) as nat
    ensures !Hits(x, q)
  {
    var p := NameOf(x);
    assert Pad(p, x.noglobLen)[0] == p[0] && Pad(q.name, x.noglobLen)[0] == At(q.name, 0);
  }

  lemma SkippedFindNothing(its: seq<Item>, t: nat, q: Query)
    requires Sorted(its) && Respects(q.fnmatch) && NoLeadingGlob(its)
    requires Ascii(q.name) && IsStart(its, At(q.name, 0) as nat, t)
    ensures Scan(its[..t], q) == []
  {
    forall k | 0 <= k < t ensures !Hits(its[..t][k], q) {
      SmallerByteCannotHit(its[k], q);
    }
    ScanEmpty(its[..t], q);
  }

  /** The first-byte table skips nothing that can match, if no pattern starts with a glob. */
  lemma SkippedCannotHit(its: seq<Item>, t: nat, q: Query)
    requires Sorted(its) && Respects(q.fnmatch) && NoLeadingGlob(its)
    requires Ascii(q.name) && IsStart(its, At(q.name, 0) as nat, t)
    ensures Scan(its[t..], q) == Scan(its, q)
  {
    SkippedFindNothing(its, t, q);
    ScanSplit(its, t, q);
  }

  lemma GlobBytesAreLow(x: Item)
    requires x.noglobLen == NoglobLen(NameOf(x)) && x.noglobLen == 0
    ensures FirstByte(x) < '|' as nat
  {
    assert NameOf(x) == "" || IsGlob(NameOf(x)[0]);
  }

  predicate PlainMatch(pattern: CString, p: CString, name: CString) {
    p == pattern && Pad(name, NoglobLen(p)) == Pad(p, NoglobLen(p))
  }

  /** A pattern that starts with a glob is skipped for the package "|", whatever it matches. */
  lemma LeadingGlobIsMissed(its: seq<Item>, i: nat, t: nat) returns (q: Query)
    requires Sorted(its) && i < |its| && its[i].noglobLen == 0
    requires IsStart(its, '|' as nat, t)
    ensures Respects(q.fnmatch) && q.name == "|"
    ensures Scan(its, q) != [] && Scan(its[t..], q) == []
  {
    var pattern := NameOf(its[i]);
    q := Query("|", None, (p: CString, s: CString) => PlainMatch(pattern, p, s));
    ScanEmpty(its, q);
    assert Hits(its[i], q);
    EntriesAreOrdered();
    forall k | 0 <= k < |its| && NameOf(its[k]) == pattern ensures k < t {
      if t <= k {
        assert t == k || ItemLE(its[t], its[k]);
        CmpIsLexicographic(NameOf(its[t]), its[t].noglobLen, NameOf(its[k]), its[k].noglobLen);
        GlobBytesAreLow(its[t]);
      }
    }
    ScanEmpty(its[t..], q);
  }

  /** Exactly when the index agrees with the plain scan for every matcher and every package. */
  lemma IndexIsExactIffNoLeadingGlob(its: seq<Item>, table: seq<nat>)
    requires Sorted(its) && IsTable(its, table)
    ensures
      NoLeadingGlob(its) <==>
      forall q: Query :: Respects(q.fnmatch) && Ascii(q.name) ==>
        Scan(its[From(its, table, q.name)..], q) == Scan(its, q)
  {
    if NoLeadingGlob(its) {
      forall q: Query | Respects(q.fnmatch) && Ascii(q.name)
        ensures Scan(its[From(its, table, q.name)..], q) == Scan(its, q)
      {
        SkippedCannotHit(its, From(its, table, q.name), q);
      }
    } else {
      var i :| 0 <= i < |its| && its[i].noglobLen == 0;
      var q := LeadingGlobIsMissed(its, i, table['|' as nat]);
      assert Scan(its[From(its, table, q.name)..], q) == [];
    }
  }
}
