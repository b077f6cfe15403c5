/** The package digest (pkg_checksum_generate in libpkg/pkg_checksum.c): pairs of a field and a
    value, sorted, then hashed one after the other. */
module Digest {
  import opened CStrings
  import opened Lists
  import opened Sorting

  datatype Entry = Entry(field: CString, value: CString)

  /** The parts of a package that enter the digest, each in the order it was added. */
  datatype Package = Package(
    fields: seq<Entry>,
    options: seq<Entry>,
    shlibsRequired: seq<CString>,
    shlibsProvided: seq<CString>,
    users: seq<CString>,
    groups: seq<CString>,
    deps: seq<CString>)

  // ---------- the order ----------

  /** strcmp: the sign of the first difference, the shorter string first. */
  function StrCmp(a: CString, b: CString): int {
    if a == "" && b == "" then 0
    else if At(a, 0) != At(b, 0) then (if At(a, 0) < At(b, 0) then -1 else 1)
    else StrCmp(a[1..], b[1..])
  }

  function EntryCmp(x: Entry, y: Entry): int {
    var r := StrCmp(x.field, y.field);
    if r != 0 then r else StrCmp(x.value, y.value)
  }

  predicate EntryLE(x: Entry, y: Entry) { EntryCmp(x, y) <= 0 }

  lemma {:induction false} StrCmpFlips(a: CString, b: CString)
    ensures StrCmp(a, b) == -StrCmp(b, a)
    ensures StrCmp(a, b) == 0 <==> a == b
  {
    if a != "" && b != "" {
      StrCmpFlips(a[1..], b[1..]);
      assert a == [a[0]] + a[1..] && b == [b[0]] + b[1..];
    }
  }

  lemma {:induction false} StrCmpTransitive(a: CString, b: CString, c: CString)
    requires StrCmp(a, b) <= 0 && StrCmp(b, c) <= 0
    ensures StrCmp(a, c) <= 0
    ensures StrCmp(a, b) < 0 || StrCmp(b, c) < 0 ==> StrCmp(a, c) < 0
  {
    if At(a, 0) == At(b, 0) == At(c, 0) && a != "" {
      StrCmpTransitive(a[1..], b[1..], c[1..]);
    }
  }

  /** The comparison is a total order: entries that compare equal are the same pair. */
  lemma EntriesAreOrdered()
    ensures TotalPreorder(EntryLE)
    ensures Antisymmetric(EntryLE)
  {
    forall x, y ensures EntryLE(x, y) || EntryLE(y, x)
      ensures EntryLE(x, y) && EntryLE(y, x) ==> x == y
    {
      StrCmpFlips(x.field, y.field);
      StrCmpFlips(x.value, y.value);
    }
    forall x, y, z | EntryLE(x, y) && EntryLE(y, z) ensures EntryLE(x, z) {
      StrCmpFlips(x.field, y.field);
      StrCmpFlips(y.field, z.field);
      StrCmpTransitive(x.field, y.field, z.field);
      if x.field == y.field == z.field {
        StrCmpTransitive(x.value, y.value, z.value);
      }
    }
  }

  // ---------- what is hashed ----------

  /** The bytes given to SHA-256: every field and value in turn. */
  function HashInput(entries: seq<Entry>): string {
    if entries == [] then "" else entries[0].field + entries[0].value + HashInput(entries[1..])
  }

  function Named(field: CString): CString -> Option<Entry> {
    (value: CString) => Some(Entry(field, value))
  }

  /** The list with one more pair for each value. */
  ghost function With(entries: seq<Entry>, field: CString, values: seq<CString>): seq<Entry> {
    entries + Picked(Named(field), values)
  }

  datatype Group = Group(field: CString, values: seq<CString>)

  ghost function WithAll(entries: seq<Entry>, groups: seq<Group>): seq<Entry> {
    if groups == [] then entries
    else
      var last := groups[|groups| - 1];
      With(WithAll(entries, groups[..|groups| - 1]), last.field, last.values)
  }

  function Groups(p: Package): seq<Group> {
    [Group("required_shlib", p.shlibsRequired), Group("provided_shlib", p.shlibsProvided),
     Group("user", p.users), Group("group", p.groups), Group("depend", p.deps)]
  }

  /** The pairs of a package, in the order the source collects them. */
  ghost function Collected(p: Package): seq<Entry> {
    WithAll(p.fields + p.options, Groups(p))
  }

  method AddAll(entries: seq<Entry>, field: CString, values: seq<CString>) returns (r: seq<Entry>)
    ensures r == With(entries, field, values)
  {
    r := entries;
    for i := 0 to |values|
      invariant r == With(entries, field, values[..i])
    {
      assert values[..i + 1][..i] == values[..i];
      r := r + [Entry(field, values[i])];
    }
    assert values[..|values|] == values;
  }

  /** pkg_checksum_hash_sha256: what the hash is fed. */
  method Feed(entries: seq<Entry>) returns (input: string)
    ensures input == HashInput(entries)
  {
    var list := entries;
    input := "";
    while list != []
      invariant HashInput(entries) == input + HashInput(list)
      decreases |list|
    {
      input := input + list[0].field;
      input := input + list[0].value;
      list := list[1..];
    }
  }

  /** The loops of pkg_checksum_generate, one after the other. */
  method Collect(p: Package) returns (entries: seq<Entry>)
    ensures entries == Collected(p)
  {
    var groups := Groups(p);
    entries := p.fields + p.options;
    for i := 0 to |groups|
      invariant entries == WithAll(p.fields + p.options, groups[..i])
    {
      assert groups[..i + 1][..i] == groups[..i];
      entries := AddAll(entries, groups[i].field, groups[i].values);
    }
    assert groups[..|groups|] == groups;
  }

  /** The bytes are the pairs of the package, sorted, one after the other. */
  ghost predicate IsInput(p: Package, input: string) {
    exists sorted :: SortOf(EntryLE, Collected(p), sorted) && input == HashInput(sorted)
  }

  /** pkg_checksum_generate: collect, sort, hash. */
  method Generate(p: Package) returns (input: string)
    ensures IsInput(p, input)
  {
    var entries := Collect(p);
    EntriesAreOrdered();
    var list := Sort(EntryLE, entries);
    input := Feed(list);
  }

  // ---------- the digest is canonical ----------

  /** The same package up to the order in which its parts were added. */
  ghost predicate SameParts(p: Package, q: Package) {
    && multiset(p.fields) == multiset(q.fields)
    && multiset(p.options) == multiset(q.options)
    && multiset(p.shlibsRequired) == multiset(q.shlibsRequired)
    && multiset(p.shlibsProvided) == multiset(q.shlibsProvided)
    && multiset(p.users) == multiset(q.users)
    && multiset(p.groups) == multiset(q.groups)
    && multiset(p.deps) == multiset(q.deps)
  }

  lemma WithSame(d: seq<Entry>, e: seq<Entry>, field: CString, v: seq<CString>, w: seq<CString>)
    requires multiset(d) == multiset(e) && multiset(v) == multiset(w)
    ensures multiset(With(d, field, v)) == multiset(With(e, field, w))
  {
    PickedFromPermutation(Named(field), v, w);
  }

  ghost predicate SameGroups(g: seq<Group>, h: seq<Group>) {
    && |g| == |h|
    && forall k :: 0 <= k < |g| ==> g[k].field == h[k].field && multiset(g[k].values) == multiset(h[k].values)
  }

  lemma {:induction false} WithAllSame(d: seq<Entry>, e: seq<Entry>, g: seq<Group>, h: seq<Group>)
    requires multiset(d) == multiset(e) && SameGroups(g, h)
    ensures multiset(WithAll(d, g)) == multiset(WithAll(e, h))
  {
    if g != [] {
      var n := |g| - 1;
      WithAllSame(d, e, g[..n], h[..n]);
      WithSame(WithAll(d, g[..n]), WithAll(e, h[..n]), g[n].field, g[n].values, h[n].values);
    }
  }

  /** Whatever order the parts were added in, the hash is fed the same bytes. */
  lemma DigestIsCanonical(p: Package, q: Package, x: string, y: string)
    requires IsInput(p, x) && IsInput(q, y)
    ensures multiset(Collected(p)) == multiset(Collected(q)) ==> x == y
    ensures SameParts(p, q) ==> x == y
  {
    if SameParts(p, q) {
      WithAllSame(p.fields + p.options, q.fields + q.options, Groups(p), Groups(q));
    }
    if multiset(Collected(p)) == multiset(Collected(q)) {
      var r :| SortOf(EntryLE, Collected(p), r) && x == HashInput(r);
      var s :| SortOf(EntryLE, Collected(q), s) && y == HashInput(s);
      EntriesAreOrdered();
      SortedFormIsUnique(EntryLE, r, s);
    }
  }

  // ---------- what the bytes determine ----------

  /** The two lists cut their bytes into fields and values at the same places. */
  ghost predicate SameShape(r: seq<Entry>, s: seq<Entry>) {
    && |r| == |s|
    && forall k :: 0 <= k < |r| ==> |r[k].field| == |s[k].field| && |r[k].value| == |s[k].value|
  }

  lemma SplitEqual(a: string, b: string, c: string, d: string)
    requires |a| == |c| && a + b == c + d
    ensures a == c && b == d
  {
    assert a == (a + b)[..|a|] && c == (c + d)[..|c|];
    assert b == (a + b)[|a|..] && d == (c + d)[|c|..];
  }

  lemma {:induction false} ShapeAndBytesDetermine(r: seq<Entry>, s: seq<Entry>)
    requires SameShape(r, s) && HashInput(r) == HashInput(s)
    ensures r == s
  {
    if r != [] {
      var x, y := r[0], s[0];
      assert x.field + x.value + HashInput(r[1..]) == x.field + (x.value + HashInput(r[1..]));
      assert y.field + y.value + HashInput(s[1..]) == y.field + (y.value + HashInput(s[1..]));
      SplitEqual(x.field, x.value + HashInput(r[1..]), y.field, y.value + HashInput(s[1..]));
      SplitEqual(x.value, HashInput(r[1..]), y.value, HashInput(s[1..]));
      ShapeAndBytesDetermine(r[1..], s[1..]);
      assert r == [x] + r[1..] && s == [y] + s[1..];
    }
  }

  /** Two packages have the same pairs exactly when they feed the same bytes and their sorted pairs
      cut them at the same places. */
  lemma SamePairsIffSameBytesAndShape(p: Package, q: Package, r: seq<Entry>, s: seq<Entry>)
    requires SortOf(EntryLE, Collected(p), r) && SortOf(EntryLE, Collected(q), s)
    ensures multiset(Collected(p)) == multiset(Collected(q)) <==> HashInput(r) == HashInput(s) && SameShape(r, s)
  {
    if multiset(Collected(p)) == multiset(Collected(q)) {
      EntriesAreOrdered();
      SortedFormIsUnique(EntryLE, r, s);
    } else if HashInput(r) == HashInput(s) && SameShape(r, s) {
      ShapeAndBytesDetermine(r, s);
    }
  }

  /** A package with one option and nothing else. */
  function OneOption(option: Entry): Package {
    Package([], [option], [], [], [], [], [])
  }

  lemma OneOptionInput(option: Entry)
    ensures Collected(OneOption(option)) == [option]
    ensures IsInput(OneOption(option), option.field + option.value)
  {
    var p := OneOption(option);
    var groups := Groups(p);
    assert groups[..5] == groups;
    NothingAdded([option], groups, 5);
    assert [] + [option] == [option];
    assert [option][1..] == [];
    assert HashInput([option]) == option.field + option.value;
    assert SortOf(EntryLE, Collected(p), [option]);
  }

  lemma {:induction false} NothingAdded(entries: seq<Entry>, groups: seq<Group>, n: nat)
    requires n <= |groups| && forall k :: 0 <= k < |groups| ==> groups[k].values == []
    ensures WithAll(entries, groups[..n]) == entries
  {
    if n > 0 {
      assert groups[..n][..n - 1] == groups[..n - 1];
      NothingAdded(entries, groups, n - 1);
    }
  }

  /** Neither a separator nor a length is hashed: a package with option A set to "Bon" and one with
      option AB set to "on" differ and feed the same bytes. */
  lemma DifferentPackagesShareAnInput() returns (p: Package, q: Package, x: string)
    ensures !SameParts(p, q) && multiset(Collected(p)) != multiset(Collected(q))
    ensures IsInput(p, x) && IsInput(q, x)
  {
    var e, f := Entry("A", "Bon"), Entry("AB", "on");
    p, q, x := OneOption(e), OneOption(f), "ABon";
    OneOptionInput(e);
    OneOptionInput(f);
    assert e.field + e.value == x && f.field + f.value == x;
    assert multiset([e])[e] == 1 && multiset([f])[e] == 0;
  }
}
