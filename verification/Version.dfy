/** Package version comparison (libpkg/pkg_version.c).

    A version is split into epoch, body and revision.  The body is cut into blocks at
    '+', and each block into components (number, letter, patch level) by an irregular
    tokenizer.  The comparison walks both bodies at once; here it is proved to be the
    lexicographic order of zero-padded keys. */
module Version {
  import opened CStrings

  datatype Component = Component(n: int, a: int, pl: int)

  /** What a missing component counts as. */
  const ZERO := Component(0, 0, 0)

  predicate ComponentLess(x: Component, y: Component) {
    || x.n < y.n
    || (x.n == y.n && x.a < y.a)
    || (x.n == y.n && x.a == y.a && x.pl < y.pl)
  }

  // ---------- splitting ----------

  datatype Split = Split(v: nat, ve: nat, epoch: nat, revision: nat)

  /** Position of the version text, of its end, and the two special numbers. */
  function SplitVersion(name: CString): (r: Split)
    ensures r.v <= r.ve <= |name|
    ensures At(name, r.ve) in {'_', ',', '\0'}
  {
    var v := LastIndexOf(name, '-', 0) + 1;
    var u := LastIndexOf(name, '_', v);
    var revision := if u != -1 then StrToUL(name, u + 1) else 0;
    var c := LastIndexOf(name, ',', if u != -1 then u + 1 else v);
    var epoch := if c != -1 then StrToUL(name, c + 1) else 0;
    var ve := if u != -1 then u else if c != -1 then c else |name|;
    Split(v, ve, epoch, revision)
  }

  // ---------- tokenizer ----------

  datatype Stage = Stage(name: string, value: int)

  const STAGES: seq<Stage> := [
    Stage("pl", 0),
    Stage("alpha", 1),
    Stage("beta", 2),
    Stage("pre", 16),
    Stage("rc", 18)
  ]

  /** Value of a run of letters that spells a stage name in any case, else -1. */
  function StageValue(run: string): int {
    var w := Lower(run);
    if w == "pl" then 0
    else if w == "alpha" then 1
    else if w == "beta" then 2
    else if w == "pre" then 16
    else if w == "rc" then 18
    else -1
  }

  /** Skipping to the next '+' or to the end. */
  function StarEnd(s: string, p: nat): (e: nat)
    requires p <= |s|
    ensures p <= e <= |s|
    ensures forall k :: p <= k < e ==> s[k] != '+'
    ensures At(s, e) == '+' || At(s, e) == '\0'
    decreases |s| - p
  {
    if At(s, p) != '\0' && s[p] != '+' then StarEnd(s, p + 1) else p
  }

  predicate IsSeparator(c: char) {
    c != '\0' && !IsDigit(c) && !IsAlpha(c) && c != '+' && c != '*'
  }

  function SeparatorEnd(s: string, p: nat): (e: nat)
    requires p <= |s|
    ensures p <= e <= |s|
    ensures forall k :: p <= k < e ==> IsSeparator(s[k])
    ensures !IsSeparator(At(s, e))
    decreases |s| - p
  {
    if IsSeparator(At(s, p)) then SeparatorEnd(s, p + 1) else p
  }

  /** Number part: value, next position, and whether a letter may be a stage name. */
  function NumberPart(s: string, p: nat): (r: (int, nat, bool))
    requires p < |s|
    ensures p <= r.1 <= |s|
    ensures !r.2 ==> p < r.1
    ensures r.2 ==> r.1 == p && !IsDigit(s[p]) && s[p] != '*'
  {
    if IsDigit(s[p]) then (StrToLL(s, p), DigitsEnd(s, p), false)
    else if s[p] == '*' then (-2, StarEnd(s, p + 1), false)
    else (-1, p, true)
  }

  /** Letter part: value, next position, and whether a patch level may follow. */
  function LetterPart(s: string, p: nat, stageAllowed: bool): (r: (int, nat, bool))
    requires p <= |s|
    ensures p <= r.1 <= |s|
    ensures stageAllowed && IsAlpha(At(s, p)) ==> p < r.1
  {
    if !IsAlpha(At(s, p)) then (0, p, false)
    else
      var e := AlphaEnd(s, p);
      var stage := StageValue(s[p..e]);
      if stage == -1 then (ToLower(s[p]) as int - 'a' as int + 1, e, true)
      else if stageAllowed then (stage, e, true)
      else (0, p, false)
  }

  function PatchPart(s: string, p: nat, allowed: bool): (r: (int, nat))
    requires p <= |s|
    ensures p <= r.1 <= |s|
  {
    if !allowed then (0, p)
    else if IsDigit(At(s, p)) then (StrToLL(s, p), DigitsEnd(s, p))
    else (-1, p)
  }

  /** The component that starts at p, and where the next one may start. */
  function ComponentAt(s: string, p: nat): (r: (Component, nat))
    requires p < |s| && s[p] != '+' && s[p] != '\0'
    ensures p < r.1 <= |s|
  {
    var num := NumberPart(s, p);
    var letter := LetterPart(s, num.1, num.2);
    var patch := PatchPart(s, letter.1, letter.2);
    (Component(num.0, letter.0, patch.0), SeparatorEnd(s, patch.1))
  }

  // ---------- keys ----------

  type Block = seq<Component>
  type Key = seq<Block>

  /** All blocks of the body between p and ve. */
  function KeyFrom(s: CString, ve: nat, p: nat): Key
    requires ve <= |s|
    decreases |s| - p
  {
    if p >= ve then []
    else if s[p] == '+' then [[]] + KeyFrom(s, ve, p + 1)
    else
      var (c, q) := ComponentAt(s, p);
      var rest := KeyFrom(s, ve, q);
      if rest == [] then [[c]] else [[c] + rest[0]] + rest[1..]
  }

  /** Component j of block i, with missing blocks and components read as zero. */
  function Padded(key: Key, i: nat, j: nat): Component {
    if i < |key| && j < |key[i]| then key[i][j] else ZERO
  }

  /** Lexicographic order on pairs of indices. */
  predicate Earlier(i: nat, j: nat, i': nat, j': nat) {
    i < i' || (i == i' && j < j')
  }

  ghost predicate EqualBefore(a: Key, b: Key, i: nat, j: nat) {
    forall i': nat, j': nat :: Earlier(i', j', i, j) ==> Padded(a, i', j') == Padded(b, i', j')
  }

  ghost predicate FirstDifference(a: Key, b: Key, i: nat, j: nat) {
    EqualBefore(a, b, i, j) && ComponentLess(Padded(a, i, j), Padded(b, i, j))
  }

  /** a comes before b: at the first place where the padded keys differ, a is smaller. */
  ghost predicate KeyLess(a: Key, b: Key) {
    exists i: nat, j: nat :: FirstDifference(a, b, i, j)
  }

  ghost predicate KeyEqual(a: Key, b: Key) {
    forall i: nat, j: nat :: Padded(a, i, j) == Padded(b, i, j)
  }

  lemma KeyLessTransitive(a: Key, b: Key, c: Key)
    requires KeyLess(a, b) && KeyLess(b, c)
    ensures KeyLess(a, c)
  {
    var i: nat, j: nat :| FirstDifference(a, b, i, j);
    var i': nat, j': nat :| FirstDifference(b, c, i', j');
    if Earlier(i, j, i', j') {
      assert FirstDifference(a, c, i, j);
    } else {
      assert FirstDifference(a, c, i', j');
    }
  }

  lemma KeyLessIrreflexive(a: Key, b: Key)
    requires KeyLess(a, b)
    ensures !KeyEqual(a, b) && !KeyLess(b, a)
  {
    var i: nat, j: nat :| FirstDifference(a, b, i, j);
    assert Padded(a, i, j) != Padded(b, i, j);
    forall i': nat, j': nat ensures !FirstDifference(b, a, i', j') {
    }
  }

  lemma KeyLessRespectsEqual(a: Key, b: Key, c: Key)
    requires KeyEqual(a, b)
    ensures KeyLess(a, c) <==> KeyLess(b, c)
    ensures KeyLess(c, a) <==> KeyLess(c, b)
  {
    forall i: nat, j: nat
      ensures FirstDifference(a, c, i, j) <==> FirstDifference(b, c, i, j)
      ensures FirstDifference(c, a, i, j) <==> FirstDifference(c, b, i, j)
    {
    }
  }

  // ---------- one step of the walk, on keys ----------

  function Head(k: Key): Block { if k == [] then [] else k[0] }

  function First(k: Key): Component { if Head(k) == [] then ZERO else k[0][0] }

  /** Key after the first component of the first block has been consumed. */
  function AfterComponent(k: Key): Key {
    if Head(k) == [] then k else [k[0][1..]] + k[1..]
  }

  /** Key after its first block has been consumed. */
  function AfterBlock(k: Key): Key { if k == [] then [] else k[1..] }

  /** Three-way outcome of the key order, as the C function encodes it. */
  ghost function KeySign(a: Key, b: Key): int {
    if KeyLess(a, b) then -1 else if KeyLess(b, a) then 1 else 0
  }

  lemma AfterBlockShifts(k: Key, i: nat, j: nat)
    ensures Padded(AfterBlock(k), i, j) == Padded(k, i + 1, j)
  {
  }

  lemma AfterComponentShifts(k: Key, i: nat, j: nat)
    ensures Padded(AfterComponent(k), i, j) == Padded(k, i, if i == 0 then j + 1 else j)
  {
  }

  lemma BlockStep(a: Key, b: Key)
    requires Head(a) == [] && Head(b) == []
    ensures KeyLess(a, b) <==> KeyLess(AfterBlock(a), AfterBlock(b))
  {
    var a', b' := AfterBlock(a), AfterBlock(b);
    forall i: nat, j: nat
      ensures Padded(a', i, j) == Padded(a, i + 1, j) && Padded(b', i, j) == Padded(b, i + 1, j)
    {
      AfterBlockShifts(a, i, j);
      AfterBlockShifts(b, i, j);
    }
    if KeyLess(a, b) {
      var i: nat, j: nat :| FirstDifference(a, b, i, j);
      assert i > 0;
      assert EqualBefore(a', b', i - 1, j) by {
        forall i': nat, j': nat | Earlier(i', j', i - 1, j)
          ensures Padded(a', i', j') == Padded(b', i', j')
        {
          assert Earlier(i' + 1, j', i, j);
        }
      }
      assert FirstDifference(a', b', i - 1, j);
    }
    if KeyLess(a', b') {
      var i: nat, j: nat :| FirstDifference(a', b', i, j);
      assert EqualBefore(a, b, i + 1, j) by {
        forall i': nat, j': nat | Earlier(i', j', i + 1, j)
          ensures Padded(a, i', j') == Padded(b, i', j')
        {
          if i' > 0 {
            assert Earlier(i' - 1, j', i, j);
            assert Padded(a', i' - 1, j') == Padded(b', i' - 1, j');
          }
        }
      }
      assert FirstDifference(a, b, i + 1, j);
    }
  }

  lemma ComponentStepEqual(a: Key, b: Key)
    requires First(a) == First(b)
    ensures KeyLess(a, b) <==> KeyLess(AfterComponent(a), AfterComponent(b))
  {
    var a', b' := AfterComponent(a), AfterComponent(b);
    forall i: nat, j: nat
      ensures Padded(a', i, j) == Padded(a, i, if i == 0 then j + 1 else j)
      ensures Padded(b', i, j) == Padded(b, i, if i == 0 then j + 1 else j)
    {
      AfterComponentShifts(a, i, j);
      AfterComponentShifts(b, i, j);
    }
    assert Padded(a, 0, 0) == First(a) && Padded(b, 0, 0) == First(b);
    if KeyLess(a, b) {
      var i: nat, j: nat :| FirstDifference(a, b, i, j);
      var j0: nat := if i == 0 then j - 1 else j;
      assert EqualBefore(a', b', i, j0) by {
        forall i': nat, j': nat | Earlier(i', j', i, j0)
          ensures Padded(a', i', j') == Padded(b', i', j')
        {
          assert Earlier(i', if i' == 0 then j' + 1 else j', i, j);
        }
      }
      assert FirstDifference(a', b', i, j0);
    }
    if KeyLess(a', b') {
      var i: nat, j: nat :| FirstDifference(a', b', i, j);
      var j1 := if i == 0 then j + 1 else j;
      assert EqualBefore(a, b, i, j1) by {
        forall i': nat, j': nat | Earlier(i', j', i, j1)
          ensures Padded(a, i', j') == Padded(b, i', j')
        {
          if i' != 0 || j' != 0 {
            var j'': nat := if i' == 0 then j' - 1 else j';
            assert Earlier(i', j'', i, j);
            assert Padded(a', i', j'') == Padded(b', i', j'');
          }
        }
      }
      assert FirstDifference(a, b, i, j1);
    }
  }

  lemma ComponentStepLess(a: Key, b: Key)
    requires ComponentLess(First(a), First(b))
    ensures KeyLess(a, b)
  {
    assert Padded(a, 0, 0) == First(a) && Padded(b, 0, 0) == First(b);
    assert FirstDifference(a, b, 0, 0);
  }

  // ---------- spelling does not matter up to case ----------

  /** The texts s[p..e] and t[q..f] are equal up to case, and both end where a body ends. */
  ghost predicate Aligned(s: string, p: nat, e: nat, t: string, q: nat, f: nat) {
    && p <= e <= |s| && q <= f <= |t| && e - p == f - q
    && At(s, e) in {'_', ',', '\0'} && At(t, f) in {'_', ',', '\0'}
    && forall k: nat | k < e - p :: MatchAt(s, p, t, q, k)
  }

  predicate MatchAt(s: string, p: nat, t: string, q: nat, k: nat) {
    SameLetter(At(s, p + k), At(t, q + k))
  }

  predicate SameLetter(c: char, d: char) { ToLower(c) == ToLower(d) && c != '\0' }

  /** Two scanner results that agree inside the body. */
  predicate SameStop(p: nat, p': nat, e: nat, q: nat, q': nat, f: nat) {
    if p' < e then q' - q == p' - p else q' >= f
  }

  lemma AlignedAt(s: string, p: nat, e: nat, t: string, q: nat, f: nat, k: nat)
    requires Aligned(s, p, e, t, q, f) && k < e - p
    ensures SameLetter(s[p + k], t[q + k])
  {
    assert MatchAt(s, p, t, q, k);
  }

  lemma AlignedDigits(s: string, p: nat, e: nat, t: string, q: nat, f: nat)
    requires Aligned(s, p, e, t, q, f)
    ensures DigitsEnd(s, p) <= e && DigitsEnd(s, p) - p == DigitsEnd(t, q) - q
    ensures StrToLL(s, p) == StrToLL(t, q)
  {
    var d, d' := DigitsEnd(s, p) - p, DigitsEnd(t, q) - q;
    assert p + d <= e && q + d' <= f;
    if d < e - p { AlignedAt(s, p, e, t, q, f, d); }
    if d' < e - p { AlignedAt(s, p, e, t, q, f, d'); }
    assert d == d';
    var x, y := s[p..p + d], t[q..q + d];
    forall k | 0 <= k < d ensures x[k] == y[k] {
      AlignedAt(s, p, e, t, q, f, k);
      assert IsDigit(s[p + k]) && IsDigit(t[q + k]);
    }
    assert x == y;
  }

  lemma AlignedAlpha(s: string, p: nat, e: nat, t: string, q: nat, f: nat)
    requires Aligned(s, p, e, t, q, f)
    ensures AlphaEnd(s, p) <= e && AlphaEnd(s, p) - p == AlphaEnd(t, q) - q
    ensures Lower(s[p..AlphaEnd(s, p)]) == Lower(t[q..AlphaEnd(t, q)])
  {
    var d, d' := AlphaEnd(s, p) - p, AlphaEnd(t, q) - q;
    assert p + d <= e && q + d' <= f;
    if d < e - p { AlignedAt(s, p, e, t, q, f, d); }
    if d' < e - p { AlignedAt(s, p, e, t, q, f, d'); }
    assert d == d';
    var x, y := Lower(s[p..p + d]), Lower(t[q..q + d]);
    forall k | 0 <= k < d ensures x[k] == y[k] {
      AlignedAt(s, p, e, t, q, f, k);
    }
  }

  lemma AlignedSeparators(s: string, p: nat, e: nat, t: string, q: nat, f: nat)
    requires Aligned(s, p, e, t, q, f)
    ensures SameStop(p, SeparatorEnd(s, p), e, q, SeparatorEnd(t, q), f)
  {
    var d, d' := SeparatorEnd(s, p) - p, SeparatorEnd(t, q) - q;
    if d < e - p { AlignedAt(s, p, e, t, q, f, d); }
    if d' < e - p { AlignedAt(s, p, e, t, q, f, d'); }
  }

  lemma AlignedStar(s: CString, p: nat, e: nat, t: CString, q: nat, f: nat)
    requires Aligned(s, p, e, t, q, f)
    ensures SameStop(p, StarEnd(s, p), e, q, StarEnd(t, q), f)
  {
    var d, d' := StarEnd(s, p) - p, StarEnd(t, q) - q;
    if d < e - p { AlignedAt(s, p, e, t, q, f, d); }
    if d' < e - p { AlignedAt(s, p, e, t, q, f, d'); }
  }

  lemma AlignedLater(s: string, p: nat, e: nat, t: string, q: nat, f: nat, d: nat)
    requires Aligned(s, p, e, t, q, f) && p + d <= e
    ensures Aligned(s, p + d, e, t, q + d, f)
  {
    var p', q' := p + d, q + d;
    forall k: nat | k < e - p' ensures MatchAt(s, p', t, q', k) {
      assert MatchAt(s, p, t, q, d + k);
    }
  }

  lemma LowerRunDecides(run: string, run': string)
    requires |run| > 0 && Lower(run) == Lower(run')
    ensures StageValue(run) == StageValue(run')
    ensures |run'| == |run| && ToLower(run[0]) == ToLower(run'[0])
  {
    assert |Lower(run)| == |run| && |Lower(run')| == |run'|;
    assert Lower(run)[0] == ToLower(run[0]) && Lower(run')[0] == ToLower(run'[0]);
  }

  lemma LetterPartAligned(s: CString, p: nat, e: nat, t: CString, q: nat, f: nat, ok: bool)
    requires Aligned(s, p, e, t, q, f)
    ensures
      var r, r' := LetterPart(s, p, ok), LetterPart(t, q, ok);
      r.0 == r'.0 && r.2 == r'.2 && r.1 <= e && r.1 - p == r'.1 - q
  {
    AlignedAlpha(s, p, e, t, q, f);
    if AlphaEnd(s, p) > p {
      LowerRunDecides(s[p..AlphaEnd(s, p)], t[q..AlphaEnd(t, q)]);
    }
  }

  lemma PatchPartAligned(s: CString, p: nat, e: nat, t: CString, q: nat, f: nat, ok: bool)
    requires Aligned(s, p, e, t, q, f)
    ensures
      var r, r' := PatchPart(s, p, ok), PatchPart(t, q, ok);
      r.0 == r'.0 && r.1 <= e && r.1 - p == r'.1 - q
  {
    AlignedDigits(s, p, e, t, q, f);
    if p < e { AlignedAt(s, p, e, t, q, f, 0); }
  }

  lemma SeparatorsAfter(s: string, p: nat, e: nat, t: string, q: nat, f: nat, h: nat, h': nat)
    requires Aligned(s, p, e, t, q, f) && p <= h <= e && h' == q + (h - p)
    ensures SameStop(p, SeparatorEnd(s, h), e, q, SeparatorEnd(t, h'), f)
  {
    AlignedLater(s, p, e, t, q, f, h - p);
    AlignedSeparators(s, h, e, t, h', f);
  }

  lemma PatchPartAfter(s: CString, p: nat, e: nat, t: CString, q: nat, f: nat, l: nat, l': nat, ok: bool)
    requires Aligned(s, p, e, t, q, f) && p <= l <= e && l' == q + (l - p)
    ensures
      var r, r' := PatchPart(s, l, ok), PatchPart(t, l', ok);
      r.0 == r'.0 && r.1 <= e && r.1 - p == r'.1 - q
  {
    AlignedLater(s, p, e, t, q, f, l - p);
    PatchPartAligned(s, l, e, t, l', f, ok);
  }

  /** What follows the number of a component. */
  lemma TailAligned(s: CString, p: nat, e: nat, t: CString, q: nat, f: nat, ok: bool)
    requires Aligned(s, p, e, t, q, f)
    ensures
      var l, l' := LetterPart(s, p, ok), LetterPart(t, q, ok);
      var h, h' := PatchPart(s, l.1, l.2), PatchPart(t, l'.1, l'.2);
      l.0 == l'.0 && h.0 == h'.0
      && SameStop(p, SeparatorEnd(s, h.1), e, q, SeparatorEnd(t, h'.1), f)
  {
    LetterPartAligned(s, p, e, t, q, f, ok);
    var l, l' := LetterPart(s, p, ok), LetterPart(t, q, ok);
    PatchPartAfter(s, p, e, t, q, f, l.1, l'.1, l.2);
    var h, h' := PatchPart(s, l.1, l.2), PatchPart(t, l'.1, l'.2);
    SeparatorsAfter(s, p, e, t, q, f, h.1, h'.1);
  }

  lemma StarComponent(s: CString, p: nat)
    requires p < |s| && s[p] == '*'
    ensures ComponentAt(s, p) == (Component(-2, 0, 0), StarEnd(s, p + 1))
  {
    var e := StarEnd(s, p + 1);
    assert LetterPart(s, e, false) == (0, e, false);
    assert SeparatorEnd(s, e) == e;
  }

  lemma NumberPartAligned(s: CString, p: nat, e: nat, t: CString, q: nat, f: nat)
    requires Aligned(s, p, e, t, q, f) && p < e && s[p] != '*' && SameLetter(s[p], t[q])
    ensures
      var r, r' := NumberPart(s, p), NumberPart(t, q);
      r.0 == r'.0 && r.2 == r'.2 && r.1 <= e && r.1 - p == r'.1 - q
  {
    AlignedDigits(s, p, e, t, q, f);
  }

  lemma ComponentAligned(s: CString, p: nat, e: nat, t: CString, q: nat, f: nat)
    requires Aligned(s, p, e, t, q, f) && p < e && s[p] != '+' && t[q] != '+'
    ensures
      var r, r' := ComponentAt(s, p), ComponentAt(t, q);
      r.0 == r'.0 && SameStop(p, r.1, e, q, r'.1, f)
  {
    AlignedAt(s, p, e, t, q, f, 0);
    if s[p] == '*' {
      StarComponent(s, p);
      StarComponent(t, q);
      AlignedLater(s, p, e, t, q, f, 1);
      AlignedStar(s, p + 1, e, t, q + 1, f);
    } else {
      OtherComponentAligned(s, p, e, t, q, f);
    }
  }

  lemma OtherComponentAligned(s: CString, p: nat, e: nat, t: CString, q: nat, f: nat)
    requires Aligned(s, p, e, t, q, f) && p < e && s[p] != '+' && t[q] != '+'
    requires s[p] != '*' && SameLetter(s[p], t[q])
    ensures
      var r, r' := ComponentAt(s, p), ComponentAt(t, q);
      r.0 == r'.0 && SameStop(p, r.1, e, q, r'.1, f)
  {
    NumberPartAligned(s, p, e, t, q, f);
    var n, n' := NumberPart(s, p), NumberPart(t, q);
    AlignedLater(s, p, e, t, q, f, n.1 - p);
    TailAligned(s, n.1, e, t, n'.1, f, n.2);
  }

  /** Bodies that are equal up to case have equal keys, whatever follows them. */
  lemma {:induction false} KeyIgnoresCase(s: CString, p: nat, e: nat, t: CString, q: nat, f: nat)
    requires Aligned(s, p, e, t, q, f)
    ensures KeyFrom(s, e, p) == KeyFrom(t, f, q)
    decreases |s| - p
  {
    if p < e {
      AlignedAt(s, p, e, t, q, f, 0);
      if s[p] == '+' {
        AlignedLater(s, p, e, t, q, f, 1);
        KeyIgnoresCase(s, p + 1, e, t, q + 1, f);
        SamePlusFirst(s, p, e, t, q, f);
      } else {
        ComponentAligned(s, p, e, t, q, f);
        var p', q' := ComponentAt(s, p).1, ComponentAt(t, q).1;
        if p' < e {
          AlignedLater(s, p, e, t, q, f, p' - p);
          KeyIgnoresCase(s, p', e, t, q', f);
        }
        SameComponentFirst(s, p, e, t, q, f);
      }
    }
  }

  lemma SamePlusFirst(s: CString, p: nat, e: nat, t: CString, q: nat, f: nat)
    requires p < e <= |s| && q < f <= |t| && s[p] == '+' == t[q]
    requires KeyFrom(s, e, p + 1) == KeyFrom(t, f, q + 1)
    ensures KeyFrom(s, e, p) == KeyFrom(t, f, q)
  {
  }

  /** Equal components followed by equal keys. */
  lemma SameComponentFirst(s: CString, p: nat, e: nat, t: CString, q: nat, f: nat)
    requires p < e <= |s| && q < f <= |t| && s[p] != '+' && t[q] != '+'
    requires ComponentAt(s, p).0 == ComponentAt(t, q).0
    requires KeyFrom(s, e, ComponentAt(s, p).1) == KeyFrom(t, f, ComponentAt(t, q).1)
    ensures KeyFrom(s, e, p) == KeyFrom(t, f, q)
  {
  }

  // ---------- the C functions ----------

  /** strncasecmp(s + p, name, len) == 0 */
  predicate PrefixIgnoringCase(s: string, p: nat, name: string, len: nat)
    requires len <= |name|
  {
    forall k: nat | k < len :: ToLower(At(s, p + k)) == ToLower(name[k])
  }

  predicate IsStageName(name: string) {
    |name| >= 2 && forall k :: 0 <= k < |name| ==> 'a' <= name[k] <= 'z'
  }

  lemma AlphaRunReaches(s: string, p: nat, n: nat)
    requires p <= |s| && forall i: nat :: p <= i < p + n ==> IsAlpha(At(s, i))
    ensures AlphaEnd(s, p) >= p + n
  {
  }

  /** The test on one row of the stage table asks whether the whole run of letters spells it. */
  lemma StageTest(s: string, p: nat, name: string)
    requires p <= |s| && IsStageName(name)
    ensures (PrefixIgnoringCase(s, p, name, |name|) && !IsAlpha(At(s, p + |name|)))
       <==> Lower(s[p..AlphaEnd(s, p)]) == name
  {
    var e := AlphaEnd(s, p);
    var run := s[p..e];
    forall k: nat | k < |run| ensures Lower(run)[k] == ToLower(At(s, p + k)) && IsAlpha(s[p + k]) {
    }
    if PrefixIgnoringCase(s, p, name, |name|) && !IsAlpha(At(s, p + |name|)) {
      forall i: nat | p <= i < p + |name| ensures IsAlpha(At(s, i)) {
        assert ToLower(At(s, p + (i - p))) == ToLower(name[i - p]);
      }
      AlphaRunReaches(s, p, |name|);
      assert |run| == |name|;
      assert Lower(run) == name;
    }
    if Lower(run) == name {
      forall k: nat | k < |name| ensures ToLower(At(s, p + k)) == ToLower(name[k]) {
        assert Lower(run)[k] == name[k];
      }
    }
  }

  /** The next component of a body, and the position after its trailing separators. */
  method GetComponent(s: CString, position: nat) returns (component: Component, pos: nat)
    requires position < |s| && s[position] != '+'
    ensures (component, pos) == ComponentAt(s, position)
  {
    pos := position;
    var hasStage, hasPatchLevel := false, false;
    var n: int;
    if IsDigit(s[pos]) {
      n := StrToLL(s, pos);
      pos := DigitsEnd(s, pos);
    } else if s[pos] == '*' {
      n := -2;
      pos := pos + 1;
      while At(s, pos) != '\0' && At(s, pos) != '+'
        invariant pos <= |s| && StarEnd(s, pos) == StarEnd(s, position + 1)
        decreases |s| - pos
      {
        pos := pos + 1;
      }
    } else {
      n := -1;
      hasStage := true;
    }
    assert (n, pos, hasStage) == NumberPart(s, position);
    var a: int;
    ghost var start := pos;
    a, pos, hasPatchLevel := GetLetter(s, pos, hasStage);
    assert (a, pos, hasPatchLevel) == LetterPart(s, start, hasStage);
    var pl: int;
    if hasPatchLevel {
      if IsDigit(At(s, pos)) {
        pl := StrToLL(s, pos);
        pos := DigitsEnd(s, pos);
      } else {
        pl := -1;
      }
    } else {
      pl := 0;
    }
    ghost var after := pos;
    while IsSeparator(At(s, pos))
      invariant pos <= |s| && SeparatorEnd(s, pos) == SeparatorEnd(s, after)
      decreases |s| - pos
    {
      pos := pos + 1;
    }
    component := Component(n, a, pl);
  }

  /** The letter of a component, with the special suffixes. */
  method GetLetter(s: CString, start: nat, hasStage: bool)
    returns (a: int, pos: nat, hasPatchLevel: bool)
    requires start <= |s|
    ensures (a, pos, hasPatchLevel) == LetterPart(s, start, hasStage)
  {
    pos := start;
    if !IsAlpha(At(s, pos)) {
      return 0, pos, false;
    }
    hasPatchLevel := true;
    ghost var run := s[start..AlphaEnd(s, start)];
    if IsAlpha(At(s, pos + 1)) {
      var i := 0;
      while i < |STAGES|
        invariant 0 <= i <= |STAGES|
        invariant forall k :: 0 <= k < i ==> Lower(run) != STAGES[k].name
      {
        var name := STAGES[i].name;
        StageTest(s, start, name);
        if PrefixIgnoringCase(s, pos, name, |name|) && !IsAlpha(At(s, pos + |name|)) {
          assert Lower(run) == name && |run| == |name|;
          if hasStage {
            return STAGES[i].value, pos + |name|, true;
          }
          return 0, pos, false;
        }
        i := i + 1;
      }
      assert Lower(run) != STAGES[0].name && Lower(run) != STAGES[1].name && Lower(run) != STAGES[2].name;
      assert Lower(run) != STAGES[3].name && Lower(run) != STAGES[4].name;
    } else {
      assert |Lower(run)| == 1;
    }
    assert StageValue(run) == -1;
    a := ToLower(s[pos]) as int - 'a' as int + 1;
    pos := pos + 1;
    while IsAlpha(At(s, pos))
      invariant start < pos <= |s| && AlphaEnd(s, pos) == AlphaEnd(s, start)
      decreases |s| - pos
    {
      pos := pos + 1;
    }
  }

  /** Key of the whole body of a version string. */
  function BodyKey(name: CString): Key {
    var p := SplitVersion(name);
    KeyFrom(name, p.ve, p.v)
  }

  /** Epoch first, then the padded body, then the revision. */
  ghost predicate VersionLess(x: CString, y: CString) {
    var p, q := SplitVersion(x), SplitVersion(y);
    || p.epoch < q.epoch
    || (p.epoch == q.epoch && KeyLess(BodyKey(x), BodyKey(y)))
    || (p.epoch == q.epoch && !KeyLess(BodyKey(x), BodyKey(y)) && !KeyLess(BodyKey(y), BodyKey(x))
        && p.revision < q.revision)
  }

  /** strncasecmp(v1, v2, ve1 - v1) == 0 for bodies of equal length. */
  predicate EqualBodies(s: CString, p: nat, e: nat, t: CString, q: nat, f: nat)
    requires p <= e <= |s| && q <= f <= |t|
  {
    e - p == f - q && forall k: nat | k < e - p :: MatchAt(s, p, t, q, k)
  }

  /** -1, 0 or 1 as the first version is older than, equivalent to, or newer than the second. */
  method VersionCmp(pkg1: CString, pkg2: CString) returns (result: int)
    ensures result == -1 || result == 0 || result == 1
    ensures result == -1 <==> VersionLess(pkg1, pkg2)
    ensures result == 1 <==> VersionLess(pkg2, pkg1)
  {
    var s1, s2 := SplitVersion(pkg1), SplitVersion(pkg2);
    var v1, ve1, v2, ve2 := s1.v, s1.ve, s2.v, s2.ve;
    result := 0;
    ghost var k1, k2 := BodyKey(pkg1), BodyKey(pkg2);
    SignCases(k1, k2);
    if s1.epoch != s2.epoch {
      result := if s1.epoch < s2.epoch then -1 else 1;
    }
    if result == 0 {
      if !EqualBodies(pkg1, v1, ve1, pkg2, v2, ve2) {
        result := BodyCmp(pkg1, v1, ve1, pkg2, v2, ve2);
      } else {
        KeyIgnoresCase(pkg1, v1, ve1, pkg2, v2, ve2);
      }
    }
    if result == 0 && s1.revision != s2.revision {
      result := if s1.revision < s2.revision then -1 else 1;
    }
  }

  lemma SignCases(a: Key, b: Key)
    ensures KeySign(a, b) == -1 <==> KeyLess(a, b)
    ensures KeySign(a, b) == 1 <==> KeyLess(b, a)
    ensures a == b ==> KeySign(a, b) == 0
  {
    if KeyLess(a, b) { KeyLessIrreflexive(a, b); }
    if KeyLess(b, a) { KeyLessIrreflexive(b, a); }
  }

  /** What the remaining key says about the text at p. */
  lemma KeyFromStep(s: CString, e: nat, p: nat)
    requires e <= |s|
    ensures
      var k := KeyFrom(s, e, p);
      if p < e && s[p] != '+' then
        var (c, q) := ComponentAt(s, p);
        Head(k) != [] && First(k) == c && KeyEqual(KeyFrom(s, e, q), AfterComponent(k))
      else
        Head(k) == [] && First(k) == ZERO && AfterComponent(k) == k
        && AfterBlock(k) == KeyFrom(s, e, if p < e then p + 1 else p)
  {
  }

  lemma SkipEqualComponent(a: Key, b: Key, a': Key, b': Key)
    requires First(a) == First(b)
    requires KeyEqual(a', AfterComponent(a)) && KeyEqual(b', AfterComponent(b))
    ensures KeySign(a, b) == KeySign(a', b')
  {
    ComponentStepEqual(a, b);
    ComponentStepEqual(b, a);
    KeyLessRespectsEqual(a', AfterComponent(a), b');
    KeyLessRespectsEqual(b', AfterComponent(b), AfterComponent(a));
  }

  lemma SkipBlock(a: Key, b: Key)
    requires Head(a) == [] && Head(b) == []
    ensures KeySign(a, b) == KeySign(AfterBlock(a), AfterBlock(b))
  {
    BlockStep(a, b);
    BlockStep(b, a);
  }

  lemma DifferentComponent(a: Key, b: Key)
    requires First(a) != First(b)
    ensures KeySign(a, b) == if ComponentLess(First(a), First(b)) then -1 else 1
  {
    SignCases(a, b);
    if ComponentLess(First(a), First(b)) {
      ComponentStepLess(a, b);
    } else {
      ComponentStepLess(b, a);
    }
  }

  /** The component loop: it stops at the first difference of the two bodies. */
  method BodyCmp(s: CString, p: nat, e: nat, t: CString, q: nat, f: nat) returns (result: int)
    requires p <= e <= |s| && q <= f <= |t|
    ensures result == KeySign(KeyFrom(s, e, p), KeyFrom(t, f, q))
  {
    var v1: nat, v2: nat := p, q;
    result := 0;
    ghost var target := KeySign(KeyFrom(s, e, p), KeyFrom(t, f, q));
    while result == 0 && (v1 < e || v2 < f)
      invariant v1 <= |s| && v2 <= |t|
      invariant target == if result == 0 then KeySign(KeyFrom(s, e, v1), KeyFrom(t, f, v2)) else result
      decreases result == 0, |s| - v1 + |t| - v2
    {
      result, v1, v2 := BodyStep(s, e, v1, t, f, v2);
    }
    if result == 0 { EmptyKeys(s, e, v1, t, f, v2); }
  }

  /** One round of the loop: a verdict, or both positions moved past equal text. */
  method BodyStep(s: CString, e: nat, p: nat, t: CString, f: nat, q: nat)
    returns (result: int, v1: nat, v2: nat)
    requires p <= |s| && q <= |t| && e <= |s| && f <= |t| && (p < e || q < f)
    ensures p <= v1 <= |s| && q <= v2 <= |t| && (result == 0 ==> p < v1 || q < v2)
    ensures KeySign(KeyFrom(s, e, p), KeyFrom(t, f, q))
         == if result == 0 then KeySign(KeyFrom(s, e, v1), KeyFrom(t, f, v2)) else result
  {
    ghost var a, b := KeyFrom(s, e, p), KeyFrom(t, f, q);
    KeyFromStep(s, e, p);
    KeyFromStep(t, f, q);
    result, v1, v2 := 0, p, q;
    var block1, block2 := false, false;
    var c1, c2 := ZERO, ZERO;
    if v1 < e && s[v1] != '+' {
      c1, v1 := GetComponent(s, v1);
    } else {
      block1 := true;
    }
    if v2 < f && t[v2] != '+' {
      c2, v2 := GetComponent(t, v2);
    } else {
      block2 := true;
    }
    assert c1 == First(a) && c2 == First(b);
    if block1 && block2 {
      if v1 < e { v1 := v1 + 1; }
      if v2 < f { v2 := v2 + 1; }
      SkipBlock(a, b);
    } else if c1 != c2 {
      result := if ComponentLess(c1, c2) then -1 else 1;
      DifferentComponent(a, b);
    } else {
      SkipEqualComponent(a, b, KeyFrom(s, e, v1), KeyFrom(t, f, v2));
    }
  }

  lemma EmptyKeys(s: CString, e: nat, p: nat, t: CString, f: nat, q: nat)
    requires p >= e && q >= f && e <= |s| && f <= |t|
    ensures KeySign(KeyFrom(s, e, p), KeyFrom(t, f, q)) == 0
  {
    SignCases([], []);
  }

  // ---------- the order ----------

  ghost predicate SameVersion(x: CString, y: CString) {
    !VersionLess(x, y) && !VersionLess(y, x)
  }

  lemma NotLessIsTransitive(a: Key, b: Key, c: Key)
    requires !KeyLess(b, a) && !KeyLess(c, b)
    ensures !KeyLess(c, a)
    ensures KeyLess(a, c) || (!KeyLess(a, b) && !KeyLess(b, c))
  {
    KeyTrichotomy(a, b);
    KeyTrichotomy(b, c);
    if KeyLess(a, b) && KeyLess(b, c) {
      KeyLessTransitive(a, b, c);
      KeyLessIrreflexive(a, c);
    } else if KeyEqual(a, b) {
      KeyLessRespectsEqual(a, b, c);
    } else {
      KeyLessRespectsEqual(b, c, a);
      KeyLessIrreflexive(a, b);
    }
  }

  /** Two keys are ordered one way, or the other, or are equal once padded. */
  lemma {:induction false} KeyTrichotomy(a: Key, b: Key)
    ensures KeyLess(a, b) || KeyLess(b, a) || KeyEqual(a, b)
    decreases Size(a) + Size(b)
  {
    if a == [] && b == [] {
    } else if Head(a) == [] && Head(b) == [] {
      KeyTrichotomy(AfterBlock(a), AfterBlock(b));
      BlockStep(a, b);
      BlockStep(b, a);
      if KeyEqual(AfterBlock(a), AfterBlock(b)) {
        forall i: nat, j: nat ensures Padded(a, i, j) == Padded(b, i, j) {
          if i > 0 {
            AfterBlockShifts(a, i - 1, j);
            AfterBlockShifts(b, i - 1, j);
          }
        }
      }
    } else if ComponentLess(First(a), First(b)) {
      ComponentStepLess(a, b);
    } else if ComponentLess(First(b), First(a)) {
      ComponentStepLess(b, a);
    } else {
      KeyTrichotomy(AfterComponent(a), AfterComponent(b));
      ComponentStepEqual(a, b);
      ComponentStepEqual(b, a);
      if KeyEqual(AfterComponent(a), AfterComponent(b)) {
        forall i: nat, j: nat ensures Padded(a, i, j) == Padded(b, i, j) {
          if i > 0 || j > 0 {
            AfterComponentShifts(a, i, if i == 0 then j - 1 else j);
            AfterComponentShifts(b, i, if i == 0 then j - 1 else j);
          }
        }
      }
    }
  }

  function Size(k: Key): nat {
    if k == [] then 0 else 1 + |k[0]| + Size(k[1..])
  }

  /** The comparison orders all strings: it is irreflexive, and both "older than" and
      "equivalent to" are transitive. */
  lemma VersionOrder(x: CString, y: CString, z: CString)
    ensures !VersionLess(x, x)
    ensures VersionLess(x, y) ==> !VersionLess(y, x)
    ensures VersionLess(x, y) && VersionLess(y, z) ==> VersionLess(x, z)
    ensures SameVersion(x, y) && SameVersion(y, z) ==> SameVersion(x, z)
    ensures !VersionLess(y, x) && !VersionLess(z, y) ==> !VersionLess(z, x)
  {
    var a, b, c := BodyKey(x), BodyKey(y), BodyKey(z);
    SignCases(a, a);
    SignCases(a, b);
    SignCases(b, c);
    SignCases(a, c);
    if !KeyLess(b, a) && !KeyLess(c, b) { NotLessIsTransitive(a, b, c); }
    if !KeyLess(a, b) && !KeyLess(b, c) { NotLessIsTransitive(c, b, a); }
  }

  /** Not newer than something older is older. */
  lemma LessAfterNotLess(x: CString, y: CString, z: CString)
    requires !VersionLess(y, x) && VersionLess(y, z)
    ensures VersionLess(x, z)
  {
    VersionOrder(z, x, y);
    VersionOrder(y, z, x);
    VersionOrder(x, z, y);
  }
}
