/** C strings in the "C" locale: character classes, case folding, and the number
    parsers of the C library as functions of the text they read. */
module CStrings {

  /** The bytes of a C string up to, and not including, the terminating NUL. */
  type CString = s: string | forall k :: 0 <= k < |s| ==> s[k] != '\0'

  /** Reading one past the end of a C string yields its terminator. */
  function At(s: string, p: nat): char {
    if p < |s| then s[p] else '\0'
  }

  predicate IsDigit(c: char) { '0' <= c <= '9' }

  predicate IsAlpha(c: char) { 'a' <= c <= 'z' || 'A' <= c <= 'Z' }

  predicate IsSpace(c: char) { c == ' ' || '\t' <= c <= '\r' }

  function ToLower(c: char): char {
    if 'A' <= c <= 'Z' then c - 'A' + 'a' else c
  }

  function Lower(s: string): string {
    seq(|s|, i requires 0 <= i < |s| => ToLower(s[i]))
  }

  /** End of the run of digits that starts at p. */
  function DigitsEnd(s: string, p: nat): (e: nat)
    requires p <= |s|
    ensures p <= e <= |s|
    ensures forall k :: p <= k < e ==> IsDigit(s[k])
    ensures !IsDigit(At(s, e))
    decreases |s| - p
  {
    if IsDigit(At(s, p)) then DigitsEnd(s, p + 1) else p
  }

  /** End of the run of letters that starts at p. */
  function AlphaEnd(s: string, p: nat): (e: nat)
    requires p <= |s|
    ensures p <= e <= |s|
    ensures forall k :: p <= k < e ==> IsAlpha(s[k])
    ensures !IsAlpha(At(s, e))
    decreases |s| - p
  {
    if IsAlpha(At(s, p)) then AlphaEnd(s, p + 1) else p
  }

  function SpaceEnd(s: string, p: nat): (e: nat)
    requires p <= |s|
    ensures p <= e <= |s|
    decreases |s| - p
  {
    if IsSpace(At(s, p)) then SpaceEnd(s, p + 1) else p
  }

  /** Decimal value of a string of digits. */
  function Value(digits: string): nat
    requires forall k :: 0 <= k < |digits| ==> IsDigit(digits[k])
  {
    if digits == [] then 0
    else
      var last := digits[|digits| - 1];
      assert IsDigit(last);
      10 * Value(digits[..|digits| - 1]) + (last as nat - '0' as nat)
  }

  const LLONG_MAX: nat := 0x7FFF_FFFF_FFFF_FFFF
  const ULONG_MAX: nat := 0xFFFF_FFFF_FFFF_FFFF

  /** strtoll on text that starts with a digit; out-of-range values saturate. */
  function StrToLL(s: string, p: nat): nat
    requires p <= |s|
  {
    var v := Value(s[p..DigitsEnd(s, p)]);
    if v > LLONG_MAX then LLONG_MAX else v
  }

  /** strtoul: blanks, an optional sign, digits; a minus sign negates modulo 2^64. */
  function StrToUL(s: string, p: nat): nat
    requires p <= |s|
  {
    var b := SpaceEnd(s, p);
    var signed := At(s, b) == '+' || At(s, b) == '-';
    var d := if signed then b + 1 else b;
    var v := Value(s[d..DigitsEnd(s, d)]);
    if v > ULONG_MAX then ULONG_MAX
    else if At(s, b) == '-' && v > 0 then ULONG_MAX + 1 - v
    else v
  }

  /** strrchr from position `from`: the last occurrence of c, if any. */
  function LastIndexOf(s: string, c: char, from: nat): (r: int)
    requires from <= |s|
    ensures r == -1 || from <= r < |s|
    ensures r != -1 ==> s[r] == c && forall k :: r < k < |s| ==> s[k] != c
    ensures r == -1 ==> forall k :: from <= k < |s| ==> s[k] != c
    decreases |s| - from
  {
    if from == |s| then -1
    else
      var r := LastIndexOf(s, c, from + 1);
      if r != -1 then r else if s[from] == c then from else -1
  }
}
