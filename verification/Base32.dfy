/** The digest encoder (pkg_checksum_encode_base32 in libpkg/pkg_checksum.c): bytes to base-32
    symbols, low bits first, with the bits that do not fill a symbol carried to the next byte. */
module Base32 {

  type Byte = n: nat | n < 256

  const ALPHABET: string := "ybndrfg8ejkmcpqxot1uwisza345h769"

  // ---------- bits ----------

  function BitOr(a: nat, b: nat): nat
    decreases a + b
  {
    if a == 0 && b == 0 then 0
    else 2 * BitOr(a / 2, b / 2) + (if a % 2 == 1 || b % 2 == 1 then 1 else 0)
  }

  function BitAnd(a: nat, b: nat): nat
    decreases a + b
  {
    if a == 0 || b == 0 then 0
    else 2 * BitAnd(a / 2, b / 2) + (if a % 2 == 1 && b % 2 == 1 then 1 else 0)
  }

  function Shl(a: nat, k: nat): nat { if k == 0 then a else 2 * Shl(a, k - 1) }

  function Shr(a: nat, k: nat): nat { if k == 0 then a else Shr(a / 2, k - 1) }

  function Ones(k: nat): nat { if k == 0 then 0 else 2 * Ones(k - 1) + 1 }

  function LowBits(a: nat, k: nat): nat {
    if k == 0 then 0 else 2 * LowBits(a / 2, k - 1) + a % 2
  }

  /** Or-ing a number above k carried bits adds it. */
  lemma {:induction false} OrAbove(a: nat, b: nat, k: nat)
    requires a <= Ones(k)
    ensures BitOr(a, Shl(b, k)) == a + Shl(b, k)
  {
    if k == 0 {
      OrZero(b);
    } else {
      OrAbove(a / 2, b, k - 1);
    }
  }

  lemma {:induction false} OrZero(b: nat)
    ensures BitOr(0, b) == b
  {
    if b > 0 {
      OrZero(b / 2);
    }
  }

  lemma AndStep(a: nat, m: nat)
    ensures BitAnd(a, 2 * m + 1) == 2 * BitAnd(a / 2, m) + a % 2
  {
    assert (2 * m + 1) / 2 == m;
  }

  lemma {:induction false} AndOnes(a: nat, k: nat)
    ensures BitAnd(a, Ones(k)) == LowBits(a, k)
  {
    if k > 0 {
      AndOnes(a / 2, k - 1);
      AndStep(a, Ones(k - 1));
    }
  }

  function Remainder(a: nat, k: nat): nat {
    match k
    case 0 => 0
    case 1 => a % 2
    case 2 => a % 4
    case 3 => a % 8
    case 4 => a % 16
    case _ => a % 32
  }

  lemma Halving4(a: nat)
    ensures a % 4 == 2 * ((a / 2) % 2) + a % 2
  {
  }

  lemma Halving8(a: nat)
    ensures a % 8 == 2 * ((a / 2) % 4) + a % 2
  {
  }

  lemma Halving16(a: nat)
    ensures a % 16 == 2 * ((a / 2) % 8) + a % 2
  {
  }

  lemma Halving32(a: nat)
    ensures a % 32 == 2 * ((a / 2) % 16) + a % 2
  {
  }

  lemma {:induction false} LowBitsAreRemainder(a: nat, k: nat)
    requires k <= 5
    ensures LowBits(a, k) == Remainder(a, k)
  {
    if k > 0 {
      LowBitsAreRemainder(a / 2, k - 1);
      Halving4(a);
      Halving8(a);
      Halving16(a);
      Halving32(a);
    }
  }

  /** Masking with 3 keeps the low two bits, masking with 0x1F the low five. */
  lemma Mask(a: nat)
    ensures BitAnd(a, 3) == a % 4 && BitAnd(a, 0x1F) == a % 32
  {
    AndOnes(a, 2);
    AndOnes(a, 5);
    assert Ones(2) == 3 && Ones(5) == 0x1F;
    LowBitsAreRemainder(a, 2);
    LowBitsAreRemainder(a, 5);
  }

  lemma {:induction false} ShiftMore(x: nat, j: nat, k: nat)
    ensures Shr(x, j + k) == Shr(Shr(x, j), k)
  {
    if j > 0 {
      ShiftMore(x / 2, j - 1, k);
    }
  }

  lemma ShiftFive(x: nat)
    ensures Shr(x, 5) == x / 32
  {
    assert Shr(x, 5) == Shr(x / 2, 4);
    assert Shr(x / 2, 4) == Shr(x / 4, 3);
    assert Shr(x / 4, 3) == Shr(x / 8, 2);
    assert Shr(x / 8, 2) == Shr(x / 16, 1);
    assert Shr(x / 16, 1) == Shr(x / 32, 0);
  }

  lemma RightShifts(x: nat)
    ensures Shr(x, 5) == x / 32 && Shr(x, 10) == x / 1024
  {
    ShiftMore(x, 5, 5);
    ShiftFive(x);
    ShiftFive(x / 32);
  }

  // ---------- numbers ----------

  /** Bits per digit: base 32 or base 256. */
  type Width = w: nat | w == 5 || w == 8 witness 5

  function Low(w: Width, v: nat): nat { if w == 5 then v % 32 else v % 256 }

  function High(w: Width, v: nat): nat { if w == 5 then v / 32 else v / 256 }

  function Scale(w: Width, v: nat): nat { if w == 5 then 32 * v else 256 * v }

  predicate AreDigits(w: Width, digits: seq<nat>) {
    forall k :: 0 <= k < |digits| ==> digits[k] < if w == 5 then 32 else 256
  }

  /** Value of little-endian digits with the number `above` on top of them. */
  function ValueAbove(w: Width, digits: seq<nat>, above: nat): nat {
    if digits == [] then above else digits[0] + Scale(w, ValueAbove(w, digits[1..], above))
  }

  function ValueOf(w: Width, digits: seq<nat>): nat { ValueAbove(w, digits, 0) }

  /** The first n little-endian digits of v. */
  function DigitsOf(w: Width, v: nat, n: nat): seq<nat> {
    if n == 0 then [] else [Low(w, v)] + DigitsOf(w, High(w, v), n - 1)
  }

  lemma Unscale(w: Width, d: nat, v: nat)
    requires d < if w == 5 then 32 else 256
    ensures Low(w, d + Scale(w, v)) == d && High(w, d + Scale(w, v)) == v
  {
    if w == 5 {
      assert (d + 32 * v) / 32 == v;
    } else {
      assert (d + 256 * v) / 256 == v;
    }
  }

  /** Taking the digits of a value gives the digits back. */
  lemma {:induction false} DigitsOfValue(w: Width, digits: seq<nat>)
    requires AreDigits(w, digits)
    ensures DigitsOf(w, ValueOf(w, digits), |digits|) == digits
  {
    if digits != [] {
      DigitsOfValue(w, digits[1..]);
      Unscale(w, digits[0], ValueOf(w, digits[1..]));
      assert digits == [digits[0]] + digits[1..];
    }
  }

  lemma {:induction false} OneMoreDigit(w: Width, digits: seq<nat>, d: nat, above: nat)
    ensures ValueAbove(w, digits + [d], above) == ValueAbove(w, digits, d + Scale(w, above))
  {
    if digits == [] {
      assert ([d])[1..] == [];
    } else {
      assert (digits + [d])[1..] == digits[1..] + [d];
      OneMoreDigit(w, digits[1..], d, above);
    }
  }

  // ---------- carrying ----------

  /** 2 to the number of bits carried after i bytes. */
  function Room(i: nat): nat {
    match i % 5
    case 0 => 1
    case 1 => 8
    case 2 => 2
    case 3 => 16
    case _ => 4
  }

  function CarryBits(i: nat): nat {
    match i % 5
    case 0 => 0
    case 1 => 3
    case 2 => 1
    case 3 => 4
    case _ => 2
  }

  function Carry(remain: int): nat { if remain < 0 then 0 else remain }

  /** The text shows the symbols. */
  predicate Holds(out: seq<char>, symbols: seq<nat>) {
    && AreDigits(5, symbols) && |symbols| <= |out|
    && forall k :: 0 <= k < |symbols| ==> out[k] == ALPHABET[symbols[k]]
  }

  /** The first i bytes are the symbols and the number x above them; whatever comes above those
      bytes belongs `gap` times higher. */
  ghost predicate Same(input: seq<Byte>, i: nat, symbols: seq<nat>, x: nat, gap: nat)
    requires i <= |input|
  {
    forall h: nat :: ValueAbove(8, input[..i], h) == ValueAbove(5, symbols, x + gap * h)
  }

  /** What has been written after i bytes; the source keeps -1 when no bits are carried. */
  ghost predicate Written(input: seq<Byte>, i: nat, out: seq<char>, symbols: seq<nat>, remain: int) {
    && i <= |input| && Holds(out, symbols)
    && (if i % 5 == 0 then remain == -1 else 0 <= remain < Room(i))
    && 5 * |symbols| + CarryBits(i) == 8 * i
    && Same(input, i, symbols, Carry(remain), Room(i))
  }

  lemma Absorb(input: seq<Byte>, i: nat, symbols: seq<nat>, carry: nat, room: nat)
    requires i < |input| && Same(input, i, symbols, carry, room)
    ensures Same(input, i + 1, symbols, carry + room * input[i], 256 * room)
  {
    assert input[..i + 1] == input[..i] + [input[i]];
    forall h: nat
      ensures ValueAbove(8, input[..i + 1], h) == ValueAbove(5, symbols, carry + room * input[i] + 256 * room * h)
    {
      AbsorbAt(input[..i], input[i], symbols, carry, room, h);
    }
  }

  lemma AbsorbAt(prefix: seq<Byte>, b: Byte, symbols: seq<nat>, carry: nat, room: nat, h: nat)
    requires ValueAbove(8, prefix, b + 256 * h) == ValueAbove(5, symbols, carry + room * (b + 256 * h))
    ensures ValueAbove(8, prefix + [b], h) == ValueAbove(5, symbols, carry + room * b + 256 * room * h)
  {
    OneMoreDigit(8, prefix, b, h);
    Spread(room, b, h);
  }

  lemma Spread(room: nat, b: nat, h: nat)
    ensures room * (b + 256 * h) == room * b + 256 * room * h
  {
  }

  lemma Emit(input: seq<Byte>, i: nat, symbols: seq<nat>, x: nat, gap: nat)
    requires i <= |input| && Same(input, i, symbols, x, 32 * gap)
    ensures Same(input, i, symbols + [x % 32], x / 32, gap)
  {
    forall h: nat
      ensures ValueAbove(8, input[..i], h) == ValueAbove(5, symbols + [x % 32], x / 32 + gap * h)
    {
      EmitAt(symbols, x, gap, h);
    }
  }

  lemma EmitAt(symbols: seq<nat>, x: nat, gap: nat, h: nat)
    ensures ValueAbove(5, symbols, x + 32 * gap * h) == ValueAbove(5, symbols + [x % 32], x / 32 + gap * h)
  {
    OneMoreDigit(5, symbols, x % 32, x / 32 + gap * h);
    assert 32 * gap * h == 32 * (gap * h);
  }

  lemma LeftShifts(b: nat)
    ensures Shl(b, 1) == 2 * b && Shl(b, 2) == 4 * b && Shl(b, 3) == 8 * b && Shl(b, 4) == 16 * b
  {
    assert Shl(b, 1) == 2 * Shl(b, 0);
    assert Shl(b, 2) == 2 * Shl(b, 1);
    assert Shl(b, 3) == 2 * Shl(b, 2);
  }

  lemma OrAddsByte(remain: nat, i: nat, b: Byte)
    requires remain < Room(i)
    ensures BitOr(remain, Shl(b, CarryBits(i))) == remain + Room(i) * b
    ensures remain + Room(i) * b < 256 * Room(i)
  {
    LeftShifts(b);
    OrAbove(remain, b, CarryBits(i));
  }

  // ---------- the encoder ----------

  /** `out[r++] = b32[x & 0x1F]` */
  method PutOne(input: seq<Byte>, i: nat, out: array<char>, r0: nat, x: nat, ghost gap: nat, ghost symbols0: seq<nat>)
    returns (r: nat, ghost symbols: seq<nat>)
    requires i <= |input| && Same(input, i, symbols0, x, 32 * gap)
    requires Holds(out[..], symbols0) && r0 == |symbols0| < out.Length
    modifies out
    ensures r == |symbols| == r0 + 1
    ensures Holds(out[..], symbols) && Same(input, i, symbols, x / 32, gap)
    ensures forall k :: r <= k < out.Length ==> out[k] == old(out[k])
  {
    Mask(x);
    Emit(input, i, symbols0, x, gap);
    out[r0] := ALPHABET[BitAnd(x, 0x1F)];
    r, symbols := r0 + 1, symbols0 + [x % 32];
  }

  /** The same, then `out[r++] = b32[x >> 5 & 0x1F]`. */
  method PutTwo(input: seq<Byte>, i: nat, out: array<char>, r0: nat, x: nat, ghost gap: nat, ghost symbols0: seq<nat>)
    returns (r: nat, ghost symbols: seq<nat>)
    requires i <= |input| && Same(input, i, symbols0, x, 1024 * gap)
    requires Holds(out[..], symbols0) && r0 == |symbols0| && r0 + 1 < out.Length
    modifies out
    ensures r == |symbols| == r0 + 2
    ensures Holds(out[..], symbols) && Same(input, i, symbols, x / 1024, gap)
    ensures forall k :: r <= k < out.Length ==> out[k] == old(out[k])
  {
    RightShifts(x);
    assert 32 * (32 * gap) == 1024 * gap;
    r, symbols := PutOne(input, i, out, r0, x, 32 * gap, symbols0);
    r, symbols := PutOne(input, i, out, r, Shr(x, 5), gap, symbols);
    assert x / 32 / 32 == x / 1024;
  }

  /** The first line of each case of the switch on i % 5: the byte above the carried bits. */
  method Gather(i: nat, remain: int, b: Byte) returns (x: nat)
    requires if i % 5 == 0 then remain == -1 else 0 <= remain < Room(i)
    ensures x == Carry(remain) + Room(i) * b && x < 256 * Room(i)
  {
    OrAddsByte(Carry(remain), i, b);
    match i % 5 {
      case 0 => x := b;
      case 1 => x := BitOr(remain, Shl(b, 3));
      case 2 => x := BitOr(remain, Shl(b, 1));
      case 3 => x := BitOr(remain, Shl(b, 4));
      case _ => x := BitOr(remain, Shl(b, 2));
    }
  }

  /** The last line of each case: the bits that stay. */
  method Keep(i: nat, x: nat) returns (remain: int)
    requires x < 256 * Room(i)
    ensures if i % 5 == 4 then remain == -1 else 0 <= remain < Room(i + 1)
    ensures Carry(remain) == if i % 5 == 0 || i % 5 == 2 then x / 32 else x / 1024
  {
    Leftover(i, x);
    RightShifts(x);
    match i % 5 {
      case 0 => remain := Shr(x, 5);
      case 1 => remain := Shr(x, 10);
      case 2 => remain := Shr(x, 5);
      case 3 =>
        Mask(x / 1024);
        remain := BitAnd(Shr(x, 10), 0x3);
      case _ => remain := -1;
    }
  }

  /** The switch on i % 5: one symbol in cases 0 and 2, two in the others. */
  method EncodeByte(input: seq<Byte>, i: nat, out: array<char>, r0: nat, remain0: int, ghost symbols0: seq<nat>)
    returns (remain: int, r: nat, ghost symbols: seq<nat>)
    requires i < |input| && Written(input, i, out[..], symbols0, remain0) && r0 == |symbols0|
    requires SymbolCount(i + 1) <= out.Length
    modifies out
    ensures Written(input, i + 1, out[..], symbols, remain) && r == |symbols|
    ensures forall k :: r <= k < out.Length ==> out[k] == old(out[k])
  {
    Absorb(input, i, symbols0, Carry(remain0), Room(i));
    NextRoom(i);
    var x := Gather(i, remain0, input[i]);
    remain := Keep(i, x);
    if i % 5 == 0 || i % 5 == 2 {
      r, symbols := PutOne(input, i + 1, out, r0, x, Room(i + 1), symbols0);
    } else {
      r, symbols := PutTwo(input, i + 1, out, r0, x, Room(i + 1), symbols0);
    }
    Settle(input, i + 1, out[..], symbols, remain);
  }

  lemma NextRoom(i: nat)
    ensures i % 5 == 0 ==> (i + 1) % 5 == 1 && Room(i) == 1 && Room(i + 1) == 8 && CarryBits(i + 1) == 3
    ensures i % 5 == 1 ==> (i + 1) % 5 == 2 && Room(i) == 8 && Room(i + 1) == 2 && CarryBits(i + 1) == 1
    ensures i % 5 == 2 ==> (i + 1) % 5 == 3 && Room(i) == 2 && Room(i + 1) == 16 && CarryBits(i + 1) == 4
    ensures i % 5 == 3 ==> (i + 1) % 5 == 4 && Room(i) == 16 && Room(i + 1) == 4 && CarryBits(i + 1) == 2
    ensures i % 5 == 4 ==> (i + 1) % 5 == 0 && Room(i) == 4 && Room(i + 1) == 1 && CarryBits(i + 1) == 0
  {
  }

  /** What is left of x above the symbols written for byte i. */
  lemma Leftover(i: nat, x: nat)
    requires x < 256 * Room(i)
    ensures i % 5 == 0 ==> x / 32 < 8
    ensures i % 5 == 1 ==> x / 1024 < 2
    ensures i % 5 == 2 ==> x / 32 < 16
    ensures i % 5 == 3 ==> x / 1024 < 4
    ensures i % 5 == 4 ==> x / 1024 == 0
  {
  }

  lemma Settle(input: seq<Byte>, i: nat, out: seq<char>, symbols: seq<nat>, remain: int)
    requires i <= |input| && Holds(out, symbols) && 5 * |symbols| + CarryBits(i) == 8 * i
    requires if i % 5 == 0 then remain == -1 else 0 <= remain < Room(i)
    requires Same(input, i, symbols, Carry(remain), Room(i))
    ensures Written(input, i, out, symbols, remain)
  {
  }

  // ---------- the whole input ----------

  /** 8n/5, rounded up. */
  function SymbolCount(n: nat): nat { (8 * n + 4) / 5 }

  predicate IsEncodingBy(input: seq<Byte>, text: seq<char>, symbols: seq<nat>) {
    && |symbols| == |text| == SymbolCount(|input|)
    && Holds(text, symbols) && ValueOf(5, symbols) == ValueOf(8, input)
  }

  /** The text has the right length and, read as little-endian base-32 digits, the value of the
      bytes read as little-endian base-256 digits. */
  ghost predicate IsEncoding(input: seq<Byte>, text: seq<char>) {
    exists symbols :: IsEncodingBy(input, text, symbols)
  }

  /** The bits left after the last byte, as a symbol of their own. */
  method PutRest(input: seq<Byte>, out: array<char>, r0: nat, remain: int, ghost symbols0: seq<nat>)
    returns (r: nat, ghost symbols: seq<nat>)
    requires Written(input, |input|, out[..], symbols0, remain) && r0 == |symbols0|
    requires SymbolCount(|input|) < out.Length
    modifies out
    ensures r == SymbolCount(|input|) && IsEncodingBy(input, out[..r], symbols)
    ensures forall k :: r <= k < out.Length ==> out[k] == old(out[k])
  {
    assert input[..|input|] == input;
    r, symbols := r0, symbols0;
    if remain >= 0 {
      OneMoreDigit(5, symbols, remain, 0);
      out[r] := ALPHABET[remain];
      symbols, r := symbols + [remain], r + 1;
    }
    assert ValueAbove(8, input, 0) == ValueAbove(5, symbols0, Carry(remain) + Room(|input|) * 0);
  }

  /** Symbols written while the first i bytes are read: one in cases 0 and 2 of the switch, two
      in the others. */
  function Emitted(i: nat): nat {
    if i == 0 then 0
    else Emitted(i - 1) + (if (i - 1) % 5 == 0 || (i - 1) % 5 == 2 then 1 else 2)
  }

  /** Slots of the output that are written for n bytes: none when the capacity test refuses,
      otherwise the symbols, one more for left-over bits, and the NUL. */
  function SlotsWritten(n: nat, outlen: nat): nat {
    if outlen < n * 8 / 5 then 0 else Emitted(n) + (if n % 5 == 0 then 0 else 1) + 1
  }

  lemma {:induction false} EmittedSoFar(i: nat)
    ensures 5 * Emitted(i) + CarryBits(i) == 8 * i
  {
    if i > 0 {
      EmittedSoFar(i - 1);
      NextRoom(i - 1);
    }
  }

  lemma SlotsAreSymbolsAndNul(n: nat, outlen: nat)
    requires outlen >= n * 8 / 5
    ensures SlotsWritten(n, outlen) == SymbolCount(n) + 1
  {
    EmittedSoFar(n);
  }

  /** pkg_checksum_encode_base32: nothing when the output is shorter than 8n/5 rounded down;
      otherwise the symbols of the input and a NUL. The result is the number of slots written. */
  method Encode(input: seq<Byte>, out: array<char>, outlen: nat) returns (slots: nat)
    requires SlotsWritten(|input|, outlen) <= out.Length
    modifies out
    ensures slots == SlotsWritten(|input|, outlen)
    ensures out[slots..] == old(out[slots..])
    ensures outlen >= |input| * 8 / 5 ==>
      && slots == SymbolCount(|input|) + 1
      && IsEncoding(input, out[..slots - 1])
      && out[slots - 1] == '\0'
  {
    if outlen < |input| * 8 / 5 {
      return 0;
    }
    SlotsAreSymbolsAndNul(|input|, outlen);
    var remain, r := -1, 0;
    ghost var symbols: seq<nat> := [];
    for i := 0 to |input|
      invariant Written(input, i, out[..], symbols, remain) && r == |symbols|
      invariant forall k :: SymbolCount(|input|) < k < out.Length ==> out[k] == old(out[k])
    {
      remain, r, symbols := EncodeByte(input, i, out, r, remain, symbols);
    }
    r, symbols := PutRest(input, out, r, remain, symbols);
    out[r] := '\0';
    assert IsEncodingBy(input, out[..r], symbols);
    slots := r + 1;
  }

  // ---------- the capacity test ----------

  /** With a buffer of exactly `outlen` slots every write stays inside it in these cases only. */
  lemma WritesStayInsideIff(n: nat, outlen: nat)
    ensures SlotsWritten(n, outlen) <= outlen <==> outlen < n * 8 / 5 || outlen >= SymbolCount(n) + 1
  {
    if outlen >= n * 8 / 5 {
      SlotsAreSymbolsAndNul(n, outlen);
    }
  }

  /** The sizes that pass the test and are too small. */
  function Overruns(n: nat): set<nat> {
    set outlen | 0 <= outlen <= 8 * n + 1 && SlotsWritten(n, outlen) > outlen
  }

  lemma RoundedUp(n: nat)
    ensures SymbolCount(n) == n * 8 / 5 + if n % 5 == 0 then 0 else 1
  {
    var five, rest := n / 5, n % 5;
    assert n == 5 * five + rest;
    assert n * 8 / 5 == 8 * five + rest * 8 / 5 && (8 * n + 4) / 5 == 8 * five + (8 * rest + 4) / 5;
  }

  lemma OverrunsAreFew(n: nat)
    ensures forall outlen: nat :: outlen in Overruns(n) <==> SlotsWritten(n, outlen) > outlen
    ensures |Overruns(n)| == if n % 5 == 0 then 1 else 2
  {
    RoundedUp(n);
    var least := n * 8 / 5;
    forall outlen: nat
      ensures SlotsWritten(n, outlen) > outlen <==> least <= outlen <= SymbolCount(n)
    {
      WritesStayInsideIff(n, outlen);
    }
    assert least <= 8 * n;
    assert Overruns(n) == if n % 5 == 0 then {least} else {least, least + 1};
  }

  /** One byte into one slot passes the test and writes three; a SHA-256 digest into the 70 slots
      its caller leaves is written in full. */
  lemma OneByteOverruns()
    ensures 1 >= 1 * 8 / 5 && SlotsWritten(1, 1) == 3
    ensures SlotsWritten(32, 70) == 53
  {
    SlotsAreSymbolsAndNul(1, 1);
    SlotsAreSymbolsAndNul(32, 70);
  }

  /** The call of pkg_checksum_generate, which passes the size of what is left of its buffer. */
  method EncodeInto(input: seq<Byte>, out: array<char>) returns (slots: nat)
    requires out.Length < |input| * 8 / 5 || out.Length >= SymbolCount(|input|) + 1
    modifies out
    ensures if slots == 0 then out[..] == old(out[..])
            else 0 < slots <= out.Length && IsEncoding(input, out[..slots - 1]) && out[slots - 1] == '\0'
    ensures slots == 0 <==> out.Length < |input| * 8 / 5
  {
    WritesStayInsideIff(|input|, out.Length);
    slots := Encode(input, out, out.Length);
  }

  // ---------- decoding ----------

  function IndexOf(c: char, from: nat): (k: nat)
    requires from <= |ALPHABET|
    ensures from <= k <= |ALPHABET| && (k < |ALPHABET| ==> ALPHABET[k] == c)
    decreases |ALPHABET| - from
  {
    if from == |ALPHABET| || ALPHABET[from] == c then from else IndexOf(c, from + 1)
  }

  function SymbolsIn(text: string): seq<nat> {
    seq(|text|, k requires 0 <= k < |text| => IndexOf(text[k], 0))
  }

  /** The n bytes whose little-endian value the text shows. */
  function Decode(text: string, n: nat): seq<nat> {
    DigitsOf(8, ValueOf(5, SymbolsIn(text)), n)
  }

  lemma {:induction false} IndexFound(k: nat, from: nat)
    requires from <= k < |ALPHABET|
    ensures IndexOf(ALPHABET[k], from) == k
    decreases k - from
  {
    AlphabetIsDistinct();
    if from < k {
      IndexFound(k, from + 1);
    }
  }

  lemma AlphabetIsDistinct()
    ensures |ALPHABET| == 32 && forall i, k :: 0 <= i < k < 32 ==> ALPHABET[i] != ALPHABET[k]
  {
  }

  /** Decoding undoes encoding. */
  lemma DecodeUndoesEncode(input: seq<Byte>, text: string)
    requires IsEncoding(input, text)
    ensures Decode(text, |input|) == input
  {
    var symbols :| IsEncodingBy(input, text, symbols);
    AlphabetIsDistinct();
    forall k | 0 <= k < |text| ensures SymbolsIn(text)[k] == symbols[k] {
      IndexFound(symbols[k], 0);
    }
    assert SymbolsIn(text) == symbols;
    DigitsOfValue(8, input);
  }

  lemma EncodingIsUnique(input: seq<Byte>, s: string, t: string)
    requires IsEncoding(input, s) && IsEncoding(input, t)
    ensures s == t
  {
    var x :| IsEncodingBy(input, s, x);
    var y :| IsEncodingBy(input, t, y);
    DigitsOfValue(5, x);
    DigitsOfValue(5, y);
  }

  /** Inputs of one length have the same encoding only when they are the same input. */
  lemma EncodingIsInjective(a: seq<Byte>, b: seq<Byte>, s: string, t: string)
    requires |a| == |b| && IsEncoding(a, s) && IsEncoding(b, t)
    ensures s == t <==> a == b
  {
    if a == b {
      EncodingIsUnique(a, s, t);
    } else {
      DecodeUndoesEncode(a, s);
      DecodeUndoesEncode(b, t);
    }
  }
}
