/** The framed stream of signatures and keys between the sandboxed extractor and its parent
    (libpkg/pkg_repo.c): type, name length, name, data length, data, with 4-byte integers. */
module Sigkeys {
  import opened Lists

  type Byte = n: nat | n < 256

  type Bytes = seq<Byte>

  const MAXPATHLEN := 1024

  datatype Kind = Signature | PublicKey

  /** One archive member `name.sig` or `name.pub`. */
  datatype Member = Member(kind: Kind, name: Bytes, data: Bytes)

  /** What is known about one key name. */
  datatype Cert = Cert(sig: Option<Bytes>, cert: Option<Bytes>)

  type Table = map<Bytes, Cert>

  // ---------- integers ----------

  function IntBytes(n: nat): Bytes
    requires n < 0x8000_0000
  {
    [n % 256, n / 256 % 256, n / 65536 % 256, n / 16777216]
  }

  function At(b: Bytes, k: nat): int
    requires k < |b|
  {
    b[k]
  }

  /** A signed 32-bit integer, low byte first. */
  function IntAt(b: Bytes): int
    requires |b| >= 4
  {
    var u := At(b, 0) + 256 * At(b, 1) + 65536 * At(b, 2) + 16777216 * At(b, 3);
    if u < 0x8000_0000 then u else u - 0x1_0000_0000
  }

  lemma IntRoundTrip(n: nat, rest: Bytes)
    requires n < 0x8000_0000
    ensures IntAt(IntBytes(n) + rest) == n && (IntBytes(n) + rest)[4..] == rest
  {
    assert n / 256 == 256 * (n / 65536) + n / 256 % 256;
    assert n / 65536 == 256 * (n / 16777216) + n / 65536 % 256;
  }

  lemma IntBytesOf(b: Bytes)
    requires |b| >= 4 && IntAt(b) >= 0
    ensures IntAt(b) < 0x8000_0000 && IntBytes(IntAt(b)) == b[..4]
  {
    FourDigits(At(b, 0), At(b, 1), At(b, 2), At(b, 3));
  }

  lemma FourDigits(b0: Byte, b1: Byte, b2: Byte, b3: Byte)
    ensures
      var n: int := (b0 as int) + 256 * (b1 as int) + 65536 * (b2 as int) + 16777216 * (b3 as int);
      && n % 256 == b0 && n / 256 % 256 == b1 && n / 65536 % 256 == b2 && n / 16777216 == b3
  {
    var c0: int, c1: int, c2: int, c3: int := b0, b1, b2, b3;
    var high := c2 + 256 * c3;
    var n := c0 + 256 * (c1 + 256 * high);
    assert n / 256 == c1 + 256 * high;
    assert n / 65536 == high;
    assert high / 256 == c3;
  }

  // ---------- the stream ----------

  /** Members the stream can carry: a name that fits a path buffer and has no NUL, some data. */
  predicate Fits(r: Member) {
    && 0 < |r.name| < MAXPATHLEN && 0 !in r.name
    && 0 < |r.data| < 0x8000_0000
  }

  function TypeByte(kind: Kind): Byte { if kind.Signature? then 0 else 1 }

  function Frame(r: Member): Bytes
    requires |r.name| < 0x8000_0000 && |r.data| < 0x8000_0000
  {
    [TypeByte(r.kind)] + (IntBytes(|r.name|) + (r.name + (IntBytes(|r.data|) + r.data)))
  }

  function Frames(rs: seq<Member>): Bytes
    requires forall r :: r in rs ==> Fits(r)
  {
    if rs == [] then []
    else
      var r := rs[0];
      assert r in rs && Fits(r);
      Frame(r) + Frames(rs[1..])
  }

  /** The writer: one writev of five parts for every member. */
  method Write(rs: seq<Member>) returns (stream: Bytes)
    requires forall r :: r in rs ==> Fits(r)
    ensures stream == Frames(rs)
  {
    stream := [];
    var rest := rs;
    while rest != []
      invariant forall r :: r in rest ==> Fits(r)
      invariant Frames(rs) == stream + Frames(rest)
      decreases |rest|
    {
      var r := rest[0];
      assert r in rest;
      var t: Byte := if r.kind.Signature? then 0 else 1;
      var parts := [t] + (IntBytes(|r.name|) + (r.name + (IntBytes(|r.data|) + r.data)));
      assert parts == Frame(r);
      assert stream + (Frame(r) + Frames(rest[1..])) == (stream + Frame(r)) + Frames(rest[1..]);
      stream := stream + parts;
      rest := rest[1..];
    }
  }

  // ---------- reading one frame ----------

  /** At a position between frames: the end of the input, or a frame cut at the end of one of its
      fields; a malformed frame; or a member and what follows it. */
  datatype Next = End | Bad | Got(r: Member, rest: Bytes)

  function ReadSig(kind: Kind, name: Bytes, len: int, b: Bytes): Next {
    if b == [] then End
    else if |b| < len || len <= 0 then Bad
    else Got(Member(kind, name, b[..len]), b[len..])
  }

  function ReadData(kind: Kind, name: Bytes, b: Bytes): Next {
    if b == [] then End else if |b| < 4 then Bad else ReadSig(kind, name, IntAt(b), b[4..])
  }

  function ReadFile(kind: Kind, len: int, b: Bytes): Next {
    if b == [] then End
    else if |b| < len || len <= 0 || len >= MAXPATHLEN then Bad
    else ReadData(kind, b[..len], b[len..])
  }

  function ReadName(kind: Kind, b: Bytes): Next {
    if b == [] then End else if |b| < 4 then Bad else ReadFile(kind, IntAt(b), b[4..])
  }

  function Read(b: Bytes): (n: Next)
    ensures n.Got? ==> |n.rest| < |b|
  {
    if b == [] then End
    else if b[0] > 1 then Bad
    else ReadName(if b[0] == 0 then Signature else PublicKey, b[1..])
  }

  lemma ReadDataOf(kind: Kind, name: Bytes, data: Bytes, rest: Bytes)
    requires |data| < 0x8000_0000
    ensures ReadData(kind, name, IntBytes(|data|) + (data + rest)) ==
      if data != [] then Got(Member(kind, name, data), rest) else if rest == [] then End else Bad
  {
    IntRoundTrip(|data|, data + rest);
    assert (data + rest)[..|data|] == data && (data + rest)[|data|..] == rest;
  }

  lemma ReadNameOf(kind: Kind, name: Bytes, rest: Bytes)
    requires |name| < 0x8000_0000 && rest != []
    ensures ReadName(kind, IntBytes(|name|) + (name + rest)) ==
      if 0 < |name| < MAXPATHLEN then ReadData(kind, name, rest) else Bad
  {
    IntRoundTrip(|name|, name + rest);
    assert (name + rest)[..|name|] == name && (name + rest)[|name|..] == rest;
  }

  lemma ReadTyped(kind: Kind, b: Bytes)
    ensures Read([TypeByte(kind)] + b) == ReadName(kind, b)
  {
    assert ([TypeByte(kind)] + b)[1..] == b;
  }

  lemma FrameParts(r: Member, rest: Bytes)
    requires |r.name| < 0x8000_0000 && |r.data| < 0x8000_0000
    ensures
      var data := IntBytes(|r.data|) + (r.data + rest);
      var name := IntBytes(|r.name|) + (r.name + data);
      && Frame(r) + rest == [TypeByte(r.kind)] + name
      && (Frame(r) + rest)[1..] == name
  {
    var data := IntBytes(|r.data|) + (r.data + rest);
    assert IntBytes(|r.data|) + r.data + rest == data;
    assert r.name + (IntBytes(|r.data|) + r.data) + rest == r.name + data;
    assert Frame(r) + rest == [TypeByte(r.kind)] + (IntBytes(|r.name|) + (r.name + data));
  }

  /** Reading undoes framing, whatever follows, exactly for members with a name of 1 to
      MAXPATHLEN - 1 bytes and some data. */
  lemma ReadUndoesFrameIff(r: Member, rest: Bytes)
    requires |r.name| < 0x8000_0000 && |r.data| < 0x8000_0000
    ensures Read(Frame(r) + rest) == Got(r, rest) <==> 0 < |r.name| < MAXPATHLEN && r.data != []
  {
    FrameParts(r, rest);
    var data := IntBytes(|r.data|) + (r.data + rest);
    var name := IntBytes(|r.name|) + (r.name + data);
    ReadTyped(r.kind, name);
    ReadNameOf(r.kind, r.name, data);
    ReadDataOf(r.kind, r.name, r.data, rest);
  }

  /** Whatever is read was framed. */
  lemma ReadWasFramed(b: Bytes)
    requires Read(b).Got?
    ensures
      var r := Read(b).r;
      0 < |r.name| < MAXPATHLEN && 0 < |r.data| < 0x8000_0000 && b == Frame(r) + Read(b).rest
  {
    var r := Read(b).r;
    var c := b[1..];
    var d := c[4..][|r.name|..];
    IntBytesOf(c);
    IntBytesOf(d);
    assert c == IntBytes(|r.name|) + (r.name + d);
    assert d == IntBytes(|r.data|) + (r.data + Read(b).rest);
    assert b == [b[0]] + c;
  }

  // ---------- the parser ----------

  datatype Code = Ok | Fatal

  /** The key a name is added under: HASH_ADD_STR stops at the first NUL. */
  function KeyOf(name: Bytes): Bytes {
    if name == [] || name[0] == 0 then [] else [name[0]] + KeyOf(name[1..])
  }

  function Known(t: Table, name: Bytes): Cert {
    if name in t then t[name] else Cert(None, None)
  }

  /** The record of a name with one more signature or key; the last one stays. */
  function Updated(c: Cert, kind: Kind, data: Bytes): Cert {
    match kind
    case Signature => c.(sig := Some(data))
    case PublicKey => c.(cert := Some(data))
  }

  function Added(t: Table, r: Member): Table {
    t[if r.name in t then r.name else KeyOf(r.name) := Updated(Known(t, r.name), r.kind, r.data)]
  }

  /** Parsing from a position between two frames. */
  function Parsed(b: Bytes, t: Table): (Code, Table)
    decreases |b|
  {
    match Read(b)
    case End => (Ok, t)
    case Bad => (Fatal, t)
    case Got(r, rest) => Parsed(rest, Added(t, r))
  }

  /** Parsing once it is known what the frame under way holds. */
  function Continued(n: Next, t: Table): (Code, Table) {
    match n
    case End => (Ok, t)
    case Bad => (Fatal, t)
    case Got(r, rest) => Parsed(rest, Added(t, r))
  }

  datatype State = ParseType | ParseFLen | ParseFile | ParseSigLen | ParseSig

  /** The frame under way, from the state of the machine and the bytes that are left. */
  function Ahead(state: State, kind: Kind, name: Bytes, len: int, b: Bytes): Next {
    match state
    case ParseType => Read(b)
    case ParseFLen => ReadName(kind, b)
    case ParseFile => ReadFile(kind, len, b)
    case ParseSigLen => ReadData(kind, name, b)
    case ParseSig => ReadSig(kind, name, len, b)
  }

  /** The machine between two turns: its state and what it remembers of the frame under way. */
  datatype Machine = Machine(state: State, kind: Kind, len: int, s: Option<Bytes>, isNew: bool)

  /** The states that read the data of a frame, and need its name. */
  predicate InData(m: Machine) { m.state.ParseSigLen? || m.state.ParseSig? }

  predicate Ready(m: Machine, t: Table) {
    InData(m) ==> m.s.Some? && (m.isNew <==> m.s.value !in t)
  }

  /** What the bytes b mean to the machine. */
  function Meaning(m: Machine, b: Bytes, t: Table): (Code, Table) {
    Continued(Ahead(m.state, m.kind, if m.s.Some? then m.s.value else [], m.len, b), t)
  }

  /** The first three states: type, name length, name. */
  method ParseHeader(input: Bytes, p0: nat, m0: Machine, table: Table) returns (ok: bool, p: nat, m: Machine)
    requires p0 < |input| && !InData(m0)
    ensures p <= |input|
    ensures !ok ==> Meaning(m0, input[p0..], table) == (Fatal, table)
    ensures ok ==> p0 < p && Ready(m, table) && Meaning(m, input[p..], table) == Meaning(m0, input[p0..], table)
  {
    ok, p, m := true, p0, m0;
    ghost var b := input[p..];
    if m.state == ParseType {
      if input[p] != 0 && input[p] != 1 {
        return false, p, m;
      }
      m := m.(kind := if input[p] == 0 then Signature else PublicKey, state := ParseFLen, s := None);
      p := p + 1;
      assert input[p..] == b[1..];
    } else if m.state == ParseFLen {
      if |input| - p < 4 {
        return false, p, m;
      }
      m := m.(len := IntAt(input[p..]), state := ParseFile, s := None);
      p := p + 4;
      assert input[p..] == b[4..];
    } else {
      var len := m.len;
      if |input| - p < len || len <= 0 {
        return false, p, m;
      } else if len >= MAXPATHLEN {
        return false, p, m;
      }
      var name := input[p..p + len];
      m := m.(s := Some(name), isNew := name !in table, state := ParseSigLen);
      p := p + len;
      assert name == b[..len] && input[p..] == b[len..];
    }
  }

  /** The last two: data length, data. */
  method ParseBody(input: Bytes, p0: nat, m0: Machine, table0: Table)
    returns (ok: bool, p: nat, m: Machine, table: Table)
    requires p0 < |input| && InData(m0) && Ready(m0, table0)
    ensures p <= |input|
    ensures !ok ==> Meaning(m0, input[p0..], table0) == (Fatal, table) && table == table0
    ensures ok ==> p0 < p && Ready(m, table) && Meaning(m, input[p..], table) == Meaning(m0, input[p0..], table0)
  {
    ok, p, m, table := true, p0, m0, table0;
    ghost var b := input[p..];
    if m.state == ParseSigLen {
      if m.s.None? || |input| - p < 4 {
        return false, p, m, table;
      }
      m := m.(len := IntAt(input[p..]), state := ParseSig);
      p := p + 4;
      assert input[p..] == b[4..];
    } else {
      var len := m.len;
      if m.s.None? || |input| - p < len || len <= 0 {
        return false, p, m, table;
      }
      var sig, name := input[p..p + len], m.s.value;
      var record := Updated(if m.isNew then Cert(None, None) else table[name], m.kind, sig);
      table := table[if m.isNew then KeyOf(name) else name := record];
      m := m.(state := ParseType);
      p := p + len;
      assert sig == b[..len] && input[p..] == b[len..];
    }
  }

  lemma NothingLeft(m: Machine, t: Table)
    ensures Meaning(m, [], t) == (Ok, t)
  {
  }

  /** pkg_repo_parse_sigkeys: the cursor stays within the buffer, and the states that need a name
      always have one. */
  method Parse(input: Bytes, table0: Table) returns (rc: Code, table: Table)
    ensures (rc, table) == Parsed(input, table0)
  {
    var p, m, ok := 0, Machine(ParseType, Signature, 0, None, false), true;
    table := table0;
    assert input[0..] == input;
    assert Meaning(m, input, table) == Parsed(input, table0);
    while p < |input|
      invariant p <= |input| && Ready(m, table)
      invariant Meaning(m, input[p..], table) == Parsed(input, table0)
    {
      if InData(m) {
        ok, p, m, table := ParseBody(input, p, m, table);
      } else {
        ok, p, m := ParseHeader(input, p, m, table);
      }
      if !ok {
        return Fatal, table;
      }
    }
    assert input[p..] == [];
    NothingLeft(m, table);
    rc := Ok;
  }

  // ---------- what a stream of members parses to ----------

  /** The last data of a kind under a name, if any. */
  function LastOf(rs: seq<Member>, name: Bytes, kind: Kind): Option<Bytes> {
    if rs == [] then None
    else
      var later := LastOf(rs[1..], name, kind);
      if later.Some? then later
      else if rs[0].name == name && rs[0].kind == kind then Some(rs[0].data)
      else None
  }

  function Newer(later: Option<Bytes>, earlier: Option<Bytes>): Option<Bytes> {
    if later.Some? then later else earlier
  }

  /** The table after members were added to it: per name, the last signature and the last key. */
  ghost predicate Holds(t: Table, before: Table, rs: seq<Member>) {
    && (forall name :: name in t <==> name in before || exists r :: r in rs && r.name == name)
    && (forall name :: name in t ==>
          t[name] == Cert(Newer(LastOf(rs, name, Signature), Known(before, name).sig),
                          Newer(LastOf(rs, name, PublicKey), Known(before, name).cert)))
  }

  lemma {:induction false} KeyOfPlainName(name: Bytes)
    requires 0 !in name
    ensures KeyOf(name) == name
  {
    if name != [] {
      assert name[0] in name;
      KeyOfPlainName(name[1..]);
      assert name == [name[0]] + name[1..];
    }
  }

  lemma AddedFirst(t: Table, before: Table, rs: seq<Member>)
    requires rs != [] && Fits(rs[0]) && Holds(t, Added(before, rs[0]), rs[1..])
    ensures Holds(t, before, rs)
  {
    KeyOfPlainName(rs[0].name);
    assert forall r :: r in rs <==> r == rs[0] || r in rs[1..];
  }

  /** Parsing what was written gives, for every name, the last signature and the last key, and a
      success. */
  lemma {:induction false} ParseUndoesWrite(rs: seq<Member>, before: Table)
    requires forall r :: r in rs ==> Fits(r)
    ensures Parsed(Frames(rs), before).0 == Ok
    ensures Holds(Parsed(Frames(rs), before).1, before, rs)
  {
    if rs != [] {
      var r := rs[0];
      assert r in rs && Fits(r);
      ReadUndoesFrameIff(r, Frames(rs[1..]));
      ParseUndoesWrite(rs[1..], Added(before, r));
      AddedFirst(Parsed(Frames(rs), before).1, before, rs);
    }
  }

  /** A stream is accepted exactly when it is whole frames, then nothing or a frame cut where one
      of its fields ends. */
  ghost predicate Framed(b: Bytes) {
    exists rs, tail :: FramedBy(b, rs, tail)
  }

  ghost predicate FramedBy(b: Bytes, rs: seq<Member>, tail: Bytes) {
    && (forall r :: r in rs ==> 0 < |r.name| < MAXPATHLEN && 0 < |r.data| < 0x8000_0000)
    && Read(tail) == End
    && b == AllFrames(rs) + tail
  }

  function AllFrames(rs: seq<Member>): Bytes
    requires forall r :: r in rs ==> 0 < |r.name| < MAXPATHLEN && 0 < |r.data| < 0x8000_0000
  {
    if rs == [] then []
    else
      var r := rs[0];
      assert r in rs;
      Frame(r) + AllFrames(rs[1..])
  }

  lemma {:induction false} FramedIsAccepted(b: Bytes, rs: seq<Member>, tail: Bytes, t: Table)
    requires FramedBy(b, rs, tail)
    ensures Parsed(b, t).0 == Ok
  {
    if rs == [] {
      assert b == tail;
    } else {
      var r := rs[0];
      assert r in rs;
      var rest := AllFrames(rs[1..]) + tail;
      assert b == Frame(r) + rest;
      ReadUndoesFrameIff(r, rest);
      FramedIsAccepted(rest, rs[1..], tail, Added(t, r));
    }
  }

  lemma {:induction false} AcceptedIsFramed(b: Bytes, t: Table) returns (rs: seq<Member>, tail: Bytes)
    requires Parsed(b, t).0 == Ok
    ensures FramedBy(b, rs, tail)
    decreases |b|
  {
    if Read(b).Got? {
      var r, rest := Read(b).r, Read(b).rest;
      ReadWasFramed(b);
      var more, end := AcceptedIsFramed(rest, Added(t, r));
      rs, tail := [r] + more, end;
      assert rs[1..] == more;
      assert b == Frame(r) + (AllFrames(more) + tail);
      assert AllFrames(rs) == Frame(r) + AllFrames(more);
    } else {
      rs, tail := [], b;
    }
  }

  lemma AcceptedIffFramed(b: Bytes, t: Table)
    ensures Parsed(b, t).0 == Ok <==> Framed(b)
  {
    if Parsed(b, t).0 == Ok {
      var rs, tail := AcceptedIsFramed(b, t);
    }
    if Framed(b) {
      var rs, tail :| FramedBy(b, rs, tail);
      FramedIsAccepted(b, rs, tail, t);
    }
  }
}
