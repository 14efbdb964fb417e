/** Bytes, big-endian numbers, and fixed-layout records. */
module Bytes {
  import opened Words

  type byte = x: nat | x < 256

  function Pow256(n: nat): (p: nat)
    ensures p >= 1
  {
    if n == 0 then 1 else 256 * Pow256(n - 1)
  }

  /** The low n bytes of x, most significant first. */
  function BE(x: nat, n: nat): (b: seq<byte>)
    ensures |b| == n
  {
    if n == 0 then [] else BE(x / 256, n - 1) + [x % 256]
  }

  function FromBE(b: seq<byte>): nat {
    if b == [] then 0 else 256 * FromBE(b[..|b| - 1]) + b[|b| - 1]
  }

  lemma {:induction false} NumberRoundTrip(x: nat, n: nat)
    requires x < Pow256(n)
    ensures FromBE(BE(x, n)) == x
    decreases n
  {
    if n > 0 {
      NumberRoundTrip(x / 256, n - 1);
      assert BE(x, n)[..n - 1] == BE(x / 256, n - 1);
    }
  }

  lemma {:induction false} BytesRoundTrip(b: seq<byte>)
    ensures FromBE(b) < Pow256(|b|) && BE(FromBE(b), |b|) == b
    decreases |b|
  {
    if b != [] {
      BytesRoundTrip(b[..|b| - 1]);
      assert b == b[..|b| - 1] + [b[|b| - 1]];
    }
  }

  /** The shift-and-mask form of the four low bytes, of any integer. */
  function Shifted4(x: int): (b: seq<byte>)
    ensures |b| == 4
  {
    [x / 0x100_0000 % 256, x / 0x1_0000 % 256, x / 0x100 % 256, x % 256]
  }

  lemma ShiftsAreBE(x: nat)
    ensures Shifted4(x) == BE(x, 4)
  {
    var y := x / 256;
    var z := y / 256;
    var w := z / 256;
    assert z == x / 0x1_0000 && w == x / 0x100_0000;
    assert BE(w, 1) == BE(w / 256, 0) + [w % 256];
    assert BE(z, 2) == BE(w, 1) + [z % 256];
    assert BE(y, 3) == BE(z, 2) + [y % 256];
    assert BE(x, 4) == BE(y, 3) + [x % 256];
  }

  /** Store the four shifted bytes of x at position at; the rest stays. */
  method Put4(msg: array<byte>, at: nat, x: int)
    requires at + 4 <= msg.Length
    modifies msg
    ensures msg[..at] == old(msg[..at]) && msg[at..at + 4] == Shifted4(x) && msg[at + 4..] == old(msg[at + 4..])
    ensures msg[..at + 4] == old(msg[..at]) + Shifted4(x)
  {
    msg[at] := x / 0x100_0000 % 256;
    msg[at + 1] := x / 0x1_0000 % 256;
    msg[at + 2] := x / 0x100 % 256;
    msg[at + 3] := x % 256;
  }

  /** Store b at position at, one byte after the other; the rest stays. */
  method PutBytes(msg: array<byte>, at: nat, b: seq<byte>)
    requires at + |b| <= msg.Length
    modifies msg
    ensures msg[..at + |b|] == old(msg[..at]) + b && msg[at + |b|..] == old(msg[at + |b|..])
  {
    for i := 0 to |b|
      invariant msg[..at + i] == old(msg[..at]) + b[..i] && msg[at + i..] == old(msg[at + i..])
    {
      msg[at + i] := b[i];
    }
  }

  lemma PowFacts()
    ensures Pow256(4) == WORD && Pow256(8) == WORD * WORD && Pow256(2) == 0x1_0000 && Pow256(1) == 256
  {
    assert Pow256(2) == 256 * (256 * Pow256(0));
    assert Pow256(4) == 256 * (256 * Pow256(2));
    assert Pow256(6) == 256 * (256 * Pow256(4));
    assert Pow256(8) == 256 * (256 * Pow256(6));
  }

  // ---------- fixed layouts ----------

  /** One field of a layout: raw bytes, or an unsigned big-endian number. */
  datatype Slot = Str(n: nat) | Uint(n: nat)

  datatype Raw = RStr(b: seq<byte>) | RUint(x: nat)

  function Size(fmt: seq<Slot>): nat {
    if fmt == [] then 0 else fmt[0].n + Size(fmt[1..])
  }

  lemma SizeFrom(fmt: seq<Slot>, i: nat)
    requires i <= |fmt|
    ensures i < |fmt| ==> Size(fmt[i..]) == fmt[i].n + Size(fmt[i + 1..])
    ensures i == |fmt| ==> Size(fmt[i..]) == 0
  {
    if i < |fmt| { assert fmt[i..][1..] == fmt[i + 1..]; }
  }

  function Unpack1(s: Slot, b: seq<byte>): Raw {
    match s
    case Str(_) => RStr(b)
    case Uint(_) => RUint(FromBE(b))
  }

  function Unpack(fmt: seq<Slot>, data: seq<byte>): (v: seq<Raw>)
    requires |data| == Size(fmt)
    ensures |v| == |fmt|
  {
    if fmt == [] then [] else [Unpack1(fmt[0], data[..fmt[0].n])] + Unpack(fmt[1..], data[fmt[0].n..])
  }

  predicate Fit(s: Slot, v: Raw) {
    match (s, v)
    case (Str(n), RStr(b)) => |b| == n
    case (Uint(n), RUint(x)) => x < Pow256(n)
    case _ => false
  }

  predicate FitAll(fmt: seq<Slot>, v: seq<Raw>) {
    |v| == |fmt| && forall i :: 0 <= i < |v| ==> Fit(fmt[i], v[i])
  }

  function Pack1(s: Slot, v: Raw): (b: seq<byte>)
    requires Fit(s, v)
    ensures |b| == s.n
  {
    match v
    case RStr(b) => b
    case RUint(x) => BE(x, s.n)
  }

  function Pack(fmt: seq<Slot>, v: seq<Raw>): (b: seq<byte>)
    requires FitAll(fmt, v)
    ensures |b| == Size(fmt)
  {
    if fmt == [] then [] else Pack1(fmt[0], v[0]) + Pack(fmt[1..], v[1..])
  }

  /** Whatever fits a layout survives packing and unpacking. */
  lemma {:induction false} PackUnpack(fmt: seq<Slot>, v: seq<Raw>)
    requires FitAll(fmt, v)
    ensures Unpack(fmt, Pack(fmt, v)) == v
    decreases |fmt|
  {
    if fmt != [] {
      var p, b := Pack1(fmt[0], v[0]), Pack(fmt, v);
      assert b[..fmt[0].n] == p && b[fmt[0].n..] == Pack(fmt[1..], v[1..]);
      if v[0].RUint? { NumberRoundTrip(v[0].x, fmt[0].n); }
      PackUnpack(fmt[1..], v[1..]);
    }
  }

  lemma PackStep(f: seq<Slot>, v: seq<Raw>, i: nat)
    requires FitAll(f, v) && i < |f|
    ensures FitAll(f[i..], v[i..]) && FitAll(f[i + 1..], v[i + 1..])
    ensures Pack(f[i..], v[i..]) == Pack1(f[i], v[i]) + Pack(f[i + 1..], v[i + 1..])
  {
    assert f[i..][1..] == f[i + 1..] && v[i..][1..] == v[i + 1..];
  }

  /** The packed fields from number i on. */
  ghost function PackFrom(f: seq<Slot>, v: seq<Raw>, i: nat): (b: seq<byte>)
    requires FitAll(f, v) && i <= |f|
    decreases |f| - i
  {
    if i == |f| then [] else Pack1(f[i], v[i]) + PackFrom(f, v, i + 1)
  }

  lemma PackFromStep(f: seq<Slot>, v: seq<Raw>, i: nat)
    requires FitAll(f, v) && i <= |f|
    ensures i < |f| ==> PackFrom(f, v, i) == Pack1(f[i], v[i]) + PackFrom(f, v, i + 1)
    ensures i == |f| ==> PackFrom(f, v, i) == []
  {
  }

  lemma {:induction false} PackFromIsPack(f: seq<Slot>, v: seq<Raw>, i: nat)
    requires FitAll(f, v) && i <= |f|
    ensures FitAll(f[i..], v[i..]) && PackFrom(f, v, i) == Pack(f[i..], v[i..])
    decreases |f| - i
  {
    if i < |f| {
      PackFromIsPack(f, v, i + 1);
      PackStep(f, v, i);
    }
  }

  // ---------- text ----------

  predicate IsAscii(b: seq<byte>) {
    forall i :: 0 <= i < |b| ==> b[i] < 128
  }

  /** The characters that str.strip removes, among ASCII. */
  predicate IsSpace(c: byte) {
    9 <= c <= 13 || 28 <= c <= 32
  }

  function StripLeft(b: seq<byte>): seq<byte> {
    if b != [] && IsSpace(b[0]) then StripLeft(b[1..]) else b
  }

  function StripRight(b: seq<byte>): seq<byte> {
    if b != [] && IsSpace(b[|b| - 1]) then StripRight(b[..|b| - 1]) else b
  }

  /** Text stays a sequence of ASCII codes. */
  function Strip(b: seq<byte>): seq<byte> {
    StripRight(StripLeft(b))
  }

  /** Decoding that drops bytes outside ASCII. */
  function AsciiOnly(b: seq<byte>): seq<byte> {
    if b == [] then []
    else (if b[0] < 128 then [b[0]] else []) + AsciiOnly(b[1..])
  }

  ghost predicate AllSpaces(b: seq<byte>) {
    forall i :: 0 <= i < |b| ==> b[i] in {9, 10, 11, 12, 13, 28, 29, 30, 31, 32}
  }

  lemma {:induction false} StripLeftIs(b: seq<byte>) returns (a: seq<byte>)
    ensures b == a + StripLeft(b) && AllSpaces(a)
    ensures StripLeft(b) != [] ==> !AllSpaces([StripLeft(b)[0]])
    decreases |b|
  {
    a := [];
    if b != [] {
      assert [b[0]][0] == b[0];
      if IsSpace(b[0]) {
        var c := StripLeftIs(b[1..]);
        a := [b[0]] + c;
        assert b == [b[0]] + b[1..];
      }
    }
  }

  lemma {:induction false} StripRightIs(b: seq<byte>) returns (a: seq<byte>)
    ensures b == StripRight(b) + a && AllSpaces(a)
    ensures StripRight(b) != [] ==> !AllSpaces([Last(StripRight(b))]) && StripRight(b)[0] == b[0]
    decreases |b|
  {
    a := [];
    if b != [] {
      var l := Last(b);
      assert [l][0] == l && b == b[..|b| - 1] + [l];
      if IsSpace(l) {
        var c := StripRightIs(b[..|b| - 1]);
        a := c + [l];
      }
    }
  }

  /** Stripping takes spaces off both ends and leaves none there. */
  lemma StripIs(b: seq<byte>) returns (left: seq<byte>, right: seq<byte>)
    ensures b == left + Strip(b) + right && AllSpaces(left) && AllSpaces(right)
    ensures Strip(b) != [] ==> !AllSpaces([Strip(b)[0]]) && !AllSpaces([Last(Strip(b))])
  {
    left := StripLeftIs(b);
    right := StripRightIs(StripLeft(b));
  }

  lemma {:induction false} AsciiConcat(a: seq<byte>, b: seq<byte>)
    ensures AsciiOnly(a + b) == AsciiOnly(a) + AsciiOnly(b)
    decreases |a|
  {
    if a == [] {
      assert a + b == b;
    } else {
      assert (a + b)[1..] == a[1..] + b && (a + b)[0] == a[0];
      AsciiConcat(a[1..], b);
      AsciiStep(a);
      AsciiStep(a + b);
      hide AsciiOnly;
    }
  }

  lemma AsciiStep(b: seq<byte>)
    requires b != []
    ensures AsciiOnly(b) == (if b[0] < 128 then [b[0]] else []) + AsciiOnly(b[1..])
  {
  }

  /** Of a text, exactly the ASCII bytes are kept, in order. */
  lemma AsciiParts(a: seq<byte>, x: byte, b: seq<byte>)
    ensures AsciiOnly(a + [x] + b) == AsciiOnly(a) + (if x < 128 then [x] else []) + AsciiOnly(b)
  {
    AsciiConcat(a + [x], b);
    AsciiConcat(a, [x]);
    AsciiStep([x]);
    assert [x][1..] == [] && AsciiOnly([]) == [];
    hide AsciiOnly;
  }

  // ---------- decoded records ----------

  datatype Value = VText(t: seq<byte>) | VBytes(b: seq<byte>) | VInt(n: nat) | VPrice(p: real)

  datatype Kind = Alpha | Integer | Price8

  /** The name and declared kind of a decoded field. */
  datatype FieldDef = FieldDef(name: string, kind: Kind)

  type Fields = map<string, Value>

  ghost predicate DistinctNames(defs: seq<FieldDef>) {
    forall i, j :: 0 <= i < j < |defs| ==> defs[i].name != defs[j].name
  }

  /** The record after the first n fields, each converted by conv. */
  ghost function FieldsOf(defs: seq<FieldDef>, raw: seq<Raw>, conv: (Kind, Raw) -> Value, n: nat): Fields
    requires n <= |defs| == |raw|
  {
    if n == 0 then map[]
    else FieldsOf(defs, raw, conv, n - 1)[defs[n - 1].name := conv(defs[n - 1].kind, raw[n - 1])]
  }

  lemma {:induction false} FieldAt(defs: seq<FieldDef>, raw: seq<Raw>, conv: (Kind, Raw) -> Value, n: nat, i: nat)
    requires i < n <= |defs| == |raw| && DistinctNames(defs)
    ensures defs[i].name in FieldsOf(defs, raw, conv, n)
    ensures FieldsOf(defs, raw, conv, n)[defs[i].name] == conv(defs[i].kind, raw[i])
    decreases n
  {
    if i < n - 1 { FieldAt(defs, raw, conv, n - 1, i); }
  }

  /** Fill the record field by field. */
  method FillFields(defs: seq<FieldDef>, raw: seq<Raw>, conv: (Kind, Raw) -> Value) returns (kwargs: Fields)
    requires |defs| == |raw|
    ensures kwargs == FieldsOf(defs, raw, conv, |defs|)
  {
    kwargs := map[];
    for i := 0 to |defs|
      invariant kwargs == FieldsOf(defs, raw, conv, i)
    {
      kwargs := kwargs[defs[i].name := conv(defs[i].kind, raw[i])];
    }
  }
}
