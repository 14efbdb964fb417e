/** The OUCH Enter Order frame: packing, word reversal, and the server's decoding. */
module Ouch {
  import opened Words
  import opened Bytes

  const ORDER_BYTES := 48
  const ORDER_WORDS := 12
  const BLOB_BYTES := 196
  const ORDERS := 4

  const SIDE_BUY: byte := 66    // B
  const SIDE_SELL: byte := 83   // S
  const SIDE_NO: byte := 78     // N
  const TYPE_ENTER: byte := 79  // O

  const FLAGS: seq<byte> := [48, 89, 80, 89, 78]   // 0YPYN
  const CLORD: seq<byte> := [67, 76, 79, 82, 68, 95, 73, 68, 48, 48, 49, 88, 88, 88]   // CLORD_ID001XXX
  const ZERO3: seq<byte> := [0, 0, 0]
  const ZERO4: seq<byte> := [0, 0, 0, 0]

  /** An order to be sent; price is in ten-thousandths of a dollar. */
  datatype Order = Order(ref: nat, side: byte, qty: nat, symbol: seq<byte>, price: int)

  ghost predicate Sendable(o: Order) {
    && |o.symbol| == 8 && IsAscii(o.symbol) && o.side in {SIDE_BUY, SIDE_SELL, SIDE_NO}
  }

  /** Every number fits the 32 bits it is sent in. */
  ghost predicate Fits32(o: Order) {
    o.ref < WORD && o.qty < WORD && 0 <= o.price < WORD
  }

  /** The 48 bytes of an order. */
  function OrderBytes(o: Order): (b: seq<byte>)
    requires |o.symbol| == 8
    ensures |b| == ORDER_BYTES
  {
    [TYPE_ENTER] + Shifted4(o.ref) + [o.side] + Shifted4(o.qty) + o.symbol + ZERO4 + Shifted4(o.price) +
      FLAGS + CLORD + ZERO3
  }

  /** Fill a zeroed 48-byte message, field by field. */
  method PackOrder(o: Order) returns (msg: array<byte>)
    requires |o.symbol| == 8
    ensures fresh(msg) && msg[..] == OrderBytes(o)
  {
    hide Shifted4;
    msg := new byte[ORDER_BYTES](_ => 0);
    PutBytes(msg, 0, [TYPE_ENTER]);
    assert msg[..1] == [TYPE_ENTER];
    Put4(msg, 1, o.ref);
    PutBytes(msg, 5, [o.side]);
    Put4(msg, 6, o.qty);
    PutBytes(msg, 10, o.symbol);
    PutBytes(msg, 18, ZERO4);
    Put4(msg, 22, o.price);
    PutBytes(msg, 26, FLAGS);
    PutBytes(msg, 31, CLORD);
    PutBytes(msg, 45, ZERO3);
    assert msg[..] == msg[..48];
  }

  // ---------- word reversal ----------

  /** Each group of four bytes turned around. */
  function Reversed(d: seq<byte>): (r: seq<byte>)
    requires |d| % 4 == 0
    ensures |r| == |d|
  {
    if d == [] then [] else [d[3], d[2], d[1], d[0]] + Reversed(d[4..])
  }

  /** None: the length is not a multiple of four and ValueError is raised. */
  method ReverseEndianBytes(data: seq<byte>) returns (r: Option<seq<byte>>)
    ensures r == if |data| % 4 == 0 then Some(Reversed(data)) else None
  {
    if |data| % 4 != 0 { return None; }
    var result: seq<byte> := [];
    var i := 0;
    while i < |data|
      invariant 0 <= i <= |data| && i % 4 == 0
      invariant Reversed(data) == result + Reversed(data[i..])
    {
      var chunk := data[i..i + 4];
      assert data[i..][4..] == data[i + 4..];
      result := result + [chunk[3], chunk[2], chunk[1], chunk[0]];
      i := i + 4;
    }
    assert i == |data| && data[i..] == [];
    assert Reversed(data) == result;
    r := Some(result);
  }

  /** The sender's and the server's reversals cancel. */
  lemma {:induction false} ReversedTwice(d: seq<byte>)
    requires |d| % 4 == 0
    ensures Reversed(Reversed(d)) == d
    decreases |d|
  {
    if d != [] {
      var r := Reversed(d);
      assert r[4..] == Reversed(d[4..]);
      ReversedTwice(d[4..]);
      assert d == d[..4] + d[4..];
    }
  }

  /** The hardware sends each word whole; laid out with its low byte first it is the software's reversed group. */
  function LittleEndian(w: nat): (b: seq<byte>)
    ensures |b| == 4
  {
    [w % 256, w / 0x100 % 256, w / 0x1_0000 % 256, w / 0x100_0000 % 256]
  }

  ghost function LittleEndianAll(ws: seq<nat>): (b: seq<byte>)
    ensures |b| == 4 * |ws|
  {
    if ws == [] then [] else LittleEndian(ws[0]) + LittleEndianAll(ws[1..])
  }

  /** The words of a byte string, first byte most significant. */
  ghost function WordsOf(d: seq<byte>): (ws: seq<nat>)
    requires |d| % 4 == 0
    ensures |ws| == |d| / 4
  {
    if d == [] then [] else [FromBE(d[..4])] + WordsOf(d[4..])
  }

  lemma WordValue(a: byte, b: byte, c: byte, e: byte)
    ensures FromBE([a, b, c, e]) == a as int * 0x100_0000 + b as int * 0x1_0000 + c as int * 0x100 + e as int
  {
    assert [a, b, c, e][..3] == [a, b, c] && [a, b, c][..2] == [a, b] && [a, b][..1] == [a] && [a][..0] == [];
    assert FromBE([a]) == a as int;
    assert FromBE([a, b]) == 256 * FromBE([a]) + b as int;
    assert FromBE([a, b, c]) == 256 * FromBE([a, b]) + c as int;
  }

  lemma WordBytes(a: byte, b: byte, c: byte, e: byte)
    ensures LittleEndian(FromBE([a, b, c, e])) == [e, c, b, a]
  {
    WordValue(a, b, c, e);
    hide FromBE;
    var x := FromBE([a, b, c, e]);
    assert x / 0x100 == a as int * 0x1_0000 + b as int * 0x100 + c as int;
    assert x / 0x1_0000 == a as int * 0x100 + b as int;
  }

  lemma {:induction false} WordsAreReversed(d: seq<byte>)
    requires |d| % 4 == 0
    ensures LittleEndianAll(WordsOf(d)) == Reversed(d)
    decreases |d|
  {
    hide LittleEndian;
    if d != [] {
      WordBytes(d[0], d[1], d[2], d[3]);
      assert d[..4] == [d[0], d[1], d[2], d[3]];
      assert WordsOf(d)[1..] == WordsOf(d[4..]);
      WordsAreReversed(d[4..]);
    }
  }

  // ---------- the decoder ----------

  const OUCH_FMT: seq<Slot> := [
    Str(1), Uint(4), Str(1), Uint(4), Str(8), Uint(8), Str(1), Str(1), Str(1), Str(1), Str(1), Str(14), Uint(2), Str(1)]

  const OUCH_DEFS: seq<FieldDef> := [
    FieldDef("MessageType", Alpha), FieldDef("UserRefNum", Integer), FieldDef("Side", Alpha),
    FieldDef("Quantity", Integer), FieldDef("Symbol", Alpha), FieldDef("Price", Price8),
    FieldDef("TimeInForce", Alpha), FieldDef("Display", Alpha),
    FieldDef("Capacity", Alpha), FieldDef("InterMarketSweepEligibility", Integer), FieldDef("CrossType", Alpha),
    FieldDef("CIOrdID", Alpha), FieldDef("AppendageLength", Integer), FieldDef("Appendage", Alpha)]

  /** Alpha fields become stripped text when ASCII and stay bytes otherwise; prices are scaled; the rest stays. */
  function Convert(kind: Kind, raw: Raw): Value {
    match raw
    case RStr(b) => if kind == Alpha && IsAscii(b) then VText(Strip(b)) else VBytes(b)
    case RUint(x) => if kind == Price8 then VPrice(x as real / 10000.0) else VInt(x)
  }

  lemma OuchTail()
    ensures Size(OUCH_FMT[7..]) == 21
  {
    var f := OUCH_FMT;
    hide Size;
    SizeFrom(f, 7);
    SizeFrom(f, 8);
    SizeFrom(f, 9);
    SizeFrom(f, 10);
    SizeFrom(f, 11);
    SizeFrom(f, 12);
    SizeFrom(f, 13);
    SizeFrom(f, 14);
  }

  lemma OuchSize()
    ensures Size(OUCH_FMT) == ORDER_BYTES
  {
    var f := OUCH_FMT;
    assert f[0..] == f;
    hide Size;
    SizeFrom(f, 0);
    SizeFrom(f, 1);
    SizeFrom(f, 2);
    SizeFrom(f, 3);
    SizeFrom(f, 4);
    SizeFrom(f, 5);
    SizeFrom(f, 6);
    OuchTail();
  }

  /** Raised: the type byte is not ASCII; Unknown: not an order, or the wrong size. */
  datatype DecodeResult = Raised | Unknown | Message(fields: Fields)

  /** A body raises exactly when its first byte is not ASCII, and is decoded exactly when that is an O and it has 48. */
  ghost function Decoded(body: seq<byte>): (r: DecodeResult)
    requires body != []
    ensures r.Raised? <==> body[0] >= 128
    ensures r.Message? <==> body[0] == 'O' as int && |body| == 48
  {
    OuchSize();
    if body[0] >= 128 then Raised
    else if body[0] != TYPE_ENTER || |body| != ORDER_BYTES then Unknown
    else Message(FieldsOf(OUCH_DEFS, Unpack(OUCH_FMT, body), Convert, |OUCH_DEFS|))
  }

  method DecodeMessage(code: seq<byte>, data: seq<byte>) returns (r: DecodeResult)
    requires |code| == 1
    ensures r == Decoded(code + data)
  {
    if code[0] >= 128 { return Raised; }
    if code[0] != TYPE_ENTER { return Unknown; }
    var full := code + data;
    if |full| != ORDER_BYTES { return Unknown; }
    OuchSize();
    var kwargs := FillFields(OUCH_DEFS, Unpack(OUCH_FMT, full), Convert);
    r := Message(kwargs);
  }

  /** The fields of an order as the layout orders them. */
  function RawOf(o: Order): (v: seq<Raw>)
    requires o.price >= 0
    ensures |v| == |OUCH_FMT|
  {
    [RStr([TYPE_ENTER]), RUint(o.ref), RStr([o.side]), RUint(o.qty), RStr(o.symbol), RUint(o.price),
     RStr([48]), RStr([89]), RStr([80]), RStr([89]), RStr([78]), RStr(CLORD), RUint(0), RStr([0])]
  }

  lemma OrderFits(o: Order)
    requires Sendable(o) && Fits32(o)
    ensures FitAll(OUCH_FMT, RawOf(o))
  {
    PowFacts();
    hide Pow256;
  }

  /** A number that fits n bytes has a zero in front when written in n + 1. */
  lemma {:induction false} LeadingZero(x: nat, n: nat)
    requires x < Pow256(n)
    ensures BE(x, n + 1) == [0] + BE(x, n)
    decreases n
  {
    if n > 0 {
      LeadingZero(x / 256, n - 1);
      assert BE(x, n + 1) == BE(x / 256, n) + [x % 256];
    } else {
      assert BE(x, 1) == BE(0, 0) + [0];
    }
  }

  lemma PowGrows(n: nat)
    ensures Pow256(n) < Pow256(n + 1)
  {
  }

  /** A 32-bit price in eight bytes has four leading zeros. */
  lemma WideNumber(x: nat)
    requires x < WORD
    ensures BE(x, 8) == ZERO4 + Shifted4(x)
  {
    ShiftsAreBE(x);
    PowFacts();
    PowGrows(4);
    PowGrows(5);
    PowGrows(6);
    hide Pow256, BE;
    LeadingZero(x, 4);
    LeadingZero(x, 5);
    LeadingZero(x, 6);
    LeadingZero(x, 7);
  }

  /** The 48 bytes, nested to the right. */
  function Nested(o: Order): seq<byte>
    requires |o.symbol| == 8
  {
    [TYPE_ENTER] +
      (Shifted4(o.ref) + ([o.side] + (Shifted4(o.qty) + (o.symbol + ((ZERO4 + Shifted4(o.price)) + Trailer())))))
  }

  function Trailer(): seq<byte> {
    [48] + ([89] + ([80] + ([89] + ([78] + (CLORD + ([0, 0] + ([0] + [])))))))
  }

  lemma BytesShape(o: Order)
    requires |o.symbol| == 8
    ensures OrderBytes(o) == Nested(o)
  {
    hide Shifted4;
    assert Trailer() == FLAGS + CLORD + ZERO3;
  }

  lemma TrailerPacked(o: Order)
    requires Sendable(o) && Fits32(o)
    ensures FitAll(OUCH_FMT, RawOf(o)) && PackFrom(OUCH_FMT, RawOf(o), 6) == Trailer()
  {
    OrderFits(o);
    var f, v := OUCH_FMT, RawOf(o);
    assert BE(0, 2) == BE(0, 1) + [0] && BE(0, 1) == BE(0, 0) + [0];
    assert Pack1(f[6], v[6]) == [48] && Pack1(f[7], v[7]) == [89] && Pack1(f[8], v[8]) == [80] &&
      Pack1(f[9], v[9]) == [89];
    assert Pack1(f[10], v[10]) == [78] && Pack1(f[11], v[11]) == CLORD;
    assert Pack1(f[12], v[12]) == [0, 0] && Pack1(f[13], v[13]) == [0];
    hide Pack1, PackFrom, FitAll, RawOf, BE;
    PackFromStep(f, v, 6);
    PackFromStep(f, v, 7);
    PackFromStep(f, v, 8);
    PackFromStep(f, v, 9);
    PackFromStep(f, v, 10);
    PackFromStep(f, v, 11);
    PackFromStep(f, v, 12);
    PackFromStep(f, v, 13);
    PackFromStep(f, v, 14);
  }

  lemma PackedShape(o: Order)
    requires Sendable(o) && Fits32(o)
    ensures FitAll(OUCH_FMT, RawOf(o)) && PackFrom(OUCH_FMT, RawOf(o), 0) == Nested(o)
  {
    OrderFits(o);
    TrailerPacked(o);
    ShiftsAreBE(o.ref);
    ShiftsAreBE(o.qty);
    WideNumber(o.price);
    var f, v := OUCH_FMT, RawOf(o);
    assert Pack1(f[0], v[0]) == [TYPE_ENTER] && Pack1(f[1], v[1]) == Shifted4(o.ref) && Pack1(f[2], v[2]) == [o.side];
    assert Pack1(f[3], v[3]) == Shifted4(o.qty) && Pack1(f[4], v[4]) == o.symbol;
    assert Pack1(f[5], v[5]) == ZERO4 + Shifted4(o.price);
    hide Pack1, PackFrom, FitAll, RawOf, Shifted4, Trailer, BE;
    PackFromStep(f, v, 0);
    PackFromStep(f, v, 1);
    PackFromStep(f, v, 2);
    PackFromStep(f, v, 3);
    PackFromStep(f, v, 4);
    PackFromStep(f, v, 5);
  }

  /** An order's bytes are the packed record of its fields. */
  lemma OrderIsPacked(o: Order)
    requires Sendable(o) && Fits32(o)
    ensures FitAll(OUCH_FMT, RawOf(o)) && OrderBytes(o) == Pack(OUCH_FMT, RawOf(o))
  {
    OrderFits(o);
    PackFromIsPack(OUCH_FMT, RawOf(o), 0);
    assert OUCH_FMT[0..] == OUCH_FMT && RawOf(o)[0..] == RawOf(o);
    hide OrderBytes, Pack, PackFrom, Nested;
    BytesShape(o);
    PackedShape(o);
  }

  /** A decoded record carries exactly the order's fields, and the constants of every order. */
  ghost predicate Carries(k: Fields, o: Order) {
    CarriesOwn(k, o) && CarriesFlags(k) && CarriesRest(k)
  }

  ghost predicate CarriesOwn(k: Fields, o: Order) {
    && "UserRefNum" in k && k["UserRefNum"] == VInt(o.ref)
    && "Side" in k && k["Side"] == VText([o.side])
    && "Quantity" in k && k["Quantity"] == VInt(o.qty)
    && "Symbol" in k && k["Symbol"] == VText(Strip(o.symbol))
    && "Price" in k && k["Price"] == VPrice(o.price as real / 10000.0)
  }

  ghost predicate CarriesFlags(k: Fields) {
    && HasText(k, "MessageType", "O") && HasText(k, "TimeInForce", "0") && HasText(k, "Display", "Y")
    && HasText(k, "Capacity", "P") && HasText(k, "CrossType", "N")
  }

  ghost predicate CarriesRest(k: Fields) {
    && HasText(k, "CIOrdID", "CLORD_ID001XXX")
    && "InterMarketSweepEligibility" in k && k["InterMarketSweepEligibility"] == VBytes(['Y' as int])
    && "AppendageLength" in k && k["AppendageLength"] == VInt(0)
    && "Appendage" in k && k["Appendage"] == VText([0])
  }

  /** The field is the text, in ASCII. */
  ghost predicate HasText(k: Fields, name: string, text: string) {
    && name in k && k[name].VText? && |k[name].t| == |text|
    && forall j :: 0 <= j < |text| ==> k[name].t[j] == text[j] as int
  }

  lemma SideText(side: byte)
    requires side in {SIDE_BUY, SIDE_SELL, SIDE_NO}
    ensures Convert(Alpha, RStr([side])) == VText([side])
  {
  }

  lemma {:induction false} NothingStripped(b: seq<byte>)
    requires b != [] && !IsSpace(b[0]) && !IsSpace(b[|b| - 1])
    ensures Strip(b) == b
  {
  }

  /** The constants of an order as they are decoded. */
  lemma ConstantsConverted()
    ensures Convert(Alpha, RStr([TYPE_ENTER])) == VText([79]) && Convert(Alpha, RStr([48])) == VText([48])
    ensures Convert(Alpha, RStr([89])) == VText([89]) && Convert(Alpha, RStr([80])) == VText([80])
    ensures Convert(Alpha, RStr([78])) == VText([78]) && Convert(Alpha, RStr([0])) == VText([0])
    ensures Convert(Alpha, RStr(CLORD)) == VText(CLORD) && Convert(Integer, RStr([89])) == VBytes([89])
  {
    NothingStripped([TYPE_ENTER]);
    NothingStripped([48]);
    NothingStripped([89]);
    NothingStripped([80]);
    NothingStripped([78]);
    NothingStripped([0]);
    NothingStripped(CLORD);
  }

  lemma OuchNames()
    ensures DistinctNames(OUCH_DEFS)
  {
    var d := OUCH_DEFS;
    assert |d[0].name| == 11 && |d[1].name| == 10 && |d[2].name| == 4 && |d[3].name| == 8 && |d[4].name| == 6;
    assert |d[5].name| == 5 && |d[6].name| == 11 && |d[7].name| == 7 && |d[8].name| == 8 && |d[9].name| == 27;
    assert |d[10].name| == 9 && |d[11].name| == 7 && |d[12].name| == 15 && |d[13].name| == 8 + 1;
    assert d[0].name[0] != d[6].name[0] && d[3].name[0] != d[8].name[0];
    assert d[7].name[0] != d[11].name[0] && d[10].name[0] != d[13].name[0];
  }

  lemma Converted(o: Order)
    requires Sendable(o) && Fits32(o)
    ensures Carries(FieldsOf(OUCH_DEFS, RawOf(o), Convert, 14), o)
  {
    OuchNames();
    hide Strip, DistinctNames, FieldsOf, CarriesOwn, CarriesFlags, CarriesRest;
    ConvertedOwn(o);
    ConvertedFlags(o);
    ConvertedRest(o);
  }

  lemma ConvertedOwn(o: Order)
    requires Sendable(o) && Fits32(o) && DistinctNames(OUCH_DEFS)
    ensures CarriesOwn(FieldsOf(OUCH_DEFS, RawOf(o), Convert, 14), o)
  {
    var v := RawOf(o);
    SideText(o.side);
    hide Strip, DistinctNames;
    FieldAt(OUCH_DEFS, v, Convert, 14, 1);
    FieldAt(OUCH_DEFS, v, Convert, 14, 2);
    FieldAt(OUCH_DEFS, v, Convert, 14, 3);
    FieldAt(OUCH_DEFS, v, Convert, 14, 4);
    FieldAt(OUCH_DEFS, v, Convert, 14, 5);
    hide FieldsOf;
  }

  lemma ConvertedAt(o: Order, i: nat, name: string, value: Value)
    requires Sendable(o) && Fits32(o) && DistinctNames(OUCH_DEFS) && i < 14
    requires OUCH_DEFS[i].name == name && Convert(OUCH_DEFS[i].kind, RawOf(o)[i]) == value
    ensures var k := FieldsOf(OUCH_DEFS, RawOf(o), Convert, 14); name in k && k[name] == value
  {
    hide FieldsOf, DistinctNames, Convert;
    FieldAt(OUCH_DEFS, RawOf(o), Convert, 14, i);
  }

  lemma ConvertedFlags(o: Order)
    requires Sendable(o) && Fits32(o) && DistinctNames(OUCH_DEFS)
    ensures CarriesFlags(FieldsOf(OUCH_DEFS, RawOf(o), Convert, 14))
  {
    hide FieldsOf, DistinctNames, Convert;
    ConstantsConverted();
    ConvertedAt(o, 0, "MessageType", VText([79]));
    ConvertedAt(o, 6, "TimeInForce", VText([48]));
    ConvertedAt(o, 7, "Display", VText([89]));
    ConvertedAt(o, 8, "Capacity", VText([80]));
    ConvertedAt(o, 10, "CrossType", VText([78]));
  }

  lemma ConvertedRest(o: Order)
    requires Sendable(o) && Fits32(o) && DistinctNames(OUCH_DEFS)
    ensures CarriesRest(FieldsOf(OUCH_DEFS, RawOf(o), Convert, 14))
  {
    hide FieldsOf, DistinctNames;
    ConstantsConverted();
    hide Strip;
    ConvertedAt(o, 9, "InterMarketSweepEligibility", VBytes([89]));
    ConvertedAt(o, 11, "CIOrdID", VText(CLORD));
    ConvertedAt(o, 12, "AppendageLength", VInt(0));
    ConvertedAt(o, 13, "Appendage", VText([0]));
  }

  /** Packing and decoding an order gives its fields back, for all 32-bit field values. */
  lemma OrderRoundTrip(o: Order)
    requires Sendable(o) && Fits32(o)
    ensures Decoded(OrderBytes(o)).Message? && Carries(Decoded(OrderBytes(o)).fields, o)
  {
    OrderIsPacked(o);
    OuchSize();
    PackUnpack(OUCH_FMT, RawOf(o));
    Converted(o);
    assert OrderBytes(o)[0] == TYPE_ENTER;
    hide OrderBytes, FieldsOf, Pack, Unpack, Size, FitAll, Carries;
  }

  // ---------- a whole portfolio message ----------

  ghost function OrdersBytes(os: seq<Order>): (b: seq<byte>)
    requires forall i :: 0 <= i < |os| ==> |os[i].symbol| == 8
    ensures |b| == ORDER_BYTES * |os| && |b| % 4 == 0
  {
    if os == [] then [] else OrdersBytes(os[..|os| - 1]) + OrderBytes(Last(os))
  }

  /** The portfolio value and the orders, before word reversal. */
  ghost function Blob(portfolio: nat, os: seq<Order>): (b: seq<byte>)
    requires forall i :: 0 <= i < |os| ==> |os[i].symbol| == 8
    ensures |b| == 4 + ORDER_BYTES * |os| && |b| % 4 == 0
  {
    BE(portfolio, 4) + OrdersBytes(os)
  }

  /** What the server makes of a message: nothing unless it has 196 bytes. */
  datatype Handled = Ignored | Handled(portfolio: nat, records: seq<DecodeResult>)

  ghost function Chunk(m: seq<byte>, i: nat): seq<byte>
    requires |m| == BLOB_BYTES && i < ORDERS
  {
    m[4 + ORDER_BYTES * i..4 + ORDER_BYTES * (i + 1)]
  }

  /** The records of the first n chunks; an exception ends the loop. */
  ghost function Records(m: seq<byte>, n: nat): (rs: seq<DecodeResult>)
    requires |m| == BLOB_BYTES && n <= ORDERS
    ensures |rs| <= n
  {
    if n == 0 then []
    else
      var rs := Records(m, n - 1);
      if rs != [] && Last(rs).Raised? then rs else rs + [Decoded(Chunk(m, n - 1))]
  }

  /** The records are those of the four chunks in order, up to and including the first that raised. */
  lemma {:induction false} RecordsAre(m: seq<byte>, n: nat)
    requires |m| == BLOB_BYTES && n <= ORDERS
    ensures forall i :: 0 <= i < |Records(m, n)| ==> Records(m, n)[i] == Decoded(m[4 + 48 * i..4 + 48 * (i + 1)])
    ensures forall i :: 0 <= i < |Records(m, n)| - 1 ==> !Records(m, n)[i].Raised?
    ensures |Records(m, n)| == n || (Records(m, n) != [] && Last(Records(m, n)).Raised?)
    decreases n
  {
    hide Decoded;
    if n > 0 { RecordsAre(m, n - 1); }
  }

  method HandleIncomingMessage(message: seq<byte>) returns (h: Handled)
    ensures h == if |message| != BLOB_BYTES then Ignored else Handled(FromBE(message[..4]), Records(message, ORDERS))
  {
    if |message| != BLOB_BYTES { return Ignored; }
    var portfolio := FromBE(message[..4]);
    var chunkData := message[4..];
    var records: seq<DecodeResult> := [];
    var i := 0;
    ghost var k := 0;
    hide FromBE, Decoded;
    while i < |chunkData|
      invariant i == ORDER_BYTES * k && k <= ORDERS
      invariant records == Records(message, k)
      invariant records == [] || !Last(records).Raised?
    {
      var chunk := chunkData[i..i + ORDER_BYTES];
      assert chunk == Chunk(message, k);
      var r := DecodeMessage(chunk[..1], chunk[1..]);
      assert chunk[..1] + chunk[1..] == chunk;
      records := records + [r];
      if r.Raised? {
        StaysRaised(message, k + 1, ORDERS);
        return Handled(portfolio, records);
      }
      i, k := i + ORDER_BYTES, k + 1;
    }
    h := Handled(portfolio, records);
  }

  lemma {:induction false} StaysRaised(m: seq<byte>, k: nat, n: nat)
    requires |m| == BLOB_BYTES && k <= n <= ORDERS && Records(m, k) != [] && Last(Records(m, k)).Raised?
    ensures Records(m, n) == Records(m, k)
    decreases n - k
  {
    if k < n { StaysRaised(m, k, n - 1); }
  }

  lemma {:induction false} OrdersBytesAt(os: seq<Order>, i: nat)
    requires i < |os| && forall k :: 0 <= k < |os| ==> |os[k].symbol| == 8
    ensures OrdersBytes(os)[ORDER_BYTES * i..ORDER_BYTES * (i + 1)] == OrderBytes(os[i])
    decreases |os|
  {
    hide OrderBytes;
    var p := os[..|os| - 1];
    assert OrdersBytes(os) == OrdersBytes(p) + OrderBytes(Last(os));
    if i < |os| - 1 {
      OrdersBytesAt(p, i);
      assert ORDER_BYTES * (i + 1) <= |OrdersBytes(p)|;
    }
  }

  ghost predicate AllSendable(os: seq<Order>) {
    forall i :: 0 <= i < |os| ==> |os[i].symbol| == 8 && Sendable(os[i]) && Fits32(os[i])
  }

  lemma ChunkIsOrder(portfolio: nat, os: seq<Order>, i: nat)
    requires AllSendable(os) && |os| == ORDERS && i < ORDERS
    ensures Chunk(Blob(portfolio, os), i) == OrderBytes(os[i])
  {
    hide OrderBytes, OrdersBytes;
    OrdersBytesAt(os, i);
    var m := Blob(portfolio, os);
    assert m[4..] == OrdersBytes(os);
    assert Chunk(m, i) == m[4..][ORDER_BYTES * i..ORDER_BYTES * (i + 1)];
  }

  lemma {:induction false} RecordsCarry(portfolio: nat, os: seq<Order>, n: nat)
    requires AllSendable(os) && |os| == ORDERS && n <= ORDERS
    ensures var rs := Records(Blob(portfolio, os), n);
            |rs| == n && forall i :: 0 <= i < n ==> rs[i].Message? && Carries(rs[i].fields, os[i])
    decreases n
  {
    hide Carries, Decoded, Blob, OrderBytes, Chunk;
    if n > 0 {
      RecordsCarry(portfolio, os, n - 1);
      ChunkIsOrder(portfolio, os, n - 1);
      OrderRoundTrip(os[n - 1]);
    }
  }

  /** Sent, reversed at the sender, reversed at the server, sliced and decoded: the value and all four orders come
      back. */
  lemma BlobRoundTrip(portfolio: nat, os: seq<Order>)
    requires portfolio < WORD && AllSendable(os) && |os| == ORDERS
    ensures var m := Reversed(Reversed(Blob(portfolio, os)));
            && |m| == BLOB_BYTES && FromBE(m[..4]) == portfolio && |Records(m, ORDERS)| == ORDERS
            && forall i :: 0 <= i < ORDERS ==>
              Records(m, ORDERS)[i].Message? && Carries(Records(m, ORDERS)[i].fields, os[i])
  {
    var m := Blob(portfolio, os);
    ReversedTwice(m);
    PowFacts();
    NumberRoundTrip(portfolio, 4);
    assert m[..4] == BE(portfolio, 4);
    hide Reversed, Records, Carries, Blob, Pow256, BE;
    RecordsCarry(portfolio, os, ORDERS);
  }
}
