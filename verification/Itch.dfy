/** The ITCH-like feed: the encoder's 38-byte frames, the server's frame reader and the parser. */
module Itch {
  import opened Words
  import opened Bytes

  const FRAME := 38
  const BODY := 36

  const ROW_HEADERS: seq<byte> := [65, 69, 68, 88]   // A, E, D, X

  /** A row of the event file: header character, order reference, side, shares, stock and price. */
  datatype Row = Row(header: byte, ref: nat, buy: bool, shares: nat, stock: nat, price: nat)

  ghost predicate RowOK(r: Row) {
    r.header in ROW_HEADERS && r.ref < WORD && r.shares < WORD && r.stock < WORD && r.price < WORD
  }

  const AA: seq<byte> := [0xAA, 0xAA, 0xAA, 0xAA, 0xAA, 0xAA, 0xAA, 0xAA, 0xAA, 0xAA, 0xAA, 0xAA, 0xAA, 0xAA]
  const BB: seq<byte> := [0xBB, 0xBB, 0xBB, 0xBB]

  function SideByte(buy: bool): byte {
    if buy then 0 else 1
  }

  /** The frame of one row. */
  function Frame(r: Row): (f: seq<byte>)
    ensures |f| == FRAME
  {
    [0x00, 0x24, r.header] + AA + Shifted4(r.ref) + [SideByte(r.buy)]
    + Shifted4(r.shares) + Shifted4(r.stock) + BB + Shifted4(r.price)
  }

  /** Write one row into a zeroed 38-byte message, byte by byte. */
  method EncodeRow(r: Row) returns (msg: array<byte>)
    ensures fresh(msg) && msg[..] == Frame(r)
  {
    hide Shifted4;
    msg := new byte[FRAME](_ => 0);
    msg[0], msg[1], msg[2] := 0x00, 0x24, r.header;
    assert msg[..3] == [0x00, 0x24, r.header];
    PutBytes(msg, 3, AA);
    Put4(msg, 17, r.ref);
    ghost var head := msg[..21];
    msg[21] := SideByte(r.buy);
    assert msg[..22] == head + [SideByte(r.buy)];
    Put4(msg, 22, r.shares);
    Put4(msg, 26, r.stock);
    PutBytes(msg, 30, BB);
    Put4(msg, 34, r.price);
    assert msg[..] == msg[..38];
  }

  /** The file of a list of rows. */
  ghost function File(rows: seq<Row>): (f: seq<byte>)
    ensures |f| == FRAME * |rows|
  {
    if rows == [] then [] else Frame(rows[0]) + File(rows[1..])
  }

  lemma {:induction false} FileAppend(rows: seq<Row>, r: Row)
    ensures File(rows + [r]) == File(rows) + Frame(r)
    decreases |rows|
  {
    if rows != [] {
      FileAppend(rows[1..], r);
      assert (rows + [r])[1..] == rows[1..] + [r];
    } else {
      assert (rows + [r])[1..] == [];
    }
  }

  method CsvToBin(rows: seq<Row>) returns (f: seq<byte>)
    ensures f == File(rows)
  {
    f := [];
    for i := 0 to |rows|
      invariant f == File(rows[..i])
    {
      var msg := EncodeRow(rows[i]);
      assert rows[..i + 1] == rows[..i] + [rows[i]];
      FileAppend(rows[..i], rows[i]);
      f := f + msg[..];
    }
    assert rows[..|rows|] == rows;
  }

  // ---------- the reader ----------

  /** The length field. */
  function Length(f: seq<byte>): int
    requires |f| >= 2
  {
    256 * f[0] as int + f[1] as int
  }

  /** The complete messages at the front of the file; a zero length field takes in the whole rest. */
  ghost function ReadFrames(f: seq<byte>): (ms: seq<seq<byte>>)
    decreases |f|
  {
    if |f| < 3 then []
    else
      var remaining := Length(f) - 1;
      if remaining < 0 then [f]
      else if |f| - 3 < remaining then []
      else [f[..3 + remaining]] + ReadFrames(f[3 + remaining..])
  }

  method ReadMessages(f: seq<byte>) returns (ms: seq<seq<byte>>)
    ensures ms == ReadFrames(f)
  {
    ms := [];
    var pos := 0;
    while true
      invariant 0 <= pos <= |f|
      invariant ReadFrames(f) == ms + ReadFrames(f[pos..])
      decreases |f| - pos
    {
      ghost var rest := f[pos..];
      if |f| - pos < 2 { break; }
      var length := 256 * f[pos] as int + f[pos + 1] as int;
      if |f| - pos < 3 { break; }
      assert length == Length(rest);
      var remaining := length - 1;
      if remaining < 0 {
        assert ReadFrames(rest) == [rest] + ReadFrames(f[|f|..]);
        ms := ms + [f[pos..]];
        pos := |f|;
      } else {
        if |f| - pos - 3 < remaining { break; }
        assert rest[..3 + remaining] == f[pos..pos + 3 + remaining] &&
          rest[3 + remaining..] == f[pos + 3 + remaining..];
        ms := ms + [f[pos..pos + 3 + remaining]];
        pos := pos + 3 + remaining;
      }
    }
  }

  ghost function Frames(rows: seq<Row>): (fs: seq<seq<byte>>)
    ensures |fs| == |rows|
  {
    seq(|rows|, i requires 0 <= i < |rows| => Frame(rows[i]))
  }

  /** A complete frame is split off the front. */
  lemma ReadFirst(r: Row, rest: seq<byte>)
    ensures ReadFrames(Frame(r) + rest) == [Frame(r)] + ReadFrames(rest)
  {
    var g, f := Frame(r), Frame(r) + rest;
    assert Length(f) == BODY;
    assert f[..FRAME] == g && f[FRAME..] == rest;
  }

  lemma ReadEmpty()
    ensures ReadFrames([]) == []
  {
  }

  /** Part of a frame is not a message. */
  lemma ReadPart(r: Row, cut: nat)
    requires cut < FRAME
    ensures ReadFrames(Frame(r)[..cut]) == []
  {
    if cut >= 2 { assert Length(Frame(r)[..cut]) == BODY; }
  }

  /** Cutting an encoded file at any byte loses exactly the frame the cut falls into and those after it. */
  lemma {:induction false} CutFile(rows: seq<Row>, cut: nat)
    requires cut <= FRAME * |rows|
    ensures cut / FRAME <= |rows| && ReadFrames(File(rows)[..cut]) == Frames(rows[..cut / FRAME])
    decreases |rows|
  {
    hide Frame, ReadFrames;
    if rows == [] {
      assert File(rows)[..cut] == [];
      ReadEmpty();
    } else if cut >= FRAME {
      var k := cut / FRAME;
      assert File(rows)[..cut] == Frame(rows[0]) + File(rows[1..])[..cut - FRAME];
      ReadFirst(rows[0], File(rows[1..])[..cut - FRAME]);
      CutFile(rows[1..], cut - FRAME);
      assert (cut - FRAME) / FRAME == k - 1;
      assert rows[..k][1..] == rows[1..][..k - 1];
      assert Frames(rows[..k]) == [Frame(rows[0])] + Frames(rows[1..][..k - 1]);
    } else {
      assert File(rows)[..cut] == Frame(rows[0])[..cut];
      ReadPart(rows[0], cut);
    }
  }

  // ---------- the parser ----------

  const ITCH_FMT: seq<Slot> := [Str(1), Str(14), Uint(4), Uint(1), Uint(4), Uint(4), Str(4), Uint(4)]

  const ITCH_DEFS: seq<FieldDef> := [
    FieldDef("MessageType", Alpha), FieldDef("Dummy1", Alpha), FieldDef("OrderReferenceNumber", Integer),
    FieldDef("BuySellIndicator", Alpha), FieldDef("Shares", Integer), FieldDef("StockID", Integer),
    FieldDef("Dummy2", Alpha), FieldDef("Price", Integer)]

  /** Alpha fields lose bytes outside ASCII and surrounding blanks; a number stays a number. */
  function Convert(kind: Kind, raw: Raw): Value {
    match raw
    case RStr(b) => if kind == Alpha then VText(Strip(AsciiOnly(b))) else VBytes(b)
    case RUint(x) => VInt(x)
  }

  lemma ItchSize()
    ensures Size(ITCH_FMT) == BODY
  {
    var f := ITCH_FMT;
    assert f[0..] == f;
    hide Size;
    SizeFrom(f, 0);
    SizeFrom(f, 1);
    SizeFrom(f, 2);
    SizeFrom(f, 3);
    SizeFrom(f, 4);
    SizeFrom(f, 5);
    SizeFrom(f, 6);
    SizeFrom(f, 7);
    SizeFrom(f, 8);
  }

  /** A body is decoded exactly when its first byte is an A, E, D or X and it has 36. */
  ghost function Decoded(body: seq<byte>): (r: Option<Fields>)
    ensures r.Some? <==> |body| == 36 && body[0] in {'A' as int, 'E' as int, 'D' as int, 'X' as int}
  {
    ItchSize();
    if body == [] || body[0] !in ROW_HEADERS || |body| != BODY then None
    else Some(FieldsOf(ITCH_DEFS, Unpack(ITCH_FMT, body), Convert, |ITCH_DEFS|))
  }

  /** Decode a message type byte and the data after it; unknown types and wrong sizes give None. */
  method DecodeMessage(code: seq<byte>, data: seq<byte>) returns (r: Option<Fields>)
    requires |code| == 1
    ensures r == Decoded(code + data)
  {
    if code[0] !in ROW_HEADERS { return None; }
    var full := code + data;
    if |full| != BODY { return None; }
    ItchSize();
    var kwargs := FillFields(ITCH_DEFS, Unpack(ITCH_FMT, full), Convert);
    r := Some(kwargs);
  }

  /** The fields of a row as the layout orders them. */
  function RawOf(r: Row): (v: seq<Raw>)
    ensures |v| == |ITCH_FMT|
  {
    [RStr([r.header]), RStr(AA), RUint(r.ref), RUint(SideByte(r.buy)), RUint(r.shares),
      RUint(r.stock), RStr(BB), RUint(r.price)]
  }

  lemma RowFits(r: Row)
    requires RowOK(r)
    ensures FitAll(ITCH_FMT, RawOf(r))
  {
    PowFacts();
  }

  /** After its length field, a frame is the packed record of its row. */
  lemma FrameIsPacked(r: Row)
    requires RowOK(r)
    ensures FitAll(ITCH_FMT, RawOf(r)) && Frame(r)[2..] == Pack(ITCH_FMT, RawOf(r))
  {
    RowFits(r);
    PackFromIsPack(ITCH_FMT, RawOf(r), 0);
    assert ITCH_FMT[0..] == ITCH_FMT && RawOf(r)[0..] == RawOf(r);
    hide Frame, Pack, PackFrom;
    FrameShape(r);
    PackedShape(r);
  }

  /** The fields of a frame after its length, nested to the right. */
  function Nested(r: Row): seq<byte> {
    [r.header] + (AA + (Shifted4(r.ref) + ([SideByte(r.buy)]
      + (Shifted4(r.shares) + (Shifted4(r.stock) + (BB + (Shifted4(r.price) + [])))))))
  }

  lemma FrameShape(r: Row)
    ensures Frame(r)[2..] == Nested(r)
  {
    hide Shifted4;
  }

  lemma PackedShape(r: Row)
    requires RowOK(r)
    ensures FitAll(ITCH_FMT, RawOf(r)) && PackFrom(ITCH_FMT, RawOf(r), 0) == Nested(r)
  {
    var f, v := ITCH_FMT, RawOf(r);
    FieldBytes(r);
    hide Pack1, PackFrom, Shifted4, FitAll, RawOf;
    PackFromStep(f, v, 0);
    PackFromStep(f, v, 1);
    PackFromStep(f, v, 2);
    PackFromStep(f, v, 3);
    PackFromStep(f, v, 4);
    PackFromStep(f, v, 5);
    PackFromStep(f, v, 6);
    PackFromStep(f, v, 7);
    PackFromStep(f, v, 8);
  }

  /** Each packed field is the run of bytes the frame has for it. */
  lemma FieldBytes(r: Row)
    requires RowOK(r)
    ensures var f, v := ITCH_FMT, RawOf(r);
            && FitAll(f, v)
            && Pack1(f[0], v[0]) == [r.header] && Pack1(f[1], v[1]) == AA && Pack1(f[2], v[2]) == Shifted4(r.ref)
            && Pack1(f[3], v[3]) == [SideByte(r.buy)] && Pack1(f[4], v[4]) == Shifted4(r.shares)
            && Pack1(f[5], v[5]) == Shifted4(r.stock) && Pack1(f[6], v[6]) == BB &&
              Pack1(f[7], v[7]) == Shifted4(r.price)
  {
    RowFits(r);
    ShiftsAreBE(r.ref);
    ShiftsAreBE(r.shares);
    ShiftsAreBE(r.stock);
    ShiftsAreBE(r.price);
    assert BE(SideByte(r.buy), 1) == BE(0, 0) + [SideByte(r.buy)];
    hide Shifted4, FitAll;
  }

  /** A decoded record carries exactly the fields of the row; of the fillers no ASCII is left. */
  ghost predicate Carries(k: Fields, r: Row) {
    CarriesOwn(k, r) && CarriesFillers(k)
  }

  ghost predicate CarriesOwn(k: Fields, r: Row) {
    && "MessageType" in k && k["MessageType"] == VText([r.header])
    && "OrderReferenceNumber" in k && k["OrderReferenceNumber"] == VInt(r.ref)
    && "BuySellIndicator" in k && k["BuySellIndicator"] == VInt(if r.buy then 0 else 1)
    && "Shares" in k && k["Shares"] == VInt(r.shares)
    && "StockID" in k && k["StockID"] == VInt(r.stock)
    && "Price" in k && k["Price"] == VInt(r.price)
  }

  ghost predicate CarriesFillers(k: Fields) {
    "Dummy1" in k && k["Dummy1"] == VText([]) && "Dummy2" in k && k["Dummy2"] == VText([])
  }

  lemma HeaderText(h: byte)
    requires h in ROW_HEADERS
    ensures Convert(Alpha, RStr([h])) == VText([h])
  {
    assert AsciiOnly([h]) == [h] + AsciiOnly([]);
  }

  lemma {:induction false} NoAscii(b: seq<byte>)
    requires forall i :: 0 <= i < |b| ==> b[i] >= 128
    ensures AsciiOnly(b) == []
    decreases |b|
  {
    if b != [] { NoAscii(b[1..]); }
  }

  lemma FillerText(b: seq<byte>)
    requires forall i :: 0 <= i < |b| ==> b[i] >= 128
    ensures Convert(Alpha, RStr(b)) == VText([])
  {
    NoAscii(b);
  }

  lemma Converted(r: Row)
    requires RowOK(r)
    ensures Carries(FieldsOf(ITCH_DEFS, RawOf(r), Convert, 8), r)
  {
    hide CarriesOwn, CarriesFillers, FieldsOf;
    ConvertedOwn(r);
    ConvertedFillers(r);
  }

  lemma ConvertedOwn(r: Row)
    requires RowOK(r)
    ensures CarriesOwn(FieldsOf(ITCH_DEFS, RawOf(r), Convert, 8), r)
  {
    var v := RawOf(r);
    HeaderText(r.header);
    hide Strip, AsciiOnly;
    FieldAt(ITCH_DEFS, v, Convert, 8, 0);
    FieldAt(ITCH_DEFS, v, Convert, 8, 2);
    FieldAt(ITCH_DEFS, v, Convert, 8, 3);
    FieldAt(ITCH_DEFS, v, Convert, 8, 4);
    FieldAt(ITCH_DEFS, v, Convert, 8, 5);
    FieldAt(ITCH_DEFS, v, Convert, 8, 7);
    hide FieldsOf;
  }

  lemma ConvertedFillers(r: Row)
    requires RowOK(r)
    ensures CarriesFillers(FieldsOf(ITCH_DEFS, RawOf(r), Convert, 8))
  {
    hide FieldsOf, RawOf;
    ConvertedFiller(r, 1);
    ConvertedFiller(r, 6);
  }

  lemma FillerAt(r: Row, i: nat)
    requires i == 1 || i == 6
    ensures ITCH_DEFS[i] == FieldDef(if i == 1 then "Dummy1" else "Dummy2", Alpha)
    ensures Convert(Alpha, RawOf(r)[i]) == VText([])
  {
    hide Convert;
    if i == 1 { FillerText(AA); } else { FillerText(BB); }
  }

  lemma ConvertedFiller(r: Row, i: nat)
    requires i == 1 || i == 6
    ensures var k, name := FieldsOf(ITCH_DEFS, RawOf(r), Convert, 8), if i == 1 then "Dummy1" else "Dummy2";
            name in k && k[name] == VText([])
  {
    hide FieldsOf, Convert, RawOf;
    FillerAt(r, i);
    FieldAt(ITCH_DEFS, RawOf(r), Convert, 8, i);
  }

  /** Encoding a row, framing it and decoding the body gives the row back. */
  lemma RowRoundTrip(r: Row)
    requires RowOK(r)
    ensures Decoded(Frame(r)[2..]).Some? && Carries(Decoded(Frame(r)[2..]).value, r)
  {
    FrameIsPacked(r);
    ItchSize();
    PackUnpack(ITCH_FMT, RawOf(r));
    Converted(r);
    assert Frame(r)[2..][0] == r.header;
    hide Frame, FieldsOf, Pack, Unpack, Size, FitAll, Carries;
  }

  /** From rows to file to messages to records: all rows come back in order, and a cut file loses only its tail. */
  lemma FeedRoundTrip(rows: seq<Row>, cut: nat, i: nat)
    requires cut <= FRAME * |rows| && i < cut / FRAME && forall k :: 0 <= k < |rows| ==> RowOK(rows[k])
    ensures var ms := ReadFrames(File(rows)[..cut]);
            && |ms| == cut / FRAME <= |rows| && |ms[i]| == FRAME
            && Decoded(ms[i][2..]).Some? && Carries(Decoded(ms[i][2..]).value, rows[i])
  {
    CutFile(rows, cut);
    RowRoundTrip(rows[i]);
  }
}
