/** The five stages and their FIFO streams as a step system, one word read or written per step. */
module Pipeline {
  import opened Words
  import opened Floats
  import opened LinearAlgebra
  import opened Covariance
  import opened Orderbook
  import opened TaParsers
  import opened CovUpdates
  import opened QrStages
  import opened OrderGenAxis
  import opened Channels

  const MATRIX := 16

  /** The stages' buffers and streams; snaps, prices, covSeen, mats and given record what each stage has fired on. */
  datatype Pipe = Pipe(
    snaps: seq<seq<nat>>, bookOut: seq<nat>, ticks: Chan<nat>,
    taIn: seq<nat>, prices: seq<Vec>, taCov: Vec, taOg: Vec, covCh: Chan<real>, ogCh: Chan<real>,
    covIn: Vec, covSeen: seq<Vec>, mats: seq<Vec>, covOut: Vec, matCh: Chan<real>,
    qrIn: Vec, given: seq<seq<Weight>>, qrOut: seq<Weight>, wCh: Chan<Weight>,
    ogPrices: Vec, ogWeights: seq<Weight>, log: seq<(Vec, seq<Weight>)>, aborted: nat)

  ghost function Init(): Pipe {
    Pipe([], [], Chan([], 0), [], [], [], [], Chan([], 0), Chan([], 0), [], [], [], [], Chan([], 0),
         [], [], [], Chan([], 0), [], [], [], 0)
  }

  /** Publish starts a snapshot; every other action moves one word. QrRead carries the weights it emits when
      it fires. */
  datatype Action =
    | Publish(d: seq<nat>) | BookWrite | TaRead | TaWriteCov | TaWriteOg
    | CovRead | CovWrite | QrRead(ws: seq<Weight>) | QrWrite | OgReadPrice | OgReadWeight

  ghost predicate Enabled(s: Pipe, a: Action) {
    match a
    case Publish(d) => s.bookOut == [] && SnapshotOK(d)
    case BookWrite => s.bookOut != []
    case TaRead => s.taCov == [] && s.taOg == [] && Nonempty(s.ticks)
    case TaWriteCov => s.taCov != []
    case TaWriteOg => s.taCov == [] && s.taOg != []
    case CovRead => s.covOut == [] && Nonempty(s.covCh)
    case CovWrite => s.covOut != []
    case QrRead(ws) =>
      && s.qrOut == [] && Nonempty(s.matCh)
      && (|s.qrIn| == MATRIX - 1 ==> WeightsFor(Unflat(s.qrIn + [Head(s.matCh)], SIZE), ws))
    case QrWrite => s.qrOut != []
    case OgReadPrice => |s.ogPrices| < NUM_STOCKS && Nonempty(s.ogCh)
    case OgReadWeight => |s.ogPrices| == NUM_STOCKS && Nonempty(s.wCh)
  }

  /** The parser fires on its 80th word; only its first firing sends nothing to order generation. */
  ghost function TaReads(s: Pipe): Pipe
    requires Nonempty(s.ticks)
  {
    var buf := s.taIn + [Head(s.ticks)];
    var r := s.(ticks := Pop(s.ticks));
    if |buf| != SNAPSHOT_WORDS then r.(taIn := buf)
    else
      var p := MarketPrices(buf);
      r.(taIn := [], prices := s.prices + [p], taCov := p, taOg := if s.prices == [] then [] else p)
  }

  /** The covariance stage fires on its fourth word; its first firing sends nothing. The invariant keeps zero prices
      out; the second half of the guard only makes the function total. */
  ghost function CovReads(kind: ReturnKind, s: Pipe): Pipe
    requires Nonempty(s.covCh)
  {
    var buf := s.covIn + [Head(s.covCh)];
    var r := s.(covCh := Pop(s.covCh));
    if |buf| != NUM_STOCKS then r.(covIn := buf)
    else
      var seen := s.covSeen + [buf];
      if s.covSeen == [] || !Prices(seen, NUM_STOCKS) then r.(covIn := [], covSeen := seen)
      else
        var m := Flat(CovAfter(kind, seen, NUM_STOCKS), NUM_STOCKS);
        r.(covIn := [], covSeen := seen, mats := s.mats + [m], covOut := m)
  }

  ghost function QrReads(s: Pipe, ws: seq<Weight>): Pipe
    requires Nonempty(s.matCh)
  {
    var buf := s.qrIn + [Head(s.matCh)];
    var r := s.(matCh := Pop(s.matCh));
    if |buf| != MATRIX then r.(qrIn := buf)
    else r.(qrIn := [], given := s.given + [ws], qrOut := ws)
  }

  /** A rejected weight ends the firing early; the fourth accepted one completes it. */
  ghost function OgReads(s: Pipe): Pipe
    requires Nonempty(s.wCh)
  {
    var x := Head(s.wCh);
    var buf := s.ogWeights + [x];
    var r := s.(wCh := Pop(s.wCh));
    if Rejected(x) then r.(ogPrices := [], ogWeights := [], aborted := s.aborted + 1)
    else if |buf| != NUM_STOCKS then r.(ogWeights := buf)
    else r.(ogPrices := [], ogWeights := [], log := s.log + [(s.ogPrices, buf)])
  }

  ghost function Next(kind: ReturnKind, s: Pipe, a: Action): Pipe
    requires Enabled(s, a)
  {
    match a
    case Publish(d) => s.(snaps := s.snaps + [d], bookOut := d)
    case BookWrite => s.(ticks := Push(s.ticks, s.bookOut[0]), bookOut := s.bookOut[1..])
    case TaRead => TaReads(s)
    case TaWriteCov => s.(covCh := Push(s.covCh, s.taCov[0]), taCov := s.taCov[1..])
    case TaWriteOg => s.(ogCh := Push(s.ogCh, s.taOg[0]), taOg := s.taOg[1..])
    case CovRead => CovReads(kind, s)
    case CovWrite => s.(matCh := Push(s.matCh, s.covOut[0]), covOut := s.covOut[1..])
    case QrRead(ws) => QrReads(s, ws)
    case QrWrite => s.(wCh := Push(s.wCh, s.qrOut[0]), qrOut := s.qrOut[1..])
    case OgReadPrice => s.(ogCh := Pop(s.ogCh), ogPrices := s.ogPrices + [Head(s.ogCh)])
    case OgReadWeight => OgReads(s)
  }

  // ---------- the invariant, channel by channel ----------

  ghost function Tail<T>(s: seq<T>): seq<T> {
    if s == [] then [] else s[1..]
  }

  /** Book to parser. */
  ghost predicate TicksOK(s: Pipe) {
    && Writer(s.ticks, s.bookOut, s.snaps, SNAPSHOT_WORDS)
    && Reader(s.ticks, s.taIn, |s.prices|, SNAPSHOT_WORDS)
    && (forall i :: 0 <= i < |s.snaps| ==> SnapshotOK(s.snaps[i]))
    && |s.prices| <= |s.snaps|
    && (forall i :: 0 <= i < |s.prices| ==> |s.snaps[i]| == SNAPSHOT_WORDS && s.prices[i] == MarketPrices(s.snaps[i]))
  }

  /** Parser to covariance. */
  ghost predicate CovChOK(s: Pipe) {
    && Writer(s.covCh, s.taCov, s.prices, NUM_STOCKS)
    && Reader(s.covCh, s.covIn, |s.covSeen|, NUM_STOCKS)
    && |s.covSeen| <= |s.prices| && s.covSeen == s.prices[..|s.covSeen|]
    && Prices(s.prices, NUM_STOCKS)
  }

  /** Covariance to solver: one matrix for every price vector but the first. */
  ghost predicate MatChOK(kind: ReturnKind, s: Pipe) {
    && Writer(s.matCh, s.covOut, s.mats, MATRIX)
    && Reader(s.matCh, s.qrIn, |s.given|, MATRIX)
    && |s.mats| == |Tail(s.covSeen)| && |s.given| <= |s.mats|
    && Prices(s.covSeen, NUM_STOCKS)
    && (forall i :: 0 <= i < |s.mats| ==> MatrixAt(kind, s, i))
    && (forall i :: 0 <= i < |s.given| ==> GivenAt(kind, s, i))
  }

  /** Matrix i is the covariance after price vectors 0 to i + 1. */
  ghost predicate MatrixAt(kind: ReturnKind, s: Pipe, i: nat)
    requires Prices(s.covSeen, NUM_STOCKS) && i < |s.mats| && |s.mats| <= |Tail(s.covSeen)|
  {
    s.mats[i] == Flat(CovAfter(kind, s.covSeen[..i + 2], NUM_STOCKS), NUM_STOCKS)
  }

  /** Weight group i belongs to that matrix. */
  ghost predicate GivenAt(kind: ReturnKind, s: Pipe, i: nat)
    requires Prices(s.covSeen, NUM_STOCKS) && i < |s.given| && |s.given| <= |Tail(s.covSeen)|
  {
    WeightsFor(CovAfter(kind, s.covSeen[..i + 2], NUM_STOCKS), s.given[i])
  }

  /** Parser and solver to order generation. */
  ghost predicate OgOK(s: Pipe) {
    && Writer(s.ogCh, s.taOg, Tail(s.prices), NUM_STOCKS)
    && Writer(s.wCh, s.qrOut, s.given, NUM_STOCKS)
    && (forall i, j :: 0 <= i < |s.given| && 0 <= j < |s.given[i]| ==> InUnit(s.given[i][j]))
    && s.aborted == 0
    && OgPricesOK(s) && Reader(s.wCh, s.ogWeights, |s.log|, NUM_STOCKS)
    && (s.ogWeights != [] ==> |s.ogPrices| == NUM_STOCKS)
    && |s.log| <= |s.given| && |s.log| <= |Tail(s.prices)|
    && (forall j :: 0 <= j < |s.log| ==> s.log[j] == (Tail(s.prices)[j], s.given[j]))
  }

  /** A complete price group may be held while its weights are still on the way. */
  ghost predicate OgPricesOK(s: Pipe) {
    if |s.ogPrices| == NUM_STOCKS then
      Reader(s.ogCh, [], |s.log| + 1, NUM_STOCKS) && |s.log| < |Tail(s.prices)| && s.ogPrices == Tail(s.prices)[|s.log|]
    else Reader(s.ogCh, s.ogPrices, |s.log|, NUM_STOCKS)
  }

  ghost predicate Inv(kind: ReturnKind, s: Pipe) {
    TicksOK(s) && CovChOK(s) && MatChOK(kind, s) && OgOK(s)
  }

  lemma InitInv(kind: ReturnKind)
    ensures Inv(kind, Init())
  {
  }

  // ---------- every action keeps the invariant ----------

  lemma SameTicks(s: Pipe, t: Pipe)
    requires TicksOK(s)
    requires t.ticks == s.ticks && t.bookOut == s.bookOut && t.snaps == s.snaps && t.taIn == s.taIn
    requires t.prices == s.prices
    ensures TicksOK(t)
  {
  }

  lemma SameCovCh(s: Pipe, t: Pipe)
    requires CovChOK(s)
    requires t.covCh == s.covCh && t.taCov == s.taCov && t.prices == s.prices && t.covIn == s.covIn
    requires t.covSeen == s.covSeen
    ensures CovChOK(t)
  {
  }

  lemma SameMatCh(kind: ReturnKind, s: Pipe, t: Pipe)
    requires MatChOK(kind, s)
    requires t.matCh == s.matCh && t.covOut == s.covOut && t.mats == s.mats && t.qrIn == s.qrIn
    requires t.given == s.given && t.covSeen == s.covSeen
    ensures MatChOK(kind, t)
  {
    SameMats(kind, s, t);
    hide Writer, Reader;
  }

  /** Matrices and weights already there stay those of the same price vectors. */
  lemma SameMats(kind: ReturnKind, s: Pipe, t: Pipe)
    requires MatChOK(kind, s) && s.covSeen <= t.covSeen && Prices(t.covSeen, NUM_STOCKS)
    requires s.mats <= t.mats && s.given <= t.given && |t.mats| <= |Tail(t.covSeen)| && |t.given| <= |t.mats|
    ensures forall i :: 0 <= i < |s.mats| ==> MatrixAt(kind, t, i)
    ensures forall i :: 0 <= i < |s.given| ==> GivenAt(kind, t, i)
  {
    hide Writer, Reader, CovAfter, Flat, WeightsFor;
    forall i | 0 <= i < |s.mats| ensures MatrixAt(kind, t, i) {
      assert MatrixAt(kind, s, i) && t.covSeen[..i + 2] == s.covSeen[..i + 2];
    }
    forall i | 0 <= i < |s.given| ensures GivenAt(kind, t, i) {
      assert GivenAt(kind, s, i) && t.covSeen[..i + 2] == s.covSeen[..i + 2];
    }
  }

  lemma SameOg(s: Pipe, t: Pipe)
    requires OgOK(s)
    requires t.ogCh == s.ogCh && t.taOg == s.taOg && t.prices == s.prices
    requires t.wCh == s.wCh && t.qrOut == s.qrOut && t.given == s.given
    requires t.aborted == s.aborted && t.ogPrices == s.ogPrices && t.ogWeights == s.ogWeights && t.log == s.log
    ensures OgOK(t)
  {
    hide Writer, Reader;
  }

  lemma TicksPublish(s: Pipe, t: Pipe, d: seq<nat>)
    requires TicksOK(s) && s.bookOut == [] && SnapshotOK(d)
    requires t.ticks == s.ticks && t.taIn == s.taIn && t.prices == s.prices && t.snaps == s.snaps + [d]
    requires t.bookOut == d
    ensures TicksOK(t)
  {
    Emit(s.ticks, s.snaps, SNAPSHOT_WORDS, d);
    hide Writer, Reader, MarketPrices;
  }

  lemma TicksWrite(s: Pipe, t: Pipe)
    requires TicksOK(s) && s.bookOut != []
    requires t.taIn == s.taIn && t.prices == s.prices && t.snaps == s.snaps
    requires t.ticks == Push(s.ticks, s.bookOut[0]) && t.bookOut == s.bookOut[1..]
    ensures TicksOK(t)
  {
    WriteOne(s.ticks, s.bookOut, s.snaps, SNAPSHOT_WORDS);
    ReaderSeesWrite(s.ticks, s.taIn, |s.prices|, SNAPSHOT_WORDS, s.bookOut[0]);
    hide Writer, Reader, MarketPrices;
  }

  lemma TicksPart(s: Pipe, t: Pipe)
    requires TicksOK(s) && Nonempty(s.ticks) && |s.taIn| + 1 < SNAPSHOT_WORDS
    requires t.bookOut == s.bookOut && t.snaps == s.snaps && t.prices == s.prices
    requires t.ticks == Pop(s.ticks) && t.taIn == s.taIn + [Head(s.ticks)]
    ensures TicksOK(t)
  {
    ReadPart(s.ticks, s.taIn, |s.prices|, SNAPSHOT_WORDS);
    hide Writer, Reader, MarketPrices;
  }

  lemma TicksFire(s: Pipe, t: Pipe)
    requires TicksOK(s) && Nonempty(s.ticks) && |s.taIn| + 1 == SNAPSHOT_WORDS
    requires t.bookOut == s.bookOut && t.snaps == s.snaps && t.ticks == Pop(s.ticks) && t.taIn == []
    requires t.prices == s.prices + [MarketPrices(s.taIn + [Head(s.ticks)])]
    ensures TicksOK(t) && SnapshotOK(s.taIn + [Head(s.ticks)])
  {
    ReadLast(s.ticks, s.taIn, |s.prices|, SNAPSHOT_WORDS, s.bookOut, s.snaps);
    hide Writer, Reader, MarketPrices;
  }

  lemma PricesPositive(d: seq<nat>)
    requires SnapshotOK(d)
    ensures forall i :: 0 <= i < NUM_STOCKS ==> MarketPrices(d)[i] > 0.0
  {
    forall i | 0 <= i < NUM_STOCKS ensures MarketPrices(d)[i] > 0.0 { MarketPricePositive(d, i); }
  }

  lemma CovChFire(s: Pipe, t: Pipe, p: Vec)
    requires CovChOK(s) && s.taCov == [] && |p| == NUM_STOCKS && forall i :: 0 <= i < NUM_STOCKS ==> p[i] != 0.0
    requires t.covCh == s.covCh && t.covIn == s.covIn && t.covSeen == s.covSeen
    requires t.prices == s.prices + [p] && t.taCov == p
    ensures CovChOK(t)
  {
    Emit(s.covCh, s.prices, NUM_STOCKS, p);
    assert t.prices[..|s.covSeen|] == s.prices[..|s.covSeen|];
    hide Writer, Reader;
  }

  lemma OgFire(s: Pipe, t: Pipe, p: Vec)
    requires OgOK(s) && s.taOg == [] && |p| == NUM_STOCKS
    requires t.ogCh == s.ogCh && t.prices == s.prices + [p] && t.taOg == (if s.prices == [] then [] else p)
    requires t.wCh == s.wCh && t.qrOut == s.qrOut && t.given == s.given
    requires t.aborted == s.aborted && t.ogPrices == s.ogPrices && t.ogWeights == s.ogWeights && t.log == s.log
    ensures OgOK(t)
  {
    hide Reader, InUnit;
    if s.prices != [] {
      Emit(s.ogCh, Tail(s.prices), NUM_STOCKS, p);
      assert Tail(t.prices) == Tail(s.prices) + [p];
    } else {
      assert Tail(t.prices) == [];
    }
    hide Writer;
  }

  lemma KeepTaPart(kind: ReturnKind, s: Pipe, t: Pipe)
    requires Inv(kind, s) && Nonempty(s.ticks) && |s.taIn| + 1 < SNAPSHOT_WORDS
    requires t == s.(ticks := Pop(s.ticks), taIn := s.taIn + [Head(s.ticks)])
    ensures Inv(kind, t)
  {
    hide TicksOK, CovChOK, MatChOK, OgOK;
    TicksPart(s, t);
    SameCovCh(s, t);
    SameMatCh(kind, s, t);
    SameOg(s, t);
  }

  lemma KeepTaFire(kind: ReturnKind, s: Pipe, d: seq<nat>, t: Pipe)
    requires Inv(kind, s) && Nonempty(s.ticks) && |s.taIn| + 1 == SNAPSHOT_WORDS && s.taCov == [] && s.taOg == []
    requires d == s.taIn + [Head(s.ticks)]
    requires t == s.(ticks := Pop(s.ticks), taIn := [],
                     prices := s.prices + [MarketPrices(d)], taCov := MarketPrices(d),
                     taOg := if s.prices == [] then [] else MarketPrices(d))
    ensures Inv(kind, t)
  {
    hide TicksOK, CovChOK, MatChOK, OgOK, MarketPrices, SnapshotOK, Head, Pop, Nonempty;
    TicksFire(s, t);
    PricesPositive(d);
    CovChFire(s, t, MarketPrices(d));
    SameMatCh(kind, s, t);
    OgFire(s, t, MarketPrices(d));
  }

  lemma KeepTaRead(kind: ReturnKind, s: Pipe)
    requires Inv(kind, s) && Enabled(s, TaRead)
    ensures Inv(kind, Next(kind, s, TaRead))
  {
    assert Reader(s.ticks, s.taIn, |s.prices|, SNAPSHOT_WORDS);
    assert |s.taIn| < SNAPSHOT_WORDS;
    hide Inv, TicksOK, CovChOK, MatChOK, OgOK, MarketPrices, Reader;
    if |s.taIn| + 1 < SNAPSHOT_WORDS {
      KeepTaPart(kind, s, Next(kind, s, TaRead));
    } else {
      KeepTaFire(kind, s, s.taIn + [Head(s.ticks)], Next(kind, s, TaRead));
    }
  }

  lemma CovChWrite(s: Pipe, t: Pipe)
    requires CovChOK(s) && s.taCov != []
    requires t.prices == s.prices && t.covIn == s.covIn && t.covSeen == s.covSeen
    requires t.covCh == Push(s.covCh, s.taCov[0]) && t.taCov == s.taCov[1..]
    ensures CovChOK(t)
  {
    WriteOne(s.covCh, s.taCov, s.prices, NUM_STOCKS);
    ReaderSeesWrite(s.covCh, s.covIn, |s.covSeen|, NUM_STOCKS, s.taCov[0]);
    hide Writer, Reader;
  }

  lemma OgWritePrice(s: Pipe, t: Pipe)
    requires OgOK(s) && s.taOg != []
    requires t.ogCh == Push(s.ogCh, s.taOg[0]) && t.taOg == s.taOg[1..]
    requires t.prices == s.prices && t.wCh == s.wCh && t.qrOut == s.qrOut && t.given == s.given
    requires t.aborted == s.aborted && t.ogPrices == s.ogPrices && t.ogWeights == s.ogWeights && t.log == s.log
    ensures OgOK(t)
  {
    WriteOne(s.ogCh, s.taOg, Tail(s.prices), NUM_STOCKS);
    if |s.ogPrices| == NUM_STOCKS {
      ReaderSeesWrite(s.ogCh, [], |s.log| + 1, NUM_STOCKS, s.taOg[0]);
    } else {
      ReaderSeesWrite(s.ogCh, s.ogPrices, |s.log|, NUM_STOCKS, s.taOg[0]);
    }
    hide Writer, Reader;
  }

  lemma CovChPart(s: Pipe, t: Pipe)
    requires CovChOK(s) && Nonempty(s.covCh) && |s.covIn| + 1 < NUM_STOCKS
    requires t.prices == s.prices && t.taCov == s.taCov && t.covSeen == s.covSeen
    requires t.covCh == Pop(s.covCh) && t.covIn == s.covIn + [Head(s.covCh)]
    ensures CovChOK(t)
  {
    ReadPart(s.covCh, s.covIn, |s.covSeen|, NUM_STOCKS);
    hide Writer, Reader;
  }

  lemma CovChTake(s: Pipe, t: Pipe)
    requires CovChOK(s) && Nonempty(s.covCh) && |s.covIn| + 1 == NUM_STOCKS
    requires t.prices == s.prices && t.taCov == s.taCov && t.covCh == Pop(s.covCh) && t.covIn == []
    requires t.covSeen == s.covSeen + [s.covIn + [Head(s.covCh)]]
    ensures CovChOK(t) && Prices(t.covSeen, NUM_STOCKS)
  {
    ReadLast(s.covCh, s.covIn, |s.covSeen|, NUM_STOCKS, s.taCov, s.prices);
    assert t.covSeen == s.prices[..|t.covSeen|];
    hide Writer, Reader;
  }

  lemma MatChFire(kind: ReturnKind, s: Pipe, t: Pipe)
    requires MatChOK(kind, s) && s.covOut == []
    requires Prices(t.covSeen, NUM_STOCKS) && |t.covSeen| == |s.covSeen| + 1 && s.covSeen <= t.covSeen
    requires t.matCh == s.matCh && t.qrIn == s.qrIn && t.given == s.given
    requires if s.covSeen == [] then t.mats == s.mats && t.covOut == []
             else t.covOut == Flat(CovAfter(kind, t.covSeen, NUM_STOCKS), NUM_STOCKS) && t.mats == s.mats + [t.covOut]
    ensures MatChOK(kind, t)
  {
    SameMats(kind, s, t);
    if s.covSeen != [] {
      FlatLength(CovAfter(kind, t.covSeen, NUM_STOCKS), NUM_STOCKS, NUM_STOCKS);
      Emit(s.matCh, s.mats, MATRIX, t.covOut);
      assert t.covSeen[..|s.mats| + 2] == t.covSeen;
      assert MatrixAt(kind, t, |s.mats|);
    }
    hide Writer, Reader, MatrixAt, GivenAt, CovAfter, Flat;
  }

  lemma KeepCovPart(kind: ReturnKind, s: Pipe, t: Pipe)
    requires Inv(kind, s) && Nonempty(s.covCh) && |s.covIn| + 1 < NUM_STOCKS
    requires t == s.(covCh := Pop(s.covCh), covIn := s.covIn + [Head(s.covCh)])
    ensures Inv(kind, t)
  {
    hide TicksOK, CovChOK, MatChOK, OgOK;
    SameTicks(s, t);
    CovChPart(s, t);
    SameMatCh(kind, s, t);
    SameOg(s, t);
  }

  lemma KeepCovTake(kind: ReturnKind, s: Pipe, t: Pipe)
    requires Inv(kind, s) && Nonempty(s.covCh) && |s.covIn| + 1 == NUM_STOCKS && s.covOut == []
    requires t == CovReads(kind, s)
    ensures Inv(kind, t)
  {
    hide TicksOK, CovChOK, MatChOK, OgOK, CovAfter, Flat;
    assert t.covSeen == s.covSeen + [s.covIn + [Head(s.covCh)]];
    CovChTake(s, t);
    SameTicks(s, t);
    SameOg(s, t);
    MatChFire(kind, s, t);
  }

  lemma KeepCovRead(kind: ReturnKind, s: Pipe)
    requires Inv(kind, s) && Enabled(s, CovRead)
    ensures Inv(kind, Next(kind, s, CovRead))
  {
    assert Reader(s.covCh, s.covIn, |s.covSeen|, NUM_STOCKS);
    assert |s.covIn| < NUM_STOCKS;
    if |s.covIn| + 1 < NUM_STOCKS {
      assert CovReads(kind, s) == s.(covCh := Pop(s.covCh), covIn := s.covIn + [Head(s.covCh)]);
      hide Inv, TicksOK, CovChOK, MatChOK, OgOK, Reader, CovReads;
      KeepCovPart(kind, s, Next(kind, s, CovRead));
    } else {
      hide Inv, TicksOK, CovChOK, MatChOK, OgOK, Reader, CovReads;
      KeepCovTake(kind, s, Next(kind, s, CovRead));
    }
  }

  lemma MatChWrite(kind: ReturnKind, s: Pipe, t: Pipe)
    requires MatChOK(kind, s) && s.covOut != []
    requires t.mats == s.mats && t.qrIn == s.qrIn && t.given == s.given && t.covSeen == s.covSeen
    requires t.matCh == Push(s.matCh, s.covOut[0]) && t.covOut == s.covOut[1..]
    ensures MatChOK(kind, t)
  {
    SameMats(kind, s, t);
    WriteOne(s.matCh, s.covOut, s.mats, MATRIX);
    ReaderSeesWrite(s.matCh, s.qrIn, |s.given|, MATRIX, s.covOut[0]);
    hide Writer, Reader, MatrixAt, GivenAt;
  }

  lemma MatChPart(kind: ReturnKind, s: Pipe, t: Pipe)
    requires MatChOK(kind, s) && Nonempty(s.matCh) && |s.qrIn| + 1 < MATRIX
    requires t.mats == s.mats && t.covOut == s.covOut && t.given == s.given && t.covSeen == s.covSeen
    requires t.matCh == Pop(s.matCh) && t.qrIn == s.qrIn + [Head(s.matCh)]
    ensures MatChOK(kind, t)
  {
    SameMats(kind, s, t);
    ReadPart(s.matCh, s.qrIn, |s.given|, MATRIX);
    hide Writer, Reader, MatrixAt, GivenAt;
  }

  /** The weights given for a completed group of words are those of the matrix that the group is. */
  lemma WeightsOfGroup(kind: ReturnKind, s: Pipe, words: Vec, ws: seq<Weight>)
    requires MatChOK(kind, s) && |s.given| < |s.mats| && words == s.mats[|s.given|] && |words| == MATRIX
    requires WeightsFor(Unflat(words, SIZE), ws)
    ensures WeightsFor(CovAfter(kind, s.covSeen[..|s.given| + 2], NUM_STOCKS), ws)
    ensures |ws| == NUM_STOCKS && forall j :: 0 <= j < |ws| ==> InUnit(ws[j])
  {
    var k := |s.given|;
    assert MatrixAt(kind, s, k);
    var C := CovAfter(kind, s.covSeen[..k + 2], NUM_STOCKS);
    hide MatChOK, CovAfter, Flat, Unflat, InUnit;
    UnflatFlat(C, NUM_STOCKS);
    WeightsInUnit(C, ws);
  }

  lemma MatChTake(kind: ReturnKind, s: Pipe, t: Pipe, ws: seq<Weight>)
    requires MatChOK(kind, s) && Nonempty(s.matCh) && |s.qrIn| + 1 == MATRIX
    requires WeightsFor(Unflat(s.qrIn + [Head(s.matCh)], SIZE), ws)
    requires t.mats == s.mats && t.covOut == s.covOut && t.covSeen == s.covSeen
    requires t.matCh == Pop(s.matCh) && t.qrIn == [] && t.given == s.given + [ws]
    ensures MatChOK(kind, t)
    ensures |ws| == NUM_STOCKS && forall j :: 0 <= j < |ws| ==> InUnit(ws[j])
  {
    hide Unflat, WeightsFor, CovAfter, Flat, InUnit, MatrixAt;
    var k := |s.given|;
    ReadLast(s.matCh, s.qrIn, k, MATRIX, s.covOut, s.mats);
    hide Writer, Reader, Head, Pop, Nonempty;
    WeightsOfGroup(kind, s, s.qrIn + [Head(s.matCh)], ws);
    SameMats(kind, s, t);
    assert GivenAt(kind, t, k);
    hide GivenAt;
  }

  lemma OgEmit(s: Pipe, t: Pipe, ws: seq<Weight>)
    requires OgOK(s) && s.qrOut == [] && |ws| == NUM_STOCKS && forall j :: 0 <= j < |ws| ==> InUnit(ws[j])
    requires t.ogCh == s.ogCh && t.taOg == s.taOg && t.prices == s.prices
    requires t.wCh == s.wCh && t.qrOut == ws && t.given == s.given + [ws]
    requires t.aborted == s.aborted && t.ogPrices == s.ogPrices && t.ogWeights == s.ogWeights && t.log == s.log
    ensures OgOK(t)
  {
    Emit(s.wCh, s.given, NUM_STOCKS, ws);
    hide Writer, Reader, InUnit;
  }

  lemma KeepQrRead(kind: ReturnKind, s: Pipe, ws: seq<Weight>)
    requires Inv(kind, s) && Enabled(s, QrRead(ws))
    ensures Inv(kind, Next(kind, s, QrRead(ws)))
  {
    var t := Next(kind, s, QrRead(ws));
    assert Reader(s.matCh, s.qrIn, |s.given|, MATRIX);
    assert |s.qrIn| < MATRIX;
    hide TicksOK, CovChOK, MatChOK, OgOK, WeightsFor, Unflat;
    SameTicks(s, t);
    SameCovCh(s, t);
    if |s.qrIn| + 1 < MATRIX {
      MatChPart(kind, s, t);
      SameOg(s, t);
    } else {
      MatChTake(kind, s, t, ws);
      OgEmit(s, t, ws);
    }
  }

  lemma OgWriteWeight(s: Pipe, t: Pipe)
    requires OgOK(s) && s.qrOut != []
    requires t.ogCh == s.ogCh && t.taOg == s.taOg && t.prices == s.prices && t.given == s.given
    requires t.wCh == Push(s.wCh, s.qrOut[0]) && t.qrOut == s.qrOut[1..]
    requires t.aborted == s.aborted && t.ogPrices == s.ogPrices && t.ogWeights == s.ogWeights && t.log == s.log
    ensures OgOK(t)
  {
    WriteOne(s.wCh, s.qrOut, s.given, NUM_STOCKS);
    ReaderSeesWrite(s.wCh, s.ogWeights, |s.log|, NUM_STOCKS, s.qrOut[0]);
    hide Writer, Reader, InUnit;
  }

  lemma OgReadsPrice(s: Pipe, t: Pipe)
    requires OgOK(s) && Nonempty(s.ogCh) && |s.ogPrices| < NUM_STOCKS
    requires t.ogCh == Pop(s.ogCh) && t.ogPrices == s.ogPrices + [Head(s.ogCh)]
    requires t.taOg == s.taOg && t.prices == s.prices && t.wCh == s.wCh && t.qrOut == s.qrOut && t.given == s.given
    requires t.aborted == s.aborted && t.ogWeights == s.ogWeights && t.log == s.log
    ensures OgOK(t)
  {
    if |s.ogPrices| + 1 < NUM_STOCKS {
      ReadPart(s.ogCh, s.ogPrices, |s.log|, NUM_STOCKS);
    } else {
      ReadLast(s.ogCh, s.ogPrices, |s.log|, NUM_STOCKS, s.taOg, Tail(s.prices));
    }
    hide Writer, Reader, InUnit;
  }

  lemma OgReadsWeight(s: Pipe, t: Pipe)
    requires OgOK(s) && Nonempty(s.wCh) && |s.ogPrices| == NUM_STOCKS && t == OgReads(s)
    ensures OgOK(t)
  {
    NotRejected(s);
    if |s.ogWeights| + 1 < NUM_STOCKS {
      ReadPart(s.wCh, s.ogWeights, |s.log|, NUM_STOCKS);
    } else {
      ReadLast(s.wCh, s.ogWeights, |s.log|, NUM_STOCKS, s.qrOut, s.given);
    }
    hide Writer, Reader, InUnit, Rejected;
  }

  /** Every word waiting for order generation is an acceptable weight. */
  lemma NotRejected(s: Pipe)
    requires OgOK(s) && Nonempty(s.wCh)
    ensures !Rejected(Head(s.wCh))
  {
    assert Head(s.wCh) == Concat(s.given)[s.wCh.rd] by { assert s.wCh.hist == (s.wCh.hist + s.qrOut)[..|s.wCh.hist|]; }
    ConcatMember(s.given, s.wCh.rd);
  }

  lemma {:induction false} ConcatMember(gs: seq<seq<Weight>>, k: nat)
    requires k < |Concat(gs)| && forall i, j :: 0 <= i < |gs| && 0 <= j < |gs[i]| ==> InUnit(gs[i][j])
    ensures InUnit(Concat(gs)[k])
    decreases |gs|
  {
    var p := gs[..|gs| - 1];
    if k < |Concat(p)| {
      ConcatMember(p, k);
    } else {
      assert Concat(gs)[k] == gs[|gs| - 1][k - |Concat(p)|];
    }
  }

  lemma KeepInv(kind: ReturnKind, s: Pipe, a: Action)
    requires Inv(kind, s) && Enabled(s, a)
    ensures Inv(kind, Next(kind, s, a))
  {
    match a
    case TaRead => KeepTaRead(kind, s);
    case CovRead => KeepCovRead(kind, s);
    case QrRead(ws) => KeepQrRead(kind, s, ws);
    case Publish(_) => KeepTicksActions(kind, s, a);
    case BookWrite => KeepTicksActions(kind, s, a);
    case TaWriteCov => KeepCovActions(kind, s, a);
    case CovWrite => KeepCovActions(kind, s, a);
    case TaWriteOg => KeepOgActions(kind, s, a);
    case QrWrite => KeepOgActions(kind, s, a);
    case OgReadPrice => KeepOgActions(kind, s, a);
    case OgReadWeight => KeepOgActions(kind, s, a);
  }

  lemma KeepTicksActions(kind: ReturnKind, s: Pipe, a: Action)
    requires Inv(kind, s) && Enabled(s, a) && (a.Publish? || a.BookWrite?)
    ensures Inv(kind, Next(kind, s, a))
  {
    hide TicksOK, CovChOK, MatChOK, OgOK, SnapshotOK;
    var t := Next(kind, s, a);
    SameCovCh(s, t);
    SameMatCh(kind, s, t);
    SameOg(s, t);
    if a.Publish? { TicksPublish(s, t, a.d); } else { TicksWrite(s, t); }
  }

  lemma KeepCovActions(kind: ReturnKind, s: Pipe, a: Action)
    requires Inv(kind, s) && Enabled(s, a) && (a.TaWriteCov? || a.CovWrite?)
    ensures Inv(kind, Next(kind, s, a))
  {
    hide TicksOK, CovChOK, MatChOK, OgOK;
    var t := Next(kind, s, a);
    SameTicks(s, t);
    SameOg(s, t);
    if a.TaWriteCov? {
      CovChWrite(s, t);
      SameMatCh(kind, s, t);
    } else {
      SameCovCh(s, t);
      MatChWrite(kind, s, t);
    }
  }

  lemma KeepOgActions(kind: ReturnKind, s: Pipe, a: Action)
    requires Inv(kind, s) && Enabled(s, a) && (a.TaWriteOg? || a.QrWrite? || a.OgReadPrice? || a.OgReadWeight?)
    ensures Inv(kind, Next(kind, s, a))
  {
    hide TicksOK, CovChOK, MatChOK, OgOK;
    var t := Next(kind, s, a);
    SameTicks(s, t);
    SameCovCh(s, t);
    SameMatCh(kind, s, t);
    match a
    case TaWriteOg => OgWritePrice(s, t);
    case QrWrite => OgWriteWeight(s, t);
    case OgReadPrice => OgReadsPrice(s, t);
    case OgReadWeight => OgReadsWeight(s, t);
  }

  // ---------- every run ----------

  /** s is reached from the initial state by the actions, each enabled when it happens. */
  ghost predicate Reaches(kind: ReturnKind, acts: seq<Action>, s: Pipe)
    decreases |acts|
  {
    if acts == [] then s == Init()
    else exists r :: Reaches(kind, acts[..|acts| - 1], r) && Enabled(r, Last(acts)) && s == Next(kind, r, Last(acts))
  }

  lemma {:induction false} ReachableInv(kind: ReturnKind, acts: seq<Action>, s: Pipe)
    requires Reaches(kind, acts, s)
    ensures Inv(kind, s)
    decreases |acts|
  {
    hide Inv, Next;
    if acts == [] {
      InitInv(kind);
    } else {
      var r :| Reaches(kind, acts[..|acts| - 1], r) && Enabled(r, Last(acts)) && s == Next(kind, r, Last(acts));
      ReachableInv(kind, acts[..|acts| - 1], r);
      KeepInv(kind, r, Last(acts));
    }
  }

  /** In every interleaving, firing j of order generation pairs the prices of snapshot j + 1 with the weights computed
      from snapshots 0 to j + 1, and never gives up early. */
  lemma Aligned(kind: ReturnKind, acts: seq<Action>, s: Pipe, j: nat)
    requires Reaches(kind, acts, s) && j < |s.log|
    ensures s.aborted == 0 && j + 1 < |s.snaps|
    ensures forall i :: 0 <= i < |s.snaps| ==> |s.snaps[i]| == SNAPSHOT_WORDS
    ensures var h := seq(j + 2, i requires 0 <= i < j + 2 => MarketPrices(s.snaps[i]));
            && s.log[j].0 == MarketPrices(s.snaps[j + 1])
            && Prices(h, NUM_STOCKS) && WeightsFor(CovAfter(kind, h, NUM_STOCKS), s.log[j].1)
  {
    ReachableInv(kind, acts, s);
    hide Reaches, Writer, Reader, SnapshotOK, CovAfter, WeightsFor, MarketPrices;
    PricesOfSnaps(s);
    LogEntry(kind, s, j);
    var h := seq(j + 2, i requires 0 <= i < j + 2 => MarketPrices(s.snaps[i]));
    assert h == s.prices[..j + 2];
    assert s.covSeen[..j + 2] == s.prices[..j + 2];
  }

  lemma PricesOfSnaps(s: Pipe)
    requires TicksOK(s)
    ensures |s.prices| <= |s.snaps| && forall i :: 0 <= i < |s.snaps| ==> |s.snaps[i]| == SNAPSHOT_WORDS
    ensures forall i :: 0 <= i < |s.prices| ==> s.prices[i] == MarketPrices(s.snaps[i])
  {
    hide MarketPrices, Writer, Reader;
    forall i | 0 <= i < |s.snaps| ensures |s.snaps[i]| == SNAPSHOT_WORDS { assert SnapshotOK(s.snaps[i]); }
  }

  lemma LogEntry(kind: ReturnKind, s: Pipe, j: nat)
    requires Inv(kind, s) && j < |s.log|
    ensures s.aborted == 0 && j + 1 < |s.covSeen| <= |s.prices| && s.covSeen == s.prices[..|s.covSeen|]
    ensures s.log[j].0 == s.prices[j + 1]
    ensures Prices(s.covSeen[..j + 2], NUM_STOCKS)
    ensures WeightsFor(CovAfter(kind, s.covSeen[..j + 2], NUM_STOCKS), s.log[j].1)
  {
    hide Writer, Reader, CovAfter, WeightsFor, TicksOK;
    assert GivenAt(kind, s, j);
  }

  /** What order generation is given does not depend on the schedule: equal snapshots, equal firings. */
  lemma ScheduleIndependent(kind: ReturnKind, acts: seq<Action>, s: Pipe, bcts: seq<Action>, t: Pipe, j: nat)
    requires Reaches(kind, acts, s) && Reaches(kind, bcts, t) && s.snaps == t.snaps
    requires j < |s.log| && j < |t.log|
    ensures s.log[j] == t.log[j]
  {
    Aligned(kind, acts, s, j);
    Aligned(kind, bcts, t, j);
    var h := seq(j + 2, i requires 0 <= i < j + 2 => MarketPrices(s.snaps[i]));
    WeightsUnique(CovAfter(kind, h, NUM_STOCKS), s.log[j].1, t.log[j].1);
  }

  /** The first three firings always get words that are no numbers: their covariance matrices are singular. */
  lemma FirstFiringsSingular(kind: ReturnKind, acts: seq<Action>, s: Pipe, j: nat)
    requires Reaches(kind, acts, s) && j < |s.log| && j < NUM_STOCKS - 1
    ensures s.log[j].1 == [NotANumber, NotANumber, NotANumber, NotANumber]
  {
    Aligned(kind, acts, s, j);
    var h := seq(j + 2, i requires 0 <= i < j + 2 => MarketPrices(s.snaps[i]));
    FirstMatricesSingular(kind, h, NUM_STOCKS);
    hide CovAfter, MarketPrices;
  }

  // ---------- when the stages get numbers ----------

  /** Firing j gets numbers exactly when no nonzero direction is orthogonal to all returns of snapshots 1 to j + 1. */
  lemma NumbersExactly(kind: ReturnKind, acts: seq<Action>, s: Pipe, j: nat)
    requires Reaches(kind, acts, s) && j < |s.log|
    ensures j + 1 < |s.snaps| && forall i :: 0 <= i < |s.snaps| ==> |s.snaps[i]| == SNAPSHOT_WORDS
    ensures var h := seq(j + 2, i requires 0 <= i < j + 2 => MarketPrices(s.snaps[i]));
            && Prices(h, NUM_STOCKS) && |s.log[j].1| == NUM_STOCKS
            && (AllNum(s.log[j].1) <==> !exists v :: OrthogonalToReturns(kind, h, NUM_STOCKS, v) && NonZero(v))
            && (!AllNum(s.log[j].1) ==> forall i :: 0 <= i < NUM_STOCKS ==> s.log[j].1[i] == NotANumber)
  {
    Aligned(kind, acts, s, j);
    var h := seq(j + 2, i requires 0 <= i < j + 2 => MarketPrices(s.snaps[i]));
    hide Reaches, MarketPrices;
    NumbersWhenRegular(CovAfter(kind, h, NUM_STOCKS), s.log[j].1);
    ReturnsDecide(kind, h, NUM_STOCKS);
    hide CovAfter, WeightsFor, Singular, OrthogonalToReturns, NonZero;
  }

  /** Once firings get numbers they always do: more returns leave fewer directions. */
  lemma NumbersStay(kind: ReturnKind, acts: seq<Action>, s: Pipe, j: nat, k: nat)
    requires Reaches(kind, acts, s) && j <= k < |s.log| && AllNum(s.log[j].1)
    ensures AllNum(s.log[k].1)
  {
    NumbersExactly(kind, acts, s, j);
    NumbersExactly(kind, acts, s, k);
    hide Reaches, MarketPrices, NonZero, Returns, Dot;
    var g := seq(j + 2, i requires 0 <= i < j + 2 => MarketPrices(s.snaps[i]));
    var h := seq(k + 2, i requires 0 <= i < k + 2 => MarketPrices(s.snaps[i]));
    forall v | OrthogonalToReturns(kind, h, NUM_STOCKS, v) ensures OrthogonalToReturns(kind, g, NUM_STOCKS, v) {
      forall t | 1 <= t < |g| ensures Dot(Returns(kind, g[t - 1], g[t]), v, 0, NUM_STOCKS) == 0.0 {
        assert g[t] == h[t] && g[t - 1] == h[t - 1];
      }
    }
  }

  lemma NumbersWhenRegular(K: Mat, ws: seq<Weight>)
    requires |K| > 0 && WeightsFor(K, ws)
    ensures |ws| == |K| && (AllNum(ws) <==> !Singular(K))
    ensures !AllNum(ws) ==> forall i :: 0 <= i < |ws| ==> ws[i] == NotANumber
  {
    hide Singular, Solves;
    if Singular(K) { assert ws[0] == NotANumber; }
  }

  // ---------- coming to rest ----------

  /** No stage can move: only a new snapshot can change anything. */
  ghost predicate AtRest(s: Pipe) {
    forall a :: Enabled(s, a) ==> a.Publish?
  }

  /** What that means for the buffers and streams. */
  ghost predicate Idle(s: Pipe) {
    && s.bookOut == [] && s.taCov == [] && s.taOg == [] && s.covOut == [] && s.qrOut == []
    && !Nonempty(s.ticks) && !Nonempty(s.covCh) && !Nonempty(s.matCh)
    && (|s.ogPrices| < NUM_STOCKS ==> !Nonempty(s.ogCh))
    && (|s.ogPrices| == NUM_STOCKS ==> !Nonempty(s.wCh))
  }

  lemma IdleRests(s: Pipe)
    requires Idle(s)
    ensures AtRest(s)
  {
    hide WeightsFor, Unflat, SnapshotOK, Nonempty;
  }

  /** At the solver's sixteenth word there are weights to emit for every matrix. */
  lemma SolverMoves(s: Pipe) returns (a: Action)
    requires s.qrOut == [] && Nonempty(s.matCh) && |s.qrIn| < MATRIX
    ensures Enabled(s, a) && !a.Publish?
  {
    hide WeightsFor;
    if |s.qrIn| == MATRIX - 1 {
      var ws := SomeWeights(Unflat(s.qrIn + [Head(s.matCh)], SIZE));
      a := QrRead(ws);
    } else {
      a := QrRead([]);
    }
  }

  lemma BuffersBounded(kind: ReturnKind, s: Pipe)
    requires Inv(kind, s)
    ensures |s.qrIn| < MATRIX && |s.ogPrices| <= NUM_STOCKS
  {
    assert Reader(s.matCh, s.qrIn, |s.given|, MATRIX) && OgPricesOK(s);
    hide Writer, MatrixAt, GivenAt, TicksOK, CovChOK;
  }

  /** A reachable pipeline that is not idle has a stage that can move. */
  lemma SomeMove(kind: ReturnKind, s: Pipe) returns (a: Action)
    requires Inv(kind, s) && !Idle(s)
    ensures Enabled(s, a) && !a.Publish?
  {
    BuffersBounded(kind, s);
    hide Inv, WeightsFor, SnapshotOK, Nonempty, Unflat;
    if s.bookOut != [] { return BookWrite; }
    if s.taCov != [] { return TaWriteCov; }
    if s.taOg != [] { return TaWriteOg; }
    if s.covOut != [] { return CovWrite; }
    if s.qrOut != [] { return QrWrite; }
    if Nonempty(s.ticks) { return TaRead; }
    if Nonempty(s.covCh) { return CovRead; }
    if Nonempty(s.matCh) {
      a := SolverMoves(s);
      return;
    }
    if |s.ogPrices| < NUM_STOCKS { return OgReadPrice; }
    return OgReadWeight;
  }

  lemma RestIsIdle(kind: ReturnKind, s: Pipe)
    requires Inv(kind, s)
    ensures AtRest(s) <==> Idle(s)
  {
    hide Inv, Idle, Enabled;
    if Idle(s) { IdleRests(s); } else { var a := SomeMove(kind, s); }
  }

  /** At rest nothing is left behind: order generation has fired once per snapshot after the first. */
  lemma NothingStuck(kind: ReturnKind, acts: seq<Action>, s: Pipe)
    requires Reaches(kind, acts, s) && AtRest(s)
    ensures |s.log| == |Tail(s.snaps)|
    ensures s.taIn == [] && s.covIn == [] && s.qrIn == [] && s.ogPrices == [] && s.ogWeights == []
    ensures !Nonempty(s.ogCh) && !Nonempty(s.wCh)
  {
    ReachableInv(kind, acts, s);
    RestIsIdle(kind, s);
    hide AtRest, Reaches;
    DrainedChan(s.ticks, s.taIn, |s.prices|, SNAPSHOT_WORDS, s.snaps);
    DrainedChan(s.covCh, s.covIn, |s.covSeen|, NUM_STOCKS, s.prices);
    DrainedChan(s.matCh, s.qrIn, |s.given|, MATRIX, s.mats);
    OgDrained(s);
  }

  lemma OgDrained(s: Pipe)
    requires OgOK(s) && Idle(s) && |s.given| == |Tail(s.prices)|
    ensures |s.log| == |s.given| && s.ogPrices == [] && s.ogWeights == [] && !Nonempty(s.ogCh) && !Nonempty(s.wCh)
  {
    if |s.ogPrices| == NUM_STOCKS {
      DrainedChan(s.wCh, s.ogWeights, |s.log|, NUM_STOCKS, s.given);
      assert false;
    } else {
      DrainedChan(s.ogCh, s.ogPrices, |s.log|, NUM_STOCKS, Tail(s.prices));
      ConcatLength(s.given, NUM_STOCKS);
      assert s.wCh.hist + [] == s.wCh.hist;
    }
  }

  // ---------- progress ----------

  /** Words moved so far. */
  ghost function Moved(s: Pipe): nat {
    |s.ticks.hist| + s.ticks.rd + |s.covCh.hist| + s.covCh.rd + |s.ogCh.hist| + s.ogCh.rd
    + |s.matCh.hist| + s.matCh.rd + |s.wCh.hist| + s.wCh.rd
  }

  lemma ReadsMoveOne(kind: ReturnKind, s: Pipe, a: Action)
    requires Enabled(s, a) && (a.TaRead? || a.CovRead? || a.QrRead? || a.OgReadWeight?)
    ensures Moved(Next(kind, s, a)) == Moved(s) + 1
  {
    hide MarketPrices, CovAfter, Flat, WeightsFor, Unflat, SnapshotOK, Rejected, Prices;
    match a
    case TaRead => assert TaReads(s).ticks == Pop(s.ticks);
    case CovRead => assert CovReads(kind, s).covCh == Pop(s.covCh);
    case QrRead(ws) => assert QrReads(s, ws).matCh == Pop(s.matCh);
    case OgReadWeight => assert OgReads(s).wCh == Pop(s.wCh);
  }

  /** Every action other than publishing moves exactly one word. */
  lemma EachMovesOne(kind: ReturnKind, s: Pipe, a: Action)
    requires Enabled(s, a)
    ensures Moved(Next(kind, s, a)) == Moved(s) + if a.Publish? then 0 else 1
  {
    hide TaReads, CovReads, QrReads, OgReads, WeightsFor, Unflat, SnapshotOK;
    if a.TaRead? || a.CovRead? || a.QrRead? || a.OgReadWeight? { ReadsMoveOne(kind, s, a); }
  }

  /** And a snapshot causes at most 216 moves, so the stages always come to rest. */
  lemma MovesBounded(kind: ReturnKind, acts: seq<Action>, s: Pipe)
    requires Reaches(kind, acts, s)
    ensures Moved(s) <= 216 * |s.snaps|
  {
    ReachableInv(kind, acts, s);
    hide SnapshotOK, MarketPrices, CovAfter, Flat;
    WriterBound(s.ticks, s.bookOut, s.snaps, SNAPSHOT_WORDS);
    WriterBound(s.covCh, s.taCov, s.prices, NUM_STOCKS);
    WriterBound(s.ogCh, s.taOg, Tail(s.prices), NUM_STOCKS);
    WriterBound(s.matCh, s.covOut, s.mats, MATRIX);
    WriterBound(s.wCh, s.qrOut, s.given, NUM_STOCKS);
    assert s.ticks.rd <= |s.ticks.hist| && s.covCh.rd <= |s.covCh.hist| && s.matCh.rd <= |s.matCh.hist|;
    assert s.ogCh.rd <= |s.ogCh.hist| && s.wCh.rd <= |s.wCh.hist|;
    hide Writer, Reader;
  }

  /** From every reachable state the stages come to rest without another snapshot, and order generation catches up. */
  lemma {:induction false} ComesToRest(kind: ReturnKind, acts: seq<Action>, s: Pipe)
    returns (more: seq<Action>, r: Pipe)
    requires Reaches(kind, acts, s)
    ensures Reaches(kind, more, r) && acts <= more && AtRest(r) && r.snaps == s.snaps && |r.log| == |Tail(s.snaps)|
    decreases 216 * |s.snaps| - Moved(s)
  {
    ReachableInv(kind, acts, s);
    RestIsIdle(kind, s);
    hide Inv, Idle, AtRest, Moved, Enabled, Next;
    if AtRest(s) {
      NothingStuck(kind, acts, s);
      return acts, s;
    }
    var a := SomeMove(kind, s);
    var t := Next(kind, s, a);
    Extends(kind, acts, s, a);
    EachMovesOne(kind, s, a);
    SameSnaps(kind, s, a);
    MovesBounded(kind, acts + [a], t);
    more, r := ComesToRest(kind, acts + [a], t);
  }

  /** Any snapshots can be published one after the other, with the stages at rest in between and order generation caught
      up in the end. */
  lemma {:induction false} RunOver(kind: ReturnKind, ds: seq<seq<nat>>) returns (acts: seq<Action>, s: Pipe)
    requires forall i :: 0 <= i < |ds| ==> SnapshotOK(ds[i])
    ensures Reaches(kind, acts, s) && AtRest(s) && s.snaps == ds && |s.log| == |Tail(ds)|
    decreases |ds|
  {
    hide SnapshotOK, Next, Reaches, AtRest;
    if ds == [] {
      acts, s := StartRun(kind);
    } else {
      acts, s := RunOver(kind, ds[..|ds| - 1]);
      acts, s := PublishNext(kind, acts, s, Last(ds));
      acts, s := ComesToRest(kind, acts, s);
      assert ds == ds[..|ds| - 1] + [Last(ds)];
    }
  }

  lemma StartRun(kind: ReturnKind) returns (acts: seq<Action>, s: Pipe)
    ensures Reaches(kind, acts, s) && AtRest(s) && s.snaps == [] && s.log == []
  {
    acts, s := [], Init();
    IdleRests(s);
  }

  lemma PublishNext(kind: ReturnKind, acts: seq<Action>, s: Pipe, d: seq<nat>) returns (more: seq<Action>, r: Pipe)
    requires Reaches(kind, acts, s) && AtRest(s) && SnapshotOK(d)
    ensures Reaches(kind, more, r) && r.snaps == s.snaps + [d]
  {
    ReachableInv(kind, acts, s);
    RestIsIdle(kind, s);
    hide Inv, AtRest, SnapshotOK, Reaches;
    assert Enabled(s, Publish(d));
    Extends(kind, acts, s, Publish(d));
    more, r := acts + [Publish(d)], Next(kind, s, Publish(d));
  }

  lemma Extends(kind: ReturnKind, acts: seq<Action>, s: Pipe, a: Action)
    requires Reaches(kind, acts, s) && Enabled(s, a)
    ensures Reaches(kind, acts + [a], Next(kind, s, a))
  {
    hide Next, Enabled;
    assert (acts + [a])[..|acts + [a]| - 1] == acts && Last(acts + [a]) == a;
  }

  lemma SameSnaps(kind: ReturnKind, s: Pipe, a: Action)
    requires Enabled(s, a) && !a.Publish?
    ensures Next(kind, s, a).snaps == s.snaps
  {
    hide MarketPrices, CovAfter, Flat, WeightsFor, Unflat, SnapshotOK, Rejected, Prices;
  }
}
