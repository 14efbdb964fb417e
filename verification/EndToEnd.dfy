/** From snapshots to the account: what order generation is given, when the hardware and the client trade, what the
    hardware's account does, and what of it reaches the log. */
module EndToEnd {
  import opened Words
  import opened Bytes
  import opened LinearAlgebra
  import opened Weights
  import opened Floats
  import opened Ouch
  import opened Orderbook
  import opened TaParsers
  import opened CovUpdates
  import opened QrStages
  import opened QRDecompLinSolvers
  import opened OrderGen
  import opened OrderGenAxis
  import opened HardwareAccounts
  import opened Replay
  import opened Pipeline
  import opened SnapshotPrices
  import opened ClientAccounts
  import opened ReturnsApart

  /** Prices in the range the ladders allow: at least one dollar, and small enough for the fixed-point field. */
  ghost predicate OnLadders(p: Vec) {
    |p| == NUM_STOCKS && forall i :: 0 <= i < NUM_STOCKS ==> 1.0 <= p[i] && p[i] * SCALE < WORD as real
  }

  lemma LadderPrices(d: seq<nat>)
    requires SnapshotOK(d)
    ensures OnLadders(MarketPrices(d))
  {
    forall i | 0 <= i < NUM_STOCKS
      ensures 1.0 <= MarketPrices(d)[i] && MarketPrices(d)[i] * SCALE < WORD as real
    {
      MarketPricePositive(d, i);
    }
  }

  lemma NumbersSound(K: Mat, ws: seq<Weight>, p: Vec)
    requires IsSquare(K, NUM_STOCKS) && WeightsFor(K, ws) && AllNum(ws) && OnLadders(p)
    ensures Sound(Numbers(ws), p)
  {
    assert ws[0].Num?;
    var raw :| Solves(K, Ones(NUM_STOCKS), raw) && ws == Nums(Project(raw));
    SolutionWeights(K, raw, NUM_STOCKS);
    assert Numbers(ws) == Project(raw);
  }

  /** In every interleaving, a firing of order generation has ladder prices, and its weights, if numbers, are a sound
      step's. */
  lemma FiringIsSound(kind: ReturnKind, acts: seq<Action>, s: Pipe, j: nat)
    requires Reaches(kind, acts, s) && j < |s.log|
    ensures OnLadders(s.log[j].0) && |s.log[j].1| == NUM_STOCKS
    ensures AllNum(s.log[j].1) ==> Sound(Numbers(s.log[j].1), s.log[j].0)
  {
    Aligned(kind, acts, s, j);
    ReachableInv(kind, acts, s);
    assert SnapshotOK(s.snaps[j + 1]);
    LadderPrices(s.snaps[j + 1]);
    var h := seq(j + 2, i requires 0 <= i < j + 2 => MarketPrices(s.snaps[i]));
    NumbersWhenRegular(CovAfter(kind, h, NUM_STOCKS), s.log[j].1);
    hide Reaches, Inv, Sound, OnLadders, CovAfter, WeightsFor, MarketPrices, SnapshotOK, Singular;
    if AllNum(s.log[j].1) { NumbersSound(CovAfter(kind, h, NUM_STOCKS), s.log[j].1, s.log[j].0); }
  }

  // ---------- the client on the hardware's snapshots ----------

  ghost predicate SnapsOK(snaps: seq<seq<nat>>) {
    forall i :: 0 <= i < |snaps| ==> SnapshotOK(snaps[i])
  }

  /** The market prices of snapshots. */
  ghost function PriceRun(snaps: seq<seq<nat>>): (h: seq<Vec>)
    requires SnapsOK(snaps)
    ensures |h| == |snaps| && PositivePrices(h) && Prices(h, NUM_STOCKS)
    ensures forall i :: 0 <= i < |snaps| ==> |snaps[i]| == SNAPSHOT_WORDS && h[i] == MarketPrices(snaps[i])
  {
    assert forall i :: 0 <= i < |snaps| ==> SnapshotOK(snaps[i]);
    var h := seq(|snaps|, i requires 0 <= i < |snaps| => MarketPrices(snaps[i]));
    AllPositive(snaps, h);
    h
  }

  lemma AllPositive(snaps: seq<seq<nat>>, h: seq<Vec>)
    requires SnapsOK(snaps) && |h| == |snaps|
    requires forall i :: 0 <= i < |snaps| ==> |snaps[i]| == SNAPSHOT_WORDS && h[i] == MarketPrices(snaps[i])
    ensures PositivePrices(h) && Prices(h, NUM_STOCKS)
  {
    hide MarketPrices;
    forall t | 0 <= t < |h| ensures |h[t]| == NUM_STOCKS && forall i :: 0 <= i < NUM_STOCKS ==> h[t][i] > 0.0 {
      assert SnapshotOK(snaps[t]);
      PricesPositive(snaps[t]);
    }
  }

  /** The market prices of the first n snapshots. */
  ghost function PricesUpTo(snaps: seq<seq<nat>>, n: nat): (h: seq<Vec>)
    requires SnapsOK(snaps) && n <= |snaps|
    ensures |h| == n && PositivePrices(h) && Prices(h, NUM_STOCKS)
  {
    PriceRun(snaps)[..n]
  }

  lemma SnapsReachable(kind: ReturnKind, acts: seq<Action>, s: Pipe)
    requires Reaches(kind, acts, s)
    ensures SnapsOK(s.snaps)
  {
    ReachableInv(kind, acts, s);
    hide SnapshotOK, MatChOK, OgOK, CovChOK;
  }

  lemma PairedPrices(kind: ReturnKind, acts: seq<Action>, s: Pipe, j: nat)
    requires Reaches(kind, acts, s) && j < |s.log|
    ensures SnapsOK(s.snaps) && j + 1 < |s.snaps| && s.log[j].0 == Last(PricesUpTo(s.snaps, j + 2))
    ensures WeightsFor(CovAfter(kind, PricesUpTo(s.snaps, j + 2), NUM_STOCKS), s.log[j].1)
  {
    hide Reaches, SnapshotOK, MarketPrices, CovAfter, WeightsFor, PositivePrices;
    SnapsReachable(kind, acts, s);
    Aligned(kind, acts, s, j);
    var h := PricesUpTo(s.snaps, j + 2);
    assert h == seq(j + 2, i requires 0 <= i < j + 2 => MarketPrices(s.snaps[i]));
  }

  /** Some nonzero direction is orthogonal to every return. */
  ghost predicate LeavesDirection(kind: ReturnKind, h: seq<Vec>)
    requires Prices(h, NUM_STOCKS)
  {
    exists v :: OrthogonalToReturns(kind, h, NUM_STOCKS, v) && NonZero(v)
  }

  lemma NumbersLeaveNone(kind: ReturnKind, acts: seq<Action>, s: Pipe, j: nat)
    requires Reaches(kind, acts, s) && j < |s.log|
    ensures SnapsOK(s.snaps) && j + 1 < |s.snaps|
    ensures AllNum(s.log[j].1) <==> !LeavesDirection(kind, PricesUpTo(s.snaps, j + 2))
  {
    PairedPrices(kind, acts, s, j);
    var h := PricesUpTo(s.snaps, j + 2);
    hide Reaches, SnapsOK, PricesUpTo, CovAfter, WeightsFor, Singular, OrthogonalToReturns, NonZero;
    NumbersWhenRegular(CovAfter(kind, h, NUM_STOCKS), s.log[j].1);
    ReturnsDecide(kind, h, NUM_STOCKS);
  }

  /** Up to four price vectors always leave one. */
  lemma FewLeaveDirection(kind: ReturnKind, h: seq<Vec>)
    requires h != [] && Prices(h, NUM_STOCKS) && |h| <= NUM_STOCKS
    ensures LeavesDirection(kind, h)
  {
    FirstMatricesSingular(kind, h, NUM_STOCKS);
    ReturnsDecide(kind, h, NUM_STOCKS);
    hide CovAfter, Singular, OrthogonalToReturns, NonZero;
  }

  /** The client calls order generation, with the last prices, exactly when its returns leave none. */
  lemma CallLeavesNone(kind: ReturnKind, h: seq<Vec>)
    requires h != [] && Prices(h, NUM_STOCKS)
    ensures var call := ClientCall(CovAfter(kind, h, NUM_STOCKS), Last(h));
            && (call != [] <==> !LeavesDirection(kind, h)) && (call != [] ==> |call| == 1 && call[0].p == Last(h))
  {
    ReturnsDecide(kind, h, NUM_STOCKS);
    hide CovAfter, Singular, OrthogonalToReturns, NonZero, SolvedWeights;
  }

  /** The hardware uses logarithmic returns, the client simple ones. For the same snapshots their prices are the same;
      firing j has numbers exactly when the logarithmic returns so far leave no direction, and the client makes its call
      exactly when the simple ones leave none. Neither happens before the fifth snapshot. */
  lemma HardwareAgainstClient(ln: real -> real, acts: seq<Action>, s: Pipe, j: nat)
    requires Reaches(Log(ln), acts, s) && j < |s.log|
    ensures SnapsOK(s.snaps) && j + 1 < |s.snaps|
    ensures var h := PricesUpTo(s.snaps, j + 2); var call := ClientCall(CovAfter(Simple, h, NUM_STOCKS), Last(h));
            && s.log[j].0 == Last(h) && (call != [] ==> |call| == 1 && call[0].p == s.log[j].0)
            && (AllNum(s.log[j].1) <==> !LeavesDirection(Log(ln), h))
            && (call != [] <==> !LeavesDirection(Simple, h))
            && (j < NUM_STOCKS - 1 ==> !AllNum(s.log[j].1) && call == [])
  {
    hide Reaches, SnapsOK, PricesUpTo, CovAfter, WeightsFor, LeavesDirection, ClientCall, AllNum;
    PairedPrices(Log(ln), acts, s, j);
    NumbersLeaveNone(Log(ln), acts, s, j);
    var h := PricesUpTo(s.snaps, j + 2);
    CallLeavesNone(Simple, h);
    if j < NUM_STOCKS - 1 {
      FewLeaveDirection(Log(ln), h);
      FewLeaveDirection(Simple, h);
    }
  }

  lemma PricesOfTables(snaps: seq<seq<nat>>)
    requires |snaps| == 5
    requires forall t :: 0 <= t < 5 ==> LevelTable(TABLES[t]) && snaps[t] == UnitWords(TABLES[t])
    ensures SnapsOK(snaps) && PricesUpTo(snaps, 5) == PRICES
  {
    hide UnitWords, LevelTable, MarketPrices, SnapshotOK;
    forall t | 0 <= t < 5 ensures SnapshotOK(snaps[t]) && MarketPrices(snaps[t]) == PRICES[t] { TablePrices(t); }
  }

  lemma ApartAt()
    ensures Prices(PRICES, NUM_STOCKS) && !LeavesDirection(Simple, PRICES)
  {
    PricesNonzero();
    forall v | OrthogonalToReturns(Simple, PRICES, NUM_STOCKS, v) ensures !NonZero(v) { SimpleLeaveNone(v); }
  }

  /** Five snapshots of books on the ladders for which the client trades and the hardware, whatever its logarithm, gets
      no numbers: two prices, the second moving with the square of the first, rise and fall back. */
  lemma TwinsTradeApart(ln: real -> real) returns (acts: seq<Action>, s: Pipe)
    requires IsLogarithm(ln)
    ensures Reaches(Log(ln), acts, s) && |s.log| == 4 && |s.snaps| == 5 && SnapsOK(s.snaps)
    ensures !AllNum(s.log[3].1)
    ensures var h := PricesUpTo(s.snaps, 5); ClientCall(CovAfter(Simple, h, NUM_STOCKS), Last(h)) != []
  {
    hide UnitWords, LevelTable, MarketPrices, SnapshotOK, Reaches, CovAfter, AtRest, OrthogonalToReturns, NonZero,
      IsLogarithm;
    TablePrices(0);
    forall t | 0 <= t < 5 ensures LevelTable(TABLES[t]) && SnapshotOK(UnitWords(TABLES[t])) { TablePrices(t); }
    var ds := seq(5, t requires 0 <= t < 5 => UnitWords(TABLES[t]));
    acts, s := RunOver(Log(ln), ds);
    PricesOfTables(s.snaps);
    ApartAt();
    var v := LogsLeaveDirection(ln);
    HardwareAgainstClient(ln, acts, s, 3);
  }

  // ---------- a client with the hardware's returns ----------

  /** The hardware's firings with numbers, as steps of the account. */
  ghost function NumericTicks(log: seq<(Vec, seq<Weight>)>, n: nat): (ts: seq<Tick>)
    requires n <= |log|
  {
    if n == 0 then []
    else
      var (p, ws) := log[n - 1];
      NumericTicks(log, n - 1) + if AllNum(ws) then [Tick(Numbers(ws), p)] else []
  }

  lemma NumericWeights(K: Mat, ws: seq<Weight>)
    requires IsSquare(K, |K|) && |K| > 0 && WeightsFor(K, ws) && !Singular(K)
    ensures AllNum(ws) && Numbers(ws) == SolvedWeights(K)
  {
    SolutionExists(K);
    var x :| Solves(K, Ones(|K|), x) && ws == Nums(Project(x));
    forall y | Solves(K, Ones(|K|), y) ensures y == x { SolutionUnique(K, Ones(|K|), x, y); }
    hide Singular, Solves, Project;
    assert Numbers(ws) == Project(x);
  }

  lemma SameCall(K: Mat, ws: seq<Weight>, p: Vec)
    requires IsSquare(K, |K|) && |K| > 0 && WeightsFor(K, ws)
    ensures ClientCall(K, p) == if AllNum(ws) then [Tick(Numbers(ws), p)] else []
  {
    NumbersWhenRegular(K, ws);
    hide Singular, WeightsFor, SolvedWeights;
    if !Singular(K) { NumericWeights(K, ws); }
  }

  /** Rebuilt with the returns of the hardware, the client would make exactly its firings with numbers, for the same
      snapshots and in every interleaving. */
  lemma {:induction false} ClientIsPipeline(kind: ReturnKind, acts: seq<Action>, s: Pipe, n: nat)
    requires Reaches(kind, acts, s) && n <= |s.log|
    ensures SnapsOK(s.snaps) && (n > 0 ==> n < |s.snaps|)
    ensures n < |s.snaps| ==> NumericTicks(s.log, n) == ClientTicks(kind, PricesUpTo(s.snaps, n + 1))
    decreases n
  {
    hide Reaches, SnapsOK, PriceRun, CovAfter, ClientCall, AllNum, Numbers, PositivePrices, WeightsFor;
    SnapsReachable(kind, acts, s);
    if n > 0 {
      ClientIsPipeline(kind, acts, s, n - 1);
      PairedPrices(kind, acts, s, n - 1);
      hide NumericTicks, ClientTicks, PricesUpTo;
      OneMoreCall(kind, s, n);
    }
  }

  lemma OneMoreCall(kind: ReturnKind, s: Pipe, n: nat)
    requires SnapsOK(s.snaps) && 0 < n <= |s.log| && n < |s.snaps|
    requires s.log[n - 1].0 == Last(PricesUpTo(s.snaps, n + 1))
    requires WeightsFor(CovAfter(kind, PricesUpTo(s.snaps, n + 1), NUM_STOCKS), s.log[n - 1].1)
    requires NumericTicks(s.log, n - 1) == ClientTicks(kind, PricesUpTo(s.snaps, n))
    ensures NumericTicks(s.log, n) == ClientTicks(kind, PricesUpTo(s.snaps, n + 1))
  {
    hide SnapsOK, PriceRun, CovAfter, ClientCall, AllNum, Numbers, WeightsFor, PositivePrices, Prices;
    var h := PricesUpTo(s.snaps, n + 1);
    assert h[..|h| - 1] == PricesUpTo(s.snaps, n);
    hide PricesUpTo;
    SameCall(CovAfter(kind, h, NUM_STOCKS), s.log[n - 1].1, Last(h));
  }

  // ---------- the hardware's account ----------

  lemma LadderFits(p: Vec)
    requires OnLadders(p)
    ensures PricesFit(p)
  {
    forall i | 0 <= i < NUM_STOCKS ensures p[i] > 0.0 && FixedPoint(p[i]) < WORD { FixedFits(p[i]); }
  }

  /** What the pipeline gives order generation: sound entries at prices that fit, and numbers that stay. */
  lemma PipelineFeed(kind: ReturnKind, acts: seq<Action>, s: Pipe)
    requires Reaches(kind, acts, s)
    ensures FeedFits(s.log) && FeedOK(s.log) && forall k :: 0 <= k < |s.log| ==> SoundEntry(s.log, k)
    ensures forall i, j :: 0 <= i <= j < |s.log| && AllNum(s.log[i].1) ==> AllNum(s.log[j].1)
  {
    hide Reaches, Sound, FixedPoint, AllNum;
    forall k | 0 <= k < |s.log| ensures SoundEntry(s.log, k) && PricesFit(s.log[k].0) {
      FiringIsSound(kind, acts, s, k);
      LadderFits(s.log[k].0);
    }
    forall i, j | 0 <= i <= j < |s.log| && AllNum(s.log[i].1) ensures AllNum(s.log[j].1) {
      NumbersStay(kind, acts, s, i, j);
    }
  }

  /** In every interleaving, after any past that left the account solvent and worth less than 2^32 - 1 dollars: whatever
      the conversions give from then on, it stays solvent exactly when the returns so far leave no direction. */
  lemma HardwareAccount(kind: ReturnKind, acts: seq<Action>, s: Pipe, past: seq<Firing>)
    requires Reaches(kind, acts, s) && Fires(s.log, past) && |past| < |s.log| && Solvent(HwAccount(past, |past|))
    requires |s.log[|past|].0| == NUM_STOCKS
    requires NetWorth(HwAccount(past, |past|), s.log[|past|].0) < (WORD - 1) as real
    ensures SnapsOK(s.snaps) && |past| + 1 < |s.snaps|
    ensures (forall fs :: Fires(s.log, fs) && past <= fs ==> SolventFrom(fs, |past|)) <==>
            !LeavesDirection(kind, PricesUpTo(s.snaps, |past| + 2))
  {
    hide Reaches, SnapsOK, LeavesDirection, AllNum, SolventFrom, Solvent, HwAccount, NetWorth, FiresAt, FeedOK,
      FeedFits, SoundEntry, PricesUpTo;
    NumbersLeaveNone(kind, acts, s, |past|);
    assert (forall fs :: Fires(s.log, fs) && past <= fs ==> SolventFrom(fs, |past|)) <==> AllNum(s.log[|past|].1) by {
      PipelineFeed(kind, acts, s);
      HwSolvent(s.log, past);
    }
  }

  /** After any past that replay reproduces: it is certain to go on doing so exactly when all firings still to come have
      numbers with targets in signed words. */
  lemma HardwareReplay(kind: ReturnKind, acts: seq<Action>, s: Pipe, past: seq<Firing>)
    requires Reaches(kind, acts, s) && Fires(s.log, past)
    requires SignedShares(HwAccount(past, |past|)) && Replayed(HwAccount(past, |past|), HwOrders(past, |past|))
    ensures FeedFits(s.log)
    ensures (forall fs :: Fires(s.log, fs) && past <= fs ==> ReplayedFrom(fs, |past|)) <==>
            TraceableFrom(s.log, HwAccount(past, |past|), |past|)
  {
    PipelineFeed(kind, acts, s);
    hide Reaches, Replayed, HwAccount, HwOrders, ReplayedFrom, TraceableFrom, SignedShares, FiresAt, SoundEntry, AllNum;
    HwReplay(s.log, past);
  }

  lemma NothingFired()
    ensures Fires([], []) && HwAccount([], 0) == Start() && HwOrders([], 0) == []
    ensures Solvent(Start()) && SignedShares(Start()) && Replayed(Start(), [])
    ensures SolventFrom([], 0) && ReplayedFrom([], 0)
  {
    EmptyReplay();
    hide Replayed;
  }

  /** From the start nothing is certain: both hold whatever the conversions give exactly when there is no firing. */
  lemma HardwareNeverSafe(kind: ReturnKind, acts: seq<Action>, s: Pipe)
    requires Reaches(kind, acts, s)
    ensures (forall fs :: Fires(s.log, fs) ==> SolventFrom(fs, 0)) <==> s.log == []
    ensures (forall fs :: Fires(s.log, fs) ==> ReplayedFrom(fs, 0)) <==> s.log == []
  {
    NothingFired();
    if s.log != [] {
      var fs := HardwareMayFail(kind, acts, s);
      hide Reaches, HwAccount, HwOrders, Replayed, FiresAt;
      assert !SolventFrom(fs, 0) && !ReplayedFrom(fs, 0);
    } else {
      hide Reaches, SolventFrom, ReplayedFrom;
      forall fs | Fires(s.log, fs) ensures SolventFrom(fs, 0) && ReplayedFrom(fs, 0) { assert fs == []; }
    }
  }

  /** On whatever snapshots, some run through all firings is billions in debt after the first, with 2^32 - 1 shares of
      each stock for orders that sold one. */
  lemma HardwareMayFail(kind: ReturnKind, acts: seq<Action>, s: Pipe) returns (fs: seq<Firing>)
    requires Reaches(kind, acts, s) && s.log != []
    ensures Fires(s.log, fs) && |fs| == |s.log| && HwAccount(fs, 1).cash < -4000000000.0
    ensures forall i :: 0 <= i < NUM_STOCKS ==>
              && HwAccount(fs, 1).shares[i] == WORD - 1
              && |HwOrders(fs, 1)| == NUM_STOCKS && HwOrders(fs, 1)[i].side == SIDE_SELL && HwOrders(fs, 1)[i].qty == 1
    ensures !Replayed(HwAccount(fs, 1), HwOrders(fs, 1))
  {
    PipelineFeed(kind, acts, s);
    FirstFiringsSingular(kind, acts, s, 0);
    FiringIsSound(kind, acts, s, 0);
    NothingFired();
    hide Reaches, Worst, Replayed, FiresAt, FixedPoint, FeedFits, SoundEntry, AllNum, ReplayedFrom, SolventFrom;
    fs := GoOn(s.log, []);
    LadderFits(s.log[0].0);
    var f := FirstFiringFails(s.log[0].0);
    assert fs[0] == f && fs[..1] == [f][..1];
    SamePast(fs, [f], 1);
  }

  // ---------- the wire ----------

  lemma TargetAtMost(w: real, v: real, p: real)
    requires 0.0 <= w <= 1.0 && v >= 0.0 && p >= 1.0
    ensures 0 <= TargetOf(w, v, p) && TargetOf(w, v, p) as real <= v
  {
    TargetBound(w, v, p);
    AtLeastOne(TargetOf(w, v, p) as real, p);
    NonNegativeTimes(1.0 - w, v);
    LeftOver(w, v);
  }

  lemma FixedFits(x: real)
    requires x >= 0.0 && x * SCALE < WORD as real
    ensures 0 <= FixedPoint(x) < WORD
  {
    assert x * SCALE >= 0.0;
    assert (x * SCALE).Floor as real <= x * SCALE;
  }

  lemma SymbolsAscii(i: nat)
    requires i < NUM_STOCKS
    ensures |SYMBOLS[i]| == 8 && IsAscii(SYMBOLS[i])
  {
  }

  lemma OneOrderFits(a: Account, w: Vec, p: Vec, i: nat)
    requires Solvent(a) && Sound(w, p) && OnLadders(p) && i < NUM_STOCKS
    requires NetWorth(a, p) * SCALE < WORD as real && a.nextRef + NUM_STOCKS <= WORD
    ensures var o := OrderOf(a.nextRef + i, Targets(a, w, p)[i] - a.shares[i], i, FixedPoint(p[i]));
            Sendable(o) && Fits32(o)
    ensures 0 <= Targets(a, w, p)[i] < HALF && a.shares[i] < HALF
  {
    var v := NetWorth(a, p);
    WorthNonNegative(a.shares, p, NUM_STOCKS);
    TermAtMostWorth(a.shares, p, i, NUM_STOCKS);
    WeightAtMostOne(w, i);
    TargetAtMost(w[i], v, p[i]);
    FixedFits(p[i]);
    SymbolsAscii(i);
    hide Worth, TargetOf, FixedPoint, IsAscii;
    assert v < 429497.0;
  }

  lemma WeightAtMostOne(w: Vec, i: nat)
    requires i < NUM_STOCKS == |w| && Sum(w, NUM_STOCKS) <= 1.0 && forall k :: 0 <= k < NUM_STOCKS ==> w[k] >= 0.0
    ensures w[i] <= 1.0
  {
    TermAtMostSum(w, i, NUM_STOCKS);
  }

  /** A step of a solvent account worth less than 429496.7296 dollars sends only what fits its fields. */
  lemma OrdersFit(a: Account, w: Vec, p: Vec)
    requires Solvent(a) && Sound(w, p) && OnLadders(p)
    requires NetWorth(a, p) * SCALE < WORD as real && a.nextRef + NUM_STOCKS <= WORD
    ensures AllSendable(Orders(a, w, p, NUM_STOCKS)) && 0 <= FixedPoint(NetWorth(a, p)) < WORD
  {
    WorthNonNegative(a.shares, p, NUM_STOCKS);
    FixedFits(NetWorth(a, p));
    forall i | 0 <= i < NUM_STOCKS
      ensures Sendable(Orders(a, w, p, NUM_STOCKS)[i]) && Fits32(Orders(a, w, p, NUM_STOCKS)[i])
    {
      OneOrderFits(a, w, p, i);
    }
    hide Sendable, Fits32;
  }

  /** A numeric firing of such an account leaves the conversions no choice: it is the software's step, order by
      order. */
  lemma NumericFiring(a: Account, f: Firing, portfolio: nat)
    requires Solvent(a) && Allowed(a, f) && AllNum(f.ws) && Sound(Numbers(f.ws), f.p) && OnLadders(f.p)
    requires NetWorth(a, f.p) * SCALE < WORD as real && a.nextRef + NUM_STOCKS <= WORD
    requires ConvertsTo(Num(NetWorth(a, f.p) * SCALE), portfolio)
    ensures Settle(a, f.t, f.p) == Step(a, Numbers(f.ws), f.p)
    ensures FiringOrders(a, f, NUM_STOCKS) == Orders(a, Numbers(f.ws), f.p, NUM_STOCKS)
    ensures portfolio == FixedPoint(NetWorth(a, f.p))
  {
    LadderFits(f.p);
    NumbersTraceable(a, f.ws, f.p);
    TraceableIsStep(a, f);
    WorthNonNegative(a.shares, f.p, NUM_STOCKS);
    FixedFits(NetWorth(a, f.p));
    hide Worth, NetWorth, FiringOrders, Orders, Targets, Allowed, Traceable, SignedShares;
  }

  /** From such an account targets and holdings fit signed words. */
  lemma NumbersTraceable(a: Account, ws: seq<Weight>, p: Vec)
    requires Solvent(a) && AllNum(ws) && |ws| == NUM_STOCKS && Sound(Numbers(ws), p) && OnLadders(p)
    requires NetWorth(a, p) * SCALE < WORD as real && a.nextRef + NUM_STOCKS <= WORD
    ensures SignedShares(a) && Traceable(a, ws, p)
  {
    hide NetWorth, Times, TargetOf, Worth, FixedPoint, Sum, Sendable, Fits32;
    forall i | 0 <= i < NUM_STOCKS
      ensures 0 <= TargetOf(ws[i].w, NetWorth(a, p), p[i]) < HALF && 0 <= a.shares[i] < HALF
    {
      OneOrderFits(a, Numbers(ws), p, i);
    }
  }

  /** The hardware's words of a numeric firing reach the monitor's log as exactly the rows that are replayed. */
  lemma WireToLog(a: Account, f: Firing, portfolio: nat, i: nat)
    requires Solvent(a) && Allowed(a, f) && AllNum(f.ws) && Sound(Numbers(f.ws), f.p)
    requires OnLadders(f.p) && i < NUM_STOCKS
    requires NetWorth(a, f.p) * SCALE < WORD as real && a.nextRef + NUM_STOCKS <= WORD
    requires ConvertsTo(Num(NetWorth(a, f.p) * SCALE), portfolio)
    ensures var m := Reversed(LittleEndianAll(FiringWords(a, f, portfolio)));
            && |m| == BLOB_BYTES && FromBE(m[..4]) == FixedPoint(NetWorth(a, f.p)) && |Records(m, ORDERS)| == ORDERS
            && Records(m, ORDERS)[i].Message?
            && var k, r := Records(m, ORDERS)[i].fields, RowOf(Orders(a, Numbers(f.ws), f.p, NUM_STOCKS)[i]);
               && "Symbol" in k && k["Symbol"] == VText(r.symbol) && "Side" in k && k["Side"] == VText([r.side])
               && "Quantity" in k && k["Quantity"] == VInt(r.qty) && "Price" in k && k["Price"] == VPrice(r.price)
  {
    var w := Numbers(f.ws);
    var os := Orders(a, w, f.p, NUM_STOCKS);
    NumericFiring(a, f, portfolio);
    OrdersFit(a, w, f.p);
    SameBytes(a, f, portfolio);
    hide FixedPoint, NetWorth, Orders, FiringWords, Reversed, Records, Sendable, Fits32, Allowed, ConvertsTo;
    BlobRoundTrip(portfolio, os);
    assert Records(Reversed(LittleEndianAll(FiringWords(a, f, portfolio))), ORDERS)[i].Message?;
  }
}
