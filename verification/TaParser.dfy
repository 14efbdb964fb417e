/** The stage that turns a snapshot into one market price per stock. */
module TaParsers {
  import opened Words
  import opened Books
  import opened Orderbook
  import opened OrderBookManagers
  import opened StockOrderBooks
  import opened Streams

  const LEVELS := 5
  const PRICE_SCALE := 10000.0

  /** Total quantity of the first n levels of both sides. */
  ghost function Weight(d: seq<nat>, s: nat, n: nat): nat
    requires |d| == SNAPSHOT_WORDS && s < NUM_STOCKS && n <= LEVELS
  {
    if n == 0 then 0 else Weight(d, s, n - 1) + PairQty(d, s, n - 1) + PairQty(d, s, LEVELS + n - 1)
  }

  /** A level's price in dollars times its quantity. */
  ghost function Term(d: seq<nat>, s: nat, j: nat): real
    requires |d| == SNAPSHOT_WORDS && s < NUM_STOCKS && j < 2 * LEVELS
  {
    PairPrice(d, s, j) as real / PRICE_SCALE * PairQty(d, s, j) as real
  }

  ghost function Weighted(d: seq<nat>, s: nat, n: nat): real
    requires |d| == SNAPSHOT_WORDS && s < NUM_STOCKS && n <= LEVELS
  {
    if n == 0 then 0.0 else Weighted(d, s, n - 1) + (Term(d, s, n - 1) + Term(d, s, LEVELS + n - 1))
  }

  ghost function MarketPrice(d: seq<nat>, s: nat): real
    requires |d| == SNAPSHOT_WORDS && s < NUM_STOCKS
  {
    if Weight(d, s, LEVELS) > 0 then Weighted(d, s, LEVELS) / Weight(d, s, LEVELS) as real else 0.0
  }

  ghost function MarketPrices(d: seq<nat>): (p: seq<real>)
    requires |d| == SNAPSHOT_WORDS
    ensures |p| == NUM_STOCKS
  {
    seq(NUM_STOCKS, s requires 0 <= s < NUM_STOCKS => MarketPrice(d, s))
  }

  class TaParser {
    var numUpdates: nat

    constructor ()
      ensures numUpdates == 0
    {
      numUpdates := 0;
    }

    /** One firing: 80 words in, 4 prices to the covariance stage, and 4 to order generation unless it is the first. */
    method Fire(ins: Stream<AxisWord>, cov: Stream<real>, og: Stream<real>)
      requires |ins.items| >= SNAPSHOT_WORDS && cov != og
      modifies this, ins, cov, og
      ensures ins.items == old(ins.items)[SNAPSHOT_WORDS..]
      ensures var p := MarketPrices(Data(old(ins.items)[..SNAPSHOT_WORDS]));
              cov.items == old(cov.items) + p && og.items == old(og.items) + if old(numUpdates) > 0 then p else []
      ensures numUpdates == old(numUpdates) + 1
    {
      var words := ReadMany(ins, SNAPSHOT_WORDS);
      var marketPrices := PricesOf(words);
      WriteAll(cov, marketPrices);
      if numUpdates > 0 { WriteAll(og, marketPrices); }
      numUpdates := numUpdates + 1;
    }
  }

  method PricesOf(words: seq<AxisWord>) returns (prices: seq<real>)
    requires |words| == SNAPSHOT_WORDS
    ensures prices == MarketPrices(Data(words))
  {
    prices := [];
    for i := 0 to NUM_STOCKS
      invariant prices == MarketPrices(Data(words))[..i]
    {
      var price := PriceOf(words, i);
      prices := prices + [price];
    }
  }

  /** The weighted average price of stock i. */
  method PriceOf(words: seq<AxisWord>, i: nat) returns (price: real)
    requires |words| == SNAPSHOT_WORDS && i < NUM_STOCKS
    ensures price == MarketPrice(Data(words), i)
  {
    ghost var d := Data(words);
    var totalWeight, weightedPrice := 0.0, 0.0;
    for j := 0 to LEVELS
      invariant totalWeight == Weight(d, i, j) as real && weightedPrice == Weighted(d, i, j)
    {
      var askPrice := words[20 * i + 2 * j].data as real / PRICE_SCALE;
      var askQty := words[20 * i + 2 * j + 1].data as real;
      var bidPrice := words[20 * i + 2 * (LEVELS + j)].data as real / PRICE_SCALE;
      var bidQty := words[20 * i + 2 * (LEVELS + j) + 1].data as real;
      assert askPrice * askQty == Term(d, i, j) && bidPrice * bidQty == Term(d, i, LEVELS + j);
      totalWeight := totalWeight + (askQty + bidQty);
      weightedPrice := weightedPrice + (askPrice * askQty + bidPrice * bidQty);
    }
    price := if totalWeight > 0.0 then weightedPrice / totalWeight else 0.0;
  }

  // ---------- a market price lies between its levels ----------

  /** lo and hi bound, in dollars, every price of stock s in the snapshot. */
  ghost predicate Bounds(d: seq<nat>, s: nat, lo: real, hi: real)
    requires |d| == SNAPSHOT_WORDS && s < NUM_STOCKS
  {
    forall j :: 0 <= j < 2 * LEVELS ==> lo <= PairPrice(d, s, j) as real / PRICE_SCALE <= hi
  }

  /** The average p / w lies between lo and hi. */
  ghost predicate Within(lo: real, p: real, w: real, hi: real) {
    lo * w <= p <= hi * w
  }

  lemma Between(lo: real, p: real, hi: real, q: real)
    requires lo <= p <= hi && q >= 0.0
    ensures Within(lo, p * q, q, hi)
  {
    assert (p - lo) * q >= 0.0 && (hi - p) * q >= 0.0;
  }

  lemma WithinAdd(lo: real, p1: real, w1: real, p2: real, w2: real, hi: real)
    requires Within(lo, p1, w1, hi) && Within(lo, p2, w2, hi)
    ensures Within(lo, p1 + p2, w1 + w2, hi)
  {
    assert lo * (w1 + w2) == lo * w1 + lo * w2 && hi * (w1 + w2) == hi * w1 + hi * w2;
  }

  lemma WithinNothing(lo: real, hi: real)
    ensures Within(lo, 0.0, 0.0, hi)
  {
  }

  lemma TermWithin(d: seq<nat>, s: nat, lo: real, hi: real, j: nat)
    requires |d| == SNAPSHOT_WORDS && s < NUM_STOCKS && j < 2 * LEVELS && Bounds(d, s, lo, hi)
    ensures Within(lo, Term(d, s, j), PairQty(d, s, j) as real, hi)
  {
    Between(lo, PairPrice(d, s, j) as real / PRICE_SCALE, hi, PairQty(d, s, j) as real);
  }

  lemma {:induction false} WeightedBetween(d: seq<nat>, s: nat, lo: real, hi: real, n: nat)
    requires |d| == SNAPSHOT_WORDS && s < NUM_STOCKS && n <= LEVELS && Bounds(d, s, lo, hi)
    ensures Within(lo, Weighted(d, s, n), Weight(d, s, n) as real, hi)
    decreases n
  {
    hide Within, Term, Bounds, PairQty;
    WithinNothing(lo, hi);
    if n > 0 {
      WeightedBetween(d, s, lo, hi, n - 1);
      var a, b := n - 1, LEVELS + n - 1;
      var qa, qb := PairQty(d, s, a) as real, PairQty(d, s, b) as real;
      TermWithin(d, s, lo, hi, a);
      TermWithin(d, s, lo, hi, b);
      WithinAdd(lo, Term(d, s, a), qa, Term(d, s, b), qb, hi);
      WithinAdd(lo, Weighted(d, s, n - 1), Weight(d, s, n - 1) as real, Term(d, s, a) + Term(d, s, b), qa + qb, hi);
      assert Weight(d, s, n) as real == Weight(d, s, n - 1) as real + (qa + qb);
    }
  }

  lemma {:induction false} WeightPositive(d: seq<nat>, s: nat, n: nat)
    requires SnapshotOK(d) && s < NUM_STOCKS && 0 < n <= LEVELS
    ensures Weight(d, s, n) > 0
    decreases n
  {
    assert PairQty(d, s, n - 1) >= 1;
  }

  lemma QuotientBetween(lo: real, w: real, p: real, hi: real)
    requires w > 0.0 && Within(lo, p, w, hi)
    ensures lo <= p / w <= hi
  {
    var q := p / w;
    assert q * w == p;
    Factor(lo, q, w);
    Factor(q, hi, w);
  }

  lemma Factor(a: real, b: real, w: real)
    requires w > 0.0 && a * w <= b * w
    ensures a <= b
  {
    assert (b - a) * w >= 0.0;
  }

  /** The market price lies between the lowest and the highest price of the stock's ten levels. */
  lemma MarketPriceBetween(d: seq<nat>, s: nat, lo: real, hi: real)
    requires SnapshotOK(d) && s < NUM_STOCKS && Bounds(d, s, lo, hi)
    ensures lo <= MarketPrice(d, s) <= hi
  {
    hide Within, Weighted, Weight;
    WeightPositive(d, s, LEVELS);
    WeightedBetween(d, s, lo, hi, LEVELS);
    QuotientBetween(lo, Weight(d, s, LEVELS) as real, Weighted(d, s, LEVELS), hi);
  }

  /** So every price handed on is at least the stock's lowest ladder price, and positive. */
  lemma MarketPricePositive(d: seq<nat>, s: nat)
    requires SnapshotOK(d) && s < NUM_STOCKS
    ensures MarketPrice(d, s) >= MinPrice(s) as real / PRICE_SCALE > 0.0
    ensures MarketPrice(d, s) <= (MinPrice(s) + (MAX_LEVELS - 1) * TICK) as real / PRICE_SCALE
  {
    var lo := MinPrice(s) as real / PRICE_SCALE;
    var hi := (MinPrice(s) + (MAX_LEVELS - 1) * TICK) as real / PRICE_SCALE;
    forall j | 0 <= j < 2 * LEVELS
      ensures lo <= PairPrice(d, s, j) as real / PRICE_SCALE <= hi
    {
      assert PairQty(d, s, j) >= 1;
    }
    MarketPriceBetween(d, s, lo, hi);
  }

  // ---------- a market price balances its levels ----------

  /** What the first n of the ten pairs of stock s weigh about m: quantity times distance in dollars, summed. */
  ghost function Imbalance(d: seq<nat>, s: nat, m: real, n: nat): real
    requires |d| == 80 && s < 4 && n <= 10
  {
    if n == 0 then 0.0
    else Imbalance(d, s, m, n - 1) + PairMoment(d[20 * s + 2 * n - 2], d[20 * s + 2 * n - 1], m)
  }

  ghost function PairMoment(price: int, qty: nat, m: real): real {
    qty as real * (price as real / 10000.0 - m)
  }

  lemma TermMoment(d: seq<nat>, s: nat, m: real, j: nat)
    requires |d| == SNAPSHOT_WORDS && s < NUM_STOCKS && j < 10
    ensures PairMoment(d[20 * s + 2 * j], d[20 * s + 2 * j + 1], m) == Term(d, s, j) - m * PairQty(d, s, j) as real
  {
  }

  lemma {:induction false} HalfBalance(d: seq<nat>, s: nat, m: real, n: nat)
    requires |d| == SNAPSHOT_WORDS && s < NUM_STOCKS && n <= LEVELS
    ensures Imbalance(d, s, m, n) + Imbalance(d, s, m, LEVELS + n) - Imbalance(d, s, m, LEVELS) ==
            Weighted(d, s, n) - m * Weight(d, s, n) as real
    decreases n
  {
    hide PairMoment, Term, PairQty;
    if n > 0 {
      HalfBalance(d, s, m, n - 1);
      var a, b := n - 1, LEVELS + n - 1;
      TermMoment(d, s, m, a);
      TermMoment(d, s, m, b);
      Distribute(m, Weight(d, s, n - 1), PairQty(d, s, a), PairQty(d, s, b));
      hide Weight, Weighted;
      WeightedStep(d, s, n);
    } else {
      assert m * 0.0 == 0.0;
    }
  }

  lemma WeightedStep(d: seq<nat>, s: nat, n: nat)
    requires |d| == SNAPSHOT_WORDS && s < NUM_STOCKS && 0 < n <= LEVELS
    ensures Weight(d, s, n) == Weight(d, s, n - 1) + PairQty(d, s, n - 1) + PairQty(d, s, LEVELS + n - 1)
    ensures Weighted(d, s, n) == Weighted(d, s, n - 1) + (Term(d, s, n - 1) + Term(d, s, LEVELS + n - 1))
  {
  }

  lemma Distribute(m: real, w: nat, a: nat, b: nat)
    ensures m * (w + a + b) as real == m * w as real + m * a as real + m * b as real
  {
  }

  lemma QuotientExactly(p: real, w: real, m: real)
    requires w > 0.0
    ensures p - m * w == 0.0 <==> m == p / w
  {
    assert p / w * w == p;
    if p - m * w == 0.0 {
      Factor(m, p / w, w);
      Factor(p / w, m, w);
    }
  }

  lemma BalanceAt(d: seq<nat>, s: nat, m: real)
    requires |d| == SNAPSHOT_WORDS && s < NUM_STOCKS && Weight(d, s, LEVELS) > 0
    ensures Imbalance(d, s, m, 10) == 0.0 <==> m == MarketPrice(d, s)
  {
    hide Imbalance, Weight, Weighted;
    HalfBalance(d, s, m, LEVELS);
    QuotientExactly(Weighted(d, s, LEVELS), Weight(d, s, LEVELS) as real, m);
  }

  /** The market price of a stock is the one price about which its ten published pairs balance. */
  lemma MarketPriceBalances(d: seq<nat>, s: nat, m: real)
    requires SnapshotOK(d) && s < 4
    ensures Imbalance(d, s, m, 10) == 0.0 <==> m == MarketPrices(d)[s]
  {
    hide Imbalance, Weight, MarketPrice;
    WeightPositive(d, s, LEVELS);
    BalanceAt(d, s, m);
  }

  // ---------- the software stage ----------

  ghost function SumQty(q: seq<nat>, n: nat): nat
    requires n <= |q|
  {
    if n == 0 then 0 else SumQty(q, n - 1) + q[n - 1]
  }

  ghost function SumTerms(p: seq<int>, q: seq<nat>, n: nat): real
    requires n <= |p| && n <= |q|
  {
    if n == 0 then 0.0 else SumTerms(p, q, n - 1) + p[n - 1] as real / PRICE_SCALE * q[n - 1] as real
  }

  ghost predicate FiveEach(e: Entry) {
    |e.askPrices| == |e.askQty| == |e.bidPrices| == |e.bidQty| == LEVELS
  }

  /** The software's price of one snapshot entry: asks and bids summed apart. */
  ghost function EntryPrice(e: Entry): real
    requires FiveEach(e)
  {
    var w := SumQty(e.askQty, LEVELS) + SumQty(e.bidQty, LEVELS);
    var p := SumTerms(e.askPrices, e.askQty, LEVELS) + SumTerms(e.bidPrices, e.bidQty, LEVELS);
    if w > 0 then p / w as real else 0.0
  }

  lemma {:induction false} SumsAgree(b: Book, s: nat, n: nat)
    requires Sized(b) && s < NUM_STOCKS && n <= LEVELS
    ensures var d, e := Data(SnapshotWords(b, NUM_STOCKS)), EntryOf(b, s);
            && Weight(d, s, n) == SumQty(e.askQty, n) + SumQty(e.bidQty, n)
            && Weighted(d, s, n) == SumTerms(e.askPrices, e.askQty, n) + SumTerms(e.bidPrices, e.bidQty, n)
    decreases n
  {
    hide SnapshotWords, BookPrices, BookQuantities, PairPrice, PairQty;
    if n > 0 {
      SumsAgree(b, s, n - 1);
      EntriesAreWords(b, s, n - 1);
    }
  }

  /** Hardware words and software entries of the same book give the same market price. */
  lemma StagesAgree(b: Book, s: nat)
    requires Sized(b) && s < NUM_STOCKS
    ensures MarketPrice(Data(SnapshotWords(b, NUM_STOCKS)), s) == EntryPrice(EntryOf(b, s))
  {
    hide SnapshotWords, BookPrices, BookQuantities, Weight, Weighted, SumQty, SumTerms;
    SumsAgree(b, s, LEVELS);
  }

  /** What the first n price and quantity pairs weigh about m. */
  ghost function ListImbalance(p: seq<int>, q: seq<nat>, m: real, n: nat): real
    requires n <= |p| && n <= |q|
  {
    if n == 0 then 0.0 else ListImbalance(p, q, m, n - 1) + PairMoment(p[n - 1], q[n - 1], m)
  }

  lemma {:induction false} ListBalance(p: seq<int>, q: seq<nat>, m: real, n: nat)
    requires n <= |p| && n <= |q|
    ensures ListImbalance(p, q, m, n) == SumTerms(p, q, n) - m * SumQty(q, n) as real
    decreases n
  {
    if n > 0 {
      ListBalance(p, q, m, n - 1);
      var x, y := p[n - 1] as real / PRICE_SCALE, q[n - 1] as real;
      assert y * (x - m) == x * y - m * y;
      Distribute(m, SumQty(q, n - 1), q[n - 1], 0);
      hide SumQty;
      SumQtyStep(q, n);
    } else {
      assert m * 0.0 == 0.0;
    }
  }

  lemma SumQtyStep(q: seq<nat>, n: nat)
    requires 0 < n <= |q|
    ensures SumQty(q, n) == SumQty(q, n - 1) + q[n - 1]
  {
  }

  /** So is the software's price of an entry with anything on it. */
  lemma EntryPriceBalances(e: Entry, m: real)
    requires FiveEach(e) && SumQty(e.askQty, 5) + SumQty(e.bidQty, 5) > 0
    ensures ListImbalance(e.askPrices, e.askQty, m, 5) + ListImbalance(e.bidPrices, e.bidQty, m, 5) == 0.0 <==>
            m == EntryPrice(e)
  {
    ListBalance(e.askPrices, e.askQty, m, 5);
    ListBalance(e.bidPrices, e.bidQty, m, 5);
    hide ListImbalance, SumQty, SumTerms;
    Distribute(m, SumQty(e.askQty, 5), SumQty(e.bidQty, 5), 0);
    QuotientExactly(SumTerms(e.askPrices, e.askQty, 5) + SumTerms(e.bidPrices, e.bidQty, 5),
                    (SumQty(e.askQty, 5) + SumQty(e.bidQty, 5)) as real, m);
  }

  /** Total quantity and total value of one side of an entry. */
  method SideSums(prices: seq<int>, qty: seq<nat>) returns (weight: nat, value: real)
    requires |prices| == |qty|
    ensures weight == SumQty(qty, |qty|) && value == SumTerms(prices, qty, |qty|)
  {
    weight, value := 0, 0.0;
    for j := 0 to |qty|
      invariant weight == SumQty(qty, j) && value == SumTerms(prices, qty, j)
    {
      weight := weight + qty[j];
      value := value + prices[j] as real / PRICE_SCALE * qty[j] as real;
    }
  }

  /** The software stage: each entry's price goes where its stock number says, a stock without an entry gets zero. */
  method UpdatePrices(snapshot: seq<Entry>) returns (marketPrices: seq<real>)
    requires forall k :: 0 <= k < |snapshot| ==> FiveEach(snapshot[k]) && snapshot[k].stock < NUM_STOCKS
    ensures |marketPrices| == NUM_STOCKS
    ensures forall s :: 0 <= s < NUM_STOCKS ==> marketPrices[s] == PriceIn(snapshot, s)
  {
    marketPrices := [0.0, 0.0, 0.0, 0.0];
    hide EntryPrice;
    for k := 0 to |snapshot|
      invariant |marketPrices| == NUM_STOCKS
      invariant forall s :: 0 <= s < NUM_STOCKS ==> marketPrices[s] == PriceIn(snapshot[..k], s)
    {
      var e := snapshot[k];
      var price := EntryMarketPrice(e);
      assert snapshot[..k + 1][..k] == snapshot[..k] && Last(snapshot[..k + 1]) == e;
      marketPrices := marketPrices[e.stock := price];
    }
    assert snapshot[..|snapshot|] == snapshot;
  }

  method EntryMarketPrice(e: Entry) returns (price: real)
    requires FiveEach(e)
    ensures price == EntryPrice(e)
  {
    var askWeight, askValue := SideSums(e.askPrices, e.askQty);
    var bidWeight, bidValue := SideSums(e.bidPrices, e.bidQty);
    var totalWeight := askWeight + bidWeight;
    price := if totalWeight > 0 then (askValue + bidValue) / totalWeight as real else 0.0;
  }

  /** The price of the last entry that names stock s. */
  ghost function PriceIn(snapshot: seq<Entry>, s: nat): real
    requires forall k :: 0 <= k < |snapshot| ==> FiveEach(snapshot[k])
  {
    if snapshot == [] then 0.0
    else if Last(snapshot).stock == s then EntryPrice(Last(snapshot))
    else PriceIn(snapshot[..|snapshot| - 1], s)
  }
}
