/** Simple and logarithmic returns of the same snapshots: one can span all directions while the other does not. */
module ReturnsApart {
  import opened Words
  import opened LinearAlgebra
  import opened Orderbook
  import opened TaParsers
  import opened CovUpdates

  // ---------- snapshots of ten single shares per stock ----------

  /** Five ask levels and five bid levels, best first. */
  ghost predicate TenLevels(l: seq<nat>) {
    |l| == 10 && forall j :: 0 <= j < 10 ==> l[j] < MAX_LEVELS
  }

  ghost predicate LevelTable(ls: seq<seq<nat>>) {
    |ls| == NUM_STOCKS && forall s :: 0 <= s < NUM_STOCKS ==> TenLevels(ls[s])
  }

  /** The published words when one share rests at each of those levels. */
  ghost function UnitWords(ls: seq<seq<nat>>): (d: seq<nat>)
    requires LevelTable(ls)
    ensures |d| == SNAPSHOT_WORDS
  {
    seq(SNAPSHOT_WORDS, k requires 0 <= k < SNAPSHOT_WORDS => UnitWord(ls, k))
  }

  ghost function UnitWord(ls: seq<seq<nat>>, k: nat): nat
    requires LevelTable(ls) && k < SNAPSHOT_WORDS
  {
    assert TenLevels(ls[k / 20]);
    if k % 2 == 0 then MinPrice(k / 20) + ls[k / 20][k % 20 / 2] * TICK else 1
  }

  lemma UnitPair(ls: seq<seq<nat>>, s: nat, j: nat)
    requires LevelTable(ls) && s < NUM_STOCKS && j < 10
    ensures TenLevels(ls[s]) && PairPrice(UnitWords(ls), s, j) == MinPrice(s) + ls[s][j] * TICK
    ensures PairQty(UnitWords(ls), s, j) == 1
  {
    var k := 20 * s + 2 * j;
    assert k / 20 == s && k % 20 == 2 * j && k % 2 == 0;
    assert (k + 1) % 2 == 1;
  }

  lemma UnitSnapshot(ls: seq<seq<nat>>)
    requires LevelTable(ls)
    ensures SnapshotOK(UnitWords(ls))
  {
    var d := UnitWords(ls);
    hide UnitWords, PairPrice, PairQty;
    forall s, j | 0 <= s < NUM_STOCKS && 0 <= j < 10
      ensures PairQty(d, s, j) >= 1
      ensures MinPrice(s) <= PairPrice(d, s, j) <= MinPrice(s) + (MAX_LEVELS - 1) * TICK
    {
      UnitPair(ls, s, j);
    }
  }

  ghost function LevelSum(l: seq<nat>, n: nat): nat
    requires TenLevels(l) && n <= LEVELS
  {
    if n == 0 then 0 else LevelSum(l, n - 1) + l[n - 1] + l[LEVELS + n - 1]
  }

  lemma {:induction false} UnitSums(ls: seq<seq<nat>>, s: nat, n: nat)
    requires LevelTable(ls) && s < NUM_STOCKS && n <= LEVELS
    ensures TenLevels(ls[s]) && Weight(UnitWords(ls), s, n) == 2 * n
    ensures Weighted(UnitWords(ls), s, n) * PRICE_SCALE == (2 * n * MinPrice(s) + LevelSum(ls[s], n) * TICK) as real
    decreases n
  {
    hide UnitWords, PairPrice, PairQty, MinPrice;
    if n > 0 {
      UnitSums(ls, s, n - 1);
      UnitPair(ls, s, n - 1);
      UnitPair(ls, s, LEVELS + n - 1);
    }
  }

  /** The market price is the price of the average level. */
  lemma UnitPrice(ls: seq<seq<nat>>, s: nat)
    requires LevelTable(ls) && s < NUM_STOCKS
    ensures TenLevels(ls[s])
    ensures MarketPrice(UnitWords(ls), s) == (10 * MinPrice(s) + LevelSum(ls[s], LEVELS) * TICK) as real / 100000.0
  {
    UnitSums(ls, s, LEVELS);
    hide Weight, Weighted, LevelSum, UnitWords, MinPrice;
  }

  // ---------- five snapshots ----------

  /** Level sums 184 and 326 for the first stock and 912 and 1627 for the second: a price that rises by 359 / 356 and
      one that rises by its square. */
  const LOW0: seq<nat> := [19, 20, 21, 22, 24, 18, 17, 16, 14, 13]
  const HIGH0: seq<nat> := [33, 34, 35, 36, 38, 32, 31, 30, 29, 28]
  const LOW1: seq<nat> := [92, 93, 94, 95, 96, 91, 90, 89, 87, 85]
  const HIGH1: seq<nat> := [164, 165, 166, 167, 168, 162, 161, 160, 159, 155]

  /** The two prices rise and fall back together; then the third rises, then the fourth. */
  const TABLES: seq<seq<seq<nat>>> := [
    [LOW0, LOW1, LOW0, LOW0], [HIGH0, HIGH1, LOW0, LOW0], [LOW0, LOW1, LOW0, LOW0],
    [LOW0, LOW1, HIGH0, LOW0], [LOW0, LOW1, HIGH0, HIGH0]]

  const PRICES: seq<Vec> := [
    [101.104, 253.472, 206.104, 169.104], [101.956, 257.762, 206.104, 169.104], [101.104, 253.472, 206.104, 169.104],
    [101.104, 253.472, 206.956, 169.104], [101.104, 253.472, 206.956, 169.956]]

  lemma TablesOK()
    ensures forall t :: 0 <= t < 5 ==> LevelTable(TABLES[t])
  {
    assert TenLevels(LOW0) && TenLevels(HIGH0) && TenLevels(LOW1) && TenLevels(HIGH1);
  }

  lemma Sums()
    ensures TenLevels(LOW0) && TenLevels(HIGH0) && TenLevels(LOW1) && TenLevels(HIGH1)
    ensures LevelSum(LOW0, LEVELS) == 184 && LevelSum(HIGH0, LEVELS) == 326
    ensures LevelSum(LOW1, LEVELS) == 912 && LevelSum(HIGH1, LEVELS) == 1627
  {
    SumOf(LOW0);
    SumOf(HIGH0);
    SumOf(LOW1);
    SumOf(HIGH1);
  }

  lemma SumOf(l: seq<nat>)
    requires TenLevels(l)
    ensures LevelSum(l, LEVELS) == l[0] + l[1] + l[2] + l[3] + l[4] + l[5] + l[6] + l[7] + l[8] + l[9]
  {
    assert LevelSum(l, 1) == LevelSum(l, 0) + l[0] + l[5] == l[0] + l[5];
    assert LevelSum(l, 2) == LevelSum(l, 1) + l[1] + l[6];
    assert LevelSum(l, 3) == LevelSum(l, 2) + l[2] + l[7];
    assert LevelSum(l, 4) == LevelSum(l, 3) + l[3] + l[8];
  }

  /** The market prices of the five snapshots. */
  lemma TablePrices(t: nat)
    requires t < 5
    ensures LevelTable(TABLES[t]) && SnapshotOK(UnitWords(TABLES[t])) && MarketPrices(UnitWords(TABLES[t])) == PRICES[t]
  {
    TablesOK();
    UnitSnapshot(TABLES[t]);
    Sums();
    hide LevelSum, UnitWords, SnapshotOK, MarketPrice;
    forall s | 0 <= s < NUM_STOCKS ensures MarketPrices(UnitWords(TABLES[t]))[s] == PRICES[t][s] {
      UnitPrice(TABLES[t], s);
    }
  }

  // ---------- the returns ----------

  lemma FourTerms(a: Vec, v: Vec)
    requires |a| == |v| == 4
    ensures Dot(a, v, 0, 4) == a[0] * v[0] + a[1] * v[1] + a[2] * v[2] + a[3] * v[3]
  {
    assert Dot(a, v, 0, 1) == Dot(a, v, 0, 0) + a[0] * v[0];
    assert Dot(a, v, 0, 2) == Dot(a, v, 0, 1) + a[1] * v[1];
    assert Dot(a, v, 0, 3) == Dot(a, v, 0, 2) + a[2] * v[2];
  }

  lemma PricesNonzero()
    ensures Prices(PRICES, NUM_STOCKS)
  {
  }

  lemma LogFacts(ln: real -> real)
    requires IsLogarithm(ln)
    ensures ln(1.0) == 0.0
    ensures ln(257.762 / 253.472) == 2.0 * ln(101.956 / 101.104)
    ensures ln(253.472 / 257.762) == 2.0 * ln(101.104 / 101.956)
  {
    assert ProductLaw(ln, 1.0, 1.0);
    var c, e := 101.956 / 101.104, 101.104 / 101.956;
    assert ProductLaw(ln, c, c) && ProductLaw(ln, e, e);
    assert c * c == 257.762 / 253.472 && e * e == 253.472 / 257.762;
  }

  /** Twice the first logarithmic return is always the second. */
  lemma LogsLeaveDirection(ln: real -> real) returns (v: Vec)
    requires IsLogarithm(ln)
    ensures Prices(PRICES, NUM_STOCKS) && OrthogonalToReturns(Log(ln), PRICES, NUM_STOCKS, v) && NonZero(v)
  {
    v := [-2.0, 1.0, 0.0, 0.0];
    PricesNonzero();
    LogFacts(ln);
    assert v[1] != 0.0;
    hide Dot, IsLogarithm;
    forall t | 1 <= t < 5 ensures Dot(Returns(Log(ln), PRICES[t - 1], PRICES[t]), v, 0, NUM_STOCKS) == 0.0 {
      FourTerms(Returns(Log(ln), PRICES[t - 1], PRICES[t]), v);
    }
  }

  /** The simple returns of the same prices leave none. */
  lemma SimpleLeaveNone(v: Vec)
    requires Prices(PRICES, NUM_STOCKS) && OrthogonalToReturns(Simple, PRICES, NUM_STOCKS, v)
    ensures !NonZero(v)
  {
    hide Dot;
    forall t | 1 <= t < 5 ensures SimpleRow(v, t) {
      FourTerms(Returns(Simple, PRICES[t - 1], PRICES[t]), v);
      assert Dot(Returns(Simple, PRICES[t - 1], PRICES[t]), v, 0, NUM_STOCKS) == 0.0;
    }
    assert SimpleRow(v, 1) && SimpleRow(v, 2) && SimpleRow(v, 3) && SimpleRow(v, 4);
    assert v[2] == 0.0 && v[3] == 0.0;
    assert v[1] == 0.0 && v[0] == 0.0;
  }

  ghost predicate SimpleRow(v: Vec, t: nat)
    requires |v| == NUM_STOCKS && 1 <= t < 5
  {
    var r := Returns(Simple, PRICES[t - 1], PRICES[t]);
    r[0] * v[0] + r[1] * v[1] + r[2] * v[2] + r[3] * v[3] == 0.0
  }
}
