/** Order generation: the account, the orders of one step, and what every run of steps keeps. */
module OrderGen {
  import opened Words
  import opened Bytes
  import opened LinearAlgebra
  import opened Weights
  import opened Ouch

  const START_CASH := 10000.0
  const SCALE := 10000.0

  const SYMBOLS: seq<seq<byte>> := [
    [65, 77, 68, 95, 32, 32, 32, 32], [74, 80, 77, 95, 32, 32, 32, 32],
    [67, 85, 83, 84, 32, 32, 32, 32], [80, 71, 95, 95, 32, 32, 32, 32]]   // AMD_, JPM_, CUST, PG__

  /** Conversion to an integer drops the fraction. */
  function Trunc(x: real): int {
    if x >= 0.0 then x.Floor else -((-x).Floor)
  }

  function FixedPoint(value: real): int {
    Trunc(value * SCALE)
  }

  /** Shares held, cash, and the next order reference. */
  datatype Account = Account(shares: seq<int>, cash: real, nextRef: nat)

  predicate AccountOK(a: Account) {
    |a.shares| == NUM_STOCKS
  }

  function Start(): (a: Account)
    ensures AccountOK(a)
  {
    Account([0, 0, 0, 0], START_CASH, 1)
  }

  /** Weights and prices of one step. */
  predicate StepInput(w: Vec, p: Vec) {
    |w| == |p| == NUM_STOCKS && forall i :: 0 <= i < NUM_STOCKS ==> p[i] != 0.0
  }

  /** The value of the first n holdings at prices p. */
  ghost function Worth(shares: seq<int>, p: Vec, n: nat): real
    requires n <= |shares| && n <= |p|
  {
    if n == 0 then 0.0 else Worth(shares, p, n - 1) + Times(shares[n - 1] as real, p[n - 1])
  }

  ghost function NetWorth(a: Account, p: Vec): real
    requires AccountOK(a) && |p| == NUM_STOCKS
  {
    a.cash + Worth(a.shares, p, NUM_STOCKS)
  }

  function TargetOf(w: real, v: real, p: real): int
    requires p != 0.0
  {
    Trunc(Times(w, v) / p)
  }

  ghost function Targets(a: Account, w: Vec, p: Vec): (t: seq<int>)
    requires AccountOK(a) && StepInput(w, p)
    ensures |t| == NUM_STOCKS
  {
    seq(NUM_STOCKS, i requires 0 <= i < NUM_STOCKS => TargetOf(w[i], NetWorth(a, p), p[i]))
  }

  /** The account after moving to the targets t at prices p. */
  ghost function Settle(a: Account, t: seq<int>, p: Vec): (b: Account)
    requires AccountOK(a) && |t| == |p| == NUM_STOCKS
    ensures AccountOK(b)
  {
    Account(t, NetWorth(a, p) - Worth(t, p, NUM_STOCKS), a.nextRef + NUM_STOCKS)
  }

  /** The account after a step. */
  ghost function Step(a: Account, w: Vec, p: Vec): (b: Account)
    requires AccountOK(a) && StepInput(w, p)
    ensures AccountOK(b)
  {
    Settle(a, Targets(a, w, p), p)
  }

  function SideOf(delta: int): byte {
    if delta > 0 then SIDE_BUY else if delta < 0 then SIDE_SELL else SIDE_NO
  }

  function Abs(x: int): nat {
    if x < 0 then -x else x
  }

  /** The order that changes stock i by delta; fixed is the price field. */
  function OrderOf(ref: nat, delta: int, i: nat, fixed: int): (o: Order)
    requires i < NUM_STOCKS
    ensures |o.symbol| == 8
  {
    Order(ref, SideOf(delta), Abs(delta), SYMBOLS[i], fixed)
  }

  /** The orders of the first n stocks that move the account to t. */
  ghost function OrdersTo(a: Account, t: seq<int>, p: Vec, n: nat): (os: seq<Order>)
    requires AccountOK(a) && |t| == |p| == NUM_STOCKS && n <= NUM_STOCKS
    ensures |os| == n && forall i :: 0 <= i < n ==> |os[i].symbol| == 8
  {
    seq(n, i requires 0 <= i < n => OrderOf(a.nextRef + i, t[i] - a.shares[i], i, FixedPoint(p[i])))
  }

  /** The orders of the first n stocks in a step. */
  ghost function Orders(a: Account, w: Vec, p: Vec, n: nat): (os: seq<Order>)
    requires AccountOK(a) && StepInput(w, p) && n <= NUM_STOCKS
    ensures |os| == n && forall i :: 0 <= i < n ==> |os[i].symbol| == 8
  {
    OrdersTo(a, Targets(a, w, p), p, n)
  }

  // ---------- the software generator ----------

  /** A list of whole numbers held as reals. */
  ghost predicate Whole(h: seq<real>, shares: seq<int>) {
    |h| == |shares| && forall i :: 0 <= i < |h| ==> h[i] == shares[i] as real
  }

  class OrderGenerator {
    var holdings: seq<real>
    var cash: real
    var userRefNum: nat
    var latchedWeights: seq<real>
    ghost var shares: seq<int>

    ghost predicate Valid()
      reads this
    {
      Whole(holdings, shares) && |shares| == |latchedWeights| == NUM_STOCKS
    }

    ghost function State(): (a: Account)
      requires Valid()
      reads this
      ensures AccountOK(a)
    {
      Account(shares, cash, userRefNum)
    }

    constructor ()
      ensures Valid() && State() == Start()
    {
      holdings, shares := [0.0, 0.0, 0.0, 0.0], [0, 0, 0, 0];
      cash := START_CASH;
      userRefNum := 1;
      latchedWeights := [0.0, 0.0, 0.0, 0.0];
    }

    /** Weights that are no numbers leave the latched ones in place. None: the portfolio value does not fit four bytes,
        OverflowError is raised and only the weights were latched. */
    method OrderGen(weightVals: seq<Option<real>>, p: Vec) returns (blob: Option<seq<byte>>)
      requires Valid() && |weightVals| == |p| == NUM_STOCKS && forall i :: 0 <= i < NUM_STOCKS ==> p[i] != 0.0
      modifies this
      ensures Valid() && latchedWeights == Latched(old(latchedWeights), weightVals)
      ensures var a, w, fixed := old(State()), latchedWeights, FixedPoint(NetWorth(old(State()), p));
              if 0 <= fixed < WORD
              then State() == Step(a, w, p) && blob == Some(Reversed(Blob(fixed, Orders(a, w, p, NUM_STOCKS))))
              else State() == a && blob == None
      ensures blob.Some? && Solvent(old(State())) && (forall i :: 0 <= i < NUM_STOCKS ==> p[i] > 0.0) ==>
                forall i :: 0 <= i < NUM_STOCKS ==>
                  var v := NetWorth(old(State()), p);
                  && (weightVals[i].Some? && weightVals[i].value >= 0.0 ==>
                        BoughtFor(shares[i], weightVals[i].value, v, p[i]))
                  && (weightVals[i].None? && old(latchedWeights)[i] >= 0.0 ==>
                        BoughtFor(shares[i], old(latchedWeights)[i], v, p[i]))
    {
      hide OrdersBytes, Orders, Reversed, FixedPoint, Worth, Times, TargetOf;
      Latch(weightVals);
      ghost var a, w := State(), latchedWeights;
      var portfolioValue := PortfolioValue(a, cash, holdings, p);
      var fixed := FixedPoint(portfolioValue);
      if !(0 <= fixed < WORD) { return None; }
      var orders, newHoldings, totalCost := PlanOrders(a, holdings, userRefNum, latchedWeights, p, portfolioValue);
      userRefNum := userRefNum + NUM_STOCKS;
      var packed := PackAll(orders);
      var output := BE(fixed, 4) + packed;
      holdings, shares := newHoldings, Targets(a, w, p);
      cash := portfolioValue - totalCost;
      blob := ReverseEndianBytes(output);
      StepBuys(a, w, p);
    }

    method Latch(weightVals: seq<Option<real>>)
      requires Valid() && |weightVals| == NUM_STOCKS
      modifies this`latchedWeights
      ensures Valid() && latchedWeights == Latched(old(latchedWeights), weightVals)
    {
      for i := 0 to NUM_STOCKS
        invariant |latchedWeights| == NUM_STOCKS
        invariant forall k :: 0 <= k < NUM_STOCKS ==>
          latchedWeights[k] == if k < i then Latched(old(latchedWeights), weightVals)[k] else old(latchedWeights)[k]
      {
        latchedWeights := latchedWeights[i := if weightVals[i].None? then latchedWeights[i] else weightVals[i].value];
      }
    }
  }

  /** The weights in force: a weight that is no number (None) keeps the one before. */
  ghost function Latched(before: Vec, weightVals: seq<Option<real>>): (w: Vec)
    requires |before| == |weightVals|
    ensures |w| == |before|
  {
    seq(|before|, i requires 0 <= i < |before| => if weightVals[i].None? then before[i] else weightVals[i].value)
  }

  /** Cash plus the value of the holdings. */
  method PortfolioValue(ghost a: Account, cash: real, held: seq<real>, p: Vec) returns (v: real)
    requires AccountOK(a) && cash == a.cash && Whole(held, a.shares) && |p| == NUM_STOCKS
    ensures v == NetWorth(a, p)
  {
    hide Times;
    v := cash;
    for i := 0 to NUM_STOCKS
      invariant v == cash + Worth(a.shares, p, i)
    {
      v := v + Times(held[i], p[i]);
    }
  }

  /** One stock: the shares to hold, and the order that gets there from the shares held. */
  method TradeOne(w: real, v: real, p: real, held: real, ghost share: int, ref: nat, i: nat)
    returns (target: int, o: Order)
    requires p != 0.0 && held == share as real && i < NUM_STOCKS
    ensures target == TargetOf(w, v, p) && o == OrderOf(ref, target - share, i, FixedPoint(p))
  {
    target := TargetOf(w, v, p);
    TruncWhole(share);
    var delta := target - Trunc(held);
    o := OrderOf(ref, delta, i, FixedPoint(p));
  }

  /** The loop over the stocks: orders numbered from ref on, the new holdings, and what they cost. */
  method PlanOrders(ghost a: Account, held: seq<real>, ref: nat, w: Vec, p: Vec, v: real)
    returns (orders: seq<Order>, newHoldings: seq<real>, totalCost: real)
    requires AccountOK(a) && StepInput(w, p) && v == NetWorth(a, p) && ref == a.nextRef && Whole(held, a.shares)
    ensures orders == Orders(a, w, p, NUM_STOCKS)
    ensures Whole(newHoldings, Targets(a, w, p))
    ensures totalCost == Worth(Targets(a, w, p), p, NUM_STOCKS)
  {
    ghost var t := Targets(a, w, p);
    orders, newHoldings, totalCost := [], [], 0.0;
    hide Targets, TargetOf, Worth, NetWorth, OrderOf;
    WorthStep(t, p, 0);
    for i := 0 to NUM_STOCKS
      invariant |newHoldings| == i && forall k :: 0 <= k < i ==> newHoldings[k] == t[k] as real
      invariant totalCost == Worth(t, p, i)
      invariant orders == Orders(a, w, p, i)
    {
      TargetAt(a, w, p, i);
      WorthStep(t, p, i);
      var targetShares, order := TradeOne(w[i], v, p[i], held[i], a.shares[i], ref + i, i);
      newHoldings := newHoldings + [targetShares as real];
      totalCost := totalCost + Times(targetShares as real, p[i]);
      orders := orders + [order];
    }
  }

  /** The messages of the orders, one after the other. */
  method PackAll(orders: seq<Order>) returns (output: seq<byte>)
    requires forall i :: 0 <= i < |orders| ==> |orders[i].symbol| == 8
    ensures output == OrdersBytes(orders)
  {
    output := [];
    hide OrderBytes;
    for i := 0 to |orders|
      invariant output == OrdersBytes(orders[..i])
    {
      var msg := PackOrder(orders[i]);
      assert orders[..i + 1][..i] == orders[..i];
      output := output + msg[..];
    }
    assert orders[..|orders|] == orders;
  }

  lemma WorthStep(t: seq<int>, p: Vec, i: nat)
    requires i < |t| && i < |p|
    ensures Worth(t, p, 0) == 0.0
    ensures Worth(t, p, i + 1) == Worth(t, p, i) + Times(t[i] as real, p[i])
  {
  }

  lemma TargetAt(a: Account, w: Vec, p: Vec, i: nat)
    requires AccountOK(a) && StepInput(w, p) && i < NUM_STOCKS
    ensures Targets(a, w, p)[i] == TargetOf(w[i], NetWorth(a, p), p[i])
  {
  }

  lemma TruncWhole(x: int)
    ensures Trunc(x as real) == x
  {
  }

  // ---------- one step ----------

  /** Moving to any targets is self-financing: cash plus holdings, at the prices of the move, is unchanged. */
  lemma SelfFinancing(a: Account, t: seq<int>, p: Vec)
    requires AccountOK(a) && |t| == |p| == NUM_STOCKS
    ensures NetWorth(Settle(a, t, p), p) == NetWorth(a, p)
  {
  }

  /** Positive prices, non-negative weights of total at most one. */
  ghost predicate Sound(w: Vec, p: Vec) {
    && |w| == |p| == NUM_STOCKS && Sum(w, NUM_STOCKS) <= 1.0
    && forall i :: 0 <= i < NUM_STOCKS ==> w[i] >= 0.0 && p[i] > 0.0
  }

  ghost predicate Solvent(a: Account) {
    AccountOK(a) && a.cash >= 0.0 && forall i :: 0 <= i < NUM_STOCKS ==> a.shares[i] >= 0
  }

  lemma {:induction false} WorthNonNegative(shares: seq<int>, p: Vec, n: nat)
    requires n <= |shares| && n <= |p|
    requires forall i :: 0 <= i < n ==> shares[i] >= 0 && p[i] >= 0.0
    ensures Worth(shares, p, n) >= 0.0
    decreases n
  {
    if n > 0 {
      WorthNonNegative(shares, p, n - 1);
      NonNegativeTimes(shares[n - 1] as real, p[n - 1]);
    }
  }

  lemma NonNegativeTimes(a: real, b: real)
    requires a >= 0.0 && b >= 0.0
    ensures Times(a, b) >= 0.0
  {
    if a > 0.0 && b > 0.0 {
      assert Times(a, b) > 0.0;
    } else {
      assert Times(a, b) == 0.0;
    }
  }

  /** Whole shares at price p worth at most the allocation x, short of it by less than one share. */
  lemma TargetBound(w: real, v: real, p: real)
    requires w >= 0.0 && v >= 0.0 && p > 0.0
    ensures TargetOf(w, v, p) >= 0
    ensures Times(w, v) - p < Times(TargetOf(w, v, p) as real, p) <= Times(w, v)
  {
    NonNegativeTimes(w, v);
    FloorBound(Times(w, v), p);
    hide Times;
  }

  /** Whole shares worth at most the fraction w of v, and short of it by less than one share. */
  ghost predicate BoughtFor(shares: int, w: real, v: real, p: real) {
    shares >= 0 && w * v - p < shares as real * p <= w * v
  }

  /** A step of a solvent account leaves every stock with what its own weight can buy. */
  lemma StepBuys(a: Account, w: Vec, p: Vec)
    requires AccountOK(a) && StepInput(w, p)
    ensures Solvent(a) && (forall i :: 0 <= i < NUM_STOCKS ==> p[i] > 0.0) ==>
              forall i :: 0 <= i < NUM_STOCKS && w[i] >= 0.0 ==>
                BoughtFor(Step(a, w, p).shares[i], w[i], NetWorth(a, p), p[i])
  {
    if Solvent(a) && forall i :: 0 <= i < NUM_STOCKS ==> p[i] > 0.0 {
      WorthNonNegative(a.shares, p, NUM_STOCKS);
      hide Worth, TargetOf;
      forall i | 0 <= i < NUM_STOCKS && w[i] >= 0.0
        ensures BoughtFor(Step(a, w, p).shares[i], w[i], NetWorth(a, p), p[i])
      {
        TargetBound(w[i], NetWorth(a, p), p[i]);
      }
    }
  }

  lemma FloorBound(x: real, p: real)
    requires x >= 0.0 && p > 0.0
    ensures x / p >= 0.0 && (x / p).Floor >= 0
    ensures x - p < Times((x / p).Floor as real, p) <= x
  {
    var q := x / p;
    assert q * p == x;
    QuotientSign(q, p, x);
    var k := q.Floor as real;
    TimesOrder(k, q, p);
    TimesOrder(q, k + 1.0, p);
    TimesPlus(k, 1.0, p);
    OneTimes(p);
    assert Times(q, p) == x;
    hide Times;
  }

  lemma QuotientSign(q: real, p: real, x: real)
    requires p > 0.0 && q * p == x && x >= 0.0
    ensures q >= 0.0
  {
  }

  lemma TimesOrder(a: real, b: real, p: real)
    requires p > 0.0
    ensures a <= b ==> Times(a, p) <= Times(b, p)
    ensures a < b ==> Times(a, p) < Times(b, p)
  {
    if a < b { assert Times(b - a, p) > 0.0; }
  }

  lemma OneTimes(p: real)
    ensures Times(1.0, p) == p
  {
  }

  /** The first n targets cost at most their share of v, short of it by less than their prices. */
  lemma {:induction false} CostBound(t: seq<int>, w: Vec, v: real, p: Vec, n: nat)
    requires |t| == |w| == |p| == NUM_STOCKS && n <= NUM_STOCKS && v >= 0.0
    requires forall i :: 0 <= i < NUM_STOCKS ==> w[i] >= 0.0 && p[i] > 0.0 && t[i] == TargetOf(w[i], v, p[i])
    ensures Times(Sum(w, n), v) - Sum(p, n) <= Worth(t, p, n) <= Times(Sum(w, n), v)
    ensures n > 0 ==> Times(Sum(w, n), v) - Sum(p, n) < Worth(t, p, n)
    decreases n
  {
    hide Times, TargetOf;
    if n > 0 {
      CostBound(t, w, v, p, n - 1);
      TargetBound(w[n - 1], v, p[n - 1]);
      TimesPlus(Sum(w, n - 1), w[n - 1], v);
    } else {
      NothingTimes(v);
    }
  }

  lemma NothingTimes(v: real)
    ensures Times(0.0, v) == 0.0
  {
  }

  lemma TimesPlus(a: real, b: real, v: real)
    ensures Times(a + b, v) == Times(a, v) + Times(b, v)
  {
  }

  /** A solvent account stays solvent, and keeps idle only what the weights leave over plus less than one share each. */
  lemma StepSolvent(a: Account, w: Vec, p: Vec)
    requires Solvent(a) && Sound(w, p)
    ensures Solvent(Step(a, w, p))
    ensures var idle := Times(1.0 - Sum(w, NUM_STOCKS), NetWorth(a, p));
            idle <= Step(a, w, p).cash < idle + Sum(p, NUM_STOCKS)
  {
    var v, t := NetWorth(a, p), Targets(a, w, p);
    WorthNonNegative(a.shares, p, NUM_STOCKS);
    CostBound(t, w, v, p, NUM_STOCKS);
    NonNegativeTimes(1.0 - Sum(w, NUM_STOCKS), v);
    LeftOver(Sum(w, NUM_STOCKS), v);
    forall i | 0 <= i < NUM_STOCKS ensures t[i] >= 0 { TargetBound(w[i], v, p[i]); }
    hide Times, TargetOf, Worth, Sum;
  }

  lemma LeftOver(s: real, v: real)
    ensures Times(1.0 - s, v) == v - Times(s, v)
  {
  }

  // ---------- runs ----------

  datatype Tick = Tick(w: Vec, p: Vec)

  ghost predicate AllSound(ticks: seq<Tick>) {
    forall k :: 0 <= k < |ticks| ==> Sound(ticks[k].w, ticks[k].p)
  }

  ghost function Run(ticks: seq<Tick>): (a: Account)
    requires AllSound(ticks)
    ensures AccountOK(a)
  {
    if ticks == [] then Start() else Step(Run(ticks[..|ticks| - 1]), Last(ticks).w, Last(ticks).p)
  }

  /** Over every run: cash and holdings never go negative. */
  lemma {:induction false} RunSolvent(ticks: seq<Tick>)
    requires AllSound(ticks)
    ensures Solvent(Run(ticks))
    decreases |ticks|
  {
    hide Step;
    if ticks != [] {
      RunSolvent(ticks[..|ticks| - 1]);
      StepSolvent(Run(ticks[..|ticks| - 1]), Last(ticks).w, Last(ticks).p);
    }
  }

  /** Everything ordered over a run. */
  ghost function RunOrders(ticks: seq<Tick>): (os: seq<Order>)
    requires AllSound(ticks)
  {
    if ticks == [] then []
    else RunOrders(ticks[..|ticks| - 1]) + Orders(Run(ticks[..|ticks| - 1]), Last(ticks).w, Last(ticks).p, NUM_STOCKS)
  }

  /** The ASCII codes of a text. */
  predicate IsText(b: seq<byte>, text: string) {
    |b| == |text| && forall j :: 0 <= j < |b| ==> b[j] == text[j] as int
  }

  function SymbolText(i: nat): string {
    match i
    case 0 => "AMD_    "
    case 1 => "JPM_    "
    case 2 => "CUST    "
    case _ => "PG__    "
  }

  /** An order that changes the holding of stock i by delta shares. */
  ghost predicate Changes(o: Order, delta: int, i: nat) {
    && IsText(o.symbol, SymbolText(i))
    && o.side == (if delta > 0 then 'B' else if delta < 0 then 'S' else 'N') as int
    && o.qty == if delta < 0 then -delta else delta
  }

  lemma OrderOfChanges(ref: nat, delta: int, i: nat, fixed: int)
    requires i < NUM_STOCKS
    ensures var o := OrderOf(ref, delta, i, fixed); Changes(o, delta, i) && o.ref == ref && o.price == fixed
  {
  }

  /** Conversion never goes beyond the number, and stays within one of it on the side of zero. */
  lemma TruncIs(x: real)
    ensures x >= 0.0 ==> 0.0 <= Trunc(x) as real <= x < Trunc(x) as real + 1.0
    ensures x <= 0.0 ==> Trunc(x) as real - 1.0 < x <= Trunc(x) as real <= 0.0
  {
  }

  lemma FixedPointBelow(p: real)
    requires p >= 0.0
    ensures FixedPoint(p) as real <= p * 10000.0 < (FixedPoint(p) + 1) as real
  {
    TruncIs(p * 10000.0);
  }

  lemma {:induction false} RunLength(ticks: seq<Tick>)
    requires AllSound(ticks)
    ensures Run(ticks).nextRef == 4 * |ticks| + 1 && |RunOrders(ticks)| == 4 * |ticks|
    decreases |ticks|
  {
    hide Targets, NetWorth, Worth, Sound;
    if ticks != [] { RunLength(ticks[..|ticks| - 1]); }
  }

  /** Order number n: it takes stock i from one holding to another, and carries the price in ten-thousandths. */
  ghost predicate IsOrder(o: Order, n: nat, i: nat, before: int, after: int, price: real) {
    && o.ref == n && Changes(o, after - before, i)
    && o.price as real <= price * 10000.0 < (o.price + 1) as real
  }

  /** The orders of every run are numbered 1, 2, 3, ... in sequence; number 4 * k + i + 1 is stock i's in call k. */
  lemma {:induction false} RunOrderIs(ticks: seq<Tick>, k: nat, i: nat)
    requires AllSound(ticks) && k < |ticks| && i < 4
    ensures |RunOrders(ticks)| == 4 * |ticks|
    ensures IsOrder(RunOrders(ticks)[4 * k + i], 4 * k + i + 1, i, Run(ticks[..k]).shares[i],
                    Run(ticks[..k + 1]).shares[i], ticks[k].p[i])
    decreases |ticks|
  {
    hide Run, RunOrders, Orders, IsOrder, Sound;
    var p := ticks[..|ticks| - 1];
    RunLength(p);
    RunLength(ticks);
    if k < |p| {
      RunOrderIs(p, k, i);
      OrderStays(ticks, 4 * k + i);
      assert p[..k] == ticks[..k] && p[..k + 1] == ticks[..k + 1];
    } else {
      assert ticks[..k] == p && ticks[..k + 1] == ticks;
      LastOrderIs(ticks, i);
    }
  }

  lemma OrderStays(ticks: seq<Tick>, n: nat)
    requires AllSound(ticks) && ticks != [] && n < |RunOrders(ticks[..|ticks| - 1])|
    ensures n < |RunOrders(ticks)| && RunOrders(ticks)[n] == RunOrders(ticks[..|ticks| - 1])[n]
  {
    hide Orders, Sound, Run;
  }

  lemma LastOrderIs(ticks: seq<Tick>, i: nat)
    requires AllSound(ticks) && ticks != [] && i < 4
    ensures |RunOrders(ticks)| == 4 * |ticks|
    ensures var n := 4 * (|ticks| - 1) + i;
            IsOrder(RunOrders(ticks)[n], n + 1, i, Run(ticks[..|ticks| - 1]).shares[i], Run(ticks).shares[i],
                    Last(ticks).p[i])
  {
    hide RunOrders, OrderOf, FixedPoint, Changes, Run, Sound;
    var p, t := ticks[..|ticks| - 1], Last(ticks);
    RunLength(p);
    RunLength(ticks);
    OrderAtEnd(ticks, i);
    OrderIsOrder(Run(p).shares[i], Run(ticks).shares[i], i, 4 * (|ticks| - 1) + i + 1, t.w, t.p);
  }

  lemma OrderIsOrder(before: int, after: int, i: nat, ref: nat, w: Vec, p: Vec)
    requires Sound(w, p) && i < 4
    ensures IsOrder(OrderOf(ref, after - before, i, FixedPoint(p[i])), ref, i, before, after, p[i])
  {
    FixedPointBelow(p[i]);
    hide FixedPoint, Changes;
    OrderOfChanges(ref, after - before, i, FixedPoint(p[i]));
  }

  lemma OrderAtEnd(ticks: seq<Tick>, i: nat)
    requires AllSound(ticks) && ticks != [] && i < 4 && |RunOrders(ticks)| == 4 * |ticks|
    requires |RunOrders(ticks[..|ticks| - 1])| == 4 * |ticks| - 4
    ensures var a, b, n := Run(ticks[..|ticks| - 1]), Run(ticks), |ticks| - 1;
            RunOrders(ticks)[4 * n + i] ==
            OrderOf(a.nextRef + i, b.shares[i] - a.shares[i], i, FixedPoint(Last(ticks).p[i]))
  {
    hide Targets, NetWorth, OrderOf, FixedPoint;
  }
}
