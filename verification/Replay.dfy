/** Replaying every emitted order: the monitor's view of shares and cost against the generator's account. */
module Replay {
  import opened Words
  import opened Bytes
  import opened LinearAlgebra
  import opened Ouch
  import opened OrderGen

  /** The columns of a logged order the replay uses. */
  datatype LogRow = LogRow(symbol: seq<byte>, side: byte, qty: nat, price: real)

  datatype Position = Position(shares: int, cost: real)

  type Holdings = map<seq<byte>, Position>

  function Held(h: Holdings, symbol: seq<byte>): Position {
    if symbol in h then h[symbol] else Position(0, 0.0)
  }

  /** The sign a row's side gives its quantity. */
  function Signed(r: LogRow): int {
    if r.side == SIDE_BUY then r.qty as int else if r.side == SIDE_SELL then -(r.qty as int) else 0
  }

  /** Every row first makes sure its symbol is there; sides other than buy and sell change nothing. */
  function Apply(h: Holdings, r: LogRow): Holdings {
    var at := Held(h, r.symbol);
    h[r.symbol := Position(at.shares + Signed(r), at.cost + Times(Signed(r) as real, r.price))]
  }

  ghost function Portfolio(rows: seq<LogRow>): Holdings {
    if rows == [] then map[] else Apply(Portfolio(rows[..|rows| - 1]), Last(rows))
  }

  method ComputePortfolio(rows: seq<LogRow>) returns (holdings: Holdings)
    ensures holdings == Portfolio(rows)
  {
    holdings := map[];
    for i := 0 to |rows|
      invariant holdings == Portfolio(rows[..i])
    {
      var r := rows[i];
      if r.symbol !in holdings { holdings := holdings[r.symbol := Position(0, 0.0)]; }
      var at := holdings[r.symbol];
      if r.side == SIDE_BUY {
        holdings := holdings[r.symbol := Position(at.shares + r.qty, at.cost + Times(r.qty as real, r.price))];
      } else if r.side == SIDE_SELL {
        MinusTimes(r.qty as real, r.price);
        holdings := holdings[r.symbol := Position(at.shares - r.qty, at.cost - Times(r.qty as real, r.price))];
      } else {
        assert Times(0.0, r.price) == 0.0;
      }
      assert rows[..i + 1][..i] == rows[..i];
    }
    assert rows[..|rows|] == rows;
  }

  lemma MinusTimes(a: real, b: real)
    ensures Times(-a, b) == -Times(a, b)
  {
  }

  // ---------- the log of a run ----------

  const NAMES: seq<seq<byte>> := [[65, 77, 68, 95], [74, 80, 77, 95], [67, 85, 83, 84], [80, 71, 95, 95]]

  /** The row that decoding an order gives. */
  function RowOf(o: Order): LogRow {
    LogRow(Strip(o.symbol), o.side, o.qty, o.price as real / SCALE)
  }

  /** It is the row the server logs for what it decodes from the order's bytes. */
  lemma RowIsDecoded(o: Order)
    requires Sendable(o) && Fits32(o)
    ensures Decoded(OrderBytes(o)).Message?
    ensures var k := Decoded(OrderBytes(o)).fields;
            && "Symbol" in k && k["Symbol"] == VText(RowOf(o).symbol) && "Side" in k &&
              k["Side"] == VText([RowOf(o).side])
            && "Quantity" in k && k["Quantity"] == VInt(RowOf(o).qty) && "Price" in k &&
              k["Price"] == VPrice(RowOf(o).price)
  {
    OrderRoundTrip(o);
    hide Decoded, OrderBytes, Strip, Sendable;
  }

  ghost function Rows(os: seq<Order>): (rows: seq<LogRow>)
    ensures |rows| == |os|
  {
    seq(|os|, i requires 0 <= i < |os| => RowOf(os[i]))
  }

  lemma SymbolNames(i: nat)
    requires i < NUM_STOCKS
    ensures Strip(SYMBOLS[i]) == NAMES[i]
  {
    var s, n := SYMBOLS[i], NAMES[i];
    assert s[..7][..6] == s[..6] && s[..6][..5] == s[..5] && s[..5][..4] == s[..4] == n;
    assert StripLeft(s) == s;
    assert StripRight(s) == StripRight(s[..7]) == StripRight(s[..6]) == StripRight(s[..5]) == StripRight(n) == n;
  }

  /** Shares traded over a run. */
  ghost function Traded(os: seq<Order>): nat {
    if os == [] then 0 else Traded(os[..|os| - 1]) + Last(os).qty
  }

  ghost function TotalCost(h: Holdings, n: nat): real
    requires n <= NUM_STOCKS
  {
    if n == 0 then 0.0 else TotalCost(h, n - 1) + Held(h, NAMES[n - 1]).cost
  }

  /** The replay's shares after k orders of a move from account a to the targets t. */
  ghost predicate MidStep(a: Account, t: seq<int>, h: Holdings, k: nat)
    requires AccountOK(a) && |t| == NUM_STOCKS && k <= NUM_STOCKS
  {
    forall i :: 0 <= i < NUM_STOCKS ==> Held(h, NAMES[i]).shares == (if i < k then t[i] else a.shares[i])
  }

  lemma NamesDistinct(i: nat, j: nat)
    requires i < NUM_STOCKS && j < NUM_STOCKS && i != j
    ensures NAMES[i] != NAMES[j]
  {
    assert NAMES[0][0] == 65 && NAMES[1][0] == 74 && NAMES[2][0] == 67 && NAMES[3][0] == 80;
  }

  lemma SignedDelta(ref: nat, delta: int, i: nat, fixed: int)
    requires i < NUM_STOCKS
    ensures Signed(RowOf(OrderOf(ref, delta, i, fixed))) == delta
  {
  }

  /** One order moves exactly its own stock to the target. */
  lemma OneOrderShares(a: Account, t: seq<int>, p: Vec, h: Holdings, k: nat)
    requires AccountOK(a) && |t| == |p| == NUM_STOCKS && k < NUM_STOCKS && MidStep(a, t, h, k)
    ensures MidStep(a, t, Apply(h, RowOf(OrdersTo(a, t, p, NUM_STOCKS)[k])), k + 1)
  {
    var delta := t[k] - a.shares[k];
    var r := RowOf(OrderOf(a.nextRef + k, delta, k, FixedPoint(p[k])));
    SymbolNames(k);
    SignedDelta(a.nextRef + k, delta, k, FixedPoint(p[k]));
    assert OrdersTo(a, t, p, NUM_STOCKS)[k] == OrderOf(a.nextRef + k, delta, k, FixedPoint(p[k]));
    assert r.symbol == NAMES[k] && Signed(r) == delta;
    hide Signed, Strip, Times, FixedPoint, OrdersTo, RowOf;
    forall i | 0 <= i < NUM_STOCKS
      ensures Held(Apply(h, r), NAMES[i]).shares == (if i < k + 1 then t[i] else a.shares[i])
    {
      ApplyHeld(h, r, k, i);
    }
  }

  lemma ApplyHeld(h: Holdings, r: LogRow, k: nat, i: nat)
    requires k < NUM_STOCKS && i < NUM_STOCKS && r.symbol == NAMES[k]
    ensures Held(Apply(h, r), NAMES[i]).shares == Held(h, NAMES[i]).shares + if i == k then Signed(r) else 0
  {
    hide Signed, Times;
    if i != k { NamesDistinct(i, k); }
  }

  /** What replay has added to the total cost by one row. */
  lemma {:induction false} TotalCostApply(h: Holdings, r: LogRow, k: nat, n: nat)
    requires k < NUM_STOCKS && n <= NUM_STOCKS && r.symbol == NAMES[k]
    ensures TotalCost(Apply(h, r), n) == TotalCost(h, n) + if k < n then Times(Signed(r) as real, r.price) else 0.0
    decreases n
  {
    hide Times, Signed;
    if n > 0 {
      TotalCostApply(h, r, k, n - 1);
      if n - 1 != k { NamesDistinct(n - 1, k); }
    }
  }

  /** The logged price is short of the price by less than a ten-thousandth. */
  lemma PriceError(p: real)
    requires p > 0.0
    ensures 0.0 <= p - FixedPoint(p) as real / 10000.0 < 1.0 / 10000.0
  {
    var x := p * SCALE;
    assert x >= 0.0;
    var f := x.Floor as real;
    assert f <= x < f + 1.0;
  }

  /** So the cost of an order is off by at most its quantity over ten thousand. */
  lemma CostError(delta: int, p: real)
    requires p > 0.0
    ensures -(Abs(delta) as real) / 10000.0 <=
            Times(delta as real, p) - Times(delta as real, FixedPoint(p) as real / 10000.0) <=
            Abs(delta) as real / 10000.0
  {
    var e := p - FixedPoint(p) as real / SCALE;
    PriceError(p);
    ErrorProduct(Abs(delta) as real, e);
    SplitTimes(delta as real, FixedPoint(p) as real / SCALE, e);
    hide FixedPoint;
    if delta < 0 { MinusTimes(Abs(delta) as real, e); }
    hide Times;
  }

  lemma ErrorProduct(q: real, e: real)
    requires q >= 0.0 && 0.0 <= e < 1.0 / SCALE
    ensures 0.0 <= Times(q, e) <= q / SCALE
  {
    assert q * (1.0 / SCALE - e) >= 0.0;
  }

  lemma SplitTimes(d: real, f: real, e: real)
    ensures Times(d, f + e) == Times(d, f) + Times(d, e)
  {
  }

  /** Cash paid for the first k orders of a move. */
  ghost function Paid(a: Account, t: seq<int>, p: Vec, k: nat): real
    requires AccountOK(a) && |t| == |p| == NUM_STOCKS && k <= NUM_STOCKS
  {
    if k == 0 then 0.0
    else Paid(a, t, p, k - 1) + Times((t[k - 1] - a.shares[k - 1]) as real, p[k - 1])
  }

  lemma {:induction false} PaidIsWorth(a: Account, t: seq<int>, p: Vec, k: nat)
    requires AccountOK(a) && |t| == |p| == NUM_STOCKS && k <= NUM_STOCKS
    ensures Paid(a, t, p, k) == Worth(t, p, k) - Worth(a.shares, p, k)
    decreases k
  {
    hide Times;
    if k > 0 {
      PaidIsWorth(a, t, p, k - 1);
      TimesDifference(t[k - 1] as real, a.shares[k - 1] as real, p[k - 1]);
    }
  }

  lemma TimesDifference(t: real, s: real, p: real)
    ensures Times(t - s, p) == Times(t, p) - Times(s, p)
  {
  }

  /** A move pays exactly for its orders at the true prices. */
  lemma StepPays(a: Account, t: seq<int>, p: Vec)
    requires AccountOK(a) && |t| == |p| == NUM_STOCKS
    ensures Settle(a, t, p).cash == a.cash - Paid(a, t, p, NUM_STOCKS)
  {
    PaidIsWorth(a, t, p, NUM_STOCKS);
    hide Worth, Paid;
  }

  /** |x| <= bound. */
  ghost predicate Near(x: real, bound: real) {
    -bound <= x <= bound
  }

  /** Replay of os, which ends with the first k orders of a move from account a to the targets t. */
  ghost predicate StepState(a: Account, t: seq<int>, p: Vec, os: seq<Order>, k: nat)
    requires AccountOK(a) && |t| == |p| == NUM_STOCKS && k <= NUM_STOCKS
  {
    var h := Portfolio(Rows(os));
    && MidStep(a, t, h, k)
    && Near(TotalCost(h, NUM_STOCKS) - Paid(a, t, p, k) - (10000.0 - a.cash), Traded(os) as real / 10000.0)
  }

  lemma PortfolioAppend(os: seq<Order>, o: Order)
    ensures Portfolio(Rows(os + [o])) == Apply(Portfolio(Rows(os)), RowOf(o))
    ensures Traded(os + [o]) == Traded(os) + o.qty
  {
    hide RowOf, Apply;
    var after := os + [o];
    assert after[..|after| - 1] == os && Last(after) == o;
    assert Rows(after)[..|after| - 1] == Rows(os) && Last(Rows(after)) == RowOf(o);
  }

  lemma OneOrder(a: Account, t: seq<int>, p: Vec, os: seq<Order>, o: Order, k: nat)
    requires AccountOK(a) && |t| == |p| == NUM_STOCKS && k < NUM_STOCKS && p[k] > 0.0 && StepState(a, t, p, os, k)
    requires o == OrdersTo(a, t, p, NUM_STOCKS)[k]
    ensures StepState(a, t, p, os + [o], k + 1)
  {
    hide MidStep, TotalCost, RowOf, Paid, Portfolio, OrdersTo, Traded, Apply, Rows;
    PortfolioAppend(os, o);
    var h := Portfolio(Rows(os));
    OneOrderShares(a, t, p, h, k);
    OneOrderCost(a, t, p, h, k);
    AddErrors(Traded(os), o.qty);
  }

  lemma AddErrors(x: nat, y: nat)
    ensures (x + y) as real / SCALE == x as real / SCALE + y as real / SCALE
  {
  }

  /** Replaying the orders of one more move keeps shares exact and the cost near. */
  lemma StepReplay(a: Account, t: seq<int>, p: Vec, os: seq<Order>)
    requires AccountOK(a) && |t| == |p| == NUM_STOCKS && (forall i :: 0 <= i < NUM_STOCKS ==> p[i] > 0.0)
    requires Replayed(a, os)
    ensures Replayed(Settle(a, t, p), os + OrdersTo(a, t, p, NUM_STOCKS))
  {
    assert Paid(a, t, p, 0) == 0.0 && StepState(a, t, p, os, 0);
    var all := OrdersTo(a, t, p, NUM_STOCKS);
    hide StepState, OrdersTo, Replayed;
    OrdersSoFar(a, t, p, os, all, NUM_STOCKS);
    assert all[..NUM_STOCKS] == all;
    StepEnds(a, t, p, os + all);
  }

  lemma {:induction false} OrdersSoFar(a: Account, t: seq<int>, p: Vec, os: seq<Order>, all: seq<Order>, k: nat)
    requires AccountOK(a) && |t| == |p| == NUM_STOCKS && (forall i :: 0 <= i < NUM_STOCKS ==> p[i] > 0.0)
    requires StepState(a, t, p, os, 0) && all == OrdersTo(a, t, p, NUM_STOCKS) && k <= NUM_STOCKS
    ensures StepState(a, t, p, os + all[..k], k)
    decreases k
  {
    hide StepState, OrdersTo;
    if k == 0 {
      assert os + all[..0] == os;
    } else {
      OrdersSoFar(a, t, p, os, all, k - 1);
      OneOrder(a, t, p, os + all[..k - 1], all[k - 1], k - 1);
      assert os + all[..k - 1] + [all[k - 1]] == os + all[..k];
    }
  }

  lemma StepEnds(a: Account, t: seq<int>, p: Vec, os: seq<Order>)
    requires AccountOK(a) && |t| == |p| == NUM_STOCKS && StepState(a, t, p, os, NUM_STOCKS)
    ensures Replayed(Settle(a, t, p), os)
  {
    StepPays(a, t, p);
    assert Settle(a, t, p).shares == t;
    hide TotalCost, Paid, Portfolio, Settle;
  }

  /** One order changes the replayed cost by what was paid, up to its share of the truncation error. */
  lemma OneOrderCost(a: Account, t: seq<int>, p: Vec, h: Holdings, k: nat)
    requires AccountOK(a) && |t| == |p| == NUM_STOCKS && k < NUM_STOCKS && p[k] > 0.0
    ensures var o := OrdersTo(a, t, p, NUM_STOCKS)[k];
            Near(TotalCost(Apply(h, RowOf(o)), NUM_STOCKS) - TotalCost(h, NUM_STOCKS)
                 - (Paid(a, t, p, k + 1) - Paid(a, t, p, k)), o.qty as real / 10000.0)
  {
    var delta := t[k] - a.shares[k];
    var o := OrderOf(a.nextRef + k, delta, k, FixedPoint(p[k]));
    assert OrdersTo(a, t, p, NUM_STOCKS)[k] == o;
    SymbolNames(k);
    SignedDelta(a.nextRef + k, delta, k, FixedPoint(p[k]));
    TotalCostApply(h, RowOf(o), k, NUM_STOCKS);
    CostError(delta, p[k]);
    assert Paid(a, t, p, k + 1) == Paid(a, t, p, k) + Times(delta as real, p[k]);
    hide Times, TotalCost, Paid, Signed, FixedPoint, Strip, OrdersTo;
  }

  /** Replaying the orders gives the account's shares, and its spending up to the truncation error. */
  ghost predicate Replayed(a: Account, os: seq<Order>)
    requires AccountOK(a)
  {
    var h := Portfolio(Rows(os));
    && (forall i :: 0 <= i < NUM_STOCKS ==> Held(h, NAMES[i]).shares == a.shares[i])
    && Near(TotalCost(h, NUM_STOCKS) - (10000.0 - a.cash), Traded(os) as real / 10000.0)
  }

  /** Over every run, replaying all emitted orders gives exactly the holdings, and the cost within traded / 10000. */
  lemma {:induction false} RunReplay(ticks: seq<Tick>)
    requires AllSound(ticks)
    ensures Replayed(Run(ticks), RunOrders(ticks))
    decreases |ticks|
  {
    if ticks == [] {
      EmptyReplay();
    } else {
      var q := ticks[..|ticks| - 1];
      RunReplay(q);
      StepReplay(Run(q), Targets(Run(q), Last(ticks).w, Last(ticks).p), Last(ticks).p, RunOrders(q));
      hide Settle, OrdersTo, Replayed;
    }
  }

  lemma EmptyReplay()
    ensures Replayed(Start(), [])
  {
    assert Rows([]) == [];
    assert TotalCost(map[], 2) == TotalCost(map[], 1) + 0.0 == 0.0;
    assert TotalCost(map[], 4) == TotalCost(map[], 3) + 0.0 == TotalCost(map[], 2) + 0.0;
  }
}
