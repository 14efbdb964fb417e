/** The hardware order generation stage. */
module OrderGenAxis {
  import opened Words
  import opened Bytes
  import opened Floats
  import opened LinearAlgebra
  import opened Ouch
  import opened OrderGen
  import opened QrStages
  import opened Streams

  const MESSAGE_WORDS := 1 + ORDERS * ORDER_WORDS

  /** A weight word that makes the stage give up; a word that is no number passes both comparisons. */
  predicate Rejected(x: Weight) {
    x.Infinite? || (x.Num? && (x.w > 1.0 || x.w < 0.0))
  }

  /** No number, or one between 0 and 1. */
  predicate NoneOrUnit(x: Weight) {
    match x
    case Num(w) => 0.0 <= w <= 1.0
    case Infinite => false
    case NotANumber => true
  }

  /** How many of the first n words are read before the stage gives up, n when it does not. */
  function Accepted(ws: seq<Weight>, n: nat): (k: nat)
    requires n <= |ws|
    ensures k <= n
    ensures forall i :: 0 <= i < k ==> NoneOrUnit(ws[i])
    ensures k < n ==> !NoneOrUnit(ws[k])
  {
    if n == 0 then 0
    else
      var k := Accepted(ws, n - 1);
      if k < n - 1 || Rejected(ws[n - 1]) then k else n
  }

  ghost function Numbers(ws: seq<Weight>): (w: Vec)
    requires forall i :: 0 <= i < |ws| ==> ws[i].Num?
    ensures |w| == |ws|
  {
    seq(|ws|, i requires 0 <= i < |ws| => ws[i].w)
  }

  lemma {:induction false} WordsConcat(a: seq<byte>, b: seq<byte>)
    requires |a| % 4 == 0 && |b| % 4 == 0
    ensures WordsOf(a + b) == WordsOf(a) + WordsOf(b)
    decreases |a|
  {
    hide FromBE;
    if a == [] {
      assert a + b == b;
    } else {
      assert |a| >= 4 && (a + b)[..4] == a[..4];
      assert (a + b)[4..] == a[4..] + b;
      WordsConcat(a[4..], b);
      assert WordsOf(a) == [FromBE(a[..4])] + WordsOf(a[4..]);
    }
  }

  /** The word of a four-byte string. */
  lemma OneWord(b: seq<byte>)
    requires |b| == 4
    ensures WordsOf(b) == [FromBE(b)]
  {
    assert b[..4] == b && b[4..] == [];
  }

  // ---------- conversions ----------

  const HALF := 0x8000_0000

  /** u may be what a float converts to as an unsigned word: its whole part when that fits, anything otherwise. */
  predicate ConvertsTo(x: Float, u: int) {
    0 <= u < WORD && (x.Num? && 0 <= Trunc(x.w) < WORD ==> u == Trunc(x.w))
  }

  /** An unsigned word read as a signed one. */
  function ToSigned(t: int): int {
    if t < HALF then t else t - WORD
  }

  predicate FitsSigned(x: int) {
    -HALF <= x < HALF
  }

  /** d may be the signed difference of a target and the shares held. The cast of the target wraps; shares that do not
      fit a signed word, and a difference that does not, may come out as anything. */
  predicate DeltaOf(t: int, held: int, d: int) {
    FitsSigned(d) && (FitsSigned(held) && FitsSigned(ToSigned(t) - held) ==> d == ToSigned(t) - held)
  }

  /** From shares that fit a signed word, the difference is sure to lead to the target exactly when that fits too. */
  lemma DeltaLeads(t: int, held: int)
    requires 0 <= t < WORD && 0 <= held < HALF
    ensures (forall d :: DeltaOf(t, held, d) ==> held + d == t) <==> t < HALF
  {
    if t >= HALF {
      var d := if FitsSigned(ToSigned(t) - held) then ToSigned(t) - held else 0;
      assert DeltaOf(t, held, d) && held + d != t;
    }
  }

  /** The desired shares of a stock, before conversion. */
  function Desired(w: Float, v: real, p: real): Float {
    Div(Mul(w, Num(v)), Num(p))
  }

  method ToUnsigned(x: Float) returns (u: nat)
    ensures ConvertsTo(x, u)
  {
    if x.Num? && 0 <= Trunc(x.w) < WORD {
      u := Trunc(x.w);
    } else {
      u :| 0 <= u < WORD;
    }
  }

  /** The target cast to a signed word, minus the shares converted to one. */
  method Difference(t: nat, held: real, ghost share: int) returns (d: int)
    requires t < WORD && held == share as real
    ensures DeltaOf(t, share, d)
  {
    TruncWhole(share);
    var heldShares: int := Trunc(held);
    if !FitsSigned(heldShares) { heldShares :| FitsSigned(heldShares); }
    d := ToSigned(t) - heldShares;
    if !FitsSigned(d) { d :| FitsSigned(d); }
  }

  // ---------- a firing ----------

  /** One firing: weights and prices read; targets, signed differences and price words that came out of the
      conversions. */
  datatype Firing = Firing(ws: seq<Float>, p: Vec, t: seq<int>, d: seq<int>, fixed: seq<int>)

  ghost predicate FiringOK(f: Firing) {
    |f.ws| == |f.p| == |f.t| == |f.d| == |f.fixed| == NUM_STOCKS
  }

  /** What stock i of a firing may come out as, from account a. */
  ghost predicate AllowedAt(a: Account, f: Firing, i: nat)
    requires AccountOK(a) && FiringOK(f) && i < NUM_STOCKS
  {
    && ConvertsTo(Desired(f.ws[i], NetWorth(a, f.p), f.p[i]), f.t[i])
    && DeltaOf(f.t[i], a.shares[i], f.d[i])
    && ConvertsTo(Num(f.p[i] * SCALE), f.fixed[i])
  }

  ghost predicate Allowed(a: Account, f: Firing)
    requires AccountOK(a)
  {
    FiringOK(f) && forall i :: 0 <= i < NUM_STOCKS ==> AllowedAt(a, f, i)
  }

  /** The orders of the first n stocks. */
  ghost function FiringOrders(a: Account, f: Firing, n: nat): (os: seq<Order>)
    requires FiringOK(f) && n <= NUM_STOCKS
    ensures |os| == n && forall i :: 0 <= i < n ==> |os[i].symbol| == 8
  {
    seq(n, i requires 0 <= i < n => OrderOf(a.nextRef + i, f.d[i], i, f.fixed[i]))
  }

  /** What a completed firing sends: the portfolio word, then the orders. */
  ghost function FiringWords(a: Account, f: Firing, portfolio: nat): (ws: seq<nat>)
    requires FiringOK(f)
    ensures |ws| == MESSAGE_WORDS
  {
    WordsOf(Blob(portfolio, FiringOrders(a, f, NUM_STOCKS)))
  }

  class OrderGenStage {
    var holdings: seq<real>
    var cash: real
    var userRefNum: nat
    var latchedWeights: seq<Float>
    ghost var shares: seq<int>

    ghost predicate Valid()
      reads this
    {
      Whole(holdings, shares) && |shares| == |latchedWeights| == NUM_STOCKS
    }

    ghost function State(): (a: Account)
      requires Valid()
      reads this
      ensures AccountOK(a)
    {
      Account(shares, cash, userRefNum)
    }

    constructor ()
      ensures Valid() && State() == Start()
    {
      holdings, shares := [0.0, 0.0, 0.0, 0.0], [0, 0, 0, 0];
      cash := START_CASH;
      userRefNum := 1;
      latchedWeights := [Num(0.0), Num(0.0), Num(0.0), Num(0.0)];
    }

    /** One firing. A rejected weight ends it at once: the words after it stay on the stream, and nothing is sent.
        Otherwise the account moves to the targets the conversions gave, also when some weight was no number. */
    method Fire(weights: Stream<Weight>, prices: Stream<real>, outs: Stream<nat>)
      returns (ghost f: Firing, ghost portfolio: nat)
      requires Valid() && |prices.items| >= NUM_STOCKS && |weights.items| >= NUM_STOCKS
      modifies this, weights, prices, outs
      ensures Valid() && prices.items == old(prices.items)[NUM_STOCKS..]
      ensures var a, k := old(State()), Accepted(old(weights.items), NUM_STOCKS);
              if k < NUM_STOCKS
              then State() == a && weights.items == old(weights.items)[k + 1..] && outs.items == old(outs.items)
              else
                && f.ws == old(weights.items)[..NUM_STOCKS] && f.p == old(prices.items)[..NUM_STOCKS] && Allowed(a, f)
                && ConvertsTo(Num(NetWorth(a, f.p) * SCALE), portfolio)
                && weights.items == old(weights.items)[NUM_STOCKS..] && State() == Settle(a, f.t, f.p)
                && outs.items == old(outs.items) + FiringWords(a, f, portfolio)
    {
      hide Allowed, FiringWords;
      var p := ReadMany(prices, NUM_STOCKS);
      var ok := ReadWeights(weights);
      if !ok { return Firing([], [], [], [], []), 0; }
      f, portfolio := Generate(p, outs);
    }

    /** Latch weight by weight until one is rejected. */
    method ReadWeights(weights: Stream<Weight>) returns (ok: bool)
      requires Valid() && |weights.items| >= NUM_STOCKS
      modifies this`latchedWeights, weights
      ensures Valid() && State() == old(State())
      ensures var k := Accepted(old(weights.items), NUM_STOCKS);
              && (ok <==> k == NUM_STOCKS)
              && weights.items == old(weights.items)[if ok then NUM_STOCKS else k + 1..]
              && (ok ==> latchedWeights == old(weights.items)[..NUM_STOCKS])
    {
      ghost var ws := weights.items;
      var i := 0;
      while i < NUM_STOCKS
        invariant 0 <= i <= NUM_STOCKS && Valid() && State() == old(State())
        invariant weights.items == ws[i..] && Accepted(ws, i) == i
        invariant forall k :: 0 <= k < i ==> latchedWeights[k] == ws[k]
      {
        var val := weights.Read();
        if Rejected(val) {
          StaysRejected(ws, i, NUM_STOCKS);
          return false;
        }
        latchedWeights := latchedWeights[i := val];
        i := i + 1;
      }
      ok := true;
    }

    /** Value the account, send it, and send one order per stock. */
    method Generate(p: Vec, outs: Stream<nat>) returns (ghost f: Firing, ghost portfolio: nat)
      requires Valid() && |p| == NUM_STOCKS
      modifies this`holdings, this`cash, this`userRefNum, this`shares, outs
      ensures Valid() && f.ws == latchedWeights && f.p == p && Allowed(old(State()), f)
      ensures ConvertsTo(Num(NetWorth(old(State()), p) * SCALE), portfolio)
      ensures State() == Settle(old(State()), f.t, p)
      ensures outs.items == old(outs.items) + FiringWords(old(State()), f, portfolio)
    {
      hide OrdersBytes, FiringOrders, Worth, Times, Desired, ConvertsTo, DeltaOf, WordsOf, Allowed;
      ghost var a := State();
      var v := PortfolioValue(a, cash, holdings, p);
      var fixed := ToUnsigned(Num(v * SCALE));
      portfolio := fixed;
      outs.Write(fixed);
      PortfolioWord(fixed);
      var orders, newHoldings, totalCost;
      orders, newHoldings, totalCost, f := PlanFiring(a, holdings, userRefNum, latchedWeights, p, v);
      userRefNum := userRefNum + NUM_STOCKS;
      SendOrders(orders, outs);
      WordsConcat(BE(fixed, 4), OrdersBytes(FiringOrders(a, f, NUM_STOCKS)));
      holdings, shares := newHoldings, f.t;
      cash := v - totalCost;
    }
  }

  /** One stock of a firing. */
  method PlanOne(w: Float, v: real, p: real, held: real, ghost share: int) returns (target: nat, d: int, fixed: nat)
    requires held == share as real
    ensures ConvertsTo(Desired(w, v, p), target) && DeltaOf(target, share, d) && ConvertsTo(Num(p * SCALE), fixed)
  {
    target := ToUnsigned(Desired(w, v, p));
    d := Difference(target, held, share);
    fixed := ToUnsigned(Num(p * SCALE));
  }

  /** The loop over the stocks, with whatever the conversions give. */
  method PlanFiring(ghost a: Account, held: seq<real>, ref: nat, w: seq<Float>, p: Vec, v: real)
    returns (orders: seq<Order>, newHoldings: seq<real>, totalCost: real, ghost f: Firing)
    requires AccountOK(a) && |w| == |p| == NUM_STOCKS && v == NetWorth(a, p) && ref == a.nextRef
    requires Whole(held, a.shares)
    ensures f.ws == w && f.p == p && FiringOK(f) && Allowed(a, f)
    ensures orders == FiringOrders(a, f, NUM_STOCKS)
    ensures Whole(newHoldings, f.t) && totalCost == Worth(f.t, p, NUM_STOCKS)
  {
    orders, newHoldings, totalCost := [], [], 0.0;
    ghost var t: seq<int>, ds: seq<int>, fs: seq<int> := [], [], [];
    hide Desired, ConvertsTo, DeltaOf, Times, NetWorth, OrderOf;
    assert Worth(t, p, 0) == 0.0;
    for i := 0 to NUM_STOCKS
      invariant |newHoldings| == |t| == |ds| == |fs| == |orders| == i
      invariant forall k :: 0 <= k < i ==> newHoldings[k] == t[k] as real
      invariant totalCost == Worth(t, p, i)
      invariant forall k :: 0 <= k < i ==>
        ConvertsTo(Desired(w[k], v, p[k]), t[k]) && DeltaOf(t[k], a.shares[k], ds[k]) &&
          ConvertsTo(Num(p[k] * SCALE), fs[k])
      invariant forall k :: 0 <= k < i ==> orders[k] == OrderOf(ref + k, ds[k], k, fs[k])
    {
      var target, d, fixed := PlanOne(w[i], v, p[i], held[i], a.shares[i]);
      WorthMore(t, target, p, i);
      t, ds, fs := t + [target], ds + [d], fs + [fixed];
      newHoldings := newHoldings + [target as real];
      totalCost := totalCost + Times(target as real, p[i]);
      orders := orders + [OrderOf(ref + i, d, i, fixed)];
    }
    f := Firing(w, p, t, ds, fs);
    assert forall i :: 0 <= i < NUM_STOCKS ==> AllowedAt(a, f, i);
  }

  lemma WorthMore(t: seq<int>, x: int, p: Vec, i: nat)
    requires |t| == i < |p|
    ensures Worth(t + [x], p, i + 1) == Worth(t, p, i) + Times(x as real, p[i])
  {
    hide Times;
    WorthPrefix(t, x, p, i);
  }

  lemma {:induction false} WorthPrefix(t: seq<int>, x: int, p: Vec, n: nat)
    requires n <= |t| && n <= |p|
    ensures Worth(t + [x], p, n) == Worth(t, p, n)
    decreases n
  {
    hide Times;
    if n > 0 { WorthPrefix(t, x, p, n - 1); }
  }

  ghost predicate EightLetters(os: seq<Order>) {
    forall i :: 0 <= i < |os| ==> |os[i].symbol| == 8
  }

  /** The words of some orders. */
  ghost function OrderWords(os: seq<Order>): (ws: seq<nat>)
    requires EightLetters(os)
  {
    WordsOf(OrdersBytes(os))
  }

  lemma MoreOrderWords(os: seq<Order>, i: nat)
    requires EightLetters(os) && i < |os|
    ensures EightLetters(os[..i]) && EightLetters(os[..i + 1])
    ensures OrderWords(os[..i + 1]) == OrderWords(os[..i]) + WordsOf(OrderBytes(os[i]))
  {
    hide OrderBytes;
    assert os[..i + 1][..i] == os[..i];
    WordsConcat(OrdersBytes(os[..i]), OrderBytes(os[i]));
  }

  /** Send the words of the orders, one order after the other. */
  method SendOrders(orders: seq<Order>, outs: Stream<nat>)
    requires EightLetters(orders)
    modifies outs
    ensures outs.items == old(outs.items) + OrderWords(orders)
  {
    assert OrderWords(orders[..0]) == [];
    assert orders[..|orders|] == orders;
    hide OrderBytes, OrderWords, WordsOf;
    for i := 0 to |orders|
      invariant EightLetters(orders[..i]) && outs.items == old(outs.items) + OrderWords(orders[..i])
    {
      var words := PackWords(orders[i]);
      MoreOrderWords(orders, i);
      WriteAll(outs, words);
    }
  }

  /** Four bytes joined by shifts. */
  function WordAt(b: seq<byte>, idx: nat): nat
    requires idx + 4 <= |b|
  {
    b[idx] as int * 0x100_0000 + b[idx + 1] as int * 0x1_0000 + b[idx + 2] as int * 0x100 + b[idx + 3] as int
  }

  /** Twelve words, each from four bytes of the packed message. */
  method PackWords(o: Order) returns (words: seq<nat>)
    requires |o.symbol| == 8
    ensures words == WordsOf(OrderBytes(o))
  {
    var packed := PackOrder(o);
    var msg := packed[..];
    words := [];
    assert words == WordsOf(msg[..0]);
    hide WordsOf, OrderBytes, WordAt;
    for i := 0 to ORDER_WORDS
      invariant words == WordsOf(msg[..4 * i])
    {
      NextWord(msg, 4 * i);
      words := words + [WordAt(msg, 4 * i)];
    }
    assert msg[..4 * ORDER_WORDS] == msg;
  }

  lemma NextWord(b: seq<byte>, idx: nat)
    requires idx % 4 == 0 && idx + 4 <= |b|
    ensures WordsOf(b[..idx + 4]) == WordsOf(b[..idx]) + [WordAt(b, idx)]
  {
    var g := b[idx..idx + 4];
    assert g == [b[idx], b[idx + 1], b[idx + 2], b[idx + 3]];
    WordValue(b[idx], b[idx + 1], b[idx + 2], b[idx + 3]);
    assert b[..idx + 4] == b[..idx] + g;
    WordsConcat(b[..idx], g);
    OneWord(g);
    hide WordsOf, FromBE;
  }

  lemma PortfolioWord(fixed: nat)
    requires fixed < WORD
    ensures WordsOf(BE(fixed, 4)) == [fixed]
  {
    OneWord(BE(fixed, 4));
    PowFacts();
    NumberRoundTrip(fixed, 4);
  }

  lemma {:induction false} StaysRejected(ws: seq<Weight>, k: nat, n: nat)
    requires k < n <= |ws| && Accepted(ws, k) == k && Rejected(ws[k])
    ensures Accepted(ws, n) == k
    decreases n
  {
    if n > k + 1 { StaysRejected(ws, k, n - 1); }
  }

  /** The hardware's words of a firing, low byte first, are the reversed bytes of its portfolio value and orders. */
  lemma SameBytes(a: Account, f: Firing, portfolio: nat)
    requires FiringOK(f)
    ensures LittleEndianAll(FiringWords(a, f, portfolio)) == Reversed(Blob(portfolio, FiringOrders(a, f, NUM_STOCKS)))
  {
    hide FiringOrders, Blob;
    WordsAreReversed(Blob(portfolio, FiringOrders(a, f, NUM_STOCKS)));
  }
}
