/** The covariance stage: one price vector in, one incrementally updated covariance matrix out. */
module CovUpdates {
  import opened LinearAlgebra
  import opened Covariance
  import opened Streams

  /** The software uses simple returns, the hardware logarithmic ones; ln is any function. */
  datatype ReturnKind = Simple | Log(ln: real -> real)

  function Return(kind: ReturnKind, prev: real, cur: real): real
    requires prev != 0.0
  {
    match kind
    case Simple => (cur - prev) / prev
    case Log(ln) => ln(cur / prev)
  }

  /** Price vectors of d stocks, none zero. */
  ghost predicate Prices(h: seq<Vec>, d: nat) {
    forall t :: 0 <= t < |h| ==> |h[t]| == d && forall i :: 0 <= i < d ==> h[t][i] != 0.0
  }

  ghost function Returns(kind: ReturnKind, prev: Vec, cur: Vec): (r: Vec)
    requires |prev| == |cur| && forall i :: 0 <= i < |prev| ==> prev[i] != 0.0
    ensures |r| == |cur|
  {
    seq(|cur|, i requires 0 <= i < |cur| => Return(kind, prev[i], cur[i]))
  }

  /** The samples behind the statistics: a zero return for the first prices, then every observed return. */
  ghost function History(kind: ReturnKind, h: seq<Vec>, d: nat): (S: seq<Vec>)
    requires h != [] && Prices(h, d)
    ensures Samples(S, d) && |S| == |h| && S[0] == Zeros(d)
  {
    if |h| == 1 then [Zeros(d)]
    else History(kind, h[..|h| - 1], d) + [Returns(kind, h[|h| - 2], h[|h| - 1])]
  }

  /** The matrix the stage holds after the prices h. */
  ghost function CovAfter(kind: ReturnKind, h: seq<Vec>, d: nat): (C: Mat)
    requires h != [] && Prices(h, d)
    ensures IsSquare(C, d)
  {
    CovMatrix(History(kind, h, d), d)
  }

  // ---------- one more sample ----------

  lemma {:induction false} ColSumPrefix(S: seq<Vec>, r: Vec, d: nat, i: nat, k: nat)
    requires Samples(S, d) && |r| == d && i < d && k <= |S|
    ensures Samples(S + [r], d) && ColSum(S + [r], d, i, k) == ColSum(S, d, i, k)
    decreases k
  {
    if k > 0 { ColSumPrefix(S, r, d, i, k - 1); }
  }

  lemma {:induction false} ProdSumPrefix(S: seq<Vec>, r: Vec, d: nat, i: nat, j: nat, k: nat)
    requires Samples(S, d) && |r| == d && i < d && j < d && k <= |S|
    ensures Samples(S + [r], d) && ProdSum(S + [r], d, i, j, k) == ProdSum(S, d, i, j, k)
    decreases k
  {
    if k > 0 { ProdSumPrefix(S, r, d, i, j, k - 1); }
  }

  lemma AverageStep(sum: real, n: real, x: real)
    requires n > 0.0
    ensures (n * (sum / n) + x) / (n + 1.0) == (sum + x) / (n + 1.0)
  {
    assert n * (sum / n) == sum;
  }

  lemma MeanStep(S: seq<Vec>, r: Vec, d: nat, i: nat)
    requires Samples(S, d) && |r| == d && i < d
    ensures Samples(S + [r], d)
    ensures Mean(S + [r], d, i) == (|S| as real * Mean(S, d, i) + r[i]) / (|S| + 1) as real
  {
    ColSumPrefix(S, r, d, i, |S|);
    AverageStep(ColSum(S, d, i, |S|), |S| as real, r[i]);
  }

  lemma MomentStep(S: seq<Vec>, r: Vec, d: nat, i: nat, j: nat)
    requires Samples(S, d) && |r| == d && i < d && j < d
    ensures Samples(S + [r], d)
    ensures Moment(S + [r], d, i, j) == (|S| as real * Moment(S, d, i, j) + Times(r[i], r[j])) / (|S| + 1) as real
  {
    hide Times;
    ProdSumPrefix(S, r, d, i, j, |S|);
    AverageStep(ProdSum(S, d, i, j, |S|), |S| as real, Times(r[i], r[j]));
  }

  class CovarianceUpdateStack {
    const d: nat
    const kind: ReturnKind
    const lastPrices: array<real>
    const lastReturns: array<real>
    const secondMoment: array2<real>
    const cov: array2<real>
    var numUpdates: nat
    ghost var seen: seq<Vec>   // every price vector so far

    ghost predicate Shaped() {
      && lastPrices.Length == lastReturns.Length == d && lastPrices != lastReturns
      && secondMoment.Length0 == secondMoment.Length1 == cov.Length0 == cov.Length1 == d && secondMoment != cov
    }

    /** The fields are the running mean, second moment and covariance of the history. */
    ghost predicate Valid()
      reads this, lastPrices, lastReturns, secondMoment, cov
    {
      && Shaped() && Prices(seen, d) && numUpdates == |seen|
      && (seen == [] ==>
            && (forall i :: 0 <= i < d ==> lastReturns[i] == 0.0)
            && (forall i, j :: 0 <= i < d && 0 <= j < d ==> secondMoment[i, j] == 0.0 && cov[i, j] == 0.0))
      && (seen != [] ==>
            && lastPrices[..] == seen[|seen| - 1]
            && (forall i :: 0 <= i < d ==> lastReturns[i] == Mean(History(kind, seen, d), d, i))
            && (forall i, j :: 0 <= i < d && 0 <= j < d ==>
                  secondMoment[i, j] == Moment(History(kind, seen, d), d, i, j)
                  && cov[i, j] == CovEntry(History(kind, seen, d), d, i, j)))
    }

    constructor (d: nat, kind: ReturnKind)
      ensures Valid() && seen == [] && this.d == d && this.kind == kind
      ensures fresh(lastPrices) && fresh(lastReturns) && fresh(secondMoment) && fresh(cov)
    {
      this.d, this.kind := d, kind;
      lastPrices := new real[d](_ => 0.0);
      lastReturns := new real[d](_ => 0.0);
      secondMoment := new real[d, d]((_, _) => 0.0);
      cov := new real[d, d]((_, _) => 0.0);
      numUpdates, seen := 0, [];
    }

    /** The statistics of a single zero return are zero. */
    lemma FirstStatistics(p: Vec, i: nat, j: nat)
      requires |p| == d && i < d && j < d && Prices([p], d)
      ensures var S := History(kind, [p], d);
              Mean(S, d, i) == 0.0 && Moment(S, d, i, j) == 0.0 && CovEntry(S, d, i, j) == 0.0
    {
      var S := History(kind, [p], d);
      assert S == [Zeros(d)];
      assert ColSum(S, d, i, 1) == ColSum(S, d, i, 0) + 0.0;
      assert ProdSum(S, d, i, j, 1) == ProdSum(S, d, i, j, 0) + Times(0.0, 0.0);
    }

    /** One more price vector. The result says whether the matrix may be used: not after the first prices. */
    method Update(prices: Vec) returns (proceed: bool)
      requires Valid() && |prices| == d && forall i :: 0 <= i < d ==> prices[i] != 0.0
      modifies this, lastPrices, lastReturns, secondMoment, cov
      ensures Valid() && seen == old(seen) + [prices]
      ensures proceed <==> old(seen) != []
    {
      ghost var h := seen + [prices];
      if numUpdates == 0 {
        StorePrices(prices);
        numUpdates, seen := numUpdates + 1, h;
        assert h == [prices];
        forall i | 0 <= i < d ensures Mean(History(kind, h, d), d, i) == 0.0 { FirstStatistics(prices, i, i); }
        forall i, j | 0 <= i < d && 0 <= j < d
          ensures Moment(History(kind, h, d), d, i, j) == 0.0 && CovEntry(History(kind, h, d), d, i, j) == 0.0
        {
          FirstStatistics(prices, i, j);
        }
        return false;
      }
      ghost var S := History(kind, seen, d);
      var rets := UpdateMeans(prices);
      assert h[..|h| - 1] == seen;
      assert History(kind, h, d) == S + [rets];
      UpdateMoments(rets, S);
      StorePrices(prices);
      numUpdates, seen := numUpdates + 1, h;
      return true;
    }

    method StorePrices(prices: Vec)
      requires Shaped() && |prices| == d
      modifies lastPrices
      ensures lastPrices[..] == prices
    {
      for i := 0 to d
        invariant lastPrices[..i] == prices[..i]
      {
        lastPrices[i] := prices[i];
      }
    }

    /** The returns of this step, and the running means brought up to date. */
    method UpdateMeans(prices: Vec) returns (rets: Vec)
      requires Valid() && seen != [] && |prices| == d
      modifies lastReturns
      ensures rets == Returns(kind, seen[|seen| - 1], prices)
      ensures var S := History(kind, seen, d);
              Samples(S + [rets], d) && forall i :: 0 <= i < d ==> lastReturns[i] == Mean(S + [rets], d, i)
    {
      hide Mean, Moment;
      ghost var S := History(kind, seen, d);
      rets := [];
      for i := 0 to d
        invariant rets == Returns(kind, seen[|seen| - 1], prices)[..i]
      {
        rets := rets + [Return(kind, lastPrices[i], prices[i])];
      }
      AverageReturns(rets, S);
    }

    /** The running means of the returns. */
    method AverageReturns(rets: Vec, ghost S: seq<Vec>)
      requires Shaped() && Samples(S, d) && |rets| == d && numUpdates == |S| && Samples(S + [rets], d)
      requires forall i :: 0 <= i < d ==> lastReturns[i] == Mean(S, d, i)
      modifies lastReturns
      ensures forall i :: 0 <= i < d ==> lastReturns[i] == Mean(S + [rets], d, i)
    {
      hide Mean;
      for i := 0 to d
        invariant forall k :: i <= k < d ==> lastReturns[k] == Mean(S, d, k)
        invariant forall k :: 0 <= k < i ==> lastReturns[k] == Mean(S + [rets], d, k)
      {
        MeanStep(S, rets, d, i);
        lastReturns[i] := (numUpdates as real * lastReturns[i] + rets[i]) / (numUpdates + 1) as real;
      }
    }

    /** The running second moments and the covariance brought up to date. */
    method UpdateMoments(rets: Vec, ghost S: seq<Vec>)
      requires Shaped() && Samples(S, d) && |rets| == d && numUpdates == |S| && Samples(S + [rets], d)
      requires forall i :: 0 <= i < d ==> lastReturns[i] == Mean(S + [rets], d, i)
      requires forall i, j :: 0 <= i < d && 0 <= j < d ==> secondMoment[i, j] == Moment(S, d, i, j)
      modifies secondMoment, cov
      ensures forall i, j :: 0 <= i < d && 0 <= j < d ==>
                secondMoment[i, j] == Moment(S + [rets], d, i, j) && cov[i, j] == CovEntry(S + [rets], d, i, j)
    {
      hide Mean, Moment, Times;
      for i := 0 to d
        invariant forall k, l :: i <= k < d && 0 <= l < d ==> secondMoment[k, l] == Moment(S, d, k, l)
        invariant forall k, l :: 0 <= k < i && 0 <= l < d ==>
          secondMoment[k, l] == Moment(S + [rets], d, k, l) && cov[k, l] == CovEntry(S + [rets], d, k, l)
      {
        for j := 0 to d
          invariant forall k, l :: i < k < d && 0 <= l < d ==> secondMoment[k, l] == Moment(S, d, k, l)
          invariant forall l :: j <= l < d ==> secondMoment[i, l] == Moment(S, d, i, l)
          invariant forall k, l :: (0 <= k < i && 0 <= l < d) || (k == i && 0 <= l < j) ==>
            secondMoment[k, l] == Moment(S + [rets], d, k, l) && cov[k, l] == CovEntry(S + [rets], d, k, l)
        {
          MomentStep(S, rets, d, i, j);
          secondMoment[i, j] :=
            (numUpdates as real * secondMoment[i, j] + Times(rets[i], rets[j])) / (numUpdates + 1) as real;
          cov[i, j] := secondMoment[i, j] - lastReturns[i] * lastReturns[j];
        }
      }
    }

    /** The hardware stage: d prices in; d * d matrix entries out, row by row, except on the first firing. */
    method Fire(ins: Stream<real>, outs: Stream<real>)
      requires Valid() && |ins.items| >= d && forall i :: 0 <= i < d ==> ins.items[i] != 0.0
      requires ins != outs
      modifies this, lastPrices, lastReturns, secondMoment, cov, ins, outs
      ensures Valid() && seen == old(seen) + [old(ins.items)[..d]]
      ensures ins.items == old(ins.items)[d..]
      ensures outs.items == old(outs.items) + if old(seen) == [] then [] else Flat(CovAfter(kind, seen, d), d)
    {
      var prices := ReadMany(ins, d);
      var proceed := Update(prices);
      if !proceed { return; }
      WriteMatrix(outs, CovAfter(kind, seen, d));
    }

    method WriteMatrix(outs: Stream<real>, ghost C: Mat)
      requires Shaped() && IsSquare(C, d) && forall i, j :: 0 <= i < d && 0 <= j < d ==> cov[i, j] == C[i][j]
      modifies outs
      ensures outs.items == old(outs.items) + Flat(C, d)
    {
      for i := 0 to d
        invariant outs.items == old(outs.items) + Flat(C, i)
      {
        ghost var before := outs.items;
        for j := 0 to d
          invariant outs.items == before + C[i][..j]
        {
          outs.Write(cov[i, j]);
        }
        assert C[i][..d] == C[i];
      }
    }
  }

  /** The first n rows of a matrix, one after the other. */
  ghost function Flat(C: Mat, n: nat): Vec
    requires n <= |C|
  {
    if n == 0 then [] else Flat(C, n - 1) + C[n - 1]
  }

  // ---------- what the stage's matrix is ----------

  /** After any run of prices the matrix is the batch covariance, symmetric and positive semidefinite. */
  lemma CovAfterIsCovariance(kind: ReturnKind, h: seq<Vec>, d: nat, v: Vec, i: nat, j: nat)
    requires h != [] && Prices(h, d) && |v| == d && i < d && j < d
    ensures var S, C := History(kind, h, d), CovAfter(kind, h, d);
            C[i][j] == DevSum(S, d, i, j, |h|) / |h| as real && C[i][j] == C[j][i] && Quad(C, v, d) >= 0.0
  {
    var S := History(kind, h, d);
    CovIsBatch(S, d, i, j);
    CovSymmetric(S, d, i, j);
    CovPositive(S, d, v);
  }

  /** It is singular exactly when some direction is orthogonal to every observed return. */
  lemma CovAfterSingular(kind: ReturnKind, h: seq<Vec>, d: nat)
    requires h != [] && Prices(h, d)
    ensures Singular(CovAfter(kind, h, d)) <==> exists v :: Orthogonal(History(kind, h, d), d, v) && NonZero(v)
  {
    var S, C := History(kind, h, d), CovAfter(kind, h, d);
    if v :| InKernel(C, v) && NonZero(v) { CovKernel(S, d, v); }
    if v :| Orthogonal(S, d, v) && NonZero(v) { CovKernel(S, d, v); }
  }

  lemma {:induction false} HistoryAt(kind: ReturnKind, h: seq<Vec>, d: nat, t: nat)
    requires h != [] && Prices(h, d) && 1 <= t < |h|
    ensures History(kind, h, d)[t] == Returns(kind, h[t - 1], h[t])
    decreases |h|
  {
    if t < |h| - 1 { HistoryAt(kind, h[..|h| - 1], d, t); }
  }

  /** v is orthogonal to every return between consecutive prices. */
  ghost predicate OrthogonalToReturns(kind: ReturnKind, h: seq<Vec>, d: nat, v: Vec)
    requires Prices(h, d)
  {
    |v| == d && forall t :: 1 <= t < |h| ==> Dot(Returns(kind, h[t - 1], h[t]), v, 0, d) == 0.0
  }

  /** The implicit zero return adds no condition. */
  lemma OrthogonalHistory(kind: ReturnKind, h: seq<Vec>, d: nat, v: Vec)
    requires h != [] && Prices(h, d) && |v| == d
    ensures Orthogonal(History(kind, h, d), d, v) <==> OrthogonalToReturns(kind, h, d, v)
  {
    var S := History(kind, h, d);
    DotZero(S[0], v, 0, d);
    hide History, Returns, Dot;
    forall t | 1 <= t < |h| ensures S[t] == Returns(kind, h[t - 1], h[t]) { HistoryAt(kind, h, d, t); }
    if Orthogonal(S, d, v) {
      forall t | 1 <= t < |h| ensures Dot(Returns(kind, h[t - 1], h[t]), v, 0, d) == 0.0 {
        assert Dot(S[t], v, 0, d) == 0.0;
      }
    }
    if OrthogonalToReturns(kind, h, d, v) {
      forall t | 0 <= t < |S| ensures Dot(S[t], v, 0, d) == 0.0 {
        if t > 0 { assert Dot(Returns(kind, h[t - 1], h[t]), v, 0, d) == 0.0; }
      }
    }
  }

  /** The matrix is singular exactly when a nonzero direction is orthogonal to every return between consecutive
      prices. */
  lemma ReturnsDecide(kind: ReturnKind, h: seq<Vec>, d: nat)
    requires h != [] && Prices(h, d)
    ensures Singular(CovAfter(kind, h, d)) <==> exists v :: OrthogonalToReturns(kind, h, d, v) && NonZero(v)
  {
    CovAfterSingular(kind, h, d);
    var S := History(kind, h, d);
    assert forall v :: Orthogonal(S, d, v) ==> |v| == d;
    assert forall v :: OrthogonalToReturns(kind, h, d, v) ==> |v| == d;
    hide CovAfter, Singular, Orthogonal, OrthogonalToReturns, History, NonZero;
    forall v | |v| == d ensures Orthogonal(S, d, v) <==> OrthogonalToReturns(kind, h, d, v) {
      OrthogonalHistory(kind, h, d, v);
    }
  }

  /** With d stocks, the matrices after 1 to d price vectors are always singular, whatever the prices. */
  lemma FirstMatricesSingular(kind: ReturnKind, h: seq<Vec>, d: nat)
    requires h != [] && Prices(h, d) && |h| <= d
    ensures Singular(CovAfter(kind, h, d))
  {
    FewSamplesSingular(History(kind, h, d), d);
  }

  // ---------- what the returns say of the prices ----------

  ghost predicate ProductLaw(ln: real -> real, x: real, y: real) {
    ln(x * y) == ln(x) + ln(y)
  }

  ghost predicate IsLogarithm(ln: real -> real) {
    forall x, y :: x > 0.0 && y > 0.0 ==> ProductLaw(ln, x, y)
  }

  ghost predicate AllPositive(h: seq<Vec>, d: nat) {
    forall t :: 0 <= t < |h| ==> |h[t]| == d && forall i :: 0 <= i < d ==> h[t][i] > 0.0
  }

  /** What one unit of stock i grows to over the first n samples. */
  ghost function Growth(S: seq<Vec>, d: nat, i: nat, n: nat): real
    requires Samples(S, d) && i < d && n <= |S|
  {
    if n == 0 then 1.0 else Times(Growth(S, d, i, n - 1), 1.0 + S[n - 1][i])
  }

  lemma {:induction false} GrowthPrefix(S: seq<Vec>, r: Vec, d: nat, i: nat, n: nat)
    requires Samples(S, d) && |r| == d && i < d && n <= |S|
    ensures Samples(S + [r], d) && Growth(S + [r], d, i, n) == Growth(S, d, i, n)
    decreases n
  {
    if n > 0 { GrowthPrefix(S, r, d, i, n - 1); }
  }

  lemma Compounded(g: real, first: real, prev: real, cur: real)
    requires prev != 0.0 && Times(first, g) == prev
    ensures Times(first, Times(g, 1.0 + Return(Simple, prev, cur))) == cur
  {
    var r := Return(Simple, prev, cur);
    assert prev * r == cur - prev;
    calc {
      first * (g * (1.0 + r));
      (first * g) * (1.0 + r);
      prev + prev * r;
      cur;
    }
  }

  /** Simple returns compound: over any run they take the first price to the last. */
  lemma {:induction false} SimpleReturnsCompound(h: seq<Vec>, d: nat, i: nat)
    requires h != [] && Prices(h, d) && i < d
    ensures Times(h[0][i], Growth(History(Simple, h, d), d, i, |h|)) == h[|h| - 1][i]
    decreases |h|
  {
    hide Times, Return;
    var n := |h|;
    var S := History(Simple, h, d);
    if n == 1 {
      assert Growth(S, d, i, 1) == Times(Growth(S, d, i, 0), 1.0 + S[0][i]);
      OneTimesOne(h[0][i]);
    } else {
      var p := h[..n - 1];
      SimpleReturnsCompound(p, d, i);
      var r := Returns(Simple, h[n - 2], h[n - 1]);
      GrowthPrefix(History(Simple, p, d), r, d, i, n - 1);
      Compounded(Growth(S, d, i, n - 1), h[0][i], h[n - 2][i], h[n - 1][i]);
      hide History;
    }
  }

  lemma OneTimesOne(x: real)
    ensures Times(1.0, 1.0 + 0.0) == 1.0 && Times(x, 1.0) == x
  {
  }

  lemma LogOfOne(ln: real -> real)
    requires IsLogarithm(ln)
    ensures ln(1.0) == 0.0
  {
    assert ProductLaw(ln, 1.0, 1.0);
  }

  lemma QuotientChain(a: real, b: real, c: real)
    requires a > 0.0 && b > 0.0 && c > 0.0
    ensures b / a > 0.0 && c / b > 0.0 && (b / a) * (c / b) == c / a
  {
    var x, y := b / a, c / b;
    assert x * a == b && y * b == c;
    assert (x * y) * a == c;
  }

  lemma LogChain(ln: real -> real, a: real, b: real, c: real)
    requires IsLogarithm(ln) && a > 0.0 && b > 0.0 && c > 0.0
    ensures ln(b / a) + ln(c / b) == ln(c / a)
  {
    QuotientChain(a, b, c);
    LogOfProduct(ln, b / a, c / b, c / a);
  }

  lemma LogOfProduct(ln: real -> real, x: real, y: real, z: real)
    requires IsLogarithm(ln) && x > 0.0 && y > 0.0 && z == x * y
    ensures ln(z) == ln(x) + ln(y)
  {
    assert ProductLaw(ln, x, y);
  }

  /** Logarithmic returns add up to the logarithm of the last price over the first. */
  lemma {:induction false} LogReturnsAdd(ln: real -> real, h: seq<Vec>, d: nat, i: nat)
    requires IsLogarithm(ln) && h != [] && AllPositive(h, d) && i < d
    ensures Prices(h, d) && ColSum(History(Log(ln), h, d), d, i, |h|) == ln(h[|h| - 1][i] / h[0][i])
    decreases |h|
  {
    hide IsLogarithm;
    var n := |h|;
    var S := History(Log(ln), h, d);
    if n == 1 {
      LogOfOne(ln);
      OwnQuotient(h[0][i]);
      assert ColSum(S, d, i, 1) == ColSum(S, d, i, 0) + S[0][i];
    } else {
      var p := h[..n - 1];
      LogReturnsAdd(ln, p, d, i);
      ColSumPrefix(History(Log(ln), p, d), Returns(Log(ln), h[n - 2], h[n - 1]), d, i, n - 1);
      LogChain(ln, h[0][i], h[n - 2][i], h[n - 1][i]);
      assert S[n - 1][i] == ln(h[n - 1][i] / h[n - 2][i]);
      hide History;
    }
  }

  lemma OwnQuotient(x: real)
    requires x != 0.0
    ensures x / x == 1.0
  {
  }

  lemma StillReturn(kind: ReturnKind, x: real)
    requires x != 0.0 && (kind.Log? ==> IsLogarithm(kind.ln))
    ensures Return(kind, x, x) == 0.0
  {
    OwnQuotient(x);
    if kind.Log? { LogOfOne(kind.ln); }
  }

  lemma {:induction false} ZeroSums(S: seq<Vec>, d: nat, i: nat, j: nat, k: nat)
    requires Samples(S, d) && i < d && j < d && k <= |S| && forall t :: 0 <= t < |S| ==> S[t][i] == 0.0
    ensures ColSum(S, d, i, k) == 0.0 && ProdSum(S, d, i, j, k) == 0.0 && ProdSum(S, d, j, i, k) == 0.0
    decreases k
  {
    if k > 0 { ZeroSums(S, d, i, j, k - 1); }
  }

  /** A stock whose price never moves has a zero row and a zero column in the matrix. */
  lemma StillStock(kind: ReturnKind, h: seq<Vec>, d: nat, i: nat, j: nat)
    requires h != [] && Prices(h, d) && i < d && j < d && (kind.Log? ==> IsLogarithm(kind.ln))
    requires forall t :: 0 <= t < |h| ==> h[t][i] == h[0][i]
    ensures CovAfter(kind, h, d)[i][j] == 0.0 && CovAfter(kind, h, d)[j][i] == 0.0
  {
    var S := History(kind, h, d);
    hide History, Return, IsLogarithm;
    forall t | 0 <= t < |S| ensures S[t][i] == 0.0 {
      if t > 0 {
        HistoryAt(kind, h, d, t);
        StillReturn(kind, h[0][i]);
      }
    }
    ZeroSums(S, d, i, j, |S|);
    hide ColSum, ProdSum;
  }
}
