/** Population covariance of a list of samples, over the reals. */
module Covariance {
  import opened LinearAlgebra

  /** Every sample has one entry per stock. */
  ghost predicate Samples(S: seq<Vec>, d: nat) {
    S != [] && forall t :: 0 <= t < |S| ==> |S[t]| == d
  }

  ghost function ColSum(S: seq<Vec>, d: nat, i: nat, k: nat): real
    requires Samples(S, d) && i < d && k <= |S|
  {
    if k == 0 then 0.0 else ColSum(S, d, i, k - 1) + S[k - 1][i]
  }

  ghost function ProdSum(S: seq<Vec>, d: nat, i: nat, j: nat, k: nat): real
    requires Samples(S, d) && i < d && j < d && k <= |S|
  {
    if k == 0 then 0.0 else ProdSum(S, d, i, j, k - 1) + Times(S[k - 1][i], S[k - 1][j])
  }

  ghost function Mean(S: seq<Vec>, d: nat, i: nat): real
    requires Samples(S, d) && i < d
  {
    ColSum(S, d, i, |S|) / |S| as real
  }

  ghost function Moment(S: seq<Vec>, d: nat, i: nat, j: nat): real
    requires Samples(S, d) && i < d && j < d
  {
    ProdSum(S, d, i, j, |S|) / |S| as real
  }

  /** The covariance as it is kept: second moment minus the product of the means. */
  ghost function CovEntry(S: seq<Vec>, d: nat, i: nat, j: nat): real
    requires Samples(S, d) && i < d && j < d
  {
    Moment(S, d, i, j) - Mean(S, d, i) * Mean(S, d, j)
  }

  ghost function CovMatrix(S: seq<Vec>, d: nat): (C: Mat)
    requires Samples(S, d)
    ensures IsSquare(C, d)
    ensures forall i, j :: 0 <= i < d && 0 <= j < d ==> C[i][j] == CovEntry(S, d, i, j)
  {
    seq(d, i requires 0 <= i < d => seq(d, j requires 0 <= j < d => CovEntry(S, d, i, j)))
  }

  // ---------- the batch formula ----------

  /** Sample t minus the mean vector. */
  ghost function Dev(S: seq<Vec>, d: nat, t: nat): (v: Vec)
    requires Samples(S, d) && t < |S|
    ensures |v| == d
  {
    seq(d, i requires 0 <= i < d => S[t][i] - Mean(S, d, i))
  }

  /** The sum over the first k samples of the products of deviations. */
  ghost function DevSum(S: seq<Vec>, d: nat, i: nat, j: nat, k: nat): real
    requires Samples(S, d) && i < d && j < d && k <= |S|
  {
    if k == 0 then 0.0 else DevSum(S, d, i, j, k - 1) + Times(Dev(S, d, k - 1)[i], Dev(S, d, k - 1)[j])
  }

  lemma {:induction false} DevSumExpand(S: seq<Vec>, d: nat, i: nat, j: nat, k: nat)
    requires Samples(S, d) && i < d && j < d && k <= |S|
    ensures DevSum(S, d, i, j, k) ==
            Expanded(ProdSum(S, d, i, j, k), ColSum(S, d, i, k), ColSum(S, d, j, k), Mean(S, d, i),
              Mean(S, d, j), k as real)
    decreases k
  {
    hide Times, Expanded, Mean;
    var m, n := Mean(S, d, i), Mean(S, d, j);
    ExpandNothing(m, n);
    if k > 0 {
      DevSumExpand(S, d, i, j, k - 1);
      ExpandStep(S[k - 1][i], S[k - 1][j], ProdSum(S, d, i, j, k - 1), ColSum(S, d, i, k - 1), ColSum(S, d, j, k - 1),
                 m, n, (k - 1) as real);
      assert k as real == (k - 1) as real + 1.0;
    }
  }

  /** A sum of k products (x - m)(y - n), from the sums p of x y, a of x, b of y. */
  ghost function Expanded(p: real, a: real, b: real, m: real, n: real, k: real): real {
    p - n * a - m * b + k * (m * n)
  }

  lemma ExpandNothing(m: real, n: real)
    ensures Expanded(0.0, 0.0, 0.0, m, n, 0.0) == 0.0
  {
  }

  lemma ExpandStep(x: real, y: real, p: real, a: real, b: real, m: real, n: real, k: real)
    ensures Expanded(p, a, b, m, n, k) + Times(x - m, y - n) == Expanded(p + Times(x, y), a + x, b + y, m, n, k + 1.0)
  {
  }

  /** The incrementally kept covariance is the batch covariance. */
  lemma CovIsBatch(S: seq<Vec>, d: nat, i: nat, j: nat)
    requires Samples(S, d) && i < d && j < d
    ensures CovEntry(S, d, i, j) == DevSum(S, d, i, j, |S|) / |S| as real
  {
    DevSumExpand(S, d, i, j, |S|);
    BatchArithmetic(ProdSum(S, d, i, j, |S|), ColSum(S, d, i, |S|), ColSum(S, d, j, |S|), |S| as real);
    hide Expanded;
  }

  lemma BatchArithmetic(p: real, a: real, b: real, n: real)
    requires n > 0.0
    ensures p / n - (a / n) * (b / n) == Expanded(p, a, b, a / n, b / n, n) / n
  {
    var m, k := a / n, b / n;
    assert m * n == a && k * n == b;
    ExpandedMeans(p, a, b, m, k, n);
    hide Expanded;
    SplitQuotient(p, m * k, n);
  }

  lemma ExpandedMeans(p: real, a: real, b: real, m: real, k: real, n: real)
    requires m * n == a && k * n == b
    ensures Expanded(p, a, b, m, k, n) == p - n * (m * k)
  {
    assert k * a == n * (m * k);
    assert m * b == n * (m * k);
  }

  lemma SplitQuotient(p: real, x: real, n: real)
    requires n > 0.0
    ensures (p - n * x) / n == p / n - x
  {
    var q := p / n;
    assert q * n == p;
    assert (q - x) * n == p - n * x;
  }

  lemma {:induction false} DevSumSymmetric(S: seq<Vec>, d: nat, i: nat, j: nat, k: nat)
    requires Samples(S, d) && i < d && j < d && k <= |S|
    ensures DevSum(S, d, i, j, k) == DevSum(S, d, j, i, k)
    decreases k
  {
    if k > 0 { DevSumSymmetric(S, d, i, j, k - 1); }
  }

  lemma CovSymmetric(S: seq<Vec>, d: nat, i: nat, j: nat)
    requires Samples(S, d) && i < d && j < d
    ensures CovMatrix(S, d)[i][j] == CovMatrix(S, d)[j][i]
  {
    CovIsBatch(S, d, i, j);
    CovIsBatch(S, d, j, i);
    DevSumSymmetric(S, d, i, j, |S|);
  }

  // ---------- the quadratic form ----------

  /** How far sample t moves along v. */
  ghost function Along(S: seq<Vec>, d: nat, t: nat, v: Vec): real
    requires Samples(S, d) && t < |S| && |v| == d
  {
    Dot(Dev(S, d, t), v, 0, d)
  }

  /** Sum over the first m samples of x_t * y_t, where x_t = sum of the first k terms of Dev_t . v, y_t a weight. */
  ghost function RowSum(S: seq<Vec>, d: nat, v: Vec, i: nat, k: nat, m: nat): real
    requires Samples(S, d) && |v| == d && i < d && k <= d && m <= |S|
  {
    if m == 0 then 0.0
    else RowSum(S, d, v, i, k, m - 1) + Times(Dev(S, d, m - 1)[i], Dot(Dev(S, d, m - 1), v, 0, k))
  }

  lemma {:induction false} RowSumStep(S: seq<Vec>, d: nat, v: Vec, i: nat, k: nat, m: nat)
    requires Samples(S, d) && |v| == d && i < d && k < d && m <= |S|
    ensures RowSum(S, d, v, i, k + 1, m) == RowSum(S, d, v, i, k, m) + Times(DevSum(S, d, i, k, m), v[k])
    decreases m
  {
    hide Times;
    StepNothing(v[k]);
    if m > 0 {
      RowSumStep(S, d, v, i, k, m - 1);
      var a := Dev(S, d, m - 1);
      assert Dot(a, v, 0, k + 1) == Dot(a, v, 0, k) + Times(a[k], v[k]);
      StepArithmetic(a[i], Dot(a, v, 0, k), a[k], v[k], DevSum(S, d, i, k, m - 1));
    }
  }

  lemma StepArithmetic(a: real, x: real, b: real, v: real, p: real)
    ensures Times(a, x + Times(b, v)) + Times(p, v) == Times(a, x) + Times(p + Times(a, b), v)
  {
  }

  lemma StepNothing(v: real)
    ensures Times(0.0, v) == 0.0 && Times(v, 0.0) == 0.0
  {
  }

  lemma {:induction false} RowSumZero(S: seq<Vec>, d: nat, v: Vec, i: nat, m: nat)
    requires Samples(S, d) && |v| == d && i < d && m <= |S|
    ensures RowSum(S, d, v, i, 0, m) == 0.0
    decreases m
  {
    if m > 0 { RowSumZero(S, d, v, i, m - 1); }
  }

  /** A row of the covariance matrix times v, as a sum over samples. */
  lemma {:induction false} CovRow(S: seq<Vec>, d: nat, v: Vec, i: nat, k: nat)
    requires Samples(S, d) && |v| == d && i < d && k <= d
    ensures Times(Dot(CovMatrix(S, d)[i], v, 0, k), |S| as real) == RowSum(S, d, v, i, k, |S|)
    decreases k
  {
    hide Times, CovEntry;
    var n := |S| as real;
    if k == 0 {
      StepNothing(n);
      RowSumZero(S, d, v, i, |S|);
    } else {
      CovRow(S, d, v, i, k - 1);
      RowSumStep(S, d, v, i, k - 1, |S|);
      CovIsBatch(S, d, i, k - 1);
      CovRowArithmetic(Dot(CovMatrix(S, d)[i], v, 0, k - 1), DevSum(S, d, i, k - 1, |S|), v[k - 1], n);
    }
  }

  lemma CovRowArithmetic(x: real, p: real, v: real, n: real)
    requires n > 0.0
    ensures Times(x + Times(p / n, v), n) == Times(x, n) + Times(p, v)
  {
    var c := p / n;
    assert c * n == p;
    assert (x + c * v) * n == x * n + (c * n) * v;
  }

  /** v' C v, row by row. */
  ghost function Quad(C: Mat, v: Vec, k: nat): real
    requires IsSquare(C, |v|) && k <= |v|
  {
    if k == 0 then 0.0 else Quad(C, v, k - 1) + Times(v[k - 1], Dot(C[k - 1], v, 0, |v|))
  }

  /** Sum over the first m samples of (sum of the first k terms of Dev_t . v) times Along_t. */
  ghost function FormSum(S: seq<Vec>, d: nat, v: Vec, k: nat, m: nat): real
    requires Samples(S, d) && |v| == d && k <= d && m <= |S|
  {
    if m == 0 then 0.0 else FormSum(S, d, v, k, m - 1) + Times(Dot(Dev(S, d, m - 1), v, 0, k), Along(S, d, m - 1, v))
  }

  lemma {:induction false} FormSumStep(S: seq<Vec>, d: nat, v: Vec, k: nat, m: nat)
    requires Samples(S, d) && |v| == d && k < d && m <= |S|
    ensures FormSum(S, d, v, k + 1, m) == FormSum(S, d, v, k, m) + Times(v[k], RowSum(S, d, v, k, d, m))
    decreases m
  {
    hide Times;
    StepNothing(v[k]);
    if m > 0 {
      FormSumStep(S, d, v, k, m - 1);
      var a := Dev(S, d, m - 1);
      assert Dot(a, v, 0, k + 1) == Dot(a, v, 0, k) + Times(a[k], v[k]);
      FormArithmetic(Dot(a, v, 0, k), a[k], v[k], Along(S, d, m - 1, v), RowSum(S, d, v, k, d, m - 1));
    }
  }

  lemma FormArithmetic(x: real, b: real, v: real, y: real, p: real)
    ensures Times(x + Times(b, v), y) + Times(v, p) == Times(x, y) + Times(v, p + Times(b, y))
  {
  }

  lemma {:induction false} FormSumZero(S: seq<Vec>, d: nat, v: Vec, m: nat)
    requires Samples(S, d) && |v| == d && m <= |S|
    ensures FormSum(S, d, v, 0, m) == 0.0
    decreases m
  {
    if m > 0 { FormSumZero(S, d, v, m - 1); }
  }

  lemma {:induction false} QuadIsForm(S: seq<Vec>, d: nat, v: Vec, k: nat)
    requires Samples(S, d) && |v| == d && k <= d
    ensures Times(Quad(CovMatrix(S, d), v, k), |S| as real) == FormSum(S, d, v, k, |S|)
    decreases k
  {
    hide Times;
    StepNothing(|S| as real);
    if k == 0 {
      FormSumZero(S, d, v, |S|);
    } else {
      QuadIsForm(S, d, v, k - 1);
      FormSumStep(S, d, v, k - 1, |S|);
      CovRow(S, d, v, k - 1, d);
      QuadArithmetic(Quad(CovMatrix(S, d), v, k - 1), v[k - 1], Dot(CovMatrix(S, d)[k - 1], v, 0, d), |S| as real);
    }
  }

  lemma QuadArithmetic(q: real, v: real, x: real, n: real)
    ensures Times(q + Times(v, x), n) == Times(q, n) + Times(v, Times(x, n))
  {
  }

  /** A sum of squares is non-negative, and zero only when every square is. */
  lemma {:induction false} FormSumSquares(S: seq<Vec>, d: nat, v: Vec, m: nat)
    requires Samples(S, d) && |v| == d && m <= |S|
    ensures FormSum(S, d, v, d, m) >= 0.0
    ensures FormSum(S, d, v, d, m) == 0.0 ==> forall t :: 0 <= t < m ==> Along(S, d, t, v) == 0.0
    decreases m
  {
    if m > 0 {
      FormSumSquares(S, d, v, m - 1);
      var y := Along(S, d, m - 1, v);
      assert Square(y) == Times(Dot(Dev(S, d, m - 1), v, 0, d), y);
      hide Times;
    }
  }

  /** The covariance matrix is positive semidefinite. */
  lemma CovPositive(S: seq<Vec>, d: nat, v: Vec)
    requires Samples(S, d) && |v| == d
    ensures Quad(CovMatrix(S, d), v, d) >= 0.0
    ensures Quad(CovMatrix(S, d), v, d) == 0.0 ==> forall t :: 0 <= t < |S| ==> Along(S, d, t, v) == 0.0
  {
    QuadIsForm(S, d, v, d);
    FormSumSquares(S, d, v, |S|);
    SignOfProduct(Quad(CovMatrix(S, d), v, d), |S| as real);
  }

  lemma SignOfProduct(q: real, n: real)
    requires n > 0.0 && Times(q, n) >= 0.0
    ensures q >= 0.0 && (q == 0.0 ==> Times(q, n) == 0.0)
  {
  }

  // ---------- the kernel ----------

  ghost predicate Orthogonal(S: seq<Vec>, d: nat, v: Vec)
    requires Samples(S, d)
  {
    |v| == d && forall t :: 0 <= t < |S| ==> Dot(S[t], v, 0, d) == 0.0
  }

  ghost function MeanVec(S: seq<Vec>, d: nat): (m: Vec)
    requires Samples(S, d)
    ensures |m| == d
  {
    seq(d, i requires 0 <= i < d => Mean(S, d, i))
  }

  lemma DevDot(S: seq<Vec>, d: nat, t: nat, v: Vec)
    requires Samples(S, d) && t < |S| && |v| == d
    ensures Along(S, d, t, v) == Dot(S[t], v, 0, d) - Dot(MeanVec(S, d), v, 0, d)
  {
    var w := Dev(S, d, t);
    assert Combination(w, 1.0, S[t], -1.0, MeanVec(S, d));
    DotCombination(w, 1.0, S[t], -1.0, MeanVec(S, d), v, d);
  }

  /** The mean of vectors orthogonal to v is orthogonal to v: k-prefix column sums. */
  lemma {:induction false} SumDot(S: seq<Vec>, d: nat, v: Vec, k: nat) returns (c: Vec)
    requires Samples(S, d) && Orthogonal(S, d, v) && k <= |S|
    ensures |c| == d && (forall i :: 0 <= i < d ==> c[i] == ColSum(S, d, i, k)) && Dot(c, v, 0, d) == 0.0
    decreases k
  {
    if k == 0 {
      c := Zeros(d);
      DotZero(c, v, 0, d);
    } else {
      var b := SumDot(S, d, v, k - 1);
      c := seq(d, i requires 0 <= i < d => ColSum(S, d, i, k));
      assert Combination(c, 1.0, b, 1.0, S[k - 1]);
      DotCombination(c, 1.0, b, 1.0, S[k - 1], v, d);
    }
  }

  lemma MeanDot(S: seq<Vec>, d: nat, v: Vec)
    requires Samples(S, d) && Orthogonal(S, d, v)
    ensures Dot(MeanVec(S, d), v, 0, d) == 0.0
  {
    var c := SumDot(S, d, v, |S|);
    var k, m := 1.0 / |S| as real, MeanVec(S, d);
    forall i | 0 <= i < d ensures m[i] == Mix(k, c[i], 0.0, c[i]) {
      InverseTimes(c[i], |S| as real);
    }
    DotCombination(m, k, c, 0.0, c, v, d);
  }

  lemma InverseTimes(a: real, n: real)
    requires n > 0.0
    ensures a / n == 1.0 / n * a
  {
  }

  lemma {:induction false} RowSumAlong(S: seq<Vec>, d: nat, v: Vec, i: nat, m: nat)
    requires Samples(S, d) && |v| == d && i < d && m <= |S|
    requires forall t :: 0 <= t < |S| ==> Along(S, d, t, v) == 0.0
    ensures RowSum(S, d, v, i, d, m) == 0.0
    decreases m
  {
    if m > 0 {
      RowSumAlong(S, d, v, i, m - 1);
      assert Along(S, d, m - 1, v) == 0.0;
    }
  }

  /** When the zero return is among the samples, the kernel is exactly what is orthogonal to every sample. */
  lemma CovKernel(S: seq<Vec>, d: nat, v: Vec)
    requires Samples(S, d) && S[0] == Zeros(d)
    ensures InKernel(CovMatrix(S, d), v) <==> Orthogonal(S, d, v)
  {
    var C := CovMatrix(S, d);
    if Orthogonal(S, d, v) {
      MeanDot(S, d, v);
      forall t | 0 <= t < |S| ensures Along(S, d, t, v) == 0.0 { DevDot(S, d, t, v); }
      forall i | 0 <= i < d ensures RowSolved(C, Zeros(d), 0.0, v, i) {
        CovRow(S, d, v, i, d);
        RowSumAlong(S, d, v, i, |S|);
        NoFactor(Dot(C[i], v, 0, d), |S| as real);
      }
    }
    if InKernel(C, v) {
      KernelQuad(C, v, d);
      CovPositive(S, d, v);
      DotZero(S[0], v, 0, d);
      DevDot(S, d, 0, v);
      forall t | 0 <= t < |S| ensures Dot(S[t], v, 0, d) == 0.0 {
        assert Along(S, d, t, v) == 0.0 && Along(S, d, 0, v) == 0.0;
        DevDot(S, d, t, v);
      }
    }
  }

  lemma NoFactor(x: real, n: real)
    requires n > 0.0 && Times(x, n) == 0.0
    ensures x == 0.0
  {
  }

  lemma {:induction false} KernelQuad(C: Mat, v: Vec, k: nat)
    requires IsSquare(C, |v|) && InKernel(C, v) && k <= |v|
    ensures Quad(C, v, k) == 0.0
    decreases k
  {
    if k > 0 {
      KernelQuad(C, v, k - 1);
      assert RowSolved(C, Zeros(|C|), 0.0, v, k - 1);
    }
  }

  // ---------- too few samples ----------

  /** With the zero return among them, d samples or fewer always give a singular matrix. */
  lemma FewSamplesSingular(S: seq<Vec>, d: nat)
    requires Samples(S, d) && S[0] == Zeros(d) && |S| <= d
    ensures Singular(CovMatrix(S, d))
  {
    var v := FreeDirection(S[1..], d);
    DotZero(S[0], v, 0, d);
    forall t | 0 <= t < |S| ensures Dot(S[t], v, 0, d) == 0.0 {
      if t > 0 { assert S[t] == S[1..][t - 1]; }
    }
    CovKernel(S, d, v);
  }
}
