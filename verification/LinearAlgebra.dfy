/** Linear systems over the reals, for matrices of any size given row by row. */
module LinearAlgebra {
  type Vec = seq<real>
  type Mat = seq<seq<real>>

  ghost predicate IsSquare(A: Mat, n: nat) {
    |A| == n && forall i :: 0 <= i < n ==> |A[i]| == n
  }

  /** The sum of a[k] * x[k] for lo <= k < hi. */
  ghost function Dot(a: Vec, x: Vec, lo: nat, hi: nat): real
    requires lo <= hi <= |a| && hi <= |x|
    decreases hi
  {
    if lo == hi then 0.0 else Dot(a, x, lo, hi - 1) + Times(a[hi - 1], x[hi - 1])
  }

  ghost function Zeros(n: nat): (z: Vec)
    ensures |z| == n
  {
    seq(n, _ => 0.0)
  }

  ghost function Ones(n: nat): (z: Vec)
    ensures |z| == n
  {
    seq(n, _ => 1.0)
  }

  /** Row i of A x = t b. */
  ghost predicate RowSolved(A: Mat, b: Vec, t: real, x: Vec, i: nat)
    requires IsSquare(A, |b|) && |x| == |b| && i < |b|
  {
    Dot(A[i], x, 0, |b|) == t * b[i]
  }

  /** A x = t b; t = 1 is the system itself, t = 0 its kernel. */
  ghost predicate SolvesScaled(A: Mat, b: Vec, t: real, x: Vec) {
    && IsSquare(A, |b|) && |x| == |b|
    && forall i :: 0 <= i < |b| ==> RowSolved(A, b, t, x, i)
  }

  ghost predicate Solves(A: Mat, b: Vec, x: Vec) {
    SolvesScaled(A, b, 1.0, x)
  }

  ghost predicate NonZero(v: Vec) {
    exists i :: 0 <= i < |v| && v[i] != 0.0
  }

  ghost predicate InKernel(A: Mat, v: Vec) {
    SolvesScaled(A, Zeros(|A|), 0.0, v)
  }

  ghost predicate Singular(A: Mat) {
    exists v :: InKernel(A, v) && NonZero(v)
  }

  /** The two systems have the same solutions, and so have their homogeneous forms. */
  ghost predicate Equivalent(A: Mat, b: Vec, C: Mat, d: Vec) {
    forall x, t :: SolvesScaled(A, b, t, x) <==> SolvesScaled(C, d, t, x)
  }

  lemma KernelScaled(A: Mat, b: Vec, v: Vec)
    requires IsSquare(A, |b|)
    ensures InKernel(A, v) <==> SolvesScaled(A, b, 0.0, v)
  {
    if InKernel(A, v) {
      forall i | 0 <= i < |b| ensures RowSolved(A, b, 0.0, v, i) { assert RowSolved(A, Zeros(|A|), 0.0, v, i); }
    }
    if SolvesScaled(A, b, 0.0, v) {
      forall i | 0 <= i < |b| ensures RowSolved(A, Zeros(|A|), 0.0, v, i) { assert RowSolved(A, b, 0.0, v, i); }
    }
  }

  lemma EquivalentKernels(A: Mat, b: Vec, C: Mat, d: Vec)
    requires |b| == |d| && IsSquare(A, |b|) && IsSquare(C, |d|) && Equivalent(A, b, C, d)
    ensures forall v :: InKernel(A, v) <==> InKernel(C, v)
  {
    forall v ensures InKernel(A, v) <==> InKernel(C, v) {
      KernelScaled(A, b, v);
      KernelScaled(C, d, v);
    }
  }

  lemma {:induction false} DotSplit(a: Vec, x: Vec, lo: nat, mid: nat, hi: nat)
    requires lo <= mid <= hi <= |a| && hi <= |x|
    ensures Dot(a, x, lo, hi) == Dot(a, x, lo, mid) + Dot(a, x, mid, hi)
    decreases hi
  {
    if mid < hi { DotSplit(a, x, lo, mid, hi - 1); }
  }

  lemma {:induction false} DotZero(a: Vec, x: Vec, lo: nat, hi: nat)
    requires lo <= hi <= |a| && hi <= |x|
    requires forall k :: lo <= k < hi ==> a[k] == 0.0 || x[k] == 0.0
    ensures Dot(a, x, lo, hi) == 0.0
    decreases hi
  {
    if lo < hi { DotZero(a, x, lo, hi - 1); }
  }

  lemma {:induction false} DotAgree(a: Vec, x: Vec, c: Vec, y: Vec, lo: nat, hi: nat)
    requires lo <= hi <= |a| && hi <= |x| && hi <= |c| && hi <= |y|
    requires forall k :: lo <= k < hi ==> a[k] == c[k] && x[k] == y[k]
    ensures Dot(a, x, lo, hi) == Dot(c, y, lo, hi)
    decreases hi
  {
    if lo < hi { DotAgree(a, x, c, y, lo, hi - 1); }
  }

  function Mix(c: real, u: real, s: real, v: real): real {
    c * u + s * v
  }

  /** w is the combination c * u + s * v. */
  ghost predicate Combination(w: Vec, c: real, u: Vec, s: real, v: Vec) {
    |w| == |u| == |v| && forall k :: 0 <= k < |w| ==> w[k] == Mix(c, u[k], s, v[k])
  }

  lemma {:induction false} DotCombination(w: Vec, c: real, u: Vec, s: real, v: Vec, x: Vec, n: nat)
    requires Combination(w, c, u, s, v) && n <= |w| && n <= |x|
    ensures Dot(w, x, 0, n) == Mix(c, Dot(u, x, 0, n), s, Dot(v, x, 0, n))
    decreases n
  {
    hide Mix, Times;
    MixNothing(c, s);
    if n > 0 {
      DotCombination(w, c, u, s, v, x, n - 1);
      Distribute(c, u[n - 1], s, v[n - 1], x[n - 1], Dot(u, x, 0, n - 1), Dot(v, x, 0, n - 1));
    }
  }

  lemma MixNothing(c: real, s: real)
    ensures Mix(c, 0.0, s, 0.0) == 0.0
  {
  }

  lemma Distribute(c: real, u: real, s: real, v: real, x: real, p: real, q: real)
    ensures Mix(c, p, s, q) + Times(Mix(c, u, s, v), x) == Mix(c, p + Times(u, x), s, q + Times(v, x))
  {
  }

  /** A product with its sign rule; a named product keeps the sign reasoning apart from the rest. */
  function Times(a: real, b: real): (r: real)
    ensures a > 0.0 && b > 0.0 ==> r > 0.0
    ensures a < 0.0 && b < 0.0 ==> r > 0.0
    ensures a == 0.0 || b == 0.0 ==> r == 0.0
  {
    a * b
  }

  function Square(u: real): (r: real)
    ensures u != 0.0 ==> r > 0.0
    ensures u == 0.0 ==> r == 0.0
  {
    Times(u, u)
  }

  function SumSquares(u: real, v: real): real {
    Square(u) + Square(v)
  }

  /** C, d arise from A, b by replacing rows i and j by a c, s rotation of them. */
  ghost predicate Rotated(A: Mat, b: Vec, C: Mat, d: Vec, i: nat, j: nat, c: real, s: real) {
    && |b| == |d| && IsSquare(A, |b|) && IsSquare(C, |d|) && i < j < |b|
    && Combination(C[i], c, A[i], s, A[j]) && Combination(C[j], -s, A[i], c, A[j])
    && d[i] == Mix(c, b[i], s, b[j]) && d[j] == Mix(-s, b[i], c, b[j])
    && forall r :: 0 <= r < |b| && r != i && r != j ==> C[r] == A[r] && d[r] == b[r]
  }

  /** With residuals p and q: both vanish exactly when their rotations do, unless c and s both vanish. */
  lemma RotationInvertible(c: real, s: real, p: real, q: real)
    requires SumSquares(c, s) != 0.0
    ensures c * p + s * q == 0.0 && -s * p + c * q == 0.0 <==> p == 0.0 && q == 0.0
  {
    if c * p + s * q == 0.0 && -s * p + c * q == 0.0 {
      assert c * (c * p + s * q) - s * (-s * p + c * q) == SumSquares(c, s) * p;
      assert s * (c * p + s * q) + c * (-s * p + c * q) == SumSquares(c, s) * q;
    }
  }

  lemma RotationRow(p1: real, q1: real, p0: real, q0: real, bi: real, bj: real, di: real, dj: real,
      c: real, s: real, t: real)
    requires p1 == Mix(c, p0, s, q0) && q1 == Mix(-s, p0, c, q0)
    requires di == Mix(c, bi, s, bj) && dj == Mix(-s, bi, c, bj)
    requires SumSquares(c, s) != 0.0
    ensures p1 == t * di && q1 == t * dj <==> p0 == t * bi && q0 == t * bj
  {
    var p, q := p0 - t * bi, q0 - t * bj;
    RotationInvertible(c, s, p, q);
    assert p1 - t * di == c * p + s * q;
    assert q1 - t * dj == -s * p + c * q;
  }

  lemma RotationSolves(A: Mat, b: Vec, C: Mat, d: Vec, i: nat, j: nat, c: real, s: real, x: Vec, t: real)
    requires Rotated(A, b, C, d, i, j, c, s) && SumSquares(c, s) != 0.0 && |x| == |b|
    ensures RowSolved(A, b, t, x, i) && RowSolved(A, b, t, x, j) <==>
        RowSolved(C, d, t, x, i) && RowSolved(C, d, t, x, j)
  {
    hide Mix, Square;
    var n := |b|;
    DotCombination(C[i], c, A[i], s, A[j], x, n);
    DotCombination(C[j], -s, A[i], c, A[j], x, n);
    RotationRow(Dot(C[i], x, 0, n), Dot(C[j], x, 0, n), Dot(A[i], x, 0, n), Dot(A[j], x, 0, n),
                b[i], b[j], d[i], d[j], c, s, t);
  }

  lemma OtherRow(A: Mat, b: Vec, C: Mat, d: Vec, i: nat, j: nat, c: real, s: real, x: Vec, t: real, r: nat)
    requires Rotated(A, b, C, d, i, j, c, s) && |x| == |b| && r < |b| && r != i && r != j
    ensures RowSolved(A, b, t, x, r) <==> RowSolved(C, d, t, x, r)
  {
  }

  lemma RotationKeepsSolution(A: Mat, b: Vec, C: Mat, d: Vec, i: nat, j: nat, c: real, s: real, x: Vec, t: real)
    requires Rotated(A, b, C, d, i, j, c, s) && SumSquares(c, s) != 0.0 && |x| == |b|
    ensures SolvesScaled(A, b, t, x) <==> SolvesScaled(C, d, t, x)
  {
    RotationSolves(A, b, C, d, i, j, c, s, x, t);
    forall r | 0 <= r < |b| && r != i && r != j
      ensures RowSolved(A, b, t, x, r) <==> RowSolved(C, d, t, x, r)
    {
      OtherRow(A, b, C, d, i, j, c, s, x, t, r);
    }
    assert IsSquare(A, |b|) && IsSquare(C, |d|) && i < |b| && j < |b|;
    hide RowSolved, Rotated;
  }

  /** A rotation of two rows keeps the solutions, for any c and s that are not both zero. */
  lemma RotationEquivalent(A: Mat, b: Vec, C: Mat, d: Vec, i: nat, j: nat, c: real, s: real)
    requires Rotated(A, b, C, d, i, j, c, s) && SumSquares(c, s) != 0.0
    ensures Equivalent(A, b, C, d)
  {
    forall x, t
      ensures SolvesScaled(A, b, t, x) <==> SolvesScaled(C, d, t, x)
    {
      if |x| == |b| { RotationKeepsSolution(A, b, C, d, i, j, c, s, x, t); }
    }
  }

  // ---------- triangular systems ----------

  ghost predicate Upper(A: Mat) {
    forall r, c :: 0 <= c < r < |A| && c < |A[r]| ==> A[r][c] == 0.0
  }

  /** Row r of a triangular matrix only sees x from r on. */
  lemma UpperRow(A: Mat, x: Vec, r: nat)
    requires IsSquare(A, |x|) && Upper(A) && r < |x|
    ensures Dot(A[r], x, 0, |x|) == Times(A[r][r], x[r]) + Dot(A[r], x, r + 1, |x|)
  {
    var n := |x|;
    DotSplit(A[r], x, 0, r, n);
    DotSplit(A[r], x, r, r + 1, n);
    DotZero(A[r], x, 0, r);
    assert Dot(A[r], x, r, r + 1) == Dot(A[r], x, r, r) + Times(A[r][r], x[r]);
  }

  lemma ZeroFactor(a: real, x: real)
    requires a != 0.0 && Times(a, x) == 0.0
    ensures x == 0.0
  {
  }

  /** A triangular matrix without zero pivots has no kernel: x is zero from r on. */
  lemma {:induction false} PivotsNoKernel(A: Mat, x: Vec, r: nat)
    requires IsSquare(A, |x|) && Upper(A) && InKernel(A, x) && r <= |x|
    requires forall i :: 0 <= i < |x| ==> A[i][i] != 0.0
    ensures forall k :: r <= k < |x| ==> x[k] == 0.0
    decreases |x| - r
  {
    if r < |x| {
      PivotsNoKernel(A, x, r + 1);
      UpperRow(A, x, r);
      DotZero(A[r], x, r + 1, |x|);
      assert RowSolved(A, Zeros(|A|), 0.0, x, r);
      assert Times(A[r][r], x[r]) == 0.0;
      ZeroFactor(A[r][r], x[r]);
    }
  }

  /** Solve rows r to p - 1 of the homogeneous system upwards from v. */
  lemma {:induction false} KernelUpwards(A: Mat, p: nat, v: Vec, r: nat) returns (w: Vec)
    requires IsSquare(A, |v|) && Upper(A) && r <= p < |v|
    requires forall i :: 0 <= i < p ==> A[i][i] != 0.0
    requires forall i :: r <= i < p ==> Dot(A[i], v, i, |v|) == 0.0
    ensures |w| == |v| && forall k :: r <= k < |v| ==> w[k] == v[k]
    ensures forall i :: 0 <= i < p ==> Dot(A[i], w, i, |v|) == 0.0
    decreases r
  {
    var n := |v|;
    if r == 0 {
      w := v;
    } else {
      var i := r - 1;
      var y := -Dot(A[i], v, i + 1, n) / A[i][i];
      var u := v[i := y];
      DotAgree(A[i], v, A[i], u, i + 1, n);
      DotSplit(A[i], u, i, i + 1, n);
      assert Dot(A[i], u, i, i + 1) == Dot(A[i], u, i, i) + Times(A[i][i], y);
      assert A[i][i] * y == -Dot(A[i], v, i + 1, n);
      forall k | i <= k < p ensures Dot(A[k], u, k, n) == 0.0 {
        if k > i { DotAgree(A[k], v, A[k], u, k, n); }
      }
      w := KernelUpwards(A, p, u, i);
    }
  }

  /** A triangular matrix with a zero pivot is singular: the kernel vector is built from the first one. */
  lemma ZeroPivotSingular(A: Mat, q: nat)
    requires IsSquare(A, |A|) && Upper(A) && q < |A| && A[q][q] == 0.0
    ensures Singular(A)
  {
    var n, p := |A|, 0;
    while A[p][p] != 0.0
      invariant p <= q && forall i :: 0 <= i < p ==> A[i][i] != 0.0
      decreases q - p
    {
      p := p + 1;
    }
    var w := KernelUpwards(A, p, Zeros(n)[p := 1.0], p);
    forall i | 0 <= i < n ensures RowSolved(A, Zeros(n), 0.0, w, i) {
      DotSplit(A[i], w, 0, i, n);
      DotZero(A[i], w, 0, i);
      if i >= p { DotZero(A[i], w, i, n); }
    }
    assert InKernel(A, w) && w[p] != 0.0;
  }

  /** A triangular matrix is singular exactly when a pivot is zero. */
  lemma UpperSingular(A: Mat)
    requires IsSquare(A, |A|) && Upper(A)
    ensures Singular(A) <==> exists i :: 0 <= i < |A| && A[i][i] == 0.0
  {
    if Singular(A) {
      var v :| InKernel(A, v) && NonZero(v);
      if forall i :: 0 <= i < |A| ==> A[i][i] != 0.0 { PivotsNoKernel(A, v, 0); }
    }
    if q :| 0 <= q < |A| && A[q][q] == 0.0 { ZeroPivotSingular(A, q); }
  }

  // ---------- fewer equations than unknowns ----------

  /** Fewer than d vectors of length d leave a nonzero direction orthogonal to all of them. */
  lemma {:induction false} FreeDirection(S: seq<Vec>, d: nat) returns (v: Vec)
    requires |S| < d && forall t :: 0 <= t < |S| ==> |S[t]| == d
    ensures |v| == d && NonZero(v) && forall t :: 0 <= t < |S| ==> Dot(S[t], v, 0, d) == 0.0
    decreases d
  {
    var e := d - 1;
    if p :| 0 <= p < |S| && S[p][e] != 0.0 {
      var u := S[p];
      var R := seq(|S| - 1, t requires 0 <= t < |S| - 1 => Reduced(S[if t < p then t else t + 1], u, e));
      forall t | 0 <= t < |R| ensures |R[t]| == e {
        assert R[t] == Reduced(S[if t < p then t else t + 1], u, e);
      }
      var w := FreeDirection(R, e);
      v := w + [-Dot(u, w, 0, e) / u[e]];
      LastTerm(u, w, e);
      assert v[..e] == w;
      var i :| 0 <= i < |w| && w[i] != 0.0;
      assert v[i] != 0.0;
      forall t | 0 <= t < |S| ensures Dot(S[t], v, 0, d) == 0.0 {
        if t != p {
          var r := if t < p then t else t - 1;
          assert R[r] == Reduced(S[t], u, e) && Dot(R[r], w, 0, e) == 0.0;
          ReducedDot(S[t], u, e, w, v);
        }
      }
    } else {
      v := Zeros(d)[e := 1.0];
      assert v[e] != 0.0;
      forall t | 0 <= t < |S| ensures Dot(S[t], v, 0, d) == 0.0 { DotZero(S[t], v, 0, d); }
    }
  }

  /** s with its last entry cleared by subtracting a multiple of u, cut to the first e entries. */
  ghost function Reduced(s: Vec, u: Vec, e: nat): (r: Vec)
    requires |s| == |u| == e + 1 && u[e] != 0.0
    ensures |r| == e
  {
    seq(e, i requires 0 <= i < e => Mix(1.0, s[i], -(s[e] / u[e]), u[i]))
  }

  lemma LastTerm(u: Vec, w: Vec, e: nat)
    requires |u| == e + 1 && |w| == e && u[e] != 0.0
    ensures Dot(u, w + [-Dot(u, w, 0, e) / u[e]], 0, e + 1) == 0.0
  {
    var y := -Dot(u, w, 0, e) / u[e];
    DotAgree(u, w + [y], u, w, 0, e);
    assert u[e] * y == -Dot(u, w, 0, e);
  }

  lemma ReducedDot(s: Vec, u: Vec, e: nat, w: Vec, v: Vec)
    requires |s| == |u| == e + 1 && u[e] != 0.0 && |w| == e && |v| == e + 1 && v[..e] == w
    requires Dot(u, v, 0, e + 1) == 0.0 && Dot(Reduced(s, u, e), w, 0, e) == 0.0
    ensures Dot(s, v, 0, e + 1) == 0.0
  {
    hide Mix, Times, Dot, Reduced;
    ReducedIsMix(s, u, e, w);
    DotPrefix(s, w, v, e);
    DotPrefix(u, w, v, e);
    DotLast(s, v, e);
    DotLast(u, v, e);
    ReducedArithmetic(Dot(s, v, 0, e), Dot(u, v, 0, e), u[e], s[e], v[e]);
  }

  lemma DotPrefix(a: Vec, w: Vec, v: Vec, e: nat)
    requires |a| == |v| == e + 1 && v[..e] == w
    ensures Dot(a[..e], w, 0, e) == Dot(a, v, 0, e)
  {
    hide Dot;
    DotAgree(a[..e], w, a, v, 0, e);
  }

  lemma DotLast(a: Vec, x: Vec, e: nat)
    requires |a| == |x| == e + 1
    ensures Dot(a, x, 0, e + 1) == Dot(a, x, 0, e) + Times(a[e], x[e])
  {
  }

  lemma ReducedIsMix(s: Vec, u: Vec, e: nat, w: Vec)
    requires |s| == |u| == e + 1 && u[e] != 0.0 && |w| == e
    ensures Dot(Reduced(s, u, e), w, 0, e) == Mix(1.0, Dot(s[..e], w, 0, e), -(s[e] / u[e]), Dot(u[..e], w, 0, e))
  {
    hide Mix, Dot;
    assert Combination(Reduced(s, u, e), 1.0, s[..e], -(s[e] / u[e]), u[..e]);
    DotCombination(Reduced(s, u, e), 1.0, s[..e], -(s[e] / u[e]), u[..e], w, e);
  }

  lemma ReducedArithmetic(a: real, b: real, u: real, s: real, v: real)
    requires u != 0.0 && Mix(1.0, a, -(s / u), b) == 0.0 && b + Times(u, v) == 0.0
    ensures a + Times(s, v) == 0.0
  {
    var k := s / u;
    assert k * u == s;
    assert k * (b + u * v) == k * b + (k * u) * v;
  }

  lemma ExtendedRow(a: Vec, b: real, v: Vec, n: nat)
    requires |a| == n && |v| == n + 1 && Dot(a + [-b], v, 0, n + 1) == 0.0
    ensures Dot(a, v[..n], 0, n) == v[n] * b
  {
    var s := a + [-b];
    DotPrefix(s, v[..n], v, n);
    DotLast(s, v, n);
    assert s[..n] == a && Times(-b, v[n]) == -(v[n] * b);
  }

  /** With a last entry of zero, the rest of the direction is in the kernel. */
  lemma ZeroEndSingular(K: Mat, b: Vec, v: Vec)
    requires IsSquare(K, |b|) && |v| == |b| + 1 && NonZero(v) && v[|b|] == 0.0
    requires forall i :: 0 <= i < |b| ==> Dot(K[i], v[..|b|], 0, |b|) == v[|b|] * b[i]
    ensures Singular(K)
  {
    var n := |b|;
    var w := v[..n];
    var k :| 0 <= k < |v| && v[k] != 0.0;
    assert w[k] != 0.0;
    hide Dot;
    forall i | 0 <= i < n ensures RowSolved(K, Zeros(n), 0.0, w, i) { assert Dot(K[i], w, 0, n) == v[n] * b[i]; }
    assert InKernel(K, w) && NonZero(w);
  }

  /** So the last entry is not zero. */
  lemma LastNotZero(K: Mat, b: Vec, v: Vec)
    requires IsSquare(K, |b|) && |v| == |b| + 1 && NonZero(v) && !Singular(K)
    requires forall i :: 0 <= i < |b| ==> Dot(K[i], v[..|b|], 0, |b|) == v[|b|] * b[i]
    ensures v[|b|] != 0.0
  {
    hide Dot, NonZero, Singular;
    if v[|b|] == 0.0 { ZeroEndSingular(K, b, v); }
  }

  /** A nonsingular system has a solution: its n rows, extended by their right-hand sides, leave a direction in n + 1
      dimensions. */
  lemma Solvable(K: Mat, b: Vec) returns (x: Vec)
    requires IsSquare(K, |b|) && !Singular(K)
    ensures Solves(K, b, x)
  {
    var n := |b|;
    var S := seq(n, i requires 0 <= i < n => K[i] + [-b[i]]);
    var v := FreeDirection(S, n + 1);
    var w := v[..n];
    forall i | 0 <= i < n ensures Dot(K[i], w, 0, n) == v[n] * b[i] {
      assert S[i] == K[i] + [-b[i]];
      ExtendedRow(K[i], b[i], v, n);
    }
    LastNotZero(K, b, v);
    hide Dot, Times, NonZero, Singular;
    x := SolutionFrom(K, b, w, v[n]);
  }

  /** A solution scaled by t, scaled back. */
  lemma SolutionFrom(K: Mat, b: Vec, w: Vec, t: real) returns (x: Vec)
    requires IsSquare(K, |b|) && |w| == |b| && t != 0.0
    requires forall i :: 0 <= i < |b| ==> Dot(K[i], w, 0, |b|) == t * b[i]
    ensures Solves(K, b, x)
  {
    var n, k := |b|, 1.0 / t;
    x := seq(n, i requires 0 <= i < n => Times(k, w[i]));
    hide Dot, Times;
    forall i | 0 <= i < n ensures RowSolved(K, b, 1.0, x, i) {
      DotScaled(K[i], w, x, k, n);
      ScaledBack(Dot(K[i], w, 0, n), t, b[i]);
    }
  }

  lemma ScaledBack(p: real, t: real, b: real)
    requires t != 0.0 && p == t * b
    ensures 1.0 / t * p == 1.0 * b
  {
  }

  lemma {:induction false} DotScaled(a: Vec, w: Vec, x: Vec, k: real, n: nat)
    requires n <= |a| && n <= |w| && n <= |x| && forall i :: 0 <= i < n ==> x[i] == Times(k, w[i])
    ensures Dot(a, x, 0, n) == k * Dot(a, w, 0, n)
    decreases n
  {
    if n > 0 {
      DotScaled(a, w, x, k, n - 1);
      ScaleTerm(a[n - 1], w[n - 1], k, Dot(a, w, 0, n - 1));
    }
  }

  lemma ScaleTerm(a: real, w: real, k: real, p: real)
    ensures k * p + Times(a, Times(k, w)) == k * (p + Times(a, w))
  {
  }
}
