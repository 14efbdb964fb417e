/** The minimum-variance solver: Givens rotations, back substitution, and the projection to weights. */
module QRDecompLinSolvers {
  import opened LinearAlgebra
  import opened Weights

  // ---------- Newton's square root ----------

  /** Raised: a negative argument; otherwise the last iterate and whether the division never failed. */
  datatype SqrtResult = Raised | Root(x: real, ok: bool)

  function Pow4(n: nat): (p: real)
    ensures p >= 1.0
  {
    if n == 0 then 1.0 else 4.0 * Pow4(n - 1)
  }

  /** How far x is above the root of v, in squares. */
  function Excess(x: real, v: real): real {
    x * x - v
  }

  /** The excess of the first iterate. */
  function FirstExcess(v: real): real {
    ((v - 1.0) / 2.0) * ((v - 1.0) / 2.0)
  }

  /** One Newton step from x > 0 ends at or above the root, and quarters the excess of an x already there. */
  lemma NewtonStep(x: real, v: real)
    requires x > 0.0 && v > 0.0
    ensures var y := 0.5 * (x + v / x);
            && y > 0.0 && Excess(y, v) >= 0.0
            && (x == v ==> Excess(y, v) == FirstExcess(v))
            && (Excess(x, v) >= 0.0 ==> 4.0 * Excess(y, v) <= Excess(x, v))
  {
    var q := v / x;
    assert q * x == v;
    NewtonCore(x, q, v);
  }

  lemma NewtonCore(x: real, q: real, v: real)
    requires x > 0.0 && v > 0.0 && q * x == v
    ensures var y := 0.5 * (x + q);
            && y > 0.0 && Excess(y, v) >= 0.0
            && (x == v ==> Excess(y, v) == FirstExcess(v))
            && (Excess(x, v) >= 0.0 ==> 4.0 * Excess(y, v) <= Excess(x, v))
  {
    SignProduct(q, x);
    NewtonSquare(x, q, v);
    if x == v { UnitFactor(q, x, v); }
    if Excess(x, v) >= 0.0 { Shrink(x, q, v); }
    hide Excess;
  }

  lemma SignProduct(d: real, x: real)
    requires x > 0.0
    ensures d * x > 0.0 <==> d > 0.0
  {
  }

  lemma UnitFactor(q: real, x: real, v: real)
    requires x > 0.0 && q * x == v && x == v
    ensures q == 1.0
  {
    SignProduct(q - 1.0, x);
    SignProduct(1.0 - q, x);
  }

  lemma FactorAtMost(q: real, x: real)
    requires x > 0.0 && q * x <= x * x
    ensures q <= x
  {
    SignProduct(q - x, x);
    assert (q - x) * x == q * x - x * x;
  }

  lemma NewtonSquare(x: real, q: real, v: real)
    requires q * x == v
    ensures 4.0 * Excess(0.5 * (x + q), v) == (x - q) * (x - q)
    ensures (x - q) * (x - q) >= 0.0
  {
    var y := 0.5 * (x + q);
    assert 4.0 * (y * y - q * x) == (x - q) * (x - q);
    assert Square(x - q) == (x - q) * (x - q);
  }

  lemma Shrink(x: real, q: real, v: real)
    requires x > 0.0 && q > 0.0 && q * x == v && Excess(x, v) >= 0.0
    ensures (x - q) * (x - q) <= Excess(x, v)
  {
    FactorAtMost(q, x);
    ProductSign(x - q, q);
    assert (x - q) * (x - q) == (x * x - q * x) - (x - q) * q;
  }

  lemma ProductSign(a: real, b: real)
    requires a >= 0.0 && b >= 0.0
    ensures a * b >= 0.0
  {
  }

  /** What k iterations guarantee: the excess has been quartered k - 1 times. */
  ghost predicate Residual(x: real, v: real, k: nat) {
    k >= 1 ==> Excess(x, v) >= 0.0 && Excess(x, v) * Pow4(k - 1) <= FirstExcess(v)
  }

  lemma Quarter(e1: real, e0: real, p: real)
    requires 4.0 * e1 <= e0 && p >= 1.0
    ensures e1 * (4.0 * p) <= e0 * p
  {
    assert (e0 - 4.0 * e1) * p >= 0.0;
  }

  lemma ResidualStep(x: real, v: real, k: nat)
    requires x > 0.0 && v > 0.0 && Residual(x, v, k) && (k == 0 ==> x == v)
    ensures Residual(0.5 * (x + v / x), v, k + 1)
  {
    hide Excess, FirstExcess;
    NewtonStep(x, v);
    if k >= 1 { Quarter(Excess(0.5 * (x + v / x), v), Excess(x, v), Pow4(k - 1)); }
  }

  method MySqrt(value: real, iterations: nat := 20) returns (r: SqrtResult)
    ensures value < 0.0 <==> r.Raised?
    ensures value == 0.0 ==> r == Root(0.0, true)
    ensures value > 0.0 ==> r.Root? && r.ok && r.x > 0.0 && Residual(r.x, value, iterations)
  {
    if value < 0.0 { return Raised; }
    if value == 0.0 { return Root(0.0, true); }
    var x := value;
    for k := 0 to iterations
      invariant x > 0.0 && Residual(x, value, k) && (k == 0 ==> x == value)
    {
      if x == 0.0 { assert false; }
      NewtonStep(x, value);
      ResidualStep(x, value, k);
      x := 0.5 * (x + value / x);
    }
    return Root(x, true);
  }

  // ---------- the in-place solver ----------

  ghost function Rows(A: array2<real>): (M: Mat)
    reads A
    ensures |M| == A.Length0 && forall i :: 0 <= i < |M| ==> |M[i]| == A.Length1
    ensures forall i, k :: 0 <= i < A.Length0 && 0 <= k < A.Length1 ==> M[i][k] == A[i, k]
  {
    seq(A.Length0, i requires 0 <= i < A.Length0 reads A =>
      seq(A.Length1, k requires 0 <= k < A.Length1 reads A => A[i, k]))
  }

  /** The first i columns are zero below the diagonal. */
  ghost predicate ZeroBelow(M: Mat, n: nat, i: nat)
    requires IsSquare(M, n) && i <= n
  {
    forall r, c :: 0 <= c < i && c < r < n ==> M[r][c] == 0.0
  }

  lemma MixZero(c: real, s: real)
    ensures Mix(c, 0.0, s, 0.0) == 0.0
  {
  }

  /** Rotate rows i and j of A and b, touching only columns from i on. */
  method Rotate(A: array2<real>, b: array<real>, i: nat, j: nat, c: real, s: real)
    requires A.Length0 == A.Length1 == b.Length && i < j < b.Length
    requires ZeroBelow(Rows(A), b.Length, i)
    modifies A, b
    ensures Rotated(old(Rows(A)), old(b[..]), Rows(A), b[..], i, j, c, s)
  {
    hide Mix;
    var n := b.Length;
    ghost var M := Rows(A);
    var k := i;
    while k < n
      invariant i <= k <= n
      invariant forall r, l :: 0 <= r < n && 0 <= l < n && ((r != i && r != j) || l < i || l >= k) ==>
          A[r, l] == M[r][l]
      invariant forall l :: i <= l < k ==> A[i, l] == Mix(c, M[i][l], s, M[j][l])
      invariant forall l :: i <= l < k ==> A[j, l] == Mix(-s, M[i][l], c, M[j][l])
      invariant b[..] == old(b[..])
    {
      var temp := Mix(c, A[i, k], s, A[j, k]);
      A[j, k] := Mix(-s, A[i, k], c, A[j, k]);
      A[i, k] := temp;
      k := k + 1;
    }
    var tempB := Mix(c, b[i], s, b[j]);
    b[j] := Mix(-s, b[i], c, b[j]);
    b[i] := tempB;
    forall l | 0 <= l < n
      ensures A[i, l] == Mix(c, M[i][l], s, M[j][l]) && A[j, l] == Mix(-s, M[i][l], c, M[j][l])
    {
      if l < i {
        assert M[i][l] == 0.0 && M[j][l] == 0.0;
        MixZero(c, s);
        MixZero(-s, c);
      }
    }
    forall r | 0 <= r < n && r != i && r != j
      ensures Rows(A)[r] == M[r]
    {
    }
  }

  /** The rotation by (u, v) / r zeroes the second of the two entries, for any nonzero r. */
  lemma RotationZeroes(u: real, v: real, r: real)
    requires r != 0.0
    ensures Mix(-(v / r), u, u / r, v) == 0.0
  {
    var c, s := u / r, v / r;
    assert c * r == u && s * r == v;
    assert -s * u + c * v == -s * (c * r) + c * (s * r);
  }

  /** It is a proper rotation of the rows as long as the two entries do not both vanish. */
  lemma RotationProper(u: real, v: real, r: real)
    requires r != 0.0 && (u != 0.0 || v != 0.0)
    ensures SumSquares(u / r, v / r) != 0.0
  {
    hide SumSquares;
    var c, s := u / r, v / r;
    assert c * r == u && s * r == v;
    SquaresVanish(c, s);
  }

  lemma SquaresVanish(u: real, v: real)
    ensures SumSquares(u, v) >= 0.0
    ensures SumSquares(u, v) == 0.0 <==> u == 0.0 && v == 0.0
  {
    hide Square;
  }

  /** A rotation of rows i < j in column order keeps the zeros below the diagonal of the columns before i. */
  lemma RotationKeepsZeros(A: Mat, b: Vec, C: Mat, d: Vec, i: nat, j: nat, c: real, s: real)
    requires Rotated(A, b, C, d, i, j, c, s) && ZeroBelow(A, |b|, i)
    ensures ZeroBelow(C, |b|, i)
  {
    forall r, l | 0 <= l < i && l < r < |b| ensures C[r][l] == 0.0 {
      assert A[i][l] == 0.0 && A[j][l] == 0.0;
    }
  }

  /** How far the elimination of column i has come: rows before j are done. */
  ghost predicate ColumnZero(M: Mat, n: nat, i: nat, j: nat)
    requires IsSquare(M, n) && i < n && j <= n
  {
    forall r :: i < r < j ==> M[r][i] == 0.0
  }

  /** One visit of the elimination: entry (j, i) becomes zero, nothing is lost. r is the root the caller found. */
  method Eliminate(A: array2<real>, b: array<real>, i: nat, j: nat, r: real)
    requires A.Length0 == A.Length1 == b.Length && i < j < b.Length
    requires ZeroBelow(Rows(A), b.Length, i) && ColumnZero(Rows(A), b.Length, i, j)
    requires r == 0.0 <==> SumSquares(A[i, i], A[j, i]) == 0.0
    modifies A, b
    ensures Equivalent(old(Rows(A)), old(b[..]), Rows(A), b[..])
    ensures ZeroBelow(Rows(A), b.Length, i) && ColumnZero(Rows(A), b.Length, i, j + 1)
  {
    hide SumSquares, Mix;
    var u, v := A[i, i], A[j, i];
    SquaresVanish(u, v);
    if r == 0.0 { return; }
    RotationZeroes(u, v, r);
    RotationProper(u, v, r);
    ghost var M, c := Rows(A), b[..];
    Rotate(A, b, i, j, u / r, v / r);
    RotationEquivalent(M, c, Rows(A), b[..], i, j, u / r, v / r);
    RotationKeepsZeros(M, c, Rows(A), b[..], i, j, u / r, v / r);
    assert Rows(A)[j][i] == Mix(-(v / r), u, u / r, v);
  }

  class QRDecompLinSolver {
    const n: nat

    constructor (n: nat := 4)
      ensures this.n == n
    {
      this.n := n;
    }

    /** Make A upper triangular without changing the solutions of A x = b, nor the kernel of A. */
    method GivensQr(A: array2<real>, b: array<real>)
      requires A.Length0 == A.Length1 == b.Length == n
      modifies A, b
      ensures Upper(Rows(A))
      ensures Equivalent(old(Rows(A)), old(b[..]), Rows(A), b[..])
    {
      hide SumSquares;
      for i := 0 to n
        invariant ZeroBelow(Rows(A), n, i)
        invariant Equivalent(old(Rows(A)), old(b[..]), Rows(A), b[..])
      {
        for j := i + 1 to n
          invariant ZeroBelow(Rows(A), n, i) && ColumnZero(Rows(A), n, i, j)
          invariant Equivalent(old(Rows(A)), old(b[..]), Rows(A), b[..])
        {
          SquaresVanish(A[i, i], A[j, i]);
          var root := MySqrt(SumSquares(A[i, i], A[j, i]));
          if !root.ok { assert false; }
          Eliminate(A, b, i, j, root.x);
        }
      }
    }

    /** Solve a triangular system upwards; it stops early exactly when a pivot is zero. */
    method BackSubstitution(A: array2<real>, b: array<real>) returns (x: array<real>, ok: bool)
      requires A.Length0 == A.Length1 == b.Length == n && Upper(Rows(A))
      ensures fresh(x) && x.Length == n
      ensures ok <==> forall k :: 0 <= k < n ==> A[k, k] != 0.0
      ensures ok ==> Solves(Rows(A), b[..], x[..])
    {
      hide Dot, Times, RowTail;
      x := new real[n](_ => 0.0);
      ghost var M := Rows(A);
      var i := n;
      while i > 0
        invariant 0 <= i <= n && x.Length == n
        invariant forall k :: i <= k < n ==> A[k, k] != 0.0
        invariant forall k :: i <= k < n ==> RowTail(M, x[..], k) == b[k]
      {
        i := i - 1;
        var sum := PartialSum(A, x, i);
        if A[i, i] == 0.0 { return x, false; }
        ghost var y := x[..];
        x[i] := (b[i] - sum) / A[i, i];
        SolveTail(M, y, x[..], i, b[i]);
        TailsKept(M, y, x[..], i);
      }
      ok := true;
      TailsSolve(M, b[..], x[..]);
    }

    /** The weights for a covariance matrix K, or failure exactly when K is singular. */
    method Solve(K: Mat) returns (w: Vec, ok: bool, ghost raw: Vec)
      requires IsSquare(K, n)
      ensures ok <==> !Singular(K)
      ensures ok ==> Solves(K, Ones(n), raw) && w == Project(raw)
      ensures |w| == n
    {
      var A := new real[n, n]((i, j) requires 0 <= i < n && 0 <= j < n => K[i][j]);
      var b := new real[n](_ => 1.0);
      assert forall i :: 0 <= i < n ==> Rows(A)[i] == K[i];
      assert Rows(A) == K && b[..] == Ones(n);
      GivensQr(A, b);
      EquivalentKernels(K, Ones(n), Rows(A), b[..]);
      UpperSingular(Rows(A));
      assert Singular(K) <==> Singular(Rows(A));
      var x;
      x, ok := BackSubstitution(A, b);
      raw := x[..];
      if !ok { return x[..], false, raw; }
      w := ToWeights(x[..]);
    }

    /** Scale to sum one, clamp at zero, scale again; a zero sum skips its scaling. */
    method ToWeights(x: Vec) returns (w: Vec)
      requires |x| == n
      ensures w == Project(x)
    {
      var sumX := SumOf(x);
      w := x;
      if sumX != 0.0 { w := seq(n, i requires 0 <= i < n && i < |w| => w[i] / sumX); }
      assert w == Scaled(x, sumX);
      w := seq(n, i requires 0 <= i < n && i < |w| => if w[i] >= 0.0 then w[i] else 0.0);
      assert w == Clamped(Scaled(x, sumX));
      var sumPos := SumOf(w);
      if sumPos != 0.0 { w := seq(n, i requires 0 <= i < n && i < |w| => w[i] / sumPos); }
    }
  }

  /** The part of row i that is already solved. */
  method PartialSum(A: array2<real>, x: array<real>, i: nat) returns (sum: real)
    requires A.Length0 == A.Length1 == x.Length && i < x.Length
    ensures sum == Dot(Rows(A)[i], x[..], i + 1, x.Length)
  {
    hide Times;
    sum := 0.0;
    for j := i + 1 to x.Length
      invariant sum == Dot(Rows(A)[i], x[..], i + 1, j)
    {
      sum := sum + Times(A[i, j], x[j]);
    }
  }

  /** Row k from its diagonal on, times x. */
  ghost function RowTail(M: Mat, x: Vec, k: nat): real
    requires IsSquare(M, |x|) && k < |x|
  {
    Dot(M[k], x, k, |x|)
  }

  /** Writing x[i] leaves the rows below alone. */
  lemma TailsKept(M: Mat, y: Vec, x: Vec, i: nat)
    requires |x| == |y| && IsSquare(M, |x|) && i < |x| && forall k :: i < k < |x| ==> x[k] == y[k]
    ensures forall k :: i < k < |x| ==> RowTail(M, x, k) == RowTail(M, y, k)
  {
    hide Dot;
    forall k | i < k < |x| ensures RowTail(M, x, k) == RowTail(M, y, k) {
      DotAgree(M[k], y, M[k], x, k, |x|);
    }
  }

  /** In a triangular matrix the tails are the whole rows. */
  lemma TailsSolve(M: Mat, b: Vec, x: Vec)
    requires |x| == |b| && IsSquare(M, |b|) && Upper(M) && forall k :: 0 <= k < |b| ==> RowTail(M, x, k) == b[k]
    ensures Solves(M, b, x)
  {
    hide Dot;
    forall k | 0 <= k < |b| ensures RowSolved(M, b, 1.0, x, k) {
      DotSplit(M[k], x, 0, k, |b|);
      DotZero(M[k], x, 0, k);
    }
  }

  method SumOf(x: Vec) returns (sum: real)
    ensures sum == Sum(x, |x|)
  {
    sum := 0.0;
    for i := 0 to |x|
      invariant sum == Sum(x, i)
    {
      sum := sum + x[i];
    }
  }

  lemma SolveTail(M: Mat, y: Vec, x: Vec, i: nat, rhs: real)
    requires |x| == |y| && IsSquare(M, |x|) && i < |x| && M[i][i] != 0.0 && forall k :: i < k < |x| ==> x[k] == y[k]
    requires x[i] == (rhs - Dot(M[i], y, i + 1, |x|)) / M[i][i]
    ensures RowTail(M, x, i) == rhs
  {
    hide Dot;
    SolveRow(M[i], y, x, i, rhs);
  }

  /** The division of back substitution solves its row and leaves the tail of x alone. */
  lemma SolveRow(a: Vec, y: Vec, x: Vec, i: nat, rhs: real)
    requires |a| == |y| == |x| && i < |a| && a[i] != 0.0
    requires forall k :: i < k < |a| ==> x[k] == y[k]
    requires x[i] == (rhs - Dot(a, y, i + 1, |a|)) / a[i]
    ensures Dot(a, x, i, |a|) == rhs
  {
    DotSplit(a, x, i, i + 1, |a|);
    DotAgree(a, x, a, y, i + 1, |a|);
    assert Dot(a, x, i, i + 1) == Dot(a, x, i, i) + Times(a[i], x[i]);
    assert a[i] * x[i] == rhs - Dot(a, y, i + 1, |a|);
  }

  /** A solution of K x = (1, ..., 1) is not the zero vector, so its weights sum to one. */
  lemma SolutionWeights(K: Mat, raw: Vec, n: nat)
    requires n > 0 && IsSquare(K, n) && Solves(K, Ones(n), raw)
    ensures Sum(Project(raw), n) == 1.0
    ensures forall i :: 0 <= i < n ==> 0.0 <= Project(raw)[i] <= 1.0
  {
    assert RowSolved(K, Ones(n), 1.0, raw, 0);
    if !NonZero(raw) { DotZero(K[0], raw, 0, n); }
    ProjectSums(raw);
    forall i | 0 <= i < n ensures 0.0 <= Project(raw)[i] <= 1.0 { ProjectInUnit(raw, i); }
  }
}
