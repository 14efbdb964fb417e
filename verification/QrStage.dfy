/** The hardware solver stage: 16 matrix entries in, 4 weights out. */
module QrStages {
  import opened Floats
  import opened LinearAlgebra
  import opened Weights
  import opened QRDecompLinSolvers
  import opened CovUpdates
  import opened Streams

  const SIZE := 4

  type Weight = Float

  /** What the stage may emit for the matrix K. */
  ghost predicate WeightsFor(K: Mat, ws: seq<Weight>) {
    && |ws| == |K|
    && if Singular(K) then forall i :: 0 <= i < |ws| ==> ws[i] == NotANumber
       else exists raw :: Solves(K, Ones(|K|), raw) && ws == Nums(Project(raw))
  }

  /** No number, or a number in the unit interval. */
  ghost predicate InUnit(x: Weight) {
    x.NotANumber? || (x.Num? && 0.0 <= x.w <= 1.0)
  }

  /** There is something to emit for every matrix. */
  lemma SomeWeights(K: Mat) returns (ws: seq<Weight>)
    requires IsSquare(K, |K|)
    ensures WeightsFor(K, ws)
  {
    if Singular(K) {
      ws := seq(|K|, _ => NotANumber);
    } else {
      var raw := Solvable(K, Ones(|K|));
      ws := Nums(Project(raw));
    }
  }

  // ---------- the weights are determined by the matrix ----------

  lemma {:induction false} DotRight(a: Vec, x: Vec, y: Vec, z: Vec, n: nat)
    requires n <= |a| && n <= |x| && n <= |y| && n <= |z| && forall k :: 0 <= k < n ==> z[k] == x[k] - y[k]
    ensures Dot(a, z, 0, n) == Dot(a, x, 0, n) - Dot(a, y, 0, n)
    decreases n
  {
    hide Times;
    if n > 0 {
      DotRight(a, x, y, z, n - 1);
      TimesMinus(a[n - 1], x[n - 1], y[n - 1]);
    }
  }

  lemma TimesMinus(a: real, x: real, y: real)
    ensures Times(a, x - y) == Times(a, x) - Times(a, y)
  {
  }

  /** Two solutions of a nonsingular system are equal. */
  lemma SolutionUnique(K: Mat, b: Vec, x: Vec, y: Vec)
    requires IsSquare(K, |b|) && Solves(K, b, x) && Solves(K, b, y) && !Singular(K)
    ensures x == y
  {
    var n := |b|;
    var z := seq(n, k requires 0 <= k < n => x[k] - y[k]);
    forall i | 0 <= i < n ensures RowSolved(K, Zeros(n), 0.0, z, i) {
      DotRight(K[i], x, y, z, n);
      assert RowSolved(K, b, 1.0, x, i) && RowSolved(K, b, 1.0, y, i);
    }
    assert InKernel(K, z);
    forall k | 0 <= k < n ensures x[k] == y[k] {
      assert z[k] == 0.0;
    }
  }

  /** Hence the emitted words do not depend on how the square root is computed. */
  lemma WeightsUnique(K: Mat, ws: seq<Weight>, vs: seq<Weight>)
    requires IsSquare(K, |K|) && WeightsFor(K, ws) && WeightsFor(K, vs)
    ensures ws == vs
  {
    if !Singular(K) {
      var x :| Solves(K, Ones(|K|), x) && ws == Nums(Project(x));
      var y :| Solves(K, Ones(|K|), y) && vs == Nums(Project(y));
      SolutionUnique(K, Ones(|K|), x, y);
    }
  }

  /** The software solver's weights for K are the hardware's. */
  lemma SolversAgree(K: Mat, raw: Vec, ws: seq<Weight>)
    requires IsSquare(K, |K|) && !Singular(K) && Solves(K, Ones(|K|), raw) && WeightsFor(K, ws)
    ensures ws == Nums(Project(raw))
  {
    WeightsUnique(K, ws, Nums(Project(raw)));
  }

  /** No emitted word is infinite or a number outside the unit interval. */
  lemma WeightsInUnit(K: Mat, ws: seq<Weight>)
    requires |K| > 0 && IsSquare(K, |K|) && WeightsFor(K, ws)
    ensures forall i :: 0 <= i < |ws| ==> InUnit(ws[i])
  {
    if !Singular(K) {
      var x :| Solves(K, Ones(|K|), x) && ws == Nums(Project(x));
      SolutionWeights(K, x, |K|);
    }
  }

  // ---------- words and matrices ----------

  /** The matrix whose rows lie one after the other in the words. */
  ghost function Unflat(words: Vec, n: nat): (K: Mat)
    requires |words| == n * n
    ensures IsSquare(K, n)
  {
    seq(n, i requires 0 <= i < n => seq(n, j requires 0 <= j < n => Cell(words, n, i, j)))
  }

  ghost function Cell(words: Vec, n: nat, i: nat, j: nat): real
    requires |words| == n * n && i < n && j < n
  {
    CellBound(n, i, j);
    words[n * i + j]
  }

  lemma CellBound(n: nat, i: nat, j: nat)
    requires i < n && j < n
    ensures 0 <= n * i + j < n * n
  {
    assert n * i + n <= n * n by { assert n * (i + 1) <= n * n; }
  }

  lemma {:induction false} FlatLength(C: Mat, n: nat, k: nat)
    requires IsSquare(C, n) && k <= n
    ensures |Flat(C, k)| == n * k
    decreases k
  {
    if k > 0 { FlatLength(C, n, k - 1); }
  }

  lemma {:induction false} FlatAt(C: Mat, n: nat, k: nat, i: nat, j: nat)
    requires IsSquare(C, n) && i < k <= n && j < n
    ensures |Flat(C, k)| == n * k && 0 <= n * i + j < n * k && Flat(C, k)[n * i + j] == C[i][j]
    decreases k
  {
    FlatLength(C, n, k);
    FlatLength(C, n, k - 1);
    if i < k - 1 { FlatAt(C, n, k - 1, i, j); }
  }

  /** Reading a written matrix back gives the matrix. */
  lemma UnflatFlat(C: Mat, n: nat)
    requires IsSquare(C, n)
    ensures |Flat(C, n)| == n * n && Unflat(Flat(C, n), n) == C
  {
    FlatLength(C, n, n);
    forall i, j | 0 <= i < n && 0 <= j < n
      ensures Unflat(Flat(C, n), n)[i][j] == C[i][j]
    {
      FlatAt(C, n, n, i, j);
    }
    forall i | 0 <= i < n ensures Unflat(Flat(C, n), n)[i] == C[i] {}
  }

  // ---------- the stage ----------

  /** A square root that is nonzero for every nonzero argument; nothing else is asked of it. */
  ghost predicate IsRoot(root: real -> real) {
    root(0.0) == 0.0 && forall v :: v > 0.0 ==> root(v) != 0.0
  }

  /** The part of row i that is already computed; an element that is no number makes it no number. */
  method PartialSumFloat(A: array2<real>, x: array<Float>, i: nat, ghost y: Vec) returns (sum: Float)
    requires A.Length0 == A.Length1 == x.Length == |y| && i < x.Length
    ensures (forall k :: i < k < x.Length ==> x[k] == Num(y[k])) ==> sum == Num(Dot(Rows(A)[i], y, i + 1, |y|))
    ensures i + 1 < x.Length && !x[i + 1].Num? ==> !sum.Num?
  {
    hide Times;
    sum := Num(0.0);
    for j := i + 1 to x.Length
      invariant (forall k :: i < k < j ==> x[k] == Num(y[k])) ==> sum == Num(Dot(Rows(A)[i], y, i + 1, j))
      invariant j > i + 1 && !x[i + 1].Num? ==> !sum.Num?
    {
      sum := Add(sum, Mul(Num(A[i, j]), x[j]));
    }
  }

  /** The sum of some words. */
  method SumFloat(x: seq<Float>, ghost y: Vec) returns (sum: Float)
    requires |x| == |y|
    ensures x == Nums(y) ==> sum == Num(Sum(y, |y|))
    ensures x != [] && !x[0].Num? ==> !sum.Num?
    ensures x != [] && x[0].NotANumber? ==> sum.NotANumber?
  {
    sum := Num(0.0);
    for i := 0 to |x|
      invariant x == Nums(y) ==> sum == Num(Sum(y, i))
      invariant i > 0 && !x[0].Num? ==> !sum.Num?
      invariant i > 0 && x[0].NotANumber? ==> sum.NotANumber?
    {
      sum := Add(sum, x[i]);
    }
  }

  /** Every word divided by s, unless s is zero. */
  method DivideAll(x: seq<Float>, s: Float) returns (z: seq<Float>)
    ensures |z| == |x|
    ensures forall i :: 0 <= i < |x| ==> z[i] == if s == Num(0.0) then x[i] else Div(x[i], s)
  {
    z := x;
    if s != Num(0.0) {
      for i := 0 to |x|
        invariant |z| == |x|
        invariant forall k :: 0 <= k < |x| ==> z[k] == if k < i then Div(x[k], s) else x[k]
      {
        z := z[i := Div(z[i], s)];
      }
    }
  }

  /** Negative words become zero. */
  method ClampAll(x: seq<Float>) returns (z: seq<Float>)
    ensures |z| == |x|
    ensures forall i :: 0 <= i < |x| && x[i].Num? ==> z[i] == if x[i].w >= 0.0 then x[i] else Num(0.0)
    ensures forall i :: 0 <= i < |x| && x[i].NotANumber? ==> z[i].NotANumber?
  {
    z := [];
    for i := 0 to |x|
      invariant |z| == i
      invariant forall k :: 0 <= k < i && x[k].Num? ==> z[k] == if x[k].w >= 0.0 then x[k] else Num(0.0)
      invariant forall k :: 0 <= k < i && x[k].NotANumber? ==> z[k].NotANumber?
    {
      var negative := IsNegative(x[i]);
      z := z + [if negative then Num(0.0) else x[i]];
    }
  }

  /** Scale, clamp, scale: a solution becomes its weights, and a first word that is not a number spoils all of them. */
  method ToWeightWords(x: seq<Float>, ghost y: Vec) returns (w: seq<Float>)
    requires |x| == |y| && x != []
    ensures |w| == |x|
    ensures x == Nums(y) ==> w == Nums(Project(y))
    ensures !x[0].Num? ==> forall i :: 0 <= i < |w| ==> w[i] == NotANumber
  {
    hide Sum;
    ghost var n := |y|;
    var sumX := SumFloat(x, y);
    w := DivideAll(x, sumX);
    ghost var y1 := Scaled(y, Sum(y, n));
    assert x == Nums(y) ==> w == Nums(y1);
    assert !x[0].Num? ==> w[0].NotANumber?;
    w := ClampAll(w);
    ghost var y2 := Clamped(y1);
    assert x == Nums(y) ==> w == Nums(y2);
    var sumPos := SumFloat(w, y2);
    w := DivideAll(w, sumPos);
  }

  class QrDecompLinSolvAxis {
    const root: real -> real

    constructor (root: real -> real)
      requires IsRoot(root)
      ensures this.root == root
    {
      this.root := root;
    }

    /** Givens elimination with the hardware's square root. */
    method GivensQr(A: array2<real>, b: array<real>)
      requires IsRoot(root) && A.Length0 == A.Length1 == b.Length == SIZE
      modifies A, b
      ensures Upper(Rows(A))
      ensures Equivalent(old(Rows(A)), old(b[..]), Rows(A), b[..])
    {
      hide SumSquares;
      for i := 0 to SIZE
        invariant ZeroBelow(Rows(A), SIZE, i)
        invariant Equivalent(old(Rows(A)), old(b[..]), Rows(A), b[..])
      {
        for j := i + 1 to SIZE
          invariant ZeroBelow(Rows(A), SIZE, i) && ColumnZero(Rows(A), SIZE, i, j)
          invariant Equivalent(old(Rows(A)), old(b[..]), Rows(A), b[..])
        {
          SquaresVanish(A[i, i], A[j, i]);
          Eliminate(A, b, i, j, root(SumSquares(A[i, i], A[j, i])));
        }
      }
    }

    /** Back substitution without a test for zero pivots: from the first one met, every word is not a number. */
    method BackSubstitution(A: array2<real>, b: array<real>) returns (x: array<Float>, ghost y: Vec)
      requires A.Length0 == A.Length1 == b.Length == SIZE && Upper(Rows(A))
      ensures fresh(x) && x.Length == SIZE == |y|
      ensures (forall k :: 0 <= k < SIZE ==> A[k, k] != 0.0) ==> x[..] == Nums(y) && Solves(Rows(A), b[..], y)
      ensures (exists k :: 0 <= k < SIZE && A[k, k] == 0.0) ==> !x[0].Num?
    {
      hide Dot, Times, RowTail;
      x := new Float[SIZE](_ => Num(0.0));
      y := Zeros(SIZE);
      ghost var M := Rows(A);
      ghost var ok := true;
      var i := SIZE;
      while i > 0
        invariant 0 <= i <= SIZE && x.Length == SIZE == |y|
        invariant ok <==> forall k :: i <= k < SIZE ==> A[k, k] != 0.0
        invariant ok ==> forall k :: i <= k < SIZE ==> x[k] == Num(y[k]) && RowTail(M, y, k) == b[k]
        invariant !ok ==> i < SIZE && !x[i].Num?
      {
        i := i - 1;
        var sum := PartialSumFloat(A, x, i, y);
        var rest := Add(Num(b[i]), Negate(sum));
        x[i] := Div(rest, Num(A[i, i]));
        if ok && A[i, i] != 0.0 {
          ghost var z := y;
          y := y[i := x[i].w];
          SolveTail(M, z, y, i, b[i]);
          TailsKept(M, z, y, i);
        }
        ok := ok && A[i, i] != 0.0;
      }
      if ok { TailsSolve(M, b[..], y); }
    }

    /** One firing. */
    method Fire(ins: Stream<real>, outs: Stream<Weight>)
      requires IsRoot(root) && |ins.items| >= SIZE * SIZE
      modifies ins, outs
      ensures ins.items == old(ins.items)[SIZE * SIZE..]
      ensures exists ws ::
                WeightsFor(Unflat(old(ins.items)[..SIZE * SIZE], SIZE), ws) && outs.items == old(outs.items) + ws
    {
      var words := ReadMany(ins, SIZE * SIZE);
      ghost var K := Unflat(words, SIZE);
      var A := new real[SIZE, SIZE]((i, j) requires 0 <= i < SIZE && 0 <= j < SIZE => words[SIZE * i + j]);
      var b := new real[SIZE](_ => 1.0);
      assert forall i :: 0 <= i < SIZE ==> Rows(A)[i] == K[i];
      assert Rows(A) == K && b[..] == Ones(SIZE);
      GivensQr(A, b);
      var ws := Weigh(A, b, K);
      WriteAll(outs, ws);
    }

    /** Back substitution and projection of an eliminated system. */
    method Weigh(A: array2<real>, b: array<real>, ghost K: Mat) returns (ws: seq<Weight>)
      requires A.Length0 == A.Length1 == b.Length == SIZE && IsSquare(K, SIZE) && Upper(Rows(A))
      requires Equivalent(K, Ones(SIZE), Rows(A), b[..])
      ensures WeightsFor(K, ws)
    {
      EquivalentKernels(K, Ones(SIZE), Rows(A), b[..]);
      UpperSingular(Rows(A));
      assert Singular(K) <==> Singular(Rows(A));
      var x, y := BackSubstitution(A, b);
      ws := ToWeightWords(x[..], y);
      if !Singular(K) { assert Solves(K, Ones(SIZE), y); }
    }
  }
}
