/** The last steps of the solver: scale to sum one, clamp at zero, scale again. */
module Weights {
  import opened LinearAlgebra

  ghost function Sum(x: Vec, n: nat): real
    requires n <= |x|
  {
    if n == 0 then 0.0 else Sum(x, n - 1) + x[n - 1]
  }

  /** Every element divided by s, or x itself when s is zero. */
  ghost function Scaled(x: Vec, s: real): (y: Vec)
    ensures |y| == |x|
  {
    if s == 0.0 then x else seq(|x|, i requires 0 <= i < |x| => x[i] / s)
  }

  ghost function Clamped(x: Vec): (y: Vec)
    ensures |y| == |x|
  {
    seq(|x|, i requires 0 <= i < |x| => if x[i] >= 0.0 then x[i] else 0.0)
  }

  /** The weights that a raw solution is turned into. */
  ghost function Project(x: Vec): (w: Vec)
    ensures |w| == |x|
  {
    var y := Clamped(Scaled(x, Sum(x, |x|)));
    Scaled(y, Sum(y, |y|))
  }

  lemma {:induction false} SumScaled(x: Vec, s: real, n: nat)
    requires s != 0.0 && n <= |x|
    ensures Sum(Scaled(x, s), n) == Sum(x, n) / s
    decreases n
  {
    if n > 0 { SumScaled(x, s, n - 1); }
  }

  lemma {:induction false} SumClamped(x: Vec, n: nat)
    requires n <= |x|
    ensures Sum(Clamped(x), n) >= Sum(x, n) && Sum(Clamped(x), n) >= 0.0
    ensures Sum(Clamped(x), n) == 0.0 ==> forall i :: 0 <= i < n ==> x[i] <= 0.0
    decreases n
  {
    if n > 0 { SumClamped(x, n - 1); }
  }

  lemma {:induction false} SumNonPositive(x: Vec, n: nat)
    requires n <= |x| && forall i :: 0 <= i < n ==> x[i] <= 0.0
    ensures Sum(x, n) <= 0.0
    ensures Sum(x, n) == 0.0 ==> forall i :: 0 <= i < n ==> x[i] == 0.0
    decreases n
  {
    if n > 0 { SumNonPositive(x, n - 1); }
  }

  lemma {:induction false} SumZero(x: Vec, n: nat)
    requires n <= |x| && forall i :: 0 <= i < n ==> x[i] == 0.0
    ensures Sum(x, n) == 0.0
    decreases n
  {
    if n > 0 { SumZero(x, n - 1); }
  }

  /** After the first scaling and the clamp something positive is left, unless the raw vector is zero. */
  lemma ClampedPositive(x: Vec)
    requires NonZero(x)
    ensures var y := Clamped(Scaled(x, Sum(x, |x|))); Sum(y, |y|) > 0.0
  {
    var n, s := |x|, Sum(x, |x|);
    var y := Scaled(x, s);
    SumClamped(y, n);
    if s != 0.0 {
      SumScaled(x, s, n);
    } else if Sum(Clamped(y), n) == 0.0 {
      SumNonPositive(x, n);
      assert false;
    }
  }

  lemma SelfQuotient(t: real)
    requires t != 0.0
    ensures t / t == 1.0
  {
  }

  lemma QuotientNonNegative(a: real, s: real)
    requires a >= 0.0 && s > 0.0
    ensures a / s >= 0.0
  {
    var q := a / s;
    assert q * s == a;
    if q < 0.0 { NegativeProduct(q, s); }
  }

  lemma NegativeProduct(q: real, s: real)
    requires q < 0.0 && s > 0.0
    ensures q * s < 0.0
  {
  }

  lemma ScaledNonNegative(y: Vec, s: real)
    requires s >= 0.0 && forall i :: 0 <= i < |y| ==> y[i] >= 0.0
    ensures forall i :: 0 <= i < |y| ==> Scaled(y, s)[i] >= 0.0
  {
    if s > 0.0 {
      forall i | 0 <= i < |y| ensures y[i] / s >= 0.0 { QuotientNonNegative(y[i], s); }
    }
  }

  /** Weights are never negative, and sum to exactly one unless the raw vector is zero. */
  lemma ProjectSums(x: Vec)
    ensures forall i :: 0 <= i < |x| ==> Project(x)[i] >= 0.0
    ensures NonZero(x) <==> Sum(Project(x), |x|) == 1.0
    ensures !NonZero(x) ==> Sum(Project(x), |x|) == 0.0
  {
    var y := Clamped(Scaled(x, Sum(x, |x|)));
    assert forall i :: 0 <= i < |y| ==> y[i] >= 0.0;
    SumClamped(Scaled(x, Sum(x, |x|)), |x|);
    ScaledNonNegative(y, Sum(y, |y|));
    if NonZero(x) {
      ClampedPositive(x);
      SumScaled(y, Sum(y, |y|), |y|);
      SelfQuotient(Sum(y, |y|));
      hide Scaled, Clamped, Sum, NonZero;
    } else {
      ZeroProject(x);
      hide Scaled, Clamped, NonZero;
      SumZero(Project(x), |x|);
    }
  }

  lemma ZeroProject(x: Vec)
    requires !NonZero(x)
    ensures forall i :: 0 <= i < |x| ==> Project(x)[i] == 0.0
  {
    SumZero(x, |x|);
    SumZero(Clamped(Scaled(x, Sum(x, |x|))), |x|);
    hide Sum;
  }

  lemma {:induction false} TermAtMostSum(x: Vec, i: nat, n: nat)
    requires i < n <= |x| && forall k :: 0 <= k < |x| ==> x[k] >= 0.0
    ensures 0.0 <= x[i] <= Sum(x, n)
    decreases n
  {
    SumClamped(x, n - 1);
    assert Clamped(x) == x;
    if i < n - 1 { TermAtMostSum(x, i, n - 1); }
  }

  /** Hence every weight lies between zero and one. */
  lemma ProjectInUnit(x: Vec, i: nat)
    requires i < |x|
    ensures 0.0 <= Project(x)[i] <= 1.0
  {
    ProjectSums(x);
    TermAtMostSum(Project(x), i, |x|);
  }

  /** The sign an element must have to be kept: that of the sum, positive when the sum is zero. */
  ghost predicate Kept(x: Vec, i: nat)
    requires i < |x|
  {
    if Sum(x, |x|) < 0.0 then x[i] < 0.0 else x[i] > 0.0
  }

  /** The weight of raw element a, where s is the raw sum and t the sum after clamping. */
  ghost function WeightOf(a: real, s: real, t: real): real
    requires t > 0.0
  {
    var u := if s == 0.0 then a else a / s;
    if u >= 0.0 then u / t else 0.0
  }

  lemma WeightSign(a: real, s: real, t: real)
    requires t > 0.0
    ensures WeightOf(a, s, t) > 0.0 <==> if s < 0.0 then a < 0.0 else a > 0.0
  {
    QuotientSign(a, s);
    QuotientSign(if s == 0.0 then a else a / s, t);
  }

  lemma QuotientSign(a: real, s: real)
    ensures s > 0.0 ==> (a / s > 0.0 <==> a > 0.0)
    ensures s < 0.0 ==> (a / s > 0.0 <==> a < 0.0)
  {
    if s != 0.0 {
      var q := a / s;
      assert a == q * s;
      if q > 0.0 { assert s > 0.0 ==> q * s > 0.0; assert s < 0.0 ==> q * s < 0.0; }
      if q < 0.0 { assert s > 0.0 ==> q * s < 0.0; assert s < 0.0 ==> q * s > 0.0; }
    }
  }

  lemma WeightProportion(a: real, b: real, s: real, t: real)
    requires t > 0.0 && WeightOf(a, s, t) > 0.0 && WeightOf(b, s, t) > 0.0
    ensures WeightOf(a, s, t) * b == WeightOf(b, s, t) * a
  {
    var u := if s == 0.0 then a else a / s;
    var v := if s == 0.0 then b else b / s;
    var k := if s == 0.0 then 1.0 else s;
    var p, q := u / t, v / t;
    assert a == p * (t * k) by { assert p * t == u && u * k == a; }
    assert b == q * (t * k) by { assert q * t == v && v * k == b; }
    assert p * (q * (t * k)) == q * (p * (t * k));
  }

  lemma ProjectAt(x: Vec, i: nat)
    requires i < |x| && NonZero(x)
    ensures var y := Clamped(Scaled(x, Sum(x, |x|)));
            Sum(y, |y|) > 0.0 && Project(x)[i] == WeightOf(x[i], Sum(x, |x|), Sum(y, |y|))
  {
    ClampedPositive(x);
    var y := Clamped(Scaled(x, Sum(x, |x|)));
    assert 0.0 / Sum(y, |y|) == 0.0;
  }

  /** Exactly the elements of the kept sign get a positive weight, and those weights keep their proportions. */
  lemma ProjectKeepsProportions(x: Vec, i: nat, j: nat)
    requires i < |x| && j < |x|
    ensures Project(x)[i] > 0.0 <==> Kept(x, i)
    ensures Kept(x, i) && Kept(x, j) ==> Project(x)[i] * x[j] == Project(x)[j] * x[i]
  {
    hide Project, WeightOf;
    if NonZero(x) {
      var y := Clamped(Scaled(x, Sum(x, |x|)));
      var s, t := Sum(x, |x|), Sum(y, |y|);
      ProjectAt(x, i);
      ProjectAt(x, j);
      WeightSign(x[i], s, t);
      WeightSign(x[j], s, t);
      if Kept(x, i) && Kept(x, j) { WeightProportion(x[i], x[j], s, t); }
    } else {
      SumZero(x, |x|);
      ProjectSums(x);
      TermAtMostSum(Project(x), i, |x|);
    }
  }
}
