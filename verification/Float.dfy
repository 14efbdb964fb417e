/** Floating-point words over the reals: what division by zero leads to, without rounding. */
module Floats {
  import opened LinearAlgebra

  /** A number, an infinity whose sign is left open, or no number. */
  datatype Float = Num(w: real) | Infinite | NotANumber

  ghost function Nums(w: Vec): (ws: seq<Float>)
    ensures |ws| == |w|
  {
    seq(|w|, i requires 0 <= i < |w| => Num(w[i]))
  }

  predicate AllNum(x: seq<Float>) {
    forall i :: 0 <= i < |x| ==> x[i].Num?
  }

  /** Infinities of opposite sign add to no number. */
  method Add(x: Float, y: Float) returns (z: Float)
    ensures x.Num? && y.Num? ==> z == Num(x.w + y.w)
    ensures !x.Num? || !y.Num? ==> !z.Num?
    ensures x.NotANumber? || y.NotANumber? ==> z.NotANumber?
  {
    if x.NotANumber? || y.NotANumber? {
      z := NotANumber;
    } else if x.Num? && y.Num? {
      z := Num(x.w + y.w);
    } else if x.Infinite? && y.Infinite? {
      z := Infinite;
      if * { z := NotANumber; }
    } else {
      z := Infinite;
    }
  }

  function Negate(x: Float): Float {
    if x.Num? then Num(-x.w) else x
  }

  function Mul(x: Float, y: Float): Float {
    if x.Num? && y.Num? then Num(Times(x.w, y.w))
    else if x.NotANumber? || y.NotANumber? || x == Num(0.0) || y == Num(0.0) then NotANumber
    else Infinite
  }

  function Div(x: Float, y: Float): Float {
    if x.NotANumber? || y.NotANumber? then NotANumber
    else if y.Infinite? then (if x.Num? then Num(0.0) else NotANumber)
    else if y.w == 0.0 then (if x == Num(0.0) then NotANumber else Infinite)
    else if x.Num? then Num(x.w / y.w) else Infinite
  }

  /** No number is not below anything. */
  method IsNegative(x: Float) returns (r: bool)
    ensures x.Num? ==> (r <==> x.w < 0.0)
    ensures x.NotANumber? ==> !r
  {
    r := x.Num? && x.w < 0.0;
    if x.Infinite? { r := *; }
  }
}
