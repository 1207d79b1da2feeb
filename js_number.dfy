/**
 * JavaScript numbers as the flip calculator's page computes with them.  Its divisions
 * are not guarded, so a zero divisor yields NaN or an infinity that then flows through
 * every later step; `NotFinite` stands for all three of those values at once.
 * Rounding to IEEE doubles is not modelled: a finite number is an exact real.
 */
module JsNumber {
  import opened Power

  datatype Num = Finite(v: real) | NotFinite

  function Add(a: Num, b: Num): (r: Num)
    ensures r.Finite? <==> a.Finite? && b.Finite?
    ensures r.Finite? ==> r.v == a.v + b.v
  {
    if a.Finite? && b.Finite? then Finite(a.v + b.v) else NotFinite
  }

  function Sub(a: Num, b: Num): (r: Num)
    ensures r.Finite? <==> a.Finite? && b.Finite?
    ensures r.Finite? ==> r.v == a.v - b.v
  {
    if a.Finite? && b.Finite? then Finite(a.v - b.v) else NotFinite
  }

  function Mul(a: Num, b: Num): (r: Num)
    ensures r.Finite? <==> a.Finite? && b.Finite?
    ensures r.Finite? ==> r.v == a.v * b.v
  {
    if a.Finite? && b.Finite? then Finite(a.v * b.v) else NotFinite
  }

  /** Division by zero gives an infinity or NaN. */
  function Div(a: Num, b: Num): (r: Num)
    ensures r.Finite? <==> a.Finite? && b.Finite? && b.v != 0.0
    ensures r.Finite? ==> r.v * b.v == a.v
  {
    if a.Finite? && b.Finite? && b.v != 0.0 then Finite(a.v / b.v) else NotFinite
  }

  /** `Math.round`: the nearest whole number, halves upward; NaN stays NaN. */
  function Round(a: Num): (r: Num)
    ensures r.Finite? <==> a.Finite?
    ensures r.Finite? ==> r.v == r.v.Floor as real && a.v - 0.5 < r.v <= a.v + 0.5
  {
    if a.Finite? then Finite((a.v + 0.5).Floor as real) else NotFinite
  }

  /** `Math.max(0, a)`: NaN propagates. */
  function MaxZero(a: Num): (r: Num)
    ensures r.Finite? <==> a.Finite?
    ensures r.Finite? ==> r.v >= 0.0 && r.v >= a.v && (r.v == 0.0 || r.v == a.v)
  {
    if a.Finite? then Finite(if a.v > 0.0 then a.v else 0.0) else NotFinite
  }

  /**
   * `Math.pow(a, e)` on finite operands.  A zero exponent gives 1 whatever the base, NaN
   * included.  A negative base with a fractional exponent gives NaN, and a zero base gives
   * +Infinity under a negative exponent and 0 under a positive one.  A non-finite operand
   * otherwise gives a non-finite result: a simplification, since `NotFinite` does not say
   * which infinity it is, and JavaScript gives 0 for an infinite base under a negative
   * exponent and for a base below 1 in size under +Infinity.
   */
  function PowNum(pow: PowFn, a: Num, e: Num): (r: Num)
    ensures e == Finite(0.0) ==> r == Finite(1.0)
    ensures e != Finite(0.0) && r.Finite? ==> a.Finite? && e.Finite?
    ensures a.Finite? && a.v > 0.0 && e.Finite? && e.v != 0.0 ==> r == Finite(pow(a.v, e.v))
    ensures a.Finite? && a.v < 0.0 && e.Finite? && e.v != e.v.Floor as real ==> r == NotFinite
    ensures a == Finite(0.0) && e.Finite? ==> r == (if e.v < 0.0 then NotFinite else Finite(if e.v > 0.0 then 0.0 else 1.0))
  {
    if e == Finite(0.0) then Finite(1.0)
    else if !(a.Finite? && e.Finite?) then NotFinite
    else if a.v < 0.0 && e.v != e.v.Floor as real then NotFinite
    else if a.v == 0.0 then (if e.v < 0.0 then NotFinite else Finite(0.0))
    else Finite(pow(a.v, e.v))
  }

  /** Rounding a number that is not negative gives a number that is not negative. */
  lemma RoundNonNegative(x: real)
    requires x >= 0.0
    ensures Round(Finite(x)).Finite? && Round(Finite(x)).v >= 0.0
  {
    assert (x + 0.5).Floor >= 0;
  }

  /** Rounding moves a number by at most one half upward. */
  lemma RoundAtMost(x: real, bound: real)
    requires x <= bound
    ensures Round(Finite(x)).Finite? && Round(Finite(x)).v <= bound + 0.5
  {
    assert (x + 0.5).Floor as real <= x + 0.5;
  }
}
