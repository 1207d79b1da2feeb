/**
 * `Math.pow` with a fractional exponent, as the deal engine uses it to annualise a
 * multiple.  The power function of the JavaScript runtime is outside the model: every
 * operation that calls it receives it as a parameter `pow`, and every property that
 * depends on its behaviour assumes only the laws collected in `IsPow`, all of which
 * hold of the real power function b^e on positive bases.
 */
module Power {

  type PowFn = (real, real) -> real

  /** b^1 = b. */
  ghost predicate HasUnitExponent(pow: PowFn) {
    forall b :: b > 0.0 ==> pow(b, 1.0) == b
  }

  /** b^0 = 1. */
  ghost predicate HasZeroExponent(pow: PowFn) {
    forall b :: b > 0.0 ==> pow(b, 0.0) == 1.0
  }

  /** A positive base gives a positive power. */
  ghost predicate IsPositive(pow: PowFn) {
    forall b, e :: b > 0.0 ==> pow(b, e) > 0.0
  }

  /** 1^e = 1. */
  ghost predicate HasUnitBase(pow: PowFn) {
    forall e :: pow(1.0, e) == 1.0
  }

  /** (b^e1)^e2 = b when e1 * e2 = 1: reciprocal exponents undo each other. */
  ghost predicate InvertsExponent(pow: PowFn) {
    forall b, e1, e2 {:trigger pow(pow(b, e1), e2)} ::
      b > 0.0 && e1 * e2 == 1.0 ==> pow(pow(b, e1), e2) == b
  }

  /** For a base above 1 the power grows strictly with the exponent. */
  ghost predicate IncreasingInExponent(pow: PowFn) {
    forall b, e1, e2 :: b > 1.0 && e1 < e2 ==> pow(b, e1) < pow(b, e2)
  }

  /** For a positive exponent the power grows strictly with the base. */
  ghost predicate IncreasingInBase(pow: PowFn) {
    forall b1, b2, e :: 0.0 < b1 < b2 && e > 0.0 ==> pow(b1, e) < pow(b2, e)
  }

  /** The laws of b^e on positive bases that the properties of the model rely on. */
  ghost predicate IsPow(pow: PowFn) {
    && HasUnitExponent(pow)
    && HasZeroExponent(pow)
    && HasUnitBase(pow)
    && IsPositive(pow)
    && InvertsExponent(pow)
    && IncreasingInExponent(pow)
    && IncreasingInBase(pow)
  }

  /** A base above 1 raised to a positive exponent stays above 1. */
  lemma PowAboveOne(pow: PowFn, b: real, e: real)
    requires IsPow(pow)
    requires b > 1.0 && e > 0.0
    ensures pow(b, e) > 1.0
  {
    assert pow(b, 0.0) == 1.0;
    assert pow(b, 0.0) < pow(b, e);
  }

  /** A base in (0, 1) raised to a positive exponent stays below 1. */
  lemma PowBelowOne(pow: PowFn, b: real, e: real)
    requires IsPow(pow)
    requires 0.0 < b < 1.0 && e > 0.0
    ensures 0.0 < pow(b, e) < 1.0
  {
    assert pow(b, e) < pow(1.0, e);
  }

  /** Monotonicity in the base, the non-strict form. */
  lemma PowMonotoneInBase(pow: PowFn, b1: real, b2: real, e: real)
    requires IsPow(pow)
    requires 0.0 < b1 <= b2 && e > 0.0
    ensures pow(b1, e) <= pow(b2, e)
  {
    if b1 < b2 {
      assert pow(b1, e) < pow(b2, e);
    }
  }

  /**
   * The two-point compounding annualisation the engine uses for IRR: a multiple held
   * for `months` months, compounded to 12 months, minus 1.
   */
  function CompoundAnnual(pow: PowFn, multiple: real, months: real): real
    requires months != 0.0
  {
    pow(multiple, 12.0 / months) - 1.0
  }

  /** Over 12 months the annual rate is the period return itself. */
  lemma CompoundAnnualAtTwelve(pow: PowFn, multiple: real)
    requires IsPow(pow)
    requires multiple > 0.0
    ensures CompoundAnnual(pow, multiple, 12.0) == multiple - 1.0
  {
    assert 12.0 / 12.0 == 1.0;
  }

  /** The annual rate has the sign of the gain: above 0 iff the multiple is above 1. */
  lemma {:induction false} CompoundAnnualSign(pow: PowFn, multiple: real, months: real)
    requires IsPow(pow)
    requires multiple > 0.0 && months > 0.0
    ensures CompoundAnnual(pow, multiple, months) > 0.0 <==> multiple > 1.0
    ensures CompoundAnnual(pow, multiple, months) < 0.0 <==> multiple < 1.0
  {
    var e := 12.0 / months;
    assert e > 0.0;
    if multiple > 1.0 {
      PowAboveOne(pow, multiple, e);
    } else if multiple < 1.0 {
      PowBelowOne(pow, multiple, e);
    } else {
      assert pow(1.0, e) == 1.0;
    }
  }

  /** 12/m falls as m grows. */
  lemma ReciprocalAntitone(m1: real, m2: real)
    requires 0.0 < m1 < m2
    ensures 12.0 / m2 < 12.0 / m1
  {
    var q1, q2 := 12.0 / m1, 12.0 / m2;
    assert q1 * m1 == 12.0 && q2 * m2 == 12.0;
  }

  /**
   * For a gain (multiple above 1), a shorter holding period gives a strictly higher
   * annual rate.
   */
  lemma CompoundAnnualDecreasesWithMonths(pow: PowFn, multiple: real, m1: real, m2: real)
    requires IsPow(pow)
    requires multiple > 1.0 && 0.0 < m1 < m2
    ensures CompoundAnnual(pow, multiple, m1) > CompoundAnnual(pow, multiple, m2)
  {
    ReciprocalAntitone(m1, m2);
  }

  /**
   * The annual rate is no higher for a smaller positive multiple over a longer period,
   * and strictly lower when the larger multiple is a gain.
   */
  lemma CompoundAnnualOrdered(pow: PowFn, low: real, high: real, m1: real, m2: real)
    requires IsPow(pow)
    requires 0.0 < low <= high && high > 1.0 && 0.0 < m1 < m2
    ensures CompoundAnnual(pow, low, m2) < CompoundAnnual(pow, high, m1)
  {
    PowMonotoneInBase(pow, low, high, 12.0 / m2);
    CompoundAnnualDecreasesWithMonths(pow, high, m1, m2);
  }

  /** Discounting the final multiple at the annual rate it implies gives back 1. */
  lemma CompoundAnnualDiscounts(pow: PowFn, multiple: real, months: real)
    requires IsPow(pow)
    requires multiple > 0.0 && months != 0.0
    ensures pow(1.0 + CompoundAnnual(pow, multiple, months), months / 12.0) == multiple
  {
    ReciprocalExponents(months);
    assert pow(pow(multiple, 12.0 / months), months / 12.0) == multiple;
  }

  /** The exponents `12/m` and `m/12` undo each other. */
  lemma ReciprocalExponents(months: real)
    requires months != 0.0
    ensures (12.0 / months) * (months / 12.0) == 1.0
    ensures (months / 12.0) * (12.0 / months) == 1.0
  {
    var q := 12.0 / months;
    assert q * months == 12.0;
  }
}
