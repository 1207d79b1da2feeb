/**
 * The stand-alone statement of the IRR formula: from total cost, net revenue and months
 * held, the profit, the ROI over the period and the IRR as a compounded annual rate,
 * both in percent.  The divisions have no guard.
 */
module IrrCheck {
  import opened Power
  import opened JsNumber
  import opened Core

  datatype Metrics = Metrics(netProfit: real, roi: Num, irr: Num)

  /** `calculateMetrics`. */
  function CalculateMetrics(pow: PowFn, totalCosts: real, revenueNet: real, totalMonths: real): (m: Metrics)
    ensures m.netProfit == revenueNet - totalCosts
    ensures m.roi.Finite? <==> totalCosts != 0.0
    ensures m.roi.Finite? ==> m.roi.v * totalCosts == 100.0 * m.netProfit
    ensures m.irr.Finite? ==> totalCosts != 0.0 && totalMonths != 0.0
    ensures totalCosts != 0.0 && totalMonths != 0.0 && revenueNet / totalCosts > 0.0 ==>
      m.irr == Finite(100.0 * CompoundAnnual(pow, revenueNet / totalCosts, totalMonths))
    ensures totalCosts != 0.0 && totalMonths > 0.0 && revenueNet == 0.0 ==> m.irr == Finite(-100.0)
  {
    var netProfit := revenueNet - totalCosts;
    var roi := Mul(Div(Finite(netProfit), Finite(totalCosts)), Finite(100.0));
    var irr := Mul(Sub(PowNum(pow, Div(Finite(revenueNet), Finite(totalCosts)), Div(Finite(12.0), Finite(totalMonths))),
                       Finite(1.0)), Finite(100.0));
    Metrics(netProfit, roi, irr)
  }

  /** The ROI is the profit over the cost, as a percentage. */
  lemma RoiIsPeriodReturn(pow: PowFn, totalCosts: real, revenueNet: real, totalMonths: real)
    requires totalCosts != 0.0
    ensures var m := CalculateMetrics(pow, totalCosts, revenueNet, totalMonths);
      m.roi == Finite(100.0 * (revenueNet / totalCosts - 1.0))
  {
    var m := CalculateMetrics(pow, totalCosts, revenueNet, totalMonths);
    QuotientLessOne(revenueNet, totalCosts);
    assert m.roi.v == 100.0 * ((revenueNet - totalCosts) / totalCosts);
  }

  /** `(a - b) / b` is `a / b - 1`. */
  lemma QuotientLessOne(a: real, b: real)
    requires b != 0.0
    ensures (a - b) / b == a / b - 1.0
  {
    var q, d := a / b, (a - b) / b;
    assert q * b == a && d * b == a - b;
    assert (q - 1.0) * b == a - b;
    CancelFactor(d, q - 1.0, b);
  }

  /** Over twelve months the IRR and the ROI agree. */
  lemma IrrIsRoiAtTwelveMonths(pow: PowFn, totalCosts: real, revenueNet: real)
    requires IsPow(pow)
    requires totalCosts > 0.0 && revenueNet > 0.0
    ensures var m := CalculateMetrics(pow, totalCosts, revenueNet, 12.0);
      m.irr == m.roi
  {
    var multiple := revenueNet / totalCosts;
    CompoundAnnualAtTwelve(pow, multiple);
    RoiIsPeriodReturn(pow, totalCosts, revenueNet, 12.0);
  }

  /** A profitable deal held under a year has an IRR above its ROI. */
  lemma QuickDealIrrAboveRoi(pow: PowFn, totalCosts: real, revenueNet: real, totalMonths: real)
    requires IsPow(pow)
    requires revenueNet > totalCosts > 0.0 && 0.0 < totalMonths < 12.0
    ensures var m := CalculateMetrics(pow, totalCosts, revenueNet, totalMonths);
      m.irr.Finite? && m.roi.Finite? && m.irr.v > m.roi.v
  {
    var multiple := revenueNet / totalCosts;
    assert multiple > 1.0;
    CompoundAnnualDecreasesWithMonths(pow, multiple, totalMonths, 12.0);
    CompoundAnnualAtTwelve(pow, multiple);
    RoiIsPeriodReturn(pow, totalCosts, revenueNet, totalMonths);
  }

  /** A profitable deal held over a year has an IRR below its ROI. */
  lemma SlowDealIrrBelowRoi(pow: PowFn, totalCosts: real, revenueNet: real, totalMonths: real)
    requires IsPow(pow)
    requires revenueNet > totalCosts > 0.0 && totalMonths > 12.0
    ensures var m := CalculateMetrics(pow, totalCosts, revenueNet, totalMonths);
      m.irr.Finite? && m.roi.Finite? && m.irr.v < m.roi.v
  {
    var multiple := revenueNet / totalCosts;
    assert multiple > 1.0;
    CompoundAnnualDecreasesWithMonths(pow, multiple, 12.0, totalMonths);
    CompoundAnnualAtTwelve(pow, multiple);
    RoiIsPeriodReturn(pow, totalCosts, revenueNet, totalMonths);
  }

  /** The net present value of the deal, discounted at `irr` percent a year. */
  function Npv(pow: PowFn, totalCosts: real, revenueNet: real, totalMonths: real, irr: real): Num {
    Sub(Div(Finite(revenueNet), PowNum(pow, Finite(1.0 + irr / 100.0), Finite(totalMonths / 12.0))), Finite(totalCosts))
  }

  /** Discounted at its own IRR, the deal is worth exactly nothing. */
  lemma NpvAtIrrIsZero(pow: PowFn, totalCosts: real, revenueNet: real, totalMonths: real)
    requires IsPow(pow)
    requires totalCosts > 0.0 && revenueNet > 0.0 && totalMonths != 0.0
    ensures var m := CalculateMetrics(pow, totalCosts, revenueNet, totalMonths);
      m.irr.Finite? && Npv(pow, totalCosts, revenueNet, totalMonths, m.irr.v) == Finite(0.0)
  {
    var multiple := revenueNet / totalCosts;
    var m := CalculateMetrics(pow, totalCosts, revenueNet, totalMonths);
    var rate := CompoundAnnual(pow, multiple, totalMonths);
    assert m.irr.v / 100.0 == rate;
    CompoundAnnualDiscounts(pow, multiple, totalMonths);
    assert totalMonths / 12.0 != 0.0;
    assert PowNum(pow, Finite(1.0 + rate), Finite(totalMonths / 12.0)) == Finite(multiple);
    assert revenueNet / multiple == totalCosts;
  }

  /** The first worked example: 100 000 in, 120 000 back after 12 months is 20% either way. */
  lemma TwelveMonthExample(pow: PowFn)
    requires IsPow(pow)
    ensures CalculateMetrics(pow, 100000.0, 120000.0, 12.0).roi == Finite(20.0)
    ensures CalculateMetrics(pow, 100000.0, 120000.0, 12.0).irr == Finite(20.0)
  {
    RoiIsPeriodReturn(pow, 100000.0, 120000.0, 12.0);
    IrrIsRoiAtTwelveMonths(pow, 100000.0, 120000.0);
  }
}
