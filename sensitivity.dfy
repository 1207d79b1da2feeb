/**
 * The engine's sensitivity analysis: the project metrics recomputed over seven sale
 * prices (85% to 115% of the planned one), over the holding periods from the planned
 * one up to at least 12 months and at least 6 months more, and over five renovation
 * budgets (80% to 120%).
 */
module Sensitivity {
  import opened Wrappers
  import opened Power
  import opened Money
  import opened DealTypes
  import opened Core

  // ---------------------------------------------------------------------------------
  // The sale-price and renovation sweeps

  function SalePriceMultipliers(): seq<real> {
    [0.85, 0.90, 0.95, 1.00, 1.05, 1.10, 1.15]
  }

  function RenovationMultipliers(): seq<real> {
    [0.8, 0.9, 1.0, 1.1, 1.2]
  }

  /** The project recomputed at the planned sale price times `mult`, rounded to dirhams. */
  function SalePricePoint(input: DealInput, pow: PowFn, mult: real): (pt: SensitivityDataPoint)
    ensures pt.salePrice == Some(RoundMoney(input.salePrice * mult))
    ensures pt.monthsTotal == None && pt.renovationBudget == None
  {
    var price := RoundMoney(input.salePrice * mult);
    var p := ComputeProject(input.(salePrice := price), pow);
    SensitivityDataPoint(Some(price), None, None, p.roiPeriod, p.irrAnnual, p.profit)
  }

  /** The project recomputed with the renovation budget times `mult`, rounded to dirhams. */
  function RenovationPoint(input: DealInput, pow: PowFn, mult: real): (pt: SensitivityDataPoint)
    ensures pt.renovationBudget == Some(RoundMoney(input.renovationBudget * mult))
    ensures pt.salePrice == None && pt.monthsTotal == None
  {
    var budget := RoundMoney(input.renovationBudget * mult);
    var p := ComputeProject(input.(renovationBudget := budget), pow);
    SensitivityDataPoint(None, None, Some(budget), p.roiPeriod, p.irrAnnual, p.profit)
  }

  function BySalePrice(input: DealInput, pow: PowFn): (s: seq<SensitivityDataPoint>)
    ensures |s| == 7
    ensures forall i :: 0 <= i < |s| ==>
      s[i].salePrice == Some(RoundMoney(input.salePrice * SalePriceMultipliers()[i]))
      && s[i].monthsTotal == None && s[i].renovationBudget == None
  {
    var ms := SalePriceMultipliers();
    seq(|ms|, i requires 0 <= i < |ms| => SalePricePoint(input, pow, ms[i]))
  }

  function ByRenovation(input: DealInput, pow: PowFn): (s: seq<SensitivityDataPoint>)
    ensures |s| == 5
    ensures forall i :: 0 <= i < |s| ==>
      s[i].renovationBudget == Some(RoundMoney(input.renovationBudget * RenovationMultipliers()[i]))
      && s[i].salePrice == None && s[i].monthsTotal == None
  {
    var ms := RenovationMultipliers();
    seq(|ms|, i requires 0 <= i < |ms| => RenovationPoint(input, pow, ms[i]))
  }

  // ---------------------------------------------------------------------------------
  // The holding-period sweep

  /** `Math.max(months + 6, 12)`: the longest period of the sweep. */
  function LastMonth(months: real): (last: real)
    ensures last >= months + 6.0 && last >= 12.0
    ensures last == months + 6.0 || last == 12.0
  {
    if months + 6.0 > 12.0 then months + 6.0 else 12.0
  }

  /** How many periods months, months + 1, ... do not exceed `LastMonth(months)`. */
  function SweepLength(months: real): (n: nat)
    ensures months + (n - 1) as real <= LastMonth(months) < months + n as real
  {
    (LastMonth(months) - months).Floor + 1
  }

  /** The periods of the sweep: every months + i that does not exceed the last one. */
  function MonthsSweep(months: real): (ms: seq<real>)
    ensures |ms| == SweepLength(months) && |ms| >= 7
    ensures forall i :: 0 <= i < |ms| ==> ms[i] == months + i as real
    ensures forall i :: 0 <= i < |ms| ==> ms[i] <= LastMonth(months)
    ensures months + |ms| as real > LastMonth(months)
  {
    seq(SweepLength(months), (i: int) => months + i as real)
  }

  /**
   * The loop that lists the periods: from the planned period, one month at a time, up
   * to and including the last one.
   */
  method MonthsRange(months: real) returns (range: seq<real>)
    ensures range == MonthsSweep(months)
  {
    var last := LastMonth(months);
    ghost var sweep := MonthsSweep(months);
    range := [];
    var m := months;
    while m <= last
      invariant m == months + |range| as real
      invariant |range| <= |sweep|
      invariant range == sweep[..|range|]
      decreases |sweep| - |range|
    {
      range := range + [m];
      m := m + 1.0;
    }
  }

  /**
   * The project at a longer or shorter period: the proceeds stay, the costs grow by
   * the monthly carrying cost for every extra month, and the rates are recomputed.
   */
  function MonthsPoint(project: DealOutputsProject, d: DealDerived, months: real, pow: PowFn): (pt: SensitivityDataPoint)
    ensures pt.monthsTotal == Some(months) && pt.salePrice == None && pt.renovationBudget == None
    // The proceeds are held, and every month beyond the planned period costs one more
    // month of carrying.
    ensures pt.profit == RoundMoney(project.netProceeds - project.totalCosts - d.carryingMonthly * (months - d.monthsTotal))
  {
    var costs := ExtendedCosts(project, d, months);
    var profit := project.netProceeds - costs;
    var moic := Ratio(project.netProceeds, costs);
    var roiPeriod := Ratio(profit, costs);
    SensitivityDataPoint(None, Some(months), None, roiPeriod, AnnualRate(pow, moic, months), RoundMoney(profit))
  }

  /** The project's costs with carrying adjusted to a period of `months`. */
  function ExtendedCosts(project: DealOutputsProject, d: DealDerived, months: real): real {
    project.totalCosts + d.carryingMonthly * (months - d.monthsTotal)
  }

  function ByMonths(input: DealInput, project: DealOutputsProject, pow: PowFn): (s: seq<SensitivityDataPoint>)
    ensures |s| == |MonthsSweep(ComputeDerived(input).monthsTotal)|
    ensures forall i :: 0 <= i < |s| ==>
      s[i].monthsTotal == Some(ComputeDerived(input).monthsTotal + i as real)
      && s[i].salePrice == None && s[i].renovationBudget == None
  {
    var d := ComputeDerived(input);
    var ms := MonthsSweep(d.monthsTotal);
    seq(|ms|, i requires 0 <= i < |ms| => MonthsPoint(project, d, ms[i], pow))
  }

  /** `computeSensitivity`: the three sweeps around a deal and its project metrics. */
  method ComputeSensitivity(input: DealInput, project: DealOutputsProject, pow: PowFn) returns (r: SensitivityResult)
    ensures r.bySalePrice == BySalePrice(input, pow)
    ensures r.byMonths == ByMonths(input, project, pow)
    ensures r.byRenovation == ByRenovation(input, pow)
  {
    var d := ComputeDerived(input);
    var sales := SalePriceMultipliers();
    var bySalePrice := seq(|sales|, i requires 0 <= i < |sales| => SalePricePoint(input, pow, sales[i]));
    var range := MonthsRange(d.monthsTotal);
    var byMonths := seq(|range|, i requires 0 <= i < |range| => MonthsPoint(project, d, range[i], pow));
    var budgets := RenovationMultipliers();
    var byRenovation := seq(|budgets|, i requires 0 <= i < |budgets| => RenovationPoint(input, pow, budgets[i]));
    r := SensitivityResult(bySalePrice, byMonths, byRenovation);
  }

  // ---------------------------------------------------------------------------------
  // Properties of the sweeps

  /** The shape of the result: 7 sale prices, 5 budgets, and the periods M, M + 1, ... */
  lemma SweepShape(input: DealInput, project: DealOutputsProject, pow: PowFn)
    ensures |BySalePrice(input, pow)| == 7 && |ByRenovation(input, pow)| == 5
    ensures |ByMonths(input, project, pow)| >= 7
    ensures forall i :: 0 <= i < |ByMonths(input, project, pow)| ==>
      ByMonths(input, project, pow)[i].monthsTotal == Some(ComputeDerived(input).monthsTotal + i as real)
    ensures LastMonth(ComputeDerived(input).monthsTotal) <
      ComputeDerived(input).monthsTotal + |ByMonths(input, project, pow)| as real
  {
  }

  /** With a whole planned sale price, the middle sale-price point is the deal itself. */
  lemma SalePriceAnchor(input: DealInput, pow: PowFn)
    requires IsWhole(input.salePrice)
    ensures BySalePrice(input, pow)[3].salePrice == Some(input.salePrice)
    ensures BySalePrice(input, pow)[3].profit == ComputeProject(input, pow).profit
    ensures BySalePrice(input, pow)[3].irrAnnual == ComputeProject(input, pow).irrAnnual
    ensures BySalePrice(input, pow)[3].roiPeriod == ComputeProject(input, pow).roiPeriod
  {
    assert input.salePrice * 1.0 == input.salePrice;
    RoundMoneyOfWhole(input.salePrice);
    assert input.(salePrice := input.salePrice) == input;
  }

  /** With a whole budget, the middle renovation point is the deal itself. */
  lemma RenovationAnchor(input: DealInput, pow: PowFn)
    requires IsWhole(input.renovationBudget)
    ensures ByRenovation(input, pow)[2].renovationBudget == Some(input.renovationBudget)
    ensures ByRenovation(input, pow)[2].profit == ComputeProject(input, pow).profit
    ensures ByRenovation(input, pow)[2].irrAnnual == ComputeProject(input, pow).irrAnnual
    ensures ByRenovation(input, pow)[2].roiPeriod == ComputeProject(input, pow).roiPeriod
  {
    assert input.renovationBudget * 1.0 == input.renovationBudget;
    RoundMoneyOfWhole(input.renovationBudget);
    assert input.(renovationBudget := input.renovationBudget) == input;
  }

  /**
   * Every extra month lowers the profit by exactly the monthly carrying cost, when the
   * project's costs and proceeds are whole; the first period is the project itself.
   */
  lemma MonthsProfitDecline(input: DealInput, project: DealOutputsProject, pow: PowFn, j: nat)
    requires IsWhole(project.totalCosts) && IsWhole(project.netProceeds)
    requires project.profit == project.netProceeds - project.totalCosts
    requires j < |ByMonths(input, project, pow)|
    ensures ByMonths(input, project, pow)[j].profit == project.profit - ComputeDerived(input).carryingMonthly * j as real
  {
    var d := ComputeDerived(input);
    var m := MonthsSweep(d.monthsTotal)[j];
    var c := d.carryingMonthly;
    assert m - d.monthsTotal == j as real;
    var k := c.Floor * j;
    assert k as real == c * j as real;
    assert IsWhole(c * j as real);
    WholeArith(project.netProceeds, project.totalCosts);
    WholeArith(project.profit, c * j as real);
    assert project.netProceeds - ExtendedCosts(project, d, m) == project.profit - c * j as real;
    RoundMoneyOfWhole(project.profit - c * j as real);
  }

  /** At the planned period the months sweep reproduces the project's metrics. */
  lemma MonthsAnchor(input: DealInput, project: DealOutputsProject, pow: PowFn)
    requires ProjectReconciles(input, pow, project)
    requires IsWhole(project.totalCosts) && IsWhole(project.netProceeds)
    ensures ByMonths(input, project, pow)[0].monthsTotal == Some(ComputeDerived(input).monthsTotal)
    ensures ByMonths(input, project, pow)[0].profit == project.profit
    ensures ByMonths(input, project, pow)[0].roiPeriod == project.roiPeriod
    ensures ByMonths(input, project, pow)[0].irrAnnual == project.irrAnnual
  {
    var d := ComputeDerived(input);
    assert ExtendedCosts(project, d, d.monthsTotal + 0 as real) == project.totalCosts;
    MonthsProfitDecline(input, project, pow, 0);
  }

  /**
   * For a gain over a positive planned period with non-negative carrying, holding to
   * the end of the sweep gives a strictly lower annual rate than selling on plan.
   */
  lemma MonthsIrrFalls(input: DealInput, project: DealOutputsProject, pow: PowFn)
    requires IsPow(pow)
    requires ComputeDerived(input).monthsTotal > 0.0 && ComputeDerived(input).carryingMonthly >= 0.0
    requires 0.0 < project.totalCosts < project.netProceeds
    ensures
      var s := ByMonths(input, project, pow);
      s[|s| - 1].irrAnnual < s[0].irrAnnual
  {
    var d := ComputeDerived(input);
    var ms := MonthsSweep(d.monthsTotal);
    var last := |ms| - 1;
    var t, n := project.totalCosts, project.netProceeds;
    var tl := ExtendedCosts(project, d, ms[last]);
    SweepEndCosts(project, d);
    var low, high := Ratio(n, tl), Ratio(n, t);
    RatioCompare(n, t);
    RatioAntitone(n, t, tl);
    RatioCompare(n, tl);
    CompoundAnnualOrdered(pow, low, high, d.monthsTotal, ms[last]);
  }

  /** Over the months sweep, costs start at the project's and do not fall by its end. */
  lemma SweepEndCosts(project: DealOutputsProject, d: DealDerived)
    requires d.carryingMonthly >= 0.0
    ensures var ms := MonthsSweep(d.monthsTotal);
      && ExtendedCosts(project, d, ms[0]) == project.totalCosts
      && ExtendedCosts(project, d, ms[|ms| - 1]) >= project.totalCosts
  {
    var ms := MonthsSweep(d.monthsTotal);
    var last := |ms| - 1;
    assert ms[last] - d.monthsTotal == last as real;
    ProductNonNegative(d.carryingMonthly, last as real);
  }

  /** Over a larger positive base, a positive amount gives a smaller ratio. */
  lemma RatioAntitone(a: real, b1: real, b2: real)
    requires a > 0.0 && 0.0 < b1 <= b2
    ensures Ratio(a, b2) <= Ratio(a, b1)
  {
    var r1, r2 := Ratio(a, b1), Ratio(a, b2);
    assert r1 * b1 == a && r2 * b2 == a;
    assert r2 * b1 <= r2 * b2 by {
      ProductSign(r2, b2);
      assert r2 * (b2 - b1) >= 0.0;
    }
    CompareFactor(r2, r1, b1);
  }

  /** Over a positive factor, products compare like the factors. */
  lemma CompareFactor(x: real, y: real, k: real)
    requires k > 0.0 && x * k <= y * k
    ensures x <= y
  {
    ProductSign(y - x, k);
    assert (y - x) * k == y * k - x * k;
  }

  // ---------------------------------------------------------------------------------
  // Monotone sweeps

  /** Net proceeds never fall as the sale price rises, while the fee takes at most all of it. */
  lemma NetProceedsMonotone(a: DealInput, b: DealInput)
    requires a.salePrice <= b.salePrice
    requires SellerFeeRate(a) == SellerFeeRate(b) <= 1.0
    ensures NetProceeds(a) <= NetProceeds(b)
  {
    AfterFeeMonotone(a.salePrice, b.salePrice, SellerFeeRate(a), SellerFeeRate(b));
    RoundMoneyMonotone(AfterFee(a.salePrice, SellerFeeRate(a)), AfterFee(b.salePrice, SellerFeeRate(b)));
  }

  /** What is left after a fee of at most 100% grows with the sale price. */
  lemma AfterFeeMonotone(s1: real, s2: real, rate: real, rate': real)
    requires s1 <= s2 && rate == rate' <= 1.0
    ensures AfterFee(s1, rate) <= AfterFee(s2, rate')
  {
    ProductNonNegative(s2 - s1, 1.0 - rate);
  }

  /** Costs never fall as the renovation budget rises, while the reserve is at least -100%. */
  lemma TotalCostsMonotone(input: DealInput, r1: real, r2: real)
    requires r1 <= r2 && input.reservePct >= -100.0
    ensures TotalCosts(input.(renovationBudget := r1)) <= TotalCosts(input.(renovationBudget := r2))
  {
    var a, b := input.(renovationBudget := r1), input.(renovationBudget := r2);
    assert ComputeDerived(a) == ComputeDerived(input) && ComputeDerived(b) == ComputeDerived(input);
    ProductNonNegative(r2 - r1, 100.0 + input.reservePct);
    assert r1 * (100.0 + input.reservePct) <= r2 * (100.0 + input.reservePct);
    assert GrossCosts(a) <= GrossCosts(b);
    RoundMoneyMonotone(GrossCosts(a), GrossCosts(b));
  }

  /** The sale price does not enter the costs. */
  lemma CostsIgnoreSalePrice(input: DealInput, price: real)
    ensures TotalCosts(input.(salePrice := price)) == TotalCosts(input)
  {
    assert ComputeDerived(input.(salePrice := price)) == ComputeDerived(input);
    assert GrossCosts(input.(salePrice := price)) == GrossCosts(input);
  }

  /** The renovation budget does not enter the proceeds. */
  lemma ProceedsIgnoreRenovation(input: DealInput, budget: real)
    ensures NetProceeds(input.(renovationBudget := budget)) == NetProceeds(input)
  {
    var moved := input.(renovationBudget := budget);
    assert SellerFeeRate(moved) == SellerFeeRate(input);

  }

  /** The profit of a sale-price point: its net proceeds less the unchanged costs. */
  lemma SalePointProfit(input: DealInput, pow: PowFn, mult: real)
    ensures SalePricePoint(input, pow, mult).profit ==
      NetProceeds(input.(salePrice := RoundMoney(input.salePrice * mult))) - TotalCosts(input)
  {
    CostsIgnoreSalePrice(input, RoundMoney(input.salePrice * mult));
  }

  /** The profit of a renovation point: the unchanged proceeds less its costs. */
  lemma RenovationPointProfit(input: DealInput, pow: PowFn, mult: real)
    ensures RenovationPoint(input, pow, mult).profit ==
      NetProceeds(input) - TotalCosts(input.(renovationBudget := RoundMoney(input.renovationBudget * mult)))
  {
    ProceedsIgnoreRenovation(input, RoundMoney(input.renovationBudget * mult));
  }

  /** The seller's fee rate does not depend on the sale price. */
  lemma FeeRateIgnoresSalePrice(input: DealInput, price: real)
    ensures SellerFeeRate(input.(salePrice := price)) == SellerFeeRate(input)
  {
  }

  /** A higher multiplier of a non-negative sale price gives at least the profit. */
  lemma SalePointMonotone(input: DealInput, pow: PowFn, m1: real, m2: real)
    requires input.salePrice >= 0.0 && m1 <= m2 && SellerFeeRate(input) <= 1.0
    ensures SalePricePoint(input, pow, m1).profit <= SalePricePoint(input, pow, m2).profit
  {
    ProductNonNegative(input.salePrice, m2 - m1);
    RoundMoneyMonotone(input.salePrice * m1, input.salePrice * m2);
    var a := input.(salePrice := RoundMoney(input.salePrice * m1));
    var b := input.(salePrice := RoundMoney(input.salePrice * m2));
    FeeRateIgnoresSalePrice(input, a.salePrice);
    FeeRateIgnoresSalePrice(input, b.salePrice);
    NetProceedsMonotone(a, b);
    SalePointProfit(input, pow, m1);
    SalePointProfit(input, pow, m2);
  }

  /** A higher multiplier of a non-negative budget gives at most the profit. */
  lemma RenovationPointMonotone(input: DealInput, pow: PowFn, m1: real, m2: real)
    requires input.renovationBudget >= 0.0 && m1 <= m2 && input.reservePct >= -100.0
    ensures RenovationPoint(input, pow, m2).profit <= RenovationPoint(input, pow, m1).profit
  {
    ProductNonNegative(input.renovationBudget, m2 - m1);
    RoundMoneyMonotone(input.renovationBudget * m1, input.renovationBudget * m2);
    TotalCostsMonotone(input, RoundMoney(input.renovationBudget * m1), RoundMoney(input.renovationBudget * m2));
    RenovationPointProfit(input, pow, m1);
    RenovationPointProfit(input, pow, m2);
  }

  /** Along the sale-price sweep the profit never falls. */
  lemma SalePriceSweepOrdered(input: DealInput, pow: PowFn, i: nat, j: nat)
    requires input.salePrice >= 0.0 && SellerFeeRate(input) <= 1.0
    requires i <= j < 7
    ensures BySalePrice(input, pow)[i].profit <= BySalePrice(input, pow)[j].profit
  {
    SalePointMonotone(input, pow, SalePriceMultipliers()[i], SalePriceMultipliers()[j]);
  }

  /** Along the renovation sweep the profit never rises. */
  lemma RenovationSweepOrdered(input: DealInput, pow: PowFn, i: nat, j: nat)
    requires input.renovationBudget >= 0.0 && input.reservePct >= -100.0
    requires i <= j < 5
    ensures ByRenovation(input, pow)[j].profit <= ByRenovation(input, pow)[i].profit
  {
    RenovationPointMonotone(input, pow, RenovationMultipliers()[i], RenovationMultipliers()[j]);
  }
}
