/**
 * The deal engine: costs, proceeds, profit and return metrics of one flip, the
 * investor's share of them, and the break-even sale price.
 */
module Core {
  import opened Power
  import opened Money
  import opened DealTypes

  /** Months held in total, and the monthly carrying cost rounded to whole dirhams. */
  function ComputeDerived(input: DealInput): (d: DealDerived)
    ensures d.monthsTotal == input.monthsRepair + input.monthsExposure
    ensures IsWhole(d.carryingMonthly)
    ensures input.serviceChargeAnnual / 12.0 + input.dewaMonthly - 0.5 < d.carryingMonthly
    ensures d.carryingMonthly <= input.serviceChargeAnnual / 12.0 + input.dewaMonthly + 0.5
  {
    DealDerived(input.monthsRepair + input.monthsExposure,
                RoundMoney(input.serviceChargeAnnual / 12.0 + input.dewaMonthly))
  }

  /** What is left of a sale price once a fee at `rate` is paid out of it. */
  function AfterFee(salePrice: real, rate: real): real {
    salePrice * (1.0 - rate)
  }

  /** The share of the sale price that goes to the seller's agent, VAT included. */
  function SellerFeeRate(input: DealInput): real {
    ToRate(input.sellerFeePct) * (1.0 + ToRate(input.sellerFeeVatPct))
  }

  /**
   * The costs of the deal before rounding, collected per price they apply to: the
   * purchase price with land department fee, buyer's fee and its VAT; the renovation
   * budget with its reserve; carrying for every month; the trustee fee.
   */
  function GrossCosts(input: DealInput): real {
    var d := ComputeDerived(input);
    input.purchasePrice * (1.0 + (input.dldPct + input.buyerFeePct + input.buyerFeePct * input.buyerFeeVatPct / 100.0) / 100.0)
    + input.renovationBudget * (100.0 + input.reservePct) / 100.0
    + d.carryingMonthly * d.monthsTotal
    + input.trusteeFee
  }

  /** `a / b` when `b` is positive and 0 otherwise, the engine's guarded ratios. */
  function Ratio(a: real, b: real): (r: real)
    ensures b > 0.0 ==> r * b == a
    ensures b <= 0.0 ==> r == 0.0
  {
    if b > 0.0 then a / b else 0.0
  }

  /** Multiplying by a positive factor keeps the sign. */
  lemma ProductSign(x: real, k: real)
    requires k > 0.0
    ensures x * k > 0.0 <==> x > 0.0
    ensures x * k < 0.0 <==> x < 0.0
  {
    if x > 0.0 {
      assert x * k > 0.0;
    } else if x < 0.0 {
      assert x * k < 0.0;
    }
  }

  /** A factor that gives the same product with a non-zero number is the same. */
  lemma CancelFactor(x: real, y: real, k: real)
    requires k != 0.0 && x * k == y * k
    ensures x == y
  {
    assert (x - y) * k == 0.0;
  }

  /** A ratio over a positive base is positive iff its numerator is, above 1 iff a exceeds b. */
  lemma RatioCompare(a: real, b: real)
    requires b > 0.0
    ensures Ratio(a, b) > 0.0 <==> a > 0.0
    ensures Ratio(a, b) > 1.0 <==> a > b
    ensures Ratio(a, b) < 1.0 <==> a < b
    ensures Ratio(a - b, b) == Ratio(a, b) - 1.0
  {
    var r, s := Ratio(a, b), Ratio(a - b, b);
    assert r * b == a && s * b == a - b;
    ProductSign(r, b);
    assert (r - 1.0) * b == a - b;
    ProductSign(r - 1.0, b);
    CancelFactor(s, r - 1.0, b);
  }

  /** The ratio scales with its numerator. */
  lemma RatioScale(a: real, b: real, k: real, r: real)
    requires r == Ratio(a, b)
    ensures Ratio(a * k, b) == r * k
  {
    if b > 0.0 {
      assert r * b == a;
      assert (r * k) * b == a * k;
      CancelFactor(Ratio(a * k, b), r * k, b);
    }
  }

  /**
   * The compound annual rate of a multiple held for `months` months, as the engine
   * computes it: 0 unless both the period and the multiple are positive.
   */
  function AnnualRate(pow: PowFn, multiple: real, months: real): (r: real)
    ensures months > 0.0 && multiple > 0.0 ==> r == CompoundAnnual(pow, multiple, months)
    ensures !(months > 0.0 && multiple > 0.0) ==> r == 0.0
  {
    if months > 0.0 && multiple > 0.0 then pow(multiple, 12.0 / months) - 1.0 else 0.0
  }

  /** The simple (non-compounded) annual rate of a period return, 0 for no period. */
  function SimpleRate(roi: real, months: real): (r: real)
    ensures months > 0.0 ==> r * months == 12.0 * roi
    ensures months <= 0.0 ==> r == 0.0
  {
    if months > 0.0 then roi * 12.0 / months else 0.0
  }

  /** All costs of the deal, paid at the start, rounded to whole dirhams. */
  function TotalCosts(input: DealInput): (t: real)
    ensures t == RoundMoney(GrossCosts(input))
    ensures IsWhole(t)
    ensures GrossCosts(input) - 0.5 < t <= GrossCosts(input) + 0.5
  {
    var d := ComputeDerived(input);
    var carryingTotal := d.carryingMonthly * d.monthsTotal;
    var renovationTotal := input.renovationBudget * (1.0 + ToRate(input.reservePct));
    var dld := input.purchasePrice * ToRate(input.dldPct);
    var buyerFee := input.purchasePrice * ToRate(input.buyerFeePct);
    var buyerFeeVat := buyerFee * ToRate(input.buyerFeeVatPct);
    var exact := input.purchasePrice + dld + buyerFee + buyerFeeVat + renovationTotal + carryingTotal + input.trusteeFee;
    assert exact == GrossCosts(input);
    RoundMoney(exact)
  }

  /**
   * The sale price less the seller's fee and its VAT, rounded to whole dirhams.  The
   * engine subtracts the fee and the VAT on it one after the other;
   * `NetProceedsItemised` shows that this is the same amount.
   */
  function NetProceeds(input: DealInput): (n: real)
    ensures IsWhole(n)
    ensures AfterFee(input.salePrice, SellerFeeRate(input)) - 0.5 < n
    ensures n <= AfterFee(input.salePrice, SellerFeeRate(input)) + 0.5
  {
    RoundMoney(AfterFee(input.salePrice, SellerFeeRate(input)))
  }

  /** The net proceeds, computed the engine's way: the fee, then the VAT on the fee. */
  lemma NetProceedsItemised(input: DealInput)
    ensures NetProceeds(input) == RoundMoney(input.salePrice - input.salePrice * ToRate(input.sellerFeePct)
                                             - input.salePrice * ToRate(input.sellerFeePct) * ToRate(input.sellerFeeVatPct))
  {
    RoundMoneyCongruent(AfterFee(input.salePrice, SellerFeeRate(input)),
                        input.salePrice - input.salePrice * ToRate(input.sellerFeePct)
                        - input.salePrice * ToRate(input.sellerFeePct) * ToRate(input.sellerFeeVatPct));
  }

  /**
   * The whole sale price whose net proceeds come nearest the costs, when the costs are
   * positive and the seller's fee is below 100%; 0 otherwise.
   */
  function BreakEvenPrice(costs: real, rate: real): (b: real)
    ensures costs > 0.0 && rate < 1.0 ==>
      IsWhole(b) && costs - 0.5 * (1.0 - rate) < b * (1.0 - rate) <= costs + 0.5 * (1.0 - rate)
    ensures !(costs > 0.0 && rate < 1.0) ==> b == 0.0
  {
    if costs > 0.0 && rate < 1.0 then
      RoundedQuotientWindow(costs, 1.0 - rate);
      RoundMoney(costs / (1.0 - rate))
    else 0.0
  }

  /** Rounding `c / k` to whole dirhams moves `k` times it by at most `k / 2`. */
  lemma RoundedQuotientWindow(c: real, k: real)
    requires k > 0.0
    ensures c - 0.5 * k < RoundMoney(c / k) * k <= c + 0.5 * k
  {
    var q := c / k;
    assert q * k == c;
    ScaledRounding(c, k, q, RoundMoney(q));
  }

  /** A value within half of `q`, scaled by `k`, is within `k / 2` of `q * k`. */
  lemma ScaledRounding(c: real, k: real, q: real, r: real)
    requires k > 0.0 && q * k == c && q - 0.5 < r <= q + 0.5
    ensures c - 0.5 * k < r * k <= c + 0.5 * k
  {
    var d := r - q;
    ScaleWindow(d, k);
    assert r * k == c + d * k;
  }

  /** A rounding error in (-1/2, 1/2] scaled by a positive factor. */
  lemma ScaleWindow(delta: real, k: real)
    requires -0.5 < delta <= 0.5 && k > 0.0
    ensures -0.5 * k < delta * k <= 0.5 * k
  {
  }

  /**
   * What the investor's metrics rely on in the project's: the profit as the difference
   * of proceeds and costs, the multiple and the period return as ratios to
   * the costs, and the annual rate of that multiple.
   */
  predicate ProjectReconciles(input: DealInput, pow: PowFn, p: DealOutputsProject) {
    && p.profit == p.netProceeds - p.totalCosts
    && p.moic == Ratio(p.netProceeds, p.totalCosts)
    && p.roiPeriod == Ratio(p.profit, p.totalCosts)
    && p.irrAnnual == AnnualRate(pow, p.moic, ComputeDerived(input).monthsTotal)
  }

  /**
   * What the properties of the investor's metrics rely on: the period return is the
   * investor's share of the profit relative to the costs, the multiple is the costs
   * plus that share relative to the costs, and the annual rate is that multiple's.
   */
  predicate InvestorReconciles(input: DealInput, pow: PowFn, p: DealOutputsProject, r: DealOutputsInvestor) {
    var share := p.profit * ToRate(input.investorProfitSharePct);
    && r.roiPeriod == Ratio(share, p.totalCosts)
    && r.moic == Ratio(p.totalCosts + share, p.totalCosts)
    && r.irrAnnual == AnnualRate(pow, r.moic, ComputeDerived(input).monthsTotal)
  }

  /** The project metrics of one deal. */
  function ComputeProject(input: DealInput, pow: PowFn): (p: DealOutputsProject)
    // costs and proceeds are whole dirhams, each the nearest to its exact amount
    ensures IsWhole(p.totalCosts) && IsWhole(p.netProceeds)
    ensures GrossCosts(input) - 0.5 < p.totalCosts <= GrossCosts(input) + 0.5
    ensures AfterFee(input.salePrice, SellerFeeRate(input)) - 0.5 < p.netProceeds
    ensures p.netProceeds <= AfterFee(input.salePrice, SellerFeeRate(input)) + 0.5
    ensures p.totalCosts == TotalCosts(input) && p.netProceeds == NetProceeds(input)
    ensures p.profit == p.netProceeds - p.totalCosts
    // the multiple and the period return are relative to the costs, and 0 without costs
    ensures ProjectReconciles(input, pow, p)
    ensures p.totalCosts > 0.0 ==> p.roiPeriod == p.moic - 1.0
    ensures p.totalCosts <= 0.0 ==> p.roiPeriod == 0.0
    // the compound annual rate needs a period, costs and proceeds; the simple one a period
    ensures ComputeDerived(input).monthsTotal > 0.0 && p.totalCosts > 0.0 && p.netProceeds > 0.0 ==>
      p.irrAnnual == CompoundAnnual(pow, p.moic, ComputeDerived(input).monthsTotal)
    ensures !(ComputeDerived(input).monthsTotal > 0.0 && p.totalCosts > 0.0 && p.netProceeds > 0.0) ==>
      p.irrAnnual == 0.0
    ensures p.aprSimple == SimpleRate(p.roiPeriod, ComputeDerived(input).monthsTotal)
    // the break-even price is the whole sale price whose net proceeds are nearest the costs
    ensures p.breakEvenSalePrice == BreakEvenPrice(p.totalCosts, SellerFeeRate(input))
    ensures p.breakEvenGapAbs + p.breakEvenSalePrice == input.salePrice
    ensures p.breakEvenGapPctOfPrice == Ratio(p.breakEvenGapAbs, input.salePrice)
  {
    var months := ComputeDerived(input).monthsTotal;
    var totalCosts := TotalCosts(input);
    var netProceeds := NetProceeds(input);
    var moic := Ratio(netProceeds, totalCosts);
    var roiPeriod := Ratio(netProceeds - totalCosts, totalCosts);
    assert totalCosts > 0.0 ==> roiPeriod == moic - 1.0 && (moic > 0.0 <==> netProceeds > 0.0) by {
      if totalCosts > 0.0 {
        RatioCompare(netProceeds, totalCosts);
      }
    }
    var breakEven := BreakEvenPrice(totalCosts, SellerFeeRate(input));
    DealOutputsProject(totalCosts, netProceeds, netProceeds - totalCosts, moic, roiPeriod,
                       AnnualRate(pow, moic, months), SimpleRate(roiPeriod, months),
                       breakEven, input.salePrice - breakEven, Ratio(input.salePrice - breakEven, input.salePrice))
  }

  /** The investor's metrics, from the project's. */
  function ComputeInvestor(input: DealInput, project: DealOutputsProject, pow: PowFn): (r: DealOutputsInvestor)
    ensures r.capital == RoundMoney(project.totalCosts)
    ensures IsWhole(r.profitShare)
    ensures project.profit * ToRate(input.investorProfitSharePct) - 0.5 < r.profitShare
    ensures r.profitShare <= project.profit * ToRate(input.investorProfitSharePct) + 0.5
    // with whole costs, what comes back is the capital plus the share of the profit
    ensures IsWhole(project.totalCosts) ==> r.capital == project.totalCosts && r.cashBack == r.capital + r.profitShare
    ensures r.roiPeriod == Ratio(project.profit * ToRate(input.investorProfitSharePct), project.totalCosts)
    ensures project.totalCosts > 0.0 ==> r.moic == 1.0 + r.roiPeriod
    ensures project.totalCosts <= 0.0 ==> r.moic == 0.0 && r.roiPeriod == 0.0
    ensures ComputeDerived(input).monthsTotal > 0.0 && r.moic > 0.0 ==>
      r.irrAnnual == CompoundAnnual(pow, r.moic, ComputeDerived(input).monthsTotal)
    ensures !(ComputeDerived(input).monthsTotal > 0.0 && r.moic > 0.0) ==> r.irrAnnual == 0.0
    ensures InvestorReconciles(input, pow, project, r)
  {
    var capital := project.totalCosts;
    var profitShare := project.profit * ToRate(input.investorProfitSharePct);
    var cashBack := capital + profitShare;
    var moic := Ratio(cashBack, capital);
    var roiPeriod := Ratio(profitShare, capital);
    ReturnOnCapital(capital, profitShare);
    RoundMoneyAddWhole(capital, profitShare);
    DealOutputsInvestor(RoundMoney(capital), RoundMoney(profitShare), RoundMoney(cashBack), moic, roiPeriod,
                        AnnualRate(pow, moic, ComputeDerived(input).monthsTotal))
  }

  /** What comes back on a capital is 1 plus the return on it, whenever there is capital. */
  lemma ReturnOnCapital(capital: real, gain: real)
    ensures capital > 0.0 ==> Ratio(capital + gain, capital) == 1.0 + Ratio(gain, capital)
  {
    if capital > 0.0 {
      RatioCompare(capital + gain, capital);
      assert capital + gain - capital == gain;
    }
  }

  /** Rounding after adding whole costs is adding them after rounding. */
  lemma RoundMoneyAddWhole(capital: real, gain: real)
    ensures IsWhole(capital) ==> RoundMoney(capital) == capital && RoundMoney(capital + gain) == capital + RoundMoney(gain)
  {
    if IsWhole(capital) {
      RoundMoneyOfWhole(capital);
      RoundMoneyShift(gain, capital);
      assert gain + capital == capital + gain;
    }
  }

  // ---------------------------------------------------------------------------------
  // Properties of the metrics

  /** Two whole numbers less than 1 apart are equal. */
  lemma WholeClose(x: real, y: real)
    requires IsWhole(x) && IsWhole(y) && x - 1.0 < y < x + 1.0
    ensures x == y
  {
    assert x.Floor - 1 < y.Floor < x.Floor + 1;
  }

  /**
   * At the break-even price, the only whole amount within half a dirham of the net
   * sale value is the costs themselves.
   */
  lemma BreakEvenNetIsCosts(costs: real, rate: real, n: real)
    requires IsWhole(costs) && costs > 0.0 && 0.0 <= rate < 1.0
    requires IsWhole(n)
    requires BreakEvenPrice(costs, rate) * (1.0 - rate) - 0.5 < n <= BreakEvenPrice(costs, rate) * (1.0 - rate) + 0.5
    ensures n == costs
  {
    var b := BreakEvenPrice(costs, rate);
    if rate == 0.0 {
      assert b * (1.0 - rate) == b;
      WholeClose(costs, b);
    } else {
      assert 0.5 * (1.0 - rate) < 0.5;
    }
    WholeClose(costs, n);
  }

  /**
   * Selling at the break-even price makes the profit exactly zero: the sale price does
   * not enter the costs, and the rounding error of the price, scaled by the net share
   * 1 - rate, stays below half a dirham.
   */
  lemma BreakEvenIsFixedPoint(input: DealInput, pow: PowFn)
    requires 0.0 <= SellerFeeRate(input) < 1.0
    requires TotalCosts(input) > 0.0
    ensures ComputeProject(input.(salePrice := ComputeProject(input, pow).breakEvenSalePrice), pow).profit == 0.0
  {
    var costs := TotalCosts(input);
    var sale := BreakEvenPrice(costs, SellerFeeRate(input));
    var moved := input.(salePrice := sale);
    assert GrossCosts(moved) == GrossCosts(input);
    RoundMoneyUnique(GrossCosts(input), costs);
    RoundMoneyUnique(GrossCosts(input), TotalCosts(moved));
    assert SellerFeeRate(moved) == SellerFeeRate(input);
    BreakEvenNetIsCosts(costs, SellerFeeRate(input), NetProceeds(moved));
  }

  /** The engine's annual rate has the sign of the gain for a positive multiple. */
  lemma AnnualRateSign(pow: PowFn, multiple: real, months: real)
    requires IsPow(pow)
    requires multiple > 0.0 && months > 0.0
    ensures AnnualRate(pow, multiple, months) > 0.0 <==> multiple > 1.0
    ensures AnnualRate(pow, multiple, months) < 0.0 <==> multiple < 1.0
  {
    CompoundAnnualSign(pow, multiple, months);
  }

  /** A larger positive multiple over the same period never gives a lower annual rate. */
  lemma AnnualRateMonotone(pow: PowFn, low: real, high: real, months: real)
    requires IsPow(pow)
    requires 0.0 < low <= high && months > 0.0
    ensures AnnualRate(pow, low, months) <= AnnualRate(pow, high, months)
  {
    PowMonotoneInBase(pow, low, high, 12.0 / months);
  }

  /** With costs and positive proceeds, the annual rate has the sign of the profit. */
  lemma IrrSignFollowsProfit(input: DealInput, pow: PowFn)
    requires IsPow(pow)
    requires ComputeDerived(input).monthsTotal > 0.0
    requires TotalCosts(input) > 0.0 && NetProceeds(input) > 0.0
    ensures ComputeProject(input, pow).irrAnnual < 0.0 <==> ComputeProject(input, pow).profit < 0.0
    ensures ComputeProject(input, pow).irrAnnual > 0.0 <==> ComputeProject(input, pow).profit > 0.0
  {
    var t, n := TotalCosts(input), NetProceeds(input);
    RatioCompare(n, t);
    AnnualRateSign(pow, Ratio(n, t), ComputeDerived(input).monthsTotal);
  }

  /** The investor's period return is the project's scaled by the investor's share. */
  lemma InvestorReturnIsShareOfProject(input: DealInput, pow: PowFn, p: DealOutputsProject, r: DealOutputsInvestor)
    requires ProjectReconciles(input, pow, p) && InvestorReconciles(input, pow, p, r)
    ensures r.roiPeriod == p.roiPeriod * ToRate(input.investorProfitSharePct)
  {
    RatioScale(p.profit, p.totalCosts, ToRate(input.investorProfitSharePct), p.roiPeriod);
  }

  /** An investor who takes the whole profit sees the project's own metrics. */
  lemma InvestorTakingAllMatchesProject(input: DealInput, pow: PowFn, p: DealOutputsProject)
    requires ProjectReconciles(input, pow, p) && IsWhole(p.totalCosts) && IsWhole(p.netProceeds)
    requires input.investorProfitSharePct == 100.0
    ensures
      var r := ComputeInvestor(input, p, pow);
      r.capital == p.totalCosts && r.cashBack == p.netProceeds && r.profitShare == p.profit
      && r.moic == p.moic && r.roiPeriod == p.roiPeriod && r.irrAnnual == p.irrAnnual
  {
    assert ToRate(input.investorProfitSharePct) == 1.0;
    assert p.profit * 1.0 == p.profit;
    assert p.totalCosts + p.profit == p.netProceeds;
    WholeArith(p.netProceeds, p.totalCosts);
    RoundMoneyOfWhole(p.profit);
  }

  /**
   * For a profitable deal, an investor's share of at most 100% gives an annual rate no
   * higher than the project's.
   */
  lemma InvestorIrrAtMostProject(input: DealInput, pow: PowFn, p: DealOutputsProject, r: DealOutputsInvestor)
    requires IsPow(pow)
    requires ProjectReconciles(input, pow, p) && InvestorReconciles(input, pow, p, r)
    requires 0.0 <= input.investorProfitSharePct <= 100.0
    requires ComputeDerived(input).monthsTotal > 0.0
    requires p.totalCosts > 0.0 && p.profit >= 0.0
    ensures r.irrAnnual <= p.irrAnnual
  {
    InvestorMultipleAtMost(p.totalCosts, p.profit, ToRate(input.investorProfitSharePct));
    assert p.moic == Ratio(p.totalCosts + p.profit, p.totalCosts);
    AnnualRateMonotone(pow, r.moic, p.moic, ComputeDerived(input).monthsTotal);
  }

  /** Taking a share k in [0, 1] of a gain gives a multiple between 1 and the whole one. */
  lemma InvestorMultipleAtMost(t: real, gain: real, k: real)
    requires t > 0.0 && gain >= 0.0 && 0.0 <= k <= 1.0
    ensures 1.0 <= Ratio(t + gain * k, t) <= Ratio(t + gain, t)
  {
    var share := gain * k;
    ScaleDown(gain, k);
    RatioMonotone(t + share, t + gain, t);
    RatioMonotone(t, t + share, t);
    assert Ratio(t, t) == 1.0 by {
      assert Ratio(t, t) * t == 1.0 * t;
      CancelFactor(Ratio(t, t), 1.0, t);
    }
  }

  /** A share between 0 and 1 of a non-negative amount lies between 0 and the amount. */
  lemma ScaleDown(x: real, k: real)
    requires x >= 0.0 && 0.0 <= k <= 1.0
    ensures 0.0 <= x * k <= x
  {
    assert x * (1.0 - k) >= 0.0;
  }

  /** Over a positive base, the ratio grows with the numerator. */
  lemma RatioMonotone(a1: real, a2: real, b: real)
    requires a1 <= a2 && b > 0.0
    ensures Ratio(a1, b) <= Ratio(a2, b)
  {
    var r1, r2 := Ratio(a1, b), Ratio(a2, b);
    assert (r2 - r1) * b == a2 - a1;
    ProductSign(r2 - r1, b);
  }

  // ---------------------------------------------------------------------------------
  // The reference deal of the engine's tests

  /** A resale flat bought for 1,390,000 AED and sold six months later for 2,300,000 AED. */
  function ReferenceDeal(): DealInput {
    DealInput(Secondary, 1390000.0, 4.0, 2.0, 5.0, 5000.0, Wrappers.None, Wrappers.None,
              250000.0, 15.0, 6000.0, 500.0, 2300000.0, 4.0, 5.0, 2.0, 4.0, 50.0, 50.0)
  }

  lemma ReferenceDealCosts(pow: PowFn)
    ensures ComputeProject(ReferenceDeal(), pow).totalCosts == 1773290.0
    ensures ComputeProject(ReferenceDeal(), pow).netProceeds == 2203400.0
    ensures ComputeProject(ReferenceDeal(), pow).profit == 430110.0
  {
    var input := ReferenceDeal();
    RoundMoneyOfWhole(1000.0);
    assert ComputeDerived(input) == DealDerived(6.0, 1000.0);
    assert GrossCosts(input) == 1773290.0;
    RoundMoneyUnique(GrossCosts(input), 1773290.0);
    assert SellerFeeRate(input) == 0.042;
    RoundMoneyUnique(2300000.0 * (1.0 - 0.042), 2203400.0);
  }

  lemma ReferenceDealBreakEven(pow: PowFn)
    ensures ComputeProject(ReferenceDeal(), pow).breakEvenSalePrice == 1851033.0
    ensures ComputeInvestor(ReferenceDeal(), ComputeProject(ReferenceDeal(), pow), pow).profitShare == 215055.0
  {
    var input := ReferenceDeal();
    ReferenceDealCosts(pow);
    assert SellerFeeRate(input) == 0.042;
    RoundMoneyUnique(1773290.0 / (1.0 - 0.042), 1851033.0);
    RoundMoneyOfWhole(215055.0);
  }

  /** Selling the reference flat for 1,500,000 AED loses money and the annual rate is negative. */
  lemma ReferenceDealAtLoss(pow: PowFn)
    requires IsPow(pow)
    ensures ComputeProject(ReferenceDeal().(salePrice := 1500000.0), pow).profit < 0.0
    ensures ComputeProject(ReferenceDeal().(salePrice := 1500000.0), pow).irrAnnual < 0.0
  {
    var input := ReferenceDeal().(salePrice := 1500000.0);
    RoundMoneyOfWhole(1000.0);
    assert ComputeDerived(input) == DealDerived(6.0, 1000.0);
    assert GrossCosts(input) == 1773290.0;
    RoundMoneyUnique(GrossCosts(input), 1773290.0);
    assert SellerFeeRate(input) == 0.042;
    RoundMoneyUnique(1500000.0 * (1.0 - 0.042), 1437000.0);
    IrrSignFollowsProfit(input, pow);
  }
}
