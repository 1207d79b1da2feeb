/**
 * The older single-page flip calculator: its own deal arithmetic, kept apart from the
 * engine in `Core`.  VAT on both commissions is fixed at 5%, nothing is rounded, the
 * investor shares only a positive profit, and the break-even division has no guard.
 */
module FlipCalculator {
  import opened Power
  import opened Money
  import opened JsNumber

  /** The page's parameters that the calculations read (amounts in AED, rates in percent). */
  datatype Params = Params(
    purchasePrice: real,
    sellingPrice: real,
    dldFees: real,
    buyerCommission: real,
    sellerCommission: real,
    renovationBudget: real,
    contingency: real,
    renovationMonths: real,
    listingMonths: real,
    serviceChargeYearly: real,
    dewaAcMonthly: real,
    trusteeOfficeFee: real,
    targetReturn: real,
    profitSplit: real)

  datatype Costs = Costs(
    purchase: real,
    dld: real,
    buyerCommission: real,
    buyerCommissionVAT: real,
    buyerCommissionTotal: real,
    renovation: real,
    serviceCharge: real,
    dewaAc: real,
    trusteeOfficeFee: real,
    total: real)

  datatype Revenue = Revenue(
    sellingPrice: real,
    sellerCommission: real,
    sellerCommissionVAT: real,
    sellerCommissionTotal: real,
    net: real)

  datatype ProfitMetrics = ProfitMetrics(net: real, roi: real, irr: real)

  datatype Distribution = Distribution(
    investorCapital: real,
    investorProfit: real,
    investorTotal: real,
    operatorProfit: real,
    operatorTotal: real)

  datatype Calculations = Calculations(
    costs: Costs,
    revenue: Revenue,
    profit: ProfitMetrics,
    distribution: Distribution,
    breakEven: Num,
    totalMonths: real)

  /** The VAT rate the page applies to every commission. */
  const Vat := 0.05

  /** What is left of `price` after the seller's commission and its VAT. */
  function NetOfCommission(sellerCommission: real, price: real): real {
    var commission := price * (sellerCommission / 100.0);
    price - (commission + commission * Vat)
  }

  /** The share of the price that commission and VAT leave: 1 − 1.05 × commission. */
  function NetShare(sellerCommission: real): real {
    1.0 - (sellerCommission / 100.0) * 1.05
  }

  lemma NetOfCommissionIsShare(sellerCommission: real, price: real)
    ensures NetOfCommission(sellerCommission, price) == price * NetShare(sellerCommission)
  {
    var k := sellerCommission / 100.0;
    assert price * k + price * k * Vat == price * (k * 1.05);
  }

  /** A percentage of a positive cost, multiplied back by the cost, is 100 times the amount. */
  lemma PercentOfCost(amount: real, cost: real)
    ensures cost > 0.0 ==> (amount / cost) * 100.0 * cost == 100.0 * amount
  {
    if cost > 0.0 {
      var q := amount / cost;
      assert q * cost == amount;
    }
  }

  /** `Math.max(0, x)` on a finite number. */
  function Max0(x: real): (m: real)
    ensures m >= 0.0 && m >= x && (m == 0.0 || m == x)
  {
    if x > 0.0 then x else 0.0
  }

  /** The `calculations` memo. */
  function Calculate(p: Params, pow: PowFn): (c: Calculations)
    ensures c.totalMonths == p.renovationMonths + p.listingMonths
    ensures c.revenue.net == NetOfCommission(p.sellerCommission, p.sellingPrice)
    ensures c.profit.net == c.revenue.net - c.costs.total
    ensures c.costs.renovation == p.renovationBudget * (1.0 + p.contingency / 100.0)
    ensures c.costs.total <= 0.0 ==> c.profit.roi == 0.0
    ensures c.costs.total > 0.0 ==> c.profit.roi * c.costs.total == 100.0 * c.profit.net
    ensures c.totalMonths > 0.0 && c.costs.total > 0.0 && c.revenue.net > 0.0 ==>
      c.profit.irr == 100.0 * CompoundAnnual(pow, c.revenue.net / c.costs.total, c.totalMonths)
    ensures !(c.totalMonths > 0.0 && c.costs.total > 0.0 && c.revenue.net > 0.0) ==> c.profit.irr == 0.0
    ensures c.distribution.investorProfit + c.distribution.operatorProfit == Max0(c.profit.net)
    ensures c.distribution.investorProfit == Max0(c.profit.net) * (p.profitSplit / 100.0)
    ensures c.distribution.investorCapital == c.costs.total
    ensures c.distribution.investorTotal == c.costs.total + c.distribution.investorProfit
    ensures c.distribution.operatorTotal == c.distribution.operatorProfit
    ensures c.breakEven.Finite? <==> NetShare(p.sellerCommission) != 0.0
    ensures Reconciles(p, c)
  {
    var dldAmount := p.purchasePrice * (p.dldFees / 100.0);
    var buyerCommissionAmount := p.purchasePrice * (p.buyerCommission / 100.0);
    var buyerCommissionVAT := buyerCommissionAmount * Vat;
    var buyerCommissionTotal := buyerCommissionAmount + buyerCommissionVAT;

    var contingencyAmount := p.renovationBudget * (p.contingency / 100.0);
    var totalRenovation := p.renovationBudget + contingencyAmount;

    var totalMonths := p.renovationMonths + p.listingMonths;
    var serviceChargeMonthly := p.serviceChargeYearly / 12.0;
    var carryingService := serviceChargeMonthly * totalMonths;
    var carryingDewa := p.dewaAcMonthly * totalMonths;
    var buyClosingFees := p.trusteeOfficeFee;

    var totalCosts := p.purchasePrice + dldAmount + buyerCommissionTotal + totalRenovation
                      + carryingService + carryingDewa + buyClosingFees;

    var sellerCommissionAmount := p.sellingPrice * (p.sellerCommission / 100.0);
    var sellerCommissionVAT := sellerCommissionAmount * Vat;
    var sellerCommissionTotal := sellerCommissionAmount + sellerCommissionVAT;
    var revenueNet := p.sellingPrice - sellerCommissionTotal;

    var netProfit := revenueNet - totalCosts;
    var roi := if totalCosts > 0.0 then (netProfit / totalCosts) * 100.0 else 0.0;
    var irr := if totalMonths > 0.0 && totalCosts > 0.0 && revenueNet > 0.0
               then (pow(revenueNet / totalCosts, 12.0 / totalMonths) - 1.0) * 100.0
               else 0.0;

    var remainingProfit := Max0(netProfit);
    var investorProfitShare := remainingProfit * (p.profitSplit / 100.0);
    var operatorProfitShare := remainingProfit - investorProfitShare;

    var breakEvenPrice := Div(Finite(totalCosts), Finite(1.0 - (p.sellerCommission / 100.0) * 1.05));

    assert revenueNet == NetOfCommission(p.sellerCommission, p.sellingPrice);
    assert totalRenovation == p.renovationBudget * (1.0 + p.contingency / 100.0);
    PercentOfCost(netProfit, totalCosts);
    Calculations(
      Costs(p.purchasePrice, dldAmount, buyerCommissionAmount, buyerCommissionVAT, buyerCommissionTotal,
            totalRenovation, carryingService, carryingDewa, buyClosingFees, totalCosts),
      Revenue(p.sellingPrice, sellerCommissionAmount, sellerCommissionVAT, sellerCommissionTotal, revenueNet),
      ProfitMetrics(netProfit, roi, irr),
      Distribution(totalCosts, investorProfitShare, totalCosts + investorProfitShare,
                   operatorProfitShare, operatorProfitShare),
      breakEvenPrice,
      totalMonths)
  }

  /** The total cost collected by kind: 5% VAT on the buyer's commission, carrying costs per month. */
  lemma TotalCostsCollected(p: Params, pow: PowFn)
    ensures Calculate(p, pow).costs.total ==
      p.purchasePrice
      + p.purchasePrice * (p.dldFees / 100.0)
      + 1.05 * (p.purchasePrice * (p.buyerCommission / 100.0))
      + p.renovationBudget * (1.0 + p.contingency / 100.0)
      + (p.serviceChargeYearly / 12.0 + p.dewaAcMonthly) * (p.renovationMonths + p.listingMonths)
      + p.trusteeOfficeFee
  {
    var c := Calculate(p, pow);
    var m := p.renovationMonths + p.listingMonths;
    assert c.costs.serviceCharge + c.costs.dewaAc == (p.serviceChargeYearly / 12.0 + p.dewaAcMonthly) * m;
    assert c.costs.renovation == p.renovationBudget * (1.0 + p.contingency / 100.0);
  }

  /** Selling at a price that nets `x` after commission: `x / NetShare`, undone by `NetOfCommission`. */
  lemma NetOfQuotient(sellerCommission: real, x: real)
    requires NetShare(sellerCommission) != 0.0
    ensures NetOfCommission(sellerCommission, x / NetShare(sellerCommission)) == x
  {
    var d := NetShare(sellerCommission);
    NetOfCommissionIsShare(sellerCommission, x / d);
    assert (x / d) * d == x;
  }

  /** Where the break-even price is a number, selling at it nets exactly the total cost. */
  lemma BreakEvenRecoversCosts(p: Params, pow: PowFn)
    requires Calculate(p, pow).breakEven.Finite?
    ensures NetOfCommission(p.sellerCommission, Calculate(p, pow).breakEven.v) == Calculate(p, pow).costs.total
  {
    var c := Calculate(p, pow);
    assert c.breakEven.v == c.costs.total / NetShare(p.sellerCommission);
    NetOfQuotient(p.sellerCommission, c.costs.total);
  }

  /** With a percentage split in 0..100 neither party's profit share is negative. */
  lemma SharesNonNegative(p: Params, pow: PowFn)
    requires 0.0 <= p.profitSplit <= 100.0
    ensures Calculate(p, pow).distribution.investorProfit >= 0.0
    ensures Calculate(p, pow).distribution.operatorProfit >= 0.0
  {
    var c := Calculate(p, pow);
    var m := Max0(c.profit.net);
    var k := p.profitSplit / 100.0;
    assert c.distribution.investorProfit == m * k;
    assert m * k <= m * 1.0;
  }

  /** A loss leaves the investor with the capital back and nothing more. */
  lemma LossIsNotShared(p: Params, pow: PowFn)
    requires Calculate(p, pow).profit.net <= 0.0
    ensures Calculate(p, pow).distribution.investorProfit == 0.0
    ensures Calculate(p, pow).distribution.operatorProfit == 0.0
    ensures Calculate(p, pow).distribution.investorTotal == Calculate(p, pow).costs.total
  {
  }

  /** When the annual rate is computed, it is positive exactly when the deal makes a profit. */
  lemma IrrSignFollowsProfit(p: Params, pow: PowFn)
    requires IsPow(pow)
    requires Calculate(p, pow).totalMonths > 0.0 && Calculate(p, pow).costs.total > 0.0
    requires Calculate(p, pow).revenue.net > 0.0
    ensures Calculate(p, pow).profit.irr > 0.0 <==> Calculate(p, pow).profit.net > 0.0
  {
    var c := Calculate(p, pow);
    var multiple := c.revenue.net / c.costs.total;
    assert c.profit.irr == 100.0 * CompoundAnnual(pow, multiple, c.totalMonths);
    CompoundAnnualSign(pow, multiple, c.totalMonths);
    QuotientAboveOne(c.revenue.net, c.costs.total);
  }

  lemma QuotientAboveOne(a: real, b: real)
    requires b > 0.0
    ensures a / b > 1.0 <==> a > b
  {
    assert (a / b) * b == a;
    if a / b > 1.0 {
      assert (a / b) * b > 1.0 * b;
    }
    if a > b {
      assert a / b > b / b;
    }
  }

  /** The facts about a `Calculations` record the sensitivity table relies on. */
  predicate Reconciles(p: Params, c: Calculations) {
    && c.revenue.net == NetOfCommission(p.sellerCommission, p.sellingPrice)
    && c.profit.net == c.revenue.net - c.costs.total
    && c.costs.renovation == p.renovationBudget * (1.0 + p.contingency / 100.0)
  }

  // ---------------------------------------------------------------------------------
  // The ±10% table

  datatype SensitivityRow = SensitivityRow(variation: string, priceChange: real, renoChange: real)

  function Variations(): seq<int> {
    [-10, -5, 0, 5, 10]
  }

  /** The row label: an explicit "+" on increases, then the percentage. */
  function VariationLabel(pct: int): (s: string)
    ensures |s| >= 2 && s[|s| - 1] == '%'
  {
    var sign := if pct > 0 then "+" else "";
    sign + IntText(pct) + "%"
  }

  /** The profit with the sale price moved by `pct` percent and every cost held. */
  function PriceVariedProfit(p: Params, c: Calculations, pct: int): real {
    var priceVar := p.sellingPrice * (1.0 + pct as real / 100.0);
    var sellerCommAmt := priceVar * (p.sellerCommission / 100.0);
    var sellerCommVAT := sellerCommAmt * Vat;
    var sellerCommTotal := sellerCommAmt + sellerCommVAT;
    var revenue1 := priceVar - sellerCommTotal;
    revenue1 - c.costs.total
  }

  /** The profit with the renovation budget moved by `pct` percent and the revenue held. */
  function RenovationVariedProfit(p: Params, c: Calculations, pct: int): real {
    var renoVar := p.renovationBudget * (1.0 + pct as real / 100.0);
    var contingencyVar := renoVar * (p.contingency / 100.0);
    var totalRenoVar := renoVar + contingencyVar;
    var costsVar := c.costs.total - c.costs.renovation + totalRenoVar;
    c.revenue.net - costsVar
  }

  /**
   * One row of the table: the profit at the price moved by `pct` percent with the costs
   * held, and the profit at the budget moved by `pct` percent with the revenue held.
   */
  function SensitivityRowAt(p: Params, c: Calculations, pct: int): (row: SensitivityRow)
    ensures row.variation == VariationLabel(pct)
    ensures row.priceChange == NetOfCommission(p.sellerCommission, p.sellingPrice * (1.0 + pct as real / 100.0)) - c.costs.total
    ensures row.renoChange == c.revenue.net - (c.costs.total - c.costs.renovation
      + p.renovationBudget * (1.0 + pct as real / 100.0) * (1.0 + p.contingency / 100.0))
  {
    var f := pct as real / 100.0;
    var renoVar := p.renovationBudget * (1.0 + f);
    assert renoVar + renoVar * (p.contingency / 100.0) == renoVar * (1.0 + p.contingency / 100.0);
    SensitivityRow(VariationLabel(pct), PriceVariedProfit(p, c, pct), RenovationVariedProfit(p, c, pct))
  }

  /** The `sensitivityData` memo: one row per variation. */
  function SensitivityData(p: Params, c: Calculations): (rows: seq<SensitivityRow>)
    ensures |rows| == |Variations()| == 5
  {
    seq(|Variations()|, i requires 0 <= i < |Variations()| => SensitivityRowAt(p, c, Variations()[i]))
  }

  /**
   * Each row moves the base profit linearly: the price row by the added price net of
   * commission, the renovation row by the added budget with its contingency.
   */
  lemma SensitivityRowShift(p: Params, c: Calculations, pct: int)
    requires Reconciles(p, c)
    ensures var row := SensitivityRowAt(p, c, pct);
      && row.priceChange == c.profit.net + PriceStep(p, pct as real / 100.0)
      && row.renoChange == c.profit.net - RenovationStep(p, pct as real / 100.0)
  {
    PriceVariedShift(p, c, pct);
    RenovationVariedShift(p, c, pct);
  }

  lemma PriceVariedShift(p: Params, c: Calculations, pct: int)
    requires Reconciles(p, c)
    ensures PriceVariedProfit(p, c, pct) == c.profit.net + PriceStep(p, pct as real / 100.0)
  {
    var f := pct as real / 100.0;
    assert PriceVariedProfit(p, c, pct) == NetOfCommission(p.sellerCommission, p.sellingPrice * (1.0 + f)) - c.costs.total;
    PriceShift(p, f);
  }

  lemma RenovationVariedShift(p: Params, c: Calculations, pct: int)
    requires Reconciles(p, c)
    ensures RenovationVariedProfit(p, c, pct) == c.profit.net - RenovationStep(p, pct as real / 100.0)
  {
    var f := pct as real / 100.0;
    var renoVar := p.renovationBudget * (1.0 + f);
    assert RenovationVariedProfit(p, c, pct)
        == c.revenue.net - (c.costs.total - c.costs.renovation + (renoVar + renoVar * (p.contingency / 100.0)));
    RenovationShift(p, f);
  }

  lemma PriceShift(p: Params, f: real)
    ensures NetOfCommission(p.sellerCommission, p.sellingPrice * (1.0 + f))
         == NetOfCommission(p.sellerCommission, p.sellingPrice) + PriceStep(p, f)
  {
    NetOfCommissionIsShare(p.sellerCommission, p.sellingPrice * (1.0 + f));
    NetOfCommissionIsShare(p.sellerCommission, p.sellingPrice);
    Distribute(p.sellingPrice, f, NetShare(p.sellerCommission));
  }

  lemma RenovationShift(p: Params, f: real)
    ensures var renoVar := p.renovationBudget * (1.0 + f);
      renoVar + renoVar * (p.contingency / 100.0)
      == p.renovationBudget * (1.0 + p.contingency / 100.0) + RenovationStep(p, f)
  {
    var k := p.contingency / 100.0;
    var renoVar := p.renovationBudget * (1.0 + f);
    assert renoVar + renoVar * k == renoVar * (1.0 + k);
    Distribute(p.renovationBudget, f, 1.0 + k);
  }

  /** What a price change of fraction `f` adds to the profit. */
  function PriceStep(p: Params, f: real): real {
    (p.sellingPrice * NetShare(p.sellerCommission)) * f
  }

  /** What a renovation change of fraction `f` takes from the profit. */
  function RenovationStep(p: Params, f: real): real {
    (p.renovationBudget * (1.0 + p.contingency / 100.0)) * f
  }

  lemma Distribute(a: real, f: real, k: real)
    ensures (a * (1.0 + f)) * k == a * k + (a * k) * f
  {
  }

  /** The 0% row reproduces the base profit in both columns. */
  lemma SensitivityAnchor(p: Params, pow: PowFn)
    ensures var rows := SensitivityData(p, Calculate(p, pow));
      rows[2].priceChange == rows[2].renoChange == Calculate(p, pow).profit.net
  {
    var c := Calculate(p, pow);
    SensitivityRowShift(p, c, 0);
    assert SensitivityData(p, c)[2] == SensitivityRowAt(p, c, 0);
  }

  lemma SensitivityLabels(p: Params, c: Calculations)
    ensures var rows := SensitivityData(p, c);
      rows[0].variation == "-10%" && rows[1].variation == "-5%" && rows[2].variation == "0%"
      && rows[3].variation == "+5%" && rows[4].variation == "+10%"
  {
    assert Digits(10) == "10";
  }

  /**
   * Down the table the price column never falls while commission leaves something of the
   * price, and the renovation column never rises while the contingency is not below -100%.
   */
  lemma SensitivityOrdered(p: Params, c: Calculations, i: nat, j: nat)
    requires Reconciles(p, c) && i <= j < 5
    requires p.sellingPrice >= 0.0 && NetShare(p.sellerCommission) >= 0.0
    requires p.renovationBudget >= 0.0 && p.contingency >= -100.0
    ensures var rows := SensitivityData(p, c);
      rows[i].priceChange <= rows[j].priceChange && rows[j].renoChange <= rows[i].renoChange
  {
    var vi, vj := Variations()[i], Variations()[j];
    assert vi <= vj;
    assert SensitivityData(p, c)[i] == SensitivityRowAt(p, c, vi);
    assert SensitivityData(p, c)[j] == SensitivityRowAt(p, c, vj);
    RowsOrdered(p, c, vi, vj);
  }

  /** A larger variation gives a higher price-varied profit and a lower renovation-varied one. */
  lemma RowsOrdered(p: Params, c: Calculations, vi: int, vj: int)
    requires Reconciles(p, c) && vi <= vj
    requires p.sellingPrice >= 0.0 && NetShare(p.sellerCommission) >= 0.0
    requires p.renovationBudget >= 0.0 && p.contingency >= -100.0
    ensures SensitivityRowAt(p, c, vi).priceChange <= SensitivityRowAt(p, c, vj).priceChange
    ensures SensitivityRowAt(p, c, vj).renoChange <= SensitivityRowAt(p, c, vi).renoChange
  {
    PriceColumnOrdered(p, c, vi, vj);
    RenovationColumnOrdered(p, c, vi, vj);
  }

  lemma PriceColumnOrdered(p: Params, c: Calculations, vi: int, vj: int)
    requires Reconciles(p, c) && vi <= vj
    requires p.sellingPrice >= 0.0 && NetShare(p.sellerCommission) >= 0.0
    ensures PriceVariedProfit(p, c, vi) <= PriceVariedProfit(p, c, vj)
  {
    var fi, fj := vi as real / 100.0, vj as real / 100.0;
    assert fi <= fj;
    PriceVariedShift(p, c, vi);
    PriceVariedShift(p, c, vj);
    PriceStepMonotone(p, fi, fj);
  }

  lemma RenovationColumnOrdered(p: Params, c: Calculations, vi: int, vj: int)
    requires Reconciles(p, c) && vi <= vj
    requires p.renovationBudget >= 0.0 && p.contingency >= -100.0
    ensures RenovationVariedProfit(p, c, vj) <= RenovationVariedProfit(p, c, vi)
  {
    var fi, fj := vi as real / 100.0, vj as real / 100.0;
    assert fi <= fj;
    RenovationVariedShift(p, c, vi);
    RenovationVariedShift(p, c, vj);
    RenovationStepMonotone(p, fi, fj);
  }

  lemma PriceStepMonotone(p: Params, f1: real, f2: real)
    requires p.sellingPrice >= 0.0 && NetShare(p.sellerCommission) >= 0.0 && f1 <= f2
    ensures PriceStep(p, f1) <= PriceStep(p, f2)
  {
    ProductNonNegative(p.sellingPrice, NetShare(p.sellerCommission));
    ScaledStep(p.sellingPrice * NetShare(p.sellerCommission), f1, f2);
  }

  lemma RenovationStepMonotone(p: Params, f1: real, f2: real)
    requires p.renovationBudget >= 0.0 && p.contingency >= -100.0 && f1 <= f2
    ensures RenovationStep(p, f1) <= RenovationStep(p, f2)
  {
    ProductNonNegative(p.renovationBudget, 1.0 + p.contingency / 100.0);
    ScaledStep(p.renovationBudget * (1.0 + p.contingency / 100.0), f1, f2);
  }

  lemma ScaledStep(a: real, f1: real, f2: real)
    requires a >= 0.0 && f1 <= f2
    ensures a * f1 <= a * f2
  {
    assert a * f2 - a * f1 == a * (f2 - f1);
  }
}
