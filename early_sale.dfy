/**
 * The flip calculator's early-sale table: one row every two weeks of the listing period,
 * quoting the price that still earns the target annual return if the flat sells that
 * many weeks early, or, where the user has typed an ROI or IRR for a week, the price that
 * yields exactly that figure.  The typed figures live in a map from week to override.
 */
module EarlyDiscount {
  import opened Wrappers
  import opened Power
  import opened Money
  import opened JsNumber
  import opened FlipCalculator
  import Core

  datatype MetricKind = Roi | Irr

  /** A figure the user typed for one week, kept as the text of the input box. */
  datatype Override = Override(kind: MetricKind, value: string)

  /** An ROI or IRR cell before it is shown: the typed text, or a computed number. */
  datatype Metric = Entered(text: string) | Computed(n: Num)

  /** The quoted price of a week and its two figures. */
  datatype Quote = Quote(price: Num, roi: Metric, irr: Metric)

  /** One row of the table; the ROI and IRR cells are shown as `Render` writes them. */
  datatype WeekRow = WeekRow(
    week: int,
    weekLabel: string,
    discount: Num,
    price: Num,
    profit: Num,
    roi: Metric,
    irr: Metric,
    totalMonths: string)

  /** The page's conversion between months and weeks. */
  const WeeksPerMonth := 4.33

  function ListingWeeks(p: Params): real {
    p.listingMonths * WeeksPerMonth
  }

  /** Months from the purchase to a sale `week` weeks into the listing. */
  function MonthsFromStart(p: Params, week: int): real {
    (p.renovationMonths * WeeksPerMonth + week as real) / WeeksPerMonth
  }

  /** `parseFloat` as a JavaScript number: text with no leading number is NaN. */
  function ParseNum(s: string): (n: Num)
    ensures n.Finite? <==> ParseFloat(s).Some?
  {
    match ParseFloat(s)
    case Some(x) => Finite(x)
    case None => NotFinite
  }

  /** The price less the seller's commission and the 5% VAT on it, as the table computes it. */
  function SaleNet(p: Params, price: Num): Num {
    var sellerComm := Mul(price, Finite(p.sellerCommission / 100.0));
    var sellerVAT := Mul(sellerComm, Finite(Vat));
    Sub(Sub(price, sellerComm), sellerVAT)
  }

  /** The annualised IRR in percent, 0 when no time has passed; the division is unguarded. */
  function AnnualIrr(pow: PowFn, revenueNet: Num, total: real, months: real): Num {
    if months > 0.0 then Mul(Sub(PowNum(pow, Div(revenueNet, Finite(total)), Finite(12.0 / months)), Finite(1.0)), Finite(100.0))
    else Finite(0.0)
  }

  /** ROI in percent of the total cost; the division is unguarded. */
  function RoiOf(profit: Num, total: real): Num {
    Mul(Div(profit, Finite(total)), Finite(100.0))
  }

  /** The net proceeds an ROI of `typed` percent asks for: `(1 + roi) × cost`. */
  function RoiTargetNet(total: real, typed: Num): Num {
    var targetRoi := Div(typed, Finite(100.0));
    Mul(Add(targetRoi, Finite(1.0)), Finite(total))
  }

  /** The net proceeds an IRR of `typed` percent asks for: `cost × (1 + irr)^(months / 12)`. */
  function IrrTargetNet(pow: PowFn, total: real, typed: Num, months: real): Num {
    var targetIrr := Div(typed, Finite(100.0));
    Mul(Finite(total), PowNum(pow, Add(targetIrr, Finite(1.0)), Finite(months / 12.0)))
  }

  /** An ROI override: the price whose net proceeds are `(1 + roi) × cost`. */
  function RoiQuote(p: Params, total: real, pow: PowFn, value: string, months: real): (q: Quote)
    ensures q.roi == Entered(value)
    ensures q.irr == Computed(AnnualIrr(pow, SaleNet(p, q.price), total, months))
    ensures q.price.Finite? ==> NetShare(p.sellerCommission) != 0.0
  {
    var targetRevenueNet := RoiTargetNet(total, ParseNum(value));
    var price := Div(targetRevenueNet, Finite(NetShare(p.sellerCommission)));
    var actualRevenueNet := SaleNet(p, price);
    Quote(price, Entered(value), Computed(AnnualIrr(pow, actualRevenueNet, total, months)))
  }

  /** An IRR override: the price whose net proceeds are `cost × (1 + irr)^(months / 12)`. */
  function IrrQuote(p: Params, total: real, pow: PowFn, value: string, months: real): (q: Quote)
    ensures q.irr == Entered(value)
    // The ROI cell is the profit the target net proceeds give over the cost.
    ensures q.roi == Computed(RoiOf(Sub(IrrTargetNet(pow, total, ParseNum(value), months), Finite(total)), total))
    ensures q.price.Finite? ==> NetShare(p.sellerCommission) != 0.0
  {
    var targetRevenueNet := IrrTargetNet(pow, total, ParseNum(value), months);
    var price := Div(targetRevenueNet, Finite(NetShare(p.sellerCommission)));
    var newProfit := Sub(targetRevenueNet, Finite(total));
    Quote(price, Computed(RoiOf(newProfit, total)), Entered(value))
  }

  /** The discount for selling `week` weeks into the listing: the target return on the days saved. */
  function DiscountedPrice(p: Params, week: int): (price: real)
    ensures price >= 0.0
    ensures week as real == ListingWeeks(p) || p.targetReturn == 0.0 ==> price == Max0(p.sellingPrice)
  {
    var dailyRate := p.targetReturn / 36500.0;
    var daysEarly := (ListingWeeks(p) - week as real) * 7.0;
    var discount := p.sellingPrice * dailyRate * daysEarly;
    Max0(p.sellingPrice - discount)
  }

  /** No override: the discounted price and the ROI and IRR it yields. */
  function DiscountQuote(p: Params, total: real, pow: PowFn, week: int, months: real): (q: Quote)
    ensures q.price == Finite(DiscountedPrice(p, week))
    ensures q.roi == Computed(RoiOf(Sub(SaleNet(p, q.price), Finite(total)), total))
    ensures q.irr == Computed(AnnualIrr(pow, SaleNet(p, q.price), total, months))
  {
    var price := Finite(DiscountedPrice(p, week));
    var newRevenueNet := SaleNet(p, price);
    var newProfit := Sub(newRevenueNet, Finite(total));
    Quote(price, Computed(RoiOf(newProfit, total)), Computed(AnnualIrr(pow, newRevenueNet, total, months)))
  }

  /** The quote of a week: the override's, when there is one, or the discounted one. */
  function QuoteAt(p: Params, total: real, pow: PowFn, custom: Option<Override>, week: int): (q: Quote)
    ensures custom.None? ==> q.price == Finite(DiscountedPrice(p, week)) && q.roi.Computed? && q.irr.Computed?
    ensures custom.Some? && custom.value.kind == Roi ==> q.roi == Entered(custom.value.value) && q.irr.Computed?
    ensures custom.Some? && custom.value.kind == Irr ==> q.irr == Entered(custom.value.value) && q.roi.Computed?
  {
    var months := MonthsFromStart(p, week);
    match custom
    case Some(Override(Roi, value)) => RoiQuote(p, total, pow, value, months)
    case Some(Override(Irr, value)) => IrrQuote(p, total, pow, value, months)
    case None => DiscountQuote(p, total, pow, week, months)
  }

  /** `toFixed(1)` on a number; every non-finite value is shown as NaN here. */
  function NumText(n: Num): string {
    match n
    case Finite(v) => ToFixed1(v)
    case NotFinite => "NaN"
  }

  /** A cell keeps typed text as it was typed and shows a number to one decimal. */
  function Render(m: Metric): string {
    match m
    case Entered(text) => text
    case Computed(n) => NumText(n)
  }

  function WeekLabel(week: int, months: real): string {
    "Неделя " + IntText(week) + " (месяц " + ToFixed1(months) + ")"
  }

  /** A row from a week's quote: net proceeds, profit and discount at the quoted price. */
  function RowOf(p: Params, total: real, week: int, q: Quote): (row: WeekRow)
    ensures row.week == week
    ensures row.price == Round(q.price)
    ensures row.profit == Round(Sub(SaleNet(p, q.price), Finite(total)))
    ensures row.discount == Round(Sub(Finite(p.sellingPrice), q.price))
    ensures row.roi == q.roi && row.irr == q.irr
  {
    var months := MonthsFromStart(p, week);
    var newRevenueNet := SaleNet(p, q.price);
    var newProfit := Sub(newRevenueNet, Finite(total));
    var discount := Sub(Finite(p.sellingPrice), q.price);
    WeekRow(week, WeekLabel(week, months), Round(discount), Round(q.price), Round(newProfit),
            q.roi, q.irr, ToFixed1(months))
  }

  /** The override stored for a week, if any. */
  function OverrideAt(customMetrics: map<int, Override>, week: int): Option<Override> {
    if week in customMetrics then Some(customMetrics[week]) else None
  }

  /** One row of the table. */
  function RowAt(p: Params, total: real, pow: PowFn, customMetrics: map<int, Override>, week: int): WeekRow {
    RowOf(p, total, week, QuoteAt(p, total, pow, OverrideAt(customMetrics, week), week))
  }

  /** How many even weeks 0, 2, 4, … do not pass `last`. */
  function WeekCount(last: real): (n: nat)
    ensures forall i :: 0 <= i < n ==> (2 * i) as real <= last
    ensures (2 * n) as real > last
  {
    if last < 0.0 then 0 else (last / 2.0).Floor + 1
  }

  /** The `earlyDiscountData` table: row i is week 2i. */
  function EarlyDiscountTable(p: Params, total: real, pow: PowFn, customMetrics: map<int, Override>): (rows: seq<WeekRow>)
    ensures |rows| == WeekCount(ListingWeeks(p))
  {
    seq(WeekCount(ListingWeeks(p)), i => RowAt(p, total, pow, customMetrics, 2 * i))
  }

  lemma PrefixStep<T>(s: seq<T>, n: nat)
    requires n < |s|
    ensures s[..n + 1] == s[..n] + [s[n]]
  {
  }

  /** Row i of the table is week 2i's quote turned into a row. */
  lemma TableRow(p: Params, total: real, pow: PowFn, customMetrics: map<int, Override>, i: nat)
    requires i < WeekCount(ListingWeeks(p))
    ensures EarlyDiscountTable(p, total, pow, customMetrics)[i]
         == RowOf(p, total, 2 * i, QuoteAt(p, total, pow, OverrideAt(customMetrics, 2 * i), 2 * i))
  {
    assert EarlyDiscountTable(p, total, pow, customMetrics)[i] == RowAt(p, total, pow, customMetrics, 2 * i);
  }

  /** A week's profit is what its quoted price nets, less the total cost. */
  lemma RowProfit(p: Params, total: real, pow: PowFn, customMetrics: map<int, Override>, week: int, net: real, gain: real)
    requires SaleNet(p, QuoteAt(p, total, pow, OverrideAt(customMetrics, week), week).price) == Finite(net)
    requires net - total == gain
    ensures RowAt(p, total, pow, customMetrics, week).profit == Round(Finite(gain))
  {
    assert Sub(Finite(net), Finite(total)) == Finite(gain);
  }

  /** The memo's loop: a row for each even week up to the end of the listing. */
  method EarlyDiscountData(p: Params, calculations: Calculations, customMetrics: map<int, Override>, pow: PowFn)
    returns (weeks: seq<WeekRow>)
    ensures weeks == EarlyDiscountTable(p, calculations.costs.total, pow, customMetrics)
  {
    var total := calculations.costs.total;
    var listingWeeks := ListingWeeks(p);
    ghost var table := EarlyDiscountTable(p, total, pow, customMetrics);
    weeks := [];
    var week := 0;
    while week as real <= listingWeeks
      invariant week == 2 * |weeks|
      invariant |weeks| <= |table|
      invariant weeks == table[..|weeks|]
      decreases listingWeeks.Floor + 2 - week
    {
      var totalMonthsFromStart := MonthsFromStart(p, week);
      var recommendedPrice: Num, roi: Metric, irr: Metric;
      if week in customMetrics {
        var custom := customMetrics[week];
        if custom.kind == Roi {
          var q := RoiQuote(p, total, pow, custom.value, totalMonthsFromStart);
          recommendedPrice, roi, irr := q.price, q.roi, q.irr;
        } else {
          var q := IrrQuote(p, total, pow, custom.value, totalMonthsFromStart);
          recommendedPrice, roi, irr := q.price, q.roi, q.irr;
        }
      } else {
        var q := DiscountQuote(p, total, pow, week, totalMonthsFromStart);
        recommendedPrice, roi, irr := q.price, q.roi, q.irr;
      }

      assert Quote(recommendedPrice, roi, irr) == QuoteAt(p, total, pow, OverrideAt(customMetrics, week), week);

      var newRevenueNet := SaleNet(p, recommendedPrice);
      var newProfit := Sub(newRevenueNet, Finite(total));
      var discount := Sub(Finite(p.sellingPrice), recommendedPrice);
      var row := WeekRow(week, WeekLabel(week, totalMonthsFromStart), Round(discount),
                         Round(recommendedPrice), Round(newProfit), roi, irr,
                         ToFixed1(totalMonthsFromStart));
      assert row == RowOf(p, total, week, Quote(recommendedPrice, roi, irr));
      TableRow(p, total, pow, customMetrics, |weeks|);
      assert row == table[|weeks|];
      PrefixStep(table, |weeks|);
      weeks := weeks + [row];
      week := week + 2;
    }
    assert |weeks| == |table|;
    assert table[..|table|] == table;
  }

  // ---------------------------------------------------------------------------------
  // What a row promises

  /** The commission leaves a price's net at `price × NetShare`, also as a JavaScript number. */
  lemma SaleNetOfFinite(p: Params, x: real)
    ensures SaleNet(p, Finite(x)) == Finite(NetOfCommission(p.sellerCommission, x))
  {
    var k := p.sellerCommission / 100.0;
    assert x - x * k - x * k * Vat == x - (x * k + x * k * Vat);
  }

  /** Quoting `x / NetShare` nets exactly `x`, whenever the commission leaves a share. */
  lemma SaleNetOfQuotient(p: Params, x: real)
    requires NetShare(p.sellerCommission) != 0.0
    ensures SaleNet(p, Div(Finite(x), Finite(NetShare(p.sellerCommission)))) == Finite(x)
  {
    SaleNetOfFinite(p, x / NetShare(p.sellerCommission));
    NetOfQuotient(p.sellerCommission, x);
  }

  /**
   * Without an override, and with a non-negative price and target return, the quoted price
   * lies between 0 and the listed price before the listing ends.
   */
  lemma DiscountedPriceBounds(p: Params, week: int)
    requires p.sellingPrice >= 0.0 && p.targetReturn >= 0.0
    requires week as real <= ListingWeeks(p)
    ensures 0.0 <= DiscountedPrice(p, week) <= p.sellingPrice
  {
    var dailyRate := p.targetReturn / 36500.0;
    var daysEarly := (ListingWeeks(p) - week as real) * 7.0;
    assert daysEarly >= 0.0;
    assert p.sellingPrice * dailyRate >= 0.0;
    assert p.sellingPrice * dailyRate * daysEarly >= 0.0;
  }

  /** A week without an override shows a price within [0, list price] and a discount of at least 0. */
  lemma DiscountRowBounds(p: Params, total: real, pow: PowFn, customMetrics: map<int, Override>, week: int)
    requires week as real <= ListingWeeks(p) && week !in customMetrics
    requires p.sellingPrice >= 0.0 && p.targetReturn >= 0.0
    ensures var row := RowAt(p, total, pow, customMetrics, week);
      && row.price.Finite? && 0.0 <= row.price.v <= p.sellingPrice + 0.5
      && row.discount.Finite? && row.discount.v >= 0.0
  {
    var q := QuoteAt(p, total, pow, OverrideAt(customMetrics, week), week);
    var price := DiscountedPrice(p, week);
    assert q.price == Finite(price);
    DiscountedPriceBounds(p, week);
    var row := RowAt(p, total, pow, customMetrics, week);
    assert row.price == Round(Finite(price));
    RoundNonNegative(price);
    RoundAtMost(price, p.sellingPrice);
    var gap := p.sellingPrice - price;
    assert gap >= 0.0;
    assert Sub(Finite(p.sellingPrice), q.price) == Finite(gap);
    assert row.discount == Round(Finite(gap));
    RoundNonNegative(gap);
  }

  /** `total` grown by `roi` percent. */
  function Grown(total: real, roi: real): real {
    (roi / 100.0 + 1.0) * total
  }

  /** What growing by `roi` percent adds is `roi` percent of the total. */
  lemma GrownGain(total: real, roi: real)
    ensures Grown(total, roi) - total == roi / 100.0 * total
    ensures total != 0.0 ==> (Grown(total, roi) - total) / total * 100.0 == roi
  {
    if total != 0.0 {
      assert (roi / 100.0 * total) / total == roi / 100.0;
    }
  }

  /** The product of two numbers is a number. */
  lemma MulFinite(a: real, b: real)
    ensures Mul(Finite(a), Finite(b)) == Finite(a * b)
  {
  }

  /** An ROI of `r` asks for `total` grown by `r` percent. */
  lemma RoiTarget(total: real, r: real)
    ensures RoiTargetNet(total, Finite(r)) == Finite(Grown(total, r))
  {
    var factor := r / 100.0 + 1.0;
    assert Div(Finite(r), Finite(100.0)) == Finite(r / 100.0);
    assert Add(Finite(r / 100.0), Finite(1.0)) == Finite(factor);
    MulFinite(factor, total);
  }

  /** An IRR of `r` asks for `total` compounded at `r` percent over `months`. */
  lemma IrrTarget(pow: PowFn, total: real, months: real, r: real)
    requires months != 0.0 && r / 100.0 + 1.0 > 0.0
    ensures IrrTargetNet(pow, total, Finite(r), months) == Finite(Compounded(pow, total, r, months))
  {
    var base := r / 100.0 + 1.0;
    assert Div(Finite(r), Finite(100.0)) == Finite(r / 100.0);
    assert Add(Finite(r / 100.0), Finite(1.0)) == Finite(base);
    assert months / 12.0 != 0.0;
    assert PowNum(pow, Finite(base), Finite(months / 12.0)) == Finite(pow(base, months / 12.0));
    MulFinite(total, pow(base, months / 12.0));
  }

  /** An ROI quote nets `(1 + roi) × cost` and shows the typed ROI. */
  lemma RoiQuotePrice(p: Params, total: real, pow: PowFn, value: string, months: real, r: real)
    requires ParseFloat(value) == Some(r) && NetShare(p.sellerCommission) != 0.0
    ensures var q := RoiQuote(p, total, pow, value, months);
      && SaleNet(p, q.price) == Finite(Grown(total, r))
      && q.roi == Entered(value)
  {
    var targetRevenueNet := Grown(total, r);
    assert ParseNum(value) == Finite(r);
    RoiTarget(total, r);
    assert RoiQuote(p, total, pow, value, months).price == Div(Finite(targetRevenueNet), Finite(NetShare(p.sellerCommission)));
    SaleNetOfQuotient(p, targetRevenueNet);
  }

  /** The ROI of an ROI quote's price is the typed one. */
  lemma RoiQuoteMeetsTarget(p: Params, total: real, pow: PowFn, value: string, months: real, r: real)
    requires ParseFloat(value) == Some(r) && NetShare(p.sellerCommission) != 0.0 && total != 0.0
    ensures RoiOf(Sub(SaleNet(p, RoiQuote(p, total, pow, value, months).price), Finite(total)), total) == Finite(r)
  {
    var gain := Grown(total, r) - total;
    RoiQuotePrice(p, total, pow, value, months, r);
    var profit := Sub(SaleNet(p, RoiQuote(p, total, pow, value, months).price), Finite(total));
    assert profit == Finite(gain);
    GrownGain(total, r);
    assert Div(profit, Finite(total)) == Finite(gain / total);
    assert Mul(Finite(gain / total), Finite(100.0)) == Finite(r);
  }

  /** `total` compounded at `irr` percent a year for `months` months. */
  function Compounded(pow: PowFn, total: real, irr: real, months: real): real {
    total * pow(irr / 100.0 + 1.0, months / 12.0)
  }

  /**
   * The ROI cell of an IRR quote is the compounded growth over the months since purchase:
   * `100 × ((1 + irr / 100)^(months / 12) − 1)`.
   */
  lemma IrrQuoteRoi(p: Params, total: real, pow: PowFn, value: string, months: real, r: real)
    requires ParseFloat(value) == Some(r) && r / 100.0 + 1.0 > 0.0
    requires months != 0.0 && total != 0.0
    ensures IrrQuote(p, total, pow, value, months).roi
         == Computed(Finite(100.0 * (pow(r / 100.0 + 1.0, months / 12.0) - 1.0)))
  {
    var g := pow(r / 100.0 + 1.0, months / 12.0);
    assert ParseNum(value) == Finite(r);
    IrrTarget(pow, total, months, r);
    assert Compounded(pow, total, r, months) == total * g;
    assert Sub(Finite(total * g), Finite(total)) == Finite(total * g - total);
    GrowthOverCost(total, g);
    assert Div(Finite(total * g - total), Finite(total)) == Finite(g - 1.0);
  }

  /** Dividing by a non-zero number and multiplying back gives the number. */
  lemma QuotientTimesDivisor(x: real, k: real)
    requires k != 0.0
    ensures (x / k) * k == x
  {
  }

  /** Cost grown by a factor `g`, less the cost, over the cost, is `g − 1`. */
  lemma GrowthOverCost(total: real, g: real)
    requires total != 0.0
    ensures (total * g - total) / total == g - 1.0
  {
    var x := total * g - total;
    QuotientTimesDivisor(x, total);
    assert (g - 1.0) * total == x;
    Core.CancelFactor(x / total, g - 1.0, total);
  }

  /** An IRR quote nets `cost × (1 + irr)^(months / 12)` and shows the typed IRR. */
  lemma IrrQuotePrice(p: Params, total: real, pow: PowFn, value: string, months: real, r: real)
    requires ParseFloat(value) == Some(r) && NetShare(p.sellerCommission) != 0.0 && months != 0.0
    requires r / 100.0 + 1.0 > 0.0
    ensures var q := IrrQuote(p, total, pow, value, months);
      && SaleNet(p, q.price) == Finite(Compounded(pow, total, r, months))
      && q.irr == Entered(value)
  {
    assert ParseNum(value) == Finite(r);
    IrrTarget(pow, total, months, r);
    var targetRevenueNet := Compounded(pow, total, r, months);
    assert IrrQuote(p, total, pow, value, months).price == Div(Finite(targetRevenueNet), Finite(NetShare(p.sellerCommission)));
    SaleNetOfQuotient(p, targetRevenueNet);
  }

  /**
   * The IRR of an IRR quote's price, annualised as the table does it, is the typed one.
   */
  lemma IrrQuoteMeetsTarget(p: Params, total: real, pow: PowFn, value: string, months: real, r: real)
    requires IsPow(pow)
    requires ParseFloat(value) == Some(r) && NetShare(p.sellerCommission) != 0.0
    requires r / 100.0 + 1.0 > 0.0 && total > 0.0 && months > 0.0
    ensures AnnualIrr(pow, SaleNet(p, IrrQuote(p, total, pow, value, months).price), total, months) == Finite(r)
  {
    IrrQuotePrice(p, total, pow, value, months, r);
    CompoundedIrr(pow, total, r, months);
  }

  /** Annualised over `months`, compounding at `r` percent gives back `r`. */
  lemma CompoundedIrr(pow: PowFn, total: real, r: real, months: real)
    requires IsPow(pow)
    requires r / 100.0 + 1.0 > 0.0 && total > 0.0 && months > 0.0
    ensures AnnualIrr(pow, Finite(Compounded(pow, total, r, months)), total, months) == Finite(r)
  {
    var base := r / 100.0 + 1.0;
    var growth := pow(base, months / 12.0);
    assert Compounded(pow, total, r, months) == total * growth;
    assert (total * growth) / total == growth;
    assert Div(Finite(total * growth), Finite(total)) == Finite(growth);
    ReciprocalExponents(months);
    assert pow(growth, 12.0 / months) == base;
    assert PowNum(pow, Finite(growth), Finite(12.0 / months)) == Finite(base);
  }

  /**
   * An ROI override is met: the row's profit is the typed ROI times the total cost, rounded,
   * and the ROI cell shows the typed text.
   */
  lemma RoiOverrideMet(p: Params, total: real, pow: PowFn, customMetrics: map<int, Override>, week: int, r: real)
    requires week in customMetrics
    requires customMetrics[week].kind == Roi && ParseFloat(customMetrics[week].value) == Some(r)
    requires NetShare(p.sellerCommission) != 0.0
    ensures RowAt(p, total, pow, customMetrics, week).profit == Round(Finite(r / 100.0 * total))
    ensures Render(RowAt(p, total, pow, customMetrics, week).roi) == customMetrics[week].value
  {
    var value := customMetrics[week].value;
    var months := MonthsFromStart(p, week);
    var q := QuoteAt(p, total, pow, OverrideAt(customMetrics, week), week);
    assert q == RoiQuote(p, total, pow, value, months);
    RoiQuotePrice(p, total, pow, value, months, r);
    GrownGain(total, r);
    RowProfit(p, total, pow, customMetrics, week, Grown(total, r), r / 100.0 * total);
  }

  /**
   * An IRR override is met: the row's profit is what compounding the cost at the typed IRR
   * over the months since purchase adds, and the IRR cell shows the typed text.
   */
  lemma IrrOverrideMet(p: Params, total: real, pow: PowFn, customMetrics: map<int, Override>, week: int, r: real)
    requires week in customMetrics
    requires customMetrics[week].kind == Irr && ParseFloat(customMetrics[week].value) == Some(r)
    requires NetShare(p.sellerCommission) != 0.0 && MonthsFromStart(p, week) != 0.0
    requires r / 100.0 + 1.0 > 0.0
    ensures RowAt(p, total, pow, customMetrics, week).profit
         == Round(Finite(Compounded(pow, total, r, MonthsFromStart(p, week)) - total))
    ensures Render(RowAt(p, total, pow, customMetrics, week).irr) == customMetrics[week].value
  {
    var value := customMetrics[week].value;
    var months := MonthsFromStart(p, week);
    var q := QuoteAt(p, total, pow, OverrideAt(customMetrics, week), week);
    assert q == IrrQuote(p, total, pow, value, months);
    IrrQuotePrice(p, total, pow, value, months, r);
    RowProfit(p, total, pow, customMetrics, week, Compounded(pow, total, r, months), Compounded(pow, total, r, months) - total);
  }

  /**
   * An IRR override below -100% has no real price when the months since purchase are not a
   * whole number of years: the power of a negative base is NaN, and so are the price, the
   * profit and the ROI of the row.
   */
  lemma IrrOverrideBelowTotalLoss(p: Params, total: real, pow: PowFn, customMetrics: map<int, Override>, week: int, r: real)
    requires week in customMetrics
    requires customMetrics[week].kind == Irr && ParseFloat(customMetrics[week].value) == Some(r)
    requires r / 100.0 + 1.0 < 0.0
    requires MonthsFromStart(p, week) / 12.0 != (MonthsFromStart(p, week) / 12.0).Floor as real
    ensures RowAt(p, total, pow, customMetrics, week).price == NotFinite
    ensures RowAt(p, total, pow, customMetrics, week).profit == NotFinite
    ensures Render(RowAt(p, total, pow, customMetrics, week).roi) == "NaN"
  {
    var value := customMetrics[week].value;
    var months := MonthsFromStart(p, week);
    assert ParseNum(value) == Finite(r);
    assert Div(Finite(r), Finite(100.0)) == Finite(r / 100.0);
    assert Add(Finite(r / 100.0), Finite(1.0)) == Finite(r / 100.0 + 1.0);
    assert PowNum(pow, Finite(r / 100.0 + 1.0), Finite(months / 12.0)) == NotFinite;
    assert IrrTargetNet(pow, total, ParseNum(value), months) == NotFinite;
  }

  /** Editing or clearing the override of one week leaves every other row as it was. */
  lemma OverrideIsLocal(p: Params, total: real, pow: PowFn, before: map<int, Override>, after: map<int, Override>, w: int, i: nat)
    requires forall k :: k != w ==> (k in before <==> k in after)
    requires forall k :: k != w && k in before ==> before[k] == after[k]
    requires i < WeekCount(ListingWeeks(p)) && 2 * i != w
    ensures EarlyDiscountTable(p, total, pow, before)[i] == EarlyDiscountTable(p, total, pow, after)[i]
  {
    assert (2 * i in before) == (2 * i in after);
  }

  // ---------------------------------------------------------------------------------
  // The override map

  /** The page's `customMetrics` state and its two updaters. */
  class CustomMetrics {
    var metrics: map<int, Override>

    constructor()
      ensures metrics == map[]
    {
      metrics := map[];
    }

    /** `handleMetricEdit`: store the typed figure under its week, replacing any before it. */
    method HandleMetricEdit(week: int, kind: MetricKind, value: string)
      modifies this
      ensures metrics == old(metrics)[week := Override(kind, value)]
      ensures week in metrics && metrics[week] == Override(kind, value)
      ensures forall k :: k != week ==> (k in metrics <==> k in old(metrics))
      ensures forall k :: k != week && k in old(metrics) ==> metrics[k] == old(metrics)[k]
    {
      metrics := metrics[week := Override(kind, value)];
    }

    /** `clearCustomMetric`: drop the week's figure, going back to the discounted quote. */
    method ClearCustomMetric(week: int)
      modifies this
      ensures metrics == old(metrics) - {week}
      ensures week !in metrics
      ensures forall k :: k != week ==> (k in metrics <==> k in old(metrics))
      ensures forall k :: k != week && k in old(metrics) ==> metrics[k] == old(metrics)[k]
    {
      var next := metrics;
      next := next - {week};
      metrics := next;
    }
  }

  /** Clearing a week right after editing it leaves the map as if the week had been cleared alone. */
  lemma EditThenClear(m: map<int, Override>, week: int, o: Override)
    ensures m[week := o] - {week} == m - {week}
  {
  }
}
