/**
 * The scenario panel: the deal as entered, a conservative variant (lower price, longer
 * exposure, dearer renovation) and an optimistic one (higher price, shorter exposure,
 * cheaper renovation), each run through the project calculation.
 */
module Scenarios {
  import opened Power
  import opened Money
  import opened DealTypes
  import opened Core
  import opened Sensitivity

  datatype ScenarioKind = Conservative | Base | Optimistic

  datatype Scenario = Scenario(kind: ScenarioKind, input: DealInput, project: DealOutputsProject)

  /** 10% off the price, two more months on the market, 10% more renovation. */
  function ConservativeInput(base: DealInput): (c: DealInput)
    ensures SameDealApartFrom(base, c)
    ensures c.monthsExposure > base.monthsExposure
    ensures base.salePrice >= 0.0 ==> c.salePrice <= base.salePrice
    ensures base.renovationBudget >= 0.0 ==> c.renovationBudget >= base.renovationBudget
  {
    base.(salePrice := base.salePrice * 0.9,
          monthsExposure := base.monthsExposure + 2.0,
          renovationBudget := base.renovationBudget * 1.1)
  }

  /** 5% on the price, one month less on the market but at least one, 5% less renovation. */
  function OptimisticInput(base: DealInput): (o: DealInput)
    ensures SameDealApartFrom(base, o)
    ensures o.monthsExposure >= 1.0 && o.monthsExposure >= base.monthsExposure - 1.0
    ensures base.salePrice >= 0.0 ==> o.salePrice >= base.salePrice
    ensures base.renovationBudget >= 0.0 ==> o.renovationBudget <= base.renovationBudget
  {
    base.(salePrice := base.salePrice * 1.05,
          monthsExposure := if 1.0 > base.monthsExposure - 1.0 then 1.0 else base.monthsExposure - 1.0,
          renovationBudget := base.renovationBudget * 0.95)
  }

  /** Only the price, the exposure and the renovation budget vary between the cards. */
  predicate SameDealApartFrom(a: DealInput, b: DealInput) {
    b == a.(salePrice := b.salePrice, monthsExposure := b.monthsExposure, renovationBudget := b.renovationBudget)
  }

  /** What each variant changes, and that it changes nothing else. */
  lemma VariantAdjustments(base: DealInput)
    ensures var c := ConservativeInput(base);
      && SameDealApartFrom(base, c)
      && c.salePrice == 0.9 * base.salePrice && c.renovationBudget == 1.1 * base.renovationBudget
      && c.monthsExposure == base.monthsExposure + 2.0
    ensures var o := OptimisticInput(base);
      && SameDealApartFrom(base, o)
      && o.salePrice == 1.05 * base.salePrice && o.renovationBudget == 0.95 * base.renovationBudget
  {
  }

  /** The three cards, in the order shown. */
  function ScenarioCards(base: DealInput, pow: PowFn): (cards: seq<Scenario>)
    ensures |cards| == 3
    ensures cards[0].kind == Conservative && cards[1].kind == Base && cards[2].kind == Optimistic
    ensures cards[1].input == base
    ensures forall i :: 0 <= i < 3 ==> cards[i].project == ComputeProject(cards[i].input, pow)
  {
    var conservative := ConservativeInput(base);
    var optimistic := OptimisticInput(base);
    [Scenario(Conservative, conservative, ComputeProject(conservative, pow)),
     Scenario(Base, base, ComputeProject(base, pow)),
     Scenario(Optimistic, optimistic, ComputeProject(optimistic, pow))]
  }

  /** The optimistic exposure is one month less than the base, but never below one month. */
  lemma OptimisticExposure(base: DealInput)
    ensures OptimisticInput(base).monthsExposure >= 1.0
    ensures base.monthsExposure >= 2.0 ==> OptimisticInput(base).monthsExposure == base.monthsExposure - 1.0
    ensures base.monthsExposure < 2.0 ==> OptimisticInput(base).monthsExposure == 1.0
  {
  }

  /** A deal listed for under a month gets a longer exposure in its optimistic variant. */
  lemma OptimisticCanLengthenExposure(base: DealInput)
    requires base.monthsExposure < 1.0
    ensures OptimisticInput(base).monthsExposure > base.monthsExposure
  {
  }

  /**
   * With a non-negative monthly carrying cost and a reserve of at least -100%, costs do
   * not fall when the renovation budget and the exposure both grow.
   */
  lemma CostsGrow(a: DealInput, b: DealInput)
    requires SameDealApartFrom(a, b)
    requires a.renovationBudget <= b.renovationBudget && a.monthsExposure <= b.monthsExposure
    requires a.reservePct >= -100.0 && ComputeDerived(a).carryingMonthly >= 0.0
    ensures TotalCosts(a) <= TotalCosts(b)
  {
    var da, db := ComputeDerived(a), ComputeDerived(b);
    assert da.carryingMonthly == db.carryingMonthly;
    ProductNonNegative(b.renovationBudget - a.renovationBudget, 100.0 + a.reservePct);
    assert a.renovationBudget * (100.0 + a.reservePct) <= b.renovationBudget * (100.0 + a.reservePct);
    ProductNonNegative(da.carryingMonthly, db.monthsTotal - da.monthsTotal);
    assert da.carryingMonthly * da.monthsTotal <= db.carryingMonthly * db.monthsTotal;
    assert GrossCosts(a) <= GrossCosts(b);
    RoundMoneyMonotone(GrossCosts(a), GrossCosts(b));
  }

  /** Net proceeds do not fall as the price grows, while the fee takes at most all of it. */
  lemma ProceedsGrow(a: DealInput, b: DealInput)
    requires SameDealApartFrom(a, b)
    requires a.salePrice <= b.salePrice && SellerFeeRate(a) <= 1.0
    ensures NetProceeds(a) <= NetProceeds(b)
  {
    assert SellerFeeRate(a) == SellerFeeRate(b);
    NetProceedsMonotone(a, b);
  }

  /** The assumptions under which the cards are ordered by profit. */
  predicate Ordinary(base: DealInput) {
    && base.salePrice >= 0.0 && SellerFeeRate(base) <= 1.0
    && base.renovationBudget >= 0.0 && base.reservePct >= -100.0
    && ComputeDerived(base).carryingMonthly >= 0.0
  }

  /** The conservative card never shows more profit than the deal as entered. */
  lemma ConservativeNoBetter(base: DealInput, pow: PowFn)
    requires Ordinary(base)
    ensures ComputeProject(ConservativeInput(base), pow).profit <= ComputeProject(base, pow).profit
  {
    var c := ConservativeInput(base);
    assert SameDealApartFrom(c, base) && SameDealApartFrom(base, c);
    ProceedsGrow(c, base);
    CostsGrow(base, c);
  }

  /**
   * The optimistic card never shows less profit than the deal as entered, as long as the
   * deal is listed for at least a month (otherwise its exposure grows to one month).
   */
  lemma OptimisticNoWorse(base: DealInput, pow: PowFn)
    requires Ordinary(base) && base.monthsExposure >= 1.0
    ensures ComputeProject(base, pow).profit <= ComputeProject(OptimisticInput(base), pow).profit
  {
    var o := OptimisticInput(base);
    assert SameDealApartFrom(o, base) && SameDealApartFrom(base, o);
    ProceedsGrow(base, o);
    assert ComputeDerived(o).carryingMonthly == ComputeDerived(base).carryingMonthly;
    CostsGrow(o, base);
  }

  /** Read left to right, the cards go from least to most profit. */
  lemma CardsOrdered(base: DealInput, pow: PowFn)
    requires Ordinary(base) && base.monthsExposure >= 1.0
    ensures var cards := ScenarioCards(base, pow);
      cards[0].project.profit <= cards[1].project.profit <= cards[2].project.profit
  {
    ConservativeNoBetter(base, pow);
    OptimisticNoWorse(base, pow);
  }
}
