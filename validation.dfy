/**
 * The engine's input validation: percentages must lie in 0..100, amounts must not be
 * negative, the holding period must be positive and the profit shares must add up to
 * 100%.  Errors make the input invalid; warnings (a seller's fee of 100% or more, a sale
 * below break-even) do not.
 */
module Validation {
  import opened Power
  import opened Money
  import opened DealTypes
  import opened Core

  /** The two checks applied field by field. */
  datatype Rule = Percent | NonNegative

  /** The value of the input that a validation message is about. */
  function FieldValue(input: DealInput, f: Field): real {
    match f
    case DldPct => input.dldPct
    case BuyerFeePct => input.buyerFeePct
    case BuyerFeeVatPct => input.buyerFeeVatPct
    case SellerFeePct => input.sellerFeePct
    case SellerFeeVatPct => input.sellerFeeVatPct
    case ReservePct => input.reservePct
    case InvestorProfitSharePct => input.investorProfitSharePct
    case OperatorProfitSharePct => input.operatorProfitSharePct
    case PurchasePrice => input.purchasePrice
    case SalePrice => input.salePrice
    case RenovationBudget => input.renovationBudget
    case ServiceChargeAnnual => input.serviceChargeAnnual
    case DewaMonthly => input.dewaMonthly
    case TrusteeFee => input.trusteeFee
    case MonthsRepair => input.monthsRepair
    case MonthsExposure => input.monthsExposure
    case MonthsTotal => input.monthsRepair + input.monthsExposure
    case ProfitSplit => input.investorProfitSharePct + input.operatorProfitSharePct
  }

  /** The percentage fields, in the order they are checked. */
  function PercentFields(): seq<Field> {
    [DldPct, BuyerFeePct, BuyerFeeVatPct, SellerFeePct, SellerFeeVatPct,
     ReservePct, InvestorProfitSharePct, OperatorProfitSharePct]
  }

  /** The amount fields, in the order they are checked. */
  function MoneyFields(): seq<Field> {
    [PurchasePrice, SalePrice, RenovationBudget, ServiceChargeAnnual, DewaMonthly, TrusteeFee]
  }

  /** The label a field's message starts with (the fields outside both lists have none). */
  function Caption(f: Field): string {
    match f
    case DldPct => "DLD"
    case BuyerFeePct => "Комиссия покупателя"
    case BuyerFeeVatPct => "VAT на комиссию покупателя"
    case SellerFeePct => "Комиссия продавца"
    case SellerFeeVatPct => "VAT на комиссию продавца"
    case ReservePct => "Резерв ремонта"
    case InvestorProfitSharePct => "Доля инвестора"
    case OperatorProfitSharePct => "Доля оператора"
    case PurchasePrice => "Цена покупки"
    case SalePrice => "Цена продажи"
    case RenovationBudget => "Бюджет ремонта"
    case ServiceChargeAnnual => "Service Charge"
    case DewaMonthly => "DEWA"
    case TrusteeFee => "Trustee Fee"
    case _ => ""
  }

  predicate Breaks(rule: Rule, v: real) {
    match rule
    case Percent => v < 0.0 || v > 100.0
    case NonNegative => v < 0.0
  }

  function RuleMessage(rule: Rule, f: Field): Message {
    match rule
    case Percent => OutOfPercentRange(f)
    case NonNegative => NegativeAmount(f)
  }

  /** The errors one rule raises over a list of fields, in the order of the list. */
  function FieldErrors(input: DealInput, rule: Rule, fs: seq<Field>): (errs: seq<ValidationError>)
    ensures |errs| <= |fs|
  {
    if |fs| == 0 then []
    else
      var last := fs[|fs| - 1];
      FieldErrors(input, rule, fs[..|fs| - 1])
      + Check(Breaks(rule, FieldValue(input, last)), last, RuleMessage(rule, last))
  }

  /** A message on `field` when `cond` holds, nothing otherwise. */
  function Check(cond: bool, field: Field, message: Message): (errs: seq<ValidationError>)
    ensures |errs| <= 1
    ensures |errs| == 1 <==> cond
    ensures forall i :: 0 <= i < |errs| ==> errs[i].field == field
  {
    if cond then [ValidationError(field, message)] else []
  }

  /** `Math.abs`. */
  function Abs(x: real): (a: real)
    ensures a >= 0.0 && (a == x || a == -x)
  {
    if x < 0.0 then -x else x
  }

  /** The errors `validateInput` reports, in the order it reports them. */
  function ExpectedErrors(input: DealInput): (errs: seq<ValidationError>)
    ensures |errs| <= |PercentFields()| + |MoneyFields()| + 4
    ensures input.monthsRepair + input.monthsExposure <= 0.0 ==> |errs| > 0
    ensures Abs(input.investorProfitSharePct + input.operatorProfitSharePct - 100.0) > 0.01 ==>
      |errs| > 0 && errs[|errs| - 1] == ValidationError(ProfitSplit, SplitNotWhole)
  {
    ListedErrors(input) + MonthsAndSplitErrors(input)
  }

  /** The errors of the two field lists: percentages first, then amounts. */
  function ListedErrors(input: DealInput): seq<ValidationError> {
    FieldErrors(input, Percent, PercentFields()) + FieldErrors(input, NonNegative, MoneyFields())
  }

  /** The checks on the two periods, their sum and the profit split, in that order. */
  function MonthsAndSplitErrors(input: DealInput): seq<ValidationError> {
    Check(input.monthsRepair < 0.0, MonthsRepair, RepairNegative)
    + Check(input.monthsExposure < 0.0, MonthsExposure, ExposureNegative)
    + Check(input.monthsRepair + input.monthsExposure <= 0.0, MonthsTotal, TotalNotPositive)
    + Check(Abs(input.investorProfitSharePct + input.operatorProfitSharePct - 100.0) > 0.01, ProfitSplit,
            SplitNotWhole)
  }

  /** The engine's wording of each message. */
  function Text(m: Message): (s: string)
    ensures |s| > 0
  {
    match m
    case OutOfPercentRange(f) => Caption(f) + " должен быть в диапазоне 0-100%"
    case NegativeAmount(f) => Caption(f) + " не может быть отрицательным"
    case RepairNegative => "Срок ремонта не может быть отрицательным"
    case ExposureNegative => "Срок экспозиции не может быть отрицательным"
    case TotalNotPositive => "Общий срок сделки должен быть больше 0"
    case SplitNotWhole => "Сумма долей инвестора и оператора должна равняться 100%"
    case FeeTakesAll => "Комиссия продавца с VAT ≥100% - невозможная конфигурация"
    case BelowBreakEven(n) => "Цена продажи ниже точки безубыточности (" + IntText(n) + " AED)"
  }

  /** The warnings `validateInput` reports: the break-even check runs only without errors. */
  function ExpectedWarnings(input: DealInput, pow: PowFn): (warns: seq<ValidationError>)
    ensures |warns| <= 2
    ensures SellerFeeRate(input) >= 1.0 ==> |warns| >= 1 && warns[0] == ValidationError(SellerFeePct, FeeTakesAll)
    ensures |ExpectedErrors(input)| > 0 ==> forall i :: 0 <= i < |warns| ==> warns[i].field == SellerFeePct
  {
    var breakEven := ComputeProject(input, pow).breakEvenSalePrice;
    Check(SellerFeeRate(input) >= 1.0, SellerFeePct, FeeTakesAll)
    + Check(|ExpectedErrors(input)| == 0 && input.salePrice < breakEven, SalePrice,
            BelowBreakEven(RoundToInt(breakEven)))
  }

  /** One `forEach` pass of `validateInput`: the errors `rule` raises over `fields`. */
  method CollectFieldErrors(input: DealInput, rule: Rule, fields: seq<Field>) returns (errors: seq<ValidationError>)
    ensures errors == FieldErrors(input, rule, fields)
  {
    errors := [];
    for i := 0 to |fields|
      invariant errors == FieldErrors(input, rule, fields[..i])
    {
      var field := fields[i];
      if Breaks(rule, FieldValue(input, field)) {
        errors := errors + [ValidationError(field, RuleMessage(rule, field))];
      }
      assert fields[..i + 1][..i] == fields[..i];
    }
    assert fields[..|fields|] == fields;
  }

  /** `validateInput`: the checks in the engine's order, collecting errors and warnings. */
  method ValidateInput(input: DealInput, pow: PowFn) returns (r: ValidationResult)
    ensures r.errors == ExpectedErrors(input)
    ensures r.warnings == ExpectedWarnings(input, pow)
    ensures r.isValid <==> |r.errors| == 0
  {
    var percentErrors := CollectFieldErrors(input, Percent, PercentFields());
    var moneyErrors := CollectFieldErrors(input, NonNegative, MoneyFields());
    var otherErrors := CollectMonthsAndSplitErrors(input);
    var errors := percentErrors + moneyErrors + otherErrors;
    var warnings := CollectWarnings(input, pow, errors);
    r := ValidationResult(|errors| == 0, errors, warnings);
  }

  /** The checks of `validateInput` after the two field lists, in the engine's order. */
  method CollectMonthsAndSplitErrors(input: DealInput) returns (errors: seq<ValidationError>)
    ensures errors == MonthsAndSplitErrors(input)
  {
    errors := [];
    if input.monthsRepair < 0.0 {
      errors := errors + [ValidationError(MonthsRepair, RepairNegative)];
    }
    if input.monthsExposure < 0.0 {
      errors := errors + [ValidationError(MonthsExposure, ExposureNegative)];
    }
    assert errors == Check(input.monthsRepair < 0.0, MonthsRepair, RepairNegative)
                     + Check(input.monthsExposure < 0.0, MonthsExposure, ExposureNegative);
    var monthsTotal := input.monthsRepair + input.monthsExposure;
    if monthsTotal <= 0.0 {
      errors := errors + [ValidationError(MonthsTotal, TotalNotPositive)];
    }
    var splitSum := input.investorProfitSharePct + input.operatorProfitSharePct;
    if Abs(splitSum - 100.0) > 0.01 {
      errors := errors + [ValidationError(ProfitSplit, SplitNotWhole)];
    }
  }

  /** The warnings of `validateInput`, once its errors are known. */
  method CollectWarnings(input: DealInput, pow: PowFn, errors: seq<ValidationError>) returns (warnings: seq<ValidationError>)
    requires errors == ExpectedErrors(input)
    ensures warnings == ExpectedWarnings(input, pow)
  {
    warnings := [];
    var sellerFeeRate := ToRate(input.sellerFeePct) * (1.0 + ToRate(input.sellerFeeVatPct));
    if sellerFeeRate >= 1.0 {
      warnings := warnings + [ValidationError(SellerFeePct, FeeTakesAll)];
    }
    assert sellerFeeRate == SellerFeeRate(input);
    ghost var feeWarnings := warnings;
    assert feeWarnings == Check(SellerFeeRate(input) >= 1.0, SellerFeePct, FeeTakesAll);
    ghost var breakEven := ComputeProject(input, pow).breakEvenSalePrice;
    if |errors| == 0 {
      var project := ComputeProject(input, pow);
      if input.salePrice < project.breakEvenSalePrice {
        warnings := warnings + [ValidationError(SalePrice,
          BelowBreakEven(RoundToInt(project.breakEvenSalePrice)))];
      }
    }
    assert warnings == feeWarnings + Check(|errors| == 0 && input.salePrice < breakEven, SalePrice, BelowBreakEven(RoundToInt(breakEven)));
  }

  // ---------------------------------------------------------------------------------
  // Which fields get a message

  /** Whether some message in `msgs` is about `f`. */
  predicate Mentions(msgs: seq<ValidationError>, f: Field) {
    exists i :: 0 <= i < |msgs| && msgs[i].field == f
  }

  lemma MentionsConcat(a: seq<ValidationError>, b: seq<ValidationError>, f: Field)
    ensures Mentions(a + b, f) <==> Mentions(a, f) || Mentions(b, f)
  {
    if Mentions(a + b, f) {
      var i :| 0 <= i < |a + b| && (a + b)[i].field == f;
      if i >= |a| {
        assert b[i - |a|].field == f;
      }
    }
    if Mentions(a, f) {
      var i :| 0 <= i < |a| && a[i].field == f;
      assert (a + b)[i].field == f;
    }
    if Mentions(b, f) {
      var i :| 0 <= i < |b| && b[i].field == f;
      assert (a + b)[|a| + i].field == f;
    }
  }

  /** A rule over a list of fields mentions exactly the listed fields that break it. */
  lemma {:induction false} FieldErrorsMention(input: DealInput, rule: Rule, fs: seq<Field>, f: Field)
    ensures Mentions(FieldErrors(input, rule, fs), f) <==> f in fs && Breaks(rule, FieldValue(input, f))
  {
    if |fs| > 0 {
      var init, last := fs[..|fs| - 1], fs[|fs| - 1];
      var tail := Check(Breaks(rule, FieldValue(input, last)), last, RuleMessage(rule, last));
      FieldErrorsMention(input, rule, init, f);
      MentionsConcat(FieldErrors(input, rule, init), tail, f);
      CheckMentions(Breaks(rule, FieldValue(input, last)), last, RuleMessage(rule, last), f);
      assert fs == init + [last];
    }
  }

  /** Whether the engine should object to field `f`: the rule each field is held to. */
  predicate Violates(input: DealInput, f: Field) {
    var v := FieldValue(input, f);
    match f
    case DldPct | BuyerFeePct | BuyerFeeVatPct | SellerFeePct | SellerFeeVatPct
       | ReservePct | InvestorProfitSharePct | OperatorProfitSharePct => v < 0.0 || v > 100.0
    case PurchasePrice | SalePrice | RenovationBudget | ServiceChargeAnnual | DewaMonthly | TrusteeFee
       | MonthsRepair | MonthsExposure => v < 0.0
    case MonthsTotal => v <= 0.0
    case ProfitSplit => Abs(v - 100.0) > 0.01
  }

  lemma CheckMentions(cond: bool, field: Field, message: Message, f: Field)
    ensures Mentions(Check(cond, field, message), f) <==> cond && f == field
  {
    if cond && f == field {
      assert Check(cond, field, message)[0].field == f;
    }
  }

  /** The two list rules mention exactly the listed fields that break them. */
  lemma ListedErrorsExactly(input: DealInput, f: Field)
    ensures Mentions(ListedErrors(input), f) <==>
      ((f in PercentFields() && Breaks(Percent, FieldValue(input, f)))
       || (f in MoneyFields() && Breaks(NonNegative, FieldValue(input, f))))
  {
    MentionsConcat(FieldErrors(input, Percent, PercentFields()), FieldErrors(input, NonNegative, MoneyFields()), f);
    FieldErrorsMention(input, Percent, PercentFields(), f);
    FieldErrorsMention(input, NonNegative, MoneyFields(), f);
  }

  /** The four checks on the months and the split mention exactly the checks that fire. */
  lemma ChecksExactly(input: DealInput, f: Field)
    ensures Mentions(MonthsAndSplitErrors(input), f) <==>
      ((f == MonthsRepair && input.monthsRepair < 0.0)
       || (f == MonthsExposure && input.monthsExposure < 0.0)
       || (f == MonthsTotal && input.monthsRepair + input.monthsExposure <= 0.0)
       || (f == ProfitSplit && Abs(input.investorProfitSharePct + input.operatorProfitSharePct - 100.0) > 0.01))
  {
    var c := Check(input.monthsRepair < 0.0, MonthsRepair, RepairNegative);
    var d := Check(input.monthsExposure < 0.0, MonthsExposure, ExposureNegative);
    var e := Check(input.monthsRepair + input.monthsExposure <= 0.0, MonthsTotal, TotalNotPositive);
    var g := Check(Abs(input.investorProfitSharePct + input.operatorProfitSharePct - 100.0) > 0.01, ProfitSplit,
                   SplitNotWhole);
    MentionsConcat(c + d + e, g, f);
    MentionsConcat(c + d, e, f);
    MentionsConcat(c, d, f);
    CheckMentions(input.monthsRepair < 0.0, MonthsRepair, RepairNegative, f);
    CheckMentions(input.monthsExposure < 0.0, MonthsExposure, ExposureNegative, f);
    CheckMentions(input.monthsRepair + input.monthsExposure <= 0.0, MonthsTotal, TotalNotPositive, f);
    CheckMentions(Abs(input.investorProfitSharePct + input.operatorProfitSharePct - 100.0) > 0.01, ProfitSplit,
                  SplitNotWhole, f);
  }

  /** There is an error on a field exactly when that field breaks its rule. */
  lemma ErrorsExactly(input: DealInput, f: Field)
    ensures Mentions(ExpectedErrors(input), f) <==> Violates(input, f)
  {
    MentionsConcat(ListedErrors(input), MonthsAndSplitErrors(input), f);
    ListedErrorsExactly(input, f);
    ChecksExactly(input, f);
  }

  /**
   * The warnings: one on the seller's fee exactly when fee and VAT take 100% or more of
   * the price, one on the sale price exactly when the input is otherwise valid and the
   * price is below break-even, and no other.
   */
  lemma WarningsExactly(input: DealInput, pow: PowFn, f: Field)
    ensures Mentions(ExpectedWarnings(input, pow), f) <==>
      (f == SellerFeePct && SellerFeeRate(input) >= 1.0)
      || (f == SalePrice && |ExpectedErrors(input)| == 0 && input.salePrice < ComputeProject(input, pow).breakEvenSalePrice)
  {
    var breakEven := ComputeProject(input, pow).breakEvenSalePrice;
    var a := Check(SellerFeeRate(input) >= 1.0, SellerFeePct, FeeTakesAll);
    var b := Check(|ExpectedErrors(input)| == 0 && input.salePrice < breakEven, SalePrice,
                   BelowBreakEven(RoundToInt(breakEven)));
    MentionsConcat(a, b, f);
    CheckMentions(SellerFeeRate(input) >= 1.0, SellerFeePct, FeeTakesAll, f);
    CheckMentions(|ExpectedErrors(input)| == 0 && input.salePrice < breakEven, SalePrice,
                  BelowBreakEven(RoundToInt(breakEven)), f);
  }

  /** The input is valid exactly when no field breaks its rule. */
  lemma ValidIffNoViolation(input: DealInput)
    ensures |ExpectedErrors(input)| == 0 <==> forall f: Field :: !Violates(input, f)
  {
    if |ExpectedErrors(input)| > 0 {
      var f := ExpectedErrors(input)[0].field;
      ErrorsExactly(input, f);
    } else {
      forall f: Field ensures !Violates(input, f) {
        ErrorsExactly(input, f);
      }
    }
  }

  /** The reference deal passes validation with no warning. */
  lemma ReferenceDealIsValid(pow: PowFn)
    ensures ExpectedErrors(ReferenceDeal()) == []
    ensures ExpectedWarnings(ReferenceDeal(), pow) == []
  {
    var input := ReferenceDeal();
    forall f: Field ensures !Violates(input, f) { }
    ValidIffNoViolation(input);
    assert SellerFeeRate(input) == 0.042;
    ReferenceDealBreakEven(pow);
  }
}
