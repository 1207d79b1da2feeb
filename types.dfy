/**
 * The records the deal engine reads and produces.  Money is in whole dirhams (AED) as a
 * `real`; percentages are 0..100 as entered in the UI; month counts are reals because
 * the engine does not require them to be whole.
 */
module DealTypes {
  import opened Wrappers

  /** A resale ("secondary") or an off-plan purchase. */
  datatype DealType = Secondary | Offplan

  /** One instalment of an off-plan payment plan; `date` is an ISO date text. */
  datatype PaymentScheduleItem = PaymentScheduleItem(amount: real, date: string)

  datatype DealInput = DealInput(
    dealType: DealType,
    purchasePrice: real,
    dldPct: real,
    buyerFeePct: real,
    buyerFeeVatPct: real,
    trusteeFee: real,
    paidAmount: Option<real>,
    paymentSchedule: Option<seq<PaymentScheduleItem>>,
    renovationBudget: real,
    reservePct: real,
    serviceChargeAnnual: real,
    dewaMonthly: real,
    salePrice: real,
    sellerFeePct: real,
    sellerFeeVatPct: real,
    monthsRepair: real,
    monthsExposure: real,
    investorProfitSharePct: real,
    operatorProfitSharePct: real)

  datatype DealDerived = DealDerived(monthsTotal: real, carryingMonthly: real)

  datatype DealOutputsProject = DealOutputsProject(
    totalCosts: real,
    netProceeds: real,
    profit: real,
    moic: real,
    roiPeriod: real,
    irrAnnual: real,
    aprSimple: real,
    breakEvenSalePrice: real,
    breakEvenGapAbs: real,
    breakEvenGapPctOfPrice: real)

  datatype DealOutputsInvestor = DealOutputsInvestor(
    capital: real,
    profitShare: real,
    cashBack: real,
    moic: real,
    roiPeriod: real,
    irrAnnual: real)

  /** One point of a sensitivity sweep: exactly one of the three axis values is present. */
  datatype SensitivityDataPoint = SensitivityDataPoint(
    salePrice: Option<real>,
    monthsTotal: Option<real>,
    renovationBudget: Option<real>,
    roiPeriod: real,
    irrAnnual: real,
    profit: real)

  datatype SensitivityResult = SensitivityResult(
    bySalePrice: seq<SensitivityDataPoint>,
    byMonths: seq<SensitivityDataPoint>,
    byRenovation: seq<SensitivityDataPoint>)

  /** The fields a validation message can be attached to. */
  datatype Field =
    | DldPct | BuyerFeePct | BuyerFeeVatPct | SellerFeePct | SellerFeeVatPct
    | ReservePct | InvestorProfitSharePct | OperatorProfitSharePct
    | PurchasePrice | SalePrice | RenovationBudget | ServiceChargeAnnual | DewaMonthly | TrusteeFee
    | MonthsRepair | MonthsExposure | MonthsTotal | ProfitSplit
  {
    /** The field name the UI receives. */
    function Key(): string {
      match this
      case DldPct => "dldPct"
      case BuyerFeePct => "buyerFeePct"
      case BuyerFeeVatPct => "buyerFeeVatPct"
      case SellerFeePct => "sellerFeePct"
      case SellerFeeVatPct => "sellerFeeVatPct"
      case ReservePct => "reservePct"
      case InvestorProfitSharePct => "investorProfitSharePct"
      case OperatorProfitSharePct => "operatorProfitSharePct"
      case PurchasePrice => "purchasePrice"
      case SalePrice => "salePrice"
      case RenovationBudget => "renovationBudget"
      case ServiceChargeAnnual => "serviceChargeAnnual"
      case DewaMonthly => "dewaMonthly"
      case TrusteeFee => "trusteeFee"
      case MonthsRepair => "monthsRepair"
      case MonthsExposure => "monthsExposure"
      case MonthsTotal => "monthsTotal"
      case ProfitSplit => "profitSplit"
    }
  }

  /**
   * What a validation message says; `Validation.Text` renders the engine's wording. The
   * break-even warning carries the rounded break-even price it quotes.
   */
  datatype Message =
    | OutOfPercentRange(subject: Field)
    | NegativeAmount(subject: Field)
    | RepairNegative
    | ExposureNegative
    | TotalNotPositive
    | SplitNotWhole
    | FeeTakesAll
    | BelowBreakEven(breakEven: int)

  datatype ValidationError = ValidationError(field: Field, message: Message)

  datatype ValidationResult = ValidationResult(
    isValid: bool,
    errors: seq<ValidationError>,
    warnings: seq<ValidationError>)
}
