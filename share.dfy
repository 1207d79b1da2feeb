/**
 * Share links: a deal is packed under short keys, and unpacked with a default for every
 * key that is missing or zero.  The JSON and base64 layers are taken as exact: the query
 * text stands for the packed record itself, or for text that does not decode.
 */
module Share {
  import opened Wrappers
  import opened DealTypes

  /** The packed record; `None` is a key that is absent (or `undefined`) in the JSON. */
  datatype Compressed = Compressed(
    dt: Option<DealType>,
    pp: Option<real>,
    sp: Option<real>,
    dld: Option<real>,
    bf: Option<real>,
    bfv: Option<real>,
    sf: Option<real>,
    sfv: Option<real>,
    rb: Option<real>,
    rp: Option<real>,
    sc: Option<real>,
    dw: Option<real>,
    tf: Option<real>,
    mr: Option<real>,
    me: Option<real>,
    ip: Option<real>,
    op: Option<real>,
    pa: Option<real>,
    ps: Option<seq<PaymentScheduleItem>>)

  /** `encodeToQuery`: every field under its short key. */
  function EncodeToQuery(input: DealInput): (c: Compressed)
    ensures c.pa == input.paidAmount && c.ps == input.paymentSchedule
    ensures c.dt == Some(input.dealType)
  {
    Compressed(Some(input.dealType), Some(input.purchasePrice), Some(input.salePrice),
               Some(input.dldPct), Some(input.buyerFeePct), Some(input.buyerFeeVatPct),
               Some(input.sellerFeePct), Some(input.sellerFeeVatPct),
               Some(input.renovationBudget), Some(input.reservePct),
               Some(input.serviceChargeAnnual), Some(input.dewaMonthly), Some(input.trusteeFee),
               Some(input.monthsRepair), Some(input.monthsExposure),
               Some(input.investorProfitSharePct), Some(input.operatorProfitSharePct),
               input.paidAmount, input.paymentSchedule)
  }

  /** JavaScript's `x || d` on a number: a missing value or 0 gives way to `d`. */
  function OrDefault(x: Option<real>, d: real): (r: real)
    ensures x.Some? && x.value != 0.0 ==> r == x.value
    ensures (x.None? || x.value == 0.0) ==> r == d
  {
    if x.Some? && x.value != 0.0 then x.value else d
  }

  /** The defaults: 4% land department fee, 2% buyer's fee, 5% VAT, and so on. */
  const DefaultDldPct := 4.0
  const DefaultBuyerFeePct := 2.0
  const DefaultVatPct := 5.0
  const DefaultSellerFeePct := 4.0
  const DefaultReservePct := 15.0
  const DefaultServiceCharge := 6000.0
  const DefaultDewa := 500.0
  const DefaultTrusteeFee := 5000.0
  const DefaultMonthsRepair := 2.0
  const DefaultMonthsExposure := 4.0
  const DefaultShare := 50.0

  /**
   * `decodeFromQuery`: `None` for a query that does not decode (the function's caught
   * exception), otherwise the deal with a default for every missing or zero field.
   */
  function DecodeFromQuery(query: Option<Compressed>): (r: Option<DealInput>)
    ensures r.Some? <==> query.Some?
    ensures query.Some? ==> r.value.paidAmount == query.value.pa && r.value.paymentSchedule.Some?
    ensures query.Some? ==> NoZeroDefaults(r.value)
  {
    match query
    case None => None
    case Some(c) =>
      Some(DealInput(
        dealType := if c.dt.Some? then c.dt.value else Secondary,
        purchasePrice := OrDefault(c.pp, 0.0),
        dldPct := OrDefault(c.dld, DefaultDldPct),
        buyerFeePct := OrDefault(c.bf, DefaultBuyerFeePct),
        buyerFeeVatPct := OrDefault(c.bfv, DefaultVatPct),
        trusteeFee := OrDefault(c.tf, DefaultTrusteeFee),
        paidAmount := c.pa,
        paymentSchedule := Some(if c.ps.Some? then c.ps.value else []),
        renovationBudget := OrDefault(c.rb, 0.0),
        reservePct := OrDefault(c.rp, DefaultReservePct),
        serviceChargeAnnual := OrDefault(c.sc, DefaultServiceCharge),
        dewaMonthly := OrDefault(c.dw, DefaultDewa),
        salePrice := OrDefault(c.sp, 0.0),
        sellerFeePct := OrDefault(c.sf, DefaultSellerFeePct),
        sellerFeeVatPct := OrDefault(c.sfv, DefaultVatPct),
        monthsRepair := OrDefault(c.mr, DefaultMonthsRepair),
        monthsExposure := OrDefault(c.me, DefaultMonthsExposure),
        investorProfitSharePct := OrDefault(c.ip, DefaultShare),
        operatorProfitSharePct := OrDefault(c.op, DefaultShare)))
  }

  /** Every field whose default is not 0 holds a value other than 0. */
  predicate NoZeroDefaults(input: DealInput) {
    && input.dldPct != 0.0 && input.buyerFeePct != 0.0 && input.buyerFeeVatPct != 0.0
    && input.sellerFeePct != 0.0 && input.sellerFeeVatPct != 0.0 && input.reservePct != 0.0
    && input.serviceChargeAnnual != 0.0 && input.dewaMonthly != 0.0 && input.trusteeFee != 0.0
    && input.monthsRepair != 0.0 && input.monthsExposure != 0.0
    && input.investorProfitSharePct != 0.0 && input.operatorProfitSharePct != 0.0
  }

  /**
   * A shared deal comes back as it was exactly when no defaulted field is 0 and it has a
   * payment schedule (an absent schedule comes back empty).
   */
  lemma RoundTrip(input: DealInput)
    ensures DecodeFromQuery(Some(EncodeToQuery(input))) == Some(input)
        <==> NoZeroDefaults(input) && input.paymentSchedule.Some?
  {
    var back := DecodeFromQuery(Some(EncodeToQuery(input)));
    if NoZeroDefaults(input) && input.paymentSchedule.Some? {
      assert back.value == input;
    }
  }

  /** The fields without a default, and the deal type, always survive the trip. */
  lemma UndefaultedFieldsSurvive(input: DealInput)
    ensures var back := DecodeFromQuery(Some(EncodeToQuery(input))).value;
      && back.purchasePrice == input.purchasePrice && back.salePrice == input.salePrice
      && back.renovationBudget == input.renovationBudget && back.dealType == input.dealType
      && back.paidAmount == input.paidAmount
  {
  }

  /** A 0% land department fee comes back as 4%, and a 0-month renovation as 2 months. */
  lemma ZerosComeBackAsDefaults(input: DealInput)
    ensures input.dldPct == 0.0 ==> DecodeFromQuery(Some(EncodeToQuery(input))).value.dldPct == 4.0
    ensures input.monthsRepair == 0.0 ==> DecodeFromQuery(Some(EncodeToQuery(input))).value.monthsRepair == 2.0
  {
  }

  /** Decoding what a decode produced gives it back: a second trip changes nothing. */
  lemma DecodeIsStable(query: Option<Compressed>)
    requires query.Some?
    ensures var once := DecodeFromQuery(query).value;
      DecodeFromQuery(Some(EncodeToQuery(once))) == Some(once)
  {
    RoundTrip(DecodeFromQuery(query).value);
  }

  /** A query that does not decode gives no deal. */
  lemma MalformedQuery()
    ensures DecodeFromQuery(None) == None
  {
  }
}
