# Flip deal calculator — verified model

This project models the calculation core of a Dubai real-estate "flip" calculator. A flip
buys a flat, renovates it, lists it and sells it, and the calculator reports what the deal
returns. In Dafny the project models:

- **The engine** (`Core`, `Sensitivity`, `Validation`):
  - what the deal costs: purchase, land department fee, buyer's agent fee with VAT, renovation
    with reserve, monthly carrying costs, trustee fee;
  - what the sale nets after the seller's agent fee and its VAT;
  - profit, multiple on invested capital (MOIC), period ROI, compound annual IRR and simple
    annual rate;
  - the break-even sale price and the gap to it;
  - the investor's share of the deal;
  - the sensitivity sweeps over sale price, months and renovation budget;
  - input validation with its errors and warnings.
- **Money helpers** (`Money`): rounding to whole dirhams, the en-US money format with thousands
  grouping, the one-decimal percent format, and the two text parsers. The parsers rely on a
  model of JavaScript's `parseFloat`.
- **The older single-page calculator** (`FlipCalculator`, `EarlyDiscount`):
  - its unrounded deal arithmetic, with 5% VAT on both commissions;
  - its ±10% sensitivity table;
  - its early-sale table. Each row either discounts the price for a sale before the listing ends
    or solves for the price that yields an ROI or IRR the user typed for that week.
  - the map of typed overrides, as a class that the edit and clear handlers update.
- **The UI pieces with logic** (`Scenarios`, `SectionSplit`, `InputField`):
  - the conservative and optimistic scenario cards;
  - the linked investor/operator profit-split boxes;
  - the numeric input box's sanitise–parse–clamp handler.
- **Share links** (`Share`): the short-key packing of a deal and its unpacking with defaults.
- **The IRR formula check** (`IrrCheck`): the stand-alone restatement of profit, ROI and IRR,
  with its net-present-value check.

**How JavaScript semantics are modelled**

- Numbers are mathematical reals.
- `Math.round` is `Floor(x + 1/2)`, so ties round toward +∞.
- `Math.pow` is a parameter `pow` of type `PowFn`. Properties that need exponent laws require
  `Power.IsPow(pow)`, which lists only the laws used: b¹ = b, b⁰ = 1, 1ᵉ = 1, positivity,
  reciprocal exponents cancel, and strict monotonicity in base and exponent.
- Where the older page divides without a guard, results are `JsNumber.Num`. That is either a
  finite value or `NotFinite`, which stands for NaN and ±Infinity.

**Rounding of halves**

- `roundMoney` is `Math.round`, so halves round toward +∞ and `roundMoney(-1.5)` is -1
  (`Money.RoundMoneyExamples`).

## Model

| member | source | states |
|---|---|---|
| Money.RoundMoney | src/calculations/money.ts:10-12 | the result is a whole number within (x − ½, x + ½] |
| Money.RoundMoneyUnique | src/calculations/money.ts:10-12 | any whole number within (x − ½, x + ½] is the rounding of x, so rounding is characterised by that window |
| Money.RoundMoneyIdempotent | src/calculations/money.ts:10-12 | rounding twice gives the same as rounding once |
| Money.RoundMoneyShift | src/calculations/money.ts:10-12 | adding a whole amount commutes with rounding |
| Money.RoundMoneyMonotone | src/calculations/money.ts:10-12 | rounding preserves order |
| Money.RoundMoneyExamples | src/tests/formatting.test.ts:9-13 | 1234.567 → 1235, 1234.4 → 1234, −1234.567 → −1235, and a tie −1.5 → −1 |
| Money.ToRate | src/calculations/money.ts:38-40 | the rate times 100 is the percentage |
| Money.ToPct | src/calculations/money.ts:45-47 | the percentage over 100 is the rate |
| Money.RateRoundTrip | src/calculations/money.ts:38-47 | toRate and toPct are mutual inverses, in both orders |
| Money.RateExamples | src/tests/formatting.test.ts:41-51 | 100 ↔ 1, 50 ↔ 0.5, 4 ↔ 0.04 |
| Money.ParseFloat | src/calculations/money.ts:54 | parseFloat yields a number exactly when the text starts with an optional sign and then a digit, or a dot followed by a digit |
| Money.IntTextRoundTrip | src/calculations/money.ts:54 | parseFloat reads back the decimal text of every integer, negative ones included |
| Money.ParseDigits | src/calculations/money.ts:54 | a run of digits parses to its decimal value |
| Money.ParseNegativeDigits | src/calculations/money.ts:54 | "-" followed by digits parses to minus their value |
| Money.ParseOneDecimal | src/calculations/money.ts:54 | a signed numeral with one fraction digit, followed by a non-digit tail, parses to its value |
| Money.FilterConcat | src/calculations/money.ts:53 | the character filter distributes over concatenation |
| Money.Filter | src/calculations/money.ts:53 | the filtered text holds only digits, '.' and ASCII '-', and is no longer than the input |
| Money.FilterAllKept | src/calculations/money.ts:53 | text of digits, dots and ASCII minus signs passes the filter unchanged |
| Money.FilterNone | src/calculations/money.ts:53 | text with none of those characters filters to the empty string |
| Money.ParseMoney | src/calculations/money.ts:52-56 | 0 when the filtered text does not parse, otherwise the rounding of the parsed value; always a whole number and never an error |
| Money.ParsePct | src/calculations/money.ts:61-65 | 0 when the filtered text does not parse, otherwise the parsed value unrounded |
| Money.ParseMoneyExamples | src/tests/formatting.test.ts:28 | "1,234,567" parses to 1234567 |
| Money.ParsePctExamples | src/tests/formatting.test.ts:55-56 | "100" parses to 100 and "4.5" to 4.5 |
| Money.GroupThousands | src/calculations/money.ts:19-22 | grouping adds one comma per three digits and leaves only digits and commas |
| Money.GroupThousandsCommas | src/calculations/money.ts:19-22 | a character of the grouped text is a comma exactly when it is a multiple of four places from the right end, so the commas split the digits into threes from the right |
| Money.UngroupThousands | src/calculations/money.ts:19-22 | filtering grouped digits removes exactly the commas |
| Money.FmtMoney | src/calculations/money.ts:17-26 | starts with U+2212 exactly when the rounded amount is negative, and ends with " AED" |
| Money.FilterFmtMoney | src/calculations/money.ts:17-26 | filtering a formatted amount leaves the digits of the magnitude of its rounding |
| Money.FmtMoneyExamples | src/tests/formatting.test.ts:16-18 | 1234567 → "1,234,567 AED", 1000 → "1,000 AED", 0 → "0 AED" |
| Money.MoneyRoundTrip | src/calculations/money.ts:17-26 | parseMoney(fmtMoney(x)) = roundMoney(x) whenever the rounding is not negative |
| Money.ToFixed1 | src/calculations/money.ts:32 | toFixed(1) text has one fraction digit and starts with '-' exactly for a negative number |
| Money.Round1 | src/calculations/money.ts:32 | the one-decimal rounding is within 0.05 of x |
| Money.FmtPct | src/calculations/money.ts:31-33 | one fraction digit followed by '%' |
| Money.FilterFmtPct | src/calculations/money.ts:31-33 | filtering a formatted percentage leaves its toFixed(1) text |
| Money.PctRoundTrip | src/calculations/money.ts:31-33 | parsePct(fmtPct(x)) is x rounded to one decimal, for every sign |
| Money.FmtPctExamples | src/tests/formatting.test.ts:36-38 | 24.267 → "24.3%", 100 → "100.0%", 0 → "0.0%" |
| Money.NegativeMoneyLosesSign | src/calculations/money.ts:24 | for a negative rounding, parseMoney(fmtMoney(x)) is the magnitude and differs from roundMoney(x) |
| Money.NegativeMoneyExample | src/calculations/money.ts:24 | parseMoney(fmtMoney(−1234567)) is 1234567 |
| Money.ParseMoneySigned | src/calculations/money.ts:52-56 | the corrected parser reads U+2212 as a minus sign; it always returns a whole number |
| Money.ParseMoneySignedAgrees | src/calculations/money.ts:52-56 | on text without U+2212 the corrected parser agrees with parseMoney |
| Money.SignedMoneyRoundTrip | src/calculations/money.ts:17-26 | the corrected parser reads back every formatted amount: ParseMoneySigned(fmtMoney(x)) = roundMoney(x) |
| JsNumber.Div | src/App.jsx:467 | an unguarded division is finite exactly when both operands are finite and the divisor is non-zero, and the quotient times the divisor gives back the dividend |
| JsNumber.PowNum | src/App.jsx:467 | Math.pow with exponent 0 is 1 even for NaN; on a positive base and finite exponent it is the power; a negative base with a fractional exponent gives NaN; a zero base gives 0 under a positive exponent and +Infinity under a negative one |
| JsNumber.Round | src/App.jsx:614-618 | Math.round on a number is a whole number within (x − ½, x + ½] and NaN stays NaN |
| Power.CompoundAnnualSign | src/calculations/core.ts:71-74 | for a positive multiple over a positive period, the compound annual rate is positive iff the multiple exceeds 1, and negative iff it is below 1 |
| Power.CompoundAnnualAtTwelve | src/calculations/core.ts:73 | over twelve months the compound annual rate is the multiple less 1 |
| Power.CompoundAnnualDecreasesWithMonths | src/calculations/core.ts:73 | for a multiple above 1, the rate falls as the period lengthens |
| Power.CompoundAnnualDiscounts | test_irr.js:44 | compounding at the annual rate over the period gives back the multiple |
| Core.ComputeDerived | src/calculations/core.ts:19-27 | the months add up, and the monthly carrying cost is the whole number nearest service charge / 12 + DEWA |
| Core.TotalCosts | src/calculations/core.ts:37-56 | the total cost is the rounding of the itemised gross cost, so it is whole and within ½ of it |
| Core.NetProceeds | src/calculations/core.ts:59-63 | the net proceeds are whole and within ½ of the price less the seller's fee with VAT |
| Core.NetProceedsItemised | src/calculations/core.ts:59-63 | that equals the source's itemised form: price − fee − VAT on the fee, then rounded |
| Core.Ratio | src/calculations/core.ts:67-68 | a guarded ratio: a / b for b > 0, one that times b gives a, and 0 otherwise |
| Core.AnnualRate | src/calculations/core.ts:71-74 | the compound annual rate when the period and the multiple are positive, and 0 otherwise |
| Core.SimpleRate | src/calculations/core.ts:77 | the simple annual rate: 12 × ROI / months for a positive period, and 0 otherwise |
| Core.BreakEvenPrice | src/calculations/core.ts:82-85 | with positive costs and a fee rate below 1, a whole price whose net share is within ½ × (1 − rate) of the costs; 0 otherwise |
| Core.ComputeProject | src/calculations/core.ts:32-104 | what it states:<br>• costs and proceeds are whole and each within ½ of its exact amount;<br>• profit = proceeds − costs;<br>• MOIC and ROI are ratios to the costs, with ROI = MOIC − 1, and both are 0 without costs;<br>• IRR is the compound annual rate when the period, costs and proceeds are all positive, and 0 otherwise;<br>• APR is the simple rate;<br>• the break-even price follows BreakEvenPrice, and the gap adds back to the sale price;<br>• the gap percentage is guarded by the sale price |
| Core.BreakEvenNetIsCosts | src/calculations/core.ts:82-85 | a whole net within ½ of the break-even price's net share equals the costs |
| Core.BreakEvenIsFixedPoint | src/tests/calculations.test.ts:60-63 | for 0 ≤ fee rate < 1 and positive costs, selling at the break-even price gives a profit of exactly 0 |
| Core.IrrSignFollowsProfit | src/calculations/core.ts:66-74 | with a positive period, costs and proceeds, IRR < 0 iff the deal loses money, and IRR > 0 iff it makes money |
| Core.AnnualRateMonotone | src/calculations/core.ts:71-74 | a larger multiple never gives a smaller annual rate |
| Core.ComputeInvestor | src/calculations/core.ts:109-136 | what it states:<br>• capital and profit share are whole;<br>• the share is within ½ of profit × the investor's percentage, with no floor on losses;<br>• with whole costs, cash back = capital + share exactly;<br>• MOIC = 1 + ROI, and both are 0 without capital;<br>• IRR is the compound annual rate when defined, and 0 otherwise |
| Core.InvestorReturnIsShareOfProject | src/calculations/core.ts:117-121 | the investor's ROI is the project ROI times the investor's percentage |
| Core.InvestorTakingAllMatchesProject | src/calculations/core.ts:109-136 | an investor owning 100% of the profit sees exactly the project's figures |
| Core.InvestorIrrAtMostProject | src/calculations/core.ts:120-126 | for a share in [0, 100] and a non-negative profit, the investor's IRR is at most the project's |
| Core.ReferenceDealCosts | src/tests/calculations.test.ts:32-42 | the reference deal costs 1773290, nets 2203400 and makes 430110 |
| Core.ReferenceDealBreakEven | src/tests/calculations.test.ts:62-76 | its break-even price is 1851033 and the investor's half of the profit is 215055 |
| Core.ReferenceDealAtLoss | src/tests/calculations.test.ts:102 | sold for 1500000, it loses money and has a negative IRR |
| Sensitivity.SalePricePoint | src/calculations/core.ts:149-160 | a sale-price point carries the rounded scaled price and no months or renovation value |
| Sensitivity.RenovationPoint | src/calculations/core.ts:193-204 | a renovation point carries the rounded scaled budget and no price or months value |
| Sensitivity.BySalePrice | src/calculations/core.ts:148-160 | seven points; point i carries roundMoney(price × the i-th multiplier 0.85 … 1.15) and no months or budget value |
| Sensitivity.ByRenovation | src/calculations/core.ts:192-204 | five points; point i carries roundMoney(budget × the i-th multiplier 0.8 … 1.2) and no price or months value |
| Sensitivity.MonthsPoint | src/calculations/core.ts:169-188 | a months point keeps the base proceeds and adds one month of carrying per month beyond the planned period: profit = roundMoney(net − costs − carrying × (months − M)) |
| Sensitivity.ByMonths | src/calculations/core.ts:169-189 | one point per period of the sweep; point i is at M + i months and carries no price or budget value |
| Sensitivity.MonthsSweep | src/calculations/core.ts:163-167 | the months run M, M+1, … up to max(M + 6, 12), at least 7 of them, with the next one past the end |
| Sensitivity.MonthsRange | src/calculations/core.ts:163-167 | the loop builds exactly that sweep |
| Sensitivity.ComputeSensitivity | src/calculations/core.ts:141-211 | the three sweeps are the sale-price, months and renovation sweeps |
| Sensitivity.SweepShape | src/calculations/core.ts:148-204 | 7 sale-price points, 5 renovation points, and months points i at M + i that pass max(M + 6, 12) |
| Sensitivity.SalePriceAnchor | src/tests/calculations.test.ts:197-219 | for a whole sale price, the middle point reproduces the price, profit, IRR and ROI of the deal |
| Sensitivity.RenovationAnchor | src/calculations/core.ts:192-204 | for a whole budget, the middle renovation point reproduces the budget and the deal's figures |
| Sensitivity.MonthsAnchor | src/calculations/core.ts:169-189 | the first months point reproduces the deal's months, profit, ROI and IRR |
| Sensitivity.MonthsProfitDecline | src/calculations/core.ts:171-187 | point j's profit is the deal's profit less j months of carrying cost |
| Sensitivity.MonthsIrrFalls | src/tests/calculations.test.ts:221-229 | for a profitable deal with a positive period and non-negative carrying cost, the last months point has a lower IRR than the first |
| Sensitivity.SalePriceSweepOrdered | src/calculations/core.ts:148-160 | for a non-negative price and a fee rate of at most 1, profit does not fall along the sale-price sweep |
| Sensitivity.RenovationSweepOrdered | src/calculations/core.ts:192-204 | for a non-negative budget and reserve ≥ −100%, profit does not rise along the renovation sweep |
| Validation.FieldErrors | src/calculations/core.ts:232-260 | one rule over a field list raises at most one error per field |
| Validation.ExpectedErrors | src/calculations/core.ts:216-292 | at most one error per check (8 percentages, 6 amounts, 4 period and split checks); a non-positive period always gives an error; a split off 100 by more than 0.01 gives the profitSplit error last |
| Validation.ExpectedWarnings | src/calculations/core.ts:294-312 | at most two warnings; a fee rate ≥ 1 puts the sellerFeePct warning first; with any error, only that warning can appear |
| Validation.CollectFieldErrors | src/calculations/core.ts:232-260 | the forEach pass builds exactly those errors |
| Validation.CollectMonthsAndSplitErrors | src/calculations/core.ts:263-292 | the period and split checks build exactly their errors, in order |
| Validation.CollectWarnings | src/calculations/core.ts:295-312 | the warnings: fee rate ≥ 1, and the break-even warning only when there are no errors |
| Validation.ValidateInput | src/calculations/core.ts:216-319 | the errors and warnings in the source's order and wording, and isValid iff there are no errors |
| Validation.FieldErrorsMention | src/calculations/core.ts:232-260 | a field list's pass mentions a field iff the field is listed and breaks the rule |
| Validation.ErrorsExactly | src/calculations/core.ts:216-292 | an error names a field iff that field violates its constraint: percent outside [0, 100], negative amount or period, total period ≤ 0, split off 100 by more than 0.01 |
| Validation.WarningsExactly | src/calculations/core.ts:295-312 | a seller-fee warning iff the fee rate ≥ 1; a sale-price warning iff there are no errors and the price is below break-even |
| Validation.ValidIffNoViolation | src/calculations/core.ts:314-315 | the input is valid iff no field violates its constraint |
| Validation.ReferenceDealIsValid | src/tests/calculations.test.ts:138-193 | the reference deal raises no errors and no warnings |
| FlipCalculator.Calculate | src/App.jsx:421-510 | what it states:<br>• the months add;<br>• net revenue is the price less 1.05 × commission;<br>• profit = net − costs;<br>• ROI is a percentage of the costs, 0 without costs;<br>• IRR is 100 × ((net / costs)^(12 / months) − 1) with a positive period, costs and net, and 0 otherwise;<br>• the two profit shares add up to max(0, profit), with the investor taking its percentage of it;<br>• investor total = costs + investor share;<br>• break-even is finite iff the net share is non-zero |
| FlipCalculator.TotalCostsCollected | src/App.jsx:429-452 | total costs = purchase + DLD + 1.05 × buyer commission + renovation × (1 + contingency) + monthly carrying × months + trustee fee, unrounded |
| FlipCalculator.NetOfCommissionIsShare | src/App.jsx:455-460 | the net of commission is the price times 1 − 1.05 × commission |
| FlipCalculator.BreakEvenRecoversCosts | src/App.jsx:477 | a finite break-even price nets exactly the total costs |
| FlipCalculator.SharesNonNegative | src/App.jsx:471-474 | for a split in [0, 100], both profit shares are non-negative |
| FlipCalculator.LossIsNotShared | src/App.jsx:471-474 | a loss gives both parties a zero share, and the investor gets back the costs |
| FlipCalculator.IrrSignFollowsProfit | src/App.jsx:465-468 | with a positive period, costs and net, IRR > 0 iff the deal makes money |
| FlipCalculator.VariationLabel | src/App.jsx:547 | the label ends in '%' |
| FlipCalculator.SensitivityData | src/App.jsx:526-552 | one row per variation −10, −5, 0, 5, 10 |
| FlipCalculator.SensitivityRowAt | src/App.jsx:531-550 | the row's label is the variation's; the price column is the net of commission at price × (1 + pct/100) less the costs; the renovation column is the net less the costs with the renovation line rebuilt from budget × (1 + pct/100) and its contingency |
| FlipCalculator.SensitivityLabels | src/App.jsx:547 | the labels are "-10%", "-5%", "0%", "+5%", "+10%" |
| FlipCalculator.SensitivityAnchor | src/App.jsx:529-551 | the 0% row shows the deal's profit in both columns |
| FlipCalculator.SensitivityRowShift | src/App.jsx:531-545 | the price column is the profit plus the net share of the price change; the renovation column is the profit less the reserve-inclusive budget change |
| FlipCalculator.SensitivityOrdered | src/App.jsx:531-545 | for non-negative price, net share and budget, the price column rises and the renovation column falls down the table |
| EarlyDiscount.ParseNum | src/App.jsx:570 | parseFloat is a finite number exactly when the text starts like a number |
| EarlyDiscount.RowOf | src/App.jsx:607-622 | a row rounds the quoted price, the profit at that price and the discount from the list price, and keeps the quote's ROI and IRR cells |
| EarlyDiscount.DiscountedPrice | src/App.jsx:553-594 | the discounted price is never negative, and it is the list price (floored at 0) at the end of the listing or with a zero target return |
| EarlyDiscount.DiscountQuote | src/App.jsx:591-605 | without an override the quote is the discounted price, and both cells are computed from it: ROI of its profit and the annual IRR of its net |
| EarlyDiscount.RoiQuote | src/App.jsx:569-581 | an ROI override shows the typed text, computes the IRR cell from the quoted price's net, and has a finite price only when the net share is non-zero |
| EarlyDiscount.IrrQuote | src/App.jsx:582-589 | an IRR override shows the typed text; its ROI cell is (target net − cost) / cost × 100 for the target net cost × (1 + irr/100)^(months/12); it has a finite price only when the net share is non-zero |
| EarlyDiscount.IrrQuoteRoi | src/App.jsx:582-589 | for an IRR above −100%, a non-zero period and a non-zero cost, the ROI cell is 100 × ((1 + irr/100)^(months/12) − 1), the row's own profit over its cost |
| EarlyDiscount.QuoteAt | src/App.jsx:566-605 | a week without an override quotes the discounted price with two computed cells; an ROI or IRR override shows the typed text in its own cell and computes the other |
| EarlyDiscount.WeekCount | src/App.jsx:560 | rows for weeks 0, 2, 4, … up to the listing length, and no further |
| EarlyDiscount.EarlyDiscountTable | src/App.jsx:559-623 | one row per even week of the listing |
| EarlyDiscount.TableRow | src/App.jsx:559-623 | row i is week 2i, quoted by its override or by the discount |
| EarlyDiscount.EarlyDiscountData | src/App.jsx:553-625 | the loop builds exactly that table |
| EarlyDiscount.SaleNetOfQuotient | src/App.jsx:572-577 | the net of target net / net share gives back the target net exactly |
| EarlyDiscount.DiscountedPriceBounds | src/App.jsx:592-594 | for a non-negative price and target return, and a week inside the listing, the discounted price lies in [0, price] |
| EarlyDiscount.DiscountRowBounds | src/App.jsx:591-617 | a week without an override shows a finite price of at most the list price (after rounding) and a non-negative discount |
| EarlyDiscount.RoiQuotePrice | src/App.jsx:569-573 | an ROI override nets (1 + roi / 100) × cost and shows the typed text |
| EarlyDiscount.RoiQuoteMeetsTarget | src/App.jsx:569-577 | the ROI of the quoted price is exactly the typed ROI |
| EarlyDiscount.IrrQuotePrice | src/App.jsx:582-586 | an IRR override above −100% nets cost × (1 + irr / 100)^(months / 12) and shows the typed text |
| EarlyDiscount.IrrQuoteMeetsTarget | src/App.jsx:582-586 | for a positive cost and period, the annual IRR of the quoted price is exactly the typed IRR |
| EarlyDiscount.RoiOverrideMet | src/App.jsx:566-618 | a week with an ROI override shows profit roi / 100 × cost, and renders the typed ROI |
| EarlyDiscount.IrrOverrideMet | src/App.jsx:566-618 | a week with an IRR override above −100% shows profit cost × (1 + irr / 100)^(months / 12) − cost, and renders the typed IRR |
| EarlyDiscount.IrrOverrideBelowTotalLoss | src/App.jsx:582-586 | an IRR override below −100% at a week that is not a whole number of years in gives a NaN price and profit, and the ROI cell shows "NaN" |
| EarlyDiscount.OverrideIsLocal | src/App.jsx:627-637 | overrides that differ only at week w leave every other row of the table unchanged |
| EarlyDiscount.CustomMetrics.HandleMetricEdit | src/App.jsx:627-629 | the edit sets the override of its week, and every other week keeps its override or its absence |
| EarlyDiscount.CustomMetrics.ClearCustomMetric | src/App.jsx:631-637 | the clear removes the override of its week and nothing else |
| EarlyDiscount.EditThenClear | src/App.jsx:627-637 | editing a week and then clearing it is the same as clearing it |
| Scenarios.VariantAdjustments | src/components/Scenarios.tsx:16-29 | the conservative card is price × 0.9, budget × 1.1 and exposure + 2; the optimistic card is price × 1.05 and budget × 0.95; no other field changes |
| Scenarios.ConservativeInput | src/components/Scenarios.tsx:16-21 | only price, exposure and budget differ from the base; the exposure is longer, and for non-negative values the price is no higher and the budget no lower |
| Scenarios.OptimisticInput | src/components/Scenarios.tsx:24-29 | only price, exposure and budget differ from the base; the exposure is at least 1 and at least the base less one month, and for non-negative values the price is no lower and the budget no higher |
| Scenarios.OptimisticExposure | src/components/Scenarios.tsx:27 | the optimistic exposure is one month less but at least 1 |
| Scenarios.OptimisticCanLengthenExposure | src/components/Scenarios.tsx:27 | so an exposure under one month grows in the optimistic case |
| Scenarios.ScenarioCards | src/components/Scenarios.tsx:31-57 | three cards in the order conservative, base, optimistic; the base card is the unmodified deal; each card's project is computeProject of its input |
| Scenarios.ConservativeNoBetter | src/components/Scenarios.tsx:16-32 | for an ordinary deal, the conservative card never shows more profit than the base |
| Scenarios.OptimisticNoWorse | src/components/Scenarios.tsx:24-33 | for an ordinary deal listed for at least a month, the optimistic card never shows less profit |
| Scenarios.CardsOrdered | src/components/Scenarios.tsx:31-57 | the cards go from least to most profit |
| InputField.HandleChange | src/components/InputField.tsx:41-58 | what it states:<br>• an empty or "-" box emits 0;<br>• unparseable text emits nothing;<br>• a value above max becomes max, since max is checked last;<br>• a value below min and not above max becomes min;<br>• a value inside the bounds is emitted unchanged;<br>• so the emitted value lies within the bounds when they are in order |
| InputField.NotNumbers | src/components/InputField.tsx:45-50 | "", "-", "." and "--" do not parse |
| SectionSplit.SplitForm.HandleInvestorChange | src/components/SectionSplit.tsx:16-19 | the investor share is the value and the operator share is 100 minus it, so the split is not flagged |
| SectionSplit.SplitForm.HandleOperatorChange | src/components/SectionSplit.tsx:21-24 | the mirror image for the operator box |
| SectionSplit.SplitForm.IsInvalidSplit | src/components/SectionSplit.tsx:26-27 | shares summing to exactly 100 are not flagged, and unflagged shares sum to within 0.01 of 100 |
| SectionSplit.SplitForm.TypeInvestor | src/components/SectionSplit.tsx:16-19 | the new state after typing into the box bounded by [0, 100]: an empty box or "-" gives investor 0 and operator 100; text that is not a number leaves both shares; a number is clamped to [0, 100] and the operator gets the rest of 100 |
| SectionSplit.SplitForm.TypeOperator | src/components/SectionSplit.tsx:21-24 | the same new state for the operator box, with the roles swapped |
| SectionSplit.SplitFlagMatchesValidation | src/components/SectionSplit.tsx:26-27 | the section flags a split exactly when input validation reports a profit-split error |
| Share.EncodeToQuery | src/utils/share.ts:12-37 | every field goes under its short key, and paidAmount and the schedule pass as they are |
| Share.OrDefault | src/utils/share.ts:49-64 | `x \|\| d`: the value when present and non-zero, and the default otherwise |
| Share.DecodeFromQuery | src/utils/share.ts:42-72 | no deal for an undecodable query; otherwise every defaulted field is non-zero, paidAmount passes through and the schedule is present |
| Share.RoundTrip | src/utils/share.ts:12-67 | decode(encode(x)) = x iff no defaulted field is 0 and x has a schedule |
| Share.UndefaultedFieldsSurvive | src/utils/share.ts:48-65 | prices, budget, deal type and paidAmount always survive the trip |
| Share.ZerosComeBackAsDefaults | src/utils/share.ts:51-61 | a 0% land department fee comes back as 4%, and 0 repair months come back as 2 |
| Share.DecodeIsStable | src/utils/share.ts:12-67 | a decoded deal survives a second trip unchanged |
| IrrCheck.CalculateMetrics | test_irr.js:7-17 | profit = net − cost; ROI × cost = 100 × profit when cost ≠ 0; IRR is finite only when cost and months are non-zero, and is then 100 × the compound annual rate for a positive net/cost multiple; a zero net over a positive period gives −100 |
| IrrCheck.RoiIsPeriodReturn | test_irr.js:11 | ROI = 100 × (net / cost − 1) |
| IrrCheck.IrrIsRoiAtTwelveMonths | test_irr.js:49-55 | over 12 months IRR equals ROI |
| IrrCheck.QuickDealIrrAboveRoi | test_irr.js:57-63 | a profitable deal held under a year has IRR > ROI |
| IrrCheck.SlowDealIrrBelowRoi | test_irr.js:65-71 | a profitable deal held over a year has IRR < ROI |
| IrrCheck.NpvAtIrrIsZero | test_irr.js:43-46 | discounted at its own IRR the deal's net present value is exactly 0 |
| IrrCheck.TwelveMonthExample | test_irr.js:49-55 | 100000 in and 120000 back after 12 months is 20% ROI and 20% IRR |

## Left out

- Browser I/O: storage, geocoding, property save and load, printing, export, clipboard and
  routing. None of it computes deal figures.
- Components that only pass fields on: the section components, the sensitivity charts, the KPI
  header and the tabs.
- InvestorView's operator share is (cash back − capital) − profit share, which is identically 0.
  That is a display bug, and it is not modelled as behaviour.
- Off-plan remaining debt. The engine never reads the deal type, paid amount or payment
  schedule. They are carried in `DealInput` and through share links, and nothing is computed
  from them.
- IEEE-754 doubles. Numbers are reals, so float drift behind the tests' close-to comparisons is
  not modelled. `toFixed(1)` is exact decimal rounding to one place, with ties going away from
  zero.
- Locale formatting. Only the en-US comma grouping used by fmtMoney is modelled; the ru-RU
  currency format of the older page is not.
- Math.pow is a parameter with the listed laws, which are not derived from a definition. Its
  values on a negative base with a whole exponent are unconstrained.
- JsNumber.PowNum: a non-finite operand gives `NotFinite` unless the exponent is 0. JavaScript
  gives 0 for an infinite base under a negative exponent, and for a base below 1 in size under
  +Infinity; `NotFinite` does not record which infinity it stands for. Overflow of a finite
  power to Infinity is not modelled.
- IrrCheck.CalculateMetrics: at totalMonths = 0 the exponent 12/0 is +Infinity, so JavaScript
  gives irr = −100 when the net/cost multiple is below 1 in size; the model gives `NotFinite`
  there, as it does for every zero period.
- NaN, +Infinity and −Infinity are one `NotFinite` value. The early-sale table renders any of
  them as "NaN", where a browser would show "Infinity" for a division by zero.
- parseFloat is modelled without leading-whitespace skipping and without the "Infinity" literal.
  The texts that reach it are the filtered strings and typed override values.
- Money.ParseMoneyExamples: covers "1,234,567" but not the two other parsing cases of the tests,
  "1 234 567 AED" and "1234.56", whose literal-string proofs are out of reach of the solver's
  budget here.
- Validation messages are a `Message` datatype rendered by `Text`. The break-even amount in the
  warning is kept as an integer parameter of the message.
- Validation.ValidateInput: its two `forEach` passes and its if-chains are split into the helper
  methods `CollectFieldErrors`, `CollectMonthsAndSplitErrors` and `CollectWarnings`.
- Core.NetProceeds: defined as the rounding of price × (1 − fee rate). The source's itemised
  subtraction is proved equal to it in `NetProceedsItemised`.
- EarlyDiscount: the ROI and IRR cells hold either the typed text or a number. `Render` shows a
  number with `toFixed(1)`; the week label is not given properties.
- Share: JSON and base64 are taken as exact. An undecodable query is `None`. JSON's mapping of
  NaN to null is not modelled.
- Scenarios.OptimisticNoWorse: requires an exposure of at least one month. Below that, the
  optimistic card lengthens the exposure, and its profit can be lower.
- Money.MoneyRoundTrip: holds only for non-negative amounts. Negative amounts lose their sign;
  see the finding below.

## Findings

| source | as written | input that shows it | evidently intended | confidence | as-written member | corrected member |
|---|---|---|---|---|---|---|
| src/calculations/money.ts:24, 53 | fmtMoney writes a negative amount with U+2212 (−), and parseMoney's filter keeps only digits, '.' and ASCII '-', so the sign is dropped | parseMoney(fmtMoney(−1234567)) is 1234567, not −1234567 | parseMoney reads back what fmtMoney writes, sign included | not executed | Money.NegativeMoneyLosesSign | Money.SignedMoneyRoundTrip |
