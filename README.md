# Sale profit calculations, modelled in Dafny

This project models the financial calculation module of a marketplace
pricing tool (`src/utils/calculations.ts`). The module works out five things:

- the profit of selling a number of units in one sale on a marketplace;
- the same profit under its alias, the base profit;
- the profit when every unit is its own sale;
- a comparison of the two;
- the price at which the seller could sell outside the marketplace and
  keep the separate-sales profit while the customer pays less.

The marketplace charges three fees on each sale:

- a fixed fee deducted from the revenue before the percentage;
- the percentage (the platform rate), taken of what is left;
- a fixed fee added after the percentage.

The module computes with arbitrary-precision decimals and renders every
figure it returns with exactly 8 fractional digits, rounding half up (ties
go away from zero).

The project has two modules, in two files:

- `Decimal8` (`decimal8.dfy`) covers the output rounding. `Round8` models
  `toNumber8`. Values are exact reals, and "8-digit value" (`Fixed8`) means
  a real with at most 8 fractional digits. The module proves that `Round8`
  is a nearest 8-digit value with ties away from zero, that it is
  idempotent and monotone, and that it leaves 8-digit values unchanged.
- `Calculations` (`calculations.dfy`) covers the five operations.
  - Each one is a function over a `SaleParams` value.
  - Each is stated against a closed form of the profit, or against the
    exact figures it rounds.
  - Where the source reads an already rounded profit back into further
    arithmetic (the comparison and the direct-sale analysis), the model
    does the same. Their contracts say which identities survive the
    rounding exactly and which hold only to within one rounding.
  - `DirectPriceDoubleRounding` gives concrete inputs for which the
    direct price per unit (rounded twice) differs from rounding the
    per-unit figure once.

## Model

| member | source | states |
|---|---|---|
| Decimal8.Round8 | src/utils/calculations.ts:25-29 | the rendered value has at most 8 fractional digits, lies within half a unit of the 8th digit of the input, breaks an exact tie away from zero, and keeps the sign |
| Decimal8.Round8Nearest | src/utils/calculations.ts:25-29 | no 8-digit value is closer to the input than the rendered value |
| Decimal8.Round8OfFixed | src/utils/calculations.ts:25-29 | rendering a value that already has 8 digits returns it unchanged |
| Decimal8.Round8Idempotent | src/utils/calculations.ts:25-29 | rendering twice is rendering once |
| Decimal8.Round8Monotone | src/utils/calculations.ts:25-29 | rendering never reverses the order of two values |
| Decimal8.Fixed8Gap | src/utils/calculations.ts:25-29 | two different 8-digit values are at least one unit of the 8th digit apart |
| Decimal8.Fixed8AddSub | src/utils/calculations.ts:112 | sums and differences of 8-digit values are 8-digit values, so the difference of two rendered profits is exact |
| Decimal8.Fixed8TimesWhole | src/utils/calculations.ts:148 | an 8-digit price times a whole quantity is an 8-digit value |
| Calculations.SaleFeesAffine | src/utils/calculations.ts:43-49 | the fees of one sale are the fixed burden, before-fee × (1 − rate) + after-fee, plus the rate times the revenue |
| Calculations.CalculateTotalProfit | src/utils/calculations.ts:32-55 | the batch profit is `Round8` of `TotalProfitDecimal` (the exact chain of lines 40-53): an 8-digit value within one rounding of (q·price − before-fee)·(1 − rate) − after-fee − q·cost |
| Calculations.CalculateBaseProfit | src/utils/calculations.ts:57-60 | the base profit is an 8-digit value |
| Calculations.BaseProfitIsTotalProfit | src/utils/calculations.ts:57-60 | the base profit equals the batch profit for every input |
| Calculations.UnitSaleProfitIsMargin | src/utils/calculations.ts:75-91 | the per-unit profit computed step by step equals the closed-form margin (price − before-fee)·(1 − rate) − after-fee − cost |
| Calculations.CalculateProfitSeparateSales | src/utils/calculations.ts:66-97 | the separate-sales profit is `Round8` of `SeparateProfitDecimal` (the exact chain of lines 75-94): an 8-digit value within one rounding of the quantity times the closed-form margin |
| Calculations.SeparateProfitLinear | src/utils/calculations.ts:91-94 | before rounding, the separate-sales profit is additive in the quantity |
| Calculations.BatchMinusSeparate | src/utils/calculations.ts:40-94 | before rounding, batch profit − separate-sales profit = (q − 1) × the fixed burden of one sale |
| Calculations.RoundedBatchMinusSeparate | src/utils/calculations.ts:32-97 | after rounding, the same difference holds to within one unit of the 8th digit |
| Calculations.SingleUnitSalesCoincide | src/utils/calculations.ts:62-66 | with one unit, the batch and separate-sales profits are equal |
| Calculations.BatchNeverWorse | src/utils/calculations.ts:62-66 | with q ≥ 1 and a non-negative fixed burden, the rounded batch profit is at least the rounded separate-sales profit |
| Calculations.PercentageOf | src/utils/calculations.ts:113-115 | zero when the base is zero; otherwise it times the magnitude of the base is 100 × the difference, and it has the sign of the difference |
| Calculations.CompareSalesStrategies | src/utils/calculations.ts:108-123 | the two profits are the rounded batch and separate-sales profits; the difference is their exact difference; the percentage is 0 when the separate profit is 0, otherwise within one rounding of difference / \|separate\| × 100; it is an 8-digit value never of the opposite sign to the difference, and 0 when the difference is 0 |
| Calculations.ComparisonFavoursBatch | src/utils/calculations.ts:108-123 | under BatchNeverWorse's conditions the reported difference and percentage are non-negative |
| Calculations.DirectSaleFiguresIdentities | src/utils/calculations.ts:148-174 | for `DirectSaleFigures` (the exact chain of lines 148-174, given the two read-back profits), before the output rounding: direct revenue − q·cost = the separate profit = the seller profit; savings + direct revenue = price·q; extra profit = separate − base profit; per-unit price × q = direct revenue; percentage × price·q = 100 × savings |
| Calculations.RoundFigures | src/utils/calculations.ts:176-185 | every returned figure is an 8-digit value |
| Calculations.RenderDirectSale | src/utils/calculations.ts:158-185 | given 8-digit separate and base profits: every figure has 8 digits; the seller profit is the separate profit and the extra profit its exact distance to the base profit; list price, totals, savings, per-unit price and percentage are each within one rounding of their exact value |
| Calculations.CalculateDirectSalePrice | src/utils/calculations.ts:141-186 | for a non-zero quantity and price: every figure has 8 digits; the seller profit is the rounded separate-sales profit; the extra profit is that minus the rounded base profit; the other figures are within one rounding of the profit equation solved for the direct revenue |
| Calculations.SeparateProfitNearMargin | src/utils/calculations.ts:150-151 | the seller profit of the analysis is within one rounding of q × the margin of one unit sold alone |
| Calculations.DirectSaleExactForDecimalInputs | src/utils/calculations.ts:153-181 | for an 8-digit price and cost and a whole quantity, the returned figures hold the profit equation exactly: list price and marketplace total unrounded, direct revenue − q·cost = seller profit, savings + direct revenue = marketplace total |
| Calculations.RenderedTotalsExact | src/utils/calculations.ts:176-185 | rendered totals within one rounding of 8-digit exact values equal them |
| Calculations.DirectPriceIsPriceLessUnitFees | src/utils/calculations.ts:159-162 | the direct price per unit is the list price less the fees of one unit sold alone, to within half a unit of the 8th digit plus that divided by \|q\| |
| Calculations.RenderedPerUnitPrice | src/utils/calculations.ts:159-162 | the same bound for any analysis whose seller profit is within one rounding of q × the margin |
| Calculations.SpreadRoundedTotal | src/utils/calculations.ts:159-162 | a rounded total plus q·cost, divided by q and rounded again, is the margin plus the cost, off by one rounding plus the first rounding divided by \|q\| |
| Calculations.DirectPriceDoubleRounding | src/utils/calculations.ts:151-177 | for price 10, rate 0.0000000005001, no other fees or cost and 2 units, the direct price per unit is 10 while the per-unit figure rounded once is 9.99999999 |

## Left out

- `toDecimal` (lines 21-23) and the parsing of `number | string` inputs are not modelled. Every input is taken as an exact real.
- The 40-digit working precision (line 9) is not modelled. The divisions at lines 115, 162 and 166, and any sum or product with more than 40 significant digits, are exact in the model; decimal.js rounds each such result to 40 significant digits before the output rounding.
- The conversion to an IEEE double in `toNumber8` (`Number(...)`, line 28) is not modelled. A rendered figure is the 8-digit decimal itself. A profit read back through `toDecimal` is the same 8-digit decimal. That holds only while the value has few enough significant digits for a double to keep all 8 fractional digits.
- Division by zero is not modelled. `CalculateDirectSalePrice` requires a non-zero quantity and a non-zero price, where the source would return Infinity or NaN. `PercentageOf` models the comparison's own zero guard in full.
- The discount formulas of the wider tool are not in `src/utils/calculations.ts` and are not part of this model.
- The quantity is any real, as in the source's `number` type. Only `DirectSaleExactForDecimalInputs` and its helper `RenderedTotalsExact` ask for a whole quantity.
