/**
  The pricing engine: profit of a batch sale on a fee-charging marketplace,
  profit when every unit is its own sale, the comparison of the two, and the
  price for selling outside the marketplace that keeps the seller's profit.

  Every figure is computed exactly (reals stand for decimal.js values) and
  rounded to 8 fractional digits (Decimal8.Round8) where the engine returns
  it. Two operations re-enter already-rounded profits into further
  arithmetic; their contracts say which identities therefore stay exact and
  which hold only up to rounding.
 */
module Calculations {
  import opened Decimal8

  /** The parameters of a sale; the fixed fees are charged once per sale. */
  datatype SaleParams = SaleParams(
    unitPrice: real,
    unitCost: real,
    fixedFeeBeforePercentage: real, // deducted from the revenue before the percentage is taken
    platformFeeRate: real,          // 0.20 is 20%
    fixedFeeAfterPercentage: real,  // added after the percentage
    baseQuantity: real              // units sold
  )

  /** The fees the marketplace charges on one sale that brings in `revenue`. */
  function SaleFees(p: SaleParams, revenue: real): real {
    var revenueAfterFixedBefore := revenue - p.fixedFeeBeforePercentage;
    var percentageFee := revenueAfterFixedBefore * p.platformFeeRate;
    p.fixedFeeBeforePercentage + percentageFee + p.fixedFeeAfterPercentage
  }

  /** The fixed part of the fees of one sale: what it costs whatever the revenue. */
  function FixedFeeBurden(p: SaleParams): real {
    p.fixedFeeBeforePercentage * (1.0 - p.platformFeeRate) + p.fixedFeeAfterPercentage
  }

  /** The fees of a sale are the fixed burden plus the rate times the revenue. */
  lemma SaleFeesAffine(p: SaleParams, revenue: real)
    ensures SaleFees(p, revenue) == FixedFeeBurden(p) + revenue * p.platformFeeRate
  {
  }

  // ---------------------------------------------------------------------------
  // calculateTotalProfit / calculateBaseProfit
  // ---------------------------------------------------------------------------

  /** The batch profit before the output rounding. */
  function TotalProfitDecimal(p: SaleParams): real {
    var totalRevenue := p.baseQuantity * p.unitPrice;
    var totalCost := p.baseQuantity * p.unitCost;
    totalRevenue - SaleFees(p, totalRevenue) - totalCost
  }

  /**
    Profit of selling all units in one sale: the percentage is taken of the
    revenue left after the before-fee, then the after-fee and the cost go.
   */
  function CalculateTotalProfit(p: SaleParams): (r: real)
    ensures Fixed8(r)
    ensures var q := p.baseQuantity;
      -HalfUlp <= r - ((q * p.unitPrice - p.fixedFeeBeforePercentage) * (1.0 - p.platformFeeRate)
                       - p.fixedFeeAfterPercentage - q * p.unitCost) <= HalfUlp
  {
    Round8(TotalProfitDecimal(p))
  }

  /** The base profit, an alias of the batch profit. */
  function CalculateBaseProfit(p: SaleParams): (r: real)
    ensures Fixed8(r)
  {
    CalculateTotalProfit(p)
  }

  lemma BaseProfitIsTotalProfit(p: SaleParams)
    ensures CalculateBaseProfit(p) == CalculateTotalProfit(p)
  {
  }

  // ---------------------------------------------------------------------------
  // calculateProfitSeparateSales
  // ---------------------------------------------------------------------------

  /** The profit of one unit sold on its own, the fixed fees charged on it. */
  function UnitSaleProfit(p: SaleParams): real {
    var revenuePerUnit := p.unitPrice;
    revenuePerUnit - SaleFees(p, revenuePerUnit) - p.unitCost
  }

  /**
    The margin of one unit sold on its own in closed form: the percentage is
    taken of the price less the before-fee, then the after-fee and the cost go.
   */
  function UnitMargin(p: SaleParams): real {
    (p.unitPrice - p.fixedFeeBeforePercentage) * (1.0 - p.platformFeeRate)
    - p.fixedFeeAfterPercentage - p.unitCost
  }

  lemma UnitSaleProfitIsMargin(p: SaleParams)
    ensures UnitSaleProfit(p) == UnitMargin(p)
  {
  }

  /** UnitSaleProfitIsMargin rearranged: the margin plus the cost is the price less one unit's fees. */
  lemma UnitMarginIsPriceLessFees(p: SaleParams)
    ensures UnitMargin(p) + p.unitCost == p.unitPrice - SaleFees(p, p.unitPrice)
  {
    UnitSaleProfitIsMargin(p);
  }

  /** The separate-sales profit before the output rounding. */
  function SeparateProfitDecimal(p: SaleParams): real {
    UnitSaleProfit(p) * p.baseQuantity
  }

  /**
    Profit when every unit is a sale of its own: the fixed fees are paid once
    per unit, so the profit is the quantity times the margin of one unit.
   */
  function CalculateProfitSeparateSales(p: SaleParams): (r: real)
    ensures Fixed8(r)
    ensures -HalfUlp <= r - p.baseQuantity * UnitMargin(p) <= HalfUlp
  {
    Round8(SeparateProfitDecimal(p))
  }

  /** Before rounding, the separate-sales profit is additive in the quantity. */
  lemma SeparateProfitLinear(p: SaleParams, a: real, b: real)
    ensures SeparateProfitDecimal(p.(baseQuantity := a + b))
         == SeparateProfitDecimal(p.(baseQuantity := a)) + SeparateProfitDecimal(p.(baseQuantity := b))
  {
  }

  /**
    Before rounding, the batch sale earns exactly the fixed burden of the
    (q - 1) sales it saves.
   */
  lemma BatchMinusSeparate(p: SaleParams)
    ensures TotalProfitDecimal(p) - SeparateProfitDecimal(p)
         == (p.baseQuantity - 1.0) * FixedFeeBurden(p)
  {
    var q := p.baseQuantity;
    SaleFeesAffine(p, q * p.unitPrice);
    SaleFeesAffine(p, p.unitPrice);
  }

  /** After rounding, the same difference holds to within one unit of the 8th digit. */
  lemma RoundedBatchMinusSeparate(p: SaleParams)
    ensures -2.0 * HalfUlp
         <= CalculateTotalProfit(p) - CalculateProfitSeparateSales(p) - (p.baseQuantity - 1.0) * FixedFeeBurden(p)
         <= 2.0 * HalfUlp
  {
    BatchMinusSeparate(p);
  }

  /** One unit: a batch sale and separate sales are the same sale. */
  lemma SingleUnitSalesCoincide(p: SaleParams)
    requires p.baseQuantity == 1.0
    ensures CalculateTotalProfit(p) == CalculateProfitSeparateSales(p)
  {
    BatchMinusSeparate(p);
  }

  /**
    With at least one unit and a non-negative fixed burden, selling in one
    batch never earns less than selling separately, after rounding too.
   */
  lemma BatchNeverWorse(p: SaleParams)
    requires p.baseQuantity >= 1.0 && FixedFeeBurden(p) >= 0.0
    ensures CalculateTotalProfit(p) >= CalculateProfitSeparateSales(p)
  {
    BatchMinusSeparate(p);
    ProductNonNegative(p.baseQuantity - 1.0, FixedFeeBurden(p));
    Round8Monotone(SeparateProfitDecimal(p), TotalProfitDecimal(p));
  }

  // ---------------------------------------------------------------------------
  // compareSalesStrategies
  // ---------------------------------------------------------------------------

  /**
    A difference as a percentage of the magnitude of `base`; zero when
    `base` is zero. Otherwise it scales back to the difference and has the
    sign of the difference.
   */
  function PercentageOf(difference: real, base: real): (pct: real)
    ensures base == 0.0 ==> pct == 0.0
    ensures base != 0.0 ==> pct * Abs(base) == difference * 100.0
    ensures base != 0.0 ==> (pct > 0.0 <==> difference > 0.0) && (pct < 0.0 <==> difference < 0.0)
  {
    if base == 0.0 then 0.0 else difference / Abs(base) * 100.0
  }

  datatype SalesComparison = SalesComparison(
    singleSaleProfit: real,     // profit of one batch sale
    separateSalesProfit: real,  // profit of one sale per unit
    difference: real,           // what selling together gains
    percentageDifference: real  // that gain relative to the separate-sales profit
  )

  /**
    Compares the two strategies. Both profits arrive rounded; their
    difference is therefore an exact 8-digit value, and the percentage is
    zero when the separate-sales profit is zero, otherwise the difference
    over its magnitude times 100, rounded; it is never of the opposite sign
    to the difference, and zero when the difference is zero.
   */
  function CompareSalesStrategies(p: SaleParams): (c: SalesComparison)
    ensures c.singleSaleProfit == CalculateBaseProfit(p)
    ensures c.separateSalesProfit == CalculateProfitSeparateSales(p)
    ensures c.difference == c.singleSaleProfit - c.separateSalesProfit
    ensures c.separateSalesProfit == 0.0 ==> c.percentageDifference == 0.0
    ensures c.separateSalesProfit != 0.0 ==>
      -HalfUlp <= c.percentageDifference - c.difference / Abs(c.separateSalesProfit) * 100.0 <= HalfUlp
    ensures c.difference > 0.0 ==> c.percentageDifference >= 0.0
    ensures c.difference < 0.0 ==> c.percentageDifference <= 0.0
    ensures c.difference == 0.0 ==> c.percentageDifference == 0.0
    ensures Fixed8(c.percentageDifference)
  {
    var singleSale := CalculateBaseProfit(p);
    var separateSales := CalculateProfitSeparateSales(p);
    var difference := singleSale - separateSales;
    var percentageDifference := PercentageOf(difference, separateSales);
    Round8OfFixed(singleSale);
    Round8OfFixed(separateSales);
    Fixed8AddSub(singleSale, separateSales);
    Round8OfFixed(difference);
    SalesComparison(Round8(singleSale), Round8(separateSales), Round8(difference), Round8(percentageDifference))
  }

  /**
    Under the same conditions as BatchNeverWorse the comparison reports a
    non-negative gain and a non-negative percentage.
   */
  lemma ComparisonFavoursBatch(p: SaleParams)
    requires p.baseQuantity >= 1.0 && FixedFeeBurden(p) >= 0.0
    ensures CompareSalesStrategies(p).difference >= 0.0
    ensures CompareSalesStrategies(p).percentageDifference >= 0.0
  {
    BatchNeverWorse(p);
  }

  // ---------------------------------------------------------------------------
  // calculateDirectSalePrice
  // ---------------------------------------------------------------------------

  datatype DirectSaleAnalysis = DirectSaleAnalysis(
    directPricePerUnit: real,         // price per unit outside the marketplace
    totalDirectPrice: real,           // revenue of the direct sale
    platformPricePerUnit: real,       // list price on the marketplace
    totalPlatformPrice: real,         // what the units cost bought one by one there
    customerSavings: real,            // what the customer saves buying direct
    customerSavingsPercentage: real,  // the saving relative to the marketplace total
    sellerProfit: real,               // the seller's profit on the direct sale
    sellerExtraProfit: real           // that profit minus the batch-sale profit
  )

  /** The divisions of the direct-sale analysis are by the quantity and the marketplace total. */
  predicate DirectSaleDefined(p: SaleParams) {
    p.baseQuantity != 0.0 && p.unitPrice != 0.0
  }

  /**
    The figures of the direct-sale analysis before the output rounding,
    given the two profits the analysis reads back as numbers: the
    separate-sales profit and the batch (base) profit.
   */
  function DirectSaleFigures(p: SaleParams, separateSalesProfit: real, platformSingleProfit: real): DirectSaleAnalysis
    requires DirectSaleDefined(p)
  {
    var quantity := p.baseQuantity;
    var totalPlatformPrice := p.unitPrice * quantity;
    var totalCost := p.unitCost * quantity;
    var directRevenue := separateSalesProfit + totalCost;
    var directPricePerUnit := directRevenue / quantity;
    var customerSavings := totalPlatformPrice - directRevenue;
    var customerSavingsPercentage := customerSavings / totalPlatformPrice * 100.0;
    var sellerProfit := separateSalesProfit;
    var sellerExtraProfit := sellerProfit - platformSingleProfit;
    DirectSaleAnalysis(directPricePerUnit, directRevenue, p.unitPrice, totalPlatformPrice,
                       customerSavings, customerSavingsPercentage, sellerProfit, sellerExtraProfit)
  }

  /**
    The identities the analysis is built on, before the output rounding:
    the direct revenue minus the cost is the separate-sales profit, which is
    the seller's profit; the saving and the direct revenue make up the
    marketplace total; the extra profit is the distance to the batch
    profit; the per-unit price and the percentage divide back.
   */
  lemma DirectSaleFiguresIdentities(p: SaleParams, separateSalesProfit: real, platformSingleProfit: real)
    requires DirectSaleDefined(p)
    ensures var d := DirectSaleFigures(p, separateSalesProfit, platformSingleProfit);
      && d.totalDirectPrice - p.baseQuantity * p.unitCost == separateSalesProfit
      && d.sellerProfit == separateSalesProfit
      && d.customerSavings + d.totalDirectPrice == p.unitPrice * p.baseQuantity
      && d.sellerExtraProfit == separateSalesProfit - platformSingleProfit
      && d.directPricePerUnit * p.baseQuantity == d.totalDirectPrice
      && d.customerSavingsPercentage * (p.unitPrice * p.baseQuantity) == d.customerSavings * 100.0
  {
    var d := DirectSaleFigures(p, separateSalesProfit, platformSingleProfit);
    var total := p.unitPrice * p.baseQuantity;
    assert total != 0.0;
    DivideThenMultiply(d.totalDirectPrice, p.baseQuantity);
    DivideThenMultiply(d.customerSavings, total);
  }

  lemma DivideThenMultiply(x: real, y: real)
    requires y != 0.0
    ensures (x / y) * y == x && (x / y * 100.0) * y == x * 100.0
  {
  }

  /** Every figure of an analysis is an 8-digit value. */
  predicate AllFixed8(a: DirectSaleAnalysis) {
    && Fixed8(a.directPricePerUnit) && Fixed8(a.totalDirectPrice)
    && Fixed8(a.platformPricePerUnit) && Fixed8(a.totalPlatformPrice)
    && Fixed8(a.customerSavings) && Fixed8(a.customerSavingsPercentage)
    && Fixed8(a.sellerProfit) && Fixed8(a.sellerExtraProfit)
  }

  /** Every figure rounded to 8 digits, as the analysis returns them. */
  function RoundFigures(d: DirectSaleAnalysis): (a: DirectSaleAnalysis)
    ensures AllFixed8(a)
  {
    DirectSaleAnalysis(
      Round8(d.directPricePerUnit), Round8(d.totalDirectPrice),
      Round8(d.platformPricePerUnit), Round8(d.totalPlatformPrice),
      Round8(d.customerSavings), Round8(d.customerSavingsPercentage),
      Round8(d.sellerProfit), Round8(d.sellerExtraProfit))
  }

  /**
    The rendered totals against the profit equation solved for the direct
    revenue: each is within one rounding of its exact value.
   */
  predicate TotalsWithinOneRounding(p: SaleParams, a: DirectSaleAnalysis) {
    var q := p.baseQuantity;
    && -HalfUlp <= a.platformPricePerUnit - p.unitPrice <= HalfUlp
    && -HalfUlp <= a.totalDirectPrice - (a.sellerProfit + q * p.unitCost) <= HalfUlp
    && -HalfUlp <= a.totalPlatformPrice - p.unitPrice * q <= HalfUlp
    && -HalfUlp <= a.customerSavings - (p.unitPrice * q - a.sellerProfit - q * p.unitCost) <= HalfUlp
  }

  /**
    The rendered per-unit price and saving percentage: each is within one
    rounding of the exact quotient of the same equation.
   */
  predicate RatiosWithinOneRounding(p: SaleParams, a: DirectSaleAnalysis)
    requires DirectSaleDefined(p)
  {
    var q := p.baseQuantity;
    && -HalfUlp <= a.directPricePerUnit - (a.sellerProfit + q * p.unitCost) / q <= HalfUlp
    && -HalfUlp <= a.customerSavingsPercentage
                   - (p.unitPrice * q - a.sellerProfit - q * p.unitCost) / (p.unitPrice * q) * 100.0 <= HalfUlp
  }

  /**
    The analysis as returned, given the two profits it reads back: every
    figure rounded once at the output. The seller profit stays the given
    (8-digit) separate-sales profit and the extra profit its exact distance
    to the batch profit; the revenue, the totals and the saving are within
    one rounding of the profit equation solved for the revenue, and exact
    when the price and the cost have 8 digits and the quantity is whole.
   */
  function RenderDirectSale(p: SaleParams, separateSalesProfit: real, platformSingleProfit: real): (a: DirectSaleAnalysis)
    requires DirectSaleDefined(p) && Fixed8(separateSalesProfit) && Fixed8(platformSingleProfit)
    ensures AllFixed8(a)
    ensures a.sellerProfit == separateSalesProfit
    ensures a.sellerExtraProfit == separateSalesProfit - platformSingleProfit
    ensures TotalsWithinOneRounding(p, a)
    ensures RatiosWithinOneRounding(p, a)
  {
    var d := DirectSaleFigures(p, separateSalesProfit, platformSingleProfit);
    Round8OfFixed(separateSalesProfit);
    Fixed8AddSub(separateSalesProfit, platformSingleProfit);
    Round8OfFixed(d.sellerExtraProfit);
    RoundFigures(d)
  }

  /**
    The price for selling direct that keeps the separate-sales profit; its
    figures are those of RenderDirectSale for the rounded separate-sales
    and batch profits.
   */
  function CalculateDirectSalePrice(p: SaleParams): (a: DirectSaleAnalysis)
    requires DirectSaleDefined(p)
    ensures AllFixed8(a)
    ensures a.sellerProfit == CalculateProfitSeparateSales(p)
    ensures a.sellerExtraProfit == a.sellerProfit - CalculateBaseProfit(p)
    ensures TotalsWithinOneRounding(p, a)
    ensures RatiosWithinOneRounding(p, a)
  {
    RenderDirectSale(p, CalculateProfitSeparateSales(p), CalculateBaseProfit(p))
  }

  /**
    For 8-digit prices and costs and a whole quantity, the returned figures
    satisfy the profit equation exactly: the direct revenue less the cost is
    the seller's profit, and the saving and the direct revenue make up the
    marketplace total.
   */
  lemma DirectSaleExactForDecimalInputs(p: SaleParams)
    requires DirectSaleDefined(p)
    requires Fixed8(p.unitPrice) && Fixed8(p.unitCost) && IsWhole(p.baseQuantity)
    ensures var a := CalculateDirectSalePrice(p);
      && a.platformPricePerUnit == p.unitPrice
      && a.totalPlatformPrice == p.unitPrice * p.baseQuantity
      && a.totalDirectPrice - p.baseQuantity * p.unitCost == a.sellerProfit
      && a.customerSavings + a.totalDirectPrice == a.totalPlatformPrice
  {
    RenderedTotalsExact(p, CalculateDirectSalePrice(p));
  }

  /**
    The step behind DirectSaleExactForDecimalInputs: rendered figures that
    are each within one rounding of an 8-digit value equal that value.
   */
  lemma RenderedTotalsExact(p: SaleParams, a: DirectSaleAnalysis)
    requires TotalsWithinOneRounding(p, a) && AllFixed8(a)
    requires Fixed8(p.unitPrice) && Fixed8(p.unitCost) && IsWhole(p.baseQuantity)
    ensures a.platformPricePerUnit == p.unitPrice
    ensures a.totalPlatformPrice == p.unitPrice * p.baseQuantity
    ensures a.totalDirectPrice - p.baseQuantity * p.unitCost == a.sellerProfit
    ensures a.customerSavings + a.totalDirectPrice == a.totalPlatformPrice
  {
    var price, cost, q := p.unitPrice, p.unitCost, p.baseQuantity;
    Fixed8TimesWhole(price, q);
    Fixed8TimesWhole(cost, q);
    Fixed8AddSub(a.sellerProfit, q * cost);
    var revenue := a.sellerProfit + q * cost;
    Fixed8AddSub(price * q, revenue);
    Fixed8Close(a.platformPricePerUnit, price);
    Fixed8Close(a.totalPlatformPrice, price * q);
    Fixed8Close(a.totalDirectPrice, revenue);
    Fixed8Close(a.customerSavings, price * q - revenue);
  }

  /**
    The direct price per unit is the list price less the fees one unit pays
    when sold on its own, up to the rounding of the separate-sales profit
    (spread over the units) and the final rounding.
   */
  lemma DirectPriceIsPriceLessUnitFees(p: SaleParams)
    requires DirectSaleDefined(p)
    ensures var err := HalfUlp + HalfUlp / Abs(p.baseQuantity);
      -err <= CalculateDirectSalePrice(p).directPricePerUnit
              - (p.unitPrice - SaleFees(p, p.unitPrice)) <= err
  {
    SeparateProfitNearMargin(p);
    RenderedPerUnitPrice(p, CalculateDirectSalePrice(p));
  }

  /** A profit within one rounding of the quantity times the margin of a unit sold alone. */
  predicate SellerProfitNearMargin(p: SaleParams, profit: real) {
    -HalfUlp <= profit - p.baseQuantity * UnitMargin(p) <= HalfUlp
  }

  /** The seller profit of the analysis is the separate-sales profit, rounded once. */
  lemma SeparateProfitNearMargin(p: SaleParams)
    requires DirectSaleDefined(p)
    ensures SellerProfitNearMargin(p, CalculateDirectSalePrice(p).sellerProfit)
  {
  }

  /** The step behind DirectPriceIsPriceLessUnitFees, for any analysis within one rounding. */
  lemma RenderedPerUnitPrice(p: SaleParams, a: DirectSaleAnalysis)
    requires DirectSaleDefined(p) && RatiosWithinOneRounding(p, a)
    requires SellerProfitNearMargin(p, a.sellerProfit)
    ensures var err := HalfUlp + HalfUlp / Abs(p.baseQuantity);
      -err <= a.directPricePerUnit - (p.unitPrice - SaleFees(p, p.unitPrice)) <= err
  {
    SpreadRoundedTotal(UnitMargin(p), p.unitCost, p.baseQuantity, a.sellerProfit, a.directPricePerUnit);
    UnitMarginIsPriceLessFees(p);
  }

  /**
    Spreading a total that was rounded from q * margin, plus the cost of q
    units, over the q units and rounding again gives the margin plus the
    unit cost, off by one rounding plus the first rounding divided by q.
   */
  lemma SpreadRoundedTotal(margin: real, cost: real, q: real, roundedTotal: real, perUnit: real)
    requires q != 0.0
    requires -HalfUlp <= roundedTotal - q * margin <= HalfUlp
    requires -HalfUlp <= perUnit - (roundedTotal + q * cost) / q <= HalfUlp
    ensures -(HalfUlp + HalfUlp / Abs(q)) <= perUnit - (margin + cost) <= HalfUlp + HalfUlp / Abs(q)
  {
    var u := (roundedTotal + q * cost) / q;
    var t := u - (margin + cost);
    SpreadIdentity(roundedTotal, margin, cost, q);
    ScaledBound(t, q, HalfUlp);
    var e := HalfUlp / Abs(q);
    assert -e <= t <= e;
    assert -HalfUlp <= perUnit - u <= HalfUlp;
    assert perUnit - (margin + cost) == (perUnit - u) + t;
  }

  /** The per-unit share less the margin and the cost, scaled back by q. */
  lemma SpreadIdentity(total: real, margin: real, cost: real, q: real)
    requires q != 0.0
    ensures ((total + q * cost) / q - (margin + cost)) * q == total - q * margin
  {
    var u := (total + q * cost) / q;
    assert u * q == total + q * cost;
  }

  /** A value whose multiple by q is within h of zero is within h / |q| of zero. */
  lemma ScaledBound(t: real, q: real, h: real)
    requires q != 0.0 && -h <= t * q <= h
    ensures -h / Abs(q) <= t <= h / Abs(q)
  {
    var aq := Abs(q);
    var w := h / aq;
    assert w * aq == h;
    var s := if q > 0.0 then t else -t;
    assert s * aq == t * q;
    assert (s - w) * aq == t * q - h;
    assert (s + w) * aq == t * q + h;
    ProductSign(s - w, aq);
    ProductSign(s + w, aq);
  }

  lemma ProductSign(a: real, q: real)
    requires q > 0.0
    ensures a > 0.0 ==> a * q > 0.0
    ensures a < 0.0 ==> a * q < 0.0
  {
  }

  lemma ProductNonNegative(x: real, y: real)
    requires x >= 0.0 && y >= 0.0
    ensures x * y >= 0.0
  {
  }

  /**
    The per-unit price is rounded twice (once inside the separate-sales
    profit, once at the output), and that can differ from rounding the
    per-unit figure once: list price 10, rate 0.0000000005001, no other
    fees, no cost, two units.
   */
  lemma DirectPriceDoubleRounding()
    ensures var p := SaleParams(10.0, 0.0, 0.0, 0.0000000005001, 0.0, 2.0);
      && CalculateDirectSalePrice(p).directPricePerUnit == 10.0
      && Round8(p.unitPrice - SaleFees(p, p.unitPrice)) == 9.99999999
  {
    var p := SaleParams(10.0, 0.0, 0.0, 0.0000000005001, 0.0, 2.0);
    assert SeparateProfitDecimal(p) == 19.999999989998;
    assert CalculateProfitSeparateSales(p) == 19.99999999;
    assert p.unitPrice - SaleFees(p, p.unitPrice) == 9.999999994999;
  }
}
