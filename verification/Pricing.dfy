/**
 * The deterministic pricing oracle (backend/hargaturun/pricing.py) over exact reals.
 *
 * `power` stands for the platform's `x ** 1.5`. Only the theorems that compare two
 * urgencies need to know what it computes, and they say so with `IsThreeHalvesPower`.
 */
module Pricing {
  import opened Numeric
  import opened Wrappers

  const DISCOUNT_MIN := 5
  const DISCOUNT_MAX := 70
  const DISCOUNT_STEP := 5
  const PRICE_STEP := 500
  const MIN_MARGIN_RP := 500
  const NO_ACTION_URGENCY := 0.7
  const LOW_STOCK_UNITS := 2
  const LOW_STOCK_MAX_DISCOUNT := 15.0
  const FIRE_SALE_DAYS := 1.0
  const BASE_SCALE := 80.0
  const PRESSURE_DIVISOR := 4.0
  const SELLTHROUGH_DISCOUNT_FACTOR := 50.0

  datatype Category = Bakery | PreparedFood | Dairy | Beverage | Produce | Snack | Canned | Other

  function DefaultShelfLife(category: Category): real {
    match category
    case Bakery => 4.0
    case PreparedFood => 3.0
    case Dairy => 14.0
    case Beverage => 5.0
    case Produce => 7.0
    case Snack => 90.0
    case Canned => 365.0
    case Other => 30.0
  }

  function CategoryBias(category: Category): real {
    match category
    case Bakery => 1.3
    case PreparedFood => 1.3
    case Dairy => 1.1
    case Beverage => 1.0
    case Produce => 1.1
    case Snack => 0.9
    case Canned => 0.7
    case Other => 1.0
  }

  datatype PricingInput = PricingInput(
    category: Category,
    originalPrice: int,
    cost: int,
    stock: int,
    daysRemaining: real,
    dailySales: real,
    totalShelfLife: Option<real>)
  {
    function ShelfLife(): real {
      if totalShelfLife.None? then DefaultShelfLife(category) else totalShelfLife.value
    }

    /** The numbers the formula may be run on (steps 1 and 2 of the evaluation order). */
    predicate Priceable() {
      && 0 <= cost < originalPrice
      && 0 < stock
      && 0.0 < dailySales
      && 0.0 < daysRemaining
      && 0.0 < ShelfLife()
    }
  }

  datatype Status = Recommendation | NoAction | InvalidInput
  datatype Timing = TodayOnly | WaitOneDay | StartToday
  datatype Confidence = FairlySure | LessCertain
  datatype Message = CheckNumbers | CostNotBelowPrice | Expired | NotYet(recheckDays: int) | ThinMargin

  datatype OracleResult = OracleResult(
    status: Status,
    discountPercent: Option<int>,
    recommendedPrice: Option<int>,
    timing: Option<Timing>,
    sellThroughUnits: Option<int>,
    revenue: Option<int>,
    lossNoAction: Option<int>,
    confidence: Option<Confidence>,
    isFireSale: bool,
    reassessInDays: Option<int>,
    expired: bool,
    message: Option<Message>,
    stock: Option<int>,
    usedShelfLife: Option<real>,
    shelfLifeDefaulted: bool,
    pressure: Option<real>,
    urgency: Option<real>)

  /** Every optional field absent: the dataclass defaults. */
  function Blank(status: Status): OracleResult {
    OracleResult(status, None, None, None, None, None, None, None, false, None, false, None, None, None, false,
                 None, None)
  }

  function InvalidResult(message: Message, stock: Option<int>): OracleResult {
    Blank(InvalidInput).(message := Some(message), stock := stock)
  }

  ghost predicate IsThreeHalvesPower(power: real -> real) {
    forall x: real :: 0.0 <= x <= 1.0 ==> 0.0 <= power(x) && power(x) * power(x) == x * x * x
  }

  function MaxDiscount(price: int, cost: int): real
    requires 0 < price
  {
    MinReal(DISCOUNT_MAX as real,
            (price - cost) as real / price as real * 100.0 - MIN_MARGIN_RP as real / price as real * 100.0)
  }

  function Pressure(inp: PricingInput): real
    requires inp.Priceable()
  {
    inp.stock as real / inp.dailySales / inp.daysRemaining
  }

  function LifeConsumed(inp: PricingInput): real
    requires inp.Priceable()
  {
    Clamp(1.0 - inp.daysRemaining / inp.ShelfLife(), 0.0, 1.0)
  }

  function Urgency(inp: PricingInput, power: real -> real): real
    requires inp.Priceable()
  {
    power(LifeConsumed(inp))
  }

  function FormulaDiscount(category: Category, pressure: real, urgency: real): real {
    var pressureFactor := Clamp((pressure - 1.0) / PRESSURE_DIVISOR, 0.0, 1.0);
    pressureFactor * urgency * CategoryBias(category) * BASE_SCALE
  }

  function RawDiscount(category: Category, stock: int, pressure: real, urgency: real): real {
    var raw := FormulaDiscount(category, pressure, urgency);
    if stock <= LOW_STOCK_UNITS then MinReal(raw, LOW_STOCK_MAX_DISCOUNT) else raw
  }

  function FinalizeDiscount(raw: real, maxDiscount: real): int
    requires DISCOUNT_MIN as real <= maxDiscount
  {
    var clamped := Clamp(raw, DISCOUNT_MIN as real, maxDiscount);
    var rounded := RoundToStep(clamped, DISCOUNT_STEP);
    var discount := if rounded as real > maxDiscount then FloorToStep(maxDiscount, DISCOUNT_STEP) else rounded;
    if discount < DISCOUNT_MIN then DISCOUNT_MIN else discount
  }

  /** The unrounded discounted price. */
  function ExactPrice(price: int, discount: int): real {
    price as real * (1.0 - discount as real / 100.0)
  }

  function SteppedPrice(price: int, exact: real): int {
    var nearest := RoundToStep(exact, PRICE_STEP);
    if nearest >= price then FloorToStep(exact, PRICE_STEP) else nearest
  }

  function RecommendedPrice(price: int, cost: int, discount: int): int {
    var stepped := SteppedPrice(price, ExactPrice(price, discount));
    if stepped < cost + MIN_MARGIN_RP then cost + MIN_MARGIN_RP else stepped
  }

  /** What sells at a discount, before rounding; at none, what sells anyway. */
  function EstimatedSales(inp: PricingInput, discount: int): (r: real)
    ensures r <= inp.stock as real
  {
    MinReal(inp.stock as real,
            inp.dailySales * inp.daysRemaining * (1.0 + discount as real / SELLTHROUGH_DISCOUNT_FACTOR))
  }

  function SellThroughUnits(inp: PricingInput, discount: int): int {
    var units := RoundHalfUp(EstimatedSales(inp, discount));
    if units < inp.stock then units else inp.stock
  }

  function LossNoAction(inp: PricingInput): int {
    var baseline := MinReal(inp.stock as real, inp.dailySales * inp.daysRemaining);
    var loss := RoundHalfUp((inp.stock as real - baseline) * inp.cost as real);
    if loss < 0 then 0 else loss
  }

  function BuildRecommendation(
    inp: PricingInput, discount: int, pressure: real, urgency: real, timing: Timing, isFireSale: bool): OracleResult
  {
    var price := RecommendedPrice(inp.originalPrice, inp.cost, discount);
    var units := SellThroughUnits(inp, discount);
    var confidence :=
      if pressure > 3.0 && urgency > 0.8 then FairlySure
      else if inp.dailySales < 1.0 then LessCertain
      else FairlySure;
    Blank(Recommendation).(
      discountPercent := Some(discount),
      recommendedPrice := Some(price),
      timing := Some(timing),
      sellThroughUnits := Some(units),
      revenue := Some(units * price),
      lossNoAction := Some(LossNoAction(inp)),
      confidence := Some(confidence),
      isFireSale := isFireSale,
      stock := Some(inp.stock),
      usedShelfLife := Some(inp.ShelfLife()),
      shelfLifeDefaulted := inp.totalShelfLife.None?,
      pressure := Some(pressure),
      urgency := Some(urgency))
  }

  function Compute(inp: PricingInput, power: real -> real): OracleResult {
    if inp.originalPrice <= 0 || inp.cost < 0 || inp.stock <= 0 || inp.dailySales <= 0.0 || inp.ShelfLife() <= 0.0 then
      InvalidResult(CheckNumbers, if inp.stock > 0 then Some(inp.stock) else None)
    else if inp.cost >= inp.originalPrice then
      InvalidResult(CostNotBelowPrice, Some(inp.stock))
    else if inp.daysRemaining <= 0.0 then
      InvalidResult(Expired, Some(inp.stock)).(expired := true)
    else
      ComputePriceable(inp, power)
  }

  function ComputePriceable(inp: PricingInput, power: real -> real): OracleResult
    requires inp.Priceable()
  {
    var maxDiscount := MaxDiscount(inp.originalPrice, inp.cost);
    var pressure := Pressure(inp);
    var urgency := Urgency(inp, power);
    var thin := InvalidResult(ThinMargin, Some(inp.stock));
    if inp.daysRemaining < FIRE_SALE_DAYS then
      if maxDiscount < DISCOUNT_MIN as real then thin
      else
        var discount := FinalizeDiscount(DISCOUNT_MAX as real, maxDiscount);
        BuildRecommendation(inp, discount, pressure, urgency, TodayOnly, true)
    else if pressure <= 1.0 && urgency < NO_ACTION_URGENCY then
      var half := RoundHalfUp(inp.daysRemaining / 2.0);
      var reassess := if half < 1 then 1 else half;
      Blank(NoAction).(
        message := Some(NotYet(reassess)),
        reassessInDays := Some(reassess),
        stock := Some(inp.stock),
        usedShelfLife := Some(inp.ShelfLife()),
        shelfLifeDefaulted := inp.totalShelfLife.None?,
        pressure := Some(pressure),
        urgency := Some(urgency))
    else if maxDiscount < DISCOUNT_MIN as real then thin
    else
      var discount := FinalizeDiscount(RawDiscount(inp.category, inp.stock, pressure, urgency), maxDiscount);
      var timing := if pressure <= 1.5 then WaitOneDay else StartToday;
      BuildRecommendation(inp, discount, pressure, urgency, timing, false)
  }

  // ---------------------------------------------------------------------------
  // The margin ceiling, in integers
  // ---------------------------------------------------------------------------

  /** A 5% markdown leaves Rp500 of profit: the integer form of `maxDiscount >= 5`. */
  predicate RoomForMarkdown(price: int, cost: int) {
    20 * (cost + MIN_MARGIN_RP) <= 19 * price
  }

  /**
   * A discount of at most 70 fits under the margin ceiling exactly when the discounted price
   * still covers the cost and Rp500.
   */
  lemma CeilingMeansMargin(price: int, cost: int, discount: int)
    requires 0 < price && discount <= DISCOUNT_MAX
    ensures discount as real <= MaxDiscount(price, cost)
            <==> 100 * (cost + MIN_MARGIN_RP) <= (100 - discount) * price
    ensures discount as real <= MaxDiscount(price, cost)
            <==> (cost + MIN_MARGIN_RP) as real <= ExactPrice(price, discount)
  {
    var p := price as real;
    var margin := (price - cost) as real / p * 100.0 - MIN_MARGIN_RP as real / p * 100.0;
    DivideByStep((price - cost) as real, price);
    DivideByStep(MIN_MARGIN_RP as real, price);
    assert margin * p == 100.0 * (price - cost - MIN_MARGIN_RP) as real;
    TimesStep(discount, price);
    var d := discount as real;
    Scale(d, margin, p);
    Scale(margin, d, p);
    assert d <= margin <==> d * p <= margin * p;
    assert (100 - discount) * price == 100 * price - discount * price;
    assert 100.0 * ExactPrice(price, discount) == 100.0 * p - p * d;
  }

  lemma RoomMeansCeiling(price: int, cost: int)
    requires 0 < price
    ensures RoomForMarkdown(price, cost) <==> DISCOUNT_MIN as real <= MaxDiscount(price, cost)
  {
    CeilingMeansMargin(price, cost, DISCOUNT_MIN);
  }

  // ---------------------------------------------------------------------------
  // Discounts and prices
  // ---------------------------------------------------------------------------

  lemma FinalizedDiscount(raw: real, maxDiscount: real)
    requires DISCOUNT_MIN as real <= maxDiscount
    ensures DISCOUNT_MIN <= FinalizeDiscount(raw, maxDiscount)
    ensures FinalizeDiscount(raw, maxDiscount) % DISCOUNT_STEP == 0
    ensures FinalizeDiscount(raw, maxDiscount) as real <= maxDiscount
    ensures FinalizeDiscount(raw, maxDiscount) <= FloorToStep(maxDiscount, DISCOUNT_STEP)
    ensures maxDiscount <= raw ==> FinalizeDiscount(raw, maxDiscount) == FloorToStep(maxDiscount, DISCOUNT_STEP)
  {
    var clamped := Clamp(raw, DISCOUNT_MIN as real, maxDiscount);
    RoundToStepIsNearest(clamped, DISCOUNT_STEP);
    FloorToStepIsGreatest(maxDiscount, DISCOUNT_STEP);
    var rounded := RoundToStep(clamped, DISCOUNT_STEP);
    assert rounded == rounded / 5 * 5;
    assert 1 * 5 <= FloorToStep(maxDiscount, DISCOUNT_STEP);
  }

  /** Above Rp5.000 a markdown of 5% outweighs the rounding, so the lower step is never needed. */
  lemma SteppedIsNearest(price: int, discount: int)
    requires 5000 < price && DISCOUNT_MIN <= discount
    ensures var exact := ExactPrice(price, discount);
            SteppedPrice(price, exact) == RoundToStep(exact, PRICE_STEP) < price
  {
    var exact := ExactPrice(price, discount);
    RoundToStepIsNearest(exact, PRICE_STEP);
    Scale(1.0 - discount as real / 100.0, 0.95, price as real);
  }

  /** Everything the step-7 price promises for a discount under the ceiling. */
  lemma PriceBounds(price: int, cost: int, discount: int)
    requires 0 <= cost < price && DISCOUNT_MIN <= discount <= DISCOUNT_MAX
    requires discount as real <= MaxDiscount(price, cost)
    ensures var p := RecommendedPrice(price, cost, discount);
            && cost + MIN_MARGIN_RP <= p < price
            && (p % PRICE_STEP == 0 || p == cost + MIN_MARGIN_RP)
            && ExactPrice(price, discount) - PRICE_STEP as real < p as real <= ExactPrice(price, discount) + 250.0
            && (5000 < price ==> ExactPrice(price, discount) - 250.0 < p as real)
  {
    var exact := ExactPrice(price, discount);
    CeilingMeansMargin(price, cost, discount);
    RoundToStepIsNearest(exact, PRICE_STEP);
    FloorToStepIsGreatest(exact, PRICE_STEP);
    assert price as real * (discount as real / 100.0) > 0.0;
    assert exact < price as real;
    if 5000 < price {
      SteppedIsNearest(price, discount);
    }
  }

  /**
   * Every recommendation, from any input and whatever the power function returns, is a real
   * markdown that keeps Rp500 of margin, on the 5% and Rp500 grids, within 500 below (250 for a
   * price above 5000) and 250 above the exact discounted price.
   */
  lemma RecommendationBounds(inp: PricingInput, power: real -> real)
    requires Compute(inp, power).status == Recommendation
    ensures inp.Priceable()
    ensures var r := Compute(inp, power);
            && r.discountPercent.Some? && r.recommendedPrice.Some?
            && var d, p := r.discountPercent.value, r.recommendedPrice.value;
            && DISCOUNT_MIN <= d <= DISCOUNT_MAX && d % DISCOUNT_STEP == 0
            && d as real <= MaxDiscount(inp.originalPrice, inp.cost)
            && inp.cost + MIN_MARGIN_RP <= p < inp.originalPrice
            && (p % PRICE_STEP == 0 || p == inp.cost + MIN_MARGIN_RP)
            && ExactPrice(inp.originalPrice, d) - PRICE_STEP as real < p as real
            && p as real <= ExactPrice(inp.originalPrice, d) + 250.0
            && (5000 < inp.originalPrice ==> ExactPrice(inp.originalPrice, d) - 250.0 < p as real)
            && p == RecommendedPrice(inp.originalPrice, inp.cost, d)
  {
    var ceiling := MaxDiscount(inp.originalPrice, inp.cost);
    var raw := if inp.daysRemaining < FIRE_SALE_DAYS then DISCOUNT_MAX as real
               else RawDiscount(inp.category, inp.stock, Pressure(inp), Urgency(inp, power));
    var d := FinalizeDiscount(raw, ceiling);
    assert Compute(inp, power).discountPercent == Some(d);
    FinalizedDiscount(raw, ceiling);
    PriceBounds(inp.originalPrice, inp.cost, d);
  }

  /**
   * A fire sale goes as deep as a multiple of 5 can under the margin ceiling, and no other call
   * for the same price and cost goes deeper.
   */
  lemma FireSaleIsDeepest(inp: PricingInput, other: PricingInput, power: real -> real, otherPower: real -> real, k: int)
    requires var r := Compute(inp, power); r.status == Recommendation && r.isFireSale
    requires inp.originalPrice == other.originalPrice && inp.cost == other.cost
    ensures Compute(inp, power).discountPercent.Some?
    ensures (k * DISCOUNT_STEP) as real <= MaxDiscount(inp.originalPrice, inp.cost)
            <==> k * DISCOUNT_STEP <= Compute(inp, power).discountPercent.value
    ensures var r := Compute(other, otherPower);
            r.discountPercent.Some? ==> r.discountPercent.value <= Compute(inp, power).discountPercent.value
  {
    var ceiling := MaxDiscount(inp.originalPrice, inp.cost);
    FinalizedDiscount(DISCOUNT_MAX as real, ceiling);
    FloorToStepIsGreatest(ceiling, DISCOUNT_STEP);
    assert (k * 5) as real <= ceiling ==> k * 5 <= FloorToStep(ceiling, 5);
    if Compute(other, otherPower).discountPercent.Some? {
      RecommendationBounds(other, otherPower);
      var d := Compute(other, otherPower).discountPercent.value;
      assert d == d / 5 * 5;
    }
  }

  // ---------------------------------------------------------------------------
  // Which outcome, and the projections that come with it
  // ---------------------------------------------------------------------------

  /**
   * A markdown is deferred exactly when a priceable item has at least a day left, sells out
   * within its remaining days, and is not yet urgent.
   */
  lemma NoActionExactly(inp: PricingInput, power: real -> real)
    ensures Compute(inp, power).status == NoAction <==>
            && inp.Priceable()
            && inp.daysRemaining >= FIRE_SALE_DAYS
            && SellsInTime(inp)
            && Urgency(inp, power) < NO_ACTION_URGENCY
  {
    if inp.Priceable() {
      PressureThreshold(inp);
      StatusByPressure(inp, power);
    }
  }

  /** The stock is gone within the remaining days at the usual rate of sales. */
  predicate SellsInTime(inp: PricingInput) {
    inp.stock as real <= inp.dailySales * inp.daysRemaining
  }

  lemma StatusByPressure(inp: PricingInput, power: real -> real)
    requires inp.Priceable()
    ensures Compute(inp, power).status == NoAction <==>
            inp.daysRemaining >= FIRE_SALE_DAYS && Pressure(inp) <= 1.0 && Urgency(inp, power) < NO_ACTION_URGENCY
  {
  }

  /**
   * A recommendation is made exactly when a priceable item is not deferred and a 5% markdown
   * leaves Rp500 of profit, an integer inequality on price and cost.
   */
  lemma RecommendationExactly(inp: PricingInput, power: real -> real)
    ensures Compute(inp, power).status == Recommendation <==>
            && inp.Priceable()
            && RoomForMarkdown(inp.originalPrice, inp.cost)
            && Compute(inp, power).status != NoAction
  {
    if inp.Priceable() {
      RoomMeansCeiling(inp.originalPrice, inp.cost);
    }
  }

  lemma PressureThreshold(inp: PricingInput)
    requires inp.Priceable()
    ensures Pressure(inp) <= 1.0 <==> SellsInTime(inp)
  {
    var stock, sales, days := inp.stock as real, inp.dailySales, inp.daysRemaining;
    var supply := stock / sales;
    assert supply * sales == stock;
    var p := supply / days;
    assert p * days == supply;
    Scale(p, 1.0, days);
    Scale(1.0, p, days);
    Scale(supply, days, sales);
    Scale(days, supply, sales);
  }

  /** Projections stay within the stock, the revenue covers the margin, and a loss never exceeds the goods' cost. */
  lemma ProjectionsConsistent(inp: PricingInput, power: real -> real)
    requires Compute(inp, power).status == Recommendation
    ensures var r := Compute(inp, power);
            && r.sellThroughUnits.Some? && r.revenue.Some? && r.lossNoAction.Some? && r.recommendedPrice.Some?
            && var units := r.sellThroughUnits.value;
            && 0 <= units <= inp.stock
            && r.revenue.value == units * r.recommendedPrice.value
            && units * (inp.cost + MIN_MARGIN_RP) <= r.revenue.value <= inp.stock * (inp.originalPrice - 1)
            && 0 <= r.lossNoAction.value <= inp.stock * inp.cost
            && (inp.stock as real <= inp.dailySales * inp.daysRemaining ==> units == inp.stock && r.lossNoAction.value == 0)
  {
    RecommendationBounds(inp, power);
    var r := Compute(inp, power);
    var d, p := r.discountPercent.value, r.recommendedPrice.value;
    assert r.sellThroughUnits == Some(SellThroughUnits(inp, d));
    UnitsBounds(inp, d);
    RevenueBounds(SellThroughUnits(inp, d), inp.stock, p, inp.cost + MIN_MARGIN_RP, inp.originalPrice - 1);
    LossBounds(inp);
  }

  lemma UnitsBounds(inp: PricingInput, discount: int)
    requires inp.Priceable() && 0 <= discount
    ensures 0 <= SellThroughUnits(inp, discount) <= inp.stock
    ensures inp.stock as real <= inp.dailySales * inp.daysRemaining ==> SellThroughUnits(inp, discount) == inp.stock
  {
    var natural := inp.dailySales * inp.daysRemaining;
    assert 0.0 < natural;
    Scale(1.0, 1.0 + discount as real / SELLTHROUGH_DISCOUNT_FACTOR, natural);
  }

  lemma RevenueBounds(units: int, stock: int, price: int, low: int, high: int)
    requires 0 <= units <= stock && 0 <= low <= price <= high
    ensures units * low <= units * price <= stock * high
  {
    assert units * low <= units * price;
    assert units * price <= units * high;
    assert units * high <= stock * high;
  }

  lemma LossBounds(inp: PricingInput)
    requires inp.Priceable()
    ensures 0 <= LossNoAction(inp) <= inp.stock * inp.cost
    ensures inp.stock as real <= inp.dailySales * inp.daysRemaining ==> LossNoAction(inp) == 0
  {
    var natural := inp.dailySales * inp.daysRemaining;
    assert 0.0 < natural;
    var unsold := inp.stock as real - MinReal(inp.stock as real, natural);
    var loss := unsold * inp.cost as real;
    assert loss <= inp.stock as real * inp.cost as real;
    TimesStep(inp.stock, inp.cost);
    assert unsold == 0.0 ==> loss == 0.0;
  }

  /** A deferred markdown is re-checked at least a day from now and never after the goods expire. */
  lemma RecheckBeforeExpiry(inp: PricingInput, power: real -> real)
    requires Compute(inp, power).status == NoAction
    ensures var r := Compute(inp, power);
            && r.reassessInDays.Some?
            && 1 <= r.reassessInDays.value
            && r.reassessInDays.value as real <= inp.daysRemaining
            && r.message == Some(NotYet(r.reassessInDays.value))
  {
  }

  /**
   * The advice: today only, exactly in a fire sale; wait a day exactly at a pressure of at most
   * 1.5; unsure exactly when sales are slow and the case is not clear-cut.
   */
  lemma AdviceExactly(inp: PricingInput, power: real -> real)
    requires Compute(inp, power).status == Recommendation
    ensures var r := Compute(inp, power);
            && (r.isFireSale <==> inp.daysRemaining < FIRE_SALE_DAYS)
            && (r.timing == Some(TodayOnly) <==> r.isFireSale)
            && (r.timing == Some(WaitOneDay) <==> !r.isFireSale && Pressure(inp) <= 1.5)
            && (r.confidence == Some(LessCertain) <==>
                  inp.dailySales < 1.0 && !(Pressure(inp) > 3.0 && Urgency(inp, power) > 0.8))
  {
  }

  lemma UnitsAreNearest(inp: PricingInput, discount: int)
    ensures var sold := EstimatedSales(inp, discount);
            sold - 0.5 <= SellThroughUnits(inp, discount) as real <= sold + 0.5
  {
    RoundsWithinStock(EstimatedSales(inp, discount), inp.stock);
  }

  lemma RoundsWithinStock(estimate: real, stock: int)
    requires estimate <= stock as real
    ensures RoundHalfUp(estimate) <= stock
    ensures estimate - 0.5 <= RoundHalfUp(estimate) as real <= estimate + 0.5
  {
  }
}
