/**
 * The formula of an ordinary recommendation, from the input's own numbers and the tabulated
 * constants (backend/hargaturun/pricing.py:49-90, 316-384, 412-452).
 */
module PricingFormula {
  import opened Numeric
  import opened Pricing
  import opened PricingMonotonicity
  import opened Wrappers

  /** The weight of a category, the shelf life counted with, the pressure and the urgency of an input. */
  datatype Terms = Terms(weight: real, shelf: real, pressure: real, urgency: real)

  /**
   * The terms an input has: the tabulated weight and shelf life, unless the vendor gave one; the
   * stock as a multiple of what sells in the days left; and the number whose square is the cube of
   * the share of its life that is over.
   */
  ghost predicate HasTerms(inp: PricingInput, terms: Terms) {
    && terms.weight == (match inp.category
                        case Bakery => 1.3
                        case PreparedFood => 1.3
                        case Dairy => 1.1
                        case Beverage => 1.0
                        case Produce => 1.1
                        case Snack => 0.9
                        case Canned => 0.7
                        case Other => 1.0)
    && terms.shelf == (match inp.totalShelfLife
                       case Some(days) => days
                       case None =>
                         match inp.category
                         case Bakery => 4.0
                         case PreparedFood => 3.0
                         case Dairy => 14.0
                         case Beverage => 5.0
                         case Produce => 7.0
                         case Snack => 90.0
                         case Canned => 365.0
                         case Other => 30.0)
    && terms.pressure * (inp.dailySales * inp.daysRemaining) == inp.stock as real
    && 0.0 <= terms.urgency
    && (terms.shelf > 0.0 ==> terms.urgency * terms.urgency == Cube(LifeOver(inp.daysRemaining, terms.shelf)))
  }

  /** The share of the shelf life that is over, none while more days are left than it has. */
  function LifeOver(days: real, shelf: real): real
    requires shelf > 0.0
  {
    if days >= shelf then 0.0 else if days <= 0.0 then 1.0 else 1.0 - days / shelf
  }

  function Cube(x: real): real {
    x * x * x
  }

  /** A pressure of 1 gives nothing of the discount, of 5 or more all of it. */
  function Strength(pressure: real): real {
    if pressure <= 1.0 then 0.0 else if pressure >= 5.0 then 1.0 else (pressure - 1.0) / 4.0
  }

  /** What the formula aims at. */
  function Aim(terms: Terms): real {
    Strength(terms.pressure) * terms.urgency * terms.weight * 80.0
  }

  /** The discount aimed at; for two units or fewer at most 15. */
  function Target(terms: Terms, stock: int): real {
    if stock <= 2 && 15.0 < Aim(terms) then 15.0 else Aim(terms)
  }

  /** A discount of at most 70 that leaves Rp500 over the cost. */
  predicate Leaves500(price: int, cost: int, discount: int) {
    discount <= 70 && 100 * (cost + 500) <= (100 - discount) * price
  }

  // ---------------------------------------------------------------------------
  // The terms are the ones the engine works with
  // ---------------------------------------------------------------------------

  lemma LifeIs(inp: PricingInput)
    requires inp.Priceable()
    ensures LifeConsumed(inp) == LifeOver(inp.daysRemaining, inp.ShelfLife())
  {
    var days, shelf := inp.daysRemaining, inp.ShelfLife();
    QuotientAtMostOne(days, shelf);
    assert days / shelf > 0.0;
  }

  lemma QuotientAtMostOne(x: real, y: real)
    requires 0.0 < y
    ensures x / y >= 1.0 <==> x >= y
  {
    var q := x / y;
    assert q * y == x;
    Scale(q, 1.0, y);
    Scale(1.0, q, y);
  }

  lemma UrgencyIs(inp: PricingInput, power: real -> real, u: real)
    requires inp.Priceable() && IsThreeHalvesPower(power)
    requires 0.0 <= u && u * u == Cube(LifeConsumed(inp))
    ensures u == Urgency(inp, power)
  {
    SquareOrder(u, Urgency(inp, power));
    SquareOrder(Urgency(inp, power), u);
  }

  lemma PressureIs(stock: real, sales: real, days: real, p: real)
    requires 0.0 < sales && 0.0 < days && p * (sales * days) == stock
    ensures p == stock / sales / days
  {
    var supply := stock / sales;
    var q := supply / days;
    assert supply * sales == stock && q * days == supply;
    assert (q * days) * sales == stock;
    assert (p - q) * (sales * days) == 0.0;
    assert 0.0 < sales * days;
    Scale(0.0, p - q, sales * days);
    Scale(p - q, 0.0, sales * days);
  }

  lemma TermsAre(inp: PricingInput, power: real -> real, terms: Terms)
    requires inp.Priceable() && IsThreeHalvesPower(power) && HasTerms(inp, terms)
    ensures terms == Terms(CategoryBias(inp.category), inp.ShelfLife(), Pressure(inp), Urgency(inp, power))
  {
    LifeIs(inp);
    UrgencyIs(inp, power, terms.urgency);
    PressureIs(inp.stock as real, inp.dailySales, inp.daysRemaining, terms.pressure);
  }

  lemma StrengthIs(p: real)
    ensures Clamp((p - 1.0) / PRESSURE_DIVISOR, 0.0, 1.0) == Strength(p)
  {
    assert PRESSURE_DIVISOR == 4.0;
  }

  /** Every priceable input has terms. */
  lemma TermsExist(inp: PricingInput, power: real -> real)
    requires inp.Priceable() && IsThreeHalvesPower(power)
    ensures HasTerms(inp, Terms(CategoryBias(inp.category), inp.ShelfLife(), Pressure(inp), Urgency(inp, power)))
  {
    LifeIs(inp);
    PressureTimes(inp.stock as real, inp.dailySales, inp.daysRemaining);
  }

  lemma PressureTimes(stock: real, sales: real, days: real)
    requires 0.0 < sales && 0.0 < days
    ensures stock / sales / days * (sales * days) == stock
  {
    var supply := stock / sales;
    var q := supply / days;
    assert supply * sales == stock && q * days == supply;
    assert (q * days) * sales == q * (sales * days);
  }

  lemma SameFormula(f: real, g: real, u: real, w: real, scale: real)
    requires f == g && scale == 80.0
    ensures f * u * w * scale == g * u * w * 80.0
  {
  }

  lemma AimIs(terms: Terms, category: Category)
    requires terms.weight == CategoryBias(category)
    ensures FormulaDiscount(category, terms.pressure, terms.urgency) == Aim(terms)
  {
    StrengthIs(terms.pressure);
    SameFormula(Clamp((terms.pressure - 1.0) / PRESSURE_DIVISOR, 0.0, 1.0), Strength(terms.pressure),
                terms.urgency, CategoryBias(category), BASE_SCALE);
  }

  lemma Capped(category: Category, stock: int, pressure: real, urgency: real, aim: real)
    requires FormulaDiscount(category, pressure, urgency) == aim
    ensures RawDiscount(category, stock, pressure, urgency) == if stock <= 2 && 15.0 < aim then 15.0 else aim
  {
  }

  lemma TargetIs(terms: Terms, category: Category, stock: int)
    requires terms.weight == CategoryBias(category)
    ensures RawDiscount(category, stock, terms.pressure, terms.urgency) == Target(terms, stock)
  {
    AimIs(terms, category);
    Capped(category, stock, terms.pressure, terms.urgency, Aim(terms));
  }

  // ---------------------------------------------------------------------------
  // The discount is the target, rounded
  // ---------------------------------------------------------------------------

  /** Nearest multiple of 5 to the raw value, ties up, unless that is above the ceiling. */
  lemma FinalizedNearest(raw: real, ceiling: real)
    requires 5.0 <= ceiling
    ensures var d := FinalizeDiscount(raw, ceiling);
            && (raw <= 5.0 ==> d == 5)
            && (5.0 <= raw ==> d as real <= raw + 2.5 && (raw < d as real + 2.5 || ceiling < d as real + 5.0))
  {
    var clamped := Clamp(raw, 5.0, ceiling);
    RoundToStepIsNearest(clamped, 5);
    FloorToStepIsGreatest(ceiling, 5);
    if raw <= 5.0 {
      assert RoundToStep(5.0, 5) == 5;
    }
  }

  lemma AboveCeiling(price: int, cost: int, discount: int)
    requires 0 < price
    ensures Leaves500(price, cost, discount) <==> discount as real <= MaxDiscount(price, cost)
  {
    if discount <= 70 {
      CeilingMeansMargin(price, cost, discount);
    }
  }

  /** The discount is 5% for a lower target, and otherwise the nearest multiple of 5, or the greatest that leaves Rp500. */
  predicate Rounds(target: real, d: int, price: int, cost: int) {
    && d % 5 == 0 && 5 <= d && Leaves500(price, cost, d)
    && (target <= 5.0 ==> d == 5)
    && (5.0 <= target ==> d as real <= target + 2.5 && (target < d as real + 2.5 || !Leaves500(price, cost, d + 5)))
  }

  lemma FinalizedRounds(raw: real, price: int, cost: int)
    requires 0 < price && 5.0 <= MaxDiscount(price, cost)
    ensures Rounds(raw, FinalizeDiscount(raw, MaxDiscount(price, cost)), price, cost)
  {
    var ceiling := MaxDiscount(price, cost);
    var d := FinalizeDiscount(raw, ceiling);
    FinalizedDiscount(raw, ceiling);
    FinalizedNearest(raw, ceiling);
    AboveCeiling(price, cost, d);
    AboveCeiling(price, cost, d + 5);
  }

  lemma OrdinaryDiscountIs(inp: PricingInput, power: real -> real)
    requires Compute(inp, power).status == Recommendation && 1.0 <= inp.daysRemaining
    ensures inp.Priceable() && 5.0 <= MaxDiscount(inp.originalPrice, inp.cost)
    ensures var raw := RawDiscount(inp.category, inp.stock, Pressure(inp), Urgency(inp, power));
            Compute(inp, power).discountPercent == Some(FinalizeDiscount(raw, MaxDiscount(inp.originalPrice, inp.cost)))
  {
  }

  /**
   * An ordinary recommendation, with at least a day left, is 5% when the formula aims lower, and
   * otherwise the multiple of 5 nearest to what it aims at, ties up, unless that does not leave
   * Rp500: then the greatest multiple that does. Two units or fewer get at most 15%.
   */
  lemma DiscountFollowsFormula(inp: PricingInput, power: real -> real, terms: Terms)
    requires Compute(inp, power).status == Recommendation && 1.0 <= inp.daysRemaining
    requires IsThreeHalvesPower(power) && HasTerms(inp, terms)
    ensures var r := Compute(inp, power);
            && r.discountPercent.Some?
            && Rounds(Target(terms, inp.stock), r.discountPercent.value, inp.originalPrice, inp.cost)
            && (inp.stock <= 2 ==> r.discountPercent.value <= 15)
  {
    OrdinaryDiscountIs(inp, power);
    TermsAre(inp, power, terms);
    TargetIs(terms, inp.category, inp.stock);
    FinalizedRounds(Target(terms, inp.stock), inp.originalPrice, inp.cost);
  }

  // ---------------------------------------------------------------------------
  // Projections and what is reported back
  // ---------------------------------------------------------------------------

  /** What is expected to sell of the stock: each percent of discount sells a fiftieth more than usual. */
  function Sold(inp: PricingInput, discount: int): real {
    var sales := inp.dailySales * inp.daysRemaining * (1.0 + discount as real / 50.0);
    if inp.stock as real <= sales then inp.stock as real else sales
  }

  /** The cost of what would be left without a discount. */
  function Lost(inp: PricingInput): real {
    (inp.stock as real - Sold(inp, 0)) * inp.cost as real
  }

  lemma SoldIs(inp: PricingInput, discount: int)
    ensures EstimatedSales(inp, discount) == Sold(inp, discount)
  {
    assert discount as real / SELLTHROUGH_DISCOUNT_FACTOR == discount as real / 50.0;
    SameProduct(inp.dailySales * inp.daysRemaining, 1.0 + discount as real / SELLTHROUGH_DISCOUNT_FACTOR, 1.0 + discount as real / 50.0);
  }

  lemma SameProduct(a: real, x: real, y: real)
    requires x == y
    ensures a * x == a * y
  {
  }

  lemma UnitsNearSold(inp: PricingInput, discount: int)
    ensures Near(SellThroughUnits(inp, discount), Sold(inp, discount))
  {
    SoldIs(inp, discount);
    UnitsAreNearest(inp, discount);
  }

  lemma LossNearLost(inp: PricingInput)
    requires inp.Priceable()
    ensures Near(LossNoAction(inp), Lost(inp))
  {
    var usual := inp.dailySales * inp.daysRemaining;
    assert usual * (1.0 + 0.0) == usual;
    var unsold := inp.stock as real - MinReal(inp.stock as real, usual);
    assert unsold == inp.stock as real - Sold(inp, 0);
    assert 0.0 <= unsold * inp.cost as real;
  }

  /** Units and loss are the nearest integers to what is expected. */
  lemma ProjectionsFollowFormula(inp: PricingInput, power: real -> real)
    requires Compute(inp, power).status == Recommendation
    ensures var r := Compute(inp, power);
            && r.discountPercent.Some? && r.sellThroughUnits.Some? && r.lossNoAction.Some?
            && Near(r.sellThroughUnits.value, Sold(inp, r.discountPercent.value))
            && Near(r.lossNoAction.value, Lost(inp))
  {
    RecommendationBounds(inp, power);
    var d := Compute(inp, power).discountPercent.value;
    assert Compute(inp, power).sellThroughUnits == Some(SellThroughUnits(inp, d));
    assert Compute(inp, power).lossNoAction == Some(LossNoAction(inp));
    UnitsNearSold(inp, d);
    LossNearLost(inp);
  }

  predicate Near(n: int, x: real) {
    x - 0.5 <= n as real <= x + 0.5
  }

  /** A deferred markdown is looked at again halfway through the days left, to the nearest day. */
  lemma RecheckHalfway(inp: PricingInput, power: real -> real)
    requires Compute(inp, power).status == NoAction
    ensures var r := Compute(inp, power);
            && r.reassessInDays.Some?
            && inp.daysRemaining / 2.0 - 0.5 < r.reassessInDays.value as real <= inp.daysRemaining / 2.0 + 0.5
  {
  }

  /** A recommendation or a deferral reports the stock, the shelf life counted with, the pressure and the urgency. */
  lemma TermsAreReported(inp: PricingInput, power: real -> real, terms: Terms)
    requires Compute(inp, power).status != InvalidInput
    requires IsThreeHalvesPower(power) && HasTerms(inp, terms)
    ensures var r := Compute(inp, power);
            && r.stock == Some(inp.stock) && r.usedShelfLife == Some(terms.shelf)
            && (r.shelfLifeDefaulted <==> inp.totalShelfLife.None?)
            && r.pressure == Some(terms.pressure) && r.urgency == Some(terms.urgency)
  {
    assert inp.Priceable();
    TermsAre(inp, power, terms);
  }

  /** Why an input gets no price: one message each, by the first thing wrong with it. */
  lemma ReasonsExactly(inp: PricingInput, power: real -> real)
    ensures var r := Compute(inp, power);
            var sane := inp.originalPrice > 0 && inp.cost >= 0 && inp.stock > 0 && inp.dailySales > 0.0 && inp.ShelfLife() > 0.0;
            && (r.message == Some(CheckNumbers) <==> !sane)
            && (r.message == Some(CostNotBelowPrice) <==> sane && inp.cost >= inp.originalPrice)
            && (r.message == Some(Expired) <==> sane && inp.cost < inp.originalPrice && inp.daysRemaining <= 0.0)
            && (r.expired <==> r.message == Some(Expired))
            && (r.message == Some(ThinMargin) <==>
                  inp.Priceable() && r.status != NoAction && !Leaves500(inp.originalPrice, inp.cost, 5))
            && (r.message == None <==> r.status == Recommendation)
            && (r.status == InvalidInput ==> r.stock == if inp.stock > 0 then Some(inp.stock) else None)
  {
    if inp.Priceable() {
      AboveCeiling(inp.originalPrice, inp.cost, 5);
    }
  }
}
