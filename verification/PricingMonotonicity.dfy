/**
 * How the oracle's answer moves when its inputs move: through the clamps, the 5% rounding, the
 * margin ceiling, the Rp500 rounding and its fallback, and across the special cases of
 * backend/hargaturun/pricing.py:318-416.
 */
module PricingMonotonicity {
  import opened Numeric
  import opened Pricing
  import opened Wrappers

  /** `a` is at least as pressing as `b`: less time, more stock, slower sales, a larger share of its life gone, cheaper goods. */
  predicate MorePressing(a: PricingInput, b: PricingInput)
  {
    && a.category == b.category
    && a.originalPrice == b.originalPrice
    && a.cost <= b.cost
    && a.stock >= b.stock
    && a.daysRemaining <= b.daysRemaining
    && a.dailySales <= b.dailySales
    && a.ShelfLife() >= b.ShelfLife()
  }

  lemma CubeMonotone(x: real, y: real)
    requires 0.0 <= x <= y
    ensures x * x * x <= y * y * y
  {
    assert x * x <= y * y by { assert x * x <= x * y <= y * y; }
    assert x * x * x <= y * y * x <= y * y * y;
  }

  /** `x ** 1.5` maps the unit interval into itself and is monotone, from its defining equation alone. */
  lemma PowerMonotone(power: real -> real, x: real, y: real)
    requires IsThreeHalvesPower(power)
    requires 0.0 <= x <= y <= 1.0
    ensures 0.0 <= power(x) <= power(y) <= 1.0
  {
    CubeMonotone(x, y);
    CubeMonotone(y, 1.0);
    SquareOrder(power(x), power(y));
    SquareOrder(power(y), 1.0);
  }

  lemma SquareOrder(u: real, v: real)
    requires 0.0 <= u && 0.0 <= v && u * u <= v * v
    ensures u <= v
  {
    if v < u {
      SquareStrict(v, u);
    }
  }

  lemma SquareStrict(v: real, u: real)
    requires 0.0 <= v < u
    ensures v * v < u * u
  {
    var d := u - v;
    assert u * u == v * v + d * (u + v);
  }

  lemma QuotientMonotone(x: real, y: real, p: real, q: real)
    requires 0.0 <= x <= y && 0.0 < q <= p
    ensures x / p <= y / q
  {
    var b := y / q;
    assert b * q == y;
    assert 0.0 <= b;
    assert b * q <= b * p;
    QuotientAtMost(x, p, b);
  }

  lemma QuotientAtMost(x: real, p: real, b: real)
    requires 0.0 < p && x <= b * p
    ensures x / p <= b
  {
    assert x / p * p == x;
    Scale(b, x / p, p);
  }

  lemma PressureMonotone(a: PricingInput, b: PricingInput)
    requires a.Priceable() && b.Priceable() && MorePressing(a, b)
    ensures Pressure(b) <= Pressure(a)
  {
    QuotientMonotone(b.stock as real, a.stock as real, b.dailySales, a.dailySales);
    QuotientMonotone(0.0, b.stock as real, b.dailySales, b.dailySales);
    QuotientMonotone(b.stock as real / b.dailySales, a.stock as real / a.dailySales, b.daysRemaining, a.daysRemaining);
  }

  lemma UrgencyMonotone(a: PricingInput, b: PricingInput, power: real -> real)
    requires a.Priceable() && b.Priceable() && MorePressing(a, b) && IsThreeHalvesPower(power)
    ensures 0.0 <= Urgency(b, power) <= Urgency(a, power) <= 1.0
  {
    QuotientMonotone(a.daysRemaining, b.daysRemaining, a.ShelfLife(), b.ShelfLife());
    PowerMonotone(power, LifeConsumed(b), LifeConsumed(a));
  }

  lemma ProductMonotone(a: real, b: real, u: real, v: real)
    requires 0.0 <= a <= b && 0.0 <= u <= v
    ensures a * u <= b * v
  {
    if 0.0 < u { Scale(a, b, u); }
    if 0.0 < b { Scale(u, v, b); }
  }

  lemma FormulaMonotone(category: Category, pressureA: real, pressureB: real, urgencyA: real, urgencyB: real)
    requires pressureB <= pressureA && 0.0 <= urgencyB <= urgencyA
    ensures FormulaDiscount(category, pressureB, urgencyB) <= FormulaDiscount(category, pressureA, urgencyA)
  {
    var factorA := Clamp((pressureA - 1.0) / PRESSURE_DIVISOR, 0.0, 1.0);
    var factorB := Clamp((pressureB - 1.0) / PRESSURE_DIVISOR, 0.0, 1.0);
    ProductMonotone(factorB, factorA, urgencyB, urgencyA);
    var bias := CategoryBias(category);
    Scale(factorB * urgencyB, factorA * urgencyA, bias);
    Scale(factorB * urgencyB * bias, factorA * urgencyA * bias, BASE_SCALE);
  }

  /** The finalized discount grows with the raw discount and with the margin ceiling. */
  lemma FinalizeMonotone(rawA: real, rawB: real, ceilingA: real, ceilingB: real)
    requires rawB <= rawA && DISCOUNT_MIN as real <= ceilingB <= ceilingA
    ensures FinalizeDiscount(rawB, ceilingB) <= FinalizeDiscount(rawA, ceilingA)
  {
    var a := RoundToStep(Clamp(rawA, DISCOUNT_MIN as real, ceilingA), DISCOUNT_STEP);
    var b := RoundToStep(Clamp(rawB, DISCOUNT_MIN as real, ceilingB), DISCOUNT_STEP);
    RoundToStepMonotone(Clamp(rawB, DISCOUNT_MIN as real, ceilingB), Clamp(rawA, DISCOUNT_MIN as real, ceilingA), DISCOUNT_STEP);
    RoundToStepMonotone(ceilingB, ceilingA, DISCOUNT_STEP);
    FinalizedDiscount(rawA, ceilingA);
    FinalizedDiscount(rawB, ceilingB);
    if a as real <= ceilingA {
      assert FinalizeDiscount(rawA, ceilingA) >= a;
      if b as real > ceilingB {
        FloorToStepIsGreatest(ceilingB, DISCOUNT_STEP);
      }
    }
  }

  lemma ExactPriceMonotone(price: int, discountA: int, discountB: int)
    requires 0 < price && discountB <= discountA
    ensures ExactPrice(price, discountA) <= ExactPrice(price, discountB)
  {
    Scale(1.0 - discountA as real / 100.0, 1.0 - discountB as real / 100.0, price as real);
  }

  /** The Rp500 rounding, its fallback below the original price and the margin floor never reorder two prices. */
  lemma PriceMonotone(price: int, costA: int, costB: int, discountA: int, discountB: int)
    requires 0 < price && costA <= costB && discountB <= discountA && 0 <= discountB
    ensures RecommendedPrice(price, costA, discountA) <= RecommendedPrice(price, costB, discountB)
  {
    var exactA, exactB := ExactPrice(price, discountA), ExactPrice(price, discountB);
    ExactPriceMonotone(price, discountA, discountB);
    ExactPriceMonotone(price, discountB, 0);
    assert exactB <= price as real;
    SteppedMonotone(price, exactA, exactB);
  }

  lemma SteppedMonotone(price: int, exactA: real, exactB: real)
    requires exactA <= exactB <= price as real
    ensures SteppedPrice(price, exactA) <= SteppedPrice(price, exactB)
  {
    RoundToStepMonotone(exactA, exactB, PRICE_STEP);
    var nearestA, nearestB := RoundToStep(exactA, PRICE_STEP), RoundToStep(exactB, PRICE_STEP);
    if nearestA < price <= nearestB {
      RoundToStepIsNearest(exactA, PRICE_STEP);
      RoundToStepIsNearest(exactB, PRICE_STEP);
      FloorToStepIsGreatest(exactB, PRICE_STEP);
      MultiplesApart(nearestA, nearestB);
      var k := nearestA / PRICE_STEP;
      assert (k * PRICE_STEP) as real <= exactB;
    }
  }

  lemma MultiplesApart(x: int, y: int)
    requires x < y && x % PRICE_STEP == 0 && y % PRICE_STEP == 0
    ensures x == x / PRICE_STEP * PRICE_STEP && x + PRICE_STEP <= y
  {
  }

  /**
   * The more pressing of two priceable inputs is never treated more gently: it is discounted
   * whenever the other is, at least as deeply and at no higher a price, and it is left alone only
   * if the other is.
   */
  lemma PressingNeverGentler(a: PricingInput, b: PricingInput, power: real -> real)
    requires a.Priceable() && b.Priceable() && MorePressing(a, b) && IsThreeHalvesPower(power)
    ensures var ra, rb := Compute(a, power), Compute(b, power);
            && (ra.status == NoAction ==> rb.status == NoAction)
            && (rb.status == Recommendation ==>
                  && ra.status == Recommendation
                  && ra.discountPercent.Some? && rb.discountPercent.Some?
                  && ra.recommendedPrice.Some? && rb.recommendedPrice.Some?
                  && rb.discountPercent.value <= ra.discountPercent.value
                  && ra.recommendedPrice.value <= rb.recommendedPrice.value)
  {
    NoActionTransfers(a, b, power);
    RecommendationExactly(a, power);
    RecommendationExactly(b, power);
    if Compute(b, power).status == Recommendation {
      DiscountMonotone(a, b, power);
      PriceMonotone(a.originalPrice, a.cost, b.cost,
                    Compute(a, power).discountPercent.value, Compute(b, power).discountPercent.value);
    }
  }

  lemma NoActionTransfers(a: PricingInput, b: PricingInput, power: real -> real)
    requires a.Priceable() && b.Priceable() && MorePressing(a, b) && IsThreeHalvesPower(power)
    ensures Compute(a, power).status == NoAction ==> Compute(b, power).status == NoAction
  {
    PressureMonotone(a, b);
    UrgencyMonotone(a, b, power);
  }

  lemma CeilingMonotone(price: int, costA: int, costB: int)
    requires 0 < price && costA <= costB
    ensures MaxDiscount(price, costB) <= MaxDiscount(price, costA)
  {
    var p := price as real;
    DivideByStep((price - costA) as real, price);
    DivideByStep((price - costB) as real, price);
    Scale((price - costA) as real / p, (price - costB) as real / p, p);
  }

  lemma DiscountMonotone(a: PricingInput, b: PricingInput, power: real -> real)
    requires a.Priceable() && b.Priceable() && MorePressing(a, b) && IsThreeHalvesPower(power)
    requires Compute(a, power).status == Recommendation && Compute(b, power).status == Recommendation
    ensures Compute(a, power).discountPercent.Some? && Compute(b, power).discountPercent.Some?
    ensures 0 <= Compute(b, power).discountPercent.value <= Compute(a, power).discountPercent.value
  {
    PressureMonotone(a, b);
    UrgencyMonotone(a, b, power);
    CeilingMonotone(a.originalPrice, a.cost, b.cost);
    var ceilingA, ceilingB := MaxDiscount(a.originalPrice, a.cost), MaxDiscount(b.originalPrice, b.cost);
    if a.daysRemaining < FIRE_SALE_DAYS {
      RecommendationBounds(b, power);
      var d := Compute(b, power).discountPercent.value;
      FinalizeMonotone(DISCOUNT_MAX as real, DISCOUNT_MAX as real, ceilingA, ceilingB);
      FinalizedDiscount(DISCOUNT_MAX as real, ceilingA);
      FloorToStepIsGreatest(ceilingA, DISCOUNT_STEP);
      assert d == d / DISCOUNT_STEP * DISCOUNT_STEP;
      assert (d / DISCOUNT_STEP * DISCOUNT_STEP) as real <= ceilingA;
    } else {
      var rawA := RawDiscount(a.category, a.stock, Pressure(a), Urgency(a, power));
      var rawB := RawDiscount(b.category, b.stock, Pressure(b), Urgency(b, power));
      FormulaMonotone(a.category, Pressure(a), Pressure(b), Urgency(a, power), Urgency(b, power));
      FinalizeMonotone(rawA, rawB, ceilingA, ceilingB);
      FinalizedDiscount(rawB, ceilingB);
    }
  }

  /** How soon a timing asks for the markdown. */
  function Haste(t: Timing): nat {
    match t
    case WaitOneDay => 0
    case StartToday => 1
    case TodayOnly => 2
  }

  /**
   * Between two recommendations the more pressing one is never told to start later, and at the
   * same rate of sales never rests on the weaker confidence while the other rests on the stronger.
   */
  lemma PressingNeverLater(a: PricingInput, b: PricingInput, power: real -> real)
    requires a.Priceable() && b.Priceable() && MorePressing(a, b) && IsThreeHalvesPower(power)
    requires Compute(a, power).status == Recommendation && Compute(b, power).status == Recommendation
    ensures var ra, rb := Compute(a, power), Compute(b, power);
            && ra.timing.Some? && rb.timing.Some? && Haste(rb.timing.value) <= Haste(ra.timing.value)
            && (a.dailySales == b.dailySales && ra.confidence == Some(LessCertain) ==> rb.confidence == Some(LessCertain))
  {
    PressureMonotone(a, b);
    UrgencyMonotone(a, b, power);
    AdviceExactly(a, power);
    AdviceExactly(b, power);
  }

  // ---------------------------------------------------------------------------
  // One input at a time
  // ---------------------------------------------------------------------------

  /** Fewer days never soften the answer, across the one-day fire-sale boundary too. */
  lemma FewerDays(inp: PricingInput, sooner: real, power: real -> real)
    requires IsThreeHalvesPower(power) && inp.Priceable() && 0.0 < sooner <= inp.daysRemaining
    ensures var near, far := Compute(inp.(daysRemaining := sooner), power), Compute(inp, power);
            && (near.status == NoAction ==> far.status == NoAction)
            && (far.status == Recommendation ==>
                  && near.status == Recommendation
                  && near.discountPercent.Some? && far.discountPercent.Some?
                  && far.discountPercent.value <= near.discountPercent.value)
  {
    PressingNeverGentler(inp.(daysRemaining := sooner), inp, power);
  }

  /** More stock or slower sales never soften the answer, across the two-unit cap too. */
  lemma MoreSupply(inp: PricingInput, stock: int, dailySales: real, power: real -> real)
    requires IsThreeHalvesPower(power) && inp.Priceable() && inp.stock <= stock && 0.0 < dailySales <= inp.dailySales
    ensures var more, less := Compute(inp.(stock := stock, dailySales := dailySales), power), Compute(inp, power);
            && (more.status == NoAction ==> less.status == NoAction)
            && (less.status == Recommendation ==>
                  && more.status == Recommendation
                  && more.discountPercent.Some? && less.discountPercent.Some?
                  && less.discountPercent.value <= more.discountPercent.value)
  {
    PressingNeverGentler(inp.(stock := stock, dailySales := dailySales), inp, power);
  }

  /** A higher cost never deepens the discount nor lowers the price. */
  lemma HigherCost(inp: PricingInput, cost: int, power: real -> real)
    requires IsThreeHalvesPower(power) && inp.cost <= cost
    requires Compute(inp, power).status == Recommendation
    requires Compute(inp.(cost := cost), power).status == Recommendation
    ensures var cheap, dear := Compute(inp, power), Compute(inp.(cost := cost), power);
            && cheap.discountPercent.Some? && dear.discountPercent.Some?
            && cheap.recommendedPrice.Some? && dear.recommendedPrice.Some?
            && dear.discountPercent.value <= cheap.discountPercent.value
            && cheap.recommendedPrice.value <= dear.recommendedPrice.value
  {
    PressingNeverGentler(inp, inp.(cost := cost), power);
  }
}
