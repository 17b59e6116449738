/**
 * The live tables: each operation works on them step by step inside a transaction and restores
 * them when it fails half way (backend/hargaturun/api.py:526-646, 986-991).
 */
module DealStore {
  import opened Consultation
  import opened Deals
  import opened Numeric
  import opened Pricing
  import opened Text
  import opened Wrappers

  class Store {
    var deals: map<string, Deal>
    var claims: map<string, Claim>

    constructor ()
      ensures Valid() && Value() == RunOps([])
    {
      deals, claims := map[], map[];
    }

    ghost function Value(): Tables
      reads this
    {
      Tables(deals, claims)
    }

    ghost predicate Valid()
      reads this
    {
      Consistent(Value())
    }

    method PublishDeal(r: PublishRequest, newId: string) returns (outcome: Outcome)
      requires Valid()
      modifies this
      ensures Valid() && (Value(), outcome) == Publish(old(Value()), r, newId)
    {
      PublishConsistent(Value(), r, newId);
      if !SchemaOk(r) || CategoryCalled(r.category).None? || r.cost >= r.originalPrice {
        return Failed(422);
      }
      if r.dealPrice < r.cost + MIN_MARGIN_RP || r.dealPrice >= r.originalPrice {
        return Failed(422);
      }
      if !DiscountOk(r) || !r.namesPresent {
        return Failed(422);
      }
      if newId in deals {
        return Failed(500);
      }
      deals := deals[newId := Deal(r.originalPrice, r.cost, r.dealPrice, r.discountPercent, r.initialStock, r.initialStock, Active)];
      return Done(newId);
    }

    method RemoveDeal(id: string) returns (outcome: Outcome)
      requires Valid()
      modifies this
      ensures Valid() && (Value(), outcome) == Remove(old(Value()), id)
    {
      RemoveConsistent(Value(), id);
      if id !in deals {
        return Failed(404);
      }
      deals := deals[id := deals[id].(status := Removed)];
      return Done(id);
    }

    /** Tries the drawn codes in order. */
    method NewClaimCode(draws: seq<nat>) returns (code: Option<string>)
      ensures code == FirstFree(draws, claims)
    {
      for i := 0 to |draws|
        invariant FirstFree(draws, claims) == FirstFree(draws[i..], claims)
      {
        if CodeText(draws[i]) !in claims {
          return Some(CodeText(draws[i]));
        }
      }
      return None;
    }

    /** Takes the unit first and looks for a code after: running out of codes rolls the unit back. */
    method Claim(id: string, draws: seq<nat>) returns (outcome: Outcome)
      requires Valid()
      modifies this
      ensures Valid() && (Value(), outcome) == ClaimDeal(old(Value()), id, draws)
    {
      ClaimConsistent(Value(), id, draws);
      var dealsBefore, claimsBefore := deals, claims;
      if id !in deals || deals[id].status != Active || deals[id].remainingStock <= 0 {
        return Failed(409);
      }
      var remaining := deals[id].remainingStock - 1;
      var nextStatus := if remaining == 0 then SoldOut else Active;
      deals := deals[id := deals[id].(remainingStock := remaining, status := nextStatus)];
      var code := NewClaimCode(draws);
      if code.None? {
        deals, claims := dealsBefore, claimsBefore;
        return Failed(503);
      }
      claims := claims[code.value := Deals.Claim(id, Claimed)];
      return Done(code.value);
    }

    /** Looks the code up without regard to case or surrounding space. */
    method RedeemClaim(code: string) returns (outcome: Outcome)
      requires Valid()
      modifies this`claims
      ensures Valid() && (Value(), outcome) == Redeem(old(Value()), code)
    {
      RedeemConsistent(Value(), code);
      var normalized := Upper(Strip(code));
      var matches := set c | c in claims && claims[c].dealId in deals && Upper(c) == normalized;
      assert forall c :: c in matches ==> c == normalized;
      assert normalized in matches <==> normalized in claims;
      if matches == {} {
        return Failed(404);
      }
      var found :| found in matches;
      if claims[found].status == Redeemed {
        return Failed(409);
      }
      claims := claims[found := claims[found].(status := Redeemed)];
      return Done(found);
    }
  }

  // ---------------------------------------------------------------------------
  // Publishing what the engine recommends
  // ---------------------------------------------------------------------------

  /** The deal a vendor publishes from a recommendation. */
  function EngineDeal(inp: PricingInput, category: string, r: OracleResult): PublishRequest
    requires r.recommendedPrice.Some? && r.discountPercent.Some?
  {
    PublishRequest(category, inp.originalPrice, inp.cost, r.recommendedPrice.value, r.discountPercent.value, inp.stock, true)
  }

  /** A recommendation always passes the schema, margin and markdown guards of publishing. */
  lemma EngineDealKeepsTheMargin(inp: PricingInput, category: string, power: real -> real)
    requires Compute(inp, power).status == Recommendation
    ensures var r := Compute(inp, power);
            && r.recommendedPrice.Some? && r.discountPercent.Some?
            && SchemaOk(EngineDeal(inp, category, r)) && MarginOk(EngineDeal(inp, category, r))
  {
    RecommendationBounds(inp, power);
  }

  /**
   * The discount guard in integers: the deal price is within one and a half percent of the price
   * the stated discount gives, and exactly there only for an odd discount, since the percentage
   * is rounded half to even.
   */
  predicate FitsDiscount(price: int, deal: int, discount: int) {
    OffFits((100 - discount) * price - 100 * deal, price, discount)
  }

  predicate OffFits(off: int, price: int, discount: int) {
    Abs(2 * off) < 3 * price || (Abs(2 * off) == 3 * price && discount % 2 == 1)
  }

  /** The same for the percentage itself, less the stated one. */
  predicate GapFits(gap: real, discount: int) {
    -1.5 < gap < 1.5 || (discount % 2 == 1 && (gap == -1.5 || gap == 1.5))
  }

  lemma HalfGoesToEven(x: real)
    ensures var r := RoundHalfEven(x);
            && r as real - 0.5 <= x <= r as real + 0.5
            && (x == r as real - 0.5 || x == r as real + 0.5 ==> r % 2 == 0)
  {
  }

  lemma NearInteger(x: real, r: int, d: int)
    requires r as real - 0.5 <= x <= r as real + 0.5
    requires x == r as real - 0.5 || x == r as real + 0.5 ==> r % 2 == 0
    ensures -1 <= r - d <= 1 <==> GapFits(x - d as real, d)
  {
    if r == d + 2 || r == d - 2 {
      assert r % 2 == d % 2;
    }
  }

  lemma RoundsWithinOne(x: real, d: int)
    ensures Abs(RoundHalfEven(x) - d) <= 1 <==> GapFits(x - d as real, d)
  {
    HalfGoesToEven(x);
    NearInteger(x, RoundHalfEven(x), d);
  }

  function Gap(price: int, deal: int, discount: int): real
    requires price != 0
  {
    100.0 - deal as real / price as real * 100.0 - discount as real
  }

  lemma GapTimesPrice(price: int, deal: int, discount: int)
    requires 0 < price
    ensures Gap(price, deal, discount) * price as real == ((100 - discount) * price - 100 * deal) as real
  {
    TimesStep(100 - discount, price);
    var share := deal as real / price as real;
    DivideByStep(deal as real, price);
    assert (100.0 - share * 100.0 - discount as real) * price as real
        == 100.0 * price as real - 100.0 * (share * price as real) - discount as real * price as real;
  }

  lemma GapMeansOff(gap: real, off: int, price: int, discount: int)
    requires 0 < price && gap * price as real == off as real
    ensures GapFits(gap, discount) <==> OffFits(off, price, discount)
  {
    CompareGap(gap, off, price, 3, 1.5);
    CompareGap(gap, off, price, -3, -1.5);
  }

  lemma CompareGap(gap: real, off: int, price: int, k: int, half: real)
    requires 0 < price && gap * price as real == off as real && 2.0 * half == k as real
    ensures gap < half <==> 2 * off < k * price
    ensures half < gap <==> k * price < 2 * off
  {
    var p := price as real;
    TimesStep(k, price);
    assert 2.0 * (half * p) == (k * price) as real;
    Scale(gap, half, p);
    Scale(half, gap, p);
  }

  lemma GapDecides(r: PublishRequest)
    requires 0 < r.originalPrice
    ensures DiscountOk(r) <==> GapFits(Gap(r.originalPrice, r.dealPrice, r.discountPercent), r.discountPercent)
  {
    RoundsWithinOne(100.0 - r.dealPrice as real / r.originalPrice as real * 100.0, r.discountPercent);
  }

  lemma DiscountOkExactly(r: PublishRequest)
    requires 0 < r.originalPrice
    ensures DiscountOk(r) <==> FitsDiscount(r.originalPrice, r.dealPrice, r.discountPercent)
  {
    var price, deal, d := r.originalPrice, r.dealPrice, r.discountPercent;
    GapDecides(r);
    GapTimesPrice(price, deal, d);
    GapMeansOff(Gap(price, deal, d), (100 - d) * price - 100 * deal, price, d);
  }

  /** A recommendation can be published exactly when its price still fits its discount. */
  lemma EngineDealPublishableExactly(inp: PricingInput, category: string, power: real -> real)
    requires Compute(inp, power).status == Recommendation && CategoryCalled(category).Some?
    ensures var r := Compute(inp, power);
            && r.recommendedPrice.Some? && r.discountPercent.Some?
            && (Publishable(EngineDeal(inp, category, r)) <==>
                  FitsDiscount(inp.originalPrice, r.recommendedPrice.value, r.discountPercent.value))
  {
    EngineDealKeepsTheMargin(inp, category, power);
    DiscountOkExactly(EngineDeal(inp, category, Compute(inp, power)));
  }

  /** From Rp16.581 up the Rp500 rounding is too fine to break the discount guard. */
  lemma EngineDealIsPublishable(inp: PricingInput, category: string, power: real -> real)
    requires Compute(inp, power).status == Recommendation
    requires 16581 <= inp.originalPrice && CategoryCalled(category).Some?
    ensures var r := Compute(inp, power);
            r.recommendedPrice.Some? && r.discountPercent.Some? && Publishable(EngineDeal(inp, category, r))
  {
    RecommendationBounds(inp, power);
    EngineDealPublishableExactly(inp, category, power);
    RecommendedFits(inp.originalPrice, inp.cost, Compute(inp, power).discountPercent.value);
  }

  /** The stepped price fits its discount, and the margin floor only brings it closer to the exact one. */
  lemma RecommendedFits(price: int, cost: int, discount: int)
    requires 16581 <= price && DISCOUNT_MIN <= discount <= DISCOUNT_MAX && discount % DISCOUNT_STEP == 0
    requires discount as real <= MaxDiscount(price, cost)
    ensures FitsDiscount(price, RecommendedPrice(price, cost, discount), discount)
  {
    var exact := ExactPrice(price, discount);
    CeilingMeansMargin(price, cost, discount);
    SteppedIsNearest(price, discount);
    RoundToStepIsNearest(exact, PRICE_STEP);
    ExactInHundredths(price, discount);
    SteppedFits(price, discount, SteppedPrice(price, exact));
  }

  lemma ExactInHundredths(price: int, discount: int)
    ensures 100.0 * ExactPrice(price, discount) == ((100 - discount) * price) as real
  {
    TimesStep(100 - discount, price);
  }

  /** The nearest multiple of 500 to the exact price is off by at most one and a half percent, for every discount. */
  lemma SteppedFits(price: int, discount: int, stepped: int)
    requires 16581 <= price && DISCOUNT_MIN <= discount <= DISCOUNT_MAX && discount % DISCOUNT_STEP == 0
    requires stepped % PRICE_STEP == 0 && -25000 <= (100 - discount) * price - 100 * stepped <= 25000
    ensures FitsDiscount(price, stepped, discount)
  {
    if price < 16667 {
      var k, t := discount / DISCOUNT_STEP, stepped / PRICE_STEP;
      SharpSteps(price, k, t);
    }
  }

  /** Below Rp16.667 half a step is more than the guard allows, but no price from Rp16.581 on comes that close to it. */
  lemma SharpSteps(price: int, k: int, t: int)
    requires 16581 <= price < 16667 && 1 <= k <= 14
    requires -25000 <= (100 - 5 * k) * price - 50000 * t <= 25000
    ensures -3 * price < 2 * ((100 - 5 * k) * price - 50000 * t) < 3 * price
  {
    if k == 1 {} else if k == 2 {} else if k == 3 {} else if k == 4 {} else if k == 5 {} else if k == 6 {}
    else if k == 7 {} else if k == 8 {} else if k == 9 {} else if k == 10 {} else if k == 11 {} else if k == 12 {}
    else if k == 13 {} else {}
  }

  /** The limit is sharp: a Rp16.580 item with room for 5% is priced Rp16.000, which rounds to 3% off. */
  lemma LimitIsSharp(power: real -> real)
    ensures var inp := PricingInput(Bakery, 16580, 15000, 10, 0.5, 1.0, None);
            var r := Compute(inp, power);
            && r.status == Recommendation && r.recommendedPrice == Some(16000) && r.discountPercent == Some(5)
            && !Publishable(EngineDeal(inp, "Bakery", r))
  {
    var inp := PricingInput(Bakery, 16580, 15000, 10, 0.5, 1.0, None);
    NoActionExactly(inp, power);
    RecommendationExactly(inp, power);
    RecommendationBounds(inp, power);
    CeilingMeansMargin(16580, 15000, 5);
    CeilingMeansMargin(16580, 15000, 10);
    FireSaleIsDeepest(inp, inp, power, power, 1);
    FireSaleIsDeepest(inp, inp, power, power, 2);
    DiscountOkExactly(EngineDeal(inp, "Bakery", Compute(inp, power)));
  }

  /** Below that the Rp500 rounding can: a Rp1.200 item discounted by 55% is priced Rp500, which is 58% off. */
  lemma EngineDealMayBeRefused(power: real -> real)
    ensures var inp := PricingInput(Bakery, 1200, 0, 10, 0.5, 1.0, None);
            var r := Compute(inp, power);
            && r.status == Recommendation && r.recommendedPrice == Some(500) && r.discountPercent == Some(55)
            && !DiscountOk(EngineDeal(inp, "Bakery", r))
  {
    var inp := PricingInput(Bakery, 1200, 0, 10, 0.5, 1.0, None);
    NoActionExactly(inp, power);
    RecommendationExactly(inp, power);
    RecommendationBounds(inp, power);
    CeilingMeansMargin(1200, 0, 55);
    CeilingMeansMargin(1200, 0, 60);
    FireSaleIsDeepest(inp, inp, power, power, 11);
    FireSaleIsDeepest(inp, inp, power, power, 12);
    assert 500.0 / 1200.0 * 1200.0 == 500.0;
  }
}
