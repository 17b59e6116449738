/** The rounding helpers of the pricing engine (backend/hargaturun/pricing.py:101-124), over exact reals. */
module Numeric {

  function Clamp(value: real, low: real, high: real): (r: real)
    requires low <= high
    ensures low <= r <= high
    ensures low <= value <= high ==> r == value
    ensures value < low ==> r == low
    ensures high < value ==> r == high
  {
    if value < low then low else if high < value then high else value
  }

  function MinReal(a: real, b: real): real {
    if a <= b then a else b
  }

  /** Nearest integer, ties going up: the only integer within half a unit of `value` on these sides. */
  function RoundHalfUp(value: real): (r: int)
    ensures r as real - 0.5 <= value < r as real + 0.5
  {
    (value + 0.5).Floor
  }

  function RoundToStep(value: real, step: int): int
    requires 0 < step
  {
    RoundHalfUp(value / step as real) * step
  }

  function FloorToStep(value: real, step: int): int
    requires 0 < step
  {
    (value / step as real).Floor * step
  }

  lemma FloorMonotone(x: real, y: real)
    requires x <= y
    ensures x.Floor <= y.Floor
  {
  }

  lemma DivideByStep(value: real, step: int)
    requires 0 < step
    ensures value / step as real * step as real == value
  {
  }

  lemma TimesStep(k: int, step: int)
    ensures (k * step) as real == k as real * step as real
  {
  }

  /** `k * step <= value` exactly when `k` is at most the floor of the quotient. */
  lemma MultiplesBelow(value: real, step: int, k: int)
    requires 0 < step
    ensures (k * step) as real <= value <==> k <= (value / step as real).Floor
  {
    var q := value / step as real;
    DivideByStep(value, step);
    TimesStep(k, step);
    var s := step as real;
    assert q * s == value;
    if k as real <= q {
      assert k as real * s <= q * s;
    } else {
      assert k as real * s > q * s;
    }
  }

  /**
   * Flooring to a step gives the greatest multiple of the step that does not exceed the value.
   */
  lemma FloorToStepIsGreatest(value: real, step: int)
    requires 0 < step
    ensures FloorToStep(value, step) % step == 0
    ensures value - step as real < FloorToStep(value, step) as real <= value
    ensures forall k: int {:trigger k * step} :: (k * step) as real <= value ==> k * step <= FloorToStep(value, step)
  {
    var f := (value / step as real).Floor;
    MultipleRemainder(f, step);
    MultiplesBelow(value, step, f);
    MultiplesBelow(value, step, f + 1);
    assert (f + 1) * step == f * step + step;
    forall k: int {:trigger k * step} | (k * step) as real <= value
      ensures k * step <= f * step
    {
      MultiplesBelow(value, step, k);
      MultiplyMonotone(k, f, step);
    }
  }

  lemma MultipleRemainder(k: int, step: int)
    requires 0 < step
    ensures (k * step) % step == 0
  {
    var q, r := k * step / step, (k * step) % step;
    assert k * step == q * step + r;
    assert (k - q) * step == r;
    if k - q >= 1 { MultiplyMonotone(1, k - q, step); }
    if k - q <= -1 { MultiplyMonotone(k - q, -1, step); }
  }

  lemma MultiplyMonotone(a: int, b: int, step: int)
    requires a <= b && 0 < step
    ensures a * step <= b * step
  {
  }

  lemma Scale(a: real, b: real, s: real)
    requires 0.0 < s
    ensures a <= b ==> a * s <= b * s
    ensures a < b ==> a * s < b * s
  {
  }

  /** Rounding to a step lands within half a step of the value, on a multiple of the step. */
  lemma RoundToStepIsNearest(value: real, step: int)
    requires 0 < step
    ensures RoundToStep(value, step) % step == 0
    ensures value - step as real / 2.0 < RoundToStep(value, step) as real <= value + step as real / 2.0
  {
    var q, s := value / step as real, step as real;
    var r := RoundHalfUp(q);
    MultipleRemainder(r, step);
    DivideByStep(value, step);
    TimesStep(r, step);
    HalfStepAway(q, s);
    Scale(q - 0.5, r as real, s);
    Scale(r as real, q + 0.5, s);
  }

  lemma HalfStepAway(q: real, s: real)
    ensures (q - 0.5) * s == q * s - s / 2.0
    ensures (q + 0.5) * s == q * s + s / 2.0
  {
  }

  lemma RoundToStepMonotone(x: real, y: real, step: int)
    requires 0 < step && x <= y
    ensures RoundToStep(x, step) <= RoundToStep(y, step)
    ensures FloorToStep(x, step) <= FloorToStep(y, step)
  {
    var s := step as real;
    DivideByStep(x, step);
    DivideByStep(y, step);
    assert x / s <= y / s;
    FloorMonotone(x / s + 0.5, y / s + 0.5);
    FloorMonotone(x / s, y / s);
    MultiplyMonotone(RoundHalfUp(x / s), RoundHalfUp(y / s), step);
    MultiplyMonotone((x / s).Floor, (y / s).Floor, step);
  }
}
