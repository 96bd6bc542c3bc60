/** The order discount: a percentage of the total, rounded half up to the cent, and capped at 70%. */
module Discount {

  // Money is in cents, percentages in hundredths of a percent.
  const WHOLE := 10_000
  const CAP := 7_000

  /** n / d to the nearest integer, halves away from zero: BigDecimal's HALF_UP. */
  function RoundHalfUp(n: int, d: int): int
    requires d > 0
  {
    if n >= 0 then (2 * n + d) / (2 * d) else -((2 * -n + d) / (2 * d))
  }

  function Calculate(percent: int, total: int): int {
    var discount := RoundHalfUp(total * percent, WHOLE);
    var maxDiscount := RoundHalfUp(total * CAP, WHOLE);
    if discount > maxDiscount then maxDiscount else discount
  }

  function Min(a: int, b: int): int {
    if a < b then a else b
  }

  // ---------- Rounding ----------

  /** The rounded quotient is the only integer within half of the exact one, ties away from zero. */
  lemma RoundedIsNearest(n: int, d: int, r: int)
    requires d > 0
    ensures n >= 0 ==> (r == RoundHalfUp(n, d) <==> 2 * r * d - d <= 2 * n < 2 * r * d + d)
    ensures n < 0 ==> (r == RoundHalfUp(n, d) <==> 2 * r * d - d < 2 * n <= 2 * r * d + d)
  {
    if n >= 0 {
      RoundedUp(n, d, r);
    } else {
      RoundedUp(-n, d, -r);
      assert 2 * -r * d == -(2 * r * d);
    }
  }

  lemma RoundedUp(n: int, d: int, r: int)
    requires n >= 0 && d > 0
    ensures r == RoundHalfUp(n, d) <==> 2 * r * d - d <= 2 * n < 2 * r * d + d
  {
    var q := RoundHalfUp(n, d);
    QuotientBounds(2 * n + d, 2 * d);
    assert 2 * q * d == q * (2 * d);
    if 2 * r * d - d <= 2 * n < 2 * r * d + d {
      SameQuotient(q, r, 2 * d, 2 * n + d);
    }
  }

  lemma QuotientBounds(n: int, d: int)
    requires d > 0
    ensures (n / d) * d <= n < (n / d) * d + d
  {
  }

  lemma SameQuotient(q: int, r: int, d: int, n: int)
    requires d > 0 && q * d <= n < q * d + d && r * d <= n < r * d + d
    ensures q == r
  {
    if q < r {
      TimesMonotone(d, q + 1, r);
    } else if r < q {
      TimesMonotone(d, r + 1, q);
    }
  }

  lemma RoundingIsMonotone(a: int, b: int, d: int)
    requires 0 <= a <= b && d > 0
    ensures 0 <= RoundHalfUp(a, d) <= RoundHalfUp(b, d)
  {
    var p, q := RoundHalfUp(a, d), RoundHalfUp(b, d);
    QuotientBounds(2 * a + d, 2 * d);
    QuotientBounds(2 * b + d, 2 * d);
    if q < p {
      TimesMonotone(2 * d, q + 1, p);
    }
    assert p >= 0;
  }

  lemma TimesMonotone(a: int, b: int, c: int)
    requires a >= 0 && b <= c
    ensures a * b <= a * c
  {
  }

  // ---------- The discount ----------

  /** Capping after rounding is rounding at the capped rate. */
  lemma CapCommutesWithRounding(percent: int, total: int)
    requires total >= 0
    ensures Calculate(percent, total) == RoundHalfUp(total * Min(percent, CAP), WHOLE)
  {
    TimesMonotone(total, 0, CAP);
    if percent <= 0 {
      TimesMonotone(total, percent, 0);
      RoundingIsMonotone(0, total * CAP, WHOLE);
      RoundingIsMonotone(0, -(total * percent), WHOLE);
    } else if percent <= CAP {
      TimesMonotone(total, 0, percent);
      TimesMonotone(total, percent, CAP);
      RoundingIsMonotone(total * percent, total * CAP, WHOLE);
    } else {
      TimesMonotone(total, CAP, percent);
      RoundingIsMonotone(total * CAP, total * percent, WHOLE);
    }
  }

  /** The discount is within half a cent of the exact amount at the capped rate. */
  lemma DiscountIsExactToHalfACent(percent: int, total: int)
    requires percent >= 0 && total >= 0
    ensures var exact := total * Min(percent, 7_000);
      2 * exact - 10_000 < 20_000 * Calculate(percent, total) <= 2 * exact + 10_000
  {
    CapCommutesWithRounding(percent, total);
    TimesMonotone(total, 0, Min(percent, CAP));
    RoundedIsNearest(total * Min(percent, CAP), WHOLE, Calculate(percent, total));
  }

  /**
   * The discounted price lies between zero and the total, and falls short of 30% of the total by at most
   * half a cent.
   */
  lemma DiscountedPriceBounds(percent: int, total: int)
    requires percent >= 0 && total >= 0
    ensures 0 <= Calculate(percent, total) <= total
    ensures 20_000 * (total - Calculate(percent, total)) >= 6_000 * total - 10_000
  {
    CapCommutesWithRounding(percent, total);
    DiscountIsExactToHalfACent(percent, total);
    TimesMonotone(total, Min(percent, CAP), CAP);
    TimesMonotone(total, 0, Min(percent, CAP));
    RoundingIsMonotone(0, total * Min(percent, CAP), WHOLE);
  }

  // One cent more of total is at most one cent more of discount.
  lemma RoundingGrowsSlowly(a: int, b: int, cents: int)
    requires 0 <= a <= b <= a + cents * WHOLE && cents >= 0
    ensures RoundHalfUp(b, WHOLE) <= RoundHalfUp(a, WHOLE) + cents
  {
  }

  /** The discounted price never falls when the total rises. */
  lemma DiscountedPriceIsMonotone(percent: int, low: int, high: int)
    requires percent >= 0 && 0 <= low <= high
    ensures low - Calculate(percent, low) <= high - Calculate(percent, high)
  {
    var rate := Min(percent, CAP);
    CapCommutesWithRounding(percent, low);
    CapCommutesWithRounding(percent, high);
    TimesMonotone(low, 0, rate);
    TimesMonotone(high - low, 0, rate);
    TimesMonotone(high - low, rate, WHOLE);
    assert high * rate == low * rate + (high - low) * rate;
    RoundingGrowsSlowly(low * rate, high * rate, high - low);
  }
}
