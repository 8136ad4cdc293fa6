/** Fixed-point conversion between whole reais and micro-USDC, rounding half up.
    The product is computed in `big.Int`; only the result is cut to 64 bits. */
module Conversion {
  import opened Int64

  /** The rate is BRL per USD in micros, so reais and micro-USDC differ by 10^12. */
  const SCALE: int := 1_000_000_000_000

  /** round(a * b / d) without overflow: `big.Int` division is Euclidean. */
  function Rounded(a: int, b: int, d: int): int
    requires d > 0
  {
    (a * b + d / 2) / d
  }

  function MulDivRound(a: int64, b: int64, d: int64): int64
    requires d > 0
  {
    Wrap(Rounded(a, b, d))
  }

  function ToReais(microUsdc: int64, rate: int64): int64 {
    MulDivRound(microUsdc, rate, SCALE)
  }

  function ToMicroUsdc(reais: int64, rate: int64): int64
    requires rate > 0
  {
    MulDivRound(reais, SCALE, rate)
  }

  // ------------------------------------------------------------------- rounding

  /** Half up: `r` is the one integer with x/d - 1/2 < r <= x/d + 1/2. */
  predicate HalfUp(x: int, d: int, r: int) {
    (2 * r - 1) * d <= 2 * x < (2 * r + 1) * d
  }

  lemma RoundedIsHalfUp(a: int, b: int, d: int)
    requires d > 0
    ensures HalfUp(a * b, d, Rounded(a, b, d))
  {
    DivisionHalfUp(a * b, d, d / 2);
  }

  lemma DivisionHalfUp(x: int, d: int, half: int)
    requires d > 0 && half == d / 2
    ensures HalfUp(x, d, (x + half) / d)
  {
    var r := (x + half) / d;
    assert r * d <= x + half < r * d + d;
    assert (2 * r - 1) * d == 2 * (r * d) - d;
    assert (2 * r + 1) * d == 2 * (r * d) + d;
  }

  lemma Below(d: int, a: int, b: int)
    requires d > 0 && a * d < b * d
    ensures a < b
  {
  }

  lemma HalfUpUnique(x: int, d: int, r: int, s: int)
    requires d > 0 && HalfUp(x, d, r) && HalfUp(x, d, s)
    ensures r == s
  {
    Below(d, 2 * r - 1, 2 * s + 1);
    Below(d, 2 * s - 1, 2 * r + 1);
  }

  /** The error of one conversion is at most half a unit of the result. */
  lemma RoundingError(x: int, d: int, r: int)
    requires d > 0 && HalfUp(x, d, r)
    ensures -d <= 2 * (r * d - x) <= d
  {
    assert (2 * r - 1) * d == 2 * (r * d) - d;
    assert (2 * r + 1) * d == 2 * (r * d) + d;
  }

  // ----------------------------------------------------------------- round trips

  /** Converting this many reais does not leave int64. */
  predicate Fits(reais: int64, rate: int64)
    requires rate > 0
  {
    reais >= 0 && Rounded(reais, 1_000_000_000_000, rate) <= MAX
  }

  lemma RoundedNonNegative(a: int, b: int, d: int)
    requires a >= 0 && b >= 0 && d > 0
    ensures Rounded(a, b, d) >= 0
  {
    assert a * b >= 0;
  }

  /** An amount in reais survives the trip through micro-USDC and back. */
  lemma RoundTrip(reais: int64, rate: int64)
    requires 0 < rate <= 1_000_000_000_000 && Fits(reais, rate)
    ensures ToReais(ToMicroUsdc(reais, rate), rate) == reais
  {
    var m := Rounded(reais, SCALE, rate);
    RoundedNonNegative(reais, SCALE, rate);
    WrapShrinks(m);
    RoundedIsHalfUp(reais, SCALE, rate);
    RoundingError(reais * SCALE, rate, m);
    RoundedIsHalfUp(m, rate, SCALE);
    Returns(m, rate, reais);
    HalfUpUnique(m * rate, SCALE, Rounded(m, rate, SCALE), reais);
    WrapShrinks(reais);
  }

  lemma Returns(m: int, rate: int, reais: int)
    requires 0 < rate <= SCALE
    requires -rate <= 2 * (m * rate - reais * SCALE) <= rate
    requires rate == SCALE ==> m == reais || 2 * (m * rate - reais * SCALE) < rate
    ensures HalfUp(m * rate, SCALE, reais)
  {
    assert (2 * reais - 1) * SCALE == 2 * (reais * SCALE) - SCALE;
    assert (2 * reais + 1) * SCALE == 2 * (reais * SCALE) + SCALE;
  }

  ghost predicate RoundTrips(rate: int64)
    requires rate > 0
  {
    forall reais: int64 :: Fits(reais, rate) ==> ToReais(ToMicroUsdc(reais, rate), rate) == reais
  }

  /** Above one million BRL per USD two amounts share one micro-USDC value: if the
      trip were lossless, n + 1 amounts would need n + 1 values. */
  lemma {:induction false} Spreads(n: int64, rate: int64)
    requires rate > SCALE && RoundTrips(rate) && 0 <= n <= rate
    ensures Rounded(n, SCALE, rate) >= n
  {
    if n > 0 {
      Spreads(n - 1, rate);
      var low, high := Rounded(n - 1, SCALE, rate), Rounded(n, SCALE, rate);
      RoundedMonotone(n - 1, n, SCALE, rate);
      RoundedMonotone(n, rate, SCALE, rate);
      AtRate(rate);
      WrapShrinks(low);
      WrapShrinks(high);
      assert Fits(n - 1, rate) && Fits(n, rate);
      assert ToReais(ToMicroUsdc(n - 1, rate), rate) == n - 1 && ToReais(ToMicroUsdc(n, rate), rate) == n;
    } else {
      RoundedNonNegative(n, SCALE, rate);
    }
  }

  lemma RoundedMonotone(a: int, b: int, c: int, d: int)
    requires 0 <= a <= b && c >= 0 && d > 0
    ensures 0 <= Rounded(a, c, d) <= Rounded(b, c, d)
  {
    assert 0 <= a * c <= b * c;
    DivMonotone(a * c + d / 2, b * c + d / 2, d);
  }

  lemma DivMonotone(a: int, b: int, d: int)
    requires 0 <= a <= b && d > 0
    ensures 0 <= a / d <= b / d
  {
    assert (b / d + 1) * d == (b / d) * d + d;
    Below(d, a / d, b / d + 1);
  }

  lemma AtRate(rate: int64)
    requires rate > 0
    ensures Rounded(rate, SCALE, rate) == SCALE
  {
    RoundedIsHalfUp(rate, SCALE, rate);
    assert (2 * SCALE - 1) * rate == 2 * (rate * SCALE) - rate;
    assert (2 * SCALE + 1) * rate == 2 * (rate * SCALE) + rate;
    HalfUpUnique(rate * SCALE, rate, Rounded(rate, SCALE, rate), SCALE);
  }

  /** Every amount survives the round trip if and only if one micro-USDC is worth
      at most one real. */
  lemma RoundTripIff(rate: int64)
    requires rate > 0
    ensures RoundTrips(rate) <==> rate <= 1_000_000_000_000
  {
    if rate <= SCALE {
      forall reais: int64 | Fits(reais, rate) ensures ToReais(ToMicroUsdc(reais, rate), rate) == reais {
        RoundTrip(reais, rate);
      }
    } else if RoundTrips(rate) {
      Spreads(rate, rate);
      AtRate(rate);
    }
  }

  // ---------------------------------------------------------------------- errors

  /** The conversion is within half a unit of exact if and only if it fits. */
  lemma PayoutErrorIff(reais: int64, rate: int64)
    requires rate > 0 && reais >= 0
    ensures -rate <= 2 * (ToMicroUsdc(reais, rate) * rate - reais * 1_000_000_000_000) <= rate <==> Fits(reais, rate)
  {
    var m := Rounded(reais, SCALE, rate);
    RoundedNonNegative(reais, SCALE, rate);
    RoundedIsHalfUp(reais, SCALE, rate);
    RoundingError(reais * SCALE, rate, m);
    WrapShrinks(m);
    if !Fits(reais, rate) {
      WrapsFar(m);
      FarOff(m, ToMicroUsdc(reais, rate), rate, reais * SCALE);
    }
  }

  /** A value that does not fit comes back at least 2^64 lower. */
  lemma WrapsFar(x: int)
    requires x > MAX
    ensures Wrap(x) <= x - TWO_TO_64
  {
    var k := (x - Wrap(x)) / TWO_TO_64;
    assert x == Wrap(x) + k * TWO_TO_64;
  }

  lemma FarOff(m: int, w: int, rate: int, x: int)
    requires rate > 0 && w <= m - TWO_TO_64 && 2 * (m * rate - x) <= rate
    ensures 2 * (w * rate - x) < -rate
  {
    assert w * rate <= (m - TWO_TO_64) * rate;
    assert (m - TWO_TO_64) * rate == m * rate - TWO_TO_64 * rate;
    assert TWO_TO_64 * rate >= 2 * rate;
  }

  /** A credit likewise: within half a real of exact if and only if it fits. */
  lemma CreditErrorIff(microUsdc: int64, rate: int64)
    requires microUsdc >= 0 && rate > 0
    ensures var error := 2 * (ToReais(microUsdc, rate) * 1_000_000_000_000 - microUsdc * rate);
      -1_000_000_000_000 <= error <= 1_000_000_000_000 <==> Rounded(microUsdc, rate, 1_000_000_000_000) <= MAX
    ensures Rounded(microUsdc, rate, 1_000_000_000_000) <= MAX ==> ToReais(microUsdc, rate) >= 0
  {
    var m := Rounded(microUsdc, rate, SCALE);
    RoundedNonNegative(microUsdc, rate, SCALE);
    RoundedIsHalfUp(microUsdc, rate, SCALE);
    RoundingError(microUsdc * rate, SCALE, m);
    WrapShrinks(m);
    if m > MAX {
      WrapsFar(m);
      FarOff(m, ToReais(microUsdc, rate), SCALE, microUsdc * rate);
    }
  }

  /** A credit that fits is the exact conversion rounded half up. */
  lemma CreditIsHalfUp(microUsdc: int64, rate: int64)
    requires microUsdc >= 0 && rate > 0 && Rounded(microUsdc, rate, 1_000_000_000_000) <= MAX
    ensures var r := ToReais(microUsdc, rate);
      (2 * r - 1) * 1_000_000_000_000 <= 2 * (microUsdc * rate) < (2 * r + 1) * 1_000_000_000_000
  {
    RoundedIsHalfUp(microUsdc, rate, SCALE);
    RoundedNonNegative(microUsdc, rate, SCALE);
    WrapShrinks(Rounded(microUsdc, rate, SCALE));
  }

  /** And so is a payout. */
  lemma PayoutIsHalfUp(reais: int64, rate: int64)
    requires rate > 0 && Fits(reais, rate)
    ensures var r := ToMicroUsdc(reais, rate);
      (2 * r - 1) * rate <= 2 * (reais * 1_000_000_000_000) < (2 * r + 1) * rate
  {
    RoundedIsHalfUp(reais, SCALE, rate);
    RoundedNonNegative(reais, SCALE, rate);
    WrapShrinks(Rounded(reais, SCALE, rate));
  }

  // ----------------------------------------------------------------------- units

  /** At r BRL per USD, n USDC are credited as n * r reais, as long as that fits. */
  lemma UnitLaw(n: nat, r: nat)
    requires r > 0 && n * 1_000_000 <= MAX && r * 1_000_000 <= MAX
    ensures ToReais(n * 1_000_000, r * 1_000_000) == n * r <==> n * r <= MAX
  {
    assert (n * 1_000_000) * (r * 1_000_000) == (n * r) * SCALE by {
      MillionTimes(n, r);
    }
    ExactQuotient(n * r, SCALE);
    assert n * r >= 0;
    WrapShrinks(n * r);
  }

  /** And n * r reais are paid out as n USDC. */
  lemma UnitLawBack(n: nat, r: nat)
    requires r > 0 && n * r <= MAX && r * 1_000_000 <= MAX
    ensures ToMicroUsdc(n * r, r * 1_000_000) == n * 1_000_000 <==> n * 1_000_000 <= MAX
  {
    assert (n * r) * SCALE == (n * 1_000_000) * (r * 1_000_000) by {
      MillionTimes(n, r);
    }
    ExactQuotient(n * 1_000_000, r * 1_000_000);
    WrapShrinks(n * 1_000_000);
  }

  lemma MillionTimes(n: nat, r: nat)
    ensures (n * 1_000_000) * (r * 1_000_000) == (n * r) * 1_000_000_000_000
  {
    calc {
      (n * 1_000_000) * (r * 1_000_000);
      n * (1_000_000 * (r * 1_000_000));
      n * (r * 1_000_000_000_000);
      (n * r) * 1_000_000_000_000;
    }
  }

  lemma ExactQuotient(q: int, d: int)
    requires d > 0
    ensures (q * d + d / 2) / d == q
  {
    assert HalfUp(q * d, d, q) by {
      assert (2 * q - 1) * d == 2 * (q * d) - d;
      assert (2 * q + 1) * d == 2 * (q * d) + d;
    }
    DivisionHalfUp(q * d, d, d / 2);
    HalfUpUnique(q * d, d, (q * d + d / 2) / d, q);
  }
}
