/**
 * Currency conversions on decimals that keep 20 significant digits and round
 * half away from zero, the defaults of the decimal library.
 */
module PriceFeed {

  const DIGITS_SCALE := 10_000_000_000_000_000_000  // 10^19: the least 20-digit significand

  /** Half a unit in the twentieth digit, relative to the number: 5e-20. */
  const U: real := 0.00000000000000000005

  function Pow10(e: int): real
    decreases if e < 0 then -e else e
  {
    if e == 0 then 1.0
    else if e > 0 then 10.0 * Pow10(e - 1)
    else Pow10(e + 1) / 10.0
  }

  /** The power of ten at or below `x`. */
  function Exponent(x: real): (e: int)
    requires x > 0.0
    decreases if x >= 1.0 then x.Floor else (1.0 / x).Floor + 20
  {
    if x >= 10.0 then Exponent(x / 10.0) + 1
    else if x >= 1.0 then 0
    else
      assert 1.0 / (x * 10.0) == (1.0 / x) / 10.0;
      assert 1.0 / x > 1.0;
      Exponent(x * 10.0) - 1
  }

  /** The number of units nearest to `x`, halves upwards. */
  function Nearest(x: real, unit: real): int
    requires unit != 0.0
  {
    (x / unit + 0.5).Floor
  }

  /** A positive number to 20 significant digits. */
  function RoundPositive(x: real): real
    requires x > 0.0
  {
    Times(Nearest(x, UnitOf(x)) as real, UnitOf(x))
  }

  function Round(x: real): real
  {
    if x == 0.0 then 0.0 else if x > 0.0 then RoundPositive(x) else -RoundPositive(-x)
  }

  /** The decimal context: every product and quotient goes through its rounding. */
  type Rounding = real -> real

  /** The exact product, before rounding. */
  function Times(a: real, b: real): real { a * b }

  function Inverse(a: real): real
    requires a != 0.0
  {
    1.0 / a
  }

  function ConvertNgnToBooks(round: Rounding, amountNgn: real, rate: real): real
  {
    round(Times(amountNgn, rate))
  }

  function ConvertBooksToNgn(round: Rounding, amountBooks: real, rate: real): real
    requires rate != 0.0
  {
    round(Times(amountBooks, round(Inverse(rate))))
  }

  /** The rate is read from the cache twice, so the two reads may differ. */
  function ConvertMonToBooks(round: Rounding, monAmount: real, monUsdtPrice: real, usdNgnRate: real,
                             rateReadAgain: real): real
  {
    var monValueUsdt := round(Times(monAmount, monUsdtPrice));
    var ngnValue := round(Times(monValueUsdt, usdNgnRate));
    ConvertNgnToBooks(round, ngnValue, rateReadAgain)
  }

  /** The exact product the MON chain stands for. */
  function ExactMonToBooks(monAmount: real, monUsdtPrice: real, usdNgnRate: real, rateReadAgain: real): real
  {
    Times(Times(Times(monAmount, monUsdtPrice), usdNgnRate), rateReadAgain)
  }

  lemma {:induction false} ExactIsTheProduct(monAmount: real, monUsdtPrice: real, usdNgnRate: real, again: real)
    ensures ExactMonToBooks(monAmount, monUsdtPrice, usdNgnRate, again)
            == monAmount * monUsdtPrice * usdNgnRate * again
  {
  }

  function Abs(x: real): real { if x < 0.0 then -x else x }

  /** `m` bounds the magnitude of `b`. */
  ghost predicate Bounds(m: real, b: real) { -m <= b <= m }

  /**
   * `a` differs from `b` by at most the fraction `k` of `b`: whatever bounds `b`,
   * the fraction `k` of it bounds the difference. WithinMeans gives the usual form.
   */
  ghost predicate Within(a: real, b: real, k: real)
  {
    forall m {:trigger Bounds(m, b)} :: Bounds(m, b) ==> Bounds(Times(k, m), a - b)
  }

  lemma {:induction false} WithinMeans(a: real, b: real, k: real)
    ensures Within(a, b, k) ==> Abs(a - b) <= k * Abs(b)
    ensures k >= 0.0 && Abs(a - b) <= k * Abs(b) ==> Within(a, b, k)
  {
    assert Times(k, Abs(b)) == k * Abs(b);
    WithinTimes(a, b, k);
  }

  lemma {:induction false} WithinTimes(a: real, b: real, k: real)
    ensures Within(a, b, k) ==> Abs(a - b) <= Times(k, Abs(b))
    ensures k >= 0.0 && Abs(a - b) <= Times(k, Abs(b)) ==> Within(a, b, k)
  {
    assert Bounds(Abs(b), b);
    if k >= 0.0 && Abs(a - b) <= Times(k, Abs(b)) {
      forall m | Bounds(m, b) ensures Bounds(Times(k, m), a - b) {
        TimesGrows(k, Abs(b), m);
      }
    }
  }

  lemma {:induction false} TimesGrows(k: real, x: real, y: real)
    requires k >= 0.0 && x <= y
    ensures Times(k, x) <= Times(k, y)
  {
    assert k * (y - x) >= 0.0;
  }

  // ---- Powers of ten ----

  lemma {:induction false} Pow10Positive(e: int)
    ensures Pow10(e) > 0.0
    decreases if e < 0 then -e else e
  {
    if e > 0 {
      Pow10Positive(e - 1);
    } else if e < 0 {
      Pow10Positive(e + 1);
    }
  }

  lemma {:induction false} Pow10Step(e: int)
    ensures Pow10(e + 1) == 10.0 * Pow10(e)
  {
  }

  lemma {:induction false} Pow10Monotone(a: int, b: int)
    requires a <= b
    ensures Pow10(a) <= Pow10(b)
    decreases b - a
  {
    if a < b {
      Pow10Monotone(a, b - 1);
      Pow10Step(b - 1);
      Pow10Positive(b - 1);
    }
  }

  lemma {:induction false} Pow10Scale(e: int)
    ensures Pow10(e) == DIGITS_SCALE as real * Pow10(e - 19)
  {
    Pow10Step(e - 1); Pow10Step(e - 2); Pow10Step(e - 3); Pow10Step(e - 4); Pow10Step(e - 5);
    Pow10Step(e - 6); Pow10Step(e - 7); Pow10Step(e - 8); Pow10Step(e - 9); Pow10Step(e - 10);
    Pow10Step(e - 11); Pow10Step(e - 12); Pow10Step(e - 13); Pow10Step(e - 14); Pow10Step(e - 15);
    Pow10Step(e - 16); Pow10Step(e - 17); Pow10Step(e - 18); Pow10Step(e - 19);
  }

  /** `Exponent` finds the decade of its argument. */
  lemma {:induction false} ExponentBounds(x: real)
    requires x > 0.0
    ensures Pow10(Exponent(x)) <= x < Pow10(Exponent(x) + 1)
    decreases if x >= 1.0 then x.Floor else (1.0 / x).Floor + 20
  {
    if x >= 10.0 {
      ExponentBounds(x / 10.0);
      Pow10Step(Exponent(x / 10.0));
      Pow10Step(Exponent(x / 10.0) + 1);
    } else if x < 1.0 {
      assert 1.0 / (x * 10.0) == (1.0 / x) / 10.0;
      assert 1.0 / x > 1.0;
      ExponentBounds(x * 10.0);
      Pow10Step(Exponent(x * 10.0) - 1);
      Pow10Step(Exponent(x * 10.0));
    } else {
      assert Pow10(1) == 10.0;
    }
  }

  // ---- Rounding ----

  /** The unit of the twentieth digit. */
  function UnitOf(x: real): (unit: real)
    requires x > 0.0
    ensures unit > 0.0
  {
    Pow10Positive(Exponent(x) - 19);
    Pow10(Exponent(x) - 19)
  }

  /** Counted in that unit, a number has twenty digits. */
  lemma {:induction false} UnitFits(x: real)
    requires x > 0.0
    ensures DIGITS_SCALE as real * UnitOf(x) <= x < 10.0 * (DIGITS_SCALE as real * UnitOf(x))
  {
    ExponentBounds(x);
    Pow10Scale(Exponent(x));
    Pow10Step(Exponent(x));
  }

  /** A positive factor can be cancelled from both sides. */
  lemma {:induction false} CancelFactor(a: real, b: real, factor: real)
    requires factor > 0.0 && a * factor <= b * factor
    ensures a <= b
    ensures a * factor < b * factor ==> a < b
  {
    var inverse := 1.0 / factor;
    assert factor * inverse == 1.0;
    assert (b * factor - a * factor) * inverse >= 0.0;
    assert (b * factor - a * factor) * inverse == (b - a) * (factor * inverse);
  }

  lemma {:induction false} QuotientBounds(x: real, unit: real, scale: real)
    requires unit > 0.0 && scale * unit <= x < 10.0 * (scale * unit)
    ensures scale <= x / unit < 10.0 * scale
  {
    var y := x / unit;
    assert y * unit == x;
    CancelFactor(scale, y, unit);
    assert (10.0 * scale) * unit == 10.0 * (scale * unit);
    CancelFactor(y, 10.0 * scale, unit);
  }

  /** The significand of a rounded number has twenty digits, or is the next power of ten. */
  lemma {:induction false} NearestRange(x: real, unit: real)
    requires unit > 0.0 && DIGITS_SCALE as real * unit <= x < 10.0 * (DIGITS_SCALE as real * unit)
    ensures DIGITS_SCALE <= Nearest(x, unit) <= 10 * DIGITS_SCALE
  {
    QuotientBounds(x, unit, DIGITS_SCALE as real);
  }

  lemma {:induction false} NearestError(x: real, unit: real)
    requires unit > 0.0
    ensures Abs(Times(Nearest(x, unit) as real, unit) - x) <= unit / 2.0
  {
    var y, n := x / unit, Nearest(x, unit) as real;
    assert Times(y, unit) == x;
    HalfTimes(n, y, unit);
  }

  lemma {:induction false} HalfTimes(n: real, y: real, unit: real)
    requires unit > 0.0 && y - 0.5 <= n <= y + 0.5
    ensures Abs(Times(n, unit) - Times(y, unit)) <= unit / 2.0
  {
    TimesMonotone(y - 0.5, n, unit);
    TimesMonotone(n, y + 0.5, unit);
  }

  lemma {:induction false} NearestMonotone(x: real, y: real, unit: real)
    requires unit > 0.0 && x <= y
    ensures Nearest(x, unit) <= Nearest(y, unit)
  {
    assert (x / unit) * unit <= (y / unit) * unit;
    CancelFactor(x / unit, y / unit, unit);
    FloorMonotone(x / unit + 0.5, y / unit + 0.5);
  }

  /** Rounding moves a number by at most the fraction U of itself. */
  lemma {:induction false} RoundPositiveError(x: real)
    requires x > 0.0
    ensures Abs(RoundPositive(x) - x) <= U * x
    ensures RoundPositive(x) > 0.0
  {
    UnitFits(x);
    NearestError(x, UnitOf(x));
    HalfUnitBound(x, UnitOf(x));
  }

  lemma {:induction false} HalfUnitBound(m: real, unit: real)
    requires unit > 0.0 && DIGITS_SCALE as real * unit <= m
    ensures unit / 2.0 <= U * m < m
  {
  }

  lemma {:induction false} RoundWithin(x: real)
    ensures Within(Round(x), x, U)
  {
    if x != 0.0 {
      RoundPositiveError(Abs(x));
    }
    WithinMeans(Round(x), x, U);
  }

  lemma {:induction false} MonotoneInDecade(x: real, y: real)
    requires 0.0 < x <= y && Exponent(x) == Exponent(y)
    ensures RoundPositive(x) <= RoundPositive(y)
  {
    NearestMonotone(x, y, UnitOf(x));
    TimesMonotone(Nearest(x, UnitOf(x)) as real, Nearest(y, UnitOf(x)) as real, UnitOf(x));
  }

  /** Across decades, the smaller rounds to at most the next power of ten and the larger to at least its own. */
  lemma {:induction false} AcrossDecades(nx: real, ex: int, ny: real, ey: int)
    requires ex < ey
    requires nx <= 10.0 * DIGITS_SCALE as real && DIGITS_SCALE as real <= ny
    ensures Times(nx, Pow10(ex - 19)) <= Times(ny, Pow10(ey - 19))
  {
    var bottom, top := DIGITS_SCALE as real, 10.0 * DIGITS_SCALE as real;
    Pow10Positive(ex - 19);
    Pow10Positive(ey - 19);
    TimesMonotone(nx, top, Pow10(ex - 19));
    TimesMonotone(bottom, ny, Pow10(ey - 19));
    DecadeTop(ex);
    Pow10Scale(ey);
    Pow10Monotone(ex + 1, ey);
  }

  lemma {:induction false} DecadeTop(e: int)
    ensures Times(10.0 * DIGITS_SCALE as real, Pow10(e - 19)) == Pow10(e + 1)
  {
    Pow10Scale(e);
    Pow10Step(e);
  }

  lemma {:induction false} MonotoneAcrossDecades(x: real, y: real)
    requires 0.0 < x && 0.0 < y && Exponent(x) < Exponent(y)
    ensures RoundPositive(x) <= RoundPositive(y)
  {
    var nx, ny := Nearest(x, UnitOf(x)), Nearest(y, UnitOf(y));
    assert nx <= 10 * DIGITS_SCALE && DIGITS_SCALE <= ny by {
      UnitFits(x);
      UnitFits(y);
      NearestRange(x, UnitOf(x));
      NearestRange(y, UnitOf(y));
    }
    AcrossDecades(nx as real, Exponent(x), ny as real, Exponent(y));
  }

  lemma {:induction false} ExponentMonotone(x: real, y: real)
    requires 0.0 < x <= y
    ensures Exponent(x) <= Exponent(y)
  {
    ExponentBounds(x);
    ExponentBounds(y);
    if Exponent(y) < Exponent(x) {
      Pow10Monotone(Exponent(y) + 1, Exponent(x));
    }
  }

  lemma {:induction false} RoundPositiveMonotone(x: real, y: real)
    requires 0.0 < x <= y
    ensures RoundPositive(x) <= RoundPositive(y)
  {
    ExponentMonotone(x, y);
    if Exponent(x) == Exponent(y) {
      MonotoneInDecade(x, y);
    } else {
      MonotoneAcrossDecades(x, y);
    }
  }

  lemma {:induction false} FloorMonotone(a: real, b: real)
    requires a <= b
    ensures a.Floor <= b.Floor
  {
  }

  /** Rounding never swaps two numbers, within a decade or across powers of ten, on either side of zero. */
  lemma {:induction false} RoundMonotone(x: real, y: real)
    requires x <= y
    ensures Round(x) <= Round(y)
  {
    if x > 0.0 {
      RoundPositiveMonotone(x, y);
    } else if y < 0.0 {
      RoundPositiveMonotone(-y, -x);
    } else {
      if x < 0.0 {
        RoundPositiveError(-x);
      }
      if y > 0.0 {
        RoundPositiveError(y);
      }
    }
  }

  // ---- Conversions ----

  /** Two relative distances, one after the other. */
  function Compound(j: real, k: real): real { j + k + j * k }

  /** What two and three roundings can do to a number, as a fraction of it. */
  const U2: real := Compound(U, U)
  const U3: real := Compound(U, U2)

  lemma {:induction false} BoundsArePowers()
    ensures U2 == (1.0 + U) * (1.0 + U) - 1.0
    ensures U3 == (1.0 + U) * (1.0 + U) * (1.0 + U) - 1.0
  {
  }

  lemma {:induction false} TimesDistributes(a: real, b: real, factor: real)
    ensures Times(a, factor) - Times(b, factor) == Times(a - b, factor)
  {
  }

  lemma {:induction false} AbsOfTimes(x: real, y: real)
    ensures Abs(Times(x, y)) == Times(Abs(x), Abs(y))
  {
    if x < 0.0 {
      assert Times(x, y) == -Times(-x, y);
      AbsOfScaled(-x, y);
    } else {
      AbsOfScaled(x, y);
    }
  }

  lemma {:induction false} AbsOfScaled(x: real, y: real)
    requires x >= 0.0
    ensures Abs(Times(x, y)) == Times(x, Abs(y))
  {
    if y < 0.0 {
      assert Times(x, y) == -Times(x, -y);
      TimesNonNegative(x, -y);
    } else {
      TimesNonNegative(x, y);
    }
  }

  lemma {:induction false} TimesNonNegative(x: real, y: real)
    requires x >= 0.0 && y >= 0.0
    ensures Times(x, y) >= 0.0
  {
  }

  lemma {:induction false} TimesKeepsOrder(x: real, y: real, factor: real)
    requires x <= y && factor >= 0.0
    ensures Times(x, factor) <= Times(y, factor)
  {
    TimesDistributes(y, x, factor);
    TimesNonNegative(y - x, factor);
  }

  lemma {:induction false} TimesRegroups(x: real, y: real, z: real)
    ensures Times(Times(x, y), z) == Times(x, Times(y, z))
  {
  }

  lemma {:induction false} ScaledDistance(a: real, b: real, k: real, factor: real)
    requires Abs(a - b) <= Times(k, Abs(b))
    ensures Abs(Times(a, factor) - Times(b, factor)) <= Times(k, Abs(Times(b, factor)))
  {
    var d, m, s := Abs(a - b), Abs(b), Abs(factor);
    TimesDistributes(a, b, factor);
    AbsOfTimes(a - b, factor);
    AbsOfTimes(b, factor);
    TimesKeepsOrder(d, Times(k, m), s);
    TimesRegroups(k, m, s);
  }

  lemma {:induction false} WithinScaled(a: real, b: real, k: real, factor: real)
    requires k >= 0.0 && Within(a, b, k)
    ensures Within(Times(a, factor), Times(b, factor), k)
  {
    WithinTimes(a, b, k);
    ScaledDistance(a, b, k, factor);
    WithinTimes(Times(a, factor), Times(b, factor), k);
  }

  /** Relative distances compound. */
  lemma {:induction false} WithinChain(r: real, a: real, b: real, j: real, k: real)
    requires Within(r, a, j) && Within(a, b, k)
    ensures Within(r, b, Compound(j, k))
  {
    forall m | Bounds(m, b) ensures Bounds(Times(Compound(j, k), m), r - b) {
      var wider := m + Times(k, m);
      assert Bounds(wider, a);
      CompoundTimes(j, k, m);
    }
  }

  lemma {:induction false} CompoundTimes(j: real, k: real, m: real)
    ensures Times(Compound(j, k), m) == Times(j, m + Times(k, m)) + Times(k, m)
  {
  }

  lemma {:induction false} WithinScaledLeft(a: real, b: real, k: real, factor: real)
    requires k >= 0.0 && Within(a, b, k)
    ensures Within(Times(factor, a), Times(factor, b), k)
  {
    WithinScaled(a, b, k, factor);
    TimesCommutes(a, factor);
    TimesCommutes(b, factor);
  }

  lemma {:induction false} WithinProduct(a: real, b: real, c: real, d: real)
    requires Within(a, c, U) && Within(b, d, U)
    ensures Within(Times(a, b), Times(c, d), U2)
  {
    WithinScaled(a, c, U, b);
    WithinScaledLeft(b, d, U, c);
    WithinChain(Times(a, b), Times(c, b), Times(c, d), U, U);
  }

  lemma {:induction false} TimesCommutes(a: real, b: real)
    ensures Times(a, b) == Times(b, a)
  {
  }

  lemma {:induction false} TimesInverse(x: real, rate: real)
    requires rate > 0.0
    ensures Times(Times(x, rate), Inverse(rate)) == x
  {
    var inverse := Inverse(rate);
    assert rate * inverse == 1.0;
    assert (x * rate) * inverse == x * (rate * inverse);
  }

  /** A rounding that moves every number by at most the fraction U of itself. */
  ghost predicate Faithful(round: Rounding)
  {
    forall z :: Within(round(z), z, U)
  }

  lemma {:induction false} RoundIsFaithful()
    ensures Faithful(Round)
  {
    forall z ensures Within(Round(z), z, U) {
      RoundWithin(z);
    }
  }

  /** One more faithful rounding takes U to U2 and U2 to U3. */
  lemma {:induction false} RoundNext(round: Rounding, a: real, b: real)
    requires Faithful(round)
    ensures Within(a, b, U) ==> Within(round(a), b, U2)
    ensures Within(a, b, U2) ==> Within(round(a), b, U3)
  {
    if Within(a, b, U) {
      WithinChain(round(a), a, b, U, U);
    }
    if Within(a, b, U2) {
      WithinChain(round(a), a, b, U, U2);
    }
  }

  /** NGN to BOOKS and back loses at most the fraction (1 + U)^3 - 1 of the amount, at every positive rate. */
  lemma {:induction false} RoundTripError(round: Rounding, x: real, rate: real)
    requires Faithful(round) && rate > 0.0
    ensures Within(ConvertBooksToNgn(round, ConvertNgnToBooks(round, x, rate), rate), x, U3)
  {
    var exactBooks, inverse := Times(x, rate), Inverse(rate);
    WithinProduct(round(exactBooks), round(inverse), exactBooks, inverse);
    TimesInverse(x, rate);
    RoundNext(round, Times(round(exactBooks), round(inverse)), x);
  }

  /** The MON chain is within the same relative bound of the exact product. */
  lemma {:induction false} MonChainError(round: Rounding, mon: real, price: real, rate: real, again: real)
    requires Faithful(round)
    ensures Within(ConvertMonToBooks(round, mon, price, rate, again), ExactMonToBooks(mon, price, rate, again), U3)
  {
    var exactUsdt := Times(mon, price);
    var exactNgn := Times(exactUsdt, rate);
    var usdt := round(exactUsdt);
    WithinScaled(usdt, exactUsdt, U, rate);
    RoundNext(round, Times(usdt, rate), exactNgn);
    var ngn := round(Times(usdt, rate));
    WithinScaled(ngn, exactNgn, U2, again);
    RoundNext(round, Times(ngn, again), Times(exactNgn, again));
  }

  ghost predicate Monotone(round: Rounding)
  {
    forall x, y :: x <= y ==> round(x) <= round(y)
  }

  lemma {:induction false} RoundIsMonotone()
    ensures Monotone(Round)
  {
    forall x, y | x <= y ensures Round(x) <= Round(y) {
      RoundMonotone(x, y);
    }
  }

  /** More MON never converts to fewer BOOKS. */
  lemma {:induction false} MonChainMonotone(round: Rounding, x: real, y: real, price: real, rate: real, again: real)
    requires Monotone(round)
    requires x <= y
    requires price >= 0.0 && rate >= 0.0 && again >= 0.0
    ensures ConvertMonToBooks(round, x, price, rate, again) <= ConvertMonToBooks(round, y, price, rate, again)
  {
    TimesMonotone(x, y, price);
    var usdtX, usdtY := round(Times(x, price)), round(Times(y, price));
    TimesMonotone(usdtX, usdtY, rate);
    TimesMonotone(round(Times(usdtX, rate)), round(Times(usdtY, rate)), again);
  }

  lemma {:induction false} TimesMonotone(a: real, b: real, factor: real)
    requires a <= b && factor >= 0.0
    ensures Times(a, factor) <= Times(b, factor)
  {
    assert (b - a) * factor >= 0.0;
  }

  // ---- The decimal library's own rounding ----

  /**
   * A positive number is rounded to `n` units of 10 to the power `e`, twenty digits or the next power of ten, and `n`
   * is the nearest such number; a tie goes up. A negative number is rounded like its opposite.
   */
  lemma {:induction false} RoundsHalfUp(x: real) returns (n: int, e: int)
    requires x > 0.0
    ensures Round(x) == Times(n as real, Pow10(e)) && Round(-x) == -Round(x)
    ensures 10_000_000_000_000_000_000 <= n <= 100_000_000_000_000_000_000
    ensures Times(10_000_000_000_000_000_000.0, Pow10(e)) <= x < Times(100_000_000_000_000_000_000.0, Pow10(e))
    ensures Times(n as real - 0.5, Pow10(e)) <= x < Times(n as real + 0.5, Pow10(e))
  {
    e := Exponent(x) - 19;
    n := Nearest(x, UnitOf(x));
    TwentyDigits(x);
    UnitFits(x);
    NearestRange(x, UnitOf(x));
    NearestBounds(x, UnitOf(x));
  }

  lemma {:induction false} TwentyDigits(x: real)
    requires x > 0.0
    ensures Times(10_000_000_000_000_000_000.0, UnitOf(x)) <= x < Times(100_000_000_000_000_000_000.0, UnitOf(x))
  {
    UnitFits(x);
  }

  lemma {:induction false} NearestBounds(x: real, unit: real)
    requires unit > 0.0
    ensures var n := Nearest(x, unit) as real; Times(n - 0.5, unit) <= x < Times(n + 0.5, unit)
  {
    var y, n := x / unit, Nearest(x, unit) as real;
    assert Times(y, unit) == x;
    ScaleOrder(n - 0.5, y, unit);
    ScaleOrder(y, n + 0.5, unit);
  }

  lemma {:induction false} ScaleOrder(a: real, b: real, unit: real)
    requires unit > 0.0
    ensures a <= b ==> Times(a, unit) <= Times(b, unit)
    ensures a < b ==> Times(a, unit) < Times(b, unit)
  {
    if a <= b {
      TimesMonotone(a, b, unit);
    }
    if a < b {
      TimesPositive(b - a, unit);
    }
  }

  lemma {:induction false} TimesPositive(a: real, b: real)
    requires a > 0.0 && b > 0.0
    ensures Times(a, b) > 0.0
  {
  }

  /** The round trip at 20 digits, half up, in the usual form. */
  lemma {:induction false} RoundTripBound(x: real, rate: real)
    requires rate > 0.0
    ensures var u := 0.000_000_000_000_000_000_05;
      Abs(ConvertBooksToNgn(Round, ConvertNgnToBooks(Round, x, rate), rate) - x)
      <= ((1.0 + u) * (1.0 + u) * (1.0 + u) - 1.0) * Abs(x)
  {
    RoundIsFaithful();
    RoundTripError(Round, x, rate);
    WithinCubed(ConvertBooksToNgn(Round, ConvertNgnToBooks(Round, x, rate), rate), x);
  }

  /** The MON chain at 20 digits, half up, against the exact product. */
  lemma {:induction false} MonChainBound(mon: real, price: real, rate: real, again: real)
    ensures var u, exact := 0.000_000_000_000_000_000_05, ExactMonToBooks(mon, price, rate, again);
      Abs(ConvertMonToBooks(Round, mon, price, rate, again) - exact)
      <= ((1.0 + u) * (1.0 + u) * (1.0 + u) - 1.0) * Abs(exact)
  {
    var books, exact := ConvertMonToBooks(Round, mon, price, rate, again), ExactMonToBooks(mon, price, rate, again);
    assert Within(books, exact, U3) by {
      RoundIsFaithful();
      MonChainError(Round, mon, price, rate, again);
    }
    WithinCubed(books, exact);
  }

  lemma {:induction false} WithinCubed(a: real, b: real)
    requires Within(a, b, U3)
    ensures Abs(a - b) <= ((1.0 + U) * (1.0 + U) * (1.0 + U) - 1.0) * Abs(b)
  {
    WithinMeans(a, b, U3);
    BoundsArePowers();
  }

  /** More MON never converts to fewer BOOKS at 20 digits, half up. */
  lemma {:induction false} MonChainKeepsOrder(x: real, y: real, price: real, rate: real, again: real)
    requires x <= y && price >= 0.0 && rate >= 0.0 && again >= 0.0
    ensures ConvertMonToBooks(Round, x, price, rate, again) <= ConvertMonToBooks(Round, y, price, rate, again)
  {
    RoundIsMonotone();
    MonChainMonotone(Round, x, y, price, rate, again);
  }
}
