/** Decimal rounding: `money` and `q2` (apps/fees/services.py:36-37, apps/exam/services.py:29-30). */
module Rounding {
  /*
   Amounts are whole numbers of hundredths (paise, or hundredths of a mark); a value before rounding is
   an exact real number.
   */
  /** The nearest whole number; a tie goes away from zero (Decimal's ROUND_HALF_UP). */
  function RoundHalfUp(v: real): int {
    if v >= 0.0 then (v + 0.5).Floor else -((-v + 0.5).Floor)
  }

  /** `quantize(CENT)`: a value in whole units, rounded to hundredths. */
  function Hundredths(v: real): int {
    RoundHalfUp(v * 100.0)
  }

  /** RoundHalfUp is the only nearest whole number that sends ties away from zero. */
  lemma NearestTiesAway(v: real, n: int)
    ensures n == RoundHalfUp(v) <==>
            -0.5 <= n as real - v <= 0.5
            && (n as real - v == 0.5 ==> v >= 0.0)
            && (n as real - v == -0.5 ==> v < 0.0)
  {
  }

  /** n is the whole number nearest to num / den, in whole numbers; a tie goes away from zero. */
  predicate IsNearest(num: int, den: int, n: int) {
    var twice := 2 * (n * den - num);
    -den <= twice <= den && (twice == den ==> num >= 0) && (twice == -den ==> num < 0)
  }

  lemma Quotient(num: int, den: int, n: int)
    requires den > 0
    ensures (n as real - num as real / den as real) * den as real == (n * den - num) as real
  {
    var q := num as real / den as real;
    assert q * den as real == num as real;
    assert (n as real - q) * den as real == n as real * den as real - q * den as real;
    assert n as real * den as real == (n * den) as real;
  }

  lemma HalfScaled(x: real, w: real, y: real)
    requires w > 0.0 && y == x * w
    ensures (x <= 0.5 <==> y <= 0.5 * w) && (x == 0.5 <==> y == 0.5 * w)
    ensures (-0.5 <= x <==> -0.5 * w <= y) && (x == -0.5 <==> y == -0.5 * w)
  {
    assert (x - 0.5) * w == y - 0.5 * w && (x + 0.5) * w == y + 0.5 * w;
  }

  lemma Twice(y: real, e: int, w: real, den: int)
    requires y == e as real && w == den as real
    ensures (y <= 0.5 * w <==> 2 * e <= den) && (y == 0.5 * w <==> 2 * e == den)
    ensures (-0.5 * w <= y <==> -den <= 2 * e) && (y == -0.5 * w <==> 2 * e == -den)
  {
  }

  lemma SignOfQuotient(num: int, den: int)
    requires den > 0
    ensures num >= 0 <==> num as real / den as real >= 0.0
  {
    var q := num as real / den as real;
    assert q * den as real == num as real;
  }

  lemma NearestQuotient(num: int, den: int, n: int)
    requires den > 0
    ensures n == RoundHalfUp(num as real / den as real) <==> IsNearest(num, den, n)
  {
    var q, w, e := num as real / den as real, den as real, n * den - num;
    NearestTiesAway(q, n);
    SignOfQuotient(num, den);
    Quotient(num, den, n);
    HalfScaled(n as real - q, w, e as real);
    Twice(e as real, e, w, den);
    hide RoundHalfUp;
  }

  /** An amount in rupees and the paise it is rounded to. */
  predicate IsPaise(v: real, n: int) {
    var off := n as real - v * 100.0;
    -0.5 <= off <= 0.5 && (off == 0.5 ==> v >= 0.0) && (off == -0.5 ==> v < 0.0)
  }

  lemma NearestPaise(v: real, n: int)
    ensures n == Hundredths(v) <==> IsPaise(v, n)
  {
    NearestTiesAway(v * 100.0, n);
    hide RoundHalfUp;
  }

  lemma WholePaise(n: int)
    ensures Hundredths(n as real / 100.0) == n
  {
    Whole(n);
    assert n as real / 100.0 * 100.0 == n as real;
    hide RoundHalfUp;
  }

  lemma Monotone(a: real, b: real)
    requires a <= b
    ensures RoundHalfUp(a) <= RoundHalfUp(b)
  {
    if b < 0.0 {
      assert (-b + 0.5).Floor <= (-a + 0.5).Floor;
    }
  }

  lemma Whole(n: int)
    ensures RoundHalfUp(n as real) == n
  {
    NearestTiesAway(n as real, n);
  }

  /** Rounding never leaves an interval with whole end points. */
  lemma Between(lo: int, v: real, hi: int)
    requires lo as real <= v <= hi as real
    ensures lo <= RoundHalfUp(v) <= hi
  {
    Monotone(lo as real, v);
    Monotone(v, hi as real);
    Whole(lo);
    Whole(hi);
  }
}
