/**
  The output boundary of the pricing engine: every figure it returns is a
  decimal rendered with exactly 8 fractional digits, rounding half away from
  zero (decimal.js's default rounding mode ROUND_HALF_UP), and read back as a
  number. Values are modelled as exact reals; an "8-digit value" is a real
  with at most 8 fractional digits.
 */
module Decimal8 {

  /** Half a unit of the 8th fractional digit, the largest error of one rounding. */
  const HalfUlp: real := 0.000000005

  function Abs(x: real): real {
    if x < 0.0 then -x else x
  }

  /** A whole number (a quantity of units, say). */
  predicate IsWhole(q: real) {
    q.Floor as real == q
  }

  /** x has at most 8 fractional digits: x times 10^8 is whole. */
  predicate Fixed8(x: real) {
    IsWhole(x * 100000000.0)
  }

  /** Rounds a non-negative value to 8 digits, half up. */
  function RoundMagnitude(m: real): (r: real)
    requires m >= 0.0
    ensures Fixed8(r) && Fixed8(-r) && r >= 0.0
    ensures -HalfUlp < r - m <= HalfUlp
  {
    var k := (m * 100000000.0 + 0.5).Floor;
    assert (k as real / 100000000.0) * 100000000.0 == k as real;
    assert (-(k as real / 100000000.0)) * 100000000.0 == (-k) as real;
    k as real / 100000000.0
  }

  /**
    toNumber8: the value rendered with 8 fractional digits. The result is an
    8-digit value within half a unit of the 8th digit of x; an exact tie is
    broken away from zero; the sign of x is kept (zero may result).
   */
  function Round8(x: real): (r: real)
    ensures Fixed8(r)
    ensures -HalfUlp <= r - x <= HalfUlp
    ensures (r - x == HalfUlp || x - r == HalfUlp) ==> Abs(r) > Abs(x)
    ensures (x >= 0.0 ==> r >= 0.0) && (x <= 0.0 ==> r <= 0.0)
  {
    if x >= 0.0 then RoundMagnitude(x)
    else -RoundMagnitude(-x)
  }

  /** Two different 8-digit values are at least one unit of the 8th digit apart. */
  lemma Fixed8Gap(a: real, b: real)
    requires Fixed8(a) && Fixed8(b) && a != b
    ensures Abs(a - b) >= 0.00000001
  {
    var m, n := (a * 100000000.0).Floor, (b * 100000000.0).Floor;
    assert m != n;
    assert (a - b) * 100000000.0 == (m - n) as real;
  }

  /** Round8 picks a nearest 8-digit value: no 8-digit value is closer to x. */
  lemma Round8Nearest(x: real, y: real)
    requires Fixed8(y)
    ensures Abs(Round8(x) - x) <= Abs(y - x)
  {
    var r := Round8(x);
    if y != r {
      Fixed8Gap(y, r);
    }
  }

  /** Two 8-digit values within half a unit of the 8th digit of each other are equal. */
  lemma Fixed8Close(a: real, b: real)
    requires Fixed8(a) && Fixed8(b) && -HalfUlp <= a - b <= HalfUlp
    ensures a == b
  {
    if a != b {
      Fixed8Gap(a, b);
    }
  }

  /** Rounding leaves an 8-digit value unchanged. */
  lemma Round8OfFixed(x: real)
    requires Fixed8(x)
    ensures Round8(x) == x
  {
    Round8Nearest(x, x);
  }

  /** Rounding twice is rounding once. */
  lemma Round8Idempotent(x: real)
    ensures Round8(Round8(x)) == Round8(x)
  {
    Round8OfFixed(Round8(x));
  }

  /** Rounding never reverses the order of two values. */
  lemma Round8Monotone(x: real, y: real)
    requires x <= y
    ensures Round8(x) <= Round8(y)
  {
    var rx, ry := Round8(x), Round8(y);
    if rx > ry {
      // rx - ry is at least one unit of the 8th digit, yet both lie within HalfUlp of x <= y:
      // only an exact tie on each side could close the gap, and ties move away from zero.
      Fixed8Gap(rx, ry);
      assert false;
    }
  }

  /** Sums and differences of 8-digit values are 8-digit values. */
  lemma Fixed8AddSub(a: real, b: real)
    requires Fixed8(a) && Fixed8(b)
    ensures Fixed8(a + b) && Fixed8(a - b)
  {
    var m, n := (a * 100000000.0).Floor, (b * 100000000.0).Floor;
    assert a * 100000000.0 == m as real && b * 100000000.0 == n as real;
    assert (a + b) * 100000000.0 == (m + n) as real;
    assert ((m + n) as real).Floor == m + n;
    assert (a - b) * 100000000.0 == (m - n) as real;
    assert ((m - n) as real).Floor == m - n;
  }

  /** An 8-digit value times a whole number is an 8-digit value. */
  lemma Fixed8TimesWhole(a: real, q: real)
    requires Fixed8(a) && IsWhole(q)
    ensures Fixed8(a * q) && Fixed8(q * a)
  {
    var m, n := (a * 100000000.0).Floor, q.Floor;
    calc {
      (a * q) * 100000000.0;
      (a * 100000000.0) * q;
      (m as real) * (n as real);
      (m * n) as real;
    }
    assert ((m * n) as real).Floor == m * n;
    assert q * a == a * q;
  }
}
