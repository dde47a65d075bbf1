/** `parseFloat(x.toFixed(d))`, the presentation rounding every handler applies
    to the numbers it reports.

    Number.prototype.toFixed picks the integer n that makes n / 10^d closest to
    the exact value of x, taking the larger n on a tie, and writes a leading
    minus sign for negative x: over the reals this is rounding to d decimals
    with ties away from zero. `parseFloat` then reads the digits back, which
    over the reals is the identity. */
module Rounding {

  /** Round to the nearest integer, ties away from zero. */
  function RoundHalfAway(y: real): (n: int)
    ensures (n as real) - y <= 0.5 && y - (n as real) <= 0.5
    ensures y >= 0.0 ==> n >= 0
    ensures y <= 0.0 ==> n <= 0
  {
    if y >= 0.0 then (y + 0.5).Floor else -((-y + 0.5).Floor)
  }

  /** `parseFloat(x.toFixed(2))`. */
  function Round2(x: real): (r: real)
    ensures r - x <= 0.005 && x - r <= 0.005
  {
    RoundHalfAway(x * 100.0) as real / 100.0
  }

  /** `parseFloat(x.toFixed(1))`. */
  function Round1(x: real): (r: real)
    ensures r - x <= 0.05 && x - r <= 0.05
  {
    RoundHalfAway(x * 10.0) as real / 10.0
  }

  /** Rounding never reverses the order of two values. */
  lemma RoundHalfAwayMonotone(x: real, y: real)
    requires x <= y
    ensures RoundHalfAway(x) <= RoundHalfAway(y)
  {
    if x >= 0.0 {
      assert (x + 0.5).Floor <= (y + 0.5).Floor;
    } else if y < 0.0 {
      assert (-y + 0.5).Floor <= (-x + 0.5).Floor;
    }
  }

  /** Whole numbers are left as they are. */
  lemma RoundHalfAwayWhole(k: int)
    ensures RoundHalfAway(k as real) == k
  {
    if k >= 0 {
      assert (k as real + 0.5).Floor == k;
    } else {
      assert (-(k as real) + 0.5).Floor == -k;
    }
  }

  /** Two-decimal rounding is monotone. */
  lemma Round2Monotone(x: real, y: real)
    requires x <= y
    ensures Round2(x) <= Round2(y)
  {
    RoundHalfAwayMonotone(x * 100.0, y * 100.0);
  }

  /** A value that already has two decimals comes back unchanged, so rounding
      twice is the same as rounding once. */
  lemma Round2Idempotent(x: real)
    ensures Round2(Round2(x)) == Round2(x)
  {
    var k := RoundHalfAway(x * 100.0);
    assert Round2(x) * 100.0 == k as real;
    RoundHalfAwayWhole(k);
  }

  /** A rounded amount is positive exactly when the exact amount is at least
      half a cent. */
  lemma Round2PositiveIff(x: real)
    ensures Round2(x) > 0.0 <==> x >= 0.005
  {
    var k := RoundHalfAway(x * 100.0);
    if x >= 0.005 {
      assert x * 100.0 + 0.5 >= 1.0;
      assert k >= 1;
    }
    if x < 0.0 {
      assert k <= 0;
    } else if x < 0.005 {
      assert x * 100.0 + 0.5 < 1.0;
      assert k == 0;
    }
  }
}
