/**
 * Python's `round(x, 2)` on exact reals: the nearest multiple of 0.01,
 * ties to the even neighbour. Binary floating point is not modelled.
 */
module Decimal {

  /** The integer nearest to y, ties to the even one. */
  function RoundHalfEven(y: real): (n: int)
    ensures -0.5 <= n as real - y <= 0.5
  {
    var f := y.Floor;
    var frac := y - f as real;
    if frac < 0.5 then f
    else if frac > 0.5 then f + 1
    else if f % 2 == 0 then f
    else f + 1
  }

  /** x is a whole number of cents. */
  predicate IsCents(x: real) {
    (x * 100.0).Floor as real == x * 100.0
  }

  function Round2(x: real): (r: real)
    ensures IsCents(r)
    ensures -0.005 <= r - x <= 0.005
  {
    var n := RoundHalfEven(x * 100.0);
    var r := n as real / 100.0;
    assert r * 100.0 == n as real;
    assert (r * 100.0).Floor == n;
    assert -0.5 <= r * 100.0 - x * 100.0 <= 0.5;
    r
  }

  lemma RoundHalfEvenOfInt(n: int)
    ensures RoundHalfEven(n as real) == n
  {
  }

  /** Rounding leaves a whole number of cents alone. */
  lemma Round2OfCents(x: real)
    requires IsCents(x)
    ensures Round2(x) == x
  {
    var n := (x * 100.0).Floor;
    RoundHalfEvenOfInt(n);
  }

  /** Rounding twice is rounding once. */
  lemma Round2Idempotent(x: real)
    ensures Round2(Round2(x)) == Round2(x)
  {
    Round2OfCents(Round2(x));
  }

  lemma CentsAdd(a: real, b: real)
    requires IsCents(a) && IsCents(b)
    ensures IsCents(a + b)
  {
    var m, n := (a * 100.0).Floor, (b * 100.0).Floor;
    assert (a + b) * 100.0 == a * 100.0 + b * 100.0;
    assert (a + b) * 100.0 == (m + n) as real;
    assert ((a + b) * 100.0).Floor == m + n;
  }

  lemma CentsNeg(a: real)
    requires IsCents(a)
    ensures IsCents(-a)
  {
    var m := (a * 100.0).Floor;
    assert -a * 100.0 == -(a * 100.0);
    assert -a * 100.0 == (-m) as real;
    assert (-a * 100.0).Floor == -m;
  }

  lemma CentsSub(a: real, b: real)
    requires IsCents(a) && IsCents(b)
    ensures IsCents(a - b)
  {
    CentsNeg(b);
    CentsAdd(a, -b);
  }

  lemma RoundHalfEvenNeg(y: real)
    ensures RoundHalfEven(-y) == -RoundHalfEven(y)
  {
    var f := y.Floor;
    if f as real == y {
      assert (-y).Floor == -f;
    } else {
      assert (-y).Floor == -f - 1;
      var frac := y - f as real;
      assert -y - (-f - 1) as real == 1.0 - frac;
      if frac == 0.5 {
        assert (-f - 1) % 2 == 0 <==> f % 2 != 0;
      }
    }
  }

  /** Ties to even make rounding symmetric around zero. */
  lemma Round2Neg(x: real)
    ensures Round2(-x) == -Round2(x)
  {
    assert -x * 100.0 == -(x * 100.0);
    RoundHalfEvenNeg(x * 100.0);
  }

  lemma RoundHalfEvenMonotone(y: real, z: real)
    requires y <= z
    ensures RoundHalfEven(y) <= RoundHalfEven(z)
  {
  }

  /** Rounding preserves order (not strictness). */
  lemma Round2Monotone(x: real, y: real)
    requires x <= y
    ensures Round2(x) <= Round2(y)
  {
    RoundHalfEvenMonotone(x * 100.0, y * 100.0);
  }

  /** A value less than half a cent from a whole number of cents rounds to it. */
  lemma Round2Nearest(x: real, cents: int)
    requires cents as real - 0.5 < x * 100.0 < cents as real + 0.5
    ensures Round2(x) == cents as real / 100.0
  {
    var y := x * 100.0;
    assert y.Floor == cents || y.Floor == cents - 1;
  }

  /**
   * A whole number of cents lies within five cents of zero exactly when it
   * lies within four: the step the 0.05 margins of the exchange tracers take.
   */
  lemma CentsMargin(c: real)
    requires IsCents(c)
    ensures c < 0.05 <==> c <= 0.04
    ensures c > -0.05 <==> c >= -0.04
  {
    var k := (c * 100.0).Floor;
    assert k as real == c * 100.0;
    if c < 0.05 {
      assert k < 5;
    }
    if c > -0.05 {
      assert k > -5;
    }
  }
}
