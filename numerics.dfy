/** The numeric primitives the sampler uses from the C library and the
    renderer's constants, on unbounded reals. */
module Numerics {

  /** M_PI; INV_PI and INV_TWOPI are taken as its exact reciprocals. */
  const Pi: real := 3.14159265358979323846
  const InvPi: real := 1.0 / Pi
  const InvTwoPi: real := 1.0 / (2.0 * Pi)

  function Abs(x: real): real
  {
    if x < 0.0 then -x else x
  }

  /** Rounding toward zero, as a C cast from floating point to integer. */
  function Trunc(q: real): int
  {
    if q >= 0.0 then q.Floor else -((-q).Floor)
  }

  /** C `fmod`: the remainder of x / y whose quotient is truncated toward
      zero, so that the result has the sign of x. */
  function FMod(x: real, y: real): real
    requires y != 0.0
  {
    x - (Trunc(x / y) as real) * y
  }

  lemma ScaleLess(a: real, b: real, c: real)
    requires a <= b && c >= 0.0
    ensures a * c <= b * c
  {
  }

  lemma ScaleStrict(a: real, b: real, c: real)
    requires a < b && c > 0.0
    ensures a * c < b * c
  {
  }

  lemma QuotientAbove(x: real, y: real, k: real)
    requires y > 0.0 && k <= x / y
    ensures k * y <= x
  {
    ScaleLess(k, x / y, y);
  }

  lemma QuotientBelow(x: real, y: real, k: real)
    requires y > 0.0 && x / y < k + 1.0
    ensures x - k * y < y
  {
    ScaleStrict(x / y, k + 1.0, y);
    OneMore(x, y, k);
  }

  lemma OneMore(x: real, y: real, k: real)
    requires x < (k + 1.0) * y
    ensures x - k * y < y
  {
  }

  /** Once k brackets the quotient x / y, x - k y lies in [0, y). */
  lemma FloorRemainder(x: real, y: real, k: real)
    requires y > 0.0 && k <= x / y < k + 1.0
    ensures 0.0 <= x - k * y < y
  {
    QuotientAbove(x, y, k);
    QuotientBelow(x, y, k);
  }

  /** One more term of at most c in a sum bounded by (u - 1) c. */
  lemma SumStep(prev: real, pu: real, u: real, c: real, term: real)
    requires pu == u - 1.0 && prev <= pu * c && term <= c
    ensures prev + term <= u * c
  {
  }

  lemma ProductNonNegative(h: real, x: real)
    requires h >= 0.0 && x >= 0.0
    ensures h * x >= 0.0
  {
  }

  /** h x <= bound len, when x <= w bound and h w == len with h >= 0. */
  lemma BoundTimesStep(h: real, x: real, w: real, bound: real, len: real)
    requires h >= 0.0 && x <= w * bound && h * w == len
    ensures h * x <= bound * len
  {
    ScaleLess(x, w * bound, h);
    assert h * (w * bound) == bound * (h * w);
  }

  lemma DivideBack(a: real, y: real, b: real)
    requires y != 0.0 && b * y == a
    ensures a / y == b
  {
  }

  /** For a non-negative dividend and a positive divisor, `fmod` lands in
      [0, y). */
  lemma FModRange(x: real, y: real)
    requires x >= 0.0 && y > 0.0
    ensures 0.0 <= FMod(x, y) < y
  {
    var k := Trunc(x / y);
    assert k == (x / y).Floor;
    FloorRemainder(x, y, k as real);
    assert FMod(x, y) == x - (k as real) * y;
  }

  /** For a negative dividend the truncated remainder lies in (-y, 0]. */
  lemma FModNegative(x: real, y: real)
    requires x < 0.0 && y > 0.0
    ensures -y < FMod(x, y) <= 0.0
  {
    FModRange(-x, y);
    assert (-x) / y == -(x / y);
    assert Trunc(x / y) == -Trunc(-x / y);
    assert FMod(x, y) == -FMod(-x, y);
  }

  /** On a non-negative dividend, `fmod` has period y. */
  lemma FModPeriodic(x: real, y: real)
    requires x >= 0.0 && y > 0.0
    ensures FMod(x + y, y) == FMod(x, y)
  {
    DivideBack(x + y, y, x / y + 1.0);
    assert Trunc((x + y) / y) == Trunc(x / y) + 1;
  }

  /** `fmod` leaves a value in [0, y) unchanged. */
  lemma FModIdentity(x: real, y: real)
    requires 0.0 <= x < y
    ensures FMod(x, y) == x
  {
    assert 0.0 <= x / y < 1.0;
    assert Trunc(x / y) == 0;
  }
}
