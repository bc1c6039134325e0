/**
 * The cubic ease-out curve of the wheel script: over a duration `d` it moves
 * from `b` to `b + c`, starting fast and arriving with zero velocity.
 */
module Easing {

  function Cube(x: real): real
  {
    x * x * x
  }

  /** easeOut(t, b, c, d) as the script writes it, with t normalised by d. */
  function EaseOut(t: real, b: real, c: real, d: real): real
    requires d != 0.0
  {
    var u := t / d;
    var ts := u * u;
    var tc := ts * u;
    b + c * (tc + -3.0 * ts + 3.0 * u)
  }

  /** The script's polynomial is the textbook ease-out b + c * (1 - (1 - t/d)^3). */
  lemma EaseOutClosedForm(t: real, b: real, c: real, d: real)
    requires d != 0.0
    ensures EaseOut(t, b, c, d) == b + c * (1.0 - Cube(1.0 - t / d))
  {
    var u := t / d;
    assert Cube(1.0 - u) == 1.0 - 3.0 * u + 3.0 * (u * u) - u * u * u;
  }

  /** The curve starts at `b` and ends at `b + c`. */
  lemma EaseOutEndpoints(b: real, c: real, d: real)
    requires d != 0.0
    ensures EaseOut(0.0, b, c, d) == b
    ensures EaseOut(d, b, c, d) == b + c
  {
    assert d / d == 1.0;
  }

  lemma CubeMonotone(x: real, y: real)
    requires 0.0 <= x <= y
    ensures Cube(x) <= Cube(y)
  {
    assert x * x <= y * y by {
      assert x * x <= x * y;
      assert x * y <= y * y;
    }
    assert x * x * x <= y * y * x;
    assert y * y * x <= y * y * y;
  }

  /** For a non-negative change the curve never goes back over the duration. */
  lemma EaseOutMonotone(t1: real, t2: real, b: real, c: real, d: real)
    requires d > 0.0 && c >= 0.0 && 0.0 <= t1 <= t2 <= d
    ensures EaseOut(t1, b, c, d) <= EaseOut(t2, b, c, d)
  {
    EaseOutClosedForm(t1, b, c, d);
    EaseOutClosedForm(t2, b, c, d);
    var u1, u2 := 1.0 - t1 / d, 1.0 - t2 / d;
    assert t1 / d <= t2 / d <= 1.0;
    CubeMonotone(u2, u1);
    assert c * Cube(u2) <= c * Cube(u1);
  }

  /** Within the duration the curve stays between its endpoints. */
  lemma EaseOutBounded(t: real, b: real, c: real, d: real)
    requires d > 0.0 && c >= 0.0 && 0.0 <= t <= d
    ensures b <= EaseOut(t, b, c, d) <= b + c
  {
    EaseOutEndpoints(b, c, d);
    EaseOutMonotone(0.0, t, b, c, d);
    EaseOutMonotone(t, d, b, c, d);
  }
}
