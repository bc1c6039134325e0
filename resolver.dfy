/**
 * The winner resolver of stopRotateWheel: turns the wheel's final rotation
 * into a segment index. Angles are in degrees, measured clockwise on the
 * canvas from its positive x axis, which is how both the segment arcs and the
 * rotation run. Turned by `rotation`, wheel angle a shows at screen angle
 * a + rotation. The pointer is drawn, unrotated, at screen angle 0; the
 * formula adds a quarter turn to the rotation and so names the segment at
 * screen angle 270, the top of the canvas (see ResolvedSegmentIsAtTop).
 */
module Resolver {
  import opened Wrappers
  import opened Segments

  /** The quarter turn stopRotateWheel adds to the rotation before reducing it. */
  const QuarterTurn: real := 90.0

  /** The screen angle at which the pointer is drawn: the right-hand side of the canvas. */
  const PointerScreenAngle: real := 0.0

  /** The screen angle of the top of the canvas. */
  const TopScreenAngle: real := 270.0

  /** Rounding toward zero, as JavaScript's `%` uses. */
  function Trunc(x: real): int
  {
    if x >= 0.0 then x.Floor else -((-x).Floor)
  }

  /** `d` is a whole number of turns. */
  predicate WholeTurns(d: real)
  {
    (d / 360.0).Floor as real == d / 360.0
  }

  /** JavaScript's `x % 360`: the remainder takes the sign of the dividend. */
  function Rem360(x: real): (r: real)
    ensures x >= 0.0 ==> 0.0 <= r < 360.0
    ensures x < 0.0 ==> -360.0 < r <= 0.0
    ensures WholeTurns(x - r)
  {
    x - 360.0 * (Trunc(x / 360.0) as real)
  }

  /** The mathematical modulus by a full turn, always in [0, 360). */
  function FloorMod360(x: real): real
  {
    x - 360.0 * ((x / 360.0).Floor as real)
  }

  /** Removing whole turns does not change the modulus. */
  lemma FloorMod360Turns(x: real, k: int)
    ensures FloorMod360(x + 360.0 * k as real) == FloorMod360(x)
  {
    var f := (x / 360.0).Floor;
    assert (x + 360.0 * k as real) / 360.0 == x / 360.0 + k as real;
    assert ((x + 360.0 * k as real) / 360.0).Floor == f + k;
  }

  /** Two angles with the same modulus differ by whole turns. */
  lemma SameModulusWholeTurns(x: real, y: real) returns (k: int)
    requires FloorMod360(x) == FloorMod360(y)
    ensures x == y + 360.0 * k as real
  {
    k := (x / 360.0).Floor - (y / 360.0).Floor;
  }

  /** The wheel angle, in [0, 360), from which stopRotateWheel reads off the segment. */
  function EffectiveDegrees(rotation: real): (e: real)
    ensures 0.0 <= e < 360.0
  {
    var degrees := rotation + QuarterTurn;
    Rem360(360.0 - Rem360(degrees))
  }

  /**
   * The two truncated remainders of stopRotateWheel amount to the modulus of
   * minus (rotation + 90), for every rotation, negative ones included.
   */
  lemma EffectiveIsModulus(rotation: real)
    ensures EffectiveDegrees(rotation) == FloorMod360(-(rotation + QuarterTurn))
  {
    var degrees := rotation + QuarterTurn;
    var r := Rem360(degrees);
    var e := Rem360(360.0 - r);
    var k1 := ((degrees - r) / 360.0).Floor;
    var k2 := ((360.0 - r - e) / 360.0).Floor;
    assert degrees == 360.0 * k1 as real + r;
    assert 360.0 - r == 360.0 * k2 as real + e;
    // -degrees == 360 * (k2 - k1 - 1) + e, with e in [0, 360)
    assert -degrees == 360.0 * (k2 - k1 - 1) as real + e;
    FloorMod360Turns(e, k2 - k1 - 1);
    assert FloorMod360(e) == e;
  }

  /** The index of the winning segment, as stopRotateWheel computes it. */
  function ResolveIndex(rotation: real, n: nat): (index: int)
    requires n >= 1
    ensures 0 <= index < n
    ensures InSegment(EffectiveDegrees(rotation), index, n)
  {
    var arcd := 360.0 / n as real;
    FloorFindsSegment(EffectiveDegrees(rotation), n);
    (EffectiveDegrees(rotation) / arcd).Floor
  }

  /** Whole turns of the wheel do not change the winner's index. */
  lemma FullTurnInvariance(rotation: real, n: nat, k: int)
    requires n >= 1
    ensures ResolveIndex(rotation + 360.0 * k as real, n) == ResolveIndex(rotation, n)
  {
    EffectiveIsModulus(rotation);
    EffectiveIsModulus(rotation + 360.0 * k as real);
    FloorMod360Turns(-(rotation + QuarterTurn), -k);
    assert -(rotation + 360.0 * k as real + QuarterTurn) == -(rotation + QuarterTurn) + 360.0 * (-k) as real;
  }

  /** The index depends on the rotation only through its position within a turn. */
  lemma IndexDependsOnAngleOnly(r1: real, r2: real, n: nat)
    requires n >= 1 && FloorMod360(r1) == FloorMod360(r2)
    ensures ResolveIndex(r1, n) == ResolveIndex(r2, n)
  {
    var k := SameModulusWholeTurns(r1, r2);
    FullTurnInvariance(r2, n, k);
  }

  /** At rest (rotation 0) the formula gives segment floor(3n/4). */
  lemma RestIndex(n: nat)
    requires n >= 1
    ensures ResolveIndex(0.0, n) == (3 * n) / 4
  {
    assert EffectiveDegrees(0.0) == 270.0;
    var q, r := (3 * n) / 4, (3 * n) % 4;
    assert 3 * n == 4 * q + r && 0 <= r < 4;
    assert 270.0 / (360.0 / n as real) == (3 * n) as real / 4.0;
    assert (3 * n) as real / 4.0 == q as real + r as real / 4.0;
  }

  /** With names A, B, C, D and no rotation, the formula gives D. */
  lemma FourNamesAtRest()
    ensures ResolveIndex(0.0, 4) == 3
  {
    RestIndex(4);
  }

  /** Segment `i` of `n`, turned by `rotation`, shows at screen angle `screen`. */
  predicate ShowsAt(i: int, n: nat, rotation: real, screen: real)
    requires n >= 1
  {
    InSegment(FloorMod360(screen - rotation), i, n)
  }

  /** The resolved segment is the one shown at the top of the canvas. */
  lemma ResolvedSegmentIsAtTop(rotation: real, n: nat)
    requires n >= 1
    ensures ShowsAt(ResolveIndex(rotation, n), n, rotation, TopScreenAngle)
  {
    EffectiveIsModulus(rotation);
    assert TopScreenAngle - rotation == -(rotation + QuarterTurn) + 360.0 * (1 as real);
    FloorMod360Turns(-(rotation + QuarterTurn), 1);
  }

  /**
   * The resolved segment need not be the one under the pointer: with four
   * names turned by 45 degrees the formula gives segment 2, while segment 3
   * is the one shown at the pointer.
   */
  lemma ResolvedSegmentNotUnderPointer()
    ensures ResolveIndex(45.0, 4) == 2
    ensures !ShowsAt(2, 4, 45.0, PointerScreenAngle) && ShowsAt(3, 4, 45.0, PointerScreenAngle)
  {
    assert EffectiveDegrees(45.0) == 225.0;
    assert FloorMod360(PointerScreenAngle - 45.0) == 315.0;
  }

  /**
   * The winning name: that of the segment at the resolved index (the one whose
   * arc holds the effective angle), or nothing
   * when the wheel holds no names (the script's lookup fails there).
   */
  function Winner(wheel: seq<NameColor>, rotation: real): (w: Option<string>)
    ensures w.Some? <==> |wheel| >= 1
    ensures forall i :: 0 <= i < |wheel| && InSegment(EffectiveDegrees(rotation), i, |wheel|) ==>
      w == Some(wheel[i].name)
  {
    if |wheel| == 0 then None
    else
      var index := ResolveIndex(rotation, |wheel|);
      assert forall i :: 0 <= i < |wheel| && InSegment(EffectiveDegrees(rotation), i, |wheel|) ==> i == index by {
        forall i | 0 <= i < |wheel| && InSegment(EffectiveDegrees(rotation), i, |wheel|)
          ensures i == index
        {
          SegmentsDisjoint(EffectiveDegrees(rotation), |wheel|, i, index);
        }
      }
      Some(wheel[index].name)
  }
}
