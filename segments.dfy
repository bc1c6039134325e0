/**
 * The wheel's segment model: every participant name gets a palette colour
 * (get_html_content in app.py) and an equal angular slice of the wheel
 * (getWheel in the embedded script). Angles are in degrees; the script works
 * in radians, which is the same partition scaled by pi/180.
 */
module Segments {

  /** The sixteen theme colours, in palette order. */
  const Palette: seq<string> := [
    "#FF5252", "#FF4081", "#E040FB", "#7C4DFF", "#536DFE",
    "#448AFF", "#40C4FF", "#18FFFF", "#64FFDA", "#69F0AE",
    "#B2FF59", "#EEFF41", "#FFFF00", "#FFD740", "#FFAB40", "#FF6E40"
  ]

  /** One entry of the name/colour list handed to the wheel script. */
  datatype NameColor = NameColor(name: string, color: string)

  /** The colour of the segment at position `i`: the palette, cycled. */
  function ColorAt(i: nat): (c: string)
    ensures c in Palette
  {
    Palette[i % |Palette|]
  }

  /** No colour occurs twice in the palette. */
  lemma PaletteDistinct()
    ensures forall j, k :: 0 <= j < k < |Palette| ==> Palette[j] != Palette[k]
  {
  }

  /** Two positions share a colour exactly when they are equal modulo the palette size. */
  lemma ColorsAgreeIff(i: nat, j: nat)
    ensures ColorAt(i) == ColorAt(j) <==> i % 16 == j % 16
  {
    PaletteDistinct();
  }

  /** Neighbouring segments never share a colour. */
  lemma NeighboursDiffer(i: nat)
    ensures ColorAt(i) != ColorAt(i + 1)
  {
    ColorsAgreeIff(i, i + 1);
  }

  /**
   * The loop of get_html_content: pair each name, in order, with the palette
   * colour at its position.
   */
  method NameData(names: seq<string>) returns (data: seq<NameColor>)
    ensures |data| == |names|
    ensures forall i :: 0 <= i < |names| ==> data[i].name == names[i] && data[i].color == ColorAt(i)
  {
    data := [];
    for i := 0 to |names|
      invariant |data| == i
      invariant forall k :: 0 <= k < i ==> data[k] == NameColor(names[k], ColorAt(k))
    {
      var colorIndex := i % |Palette|;
      data := data + [NameColor(names[i], Palette[colorIndex])];
    }
  }

  /** The angular width of one of `n` equal segments. */
  function ArcWidth(n: nat): (w: real)
    requires n >= 1
    ensures w > 0.0 && w * (n as real) == 360.0
  {
    360.0 / n as real
  }

  /** Where segment `i` of `n` begins. */
  function SegmentStart(i: int, n: nat): real
    requires n >= 1
  {
    i as real * ArcWidth(n)
  }

  /** Where segment `i` of `n` ends (and segment `i + 1` begins). */
  function SegmentEnd(i: int, n: nat): real
    requires n >= 1
  {
    SegmentStart(i + 1, n)
  }

  /** An angle lies in segment `i` of `n`: the half-open arc [start, end). */
  predicate InSegment(angle: real, i: int, n: nat)
    requires n >= 1
  {
    SegmentStart(i, n) <= angle < SegmentEnd(i, n)
  }

  lemma MulRightMono(x: real, y: real, w: real)
    requires w > 0.0 && x <= y
    ensures x * w <= y * w
  {
  }

  lemma MulRightStrictMono(x: real, y: real, w: real)
    requires w > 0.0 && x < y
    ensures x * w < y * w
  {
  }

  /** The `n` segments start at 0, end at a full turn, and each has the same width. */
  lemma SegmentsSpanTurn(n: nat)
    requires n >= 1
    ensures SegmentStart(0, n) == 0.0 && SegmentEnd(n - 1, n) == 360.0
    ensures forall i :: SegmentEnd(i, n) - SegmentStart(i, n) == ArcWidth(n)
  {
  }

  lemma DivMulCancel(a: real, w: real)
    requires w > 0.0
    ensures a / w * w == a
  {
  }

  /** The segment that holds an angle of the turn is found by dividing by the arc width. */
  lemma FloorFindsSegment(angle: real, n: nat)
    requires n >= 1 && 0.0 <= angle < 360.0
    ensures 0 <= (angle / ArcWidth(n)).Floor < n
    ensures InSegment(angle, (angle / ArcWidth(n)).Floor, n)
  {
    var w := ArcWidth(n);
    var q := angle / w;
    var i := q.Floor;
    DivMulCancel(angle, w);
    MulRightMono(i as real, q, w);
    MulRightStrictMono(q, (i + 1) as real, w);
    assert SegmentStart(i, n) == i as real * w;
    assert SegmentEnd(i, n) == (i + 1) as real * w;
    if i < 0 {
      MulRightStrictMono(q, 0.0, w);
    }
    if i >= n {
      MulRightMono(n as real, q, w);
    }
  }

  /** Every angle of a turn lies in some segment... */
  lemma SegmentsCover(angle: real, n: nat)
    requires n >= 1 && 0.0 <= angle < 360.0
    ensures exists i :: 0 <= i < n && InSegment(angle, i, n)
  {
    FloorFindsSegment(angle, n);
  }

  /** ...and in only one. */
  lemma SegmentsDisjoint(angle: real, n: nat, i: int, j: int)
    requires n >= 1 && InSegment(angle, i, n) && InSegment(angle, j, n)
    ensures i == j
  {
    var w := ArcWidth(n);
    if i < j {
      MulRightMono((i + 1) as real, j as real, w);
    } else if j < i {
      MulRightMono((j + 1) as real, i as real, w);
    }
  }
}
