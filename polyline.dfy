/** The first two steps of getSegmentPoints: turning the sampled curve points
    into a polyline, and summing the lengths of its lines. */
module Polyline {
  import opened Geometry

  /** A sampled curve point as the plotting library hands it over (plotter.XY). */
  datatype XY = XY(x: real, y: real)

  /** gonumToPixel: converts a plotter point into a pixel vector. */
  function GonumToPixel(xy: XY): (v: Vec)
    ensures v.x == xy.x && v.y == xy.y
  {
    Vec(xy.x, xy.y)
  }

  /** The polyline through `points`: one line per consecutive pair. */
  function Lines(points: seq<XY>): seq<Line>
  {
    if |points| < 2 then []
    else seq(|points| - 1, i requires 0 <= i < |points| - 1 =>
               Line(GonumToPixel(points[i]), GonumToPixel(points[i + 1])))
  }

  /** Each line starts where the previous one ends. */
  ghost predicate Connected(lines: seq<Line>)
  {
    forall i, j :: 0 <= i && j == i + 1 && j < |lines| ==> lines[i].b == lines[j].a
  }

  lemma LinesConnected(points: seq<XY>)
    ensures Connected(Lines(points))
  {
  }

  /** The line-building loop: appends L(points[i], points[i+1]) for every i. */
  method BuildLines(points: seq<XY>) returns (lines: seq<Line>)
    ensures |lines| == if |points| < 2 then 0 else |points| - 1
    ensures forall i :: 0 <= i < |lines| ==>
              lines[i] == Line(GonumToPixel(points[i]), GonumToPixel(points[i + 1]))
    ensures lines == Lines(points)
  {
    lines := [];
    var i := 0;
    while i < |points| - 1
      invariant 0 <= i <= if |points| < 2 then 0 else |points| - 1
      invariant |lines| == i
      invariant forall k :: 0 <= k < i ==>
                  lines[k] == Line(GonumToPixel(points[k]), GonumToPixel(points[k + 1]))
    {
      var line := Line(GonumToPixel(points[i]), GonumToPixel(points[i + 1]));
      lines := lines + [line];
      i := i + 1;
    }
  }

  /** The summed length of the first `k` lines. */
  function Prefix(norm: Vec -> real, lines: seq<Line>, k: nat): real
    requires k <= |lines|
  {
    if k == 0 then 0.0 else Prefix(norm, lines, k - 1) + Len(norm, lines[k - 1])
  }

  /** Summed lengths only grow along the polyline, and never drop below 0. */
  lemma {:induction false} PrefixMonotone(norm: Vec -> real, lines: seq<Line>, i: nat, j: nat)
    requires IsNorm(norm)
    requires i <= j <= |lines|
    ensures 0.0 <= Prefix(norm, lines, i) <= Prefix(norm, lines, j)
  {
    if i < j {
      PrefixMonotone(norm, lines, i, j - 1);
    } else if 0 < i {
      PrefixMonotone(norm, lines, i - 1, i);
    }
  }

  /** The length-summing loop: the total length of the polyline. */
  method TotalLength(norm: Vec -> real, lines: seq<Line>) returns (length: real)
    requires IsNorm(norm)
    ensures length == Prefix(norm, lines, |lines|)
    ensures 0.0 <= length
  {
    length := 0.0;
    var i := 0;
    while i < |lines|
      invariant 0 <= i <= |lines|
      invariant length == Prefix(norm, lines, i)
    {
      length := length + Len(norm, lines[i]);
      i := i + 1;
    }
    PrefixMonotone(norm, lines, 0, |lines|);
  }
}
