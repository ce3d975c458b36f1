/** A walk that succeeds can still end more than Epsilon of arc length before
    the polyline's end: every snap to a line's end may fall short of `step` by
    up to Epsilon, and the shortfalls add up. The bound n*Epsilon proved by
    EndsNearPolylineEnd is the one that holds; this module exhibits an input
    with two segments whose last point is 0.0016 before the end. */
module EndGap {
  import opened Geometry
  import opened Polyline
  import opened Segmenter
  import opened Overrun

  /** The three lines through (0,0), (0.9992,0), (1.9984,0) and (2,0): two of
      length 0.9992 and one of length 0.0016 along the x axis. */
  lemma {:induction false} GapLines(norm: Vec -> real, lines: seq<Line>)
    requires IsNorm(norm) && norm(Vec(1.0, 0.0)) == 1.0
    requires lines == [Line(Vec(0.0, 0.0), Vec(0.9992, 0.0)), Line(Vec(0.9992, 0.0), Vec(1.9984, 0.0)),
                       Line(Vec(1.9984, 0.0), Vec(2.0, 0.0))]
    ensures Connected(lines)
    ensures Prefix(norm, lines, 1) == 0.9992
    ensures Prefix(norm, lines, 2) == 1.9984
    ensures Prefix(norm, lines, 3) == 2.0
  {
    AxisLen(norm, lines[0].a, lines[0].b);
    assert Line(lines[0].a, lines[0].b) == lines[0];
    AxisLen(norm, lines[1].a, lines[1].b);
    assert Line(lines[1].a, lines[1].b) == lines[1];
    AxisLen(norm, lines[2].a, lines[2].b);
    assert Line(lines[2].a, lines[2].b) == lines[2];
    assert Prefix(norm, lines, 1) == Len(norm, lines[0]);
    assert Prefix(norm, lines, 2) == Prefix(norm, lines, 1) + Len(norm, lines[1]);
    assert Prefix(norm, lines, 3) == Prefix(norm, lines, 2) + Len(norm, lines[2]);
  }

  /** The first iteration with step 1 is 0.0008 short, within Epsilon, and
      snaps to the end of the first line. */
  lemma {:induction false} GapFirst(norm: Vec -> real, lines: seq<Line>)
    requires IsNorm(norm) && norm(Vec(1.0, 0.0)) == 1.0
    requires lines == [Line(Vec(0.0, 0.0), Vec(0.9992, 0.0)), Line(Vec(0.9992, 0.0), Vec(1.9984, 0.0)),
                       Line(Vec(1.9984, 0.0), Vec(2.0, 0.0))]
    ensures Run(norm, lines, 1.0, 1) == Ok(Walk([lines[0].a, lines[0].b], Cursor(1, lines[0].b)))
  {
    GapLines(norm, lines);
    var c0 := Cursor(0, lines[0].a);
    assert Line(c0.lastPoint, lines[0].b) == lines[0];
    SnapStep(norm, lines, 1.0, c0);
    var w0 := Walk([c0.lastPoint], c0);
    assert Run(norm, lines, 1.0, 0) == Ok(w0);
    RunNext(norm, lines, 1.0, 0, w0);
    assert w0.points + [lines[0].b] == [lines[0].a, lines[0].b];
  }

  /** The second and last iteration does the same on the second line, and the
      walk stops at its end with the third line untouched. */
  lemma {:induction false} GapSecond(norm: Vec -> real, lines: seq<Line>)
    requires IsNorm(norm) && norm(Vec(1.0, 0.0)) == 1.0
    requires lines == [Line(Vec(0.0, 0.0), Vec(0.9992, 0.0)), Line(Vec(0.9992, 0.0), Vec(1.9984, 0.0)),
                       Line(Vec(1.9984, 0.0), Vec(2.0, 0.0))]
    ensures Run(norm, lines, 1.0, 2) == Ok(Walk([lines[0].a, lines[0].b, lines[1].b], Cursor(2, lines[1].b)))
  {
    GapLines(norm, lines);
    GapFirst(norm, lines);
    var c1 := Cursor(1, lines[0].b);
    assert Line(c1.lastPoint, lines[1].b) == lines[1];
    SnapStep(norm, lines, 1.0, c1);
    RunNext(norm, lines, 1.0, 1, Walk([lines[0].a, lines[0].b], c1));
    assert [lines[0].a, lines[0].b] + [lines[1].b] == [lines[0].a, lines[0].b, lines[1].b];
  }

  /** The walk over these lines with step 1 takes two snapping iterations. */
  lemma {:induction false} GapRun(norm: Vec -> real, lines: seq<Line>)
    requires IsNorm(norm) && norm(Vec(1.0, 0.0)) == 1.0
    requires lines == [Line(Vec(0.0, 0.0), Vec(0.9992, 0.0)), Line(Vec(0.9992, 0.0), Vec(1.9984, 0.0)),
                       Line(Vec(1.9984, 0.0), Vec(2.0, 0.0))]
    ensures Connected(lines)
    ensures Run(norm, lines, 1.0, 2) == Ok(Walk([lines[0].a, lines[0].b, lines[1].b], Cursor(2, lines[1].b)))
    ensures Prefix(norm, lines, 3) == 2.0
  {
    GapLines(norm, lines);
    GapSecond(norm, lines);
  }

  /** Their total length is 2, so two segments make a step of 1. */
  lemma {:induction false} GapStep(norm: Vec -> real, lines: seq<Line>)
    requires IsNorm(norm) && norm(Vec(1.0, 0.0)) == 1.0
    requires lines == [Line(Vec(0.0, 0.0), Vec(0.9992, 0.0)), Line(Vec(0.9992, 0.0), Vec(1.9984, 0.0)),
                       Line(Vec(1.9984, 0.0), Vec(2.0, 0.0))]
    ensures SegmentStep(norm, lines, 2) == 1.0
  {
    GapLines(norm, lines);
    assert |lines| == 3;
  }

  /** The cursor the walk ends with is 1.9984 along a polyline of length 2. */
  lemma {:induction false} GapArc(norm: Vec -> real, lines: seq<Line>)
    requires IsNorm(norm) && norm(Vec(1.0, 0.0)) == 1.0
    requires lines == [Line(Vec(0.0, 0.0), Vec(0.9992, 0.0)), Line(Vec(0.9992, 0.0), Vec(1.9984, 0.0)),
                       Line(Vec(1.9984, 0.0), Vec(2.0, 0.0))]
    ensures ArcPos(norm, lines, Cursor(2, lines[1].b)) == Prefix(norm, lines, 3) - 0.0016
  {
    GapLines(norm, lines);
    AxisLen(norm, lines[2].a, lines[2].b);
    assert Line(lines[1].b, lines[2].b) == lines[2];
  }

  /** getSegmentPoints on (0,0), (0.9992,0), (1.9984,0), (2,0) with 2
      segments succeeds and returns the first three points: its last point is
      0.0016 before the polyline's end, more than Epsilon and within
      2*Epsilon as EndsNearPolylineEnd allows. */
  lemma {:induction false} EndsShortOfEnd(norm: Vec -> real)
    requires IsNorm(norm) && norm(Vec(1.0, 0.0)) == 1.0
    ensures SegmentPoints(norm, [XY(0.0, 0.0), XY(0.9992, 0.0), XY(1.9984, 0.0), XY(2.0, 0.0)], 2)
            == Ok([Vec(0.0, 0.0), Vec(0.9992, 0.0), Vec(1.9984, 0.0)])
  {
    var points := [XY(0.0, 0.0), XY(0.9992, 0.0), XY(1.9984, 0.0), XY(2.0, 0.0)];
    var lines := Lines(points);
    assert lines == [Line(Vec(0.0, 0.0), Vec(0.9992, 0.0)), Line(Vec(0.9992, 0.0), Vec(1.9984, 0.0)),
                     Line(Vec(1.9984, 0.0), Vec(2.0, 0.0))];
    GapStep(norm, lines);
    GapRun(norm, lines);
    SegmentPointsWalk(norm, points, 2);
  }
}
