/** The walk of getSegmentPoints can index past the end of its line list even
    in exact arithmetic: every snap to a line's end may pass `step` by up to
    Epsilon, these excesses add up, and the last iteration then asks for more
    arc length than is left. This module exhibits two such inputs and gives a
    clamped walk, which stops at the polyline's end instead. Where Epsilon is
    comparable to `step` the clamp departs from reporting ArcLengthOverrun,
    which is what Segmenter.SegmentPoints does; it is an alternative, not the
    only correction. */
module Overrun {
  import opened Geometry
  import opened Polyline
  import opened Segmenter

  /** On the x axis, the length of a line is the difference of its ends. */
  lemma AxisLen(norm: Vec -> real, a: Vec, b: Vec)
    requires IsNorm(norm) && norm(Vec(1.0, 0.0)) == 1.0
    requires a.y == 0.0 && b.y == 0.0 && a.x <= b.x
    ensures Len(norm, Line(a, b)) == b.x - a.x
  {
    assert Sub(b, a) == Scale(b.x - a.x, Vec(1.0, 0.0));
  }

  /** An iteration whose start line alone is within Epsilon of `step` snaps
      to that line's end. */
  lemma SnapStep(norm: Vec -> real, lines: seq<Line>, step: real, c: Cursor)
    requires IsNorm(norm) && Connected(lines) && 0.0 <= step && Placed(norm, lines, c)
    requires c.lastLine < |lines|
    requires step - Epsilon <= Len(norm, Line(c.lastPoint, lines[c.lastLine].b)) <= step + Epsilon
    ensures Step(norm, lines, step, c) == Ok(Cursor(c.lastLine + 1, lines[c.lastLine].b))
  {
    var d := Len(norm, Line(c.lastPoint, lines[c.lastLine].b));
    assert Advance(norm, lines, step, c.lastLine, d) == Ok(Reach(c.lastLine, d));
  }

  /** An iteration on the last line that is short of `step` by more than
      Epsilon reads past the end. */
  lemma ShortLastStep(norm: Vec -> real, lines: seq<Line>, step: real, c: Cursor)
    requires IsNorm(norm) && Connected(lines) && 0.0 <= step && Placed(norm, lines, c)
    requires c.lastLine + 1 == |lines|
    requires step - Len(norm, Line(c.lastPoint, lines[c.lastLine].b)) > Epsilon
    ensures Step(norm, lines, step, c) == Err(ArcLengthOverrun)
  {
  }

  /** The three lines of the first counterexample: lengths 1.0008, 1.0008
      and 0.9984 along the x axis. */
  lemma {:induction false} InnerLoopLines(norm: Vec -> real, lines: seq<Line>)
    requires IsNorm(norm) && norm(Vec(1.0, 0.0)) == 1.0
    requires lines == [Line(Vec(0.0, 0.0), Vec(1.0008, 0.0)), Line(Vec(1.0008, 0.0), Vec(2.0016, 0.0)),
                       Line(Vec(2.0016, 0.0), Vec(3.0, 0.0))]
    ensures Connected(lines)
    ensures Prefix(norm, lines, 1) == 1.0008
    ensures Prefix(norm, lines, 2) == 2.0016
    ensures Prefix(norm, lines, 3) == 3.0
  {
    AxisLen(norm, lines[0].a, lines[0].b);
    assert Line(lines[0].a, lines[0].b) == lines[0];
    AxisLen(norm, lines[1].a, lines[1].b);
    assert Line(lines[1].a, lines[1].b) == lines[1];
    AxisLen(norm, lines[2].a, lines[2].b);
    assert Line(lines[2].a, lines[2].b) == lines[2];
    assert Prefix(norm, lines, 1) == Len(norm, lines[0]);
    assert Prefix(norm, lines, 2) == Prefix(norm, lines, 1) + Len(norm, lines[1]);
    assert Prefix(norm, lines, 3) == Prefix(norm, lines, 2) + Len(norm, lines[2]);
  }

  /** The first iteration with step 1 overshoots by 0.0008 and snaps to the
      end of the first line. */
  lemma {:induction false} InnerLoopFirst(norm: Vec -> real, lines: seq<Line>)
    requires IsNorm(norm) && norm(Vec(1.0, 0.0)) == 1.0
    requires lines == [Line(Vec(0.0, 0.0), Vec(1.0008, 0.0)), Line(Vec(1.0008, 0.0), Vec(2.0016, 0.0)),
                       Line(Vec(2.0016, 0.0), Vec(3.0, 0.0))]
    ensures Run(norm, lines, 1.0, 1) == Ok(Walk([lines[0].a, lines[0].b], Cursor(1, lines[0].b)))
  {
    InnerLoopLines(norm, lines);
    var c0 := Cursor(0, lines[0].a);
    assert Line(c0.lastPoint, lines[0].b) == lines[0];
    SnapStep(norm, lines, 1.0, c0);
    var w0 := Walk([c0.lastPoint], c0);
    assert Run(norm, lines, 1.0, 0) == Ok(w0);
    RunNext(norm, lines, 1.0, 0, w0);
    assert w0.points + [lines[0].b] == [lines[0].a, lines[0].b];
  }

  /** The second iteration does the same on the second line. */
  lemma {:induction false} InnerLoopSecond(norm: Vec -> real, lines: seq<Line>)
    requires IsNorm(norm) && norm(Vec(1.0, 0.0)) == 1.0
    requires lines == [Line(Vec(0.0, 0.0), Vec(1.0008, 0.0)), Line(Vec(1.0008, 0.0), Vec(2.0016, 0.0)),
                       Line(Vec(2.0016, 0.0), Vec(3.0, 0.0))]
    ensures Run(norm, lines, 1.0, 2) == Ok(Walk([lines[0].a, lines[0].b, lines[1].b], Cursor(2, lines[1].b)))
  {
    InnerLoopLines(norm, lines);
    InnerLoopFirst(norm, lines);
    var c1 := Cursor(1, lines[0].b);
    assert Line(c1.lastPoint, lines[1].b) == lines[1];
    SnapStep(norm, lines, 1.0, c1);
    RunNext(norm, lines, 1.0, 1, Walk([lines[0].a, lines[0].b], c1));
    assert [lines[0].a, lines[0].b] + [lines[1].b] == [lines[0].a, lines[0].b, lines[1].b];
  }

  /** The third iteration starts on the last line, 0.9984 long, and is
      0.0016 short of the step: it reads past the end. */
  lemma {:induction false} InnerLoopThird(norm: Vec -> real, lines: seq<Line>)
    requires IsNorm(norm) && norm(Vec(1.0, 0.0)) == 1.0
    requires lines == [Line(Vec(0.0, 0.0), Vec(1.0008, 0.0)), Line(Vec(1.0008, 0.0), Vec(2.0016, 0.0)),
                       Line(Vec(2.0016, 0.0), Vec(3.0, 0.0))]
    ensures Step(norm, lines, 1.0, Cursor(2, lines[1].b)) == Err(ArcLengthOverrun)
  {
    InnerLoopLines(norm, lines);
    var c2 := Cursor(2, lines[1].b);
    assert Line(c2.lastPoint, lines[2].b) == lines[2];
    ShortLastStep(norm, lines, 1.0, c2);
  }

  /** The walk over three lines of lengths 1.0008, 1.0008 and 0.9984 with
      step 1 overruns in its third iteration. */
  lemma {:induction false} InnerLoopRun(norm: Vec -> real, lines: seq<Line>)
    requires IsNorm(norm) && norm(Vec(1.0, 0.0)) == 1.0
    requires lines == [Line(Vec(0.0, 0.0), Vec(1.0008, 0.0)), Line(Vec(1.0008, 0.0), Vec(2.0016, 0.0)),
                       Line(Vec(2.0016, 0.0), Vec(3.0, 0.0))]
    ensures Connected(lines)
    ensures Prefix(norm, lines, 3) == 3.0
    ensures Run(norm, lines, 1.0, 3) == Err(ArcLengthOverrun)
  {
    InnerLoopLines(norm, lines);
    InnerLoopSecond(norm, lines);
    InnerLoopThird(norm, lines);
    RunNext(norm, lines, 1.0, 2, Walk([lines[0].a, lines[0].b, lines[1].b], Cursor(2, lines[1].b)));
  }

  /** Four points on a line of length 3 split into 3 segments: the first two
      iterations snap to line ends 0.0008 past the step, and the third is
      0.0016 short of it with no line left, so the inner loop reads
      lines[3] of three lines. */
  lemma InnerLoopOverrun(norm: Vec -> real)
    requires IsNorm(norm) && norm(Vec(1.0, 0.0)) == 1.0
    ensures SegmentPoints(norm, [XY(0.0, 0.0), XY(1.0008, 0.0), XY(2.0016, 0.0), XY(3.0, 0.0)], 3)
            == Err(ArcLengthOverrun)
  {
    var points := [XY(0.0, 0.0), XY(1.0008, 0.0), XY(2.0016, 0.0), XY(3.0, 0.0)];
    var lines := Lines(points);
    assert lines == [Line(Vec(0.0, 0.0), Vec(1.0008, 0.0)), Line(Vec(1.0008, 0.0), Vec(2.0016, 0.0)),
                     Line(Vec(2.0016, 0.0), Vec(3.0, 0.0))];
    InnerLoopRun(norm, lines);
    assert SegmentStep(norm, lines, 3) == 1.0;
  }

  /** The two lines of the second counterexample, each of length 0.00225
      along the x axis. */
  lemma {:induction false} StartLineLines(norm: Vec -> real, lines: seq<Line>)
    requires IsNorm(norm) && norm(Vec(1.0, 0.0)) == 1.0
    requires lines == [Line(Vec(0.0, 0.0), Vec(0.00225, 0.0)), Line(Vec(0.00225, 0.0), Vec(0.0045, 0.0))]
    ensures Connected(lines)
    ensures Prefix(norm, lines, 1) == 0.00225
    ensures Prefix(norm, lines, 2) == 0.0045
  {
    AxisLen(norm, lines[0].a, lines[0].b);
    assert Line(lines[0].a, lines[0].b) == lines[0];
    AxisLen(norm, lines[1].a, lines[1].b);
    assert Line(lines[1].a, lines[1].b) == lines[1];
    assert Prefix(norm, lines, 1) == Len(norm, lines[0]);
    assert Prefix(norm, lines, 2) == Prefix(norm, lines, 1) + Len(norm, lines[1]);
  }

  /** The first iteration with step 0.0015 overshoots by 0.00075 and snaps to
      the end of the first line. */
  lemma {:induction false} StartLineFirst(norm: Vec -> real, lines: seq<Line>)
    requires IsNorm(norm) && norm(Vec(1.0, 0.0)) == 1.0
    requires lines == [Line(Vec(0.0, 0.0), Vec(0.00225, 0.0)), Line(Vec(0.00225, 0.0), Vec(0.0045, 0.0))]
    ensures Run(norm, lines, 0.0015, 1) == Ok(Walk([lines[0].a, lines[0].b], Cursor(1, lines[0].b)))
  {
    StartLineLines(norm, lines);
    var c0 := Cursor(0, lines[0].a);
    assert Line(c0.lastPoint, lines[0].b) == lines[0];
    SnapStep(norm, lines, 0.0015, c0);
    var w0 := Walk([c0.lastPoint], c0);
    assert Run(norm, lines, 0.0015, 0) == Ok(w0);
    RunNext(norm, lines, 0.0015, 0, w0);
    assert w0.points + [lines[0].b] == [lines[0].a, lines[0].b];
  }

  /** The second iteration does the same on the second line, which leaves
      the cursor past the last line. */
  lemma {:induction false} StartLineSecond(norm: Vec -> real, lines: seq<Line>)
    requires IsNorm(norm) && norm(Vec(1.0, 0.0)) == 1.0
    requires lines == [Line(Vec(0.0, 0.0), Vec(0.00225, 0.0)), Line(Vec(0.00225, 0.0), Vec(0.0045, 0.0))]
    ensures Run(norm, lines, 0.0015, 2) == Ok(Walk([lines[0].a, lines[0].b, lines[1].b], Cursor(2, lines[1].b)))
  {
    StartLineLines(norm, lines);
    StartLineFirst(norm, lines);
    var c1 := Cursor(1, lines[0].b);
    assert Line(c1.lastPoint, lines[1].b) == lines[1];
    SnapStep(norm, lines, 0.0015, c1);
    RunNext(norm, lines, 0.0015, 1, Walk([lines[0].a, lines[0].b], c1));
    assert [lines[0].a, lines[0].b] + [lines[1].b] == [lines[0].a, lines[0].b, lines[1].b];
  }

  /** The walk over two lines of length 0.00225 with step 0.0015 overruns in
      its third iteration. */
  lemma {:induction false} StartLineRun(norm: Vec -> real, lines: seq<Line>)
    requires IsNorm(norm) && norm(Vec(1.0, 0.0)) == 1.0
    requires lines == [Line(Vec(0.0, 0.0), Vec(0.00225, 0.0)), Line(Vec(0.00225, 0.0), Vec(0.0045, 0.0))]
    ensures Connected(lines)
    ensures Prefix(norm, lines, 2) == 0.0045
    ensures Run(norm, lines, 0.0015, 3) == Err(ArcLengthOverrun)
  {
    StartLineLines(norm, lines);
    StartLineSecond(norm, lines);
    RunNext(norm, lines, 0.0015, 2, Walk([lines[0].a, lines[0].b, lines[1].b], Cursor(2, lines[1].b)));
  }

  /** Three points 0.00225 apart split into 3 segments of 0.0015: each of the
      first two iterations overshoots by 0.00075, within Epsilon, so it snaps
      to the end of its line and moves on; the third iteration then builds its
      start line from lines[2] of two lines. */
  lemma StartLineOverrun(norm: Vec -> real)
    requires IsNorm(norm) && norm(Vec(1.0, 0.0)) == 1.0
    ensures SegmentPoints(norm, [XY(0.0, 0.0), XY(0.00225, 0.0), XY(0.0045, 0.0)], 3)
            == Err(ArcLengthOverrun)
  {
    var points := [XY(0.0, 0.0), XY(0.00225, 0.0), XY(0.0045, 0.0)];
    var lines := Lines(points);
    assert lines == [Line(Vec(0.0, 0.0), Vec(0.00225, 0.0)), Line(Vec(0.00225, 0.0), Vec(0.0045, 0.0))];
    StartLineRun(norm, lines);
    assert SegmentStep(norm, lines, 3) == 0.0015;
  }

  /** The corrected inner loop: it takes the next line only while there is
      one, and otherwise stops on the last line with what length it has. */
  function AdvanceClamped(norm: Vec -> real, lines: seq<Line>, step: real, lastLine: nat, localLength: real)
    : (r: Reach)
    requires lastLine < |lines|
    ensures lastLine <= r.lastLine < |lines|
    ensures r.localLength ==
              localLength + Prefix(norm, lines, r.lastLine + 1) - Prefix(norm, lines, lastLine + 1)
    ensures r.lastLine + 1 < |lines| ==> step - r.localLength <= Epsilon
    ensures lastLine < r.lastLine ==>
              step - (r.localLength - Len(norm, lines[r.lastLine])) > Epsilon
    decreases |lines| - lastLine
  {
    if step - localLength > Epsilon && lastLine + 1 < |lines| then
      AdvanceClamped(norm, lines, step, lastLine + 1, localLength + Len(norm, lines[lastLine + 1]))
    else
      Reach(lastLine, localLength)
  }

  /** The corrected iteration: a cursor already at the polyline's end stays
      there; otherwise as in the program, with the clamped inner loop. */
  function StepClamped(norm: Vec -> real, lines: seq<Line>, step: real, c: Cursor): (r: Cursor)
    requires IsNorm(norm) && Connected(lines) && 0.0 <= step
    requires Placed(norm, lines, c)
    ensures Placed(norm, lines, r) && c.lastLine <= r.lastLine
  {
    if c.lastLine == |lines| then
      c
    else
      var reach := AdvanceClamped(norm, lines, step, c.lastLine, Len(norm, Line(c.lastPoint, lines[c.lastLine].b)));
      var line := lines[reach.lastLine];
      if reach.localLength - step > Epsilon then
        var t := (reach.localLength - step) / Len(norm, line);
        FractionBounds(reach.localLength - step, Len(norm, line));
        LerpLen(norm, line, t);
        Cursor(reach.lastLine, Lerp(line, t))
      else
        Cursor(reach.lastLine + 1, line.b)
  }

  /** The first `k` corrected iterations: they always produce a walk. */
  function RunClamped(norm: Vec -> real, lines: seq<Line>, step: real, k: nat): (w: Walk)
    requires IsNorm(norm) && Connected(lines) && 0 < |lines| && 0.0 <= step
    ensures |w.points| == k + 1 && w.points[0] == lines[0].a
    ensures w.points[k] == w.cursor.lastPoint && Placed(norm, lines, w.cursor)
  {
    if k == 0 then
      Walk([lines[0].a], Cursor(0, lines[0].a))
    else
      var w := RunClamped(norm, lines, step, k - 1);
      var c := StepClamped(norm, lines, step, w.cursor);
      Walk(w.points + [c.lastPoint], c)
  }

  /** getSegmentPoints with the corrected walk: the only error left is having
      fewer than two points. */
  function SegmentPointsClamped(norm: Vec -> real, points: seq<XY>, numberOfSegments: int)
    : (r: Result<seq<Vec>>)
    requires IsNorm(norm)
    ensures r.Err? <==> |points| < 2
    ensures r.Err? ==> r.error == InsufficientPoints
    ensures r.Ok? ==> |r.value| == (if 0 < numberOfSegments then numberOfSegments else 0) + 1
    ensures r.Ok? ==> r.value[0] == GonumToPixel(points[0])
  {
    var lines := Lines(points);
    if |lines| == 0 then
      Err(InsufficientPoints)
    else
      LinesConnected(points);
      var iterations := if 0 < numberOfSegments then numberOfSegments else 0;
      Ok(RunClamped(norm, lines, SegmentStep(norm, lines, numberOfSegments), iterations).points)
  }

  /** Where the program's inner loop succeeds the clamped one agrees with it,
      and where it overruns the clamped one stops on the last line. */
  lemma {:induction false} AdvanceClampedAgrees(norm: Vec -> real, lines: seq<Line>, step: real, lastLine: nat, localLength: real)
    requires lastLine < |lines|
    ensures Advance(norm, lines, step, lastLine, localLength).Ok? ==>
              AdvanceClamped(norm, lines, step, lastLine, localLength)
              == Advance(norm, lines, step, lastLine, localLength).value
    ensures Advance(norm, lines, step, lastLine, localLength).Err? ==>
              AdvanceClamped(norm, lines, step, lastLine, localLength).lastLine == |lines| - 1
    decreases |lines| - lastLine
  {
    if step - localLength > Epsilon && lastLine + 1 < |lines| {
      AdvanceClampedAgrees(norm, lines, step, lastLine + 1, localLength + Len(norm, lines[lastLine + 1]));
    }
  }

  /** Where the program's iteration succeeds the corrected one agrees with it. */
  lemma StepClampedAgrees(norm: Vec -> real, lines: seq<Line>, step: real, c: Cursor)
    requires IsNorm(norm) && Connected(lines) && 0.0 <= step && Placed(norm, lines, c)
    requires Step(norm, lines, step, c).Ok?
    ensures StepClamped(norm, lines, step, c) == Step(norm, lines, step, c).value
  {
    AdvanceClampedAgrees(norm, lines, step, c.lastLine, Len(norm, Line(c.lastPoint, lines[c.lastLine].b)));
  }

  /** RunClamped(k) is RunClamped(k - 1) followed by one more iteration. */
  lemma RunClampedNext(norm: Vec -> real, lines: seq<Line>, step: real, k: nat)
    requires IsNorm(norm) && Connected(lines) && 0 < |lines| && 0.0 <= step && 0 < k
    ensures var w := RunClamped(norm, lines, step, k - 1);
            var c := StepClamped(norm, lines, step, w.cursor);
            RunClamped(norm, lines, step, k) == Walk(w.points + [c.lastPoint], c)
  {
  }

  /** The corrected walk changes nothing on inputs the program handles: when
      the program's first k iterations succeed, the corrected ones produce
      the same points and cursor. */
  lemma {:induction false} RunClampedAgrees(norm: Vec -> real, lines: seq<Line>, step: real, k: nat)
    requires IsNorm(norm) && Connected(lines) && 0 < |lines| && 0.0 <= step
    requires Run(norm, lines, step, k).Ok?
    ensures RunClamped(norm, lines, step, k) == Run(norm, lines, step, k).value
  {
    if 0 < k {
      RunOkPrev(norm, lines, step, k);
      RunClampedNext(norm, lines, step, k);
      RunClampedAgrees(norm, lines, step, k - 1);
      StepClampedAgrees(norm, lines, step, Run(norm, lines, step, k - 1).value.cursor);
    }
  }

  /** On every input the program returns points for, the corrected
      getSegmentPoints returns the same points. */
  lemma SegmentPointsClampedAgrees(norm: Vec -> real, points: seq<XY>, numberOfSegments: int)
    requires IsNorm(norm)
    requires SegmentPoints(norm, points, numberOfSegments).Ok?
    ensures SegmentPointsClamped(norm, points, numberOfSegments) == SegmentPoints(norm, points, numberOfSegments)
  {
    var lines := Lines(points);
    LinesConnected(points);
    var iterations := if 0 < numberOfSegments then numberOfSegments else 0;
    RunClampedAgrees(norm, lines, SegmentStep(norm, lines, numberOfSegments), iterations);
  }

  /** A corrected iteration advances the cursor by at most step + Epsilon of
      arc length, and by at least step - Epsilon unless it stops at the
      polyline's end. */
  lemma StepClampedArc(norm: Vec -> real, lines: seq<Line>, step: real, c: Cursor)
    requires IsNorm(norm) && Connected(lines) && 0.0 <= step && Placed(norm, lines, c)
    ensures ArcPos(norm, lines, StepClamped(norm, lines, step, c)) <= ArcPos(norm, lines, c) + step + Epsilon
    ensures ArcPos(norm, lines, c) + step - Epsilon <= ArcPos(norm, lines, StepClamped(norm, lines, step, c)) ||
            ArcPos(norm, lines, StepClamped(norm, lines, step, c)) == Prefix(norm, lines, |lines|)
  {
    if c.lastLine < |lines| {
      var localLength := Len(norm, Line(c.lastPoint, lines[c.lastLine].b));
      AdvanceClampedAgrees(norm, lines, step, c.lastLine, localLength);
      if Step(norm, lines, step, c).Ok? {
        StepClampedAgrees(norm, lines, step, c);
        StepArc(norm, lines, step, c);
      } else {
        StepOverrunIff(norm, lines, step, c);
      }
    }
  }

  /** After k corrected iterations the cursor is at most k*(step + Epsilon)
      along, and at least k*(step - Epsilon) along unless it is at the end. */
  ghost predicate WithinClamped(k: nat, step: real, total: real, pos: real)
  {
    pos <= k as real * (step + Epsilon) &&
    (k as real * (step - Epsilon) <= pos || pos == total)
  }

  lemma AccumulateClamped(k: nat, step: real, total: real, before: real, after: real)
    requires 0 < k && WithinClamped(k - 1, step, total, before)
    requires 0.0 <= after <= total
    requires after <= before + step + Epsilon
    requires before + step - Epsilon <= after || after == total
    ensures WithinClamped(k, step, total, after)
  {
    var m, lo, hi := (k - 1) as real, step - Epsilon, step + Epsilon;
    assert k as real * lo == m * lo + lo;
    assert k as real * hi == m * hi + hi;
    assert before <= m * hi;
    if after != total && m * lo > before {
      // before must then be the polyline's end, and after lies before it by
      // at most step - Epsilon, which m * lo > before >= 0 makes positive
      assert false;
    }
    assert after <= k as real * hi;
    assert k as real * lo <= after || after == total;
  }

  /** The corrected walk keeps to the step, within the tolerance, until it
      reaches the polyline's end. */
  lemma {:induction false} RunClampedArc(norm: Vec -> real, lines: seq<Line>, step: real, k: nat)
    requires IsNorm(norm) && Connected(lines) && 0 < |lines| && 0.0 <= step
    ensures WithinClamped(k, step, Prefix(norm, lines, |lines|),
                          ArcPos(norm, lines, RunClamped(norm, lines, step, k).cursor))
  {
    if k == 0 {
      assert Line(lines[0].a, lines[0].b) == lines[0];
      assert Prefix(norm, lines, 1) == Len(norm, lines[0]);
      assert RunClamped(norm, lines, step, k).cursor == Cursor(0, lines[0].a);
    } else {
      RunClampedArc(norm, lines, step, k - 1);
      var c := RunClamped(norm, lines, step, k - 1).cursor;
      var next := StepClamped(norm, lines, step, c);
      StepClampedArc(norm, lines, step, c);
      ArcPosBounds(norm, lines, next);
      assert RunClamped(norm, lines, step, k).cursor == next;
      AccumulateClamped(k, step, Prefix(norm, lines, |lines|), ArcPos(norm, lines, c), ArcPos(norm, lines, next));
    }
  }

  /** With n >= 1 segments of length step, the corrected walk always ends
      within n*Epsilon of arc length before the polyline's end. */
  lemma ClampedEndsNearPolylineEnd(norm: Vec -> real, lines: seq<Line>, step: real, n: nat)
    requires IsNorm(norm) && Connected(lines) && 0 < |lines| && 0.0 <= step
    requires 0 < n && step * n as real == Prefix(norm, lines, |lines|)
    ensures Prefix(norm, lines, |lines|) - n as real * Epsilon
            <= ArcPos(norm, lines, RunClamped(norm, lines, step, n).cursor)
    ensures ArcPos(norm, lines, RunClamped(norm, lines, step, n).cursor) <= Prefix(norm, lines, |lines|)
  {
    RunClampedArc(norm, lines, step, n);
    var c := RunClamped(norm, lines, step, n).cursor;
    ArcPosBounds(norm, lines, c);
    assert n as real * (step - Epsilon) == Prefix(norm, lines, |lines|) - n as real * Epsilon;
  }
}
