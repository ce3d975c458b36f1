/** The third step of getSegmentPoints: one forward walk along the polyline
    that emits a point every `step` of arc length, where step is the total
    length divided by the number of segments. A read past the end of the
    line list, which panics in the program, is the error ArcLengthOverrun. */
module Segmenter {
  import opened Geometry
  import opened Polyline

  /** The tolerance within which an accumulated length counts as `step`. */
  const Epsilon: real := 0.001

  datatype Error =
    | InsufficientPoints  // fewer than two points: lines[0] does not exist
    | ArcLengthOverrun    // the walk indexes past the last line

  datatype Result<T> = Ok(value: T) | Err(error: Error)

  /** The walk's state between iterations: `lastLine` and `lastPoint`. */
  datatype Cursor = Cursor(lastLine: nat, lastPoint: Vec)

  /** Where the inner loop stops: the line it reached and `localLength`. */
  datatype Reach = Reach(lastLine: nat, localLength: real)

  /** The points emitted so far and the cursor after the last of them. */
  datatype Walk = Walk(points: seq<Vec>, cursor: Cursor)

  /** The cursor is within its line (the line from it to the line's end is no
      longer than the line), or has moved past the last line and sits on the
      polyline's end point. */
  ghost predicate Placed(norm: Vec -> real, lines: seq<Line>, c: Cursor)
  {
    0 < |lines| && c.lastLine <= |lines| &&
    (c.lastLine < |lines| ==>
       Len(norm, Line(c.lastPoint, lines[c.lastLine].b)) <= Len(norm, lines[c.lastLine])) &&
    (c.lastLine == |lines| ==> c.lastPoint == lines[|lines| - 1].b)
  }

  /** The arc length along the polyline from its first point to the cursor. */
  function ArcPos(norm: Vec -> real, lines: seq<Line>, c: Cursor): real
    requires c.lastLine <= |lines|
  {
    if c.lastLine == |lines| then Prefix(norm, lines, |lines|)
    else Prefix(norm, lines, c.lastLine + 1) - Len(norm, Line(c.lastPoint, lines[c.lastLine].b))
  }

  /** The inner loop: while localLength is more than Epsilon short of `step`,
      take the next whole line. */
  function Advance(norm: Vec -> real, lines: seq<Line>, step: real, lastLine: nat, localLength: real)
    : (r: Result<Reach>)
    requires lastLine < |lines|
    ensures r.Ok? ==> lastLine <= r.value.lastLine < |lines|
    ensures r.Ok? ==> step - r.value.localLength <= Epsilon
    ensures r.Ok? ==>
              r.value.localLength ==
              localLength + Prefix(norm, lines, r.value.lastLine + 1) - Prefix(norm, lines, lastLine + 1)
    ensures r.Ok? && lastLine < r.value.lastLine ==>
              step - (r.value.localLength - Len(norm, lines[r.value.lastLine])) > Epsilon
    ensures r.Err? ==> r.error == ArcLengthOverrun
    ensures r.Err? ==>
              step - (localLength + Prefix(norm, lines, |lines|) - Prefix(norm, lines, lastLine + 1)) > Epsilon
    decreases |lines| - lastLine
  {
    if step - localLength > Epsilon then
      if lastLine + 1 < |lines| then
        Advance(norm, lines, step, lastLine + 1, localLength + Len(norm, lines[lastLine + 1]))
      else
        Err(ArcLengthOverrun)
    else
      Ok(Reach(lastLine, localLength))
  }

  /** One iteration of the outer loop: start from the cursor, run the inner
      loop, then either interpolate back along the reached line (overshoot) or
      snap to its end and move to the next line. */
  function Step(norm: Vec -> real, lines: seq<Line>, step: real, c: Cursor): (r: Result<Cursor>)
    requires IsNorm(norm) && Connected(lines) && 0.0 <= step
    requires Placed(norm, lines, c)
    ensures r.Ok? ==> Placed(norm, lines, r.value) && c.lastLine <= r.value.lastLine
    ensures r.Err? ==> r.error == ArcLengthOverrun
  {
    if c.lastLine == |lines| then
      Err(ArcLengthOverrun)
    else
      match Advance(norm, lines, step, c.lastLine, Len(norm, Line(c.lastPoint, lines[c.lastLine].b)))
      case Err(e) => Err(e)
      case Ok(reach) =>
        var line := lines[reach.lastLine];
        if reach.localLength - step > Epsilon then
          var t := (reach.localLength - step) / Len(norm, line);
          LerpLen(norm, line, t);
          Ok(Cursor(reach.lastLine, Lerp(line, t)))
        else
          Ok(Cursor(reach.lastLine + 1, line.b))
  }

  /** The first `k` iterations of the outer loop, starting from the first
      point of the polyline. */
  function Run(norm: Vec -> real, lines: seq<Line>, step: real, k: nat): (r: Result<Walk>)
    requires IsNorm(norm) && Connected(lines) && 0 < |lines| && 0.0 <= step
    ensures r.Ok? ==> |r.value.points| == k + 1 && r.value.points[0] == lines[0].a
    ensures r.Ok? ==> r.value.points[k] == r.value.cursor.lastPoint && Placed(norm, lines, r.value.cursor)
    ensures r.Err? ==> r.error == ArcLengthOverrun
  {
    if k == 0 then
      Ok(Walk([lines[0].a], Cursor(0, lines[0].a)))
    else
      match Run(norm, lines, step, k - 1)
      case Err(e) => Err(e)
      case Ok(w) =>
        match Step(norm, lines, step, w.cursor)
        case Err(e) => Err(e)
        case Ok(c) => Ok(Walk(w.points + [c.lastPoint], c))
  }

  /** `p` lies on one of the lines of the polyline. */
  ghost predicate OnPolyline(lines: seq<Line>, p: Vec)
  {
    exists j :: 0 <= j < |lines| && OnLine(lines[j], p)
  }

  /** Once the inner loop is short of `step` by more than Epsilon even with
      every remaining line added, it reads past the last line. */
  lemma {:induction false} AdvanceOverruns(norm: Vec -> real, lines: seq<Line>, step: real, lastLine: nat, localLength: real)
    requires IsNorm(norm)
    requires lastLine < |lines|
    requires step - (localLength + Prefix(norm, lines, |lines|) - Prefix(norm, lines, lastLine + 1)) > Epsilon
    ensures Advance(norm, lines, step, lastLine, localLength) == Err(ArcLengthOverrun)
    decreases |lines| - lastLine
  {
    PrefixMonotone(norm, lines, lastLine + 1, |lines|);
    if lastLine + 1 < |lines| {
      AdvanceOverruns(norm, lines, step, lastLine + 1, localLength + Len(norm, lines[lastLine + 1]));
    }
  }

  lemma FractionBounds(d: real, len: real)
    requires 0.0 < d <= len
    ensures 0.0 < d / len <= 1.0
    ensures d < len ==> d / len < 1.0
    ensures d / len * len == d
  {
  }

  /** The two outcomes of one iteration. Overshoot: the new point is
      t*A + (1-t)*B on the line the inner loop reached, with 0 < t <= 1 (and
      t < 1 when the inner loop took at least one line), the line index stays,
      and the cursor has advanced by exactly `step` of arc length. Otherwise:
      the new point is that line's end B, the line index moves on by one, and
      the cursor has advanced by `step` give or take Epsilon. */
  lemma StepOutcome(norm: Vec -> real, lines: seq<Line>, step: real, c: Cursor, reach: Reach)
    requires IsNorm(norm) && Connected(lines) && 0.0 <= step
    requires Placed(norm, lines, c) && c.lastLine < |lines|
    requires Advance(norm, lines, step, c.lastLine, Len(norm, Line(c.lastPoint, lines[c.lastLine].b))) == Ok(reach)
    ensures reach.localLength - step > Epsilon ==>
              var line := lines[reach.lastLine];
              var t := (reach.localLength - step) / Len(norm, line);
              0.0 < Len(norm, line) && 0.0 < t <= 1.0 && (c.lastLine < reach.lastLine ==> t < 1.0) &&
              Step(norm, lines, step, c) == Ok(Cursor(reach.lastLine, Lerp(line, t))) &&
              ArcPos(norm, lines, Cursor(reach.lastLine, Lerp(line, t))) == ArcPos(norm, lines, c) + step
    ensures reach.localLength - step <= Epsilon ==>
              var next := Cursor(reach.lastLine + 1, lines[reach.lastLine].b);
              Step(norm, lines, step, c) == Ok(next) &&
              ArcPos(norm, lines, next) == Prefix(norm, lines, reach.lastLine + 1) &&
              ArcPos(norm, lines, c) + step - Epsilon <= ArcPos(norm, lines, next) <= ArcPos(norm, lines, c) + step + Epsilon
  {
    if reach.localLength - step > Epsilon {
      StepOvershoot(norm, lines, step, c, reach);
    } else {
      StepSnap(norm, lines, step, c, reach);
    }
  }

  lemma StepOvershoot(norm: Vec -> real, lines: seq<Line>, step: real, c: Cursor, reach: Reach)
    requires IsNorm(norm) && Connected(lines) && 0.0 <= step
    requires Placed(norm, lines, c) && c.lastLine < |lines|
    requires Advance(norm, lines, step, c.lastLine, Len(norm, Line(c.lastPoint, lines[c.lastLine].b))) == Ok(reach)
    requires reach.localLength - step > Epsilon
    ensures var line := lines[reach.lastLine];
            var t := (reach.localLength - step) / Len(norm, line);
            0.0 < Len(norm, line) && 0.0 < t <= 1.0 && (c.lastLine < reach.lastLine ==> t < 1.0) &&
            Step(norm, lines, step, c) == Ok(Cursor(reach.lastLine, Lerp(line, t))) &&
            ArcPos(norm, lines, Cursor(reach.lastLine, Lerp(line, t))) == ArcPos(norm, lines, c) + step
  {
    var line := lines[reach.lastLine];
    FractionBounds(reach.localLength - step, Len(norm, line));
    LerpLen(norm, line, (reach.localLength - step) / Len(norm, line));
  }

  lemma StepSnap(norm: Vec -> real, lines: seq<Line>, step: real, c: Cursor, reach: Reach)
    requires IsNorm(norm) && Connected(lines) && 0.0 <= step
    requires Placed(norm, lines, c) && c.lastLine < |lines|
    requires Advance(norm, lines, step, c.lastLine, Len(norm, Line(c.lastPoint, lines[c.lastLine].b))) == Ok(reach)
    requires reach.localLength - step <= Epsilon
    ensures var next := Cursor(reach.lastLine + 1, lines[reach.lastLine].b);
            Step(norm, lines, step, c) == Ok(next) &&
            ArcPos(norm, lines, next) == Prefix(norm, lines, reach.lastLine + 1) &&
            ArcPos(norm, lines, c) + step - Epsilon <= ArcPos(norm, lines, next) <= ArcPos(norm, lines, c) + step + Epsilon
  {
    var j := reach.lastLine;
    if j + 1 < |lines| {
      assert lines[j].b == lines[j + 1].a;
      assert Line(lines[j].b, lines[j + 1].b) == lines[j + 1];
    }
  }

  /** Each iteration advances the cursor by `step` of arc length, give or take
      Epsilon. */
  lemma StepArc(norm: Vec -> real, lines: seq<Line>, step: real, c: Cursor)
    requires IsNorm(norm) && Connected(lines) && 0.0 <= step && Placed(norm, lines, c)
    requires Step(norm, lines, step, c).Ok?
    ensures step - Epsilon <= ArcPos(norm, lines, Step(norm, lines, step, c).value) - ArcPos(norm, lines, c) <= step + Epsilon
  {
    var reach := Advance(norm, lines, step, c.lastLine, Len(norm, Line(c.lastPoint, lines[c.lastLine].b))).value;
    StepOutcome(norm, lines, step, c, reach);
  }

  /** An iteration reads past the end of the line list exactly when the cursor
      is already past the last line, or less than `step` minus Epsilon of arc
      length is left after it. */
  lemma StepOverrunIff(norm: Vec -> real, lines: seq<Line>, step: real, c: Cursor)
    requires IsNorm(norm) && Connected(lines) && 0.0 <= step && Placed(norm, lines, c)
    ensures Step(norm, lines, step, c).Err? <==>
              c.lastLine == |lines| || ArcPos(norm, lines, c) + step - Epsilon > Prefix(norm, lines, |lines|)
  {
    if c.lastLine < |lines| && ArcPos(norm, lines, c) + step - Epsilon > Prefix(norm, lines, |lines|) {
      AdvanceOverruns(norm, lines, step, c.lastLine, Len(norm, Line(c.lastPoint, lines[c.lastLine].b)));
    }
  }

  /** Run(k + 1) is Run(k) followed by one more iteration. */
  lemma RunNext(norm: Vec -> real, lines: seq<Line>, step: real, k: nat, w: Walk)
    requires IsNorm(norm) && Connected(lines) && 0 < |lines| && 0.0 <= step
    requires Run(norm, lines, step, k) == Ok(w)
    ensures Placed(norm, lines, w.cursor)
    ensures Run(norm, lines, step, k + 1) ==
              match Step(norm, lines, step, w.cursor)
              case Err(e) => Err(e)
              case Ok(c) => Ok(Walk(w.points + [c.lastPoint], c))
  {
  }

  /** Failures are final: once an iteration overruns, every longer run does. */
  lemma {:induction false} RunErrPersists(norm: Vec -> real, lines: seq<Line>, step: real, i: nat, n: nat)
    requires IsNorm(norm) && Connected(lines) && 0 < |lines| && 0.0 <= step
    requires i <= n && Run(norm, lines, step, i).Err?
    ensures Run(norm, lines, step, n) == Err(ArcLengthOverrun)
  {
    if i < n {
      RunErrPersists(norm, lines, step, i, n - 1);
    }
  }

  /** `pos` is k*step along, give or take k*Epsilon. */
  ghost predicate Within(k: nat, step: real, pos: real)
  {
    k as real * (step - Epsilon) <= pos <= k as real * (step + Epsilon)
  }

  lemma AccumulateBounds(k: nat, step: real, before: real, after: real)
    requires 0 < k && Within(k - 1, step, before)
    requires step - Epsilon <= after - before <= step + Epsilon
    ensures Within(k, step, after)
  {
    var m, lo, hi := (k - 1) as real, step - Epsilon, step + Epsilon;
    assert k as real * lo == m * lo + lo;
    assert k as real * hi == m * hi + hi;
    assert m * lo <= before <= m * hi;
    assert k as real * lo <= after <= k as real * hi;
  }

  /** After k iterations the cursor is k*step along the polyline, give or take
      k*Epsilon: the emitted points are spaced by equal arc length up to the
      tolerance. */
  lemma {:induction false} RunArc(norm: Vec -> real, lines: seq<Line>, step: real, k: nat)
    requires IsNorm(norm) && Connected(lines) && 0 < |lines| && 0.0 <= step
    requires Run(norm, lines, step, k).Ok?
    ensures Within(k, step, ArcPos(norm, lines, Run(norm, lines, step, k).value.cursor))
  {
    if k == 0 {
      assert Line(lines[0].a, lines[0].b) == lines[0];
      assert Prefix(norm, lines, 1) == Len(norm, lines[0]);
      assert Run(norm, lines, step, k).value.cursor == Cursor(0, lines[0].a);
    } else {
      RunArc(norm, lines, step, k - 1);
      var c := Run(norm, lines, step, k - 1).value.cursor;
      StepArc(norm, lines, step, c);
      var next := Step(norm, lines, step, c).value;
      assert Run(norm, lines, step, k).value.cursor == next;
      AccumulateBounds(k, step, ArcPos(norm, lines, c), ArcPos(norm, lines, next));
    }
  }

  /** Every cursor a step produces lies on the polyline. */
  lemma StepOnPolyline(norm: Vec -> real, lines: seq<Line>, step: real, c: Cursor)
    requires IsNorm(norm) && Connected(lines) && 0.0 <= step
    requires Placed(norm, lines, c)
    requires Step(norm, lines, step, c).Ok?
    ensures OnPolyline(lines, Step(norm, lines, step, c).value.lastPoint)
  {
    var reach := Advance(norm, lines, step, c.lastLine, Len(norm, Line(c.lastPoint, lines[c.lastLine].b))).value;
    StepOutcome(norm, lines, step, c, reach);
    var line := lines[reach.lastLine];
    if reach.localLength - step > Epsilon {
      var t := (reach.localLength - step) / Len(norm, line);
      assert OnLine(line, Lerp(line, t));
    } else {
      LerpEnds(line);
      assert OnLine(line, Lerp(line, 0.0));
    }
  }

  /** Every point of the walk lies on the polyline. */
  lemma {:induction false} RunOnPolyline(norm: Vec -> real, lines: seq<Line>, step: real, k: nat)
    requires IsNorm(norm) && Connected(lines) && 0 < |lines| && 0.0 <= step
    requires Run(norm, lines, step, k).Ok?
    ensures forall i :: 0 <= i < |Run(norm, lines, step, k).value.points| ==>
              OnPolyline(lines, Run(norm, lines, step, k).value.points[i])
  {
    if k == 0 {
      LerpEnds(lines[0]);
      assert OnLine(lines[0], lines[0].a);
    } else {
      var w := Run(norm, lines, step, k - 1).value;
      RunOnPolyline(norm, lines, step, k - 1);
      StepOnPolyline(norm, lines, step, w.cursor);
      assert Run(norm, lines, step, k).value.points == w.points + [Step(norm, lines, step, w.cursor).value.lastPoint];
    }
  }

  /** The cursor's point lies on the line it is on (a cursor past the last
      line is the polyline's end, by Placed). */
  ghost predicate OnItsLine(lines: seq<Line>, c: Cursor)
  {
    c.lastLine < |lines| ==> OnLine(lines[c.lastLine], c.lastPoint)
  }

  /** An iteration leaves the cursor on the line it names: the interpolated
      point is on the reached line, and a snapped point, the end of one line,
      is the start of the next. */
  lemma StepOnItsLine(norm: Vec -> real, lines: seq<Line>, step: real, c: Cursor)
    requires IsNorm(norm) && Connected(lines) && 0.0 <= step
    requires Placed(norm, lines, c)
    requires Step(norm, lines, step, c).Ok?
    ensures OnItsLine(lines, Step(norm, lines, step, c).value)
  {
    var reach := Advance(norm, lines, step, c.lastLine, Len(norm, Line(c.lastPoint, lines[c.lastLine].b))).value;
    var line := lines[reach.lastLine];
    if reach.localLength - step > Epsilon {
      StepOvershoot(norm, lines, step, c, reach);
      assert OnLine(line, Lerp(line, (reach.localLength - step) / Len(norm, line)));
    } else {
      StepSnap(norm, lines, step, c, reach);
      var j := reach.lastLine;
      if j + 1 < |lines| {
        LerpEnds(lines[j + 1]);
        assert lines[j].b == lines[j + 1].a;
        assert OnLine(lines[j + 1], Lerp(lines[j + 1], 1.0));
      }
    }
  }

  /** A successful run of k iterations is a successful run of k - 1 followed
      by a successful iteration. */
  lemma RunOkPrev(norm: Vec -> real, lines: seq<Line>, step: real, k: nat)
    requires IsNorm(norm) && Connected(lines) && 0 < |lines| && 0.0 <= step
    requires 0 < k && Run(norm, lines, step, k).Ok?
    ensures Run(norm, lines, step, k - 1).Ok?
    ensures Step(norm, lines, step, Run(norm, lines, step, k - 1).value.cursor).Ok?
    ensures var w := Run(norm, lines, step, k - 1).value;
            var c := Step(norm, lines, step, w.cursor).value;
            Run(norm, lines, step, k).value == Walk(w.points + [c.lastPoint], c)
  {
  }

  /** After every successful run the cursor lies on the line it names. */
  lemma RunOnItsLine(norm: Vec -> real, lines: seq<Line>, step: real, k: nat)
    requires IsNorm(norm) && Connected(lines) && 0 < |lines| && 0.0 <= step
    requires Run(norm, lines, step, k).Ok?
    ensures OnItsLine(lines, Run(norm, lines, step, k).value.cursor)
  {
    if k == 0 {
      LerpEnds(lines[0]);
      assert Run(norm, lines, step, k).value.cursor == Cursor(0, lines[0].a);
      assert OnLine(lines[0], Lerp(lines[0], 1.0));
    } else {
      RunOkPrev(norm, lines, step, k);
      StepOnItsLine(norm, lines, step, Run(norm, lines, step, k - 1).value.cursor);
    }
  }

  /** For a point on line j with weight t on its start, ArcPos is the arc
      length to that point: the lengths of the lines before j plus the part
      (1 - t) of line j. */
  lemma {:induction false} ArcPosAtWeight(norm: Vec -> real, lines: seq<Line>, j: nat, t: real)
    requires IsNorm(norm) && j < |lines| && 0.0 <= t <= 1.0
    ensures ArcPos(norm, lines, Cursor(j, Lerp(lines[j], t)))
            == Prefix(norm, lines, j) + (1.0 - t) * Len(norm, lines[j])
  {
    LerpLen(norm, lines[j], t);
  }


  /** step: the arc length each segment should have. Go computes it for every
      numberOfSegments; when numberOfSegments <= 0 the loop never runs and the
      value is never read, so the model uses 0 there. */
  function SegmentStep(norm: Vec -> real, lines: seq<Line>, numberOfSegments: int): (step: real)
    requires IsNorm(norm)
    ensures 0.0 <= step
    ensures 0 < numberOfSegments ==> step * numberOfSegments as real == Prefix(norm, lines, |lines|)
  {
    PrefixMonotone(norm, lines, 0, |lines|);
    if 0 < numberOfSegments then Prefix(norm, lines, |lines|) / numberOfSegments as real else 0.0
  }

  /** getSegmentPoints as a function of its inputs. */
  function SegmentPoints(norm: Vec -> real, points: seq<XY>, numberOfSegments: int): (r: Result<seq<Vec>>)
    requires IsNorm(norm)
    ensures r == Err(InsufficientPoints) <==> |points| < 2
    ensures r.Err? ==> r.error == InsufficientPoints || r.error == ArcLengthOverrun
    ensures r.Ok? ==> |r.value| == (if 0 < numberOfSegments then numberOfSegments else 0) + 1
    ensures r.Ok? ==> r.value[0] == GonumToPixel(points[0])
  {
    var lines := Lines(points);
    if |lines| == 0 then
      Err(InsufficientPoints)
    else
      LinesConnected(points);
      var iterations := if 0 < numberOfSegments then numberOfSegments else 0;
      match Run(norm, lines, SegmentStep(norm, lines, numberOfSegments), iterations)
      case Err(e) => Err(e)
      case Ok(w) => Ok(w.points)
  }

  /** The cursor never passes the polyline's end. */
  lemma ArcPosBounds(norm: Vec -> real, lines: seq<Line>, c: Cursor)
    requires IsNorm(norm) && Placed(norm, lines, c)
    ensures 0.0 <= ArcPos(norm, lines, c) <= Prefix(norm, lines, |lines|)
  {
    PrefixMonotone(norm, lines, 0, |lines|);
    if c.lastLine < |lines| {
      PrefixMonotone(norm, lines, c.lastLine, |lines|);
      PrefixMonotone(norm, lines, c.lastLine + 1, |lines|);
    }
  }

  lemma WithinAtEnd(n: nat, step: real, total: real, pos: real)
    requires 0 < n && step * n as real == total && Within(n, step, pos)
    ensures total - n as real * Epsilon <= pos
  {
  }

  /** With n >= 1 segments of length step, a walk that does not overrun ends
      within n*Epsilon of arc length before the polyline's end. */
  lemma EndsNearPolylineEnd(norm: Vec -> real, lines: seq<Line>, step: real, n: nat)
    requires IsNorm(norm) && Connected(lines) && 0 < |lines| && 0.0 <= step
    requires 0 < n && step * n as real == Prefix(norm, lines, |lines|)
    requires Run(norm, lines, step, n).Ok?
    ensures Prefix(norm, lines, |lines|) - n as real * Epsilon <= ArcPos(norm, lines, Run(norm, lines, step, n).value.cursor)
    ensures ArcPos(norm, lines, Run(norm, lines, step, n).value.cursor) <= Prefix(norm, lines, |lines|)
  {
    RunArc(norm, lines, step, n);
    var c := Run(norm, lines, step, n).value.cursor;
    ArcPosBounds(norm, lines, c);
    WithinAtEnd(n, step, Prefix(norm, lines, |lines|), ArcPos(norm, lines, c));
  }

  /** The least index from m on whose prefix sum reaches `bound`, or the
      number of lines if none before it does. */
  function FirstReaching(norm: Vec -> real, lines: seq<Line>, bound: real, m: nat): (r: nat)
    requires 1 <= m <= |lines|
    ensures m <= r <= |lines|
    ensures r < |lines| ==> bound <= Prefix(norm, lines, r)
    ensures forall i :: m <= i < r ==> Prefix(norm, lines, i) < bound
    decreases |lines| - m
  {
    if m == |lines| || bound <= Prefix(norm, lines, m) then m
    else FirstReaching(norm, lines, bound, m + 1)
  }

  /** The inner loop started at the end of line j, with everything up to it
      accumulated, stops on the first line whose end is within Epsilon of
      `step`; it does not overrun when the whole polyline reaches that far. */
  lemma {:induction false} AdvanceFromStart(norm: Vec -> real, lines: seq<Line>, step: real, j: nat)
    requires j < |lines|
    requires step - Prefix(norm, lines, |lines|) <= Epsilon
    ensures var m := FirstReaching(norm, lines, step - Epsilon, j + 1);
            Advance(norm, lines, step, j, Prefix(norm, lines, j + 1)) == Ok(Reach(m - 1, Prefix(norm, lines, m)))
    decreases |lines| - j
  {
    if step - Prefix(norm, lines, j + 1) > Epsilon {
      AdvanceFromStart(norm, lines, step, j + 1);
    }
  }

  /** A single segment snaps to the end of the first line whose end is within
      Epsilon of the polyline's end. */
  lemma SingleSegmentRun(norm: Vec -> real, lines: seq<Line>, total: real)
    requires IsNorm(norm) && Connected(lines) && 0 < |lines|
    requires total == Prefix(norm, lines, |lines|)
    ensures 0.0 <= total
    ensures var m := FirstReaching(norm, lines, total - Epsilon, 1);
            Run(norm, lines, total, 1) == Ok(Walk([lines[0].a, lines[m - 1].b], Cursor(m, lines[m - 1].b)))
  {
    PrefixMonotone(norm, lines, 0, |lines|);
    var c := Cursor(0, lines[0].a);
    assert Line(lines[0].a, lines[0].b) == lines[0];
    assert Prefix(norm, lines, 1) == Len(norm, lines[0]);
    assert Placed(norm, lines, c);
    AdvanceFromStart(norm, lines, total, 0);
    var m := FirstReaching(norm, lines, total - Epsilon, 1);
    var reach := Reach(m - 1, Prefix(norm, lines, m));
    assert Advance(norm, lines, total, 0, Len(norm, Line(c.lastPoint, lines[0].b))) == Ok(reach);
    PrefixMonotone(norm, lines, m, |lines|);
    StepSnap(norm, lines, total, c, reach);
    var next := Cursor(m, lines[m - 1].b);
    assert Step(norm, lines, total, c) == Ok(next);
    var w := Walk([lines[0].a], c);
    assert Run(norm, lines, total, 0) == Ok(w);
    RunNext(norm, lines, total, 0, w);
    assert w.points + [next.lastPoint] == [lines[0].a, lines[m - 1].b];
  }

  /** When the last line is longer than Epsilon, no earlier line end is within
      Epsilon of the polyline's end. */
  lemma {:induction false} FirstReachingLast(norm: Vec -> real, lines: seq<Line>, m: nat)
    requires IsNorm(norm) && 1 <= m <= |lines|
    requires Len(norm, lines[|lines| - 1]) > Epsilon
    ensures FirstReaching(norm, lines, Prefix(norm, lines, |lines|) - Epsilon, m) == |lines|
    decreases |lines| - m
  {
    if m < |lines| {
      PrefixMonotone(norm, lines, m, |lines| - 1);
      FirstReachingLast(norm, lines, m + 1);
    }
  }

  /** getSegmentPoints with at least one segment returns the points the walk over the polyline's lines collects. */
  lemma SegmentPointsWalk(norm: Vec -> real, points: seq<XY>, n: int)
    requires IsNorm(norm) && 2 <= |points| && 0 < n
    ensures var lines := Lines(points);
            Connected(lines) && 0 < |lines| &&
            (Run(norm, lines, SegmentStep(norm, lines, n), n).Ok? ==>
               SegmentPoints(norm, points, n) == Ok(Run(norm, lines, SegmentStep(norm, lines, n), n).value.points))
  {
    LinesConnected(points);
  }

  /** One segment never overruns. It returns the first point and the end of
      the first line whose end is within Epsilon of arc length of the
      polyline's end: the last point when the last line is longer than
      Epsilon, and an earlier point otherwise. */
  lemma SingleSegment(norm: Vec -> real, points: seq<XY>)
    requires IsNorm(norm) && 2 <= |points|
    ensures var lines := Lines(points);
            var m := FirstReaching(norm, lines, Prefix(norm, lines, |lines|) - Epsilon, 1);
            SegmentPoints(norm, points, 1) == Ok([GonumToPixel(points[0]), GonumToPixel(points[m])])
  {
    var lines := Lines(points);
    SegmentPointsWalk(norm, points, 1);
    var total := Prefix(norm, lines, |lines|);
    SingleSegmentRun(norm, lines, total);
    assert SegmentStep(norm, lines, 1) == total;
    var m := FirstReaching(norm, lines, total - Epsilon, 1);
    assert SegmentPoints(norm, points, 1) == Ok([lines[0].a, lines[m - 1].b]);
    assert lines[0].a == GonumToPixel(points[0]);
    assert lines[m - 1].b == GonumToPixel(points[m]);
  }

  /** When the last line is longer than Epsilon, one segment joins the first
      point to the last. */
  lemma SingleSegmentLast(norm: Vec -> real, points: seq<XY>)
    requires IsNorm(norm) && 2 <= |points|
    requires Len(norm, Line(GonumToPixel(points[|points| - 2]), GonumToPixel(points[|points| - 1]))) > Epsilon
    ensures SegmentPoints(norm, points, 1) == Ok([GonumToPixel(points[0]), GonumToPixel(points[|points| - 1])])
  {
    var lines := Lines(points);
    assert |lines| == |points| - 1;
    assert lines[|lines| - 1] == Line(GonumToPixel(points[|points| - 2]), GonumToPixel(points[|points| - 1]));
    FirstReachingLast(norm, lines, 1);
    var m := FirstReaching(norm, lines, Prefix(norm, lines, |lines|) - Epsilon, 1);
    assert m == |points| - 1;
    SingleSegment(norm, points);
    assert SegmentPoints(norm, points, 1) == Ok([GonumToPixel(points[0]), GonumToPixel(points[m])]);
  }

  /** The inner loop: walks forward from line `lastLine` with `localLength`
      left on it, adding whole lines until the length reaches the step minus
      Epsilon; reading past the last line is an overrun. */
  method ReachStep(norm: Vec -> real, lines: seq<Line>, step: real, lastLine: nat, localLength: real)
    returns (r: Result<Reach>)
    requires lastLine < |lines|
    ensures r == Advance(norm, lines, step, lastLine, localLength)
  {
    var length := localLength;
    var reached := lastLine;
    while step - length > Epsilon
      invariant lastLine <= reached < |lines|
      invariant Advance(norm, lines, step, lastLine, localLength)
                == Advance(norm, lines, step, reached, length)
      decreases |lines| - reached
    {
      if reached + 1 == |lines| {
        return Err(ArcLengthOverrun);
      }
      var line := lines[reached + 1];
      length := length + Len(norm, line);
      reached := reached + 1;
    }
    r := Ok(Reach(reached, length));
  }

  /** One iteration of the outer loop of getSegmentPoints, from the cursor
      (lastLine, lastPoint): the inner loop, then the overshoot or snap branch. */
  method NextPoint(norm: Vec -> real, lines: seq<Line>, step: real, lastLine: nat, lastPoint: Vec)
    returns (r: Result<Cursor>)
    requires IsNorm(norm) && Connected(lines) && 0.0 <= step
    requires Placed(norm, lines, Cursor(lastLine, lastPoint))
    ensures r == Step(norm, lines, step, Cursor(lastLine, lastPoint))
  {
    if lastLine == |lines| {
      return Err(ArcLengthOverrun);
    }
    var reach := ReachStep(norm, lines, step, lastLine, Len(norm, Line(lastPoint, lines[lastLine].b)));
    if reach.Err? {
      return Err(reach.error);
    }
    var reached, localLength := reach.value.lastLine, reach.value.localLength;
    var line := lines[reached];
    if localLength - step > Epsilon {
      StepOvershoot(norm, lines, step, Cursor(lastLine, lastPoint), reach.value);
      var difference := localLength - step;
      var t := difference / Len(norm, line);
      r := Ok(Cursor(reached, Lerp(line, t)));
    } else {
      StepSnap(norm, lines, step, Cursor(lastLine, lastPoint), reach.value);
      r := Ok(Cursor(reached + 1, line.b));
    }
  }

  /** The outer loop of getSegmentPoints: emits the first point of the
      polyline, then one point per iteration. */
  method WalkPolyline(norm: Vec -> real, lines: seq<Line>, step: real, iterations: nat)
    returns (r: Result<seq<Vec>>)
    requires IsNorm(norm) && Connected(lines) && 0 < |lines| && 0.0 <= step
    ensures r == match Run(norm, lines, step, iterations)
                 case Err(e) => Err(e)
                 case Ok(w) => Ok(w.points)
  {
    var segmentPoints := [];
    var lastLine: nat := 0;
    var lastPoint := lines[0].a;
    segmentPoints := segmentPoints + [lastPoint];
    assert segmentPoints == [lines[0].a];
    assert Run(norm, lines, step, 0) == Ok(Walk(segmentPoints, Cursor(lastLine, lastPoint)));
    var i: nat := 0;
    while i < iterations
      invariant i <= iterations
      invariant Run(norm, lines, step, i) == Ok(Walk(segmentPoints, Cursor(lastLine, lastPoint)))
    {
      ghost var before := Walk(segmentPoints, Cursor(lastLine, lastPoint));
      var next := NextPoint(norm, lines, step, lastLine, lastPoint);
      RunNext(norm, lines, step, i, before);
      if next.Err? {
        RunErrPersists(norm, lines, step, i + 1, iterations);
        return Err(ArcLengthOverrun);
      }
      lastLine, lastPoint := next.value.lastLine, next.value.lastPoint;
      segmentPoints := segmentPoints + [lastPoint];
      i := i + 1;
    }
    r := Ok(segmentPoints);
  }

  /** getSegmentPoints: builds the polyline, sums its length and walks it
      once, emitting a point per segment. */
  method GetSegmentPoints(norm: Vec -> real, points: seq<XY>, numberOfSegments: int)
    returns (r: Result<seq<Vec>>)
    requires IsNorm(norm)
    ensures r == SegmentPoints(norm, points, numberOfSegments)
    ensures r.Ok? ==> |r.value| == (if 0 < numberOfSegments then numberOfSegments else 0) + 1
    ensures r.Ok? ==> r.value[0] == GonumToPixel(points[0])
  {
    var lines := BuildLines(points);
    var length := TotalLength(norm, lines);
    var step := if 0 < numberOfSegments then length / numberOfSegments as real else 0.0;
    if |lines| == 0 {
      return Err(InsufficientPoints);
    }
    LinesConnected(points);
    assert step == SegmentStep(norm, lines, numberOfSegments);
    r := WalkPolyline(norm, lines, step, if 0 < numberOfSegments then numberOfSegments else 0);
  }
}
