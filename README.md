# Segmented curve: equal-arc-length resampling of a polyline

The segmented-curve program samples a Bézier curve into a list of points and
then calls `getSegmentPoints(points, numberOfSegments)`, which re-samples the
polyline through those points into `numberOfSegments` pieces of (nearly)
equal arc length. This project models that function and its helper
`gonumToPixel` and proves what they compute.

`getSegmentPoints` works in three steps, and the model keeps them apart:

- `polyline.dfy` (module `Polyline`): building one line per pair of
  consecutive points (`BuildLines`, specified by `Lines`), and summing the
  line lengths (`TotalLength`, specified by the prefix sums `Prefix`).
- `segmenter.dfy` (module `Segmenter`): the walk. A cursor (`lastLine`,
  `lastPoint`) moves forward along the polyline. Each iteration of the outer
  loop runs the inner loop, which takes whole lines while the accumulated
  `localLength` is more than `Epsilon` (0.001) short of `step`. It then
  either interpolates back along the line it reached (overshoot by more than
  `Epsilon`) or snaps to that line's end and moves on to the next line.
  - `Advance`, `Step` and `Run` are the loops as functions.
  - `ReachStep`, `NextPoint`, `WalkPolyline` and `GetSegmentPoints` are the
    loops as methods, each proved equal to its function.
  - `SegmentPoints` is the whole function on its inputs.
- `geometry.dfy` (module `Geometry`): the vectors and lines, and the
  interpolation `t*A + (1-t)*B`.
- `overrun.dfy` (module `Overrun`): the two inputs that make the walk index
  past the end of its line list (see Findings), and a corrected walk that
  stops at the polyline's end.
- `endgap.dfy` (module `EndGap`): an input on which the walk succeeds and
  still ends more than `Epsilon` before the polyline's end.

Go's `float64` is modelled as `real`, so all arithmetic is exact. `Line.Len()`
is a square root. The model takes the length function as a parameter `norm`
and assumes only two properties of it (`IsNorm`): it is never negative, and
scaling a vector by `c >= 0` scales its length by `c`. The Euclidean length
has both properties.

The program indexes a slice out of range in three places, and each panics.
The model turns each into an error result:

- `lines[0]` with fewer than two points (main.go:58) becomes `InsufficientPoints`.
- `lines[lastLine]` after the last line (main.go:63) becomes `ArcLengthOverrun`.
- `lines[lastLine+1]` in the inner loop (main.go:69) becomes `ArcLengthOverrun`.

`ArcPos` measures the cursor as an arc length from the polyline's start.
Every cursor the walk reaches lies on its line `lines[lastLine]`
(`RunOnItsLine`), and a point `t*A + (1-t)*B` on line `j` is exactly the
lengths of the lines before `j` plus `(1-t)` of line `j` along
(`ArcPosAtWeight`).

Along the walk, `ArcPos` grows as follows:

- An overshoot iteration advances it by exactly `step`.
- A snap advances it by `step` give or take `Epsilon`.
- So after `k` iterations the cursor is `k*step` along, give or take
  `k*Epsilon`.

A walk that does not fail ends at most `n*Epsilon` of arc length before the
polyline's end, and that bound, not `Epsilon`, is the one that holds
(`EndGap.EndsShortOfEnd`). The interpolation points the right way: with the
weight `t` on the start `A` of the line, the new point lies `t*Len` before the
line's end `B`, which is exactly the overshoot.

## Model

| member | source | states |
|---|---|---|
| Polyline.GonumToPixel | main.go:28-30 | the pixel vector has the plotter point's X and Y unchanged |
| Polyline.BuildLines | main.go:35-42 | the loop yields max(len(points)-1, 0) lines, and line i runs from points[i] to points[i+1] |
| Polyline.LinesConnected | main.go:37-41 | consecutive lines share an end point: line i ends where line i+1 starts |
| Polyline.TotalLength | main.go:47-51 | the summing loop returns the sum of all line lengths, which is never negative |
| Polyline.PrefixMonotone | main.go:47-51 | partial sums of line lengths are non-negative and never decrease as more lines are added |
| Segmenter.SegmentStep | main.go:55 | for numberOfSegments > 0, step times numberOfSegments is the total length, and step is non-negative |
| Segmenter.Advance | main.go:68-74 | on exit the length is at most Epsilon short of step and is the start length plus the lengths of the lines taken; every line taken was needed; an ArcLengthOverrun means even all remaining lines leave it more than Epsilon short |
| Segmenter.AdvanceOverruns | main.go:68-69 | if even every remaining line leaves the length more than Epsilon short of step, the inner loop reads past the last line |
| Segmenter.ReachStep | main.go:66-74 | the inner loop as written returns what Advance specifies, including the overrun at the last line |
| Segmenter.Step | main.go:63-87 | one iteration leaves the cursor no farther from its line's end than that line is long (or at the polyline's end past the last line) and never moves lastLine backwards; its only failure is ArcLengthOverrun |
| Segmenter.StepOutcome | main.go:76-87 | an iteration either interpolates on the reached line (overshoot) or snaps to that line's end and advances lastLine by one |
| Segmenter.StepOvershoot | main.go:78-83 | on overshoot the point is t*A + (1-t)*B with t = overshoot/Len in (0, 1], t < 1 if the inner loop ran, lastLine unchanged, and the arc position grows by exactly step |
| Segmenter.StepSnap | main.go:84-87 | otherwise the point is the line's end B, lastLine grows by one, and the arc position grows by step give or take Epsilon |
| Segmenter.StepArc | main.go:63-87 | a successful iteration advances the cursor by between step - Epsilon and step + Epsilon of arc length |
| Segmenter.StepOverrunIff | main.go:63-74 | an iteration overruns if and only if the cursor is past the last line, or less than step - Epsilon of arc length is left after it |
| Segmenter.StepOnPolyline | main.go:76-87 | the point an iteration emits lies on one of the polyline's lines |
| Segmenter.Run | main.go:56-90 | k successful iterations emit k+1 points, the first being the first line's start and the last the cursor's point |
| Segmenter.RunNext | main.go:61-90 | k+1 iterations are k iterations followed by one more |
| Segmenter.RunErrPersists | main.go:61-90 | once an iteration overruns, every run with more iterations overruns |
| Segmenter.RunArc | main.go:61-90 | after k iterations the cursor is between k*(step - Epsilon) and k*(step + Epsilon) along the polyline |
| Segmenter.RunOnPolyline | main.go:56-90 | every emitted point lies on the polyline |
| Segmenter.ArcPosBounds | main.go:63-87 | a cursor's arc position lies between 0 and the total length |
| Segmenter.EndsNearPolylineEnd | main.go:53-90 | with n >= 1 segments, a walk that does not overrun ends between total - n*Epsilon and total along the polyline |
| Segmenter.SegmentPoints | main.go:32-93 | fails with InsufficientPoints exactly when there are fewer than two points and otherwise only with ArcLengthOverrun; a result has max(numberOfSegments, 0)+1 points, starting at points[0] |
| Segmenter.SegmentPointsWalk | main.go:53-92 | with two or more points and at least one segment, a walk that does not overrun is what getSegmentPoints returns |
| Segmenter.SingleSegment | main.go:55-90 | with two or more points and one segment the walk never overruns; it returns points[0] and points[m], where line m-1 is the first line whose end is within Epsilon of arc length of the polyline's end |
| Segmenter.SingleSegmentLast | main.go:55-90 | with one segment and a last line longer than Epsilon, the result is exactly the first and the last point |
| Segmenter.SingleSegmentRun | main.go:55-90 | with step equal to the total length, one iteration snaps to the end of line m-1 and the cursor moves to line m |
| Segmenter.FirstReaching | main.go:68-74 | the index it returns is the least one from m on whose prefix length reaches the bound, or the line count if none does |
| Segmenter.AdvanceFromStart | main.go:68-74 | when step exceeds the total length by at most Epsilon, the inner loop from line j stops at the first line whose end is within Epsilon of step, with the prefix length up to it |
| Segmenter.FirstReachingLast | main.go:68-74 | when the last line is longer than Epsilon, no earlier line end is within Epsilon of the total length, so the search reaches the last line |
| Segmenter.StepOnItsLine | main.go:76-87 | the cursor an iteration leaves lies on its line lines[lastLine] whenever lastLine is still in range |
| Segmenter.RunOnItsLine | main.go:56-90 | after every successful run the cursor's point lies on its line lines[lastLine] whenever lastLine is in range |
| Segmenter.ArcPosAtWeight | main.go:76-83 | the point with weight t on line j lies the prefix length up to j plus (1 - t) times line j's length along the polyline |
| Segmenter.RunOkPrev | main.go:61-90 | a successful run of k iterations is a successful run of k-1 followed by a successful iteration |
| Segmenter.NextPoint | main.go:61-89 | one iteration of the outer loop as written computes Step |
| Segmenter.WalkPolyline | main.go:56-92 | the outer loop as written computes Run's points, or its overrun |
| Segmenter.GetSegmentPoints | main.go:32-93 | the whole function as written computes SegmentPoints, so it returns max(numberOfSegments, 0)+1 points, starting at points[0] |
| Geometry.LerpLen | main.go:79-83 | the point t*A + (1-t)*B lies t*Len(line) before the line's end B |
| Geometry.LerpEnds | main.go:82-85 | weight 1 gives the line's start A and weight 0 gives its end B |
| Overrun.SnapStep | main.go:84-87 | an iteration whose start line alone is within Epsilon of step snaps to that line's end |
| Overrun.ShortLastStep | main.go:68-69 | an iteration on the last line that is more than Epsilon short of step reads past the end |
| Overrun.InnerLoopLines | main.go:37-51 | the lines through (0,0), (1.0008,0), (2.0016,0), (3,0) are connected and their prefix lengths are 1.0008, 2.0016 and 3 |
| Overrun.InnerLoopFirst | main.go:61-89 | on those lines with step 1 the first iteration snaps to the end of the first line |
| Overrun.InnerLoopSecond | main.go:61-89 | the second iteration snaps to the end of the second line |
| Overrun.InnerLoopThird | main.go:63-69 | the third iteration starts on the last line, 0.0016 short of step, and overruns |
| Overrun.InnerLoopRun | main.go:61-74 | on lines of lengths 1.0008, 1.0008 and 0.9984 with step 1, the third iteration overruns |
| Overrun.InnerLoopOverrun | main.go:68-69 | getSegmentPoints on (0,0), (1.0008,0), (2.0016,0), (3,0) with 3 segments reads lines[3] of three lines |
| Overrun.StartLineLines | main.go:37-51 | the lines through (0,0), (0.00225,0), (0.0045,0) are connected and their prefix lengths are 0.00225 and 0.0045 |
| Overrun.StartLineFirst | main.go:61-89 | on those lines with step 0.0015 the first iteration snaps to the end of the first line |
| Overrun.StartLineSecond | main.go:61-89 | the second iteration snaps to the end of the second line, leaving the cursor past the last line |
| Overrun.StartLineRun | main.go:61-87 | on two lines of length 0.00225 with step 0.0015, the third iteration overruns |
| Overrun.StartLineOverrun | main.go:63-86 | getSegmentPoints on (0,0), (0.00225,0), (0.0045,0) with 3 segments reads lines[2] of two lines |
| Overrun.AdvanceClamped | main.go:68-74 | the corrected inner loop never passes the last line, accumulates exactly the lengths of the lines it takes, takes only lines it needs, and stops at most Epsilon short of step unless it is on the last line |
| Overrun.StepClamped | main.go:63-87 | a corrected iteration leaves the cursor no farther from its line's end than that line is long (or at the polyline's end) and never moves lastLine backwards |
| Overrun.RunClamped | main.go:56-90 | k corrected iterations always emit k+1 points, starting at the first line's start |
| Overrun.SegmentPointsClamped | main.go:32-93 | the corrected function fails only when there are fewer than two points, and otherwise returns max(numberOfSegments, 0)+1 points starting at points[0] |
| Overrun.AdvanceClampedAgrees | main.go:68-74 | where the inner loop succeeds, the corrected one gives the same result; where it overruns, the corrected one stops on the last line |
| Overrun.StepClampedAgrees | main.go:63-87 | where an iteration succeeds, the corrected iteration gives the same cursor |
| Overrun.RunClampedNext | main.go:61-90 | k corrected iterations are k-1 of them followed by one more |
| Overrun.RunClampedAgrees | main.go:56-90 | where the program's walk succeeds, the corrected walk emits the same points and cursor |
| Overrun.SegmentPointsClampedAgrees | main.go:32-93 | on every input the program returns points for, the corrected function returns the same points |
| Overrun.StepClampedArc | main.go:76-87 | a corrected iteration advances at most step + Epsilon, and at least step - Epsilon unless it stops at the polyline's end |
| Overrun.RunClampedArc | main.go:61-90 | after k corrected iterations the cursor is at most k*(step + Epsilon) along, and at least k*(step - Epsilon) along unless it is at the end |
| Overrun.ClampedEndsNearPolylineEnd | main.go:53-90 | with n >= 1 segments, the corrected walk always ends between total - n*Epsilon and total along the polyline |
| EndGap.GapLines | main.go:37-51 | the lines through (0,0), (0.9992,0), (1.9984,0), (2,0) are connected and their prefix lengths are 0.9992, 1.9984 and 2 |
| EndGap.GapFirst | main.go:61-89 | on those lines with step 1 the first iteration is 0.0008 short, within Epsilon, and snaps to the end of the first line |
| EndGap.GapSecond | main.go:61-89 | the second iteration snaps to the end of the second line |
| EndGap.GapRun | main.go:56-90 | two iterations with step 1 succeed and emit the first three points |
| EndGap.GapStep | main.go:47-55 | the total length is 2, so two segments give step 1 |
| EndGap.GapArc | main.go:76-87 | the cursor the walk ends with is 0.0016 of arc length before the polyline's end |
| EndGap.EndsShortOfEnd | main.go:32-93 | getSegmentPoints on (0,0), (0.9992,0), (1.9984,0), (2,0) with 2 segments returns (0,0), (0.9992,0), (1.9984,0): the last point is 0.0016 before the end, more than Epsilon |

## Left out

- `run`, `main` and `handleError` (main.go:95-183) are left out. They create the window, run the draw and event loop and the frame ticker, and panic on errors; all of this is rendering and I/O.
- The Bézier evaluation (`bezier.New`, `curve.Point`) and the sampling loop over `t` are left out. The gonum plotting library is not part of this model; the sampled point list is the model's input.
- Floating-point rounding is not modelled: `float64` is `real`. Only the two norm properties are used, so the square root in `Line.Len()` is not modelled.
- The `subsegments` slice (main.go:62, 65, 70) is not modelled. It is appended to but never read.
- With `numberOfSegments <= 0`, Go divides by zero or by a negative number at main.go:55, giving Inf, NaN or a negative step. The outer loop then never runs and the step is never read. The model uses step 0 in that case, and returns the single first point, as the program does.
- Go's out-of-range panics are modelled as the error results `InsufficientPoints` and `ArcLengthOverrun`, not as a process abort.
- Segmenter.SingleSegment: the result is [first point, last point] only when the last line is longer than Epsilon (`SingleSegmentLast`). Otherwise the second point is the end of the first line that ends within Epsilon of arc length of the polyline's end, which may be an earlier point.
- Segmenter.EndsNearPolylineEnd: the walk is promised to end only within n*Epsilon of arc length of the polyline's end, not within Epsilon. Every snap may fall short of step by up to Epsilon and the shortfalls add up: on (0,0), (0.9992,0), (1.9984,0), (2,0) with 2 segments the last point is 0.0016 before the end (`EndGap.EndsShortOfEnd`).
- Segmenter.RunArc: spacing is stated as arc length along the polyline, not as the straight-line distance between consecutive output points.

## Findings

| source | as written | input that shows it | evidently intended | confidence | as-written member | corrected member |
|---|---|---|---|---|---|---|
| main.go:68-69 | the inner loop reads `lines[lastLine+1]` whenever `localLength` is more than epsilon short of `step`, with no check that another line exists | points (0,0), (1.0008,0), (2.0016,0), (3,0) and 3 segments: step is 1. The first two iterations each snap 0.0008 past the step. The third then has 0.9984 left, 0.0016 short, and reads `lines[3]` of three lines, even in exact arithmetic | the walk stops at the polyline's end and emits numberOfSegments+1 points, the last within numberOfSegments*epsilon of the end | not executed | Overrun.InnerLoopOverrun | Overrun.SegmentPointsClamped |
| main.go:63 | after a snap at the last line increments `lastLine`, the next iteration builds its start line from `lines[lastLine]` with `lastLine == len(lines)` | points (0,0), (0.00225,0), (0.0045,0) and 3 segments: step is 0.0015. Each of the first two iterations overshoots by 0.00075, within epsilon, so it snaps to its line's end. The third reads `lines[2]` of two lines | an explicit ArcLengthOverrun instead of an out-of-range panic: here Epsilon is two thirds of step, so the walk cannot promise to stay near the polyline's end and must report the overrun. The model returns that error exactly when an iteration starts past the last line or has less than step - Epsilon left (`StepOverrunIff`). `SegmentPointsClamped`, which keeps a cursor at the end in place, is an alternative that departs from this error policy and is not the correction for this row | not executed | Overrun.StartLineOverrun | Segmenter.SegmentPoints |
