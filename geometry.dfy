/** Plane geometry used by the curve segmenter: the pixel.Vec and pixel.Line
    values of the program, with float64 coordinates modelled as reals. */
module Geometry {

  /** A point (or a difference of points) of the plane. */
  datatype Vec = Vec(x: real, y: real)

  /** A directed straight line from `a` to `b`. */
  datatype Line = Line(a: Vec, b: Vec)

  function Sub(p: Vec, q: Vec): Vec
  {
    Vec(p.x - q.x, p.y - q.y)
  }

  function Scale(c: real, v: Vec): Vec
  {
    Vec(c * v.x, c * v.y)
  }

  /** The point t*A + (1-t)*B of line `l`: the weight `t` is on the START of the
      line, so t = 1 gives A, t = 0 gives B, and growing t moves back towards A. */
  function Lerp(l: Line, t: real): Vec
  {
    Vec(t * l.a.x + (1.0 - t) * l.b.x, t * l.a.y + (1.0 - t) * l.b.y)
  }

  /** The length of a line is a norm of its direction vector. The program uses
      the Euclidean norm (a square root); the model only relies on the two
      properties every norm has: it is never negative, and scaling a vector by
      c >= 0 scales its norm by c (so the zero vector has norm 0). */
  ghost predicate IsNorm(norm: Vec -> real)
  {
    (forall v :: 0.0 <= norm(v)) &&
    (forall c: real, v :: 0.0 <= c ==> norm(Scale(c, v)) == c * norm(v))
  }

  /** Line.Len(): the distance from `a` to `b`. */
  function Len(norm: Vec -> real, l: Line): real
  {
    norm(Sub(l.b, l.a))
  }

  /** `p` lies on the closed line `l`. */
  ghost predicate OnLine(l: Line, p: Vec)
  {
    exists t :: 0.0 <= t <= 1.0 && p == Lerp(l, t)
  }

  lemma LerpEnds(l: Line)
    ensures Lerp(l, 1.0) == l.a && Lerp(l, 0.0) == l.b
  {
  }

  /** The point with weight t on A is at distance t*Len(l) from B: this is what
      makes interpolating with t = overshoot / Len(l) step back by exactly the
      overshoot. */
  lemma LerpLen(norm: Vec -> real, l: Line, t: real)
    requires IsNorm(norm)
    requires 0.0 <= t
    ensures Len(norm, Line(Lerp(l, t), l.b)) == t * Len(norm, l)
  {
    var p := Lerp(l, t);
    assert l.b.x - p.x == t * (l.b.x - l.a.x);
    assert l.b.y - p.y == t * (l.b.y - l.a.y);
    assert Sub(l.b, p) == Scale(t, Sub(l.b, l.a));
  }
}
