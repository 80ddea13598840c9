/** Plane geometry used by the slingshot game: points, vectors, the
    axis-aligned rectangles of the canvas and the line segments drawn as
    slingshot bands. Coordinates are exact reals: floating-point rounding
    is not modelled. */
module Geometry {

  /** A position on the canvas. */
  datatype Point = Point(x: real, y: real)

  /** A displacement between two points (a velocity is one per tick). */
  datatype Vector = Vector(dx: real, dy: real)

  /** `p - q`: the displacement that carries `q` to `p`. */
  function Diff(p: Point, q: Point): Vector
  {
    Vector(p.x - q.x, p.y - q.y)
  }

  /** `p + v`: the point `v` moves `p` to. */
  function Translate(p: Point, v: Vector): Point
  {
    Point(p.x + v.dx, p.y + v.dy)
  }

  /** `v * k`. */
  function Scale(v: Vector, k: real): Vector
  {
    Vector(v.dx * k, v.dy * k)
  }

  /** The square of the Euclidean length of `v`. */
  function SquaredLength(v: Vector): real
  {
    v.dx * v.dx + v.dy * v.dy
  }

  function Abs(x: real): real
  {
    if x < 0.0 then -x else x
  }

  /** An axis-aligned rectangle given by its top-left corner and its size. */
  datatype Rect = Rect(left: real, top: real, width: real, height: real)
  {
    function Right(): real { left + width }
    function Bottom(): real { top + height }
  }

  /** Two rectangles overlap when their closed extents meet on both axes;
      rectangles that only touch along an edge or at a corner count. */
  predicate Intersects(a: Rect, b: Rect)
  {
    b.left <= a.Right() && a.left <= b.Right() &&
    b.top <= a.Bottom() && a.top <= b.Bottom()
  }

  /** A line segment from `from` to `to` (the X1/Y1 and X2/Y2 ends). */
  datatype Line = Line(from: Point, to: Point)

  /** Comparing squared lengths decides the same question as comparing
      lengths: a length `d` is at most a radius `r` exactly when `d * d`
      is at most `r * r`. */
  lemma WithinRadius(d: real, r: real, squared: real)
    requires d >= 0.0 && r >= 0.0 && d * d == squared
    ensures d <= r <==> squared <= r * r
  {
    var gap, sum := d - r, d + r;
    assert squared - r * r == gap * sum;
    if d <= r {
      assert gap * sum <= 0.0;
    } else {
      assert gap * sum > 0.0;
    }
  }
}
