/**
 * Points and the small geometric helpers of the editor: squared distances,
 * the circular hit test, the conversion from client to canvas coordinates,
 * the fit-to-wrapper display scale and the two-finger measures
 * (distance, angle, midpoint).
 *
 * Math.sqrt and Math.atan2 are host functions whose floating-point
 * behaviour is not modelled; they are passed in as a `Maths` value.
 */
module Geometry {

  datatype Point = Point(x: real, y: real)

  /** The host's square root and two-argument arc tangent. */
  datatype Maths = Maths(sqrt: real -> real, atan2: (real, real) -> real)

  /** A host square root that behaves like the mathematical one on non-negative reals. */
  ghost predicate IsSqrt(sqrt: real -> real) {
    forall x :: 0.0 <= x ==> 0.0 <= sqrt(x) && sqrt(x) * sqrt(x) == x
  }

  function Max(a: real, b: real): real { if a >= b then a else b }

  function Min(a: real, b: real): real { if a <= b then a else b }

  /** `dx * dx` */
  function Sq(a: real): real { a * a }

  function DistSq(a: Point, b: Point): (d: real)
    ensures 0.0 <= d
  {
    (a.x - b.x) * (a.x - b.x) + (a.y - b.y) * (a.y - b.y)
  }

  /** A point `d` to the right of `c` is at squared distance `d * d`. */
  lemma DistSqAlongX(c: Point, d: real)
    ensures DistSq(Point(c.x + d, c.y), c) == d * d
  {
    var p := Point(c.x + d, c.y);
    var u, v := p.x - c.x, p.y - c.y;
    assert u == d && v == 0.0;
    var uu, vv := u * u, v * v;
    assert uu == d * d && vv == 0.0;
  }

  /** `sqrt(dx*dx + dy*dy) < r`, written without the square root. */
  predicate WithinRadius(p: Point, c: Point, r: real) {
    0.0 < r && DistSq(p, c) < r * r
  }

  /**
   * Comparing squared distances decides the same thing as comparing the
   * distance itself, for any radius > 0: this is why `WithinRadius` models
   * the source's `Math.sqrt(dx * dx + dy * dy) < r`.
   */
  lemma SquaredCompareAgrees(d2: real, s: real, r: real)
    requires 0.0 <= s && s * s == d2 && 0.0 < r
    ensures s < r <==> d2 < r * r
  {
    if s < r {
      SquareStrictMono(s, r);
    } else {
      var p, q, t := r * r, r * s, s * s;
      assert p <= q;
      assert q <= t;
    }
  }

  /** Squaring is strictly increasing on the non-negative reals. */
  lemma SquareStrictMono(a: real, b: real)
    requires 0.0 <= a < b
    ensures a * a < b * b
  {
    var p, q, t := a * a, a * b, b * b;
    assert p <= q;
    assert q < t;
  }

  /** A non-negative root of `d * d` is `d` itself. */
  lemma RootOfSquare(s: real, d: real)
    requires 0.0 <= s && 0.0 <= d && s * s == d * d
    ensures s == d
  {
    if s < d {
      SquareStrictMono(s, d);
    } else if d < s {
      SquareStrictMono(d, s);
    }
  }

  /** A point given in client (page) coordinates, in the canvas's source-image frame. */
  function CanvasCoords(client: Point, rectOrigin: Point, scale: real): (p: Point)
    requires 0.0 < scale
    ensures rectOrigin.x + p.x * scale == client.x && rectOrigin.y + p.y * scale == client.y
  {
    Point((client.x - rectOrigin.x) / scale, (client.y - rectOrigin.y) / scale)
  }

  /**
   * The display scale chosen when an image opens for editing: the largest
   * factor, at most 1, at which an image of `w` by `h` fits a box of
   * `maxW` by `maxH`.
   */
  function FitScale(maxW: real, maxH: real, w: real, h: real): (s: real)
    requires 0.0 < w && 0.0 < h
    ensures s <= 1.0 && s * w <= maxW && s * h <= maxH
    ensures s == 1.0 || s * w == maxW || s * h == maxH
    ensures 0.0 < maxW && 0.0 < maxH ==> 0.0 < s
  {
    Min(Min(maxW / w, maxH / h), 1.0)
  }

  /**
   * Distance between the first two touches, in client pixels: whichever
   * finger is first, and, for a true square root, the Euclidean distance.
   */
  function TouchDistance(t0: Point, t1: Point, math: Maths): (r: real)
    ensures r == math.sqrt(DistSq(t1, t0))
    ensures IsSqrt(math.sqrt) ==> 0.0 <= r && r * r == DistSq(t0, t1)
  {
    assert DistSq(t0, t1) == DistSq(t1, t0);
    math.sqrt(DistSq(t0, t1))
  }

  /** A host arc tangent that gives angle 0 to every vector pointing along the positive x axis. */
  ghost predicate LevelIsZero(atan2: (real, real) -> real) {
    forall x :: 0.0 < x ==> atan2(0.0, x) == 0.0
  }

  /**
   * Angle of the line from the first touch to the second: the host arc
   * tangent of the offset `t1 - t0`, so 0 when the second finger is level
   * with the first and to its right.
   */
  function TouchAngle(t0: Point, t1: Point, math: Maths): (r: real)
    ensures LevelIsZero(math.atan2) && t0.y == t1.y && t0.x < t1.x ==> r == 0.0
  {
    math.atan2(t1.y - t0.y, t1.x - t0.x)
  }

  /** Midpoint of the first two touches. */
  function TouchCenter(t0: Point, t1: Point): (c: Point)
    ensures DistSq(c, t0) == DistSq(c, t1)
    ensures 4.0 * DistSq(c, t0) == DistSq(t0, t1)
  {
    Point((t0.x + t1.x) / 2.0, (t0.y + t1.y) / 2.0)
  }

  function Translate(p: Point, dx: real, dy: real): Point {
    Point(p.x + dx, p.y + dy)
  }

  /**
   * Moving both fingers by the same vector leaves the distance and the angle
   * alone and moves the midpoint by that vector: a two-finger pan does not
   * resize or rotate by itself.
   */
  lemma TouchMeasuresUnderPan(t0: Point, t1: Point, dx: real, dy: real, math: Maths)
    ensures TouchDistance(Translate(t0, dx, dy), Translate(t1, dx, dy), math) == TouchDistance(t0, t1, math)
    ensures TouchAngle(Translate(t0, dx, dy), Translate(t1, dx, dy), math) == TouchAngle(t0, t1, math)
    ensures TouchCenter(Translate(t0, dx, dy), Translate(t1, dx, dy)) == Translate(TouchCenter(t0, t1), dx, dy)
  {
    var a, b := Translate(t0, dx, dy), Translate(t1, dx, dy);
    assert a.x - b.x == t0.x - t1.x && a.y - b.y == t0.y - t1.y;
    assert DistSq(a, b) == DistSq(t0, t1);
    assert b.y - a.y == t1.y - t0.y && b.x - a.x == t1.x - t0.x;
  }
}
