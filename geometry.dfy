/**
 * Geometric predicates of the line-segment toolkit: the two orientation
 * tests (with opposite sign conventions), the bounding-box test and the
 * parametric point of a segment.
 *
 * Coordinates are integers, as canvas clicks deliver them.  The parametric
 * construction divides, so its points have exact rational (`real`)
 * coordinates.
 *
 * Besides the functions of `LineSegments.py` this module defines the reference notions
 * the intersection tests are judged against: the signed area `Cross` and the
 * set of points of a closed segment, `OnClosedSegment`.
 */
module Geometry {

  /** A point of the plane with integer coordinates (a canvas click). */
  datatype Point = Point(x: int, y: int)

  /** A point with exact rational coordinates. */
  datatype RealPoint = RealPoint(x: real, y: real)

  function ToReal(p: Point): RealPoint {
    RealPoint(p.x as real, p.y as real)
  }

  /**
   * (a - o) x (b - o): twice the signed area of the triangle o, a, b.
   * Zero exactly when the three points are collinear.
   */
  function Cross(o: Point, a: Point, b: Point): int {
    (a.x - o.x) * (b.y - o.y) - (a.y - o.y) * (b.x - o.x)
  }

  /** The same signed area over rational points. */
  function RCross(o: RealPoint, a: RealPoint, b: RealPoint): real {
    (a.x - o.x) * (b.y - o.y) - (a.y - o.y) * (b.x - o.x)
  }

  function Sign(v: int): int {
    if v > 0 then 1 else if v < 0 then -1 else 0
  }

  /** `orientation`: the sign of (q - p) x (r - p). */
  function Orientation(p: Point, q: Point, r: Point): int
  {
    var crossProduct := (q.x - p.x) * (r.y - p.y) - (q.y - p.y) * (r.x - p.x);
    if crossProduct == 0 then 0
    else if crossProduct > 0 then 1 else -1
  }

  /**
   * `orientation_ccw`: the sign of (p2 - p1).y * (p3 - p2).x -
   * (p2 - p1).x * (p3 - p2).y, the turn at p2 measured with the opposite
   * convention.  Since (p2 - p1) x (p3 - p2) = (p2 - p1) x (p3 - p1), it is
   * always the exact negation of `Orientation`.
   */
  function OrientationCcw(p1: Point, p2: Point, p3: Point): (o: int)
    ensures o == -Orientation(p1, p2, p3)
  {
    var val := (p2.y - p1.y) * (p3.x - p2.x) - (p2.x - p1.x) * (p3.y - p2.y);
    assert val == -Cross(p1, p2, p3);
    if val == 0 then 0
    else if val > 0 then 1 else -1
  }

  /**
   * Both orientation tests return only -1, 0 or 1; each is 0 exactly for
   * collinear points, and `Orientation` is 1 exactly for a positive signed
   * area.
   */
  lemma OrientationSign(p: Point, q: Point, r: Point)
    ensures Orientation(p, q, r) in {-1, 0, 1} && OrientationCcw(p, q, r) in {-1, 0, 1}
    ensures Orientation(p, q, r) == 0 <==> Cross(p, q, r) == 0
    ensures OrientationCcw(p, q, r) == 0 <==> Cross(p, q, r) == 0
    ensures Orientation(p, q, r) == 1 <==> Cross(p, q, r) > 0
    ensures Orientation(p, q, r) == -1 <==> Cross(p, q, r) < 0
    ensures Orientation(p, q, r) == Sign(Cross(p, q, r))
  {
  }

  /** `v` lies in the closed interval between `a` and `b`, in either order. */
  predicate Between(a: int, v: int, b: int) {
    a <= v <= b || b <= v <= a
  }

  function Max(a: int, b: int): int {
    if a >= b then a else b
  }

  function Min(a: int, b: int): int {
    if a <= b then a else b
  }

  /**
   * `on_segment`: q lies in the closed axis-aligned bounding box of p and r.
   */
  function OnSegment(p: Point, q: Point, r: Point): (b: bool)
    ensures b <==> Between(p.x, q.x, r.x) && Between(p.y, q.y, r.y)
  {
    q.x <= Max(p.x, r.x) && q.x >= Min(p.x, r.x) &&
    q.y <= Max(p.y, r.y) && q.y >= Min(p.y, r.y)
  }

  /**
   * `parametric_equation`: the point p1 + t * (p2 - p1) of the line through
   * p1 and p2.  It is p1 at t = 0 and p2 at t = 1.
   */
  function ParametricEquation(t: real, p1: Point, p2: Point): (r: RealPoint)
    ensures t == 0.0 ==> r == ToReal(p1)
    ensures t == 1.0 ==> r == ToReal(p2)
  {
    RealPoint(p1.x as real + t * (p2.x - p1.x) as real,
              p1.y as real + t * (p2.y - p1.y) as real)
  }

  /** Every parametric point lies on the line through p1 and p2. */
  lemma ParametricOnLine(t: real, p1: Point, p2: Point)
    ensures RCross(ToReal(p1), ToReal(p2), ParametricEquation(t, p1, p2)) == 0.0
  {
    var dx, dy := (p2.x - p1.x) as real, (p2.y - p1.y) as real;
    assert dx * (t * dy) == dy * (t * dx);
  }

  /** `X` is a point of the closed segment from `p` to `r`. */
  ghost predicate OnClosedSegment(p: Point, r: Point, X: RealPoint) {
    exists t: real :: 0.0 <= t <= 1.0 && ParametricEquation(t, p, r) == X
  }

  /** The closed segments p1q1 and p2q2 have a point in common. */
  ghost predicate SegmentsMeet(p1: Point, q1: Point, p2: Point, q2: Point) {
    exists t: real, u: real ::
      0.0 <= t <= 1.0 && 0.0 <= u <= 1.0 &&
      ParametricEquation(t, p1, q1) == ParametricEquation(u, p2, q2)
  }

  /** The integer signed area agrees with the rational one. */
  lemma CrossAsReal(o: Point, a: Point, b: Point)
    ensures Cross(o, a, b) as real == RCross(ToReal(o), ToReal(a), ToReal(b))
  {
    var ux, uy, vx, vy := a.x - o.x, a.y - o.y, b.x - o.x, b.y - o.y;
    assert (ux * vy) as real == ux as real * vy as real;
    assert (uy * vx) as real == uy as real * vx as real;
  }

  /**
   * The bounding-box test is symmetric in its outer points and accepts both
   * of them.
   */
  lemma OnSegmentSymmetric(p: Point, q: Point, r: Point)
    ensures OnSegment(p, q, r) == OnSegment(r, q, p)
    ensures OnSegment(p, p, r) && OnSegment(p, r, r)
  {
  }

  /** Reading a segment backwards: parameter t from p is 1 - t from r. */
  lemma ParametricReversed(t: real, p: Point, r: Point)
    ensures ParametricEquation(1.0 - t, r, p) == ParametricEquation(t, p, r)
  {
  }

  /** On a proper segment the parameter of a point is unique. */
  lemma ParametricInjective(p: Point, r: Point, t: real, t': real)
    requires p != r
    requires ParametricEquation(t, p, r) == ParametricEquation(t', p, r)
    ensures t == t'
  {
    var dx, dy := (r.x - p.x) as real, (r.y - p.y) as real;
    assert t * dx == t' * dx && t * dy == t' * dy;
    if dx != 0.0 {
      assert (t - t') * dx == 0.0;
    } else {
      assert (t - t') * dy == 0.0;
    }
  }

  /** A coordinate interpolated with 0 <= t <= 1 stays between its ends. */
  lemma InterpolationBetween(a: int, b: int, t: real)
    requires 0.0 <= t <= 1.0
    ensures var v := a as real + t * (b - a) as real;
            (a as real <= v <= b as real) || (b as real <= v <= a as real)
  {
    var d := (b - a) as real;
    if d >= 0.0 {
      assert 0.0 <= t * d <= d;
    } else {
      assert d <= t * d <= 0.0;
    }
  }

  /** For d > 0 and e = a d: a lies in [0, 1] exactly when e lies in [0, d]. */
  lemma ScaledUnit(a: real, d: real, e: real)
    requires d > 0.0 && a * d == e
    ensures 0.0 <= a <= 1.0 <==> 0.0 <= e <= d
  {
    if 0.0 <= a <= 1.0 {
      assert 0.0 <= a * d;
      assert (1.0 - a) * d >= 0.0;
    }
    if a < 0.0 {
      assert a * d < 0.0;
    }
    if a > 1.0 {
      assert (a - 1.0) * d > 0.0;
    }
  }

  /**
   * The ratio e / d of two integers, d != 0, lies in [0, 1] exactly when e
   * lies between 0 and d.
   */
  lemma UnitRatio(e: int, d: int) returns (a: real)
    requires d != 0
    ensures a * d as real == e as real
    ensures 0.0 <= a <= 1.0 <==> Between(0, e, d)
  {
    a := e as real / d as real;
    assert a * d as real == e as real;
    if d > 0 {
      ScaledUnit(a, d as real, e as real);
    } else {
      ScaledUnit(a, (-d) as real, (-e) as real);
    }
  }

  /** If (dx, dy) and (ex, ey) are parallel and ex = a dx, then ey = a dy. */
  lemma ProportionalRatio(dx: int, dy: int, ex: int, ey: int, a: real)
    requires dx != 0 && dx * ey == dy * ex
    requires a * dx as real == ex as real
    ensures a * dy as real == ey as real
  {
    assert (dx * ey) as real == dx as real * ey as real;
    assert (dy * ex) as real == dy as real * ex as real;
    assert a * dy as real * dx as real == ey as real * dx as real;
  }

  /**
   * The parameter of a collinear point, one axis at a time: with a change
   * along the first axis, the ratio along that axis also fits the second,
   * and it lies in [0, 1] exactly when the point lies between the ends on
   * both axes.
   */
  lemma AxisParameter(pu: int, ru: int, qu: int, pv: int, rv: int, qv: int) returns (a: real)
    requires ru != pu
    requires (ru - pu) * (qv - pv) == (rv - pv) * (qu - pu)
    ensures pu as real + a * (ru - pu) as real == qu as real
    ensures pv as real + a * (rv - pv) as real == qv as real
    ensures 0.0 <= a <= 1.0 <==> Between(pu, qu, ru) && Between(pv, qv, rv)
  {
    a := UnitRatio(qu - pu, ru - pu);
    ProportionalRatio(ru - pu, rv - pv, qu - pu, qv - pv, a);
    if 0.0 <= a <= 1.0 {
      InterpolationBetween(pv, rv, a);
    }
  }

  /**
   * A point collinear with a proper segment p r has a parameter along it,
   * and that parameter lies in [0, 1] exactly when the bounding-box test
   * accepts the point.
   */
  lemma LineParameter(p: Point, r: Point, q: Point) returns (a: real)
    requires p != r
    requires Cross(p, r, q) == 0
    ensures ParametricEquation(a, p, r) == ToReal(q)
    ensures 0.0 <= a <= 1.0 <==> OnSegment(p, q, r)
  {
    if r.x != p.x {
      a := AxisParameter(p.x, r.x, q.x, p.y, r.y, q.y);
    } else {
      a := AxisParameter(p.y, r.y, q.y, p.x, r.x, q.x);
    }
  }

  /** A point of the closed segment p r is collinear with p and r and in their box. */
  lemma SegmentPointInBox(p: Point, r: Point, q: Point, t: real)
    requires 0.0 <= t <= 1.0 && ParametricEquation(t, p, r) == ToReal(q)
    ensures Cross(p, r, q) == 0 && OnSegment(p, q, r)
  {
    ParametricOnLine(t, p, r);
    CrossAsReal(p, r, q);
    InterpolationBetween(p.x, r.x, t);
    InterpolationBetween(p.y, r.y, t);
  }

  /**
   * What the collinear fallback of the intersection tests decides: q is on
   * the closed segment p r exactly when it is collinear with p and r and
   * inside their bounding box.
   */
  lemma OnClosedSegmentIsCollinearInBox(p: Point, r: Point, q: Point)
    ensures OnClosedSegment(p, r, ToReal(q)) <==> Cross(p, r, q) == 0 && OnSegment(p, q, r)
  {
    if OnClosedSegment(p, r, ToReal(q)) {
      var t :| 0.0 <= t <= 1.0 && ParametricEquation(t, p, r) == ToReal(q);
      SegmentPointInBox(p, r, q, t);
    }
    if Cross(p, r, q) == 0 && OnSegment(p, q, r) {
      if p == r {
        assert ParametricEquation(0.0, p, r) == ToReal(q);
      } else {
        var a := LineParameter(p, r, q);
      }
    }
  }
}
