/**
 * The two-segment intersection tests of the toolkit: the CCW-orientation
 * test, the Franklin-Antonio test (the same decision procedure over the
 * opposite orientation convention) and the parametric test, together with a
 * parametric test that also checks the parameter along the second segment.
 *
 * Each test is judged against `SegmentsMeet`: the closed segments p1q1 and
 * p2q2 have a point in common.
 */
module SegmentIntersection {
  import opened Geometry

  /**
   * `do_segments_intersect_ccw`: a straddle test on four orientations, then
   * four collinear fallbacks that ask whether an endpoint of one segment lies
   * in the bounding box of the other.  Segments sharing an endpoint always
   * intersect.
   */
  function DoSegmentsIntersectCcw(p1: Point, q1: Point, p2: Point, q2: Point): (r: bool)
    ensures p1 == p2 || p1 == q2 || q1 == p2 || q1 == q2 ==> r
  {
    var o1 := OrientationCcw(p1, q1, p2);
    var o2 := OrientationCcw(p1, q1, q2);
    var o3 := OrientationCcw(p2, q2, p1);
    var o4 := OrientationCcw(p2, q2, q1);
    if o1 != o2 && o3 != o4 then true
    else if o1 == 0 && OnSegment(p1, p2, q1) then true
    else if o2 == 0 && OnSegment(p1, q2, q1) then true
    else if o3 == 0 && OnSegment(p2, p1, q2) then true
    else if o4 == 0 && OnSegment(p2, q1, q2) then true
    else false
  }

  /**
   * `do_segments_intersect_franklin_ant`: the same decision procedure over
   * `Orientation`.  It compares orientations only with each other and with
   * 0, both of which negation preserves, so it always agrees with the CCW
   * test.
   */
  function DoSegmentsIntersectFranklinAntonio(p1: Point, q1: Point, p2: Point, q2: Point): (r: bool)
    ensures r == DoSegmentsIntersectCcw(p1, q1, p2, q2)
  {
    var o1 := Orientation(p1, q1, p2);
    var o2 := Orientation(p1, q1, q2);
    var o3 := Orientation(p2, q2, p1);
    var o4 := Orientation(p2, q2, q1);
    if o1 != o2 && o3 != o4 then true
    else if o1 == 0 && OnSegment(p1, p2, q1) then true
    else if o2 == 0 && OnSegment(p1, q2, q1) then true
    else if o3 == 0 && OnSegment(p2, p1, q2) then true
    else if o4 == 0 && OnSegment(p2, q1, q2) then true
    else false
  }

  /** The numerator of the parameter t along p1q1 (line 65). */
  function TNumerator(p1: Point, q1: Point, p2: Point, q2: Point): int {
    (q2.x - p2.x) * (p1.y - p2.y) - (q2.y - p2.y) * (p1.x - p2.x)
  }

  /** The common denominator (line 66). */
  function TDenominator(p1: Point, q1: Point, p2: Point, q2: Point): int {
    (q2.y - p2.y) * (q1.x - p1.x) - (q2.x - p2.x) * (q1.y - p1.y)
  }

  /**
   * The numerator of the parameter u along p2q2, which `LineSegments.py`
   * does not compute.
   */
  function UNumerator(p1: Point, q1: Point, p2: Point, q2: Point): int {
    (q1.x - p1.x) * (p1.y - p2.y) - (q1.y - p1.y) * (p1.x - p2.x)
  }

  /**
   * The parametric quantities in terms of the orientation areas: the
   * t-numerator is the signed area of p2, q2, p1; the u-numerator is minus
   * that of p1, q1, p2; and the denominator (q1 - p1) x (q2 - p2) is how much
   * the signed area changes between the two ends of either segment, so it is
   * zero exactly for parallel (or degenerate) segments.
   */
  lemma ParametricTerms(p1: Point, q1: Point, p2: Point, q2: Point)
    ensures TNumerator(p1, q1, p2, q2) == Cross(p2, q2, p1)
    ensures UNumerator(p1, q1, p2, q2) == -Cross(p1, q1, p2)
    ensures TDenominator(p1, q1, p2, q2) == Cross(p1, q1, q2) - Cross(p1, q1, p2)
    ensures TDenominator(p1, q1, p2, q2) == Cross(p2, q2, p1) - Cross(p2, q2, q1)
  {
  }

  /** The outcome of a parametric test: `False`, or `(True, point)`. */
  datatype ParametricResult = NoIntersection | Intersection(point: RealPoint)

  /**
   * `do_segments_intersect_parametric`, as written: parallel segments never
   * intersect; otherwise the crossing point of the two lines is reported when
   * its parameter t along p1q1 lies in [0, 1], whatever its position along
   * p2q2.  Division is exact.
   */
  function DoSegmentsIntersectParametric(p1: Point, q1: Point, p2: Point, q2: Point): (r: ParametricResult)
    ensures TDenominator(p1, q1, p2, q2) == 0 ==> r == NoIntersection
    ensures r.Intersection? ==> OnClosedSegment(p1, q1, r.point)
  {
    var tNumer := TNumerator(p1, q1, p2, q2);
    var tDenom := TDenominator(p1, q1, p2, q2);
    if tDenom == 0 then NoIntersection
    else
      var t := tNumer as real / tDenom as real;
      if 0.0 <= t <= 1.0 then Intersection(ParametricEquation(t, p1, q1))
      else NoIntersection
  }

  /**
   * The parametric test with both parameters checked: the crossing point is
   * reported only when it lies on both segments.
   */
  function DoSegmentsIntersectParametricChecked(p1: Point, q1: Point, p2: Point, q2: Point): (r: ParametricResult)
    ensures TDenominator(p1, q1, p2, q2) == 0 ==> r == NoIntersection
    ensures r.Intersection? ==> OnClosedSegment(p1, q1, r.point) && OnClosedSegment(p2, q2, r.point)
  {
    var tDenom := TDenominator(p1, q1, p2, q2);
    if tDenom == 0 then NoIntersection
    else
      var t := TNumerator(p1, q1, p2, q2) as real / tDenom as real;
      var u := UNumerator(p1, q1, p2, q2) as real / tDenom as real;
      LinesCrossAtParameters(p1, q1, p2, q2);
      if 0.0 <= t <= 1.0 && 0.0 <= u <= 1.0 then Intersection(ParametricEquation(t, p1, q1))
      else NoIntersection
  }

  // ---------------------------------------------------------------------
  // Arithmetic of the crossing parameters
  // ---------------------------------------------------------------------

  /** From (c1 - c2) d + n e1 - m e2 = 0, divide by d. */
  lemma DividedIdentity(c1: int, e1: int, c2: int, e2: int, n: int, m: int, d: int)
    requires d != 0
    requires (c1 - c2) * d + n * e1 - m * e2 == 0
    ensures c1 as real + (n as real / d as real) * e1 as real
         == c2 as real + (m as real / d as real) * e2 as real
  {
    var t, u := n as real / d as real, m as real / d as real;
    assert t * d as real == n as real && u * d as real == m as real;
    var rc, re1, re2, rd := (c1 - c2) as real, e1 as real, e2 as real, d as real;
    assert rc * rd + n as real * re1 - m as real * re2 == 0.0 by {
      assert ((c1 - c2) * d) as real == rc * rd;
      assert (n * e1) as real == n as real * re1;
      assert (m * e2) as real == m as real * re2;
    }
    var L := rc + t * re1 - u * re2;
    assert L * rd == rc * rd + (t * rd) * re1 - (u * rd) * re2;
    assert L * rd == 0.0;
  }

  /**
   * Cramer's rule for w = u b - t a, multiplied out: with d = a x b,
   * n = b x w and m = a x w, the offset w times d equals m b - n a.
   */
  lemma CramerIdentity(ax: int, ay: int, bx: int, by': int, wx: int, wy: int, n: int, m: int, d: int)
    requires n == bx * wy - by' * wx && m == ax * wy - ay * wx && d == by' * ax - bx * ay
    ensures wx * d + n * ax - m * bx == 0
    ensures wy * d + n * ay - m * by' == 0
  {
  }

  /**
   * When the segments are not parallel, the lines through them cross at
   * parameter TNumerator / TDenominator along p1q1 and UNumerator /
   * TDenominator along p2q2.
   */
  lemma LinesCrossAtParameters(p1: Point, q1: Point, p2: Point, q2: Point)
    requires TDenominator(p1, q1, p2, q2) != 0
    ensures var d := TDenominator(p1, q1, p2, q2) as real;
            ParametricEquation(TNumerator(p1, q1, p2, q2) as real / d, p1, q1)
            == ParametricEquation(UNumerator(p1, q1, p2, q2) as real / d, p2, q2)
  {
    var n, m, d := TNumerator(p1, q1, p2, q2), UNumerator(p1, q1, p2, q2), TDenominator(p1, q1, p2, q2);
    CramerIdentity(q1.x - p1.x, q1.y - p1.y, q2.x - p2.x, q2.y - p2.y, p1.x - p2.x, p1.y - p2.y, n, m, d);
    QuotientsMeet(p1, q1, p2, q2, n, m, d);
  }

  /**
   * Whenever n, m and d satisfy Cramer's identities for the two segments,
   * the point at n / d along p1q1 is the point at m / d along p2q2.
   */
  lemma QuotientsMeet(p1: Point, q1: Point, p2: Point, q2: Point, n: int, m: int, d: int)
    requires d != 0
    requires (p1.x - p2.x) * d + n * (q1.x - p1.x) - m * (q2.x - p2.x) == 0
    requires (p1.y - p2.y) * d + n * (q1.y - p1.y) - m * (q2.y - p2.y) == 0
    ensures ParametricEquation(n as real / d as real, p1, q1)
         == ParametricEquation(m as real / d as real, p2, q2)
  {
    DividedIdentity(p1.x, q1.x - p1.x, p2.x, q2.x - p2.x, n, m, d);
    DividedIdentity(p1.y, q1.y - p1.y, p2.y, q2.y - p2.y, n, m, d);
  }

  /** An integer wedge product, read over the reals. */
  lemma WedgeAsReal(ax: int, ay: int, bx: int, by': int)
    ensures (ax * by' - ay * bx) as real == ax as real * by' as real - ay as real * bx as real
  {
    assert (ax * by') as real == ax as real * by' as real;
    assert (ay * bx) as real == ay as real * bx as real;
  }

  /**
   * If w = u d2 - t d1 then d2 x w = t (d1 x d2) and d1 x w = u (d1 x d2).
   */
  lemma WedgeOfCombination(d1x: real, d1y: real, d2x: real, d2y: real, wx: real, wy: real, t: real, u: real)
    requires wx == u * d2x - t * d1x && wy == u * d2y - t * d1y
    ensures d2x * wy - d2y * wx == t * (d2y * d1x - d2x * d1y)
    ensures d1x * wy - d1y * wx == u * (d2y * d1x - d2x * d1y)
  {
  }

  /**
   * A common point at t along p1q1 and u along p2q2 puts the offset
   * p1 - p2 at u (q2 - p2) - t (q1 - p1).
   */
  lemma MeetingOffset(p1: Point, q1: Point, p2: Point, q2: Point, t: real, u: real)
    requires ParametricEquation(t, p1, q1) == ParametricEquation(u, p2, q2)
    ensures (p1.x - p2.x) as real == u * (q2.x - p2.x) as real - t * (q1.x - p1.x) as real
    ensures (p1.y - p2.y) as real == u * (q2.y - p2.y) as real - t * (q1.y - p1.y) as real
  {
  }

  /** The numerators and the denominator as wedge products over the reals. */
  lemma ParametricTermsAsReal(p1: Point, q1: Point, p2: Point, q2: Point)
    ensures var d1x, d1y := (q1.x - p1.x) as real, (q1.y - p1.y) as real;
            var d2x, d2y := (q2.x - p2.x) as real, (q2.y - p2.y) as real;
            var wx, wy := (p1.x - p2.x) as real, (p1.y - p2.y) as real;
            TNumerator(p1, q1, p2, q2) as real == d2x * wy - d2y * wx &&
            UNumerator(p1, q1, p2, q2) as real == d1x * wy - d1y * wx &&
            TDenominator(p1, q1, p2, q2) as real == d2y * d1x - d2x * d1y
  {
    WedgeAsReal(q2.x - p2.x, q2.y - p2.y, p1.x - p2.x, p1.y - p2.y);
    WedgeAsReal(q1.x - p1.x, q1.y - p1.y, p1.x - p2.x, p1.y - p2.y);
    WedgeAsReal(q2.y - p2.y, q2.x - p2.x, q1.x - p1.x, q1.y - p1.y);
  }

  /**
   * Conversely, if the two segments' parametric points coincide at t and u,
   * then the numerators are t and u times the denominator.
   */
  lemma MeetingParameters(p1: Point, q1: Point, p2: Point, q2: Point, t: real, u: real)
    requires ParametricEquation(t, p1, q1) == ParametricEquation(u, p2, q2)
    ensures TNumerator(p1, q1, p2, q2) as real == t * TDenominator(p1, q1, p2, q2) as real
    ensures UNumerator(p1, q1, p2, q2) as real == u * TDenominator(p1, q1, p2, q2) as real
  {
    MeetingOffset(p1, q1, p2, q2, t, u);
    ParametricTermsAsReal(p1, q1, p2, q2);
    WedgeOfCombination((q1.x - p1.x) as real, (q1.y - p1.y) as real,
                       (q2.x - p2.x) as real, (q2.y - p2.y) as real,
                       (p1.x - p2.x) as real, (p1.y - p2.y) as real, t, u);
  }

  /**
   * The orientation of the two ends of one segment relative to the other
   * differ (its ends straddle the other's line) exactly when n / d lies in
   * [0, 1], where n and n - d are the two signed areas.
   */
  lemma SignChangeRatio(n: int, d: int)
    requires Sign(n) != Sign(n - d)
    ensures d != 0 && 0.0 <= n as real / d as real <= 1.0
  {
    assert d != 0;
    var a := UnitRatio(n, d);
  }

  lemma RatioSignChange(n: int, d: int, s: real)
    requires d != 0 && 0.0 <= s <= 1.0
    requires n as real == s * d as real
    ensures Sign(n) != Sign(n - d)
  {
    if d > 0 {
      ScaledUnit(s, d as real, n as real);
    } else {
      assert s * (-d) as real == (-n) as real;
      ScaledUnit(s, (-d) as real, (-n) as real);
    }
  }

  // ---------------------------------------------------------------------
  // The CCW test decides exactly whether the segments meet
  // ---------------------------------------------------------------------

  /** If an endpoint of one segment lies on the other, the segments meet. */
  lemma EndpointOnSegmentMeets(p1: Point, q1: Point, p2: Point, q2: Point)
    requires OnClosedSegment(p1, q1, ToReal(p2)) || OnClosedSegment(p1, q1, ToReal(q2))
          || OnClosedSegment(p2, q2, ToReal(p1)) || OnClosedSegment(p2, q2, ToReal(q1))
    ensures SegmentsMeet(p1, q1, p2, q2)
  {
    if OnClosedSegment(p1, q1, ToReal(p2)) {
      var t :| 0.0 <= t <= 1.0 && ParametricEquation(t, p1, q1) == ToReal(p2);
      assert ParametricEquation(t, p1, q1) == ParametricEquation(0.0, p2, q2);
    } else if OnClosedSegment(p1, q1, ToReal(q2)) {
      var t :| 0.0 <= t <= 1.0 && ParametricEquation(t, p1, q1) == ToReal(q2);
      assert ParametricEquation(t, p1, q1) == ParametricEquation(1.0, p2, q2);
    } else if OnClosedSegment(p2, q2, ToReal(p1)) {
      var u :| 0.0 <= u <= 1.0 && ParametricEquation(u, p2, q2) == ToReal(p1);
      assert ParametricEquation(0.0, p1, q1) == ParametricEquation(u, p2, q2);
    } else {
      var u :| 0.0 <= u <= 1.0 && ParametricEquation(u, p2, q2) == ToReal(q1);
      assert ParametricEquation(1.0, p1, q1) == ParametricEquation(u, p2, q2);
    }
  }

  /**
   * The straddle conditions of the CCW test in terms of the parametric
   * quantities: the ends of p2q2 get different orientations against p1q1
   * exactly when the u-numerator and the u-numerator minus the denominator
   * have different signs, and likewise for the ends of p1q1 and the
   * t-numerator.
   */
  lemma StraddleSigns(p1: Point, q1: Point, p2: Point, q2: Point)
    ensures var m, d := UNumerator(p1, q1, p2, q2), TDenominator(p1, q1, p2, q2);
            OrientationCcw(p1, q1, p2) != OrientationCcw(p1, q1, q2) <==> Sign(m) != Sign(m - d)
    ensures var n, d := TNumerator(p1, q1, p2, q2), TDenominator(p1, q1, p2, q2);
            OrientationCcw(p2, q2, p1) != OrientationCcw(p2, q2, q1) <==> Sign(n) != Sign(n - d)
  {
    ParametricTerms(p1, q1, p2, q2);
    OrientationSign(p1, q1, p2);
    OrientationSign(p1, q1, q2);
    OrientationSign(p2, q2, p1);
    OrientationSign(p2, q2, q1);
  }

  /** Segments whose ends straddle each other's lines meet. */
  lemma StraddleMeets(p1: Point, q1: Point, p2: Point, q2: Point)
    requires OrientationCcw(p1, q1, p2) != OrientationCcw(p1, q1, q2)
    requires OrientationCcw(p2, q2, p1) != OrientationCcw(p2, q2, q1)
    ensures SegmentsMeet(p1, q1, p2, q2)
  {
    var n, m, d := TNumerator(p1, q1, p2, q2), UNumerator(p1, q1, p2, q2), TDenominator(p1, q1, p2, q2);
    StraddleSigns(p1, q1, p2, q2);
    SignChangeRatio(n, d);
    SignChangeRatio(m, d);
    LinesCrossAtParameters(p1, q1, p2, q2);
    var t, u := n as real / d as real, m as real / d as real;
    assert 0.0 <= t <= 1.0 && 0.0 <= u <= 1.0;
    assert ParametricEquation(t, p1, q1) == ParametricEquation(u, p2, q2);
  }

  /**
   * Non-parallel segments that meet straddle each other's lines, which is
   * the general case of the CCW test.
   */
  lemma CrossingStraddles(p1: Point, q1: Point, p2: Point, q2: Point, t: real, u: real)
    requires TDenominator(p1, q1, p2, q2) != 0
    requires 0.0 <= t <= 1.0 && 0.0 <= u <= 1.0
    requires ParametricEquation(t, p1, q1) == ParametricEquation(u, p2, q2)
    ensures OrientationCcw(p1, q1, p2) != OrientationCcw(p1, q1, q2)
    ensures OrientationCcw(p2, q2, p1) != OrientationCcw(p2, q2, q1)
  {
    var d := TDenominator(p1, q1, p2, q2);
    MeetingParameters(p1, q1, p2, q2, t, u);
    RatioSignChange(UNumerator(p1, q1, p2, q2), d, u);
    RatioSignChange(TNumerator(p1, q1, p2, q2), d, t);
    StraddleSigns(p1, q1, p2, q2);
  }

  /** Whenever the CCW test answers true, the segments have a common point. */
  lemma CcwSound(p1: Point, q1: Point, p2: Point, q2: Point)
    requires DoSegmentsIntersectCcw(p1, q1, p2, q2)
    ensures SegmentsMeet(p1, q1, p2, q2)
  {
    var o1 := OrientationCcw(p1, q1, p2);
    var o2 := OrientationCcw(p1, q1, q2);
    var o3 := OrientationCcw(p2, q2, p1);
    var o4 := OrientationCcw(p2, q2, q1);
    if o1 != o2 && o3 != o4 {
      StraddleMeets(p1, q1, p2, q2);
    } else {
      OnClosedSegmentIsCollinearInBox(p1, q1, p2);
      OnClosedSegmentIsCollinearInBox(p1, q1, q2);
      OnClosedSegmentIsCollinearInBox(p2, q2, p1);
      OnClosedSegmentIsCollinearInBox(p2, q2, q1);
      EndpointOnSegmentMeets(p1, q1, p2, q2);
    }
  }

  /**
   * Composing parametric points: if p2 and q2 sit at parameters a and b
   * along p1q1, the point at s along p2q2 sits at a + s (b - a).
   */
  lemma ParametricCompose(p1: Point, q1: Point, p2: Point, q2: Point, a: real, b: real, s: real)
    requires ToReal(p2) == ParametricEquation(a, p1, q1)
    requires ToReal(q2) == ParametricEquation(b, p1, q1)
    ensures ParametricEquation(s, p2, q2) == ParametricEquation(a + s * (b - a), p1, q1)
  {
    var dx, dy := (q1.x - p1.x) as real, (q1.y - p1.y) as real;
    assert (q2.x - p2.x) as real == (b - a) * dx;
    assert (q2.y - p2.y) as real == (b - a) * dy;
    assert s * ((b - a) * dx) == (s * (b - a)) * dx;
    assert s * ((b - a) * dy) == (s * (b - a)) * dy;
  }

  /** A point between parameters a and b, at fraction u, lies between them. */
  lemma InterpolationBetweenReal(a: real, b: real, u: real)
    requires 0.0 <= u <= 1.0
    ensures (a <= a + u * (b - a) <= b) || (b <= a + u * (b - a) <= a)
  {
    if b > a {
      ScaledUnit(u, b - a, u * (b - a));
    } else if b < a {
      ScaledUnit(u, a - b, u * (a - b));
    }
  }

  /**
   * If a meeting point lies at t in [0, 1] between parameters a and b that
   * both lie outside [0, 1], then 0 lies between a and b, at fraction
   * a / (a - b) of the way from a to b.
   */
  lemma OutsideEndsEnclose(a: real, b: real, t: real, u: real)
    requires !(0.0 <= a <= 1.0) && !(0.0 <= b <= 1.0)
    requires 0.0 <= u <= 1.0 && 0.0 <= t <= 1.0
    requires t == a + u * (b - a)
    ensures a != b && 0.0 <= a / (a - b) <= 1.0
  {
    InterpolationBetweenReal(a, b, u);
    if a < 0.0 {
      ScaledUnit(a / (a - b), b - a, -a);
    } else {
      ScaledUnit(a / (a - b), a - b, a);
    }
  }

  /**
   * Parallel segments that meet lie on one line, and then an endpoint of one
   * of them lies in the bounding box of the other.
   */
  lemma ParallelMeetingHasEndpointInBox(p1: Point, q1: Point, p2: Point, q2: Point, t: real, u: real)
    requires TDenominator(p1, q1, p2, q2) == 0
    requires 0.0 <= t <= 1.0 && 0.0 <= u <= 1.0
    requires ParametricEquation(t, p1, q1) == ParametricEquation(u, p2, q2)
    ensures Cross(p1, q1, p2) == 0 && Cross(p1, q1, q2) == 0
    ensures Cross(p2, q2, p1) == 0 && Cross(p2, q2, q1) == 0
    ensures OnSegment(p1, p2, q1) || OnSegment(p1, q2, q1) || OnSegment(p2, p1, q2)
  {
    MeetingParameters(p1, q1, p2, q2, t, u);
    ParametricTerms(p1, q1, p2, q2);
    if p1 == q1 {
      assert ParametricEquation(u, p2, q2) == ToReal(p1);
      OnClosedSegmentIsCollinearInBox(p2, q2, p1);
    } else if p2 == q2 {
      assert ParametricEquation(t, p1, q1) == ToReal(p2);
      OnClosedSegmentIsCollinearInBox(p1, q1, p2);
    } else {
      var a := LineParameter(p1, q1, p2);
      var b := LineParameter(p1, q1, q2);
      if !(0.0 <= a <= 1.0) && !(0.0 <= b <= 1.0) {
        EnclosedStart(p1, q1, p2, q2, a, b, t, u);
      }
    }
  }

  /**
   * When both ends of the second segment lie on the line of the first but
   * outside it, a common point forces the first segment's start into the
   * second segment's bounding box.
   */
  lemma EnclosedStart(p1: Point, q1: Point, p2: Point, q2: Point, a: real, b: real, t: real, u: real)
    requires p1 != q1
    requires ToReal(p2) == ParametricEquation(a, p1, q1)
    requires ToReal(q2) == ParametricEquation(b, p1, q1)
    requires !(0.0 <= a <= 1.0) && !(0.0 <= b <= 1.0)
    requires 0.0 <= t <= 1.0 && 0.0 <= u <= 1.0
    requires ParametricEquation(t, p1, q1) == ParametricEquation(u, p2, q2)
    ensures OnSegment(p2, p1, q2)
  {
    ParametricCompose(p1, q1, p2, q2, a, b, u);
    ParametricInjective(p1, q1, t, a + u * (b - a));
    OutsideEndsEnclose(a, b, t, u);
    var s := a / (a - b);
    ParametricCompose(p1, q1, p2, q2, a, b, s);
    assert a + s * (b - a) == 0.0;
    assert ParametricEquation(s, p2, q2) == ToReal(p1);
    OnClosedSegmentIsCollinearInBox(p2, q2, p1);
  }

  /** Whenever the segments have a common point, the CCW test answers true. */
  lemma CcwComplete(p1: Point, q1: Point, p2: Point, q2: Point)
    requires SegmentsMeet(p1, q1, p2, q2)
    ensures DoSegmentsIntersectCcw(p1, q1, p2, q2)
  {
    var t, u :| 0.0 <= t <= 1.0 && 0.0 <= u <= 1.0 &&
                ParametricEquation(t, p1, q1) == ParametricEquation(u, p2, q2);
    var d := TDenominator(p1, q1, p2, q2);
    if d != 0 {
      CrossingStraddles(p1, q1, p2, q2, t, u);
    } else {
      ParallelMeetingHasEndpointInBox(p1, q1, p2, q2, t, u);
    }
  }

  /**
   * The CCW test is exact: it answers true precisely when the closed
   * segments have a point in common, collinear overlaps and touching
   * endpoints included.
   */
  lemma CcwIsExact(p1: Point, q1: Point, p2: Point, q2: Point)
    ensures DoSegmentsIntersectCcw(p1, q1, p2, q2) <==> SegmentsMeet(p1, q1, p2, q2)
  {
    if DoSegmentsIntersectCcw(p1, q1, p2, q2) {
      CcwSound(p1, q1, p2, q2);
    }
    if SegmentsMeet(p1, q1, p2, q2) {
      CcwComplete(p1, q1, p2, q2);
    }
  }

  /** Meeting does not depend on the order of the segments or their ends. */
  lemma SegmentsMeetSymmetric(p1: Point, q1: Point, p2: Point, q2: Point)
    requires SegmentsMeet(p1, q1, p2, q2)
    ensures SegmentsMeet(p2, q2, p1, q1)
    ensures SegmentsMeet(q1, p1, p2, q2)
    ensures SegmentsMeet(p1, q1, q2, p2)
  {
    var t, u :| 0.0 <= t <= 1.0 && 0.0 <= u <= 1.0 &&
                ParametricEquation(t, p1, q1) == ParametricEquation(u, p2, q2);
    assert ParametricEquation(u, p2, q2) == ParametricEquation(t, p1, q1);
    ParametricReversed(t, p1, q1);
    assert ParametricEquation(1.0 - t, q1, p1) == ParametricEquation(u, p2, q2);
    ParametricReversed(u, p2, q2);
    assert ParametricEquation(t, p1, q1) == ParametricEquation(1.0 - u, q2, p2);
  }

  /**
   * The CCW test's answer does not change when the two segments are swapped
   * or when either segment's endpoints are given in the other order.
   */
  lemma CcwSymmetric(p1: Point, q1: Point, p2: Point, q2: Point)
    ensures DoSegmentsIntersectCcw(p1, q1, p2, q2) == DoSegmentsIntersectCcw(p2, q2, p1, q1)
    ensures DoSegmentsIntersectCcw(p1, q1, p2, q2) == DoSegmentsIntersectCcw(q1, p1, p2, q2)
    ensures DoSegmentsIntersectCcw(p1, q1, p2, q2) == DoSegmentsIntersectCcw(p1, q1, q2, p2)
  {
    CcwIsExact(p1, q1, p2, q2);
    CcwIsExact(p2, q2, p1, q1);
    CcwIsExact(q1, p1, p2, q2);
    CcwIsExact(p1, q1, q2, p2);
    if SegmentsMeet(p1, q1, p2, q2) {
      SegmentsMeetSymmetric(p1, q1, p2, q2);
    }
    if SegmentsMeet(p2, q2, p1, q1) {
      SegmentsMeetSymmetric(p2, q2, p1, q1);
    }
    if SegmentsMeet(q1, p1, p2, q2) {
      SegmentsMeetSymmetric(q1, p1, p2, q2);
    }
    if SegmentsMeet(p1, q1, q2, p2) {
      SegmentsMeetSymmetric(p1, q1, q2, p2);
    }
  }

  // ---------------------------------------------------------------------
  // The parametric tests
  // ---------------------------------------------------------------------

  /**
   * A point reported by the parametric test lies on segment p1q1 and on the
   * infinite line through p2 and q2, at the parameter t = TNumerator /
   * TDenominator in [0, 1].
   */
  lemma ParametricPointOnBothLines(p1: Point, q1: Point, p2: Point, q2: Point)
    requires DoSegmentsIntersectParametric(p1, q1, p2, q2).Intersection?
    ensures var X := DoSegmentsIntersectParametric(p1, q1, p2, q2).point;
            var t := TNumerator(p1, q1, p2, q2) as real / TDenominator(p1, q1, p2, q2) as real;
            0.0 <= t <= 1.0 && X == ParametricEquation(t, p1, q1) &&
            RCross(ToReal(p2), ToReal(q2), X) == 0.0
  {
    var d := TDenominator(p1, q1, p2, q2);
    LinesCrossAtParameters(p1, q1, p2, q2);
    ParametricOnLine(UNumerator(p1, q1, p2, q2) as real / d as real, p2, q2);
  }

  /** Dividing t * d by d gives back t. */
  lemma QuotientOfMultiple(n: real, d: real, t: real)
    requires d != 0.0 && n == t * d
    ensures n / d == t
  {
  }

  /**
   * For non-parallel segments, the parameters of any common point are the
   * quotients the parametric test computes.
   */
  lemma MeetingQuotients(p1: Point, q1: Point, p2: Point, q2: Point, t: real, u: real)
    requires TDenominator(p1, q1, p2, q2) != 0
    requires ParametricEquation(t, p1, q1) == ParametricEquation(u, p2, q2)
    ensures TNumerator(p1, q1, p2, q2) as real / TDenominator(p1, q1, p2, q2) as real == t
    ensures UNumerator(p1, q1, p2, q2) as real / TDenominator(p1, q1, p2, q2) as real == u
  {
    var d := TDenominator(p1, q1, p2, q2);
    MeetingParameters(p1, q1, p2, q2, t, u);
    QuotientOfMultiple(TNumerator(p1, q1, p2, q2) as real, d as real, t);
    QuotientOfMultiple(UNumerator(p1, q1, p2, q2) as real, d as real, u);
  }

  /** A point reported by the checked parametric test is common to both segments. */
  lemma CheckedParametricSound(p1: Point, q1: Point, p2: Point, q2: Point)
    requires DoSegmentsIntersectParametricChecked(p1, q1, p2, q2).Intersection?
    ensures TDenominator(p1, q1, p2, q2) != 0 && SegmentsMeet(p1, q1, p2, q2)
  {
    var X := DoSegmentsIntersectParametricChecked(p1, q1, p2, q2).point;
    var t :| 0.0 <= t <= 1.0 && ParametricEquation(t, p1, q1) == X;
    var u :| 0.0 <= u <= 1.0 && ParametricEquation(u, p2, q2) == X;
    assert ParametricEquation(t, p1, q1) == ParametricEquation(u, p2, q2);
  }

  /** Non-parallel segments that meet are reported by the checked parametric test. */
  lemma CheckedParametricComplete(p1: Point, q1: Point, p2: Point, q2: Point)
    requires TDenominator(p1, q1, p2, q2) != 0 && SegmentsMeet(p1, q1, p2, q2)
    ensures DoSegmentsIntersectParametricChecked(p1, q1, p2, q2).Intersection?
  {
    var t, u :| 0.0 <= t <= 1.0 && 0.0 <= u <= 1.0 &&
                ParametricEquation(t, p1, q1) == ParametricEquation(u, p2, q2);
    MeetingQuotients(p1, q1, p2, q2, t, u);
  }

  /**
   * The checked parametric test is exact on non-parallel segments: it reports
   * a point precisely when the segments are not parallel and meet.
   */
  lemma CheckedParametricIsExact(p1: Point, q1: Point, p2: Point, q2: Point)
    ensures DoSegmentsIntersectParametricChecked(p1, q1, p2, q2).Intersection?
        <==> TDenominator(p1, q1, p2, q2) != 0 && SegmentsMeet(p1, q1, p2, q2)
  {
    if DoSegmentsIntersectParametricChecked(p1, q1, p2, q2).Intersection? {
      CheckedParametricSound(p1, q1, p2, q2);
    }
    if TDenominator(p1, q1, p2, q2) != 0 && SegmentsMeet(p1, q1, p2, q2) {
      CheckedParametricComplete(p1, q1, p2, q2);
    }
  }

  /**
   * On non-parallel segments the checked parametric test and the CCW test
   * agree.
   */
  lemma CheckedParametricAgreesWithCcw(p1: Point, q1: Point, p2: Point, q2: Point)
    requires TDenominator(p1, q1, p2, q2) != 0
    ensures DoSegmentsIntersectParametricChecked(p1, q1, p2, q2).Intersection?
        <==> DoSegmentsIntersectCcw(p1, q1, p2, q2)
  {
    CheckedParametricIsExact(p1, q1, p2, q2);
    CcwIsExact(p1, q1, p2, q2);
  }

  /**
   * The parametric test as written differs from the checked one only by its
   * false positives: the checked test reports a point exactly when the
   * as-written test reports one that also lies on segment p2q2, and then
   * both report the same point.
   */
  lemma ParametricDiffersOnlyOffSecondSegment(p1: Point, q1: Point, p2: Point, q2: Point)
    ensures var r := DoSegmentsIntersectParametric(p1, q1, p2, q2);
            var c := DoSegmentsIntersectParametricChecked(p1, q1, p2, q2);
            (c.Intersection? <==> r.Intersection? && OnClosedSegment(p2, q2, r.point)) &&
            (c.Intersection? ==> c == r)
  {
    var r := DoSegmentsIntersectParametric(p1, q1, p2, q2);
    if r.Intersection? && OnClosedSegment(p2, q2, r.point) {
      var t :| 0.0 <= t <= 1.0 && ParametricEquation(t, p1, q1) == r.point;
      var u :| 0.0 <= u <= 1.0 && ParametricEquation(u, p2, q2) == r.point;
      assert ParametricEquation(t, p1, q1) == ParametricEquation(u, p2, q2);
      CheckedParametricIsExact(p1, q1, p2, q2);
    }
  }

  // ---------------------------------------------------------------------
  // Concrete configurations
  // ---------------------------------------------------------------------

  /** Crossing diagonals of a square: every test reports the centre. */
  lemma CrossingDiagonals()
    ensures DoSegmentsIntersectCcw(Point(0, 0), Point(10, 10), Point(0, 10), Point(10, 0))
    ensures DoSegmentsIntersectFranklinAntonio(Point(0, 0), Point(10, 10), Point(0, 10), Point(10, 0))
    ensures DoSegmentsIntersectParametric(Point(0, 0), Point(10, 10), Point(0, 10), Point(10, 0))
         == Intersection(RealPoint(5.0, 5.0))
    ensures DoSegmentsIntersectParametricChecked(Point(0, 0), Point(10, 10), Point(0, 10), Point(10, 0))
         == Intersection(RealPoint(5.0, 5.0))
  {
  }

  /** Disjoint collinear segments: no test reports an intersection. */
  lemma DisjointCollinear()
    ensures !DoSegmentsIntersectCcw(Point(0, 0), Point(5, 0), Point(10, 0), Point(15, 0))
    ensures !DoSegmentsIntersectFranklinAntonio(Point(0, 0), Point(5, 0), Point(10, 0), Point(15, 0))
    ensures DoSegmentsIntersectParametric(Point(0, 0), Point(5, 0), Point(10, 0), Point(15, 0)) == NoIntersection
    ensures DoSegmentsIntersectParametricChecked(Point(0, 0), Point(5, 0), Point(10, 0), Point(15, 0))
         == NoIntersection
  {
  }

  /**
   * Overlapping collinear segments meet and the CCW test says so, but the
   * parametric test treats them as parallel and reports nothing.
   */
  lemma CollinearOverlapMissedByParametric()
    ensures SegmentsMeet(Point(0, 0), Point(10, 0), Point(5, 0), Point(15, 0))
    ensures DoSegmentsIntersectCcw(Point(0, 0), Point(10, 0), Point(5, 0), Point(15, 0))
    ensures DoSegmentsIntersectParametric(Point(0, 0), Point(10, 0), Point(5, 0), Point(15, 0)) == NoIntersection
  {
    CcwIsExact(Point(0, 0), Point(10, 0), Point(5, 0), Point(15, 0));
  }

  /**
   * The parametric test as written reports (5, 0) for a horizontal segment
   * and a vertical segment that stops short of it; the segments do not meet,
   * and the CCW and checked parametric tests report nothing.
   */
  lemma ParametricFalsePositive()
    ensures DoSegmentsIntersectParametric(Point(0, 0), Point(10, 0), Point(5, 5), Point(5, 15))
         == Intersection(RealPoint(5.0, 0.0))
    ensures !SegmentsMeet(Point(0, 0), Point(10, 0), Point(5, 5), Point(5, 15))
    ensures !DoSegmentsIntersectCcw(Point(0, 0), Point(10, 0), Point(5, 5), Point(5, 15))
    ensures DoSegmentsIntersectParametricChecked(Point(0, 0), Point(10, 0), Point(5, 5), Point(5, 15))
         == NoIntersection
  {
    CcwIsExact(Point(0, 0), Point(10, 0), Point(5, 5), Point(5, 15));
  }
}
