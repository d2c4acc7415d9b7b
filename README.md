# Segment intersection in exact arithmetic

This project models the line-segment toolkit of `LineSegments.py`. It covers:

- the two orientation predicates (`orientation_ccw` and `orientation`), which use opposite sign conventions;
- the bounding-box test `on_segment`;
- the point of a segment at parameter t, `parametric_equation`;
- the three two-segment intersection tests: the CCW-orientation test, the Franklin-Antonio test and the parametric test.

A point is a pair of integers, the same as a canvas click. The parametric test divides, so its parameter and its reported point use exact rational (`real`) arithmetic.

Every test is judged against one reference notion. `Geometry.SegmentsMeet` holds when the closed segments p1q1 and p2q2 share a point: there are parameters t and u in [0, 1] such that p1 + t(q1 - p1) = p2 + u(q2 - p2). The model proves these results:

- The CCW test is exact. It answers true precisely when the segments meet, including collinear overlaps and touching endpoints.
- The Franklin-Antonio test always agrees with the CCW test.
- The parametric test, as written, reports a point on the first segment and on the line through the second. That point need not lie on the second segment.
- The parametric test also misses every parallel or collinear configuration.
- A parametric test that also checks the parameter along the second segment is exact on non-parallel segments.

`geometry.dfy` (module `Geometry`) contains:

- the points;
- the signed area `Cross`;
- the two orientation functions;
- the box test;
- the parametric point;
- the reference predicates `OnClosedSegment` and `SegmentsMeet`.

`intersection.dfy` (module `SegmentIntersection`) contains the three tests, the checked parametric test, the correctness lemmas and a few worked inputs.

## Model

| member | source | states |
|---|---|---|
| `Geometry.OrientationCcw` | LineSegments.py:3-7 | `orientation_ccw` is always the exact negation of `orientation` on the same three points, because (p2 - p1) x (p3 - p2) = (p2 - p1) x (p3 - p1) |
| `Geometry.Orientation` | LineSegments.py:9-13 | `orientation` takes the sign of (q - p) x (r - p) with the same 0 / 1 / -1 cascade; `Geometry.OrientationSign` proves the result is exactly the sign of the signed area `Cross`, and `Geometry.OrientationCcw` that `orientation_ccw` is its negation |
| `Geometry.OrientationSign` | LineSegments.py:3-13 | both orientation functions return only -1, 0 or 1; each returns 0 exactly when the points are collinear (zero signed area); `orientation` returns 1 exactly for a positive and -1 exactly for a negative signed area |
| `Geometry.OnSegment` | LineSegments.py:15-17 | `on_segment(p, q, r)` holds iff each coordinate of q lies between the corresponding coordinates of p and r, i.e. q is in their closed axis-aligned bounding box |
| `Geometry.OnSegmentSymmetric` | LineSegments.py:15-17 | the box test is symmetric in p and r and accepts q = p and q = r |
| `Geometry.ParametricEquation` | LineSegments.py:59-62 | `parametric_equation(t, p1, p2)` is p1 at t = 0 and p2 at t = 1 |
| `Geometry.ParametricOnLine` | LineSegments.py:59-62 | every point `parametric_equation(t, p1, p2)` lies on the line through p1 and p2 (zero signed area) |
| `Geometry.ParametricReversed` | LineSegments.py:59-62 | reading a segment backwards maps parameter t to 1 - t |
| `Geometry.ParametricInjective` | LineSegments.py:59-62 | on a segment with distinct ends, each point has only one parameter |
| `Geometry.OnClosedSegmentIsCollinearInBox` | LineSegments.py:28-35 | the collinear fallback "orientation 0 and `on_segment`" decides exactly whether a point lies on the closed segment |
| `Geometry.LineParameter` | LineSegments.py:15-17 | a point collinear with a proper segment has a parameter along it, and that parameter is in [0, 1] exactly when `on_segment` accepts the point |
| `SegmentIntersection.DoSegmentsIntersectCcw` | LineSegments.py:19-37 | segments that share an endpoint are always reported as intersecting |
| `SegmentIntersection.StraddleSigns` | LineSegments.py:20-25 | the straddle conditions `o1 != o2` and `o3 != o4` hold exactly when the u-numerator, respectively `t_numer`, and that numerator minus `t_denom` have different signs |
| `SegmentIntersection.StraddleMeets` | LineSegments.py:25-26 | segments passing the general-case test `o1 != o2 and o3 != o4` have a common point |
| `SegmentIntersection.CrossingStraddles` | LineSegments.py:25-26 | non-parallel segments that meet pass the general-case test |
| `SegmentIntersection.CcwSound` | LineSegments.py:25-35 | every true answer of the CCW test, straddle case or collinear fallback, comes from a common point of the two closed segments |
| `SegmentIntersection.CcwComplete` | LineSegments.py:19-37 | whenever the closed segments share a point, the CCW test answers true |
| `SegmentIntersection.CcwIsExact` | LineSegments.py:19-37 | the CCW test answers true iff the closed segments have a common point |
| `SegmentIntersection.ParallelMeetingHasEndpointInBox` | LineSegments.py:28-35 | parallel segments that meet are collinear, and one of the fallback box tests accepts an endpoint |
| `SegmentIntersection.SegmentsMeetSymmetric` | LineSegments.py:19-37 | meeting does not depend on which segment comes first or on the order of either segment's ends |
| `SegmentIntersection.CcwSymmetric` | LineSegments.py:19-37 | the CCW test gives the same answer when the segments are swapped or either segment is reversed |
| `SegmentIntersection.DoSegmentsIntersectFranklinAntonio` | LineSegments.py:39-57 | the Franklin-Antonio test returns the same boolean as the CCW test for every input |
| `SegmentIntersection.ParametricTerms` | LineSegments.py:65-66 | `t_numer` is the signed area of p2, q2, p1; `u`'s numerator is minus the signed area of p1, q1, p2; `t_denom` is the change in signed area between the two ends of either segment, measured against the other |
| `SegmentIntersection.TNumerator` | LineSegments.py:65 | `t_numer`, the same product difference; `SegmentIntersection.ParametricTerms` proves it is the signed area of p2, q2, p1, and `SegmentIntersection.MeetingQuotients` that it divided by `t_denom` is the parameter of any common point along p1q1 |
| `SegmentIntersection.TDenominator` | LineSegments.py:66 | `t_denom`, the same product difference; `SegmentIntersection.ParametricTerms` proves it is the change in signed area between the ends of either segment, and `SegmentIntersection.ParallelMeetingHasEndpointInBox` that when it is zero, segments that meet are collinear |
| `SegmentIntersection.LinesCrossAtParameters` | LineSegments.py:65-71 | for a non-zero denominator, the point at t = `t_numer / t_denom` on p1q1 is also the point at u = (matching numerator) / `t_denom` on p2q2 |
| `SegmentIntersection.MeetingParameters` | LineSegments.py:65-69 | any common point of the two lines, at parameters t and u, satisfies `t_numer = t * t_denom` and the matching equation for u |
| `SegmentIntersection.MeetingQuotients` | LineSegments.py:65-69 | for a non-zero `t_denom`, the parameters of any common point of the two lines are exactly `t_numer / t_denom` and the matching quotient for u |
| `SegmentIntersection.DoSegmentsIntersectParametric` | LineSegments.py:64-74 | a zero denominator gives no intersection; a reported point lies on the closed segment p1q1 |
| `SegmentIntersection.ParametricPointOnBothLines` | LineSegments.py:69-72 | a reported point has 0 <= t <= 1, equals p1 + t(q1 - p1), and lies on the infinite line through p2 and q2 |
| `SegmentIntersection.ParametricDiffersOnlyOffSecondSegment` | LineSegments.py:64-74 | the checked test reports a point exactly when the as-written test reports one that also lies on p2q2, and then it is the same point |
| `SegmentIntersection.DoSegmentsIntersectParametricChecked` | LineSegments.py:64-74 | with both parameters checked, a reported point lies on both closed segments, and a zero denominator gives no intersection |
| `SegmentIntersection.CheckedParametricIsExact` | LineSegments.py:64-74 | the checked parametric test reports a point iff the segments are not parallel and meet |
| `SegmentIntersection.CheckedParametricAgreesWithCcw` | LineSegments.py:19-37 | on non-parallel segments the checked parametric test and the CCW test agree |
| `SegmentIntersection.CrossingDiagonals` | LineSegments.py:25-26 | the diagonals ((0,0),(10,10)) and ((0,10),(10,0)) are reported as intersecting by every test, and both parametric tests give (5, 5) |
| `SegmentIntersection.DisjointCollinear` | LineSegments.py:28-37 | the disjoint collinear segments ((0,0),(5,0)) and ((10,0),(15,0)) are rejected by every test |
| `SegmentIntersection.CollinearOverlapMissedByParametric` | LineSegments.py:66-68 | the overlapping collinear segments ((0,0),(10,0)) and ((5,0),(15,0)) meet, and the CCW test says so, but the parametric test reports no intersection |
| `SegmentIntersection.ParametricFalsePositive` | LineSegments.py:70-72 | ((0,0),(10,0)) and ((5,5),(5,15)) do not meet, and the CCW and checked tests say so, yet the parametric test reports (5, 0) |

## Left out

- The `LineIntersectionApp` class (LineSegments.py:76-135) and the `__main__` block (LineSegments.py:137-140) are not modelled. They hold the tkinter canvas, widgets, click handling, drawing and the event loop, including the list of clicked points that grows and is reset at lines 101 and 133.
- The `print` at LineSegments.py:113 is output only.
- Floating point: the division `t_numer / t_denom` at LineSegments.py:69 and the arithmetic of `parametric_equation` are modelled as exact rational arithmetic. Rounding of IEEE doubles is not modelled, so a float run can differ when t lands within rounding error of 0 or 1.
- Coordinates are integers, as canvas clicks deliver them. The functions accept arbitrary numbers in Python; points with fractional coordinates are not modelled.
- The parametric test's mixed return value (`False` or `(True, point)`) is modelled as the datatype `ParametricResult`. Python's truthiness of a non-empty tuple is what the app tests, and it corresponds to `Intersection?`.
- `SegmentIntersection.DoSegmentsIntersectParametricChecked`: the corrected test repairs only the missing check at line 70. Like lines 67-68, it still returns no intersection whenever `t_denom` is 0, so it misses overlapping or touching collinear segments such as ((0,0),(10,0)) and ((5,0),(15,0)). Its exactness (`SegmentIntersection.CheckedParametricIsExact`) is stated for non-parallel segments only.
- `ConvexHull_Algos (1).py` is not part of this model. It contains no code these functions use.

## Findings

| source | as written | input that shows it | evidently intended | confidence | as-written member | corrected member |
|---|---|---|---|---|---|---|
| LineSegments.py:70 | only the parameter t along p1q1 is checked to lie in [0, 1]; the position of the crossing point along p2q2 is never checked | p1 = (0,0), q1 = (10,0), p2 = (5,5), q2 = (5,15): t = 0.5, the test returns `(True, (5.0, 0.0))`, but the point is outside p2q2 (u = -0.5) and the segments do not meet | also require 0 <= u <= 1 for u = ((q1 - p1) x (p1 - p2)) / `t_denom`, so that for two non-parallel segments the test reports their single common point when there is one and nothing otherwise | high, not executed | `SegmentIntersection.ParametricFalsePositive` | `SegmentIntersection.CheckedParametricIsExact` |
