/**
 * Squared distances of digitizer/geometry.py.
 *
 * Points are numpy vectors of two components; here they are pairs of
 * unbounded reals, so IEEE rounding, infinities and NaN are not modelled.
 */
module Geometry {
  import opened Wrappers

  datatype Point = Point(x: real, y: real)

  /**
   * Real multiplication under a name, so that the solver treats each product
   * as an atom; its definition is used only by the arithmetic lemmas at the
   * end of this module.
   */
  function Mul(a: real, b: real): real { a * b }

  /** Real division under a name, for the same reason as `Mul`. */
  function Div(a: real, b: real): real
    requires b != 0.0
  {
    a / b
  }

  function Sub(p: Point, q: Point): Point { Point(p.x - q.x, p.y - q.y) }
  function Add(p: Point, q: Point): Point { Point(p.x + q.x, p.y + q.y) }
  function Scale(t: real, p: Point): Point { Point(Mul(t, p.x), Mul(t, p.y)) }

  /** The `@` operator on two 2-vectors. */
  function Dot(p: Point, q: Point): real { Mul(p.x, q.x) + Mul(p.y, q.y) }

  /** The z component of the 3-D cross product: twice the signed area of (0, p, q). */
  function Cross(p: Point, q: Point): real { Mul(p.x, q.y) - Mul(p.y, q.x) }

  function Norm2(p: Point): real { Dot(p, p) }

  /** `np.minimum` on two scalars. */
  function Min(a: real, b: real): real { if a <= b then a else b }

  /** The point at parameter `t` on the line through `p0` and `p1` (p0 at t = 0, p1 at t = 1). */
  function PointAt(p0: Point, p1: Point, t: real): Point { Add(p0, Scale(t, Sub(p1, p0))) }

  /** The squared Euclidean distance: the reference the source's formulas are proved against. */
  function SquaredDistance(p: Point, q: Point): real { Norm2(Sub(p, q)) }

  /** The interior test of geometry.py:13, on the shifted endpoints a = x0 - x and b = x1 - x. */
  predicate Interior(a: Point, b: Point) {
    Dot(Sub(b, a), a) < 0.0 && Dot(Sub(b, a), b) > 0.0
  }

  // ---------------------------------------------------------------- the source

  /** geometry.py:8-10, the call with `x1` omitted: |x0 - x|^2. */
  function PointDistance2(x: Point, x0: Point): (r: real)
    ensures r == SquaredDistance(x0, x)
    ensures r >= 0.0
    ensures x0 == x ==> r == 0.0
    ensures x0 != x ==> r > 0.0
  {
    var a := Sub(x0, x);
    if x0 == x then
      NormAtOrigin(a);
      Norm2(a)
    else
      assert a.x != 0.0 || a.y != 0.0;
      NormPositive(a);
      Norm2(a)
  }

  /** geometry.py:11-19, the closed-segment branch. */
  function SegmentDistance2(x: Point, x0: Point, x1: Point): real
  {
    var a := Sub(x0, x);
    var b := Sub(x1, x);
    var dx := Sub(b, a);
    if Dot(dx, a) < 0.0 && Dot(dx, b) > 0.0 then
      InteriorNonDegenerate(a, b);
      var s := Add(a, b);
      var diff := Norm2(a) - Norm2(b);
      0.25 * (Norm2(s) - Div(Mul(diff, diff), Norm2(dx)))
    else
      Min(Norm2(a), Norm2(b))
  }

  /** `distance2(x, x0, x1=None)` of geometry.py:4, dispatching on whether `x1` is given. */
  function Distance2(x: Point, x0: Point, x1: Option<Point>): (r: real)
    ensures r >= 0.0
    ensures x1.None? ==> r == SquaredDistance(x0, x)
    ensures x1.Some? ==> r <= SquaredDistance(x0, x) && r <= SquaredDistance(x1.value, x)
  {
    match x1
    case None => PointDistance2(x, x0)
    case Some(p1) =>
      SegmentDistanceNonNegative(x, x0, p1);
      SegmentNoFartherThanEndpoints(x, x0, p1);
      SegmentDistance2(x, x0, p1)
  }

  // ---------------------------------------------------------------- what the segment formula means

  /**
   * The parameter of the segment point nearest to `x`: the foot of the
   * perpendicular in the interior branch, otherwise the nearer endpoint.
   * Its contract says that `SegmentDistance2` is attained on the segment.
   */
  function ClosestParameter(x: Point, x0: Point, x1: Point): (t: real)
    ensures 0.0 <= t <= 1.0
    ensures SquaredDistance(PointAt(x0, x1, t), x) == SegmentDistance2(x, x0, x1)
  {
    var a := Sub(x0, x);
    var b := Sub(x1, x);
    var d := Sub(b, a);
    ShiftedPointAt(x, x0, x1);
    if Interior(a, b) then
      InteriorNonDegenerate(a, b);
      var t := Div(-Dot(a, d), Norm2(d));
      InteriorParameterInRange(a, b);
      InteriorValue(a, b);
      OffsetExpansion(a, d, t);
      Lagrange(a, d);
      PerpendicularFoot(Norm2(a), Dot(a, d), Norm2(d), Cross(a, d), t);
      t
    else if Norm2(a) <= Norm2(b) then
      EndpointParameters(a, d);
      0.0
    else
      EndpointParameters(a, d);
      1.0
  }

  /** No point of the closed segment is nearer to `x` than `SegmentDistance2` says. */
  lemma SegmentDistanceIsLowerBound(x: Point, x0: Point, x1: Point, t: real)
    requires 0.0 <= t <= 1.0
    ensures SegmentDistance2(x, x0, x1) <= SquaredDistance(PointAt(x0, x1, t), x)
  {
    var a := Sub(x0, x);
    var b := Sub(x1, x);
    ShiftedPointAt(x, x0, x1);
    if Interior(a, b) {
      InteriorLowerBound(a, b, t);
    } else if Dot(Sub(b, a), a) >= 0.0 {
      NearEndLowerBound(a, Sub(b, a), t);
    } else {
      FarEndLowerBound(a, b, t);
    }
  }

  lemma SegmentDistanceNonNegative(x: Point, x0: Point, x1: Point)
    ensures SegmentDistance2(x, x0, x1) >= 0.0
  {
    var t := ClosestParameter(x, x0, x1);
    NormPositive(Sub(PointAt(x0, x1, t), x));
  }

  lemma SegmentNoFartherThanEndpoints(x: Point, x0: Point, x1: Point)
    ensures SegmentDistance2(x, x0, x1) <= SquaredDistance(x0, x)
    ensures SegmentDistance2(x, x0, x1) <= SquaredDistance(x1, x)
  {
    SegmentDistanceIsLowerBound(x, x0, x1, 0.0);
    SegmentDistanceIsLowerBound(x, x0, x1, 1.0);
    EndpointsOfSegment(x0, x1);
  }

  /** The distance is zero exactly when `x` lies on the closed segment. */
  lemma SegmentDistanceZeroIff(x: Point, x0: Point, x1: Point)
    ensures SegmentDistance2(x, x0, x1) == 0.0 <==>
      exists t :: 0.0 <= t <= 1.0 && PointAt(x0, x1, t) == x
  {
    if SegmentDistance2(x, x0, x1) == 0.0 {
      var t := ClosestParameter(x, x0, x1);
      assert PointDistance2(x, PointAt(x0, x1, t)) == 0.0;
      assert PointAt(x0, x1, t) == x;
    }
    if exists t :: 0.0 <= t <= 1.0 && PointAt(x0, x1, t) == x {
      var t :| 0.0 <= t <= 1.0 && PointAt(x0, x1, t) == x;
      SegmentDistanceIsLowerBound(x, x0, x1, t);
      assert PointDistance2(x, PointAt(x0, x1, t)) == 0.0;
      SegmentDistanceNonNegative(x, x0, x1);
    }
  }

  /** Each endpoint is at distance zero from the segment. */
  lemma SegmentDistanceZeroAtEndpoints(x0: Point, x1: Point)
    ensures SegmentDistance2(x0, x0, x1) == 0.0
    ensures SegmentDistance2(x1, x0, x1) == 0.0
  {
    EndpointsOfSegment(x0, x1);
    SegmentDistanceZeroIff(x0, x0, x1);
    SegmentDistanceZeroIff(x1, x0, x1);
  }

  /** Swapping the endpoints does not change the distance to the segment. */
  lemma SegmentDistanceSymmetric(x: Point, x0: Point, x1: Point)
    ensures SegmentDistance2(x, x0, x1) == SegmentDistance2(x, x1, x0)
  {
    var t := ClosestParameter(x, x1, x0);
    ReversedPointAt(x1, x0, t);
    SegmentDistanceIsLowerBound(x, x0, x1, 1.0 - t);
    var u := ClosestParameter(x, x0, x1);
    ReversedPointAt(x0, x1, u);
    SegmentDistanceIsLowerBound(x, x1, x0, 1.0 - u);
  }

  /** Moving the point and both endpoints by the same vector does not change the distance. */
  lemma SegmentDistanceTranslation(x: Point, x0: Point, x1: Point, v: Point)
    ensures SegmentDistance2(Add(x, v), Add(x0, v), Add(x1, v)) == SegmentDistance2(x, x0, x1)
  {
    assert Sub(Add(x0, v), Add(x, v)) == Sub(x0, x);
    assert Sub(Add(x1, v), Add(x, v)) == Sub(x1, x);
  }

  /**
   * In the interior branch with both endpoints equally far from x, the
   * correction term of geometry.py:16 vanishes and the squared distance is a
   * quarter of |a + b|^2: the squared distance to the midpoint.
   */
  lemma EquidistantInterior(x: Point, x0: Point, x1: Point, a: Point, b: Point)
    requires a == Sub(x0, x) && b == Sub(x1, x) && Interior(a, b)
    requires Norm2(a) == Norm2(b)
    ensures SegmentDistance2(x, x0, x1) == 0.25 * Norm2(Add(a, b))
  {
    InteriorFormula(x, x0, x1, a, b);
    ZeroQuotient(Norm2(a) - Norm2(b), Norm2(Sub(b, a)));
  }

  /** The interior branch of geometry.py:13-16 on the shifted endpoints a and b. */
  lemma InteriorFormula(x: Point, x0: Point, x1: Point, a: Point, b: Point)
    requires a == Sub(x0, x) && b == Sub(x1, x) && Interior(a, b)
    ensures Norm2(Sub(b, a)) > 0.0
    ensures SegmentDistance2(x, x0, x1) ==
      0.25 * (Norm2(Add(a, b)) - Div(Mul(Norm2(a) - Norm2(b), Norm2(a) - Norm2(b)), Norm2(Sub(b, a))))
  {
    InteriorNonDegenerate(a, b);
  }

  /** test_geometry.py:7: the segment from (1, 0) to (0, 1) is at squared distance 1/2 from the origin. */
  lemma ExampleUnitSegment(x: Point, x0: Point, x1: Point)
    requires x == Point(0.0, 0.0) && x0 == Point(1.0, 0.0) && x1 == Point(0.0, 1.0)
    ensures Distance2(x, x0, Some(x1)) == 0.5
  {
    UnitOffsets(x, x0, x1, Point(1.0, 0.0), Point(0.0, 1.0));
    UnitAxesInterior(x0, x1);
    UnitAxesEquidistant(x0, x1);
    UnitAxesSum(x0, x1);
    EquidistantInterior(x, x0, x1, x0, x1);
  }

  /** test_geometry.py:8: the segment from (3, 2) to (2, 3) is at squared distance 1/2 from (2, 2). */
  lemma ExampleShiftedSegment(x: Point, x0: Point, x1: Point)
    requires x == Point(2.0, 2.0) && x0 == Point(3.0, 2.0) && x1 == Point(2.0, 3.0)
    ensures Distance2(x, x0, Some(x1)) == 0.5
  {
    var a := Point(1.0, 0.0);
    var b := Point(0.0, 1.0);
    UnitOffsets(x, x0, x1, a, b);
    UnitAxesInterior(a, b);
    UnitAxesEquidistant(a, b);
    UnitAxesSum(a, b);
    EquidistantInterior(x, x0, x1, a, b);
  }

  // The arithmetic of the two cases, one fact per lemma so that each proof stays small.

  lemma UnitOffsets(x: Point, x0: Point, x1: Point, a: Point, b: Point)
    requires x0 == Add(x, Point(1.0, 0.0)) && x1 == Add(x, Point(0.0, 1.0))
    requires a == Point(1.0, 0.0) && b == Point(0.0, 1.0)
    ensures Sub(x0, x) == a && Sub(x1, x) == b
  {
  }

  lemma UnitAxesInterior(a: Point, b: Point)
    requires a == Point(1.0, 0.0) && b == Point(0.0, 1.0)
    ensures Interior(a, b)
  {
  }

  lemma UnitAxesEquidistant(a: Point, b: Point)
    requires a == Point(1.0, 0.0) && b == Point(0.0, 1.0)
    ensures Norm2(a) == Norm2(b)
  {
  }

  lemma UnitAxesSum(a: Point, b: Point)
    requires a == Point(1.0, 0.0) && b == Point(0.0, 1.0)
    ensures Norm2(Add(a, b)) == 2.0
  {
  }

  // ---------------------------------------------------------------- geometric steps

  /** PointAt is x0 at t = 0 and x1 at t = 1. */
  lemma EndpointsOfSegment(x0: Point, x1: Point)
    ensures PointAt(x0, x1, 0.0) == x0
    ensures PointAt(x0, x1, 1.0) == x1
  {
    var d := Sub(x1, x0);
    MulByZero(d.x);
    MulByZero(d.y);
    MulByOne(d.x);
    MulByOne(d.y);
  }

  /** Shifting by `x` turns the segment point at `t` into a + t (b - a), with a = x0 - x and b = x1 - x. */
  lemma ShiftedPointAt(x: Point, x0: Point, x1: Point)
    ensures Sub(Sub(x1, x), Sub(x0, x)) == Sub(x1, x0)
    ensures forall t :: Sub(PointAt(x0, x1, t), x) == Add(Sub(x0, x), Scale(t, Sub(x1, x0)))
  {
  }

  /** The point at `t` from p0 towards p1 is the point at 1 - t from p1 towards p0. */
  lemma ReversedPointAt(p0: Point, p1: Point, t: real)
    ensures PointAt(p0, p1, t) == PointAt(p1, p0, 1.0 - t)
  {
  }

  /** At t = 0 and t = 1 the offset a + t d is a and a + d. */
  lemma EndpointParameters(a: Point, d: Point)
    ensures Add(a, Scale(0.0, d)) == a
    ensures Add(a, Scale(1.0, d)) == Add(a, d)
  {
    MulByZero(d.x);
    MulByZero(d.y);
    MulByOne(d.x);
    MulByOne(d.y);
  }

  /** The division of geometry.py:16 is reached only with a non-zero divisor. */
  lemma InteriorNonDegenerate(a: Point, b: Point)
    requires Interior(a, b)
    ensures Norm2(Sub(b, a)) > 0.0
  {
    var d := Sub(b, a);
    NormPositive(d);
    DotWithOrigin(d, a);
  }

  /** In the interior branch the foot of the perpendicular lies strictly inside the segment. */
  lemma InteriorParameterInRange(a: Point, b: Point)
    requires Interior(a, b)
    ensures Norm2(Sub(b, a)) > 0.0
    ensures 0.0 < Div(-Dot(a, Sub(b, a)), Norm2(Sub(b, a))) < 1.0
  {
    InteriorNonDegenerate(a, b);
    var d := Sub(b, a);
    DotSymmetric(d, a);
    DotShift(d, a, d);
    assert Add(a, d) == b;
    RatioInUnitInterval(-Dot(a, d), Norm2(d));
  }

  /** The interior formula of geometry.py:16 equals (a x d)^2 / |d|^2, the squared height over the base d. */
  lemma InteriorValue(a: Point, b: Point)
    requires Interior(a, b)
    ensures Norm2(Sub(b, a)) > 0.0
    ensures var d := Sub(b, a); var s := Add(a, b); var diff := Norm2(a) - Norm2(b);
      0.25 * (Norm2(s) - Div(Mul(diff, diff), Norm2(d))) == Div(Mul(Cross(a, d), Cross(a, d)), Norm2(d))
  {
    InteriorNonDegenerate(a, b);
    var d := Sub(b, a);
    var s := Add(a, b);
    var diff := Norm2(a) - Norm2(b);
    DifferenceOfSquares(a, b);
    assert diff == -Dot(d, s);
    NegatedSquare(Dot(d, s));
    CrossOfSumAndDifference(a, b);
    ScaledSquare(Cross(a, d));
    Lagrange(d, s);
    QuotientStep(Norm2(s), Norm2(d), Mul(Dot(d, s), Dot(d, s)), Mul(Cross(a, d), Cross(a, d)));
  }

  lemma InteriorLowerBound(a: Point, b: Point, t: real)
    requires Interior(a, b)
    ensures var d := Sub(b, a); var s := Add(a, b); var diff := Norm2(a) - Norm2(b);
      Norm2(d) > 0.0 &&
      0.25 * (Norm2(s) - Div(Mul(diff, diff), Norm2(d))) <= Norm2(Add(a, Scale(t, d)))
  {
    var d := Sub(b, a);
    InteriorValue(a, b);
    OffsetExpansion(a, d, t);
    Lagrange(a, d);
    PerpendicularBound(Norm2(a), Dot(a, d), Norm2(d), Cross(a, d), t);
  }

  /** When x projects before x0 (d.a >= 0), the nearest point is x0. */
  lemma NearEndLowerBound(a: Point, d: Point, t: real)
    requires Dot(d, a) >= 0.0
    requires 0.0 <= t
    ensures Norm2(a) <= Norm2(Add(a, Scale(t, d)))
  {
    OffsetExpansion(a, d, t);
    DotSymmetric(d, a);
    NormPositive(d);
    NonNegativeTerms(Dot(a, d), Norm2(d), t);
  }

  /** When x projects beyond x1 (d.b <= 0), the nearest point is x1. */
  lemma FarEndLowerBound(a: Point, b: Point, t: real)
    requires Dot(Sub(b, a), b) <= 0.0
    requires t <= 1.0
    ensures Norm2(b) <= Norm2(Add(a, Scale(t, Sub(b, a))))
  {
    var d := Sub(b, a);
    var u := 1.0 - t;
    var md := Sub(a, b);
    ReverseOffset(a, b, t);
    assert Dot(md, b) >= 0.0 by { DotReversed(a, b); }
    NearEndLowerBound(b, md, u);
  }

  // ---------------------------------------------------------------- algebraic identities

  /** |a + t d|^2 expanded in t. */
  lemma OffsetExpansion(a: Point, d: Point, t: real)
    ensures Norm2(Add(a, Scale(t, d))) == Norm2(a) + 2.0 * Mul(t, Dot(a, d)) + Mul(Mul(t, t), Norm2(d))
  {
    SquareOfOffset(a.x, d.x, t);
    SquareOfOffset(a.y, d.y, t);
    MulDistributes(t, Mul(a.x, d.x), Mul(a.y, d.y));
    MulDistributes(Mul(t, t), Mul(d.x, d.x), Mul(d.y, d.y));
  }

  /** The scalar case of `OffsetExpansion`. */
  lemma SquareOfOffset(a: real, d: real, t: real)
    ensures Mul(a + Mul(t, d), a + Mul(t, d)) == Mul(a, a) + 2.0 * Mul(t, Mul(a, d)) + Mul(Mul(t, t), Mul(d, d))
  {
  }

  lemma MulDistributes(c: real, u: real, v: real)
    ensures Mul(c, u + v) == Mul(c, u) + Mul(c, v)
  {
  }

  /** a + t (b - a) = b + (1 - t) (a - b). */
  lemma ReverseOffset(a: Point, b: Point, t: real)
    ensures Add(a, Scale(t, Sub(b, a))) == Add(b, Scale(1.0 - t, Sub(a, b)))
  {
    ScalarReverse(a.x, b.x, t);
    ScalarReverse(a.y, b.y, t);
  }

  /** The scalar case of `ReverseOffset`. */
  lemma ScalarReverse(a: real, b: real, t: real)
    ensures a + Mul(t, b - a) == b + Mul(1.0 - t, a - b)
  {
  }

  lemma DotSymmetric(p: Point, q: Point)
    ensures Dot(p, q) == Dot(q, p)
  {
  }

  lemma DotShift(d: Point, a: Point, e: Point)
    ensures Dot(d, Add(a, e)) == Dot(a, d) + Dot(d, e)
  {
  }

  lemma DotReversed(a: Point, b: Point)
    ensures Dot(Sub(a, b), b) == -Dot(Sub(b, a), b)
  {
  }

  lemma DotWithOrigin(d: Point, a: Point)
    ensures d.x == 0.0 && d.y == 0.0 ==> Dot(d, a) == 0.0
  {
    if d.x == 0.0 && d.y == 0.0 {
      MulByZero(a.x);
      MulByZero(a.y);
    }
  }

  /** |a|^2 - |b|^2 = -(b - a).(a + b). */
  lemma DifferenceOfSquares(a: Point, b: Point)
    ensures Norm2(a) - Norm2(b) == -Dot(Sub(b, a), Add(a, b))
  {
  }

  /** (b - a) x (a + b) = -2 (a x (b - a)). */
  lemma CrossOfSumAndDifference(a: Point, b: Point)
    ensures Cross(Sub(b, a), Add(a, b)) == -2.0 * Cross(a, Sub(b, a))
  {
  }

  /** Lagrange's identity in the plane: |p|^2 |q|^2 = (p.q)^2 + (p x q)^2. */
  lemma Lagrange(p: Point, q: Point)
    ensures Mul(Norm2(p), Norm2(q)) == Mul(Dot(p, q), Dot(p, q)) + Mul(Cross(p, q), Cross(p, q))
  {
  }

  lemma NormPositive(p: Point)
    ensures Norm2(p) >= 0.0
    ensures p.x != 0.0 || p.y != 0.0 ==> Norm2(p) > 0.0
  {
    SquareSign(p.x);
    SquareSign(p.y);
  }

  lemma NormAtOrigin(p: Point)
    requires p.x == 0.0 && p.y == 0.0
    ensures Norm2(p) == 0.0
  {
    MulByZero(p.x);
    MulByZero(p.y);
  }

  // ---------------------------------------------------------------- arithmetic on reals

  lemma SquareSign(r: real)
    ensures !(Mul(r, r) < 0.0)
    ensures r != 0.0 ==> Mul(r, r) > 0.0
  {
    if r > 0.0 {
      MulPositive(r, r);
    } else if r < 0.0 {
      MulNegatives(r, r);
    } else {
      MulByZero(r);
    }
  }

  lemma MulPositive(a: real, b: real)
    requires a > 0.0 && b > 0.0
    ensures Mul(a, b) > 0.0
  {
  }

  lemma MulNegatives(a: real, b: real)
    requires a < 0.0 && b < 0.0
    ensures Mul(a, b) > 0.0
  {
    assert Mul(a, b) == Mul(-a, -b);
    MulPositive(-a, -b);
  }

  lemma MulByZero(b: real)
    ensures Mul(0.0, b) == 0.0
  {
  }

  lemma MulByOne(b: real)
    ensures Mul(1.0, b) == b
  {
  }

  lemma NegatedSquare(u: real)
    ensures Mul(-u, -u) == Mul(u, u)
  {
  }

  lemma ScaledSquare(c: real)
    ensures Mul(-2.0 * c, -2.0 * c) == 4.0 * Mul(c, c)
  {
  }

  lemma ZeroQuotient(u: real, n: real)
    requires u == 0.0 && n != 0.0
    ensures Div(Mul(u, u), n) == 0.0
  {
    MulByZero(0.0);
  }

  lemma QuotientStep(ns: real, n: real, m: real, k: real)
    requires n > 0.0
    requires Mul(n, ns) == m + 4.0 * k
    ensures 0.25 * (ns - Div(m, n)) == Div(k, n)
  {
    assert n * ns == m + 4.0 * k;
    assert ns == (m + 4.0 * k) / n;
  }

  lemma RatioInUnitInterval(p: real, q: real)
    requires 0.0 < p < q
    ensures 0.0 < Div(p, q) < 1.0
  {
    var r := p / q;
    assert r * q == p;
    var s := 1.0 - r;
    assert s * q == q - p;
    assert s == (q - p) / q;
  }

  lemma NonNegativeTerms(dd: real, n: real, t: real)
    requires dd >= 0.0 && n >= 0.0 && t >= 0.0
    ensures 2.0 * Mul(t, dd) + Mul(Mul(t, t), n) >= 0.0
  {
    assert t * dd >= 0.0;
    assert t * t >= 0.0;
    assert (t * t) * n >= 0.0;
  }

  /**
   * With n |a|^2 = D^2 + C^2 (Lagrange), the quadratic |a|^2 + 2 t D + t^2 n
   * never drops below C^2 / n ...
   */
  lemma PerpendicularBound(na: real, dd: real, n: real, c: real, t: real)
    requires n > 0.0
    requires Mul(na, n) == Mul(dd, dd) + Mul(c, c)
    ensures Div(Mul(c, c), n) <= na + 2.0 * Mul(t, dd) + Mul(Mul(t, t), n)
  {
    var q := na + 2.0 * Mul(t, dd) + Mul(Mul(t, t), n);
    var e := t * n + dd;
    assert n * q == e * e + c * c;
    SquareSign(e);
    assert n * q >= c * c;
    assert q - (c * c) / n == (n * q - c * c) / n;
  }

  /** ... and reaches it at t = -D / n. */
  lemma PerpendicularFoot(na: real, dd: real, n: real, c: real, t: real)
    requires n > 0.0
    requires Mul(na, n) == Mul(dd, dd) + Mul(c, c)
    requires t == Div(-dd, n)
    ensures na + 2.0 * Mul(t, dd) + Mul(Mul(t, t), n) == Div(Mul(c, c), n)
  {
    assert t * n + dd == 0.0;
    var q := na + 2.0 * Mul(t, dd) + Mul(Mul(t, t), n);
    assert n * q == (t * n + dd) * (t * n + dd) + c * c;
  }
}
