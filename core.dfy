/**
 * The path objects of digitizer/core.py:59-103. A `Path` wraps one SVG path
 * element, caches the interpreter's output, and measures how far a point is
 * from it; `Paths` holds the path elements of a document in document order
 * and picks the one nearest to a point.
 *
 * `np.nan` is `None`; `np.min` and `np.nanargmin` are `MinOf` and `NanArgMin`.
 */
module Core {
  import opened Wrappers
  import opened Geometry
  import Interp = AbsPath
  import Tokens

  type Error = Interp.Error

  // ---------------------------------------------------------------- numpy reductions

  /** `np.min` of a non-empty list. */
  function MinOf(xs: seq<real>): (m: real)
    requires |xs| > 0
    ensures m in xs
    ensures forall k :: 0 <= k < |xs| ==> m <= xs[k]
  {
    if |xs| == 1 then xs[0] else Min(xs[0], MinOf(xs[1..]))
  }

  /** A bound below every entry is below the least entry. */
  lemma MinOfAtLeast(xs: seq<real>, lo: real)
    requires |xs| > 0
    requires forall k :: 0 <= k < |xs| ==> lo <= xs[k]
    ensures lo <= MinOf(xs)
  {
    var k :| 0 <= k < |xs| && xs[k] == MinOf(xs);
  }

  /**
   * `np.nanargmin`: the first index of the least value that is not NaN. A list
   * with no such value, the empty list included, raises ValueError.
   */
  function NanArgMin(ds: seq<Option<real>>): (r: Result<nat, Error>)
    ensures r.Failure? <==> forall k :: 0 <= k < |ds| ==> ds[k].None?
    ensures r.Failure? ==> r.error == Interp.AllNaNValueError
    ensures r.Success? ==> r.value < |ds| && ds[r.value].Some?
    ensures r.Success? ==> forall k :: 0 <= k < |ds| && ds[k].Some? ==> ds[r.value].value <= ds[k].value
    ensures r.Success? ==> forall k :: 0 <= k < r.value && ds[k].Some? ==> ds[r.value].value < ds[k].value
    decreases |ds|
  {
    if |ds| == 0 then Failure(Interp.AllNaNValueError)
    else
      var last := |ds| - 1;
      match NanArgMin(ds[..last])
      case Failure(e) => if ds[last].Some? then Success(last) else Failure(e)
      case Success(j) => if ds[last].Some? && ds[last].value < ds[j].value then Success(last) else Success(j)
  }

  // ---------------------------------------------------------------- Path.distance2 as written

  /**
   * The list built at core.py:79-82, with the arguments in the order the code
   * passes them: entry `i` is the distance from vertex `i` to the segment from
   * vertex `i + 1` to `point`, so it is no more than the distance from vertex
   * `i` to either end of that segment.
   */
  function AsWrittenSegmentDistances(pts: seq<Point>, point: Point): (ds: seq<real>)
    requires |pts| >= 2
    ensures |ds| == |pts| - 1
    ensures forall i :: 0 <= i < |ds| ==>
      0.0 <= ds[i] && ds[i] <= SquaredDistance(point, pts[i]) && ds[i] <= SquaredDistance(pts[i + 1], pts[i])
    decreases |pts|
  {
    if |pts| == 2 then [Distance2(pts[0], pts[1], Some(point))]
    else [Distance2(pts[0], pts[1], Some(point))] + AsWrittenSegmentDistances(pts[1..], point)
  }

  /** Entry `i` of the as-written list is the segment distance of geometry.py:11-19 for those arguments. */
  lemma {:induction false} AsWrittenSegmentDistanceAt(pts: seq<Point>, point: Point, i: nat)
    requires i < |pts| - 1
    ensures AsWrittenSegmentDistances(pts, point)[i] == SegmentDistance2(pts[i], pts[i + 1], point)
    decreases i
  {
    if i > 0 {
      AsWrittenSegmentDistanceAt(pts[1..], point, i - 1);
    }
  }

  /**
   * `Path.distance2` of core.py:71-83 as written. The call at core.py:80-81
   * passes vertex `i` where `geometry.distance2` expects the query point, so
   * each entry is the distance from vertex `i` to the segment joining vertex
   * `i + 1` and the query point.
   */
  function AsWrittenPathDistance2(pts: seq<Point>, point: Point): (r: Option<real>)
    ensures r.None? <==> |pts| == 0
    ensures r.Some? ==> r.value >= 0.0
    ensures |pts| == 1 ==> r == Some(PointDistance2(point, pts[0]))
    ensures forall i :: 0 <= i < |pts| - 1 ==> r.Some? && r.value <= SquaredDistance(point, pts[i])
  {
    if |pts| == 0 then None
    else if |pts| == 1 then Some(SquaredDistance(pts[0], point))
    else
      var ds := AsWrittenSegmentDistances(pts, point);
      MinOfAtLeast(ds, 0.0);
      Some(MinOf(ds))
  }

  /**
   * A path that visits `p` twice in a row is, as written, at distance zero from
   * every point, while its true squared distance is the one to `p`.
   */
  lemma RepeatedVertexAsWritten(p: Point, point: Point)
    requires p != point
    ensures AsWrittenPathDistance2([p, p], point) == Some(0.0)
    ensures PathDistance2([p, p], point) == Some(SquaredDistance(p, point))
    ensures SquaredDistance(p, point) > 0.0
  {
    SegmentDistanceZeroAtEndpoints(p, point);
    AsWrittenSegmentDistanceAt([p, p], point, 0);
    assert AsWrittenSegmentDistances([p, p], point) == [0.0];
    var a := Sub(p, point);
    DotWithOrigin(Sub(a, a), a);
    assert SegmentDistance2(point, p, p) == Norm2(a);
    SegmentDistanceAt([p, p], point, 0);
    assert SegmentDistances([p, p], point) == [Norm2(a)];
    assert PointDistance2(point, p) > 0.0;
  }

  /**
   * The `d` attribute "M 10 10 L 10 10", a lineto to the point just visited,
   * gives the path [(10, 10), (10, 10)]: as written it is at distance 0 from
   * every other point, while its true squared distance is positive.
   */
  lemma RepeatedVertexFromAttribute(parse: Interp.Parser, point: Point)
    requires parse("10") == Some(10.0) && point != Point(10.0, 10.0)
    ensures var r := Interp.AbsPath(parse, Tokens.Join(["M", "10", "10", "L", "10", "10"]));
      && r == Success([Point(10.0, 10.0), Point(10.0, 10.0)])
      && AsWrittenPathDistance2(r.value, point) == Some(0.0)
      && PathDistance2(r.value, point).value > 0.0
  {
    Interp.ExampleRepeatedVertex(parse);
    RepeatedVertexAsWritten(Point(10.0, 10.0), point);
  }

  /**
   * As written, every path of two or more points is within the length of its
   * first segment of every point: a path with a short first segment scores
   * near 0 wherever the query point is.
   */
  lemma AsWrittenWithinFirstSegment(pts: seq<Point>, point: Point)
    requires |pts| >= 2
    ensures AsWrittenPathDistance2(pts, point).value <= SquaredDistance(pts[1], pts[0])
  {
    var ds := AsWrittenSegmentDistances(pts, point);
    assert MinOf(ds) <= ds[0];
  }

  // ---------------------------------------------------------------- Path.distance2 as intended

  /**
   * The list of core.py:79-82 with the query point passed first, as
   * `geometry.distance2` declares: entry `i` is the distance from `point` to the
   * segment from vertex `i` to vertex `i + 1`.
   */
  function SegmentDistances(pts: seq<Point>, point: Point): (ds: seq<real>)
    requires |pts| >= 2
    ensures |ds| == |pts| - 1
    ensures forall i :: 0 <= i < |ds| ==>
      0.0 <= ds[i] && ds[i] <= SquaredDistance(pts[i], point) && ds[i] <= SquaredDistance(pts[i + 1], point)
    decreases |pts|
  {
    if |pts| == 2 then [Distance2(point, pts[0], Some(pts[1]))]
    else [Distance2(point, pts[0], Some(pts[1]))] + SegmentDistances(pts[1..], point)
  }

  /** Entry `i` of the list is the distance from `point` to segment `i`. */
  lemma {:induction false} SegmentDistanceAt(pts: seq<Point>, point: Point, i: nat)
    requires i < |pts| - 1
    ensures SegmentDistances(pts, point)[i] == SegmentDistance2(point, pts[i], pts[i + 1])
    decreases i
  {
    if i > 0 {
      SegmentDistanceAt(pts[1..], point, i - 1);
    }
  }

  /** The squared distance from `point` to the polyline `pts`, which `Path.distance2` is meant to return. */
  function PathDistance2(pts: seq<Point>, point: Point): (r: Option<real>)
    ensures r.None? <==> |pts| == 0
    ensures r.Some? ==> r.value >= 0.0
    ensures forall i :: 0 <= i < |pts| ==> r.Some? && r.value <= SquaredDistance(pts[i], point)
  {
    if |pts| == 0 then None
    else if |pts| == 1 then Some(SquaredDistance(pts[0], point))
    else
      var ds := SegmentDistances(pts, point);
      MinOfAtLeast(ds, 0.0);
      VerticesBound(pts, point, ds);
      Some(MinOf(ds))
  }

  /** Every vertex is an endpoint of some segment, so the least segment distance bounds the vertex distances. */
  lemma VerticesBound(pts: seq<Point>, point: Point, ds: seq<real>)
    requires |pts| >= 2 && ds == SegmentDistances(pts, point)
    ensures forall i :: 0 <= i < |pts| ==> MinOf(ds) <= SquaredDistance(pts[i], point)
  {
    forall i | 0 <= i < |pts|
      ensures MinOf(ds) <= SquaredDistance(pts[i], point)
    {
      if i < |ds| {
        assert MinOf(ds) <= ds[i];
      } else {
        assert MinOf(ds) <= ds[i - 1];
      }
    }
  }

  /** The point at parameter `t` of the segment from vertex `i` to vertex `i + 1`. */
  function SegmentPoint(pts: seq<Point>, i: nat, t: real): Point
    requires i < |pts| - 1
  {
    PointAt(pts[i], pts[i + 1], t)
  }

  /** A path of one point is at the point-to-point distance of geometry.py:8-10 (core.py:74-77). */
  lemma SinglePointDistance(p: Point, point: Point)
    ensures PathDistance2([p], point) == Some(PointDistance2(point, p))
    ensures AsWrittenPathDistance2([p], point) == Some(PointDistance2(point, p))
  {
  }

  /** A point of the polyline: its only vertex, or a point of one of its segments. */
  ghost predicate OnPath(pts: seq<Point>, q: Point) {
    (|pts| == 1 && pts[0] == q) ||
    exists i: nat, t: real :: i < |pts| - 1 && 0.0 <= t <= 1.0 && SegmentPoint(pts, i, t) == q
  }

  /** No point of the polyline is nearer to `point` than `PathDistance2` says. */
  lemma PathDistanceIsLowerBound(pts: seq<Point>, point: Point, i: nat, t: real)
    requires i < |pts| - 1 && 0.0 <= t <= 1.0
    ensures PathDistance2(pts, point).Some?
    ensures PathDistance2(pts, point).value <= SquaredDistance(SegmentPoint(pts, i, t), point)
  {
    var ds := SegmentDistances(pts, point);
    assert MinOf(ds) <= ds[i];
    SegmentDistanceAt(pts, point, i);
    SegmentDistanceIsLowerBound(point, pts[i], pts[i + 1], t);
  }

  /** `PathDistance2` is attained at some point of a polyline with at least one segment. */
  lemma PathDistanceAttained(pts: seq<Point>, point: Point) returns (i: nat, t: real)
    requires |pts| >= 2
    ensures i < |pts| - 1 && 0.0 <= t <= 1.0
    ensures PathDistance2(pts, point) == Some(SquaredDistance(SegmentPoint(pts, i, t), point))
  {
    var ds := SegmentDistances(pts, point);
    var m := MinOf(ds);
    i :| 0 <= i < |ds| && ds[i] == m;
    SegmentDistanceAt(pts, point, i);
    t := ClosestParameter(point, pts[i], pts[i + 1]);
  }

  /** The distance is zero exactly when the point lies on the polyline. */
  lemma PathDistanceZeroIff(pts: seq<Point>, point: Point)
    ensures PathDistance2(pts, point) == Some(0.0) <==> OnPath(pts, point)
  {
    if PathDistance2(pts, point) == Some(0.0) {
      ZeroDistanceOnPath(pts, point);
    }
    if OnPath(pts, point) {
      OnPathZeroDistance(pts, point);
    }
  }

  lemma ZeroDistanceOnPath(pts: seq<Point>, point: Point)
    requires PathDistance2(pts, point) == Some(0.0)
    ensures OnPath(pts, point)
  {
    if |pts| == 1 {
      SinglePointDistance(pts[0], point);
    } else {
      var i, t := PathDistanceAttained(pts, point);
      assert PointDistance2(point, SegmentPoint(pts, i, t)) == 0.0;
    }
  }

  lemma OnPathZeroDistance(pts: seq<Point>, point: Point)
    requires OnPath(pts, point)
    ensures PathDistance2(pts, point) == Some(0.0)
  {
    if |pts| == 1 {
      SinglePointDistance(pts[0], point);
    } else {
      var i: nat, t: real :| i < |pts| - 1 && 0.0 <= t <= 1.0 && SegmentPoint(pts, i, t) == point;
      OnSegmentZeroDistance(pts, point, i, t);
    }
  }

  lemma OnSegmentZeroDistance(pts: seq<Point>, point: Point, i: nat, t: real)
    requires i < |pts| - 1 && 0.0 <= t <= 1.0 && SegmentPoint(pts, i, t) == point
    ensures PathDistance2(pts, point) == Some(0.0)
  {
    PathDistanceIsLowerBound(pts, point, i, t);
    var r := PathDistance2(pts, point);
    assert r.Some? && r.value >= 0.0;
    assert r.value <= SquaredDistance(point, point);
    assert PointDistance2(point, point) == 0.0;
    assert r.value == 0.0;
  }

  // ---------------------------------------------------------------- Path

  /** core.py:59-83: one path element, known by its `d` attribute, with `abs_path` cached. */
  class Path {
    /** The `d` attribute of the path element. */
    const d: string
    /** `float` as the interpreter applies it to operand tokens. */
    const parse: Interp.Parser
    /** `_abs_path`: `None` until the interpreter has returned a list. */
    var cache: Option<seq<Point>>
    /** The number of times this path has run the interpreter. */
    ghost var runs: nat

    /** A cached list is the interpreter's output for `d`. */
    predicate Valid()
      reads this
    {
      cache.Some? ==> Interp.AbsPath(parse, d) == Success(cache.value)
    }

    /** core.py:60-62. */
    constructor(d: string, parse: Interp.Parser)
      ensures this.d == d && this.parse == parse
      ensures cache == None && runs == 0
      ensures Valid()
    {
      this.d := d;
      this.parse := parse;
      cache := None;
      runs := 0;
    }

    /**
     * The `abs_path` property of core.py:64-69: the interpreter runs only while
     * nothing is cached, and a list it returns is kept; an exception leaves
     * the cache empty.
     */
    method AbsPath() returns (r: Result<seq<Point>, Error>)
      requires Valid()
      modifies this
      ensures Valid()
      ensures r == Interp.AbsPath(parse, d)
      ensures old(cache).Some? ==> cache == old(cache) && runs == old(runs)
      ensures old(cache).None? ==> runs == old(runs) + 1 && cache == (if r.Success? then Some(r.value) else None)
    {
      if cache.None? {
        r := Interp.ComputeAbsPath(parse, d);
        runs := runs + 1;
        if r.Success? {
          cache := Some(r.value);
        }
      } else {
        r := Success(cache.value);
      }
    }

    /** core.py:71-83: `None` for an empty path, otherwise the as-written distance. */
    method Distance2(point: Point) returns (r: Result<Option<real>, Error>)
      requires Valid()
      modifies this
      ensures Valid()
      ensures r == match Interp.AbsPath(parse, d)
        case Failure(e) => Failure(e)
        case Success(pts) => Success(AsWrittenPathDistance2(pts, point))
      ensures old(cache).Some? ==> cache == old(cache) && runs == old(runs)
      ensures old(cache).None? ==> runs == old(runs) + 1
      ensures old(cache).None? ==>
        cache == (match Interp.AbsPath(parse, d) case Failure(_) => None case Success(pts) => Some(pts))
    {
      var pts := AbsPath();
      if pts.Failure? {
        return Failure(pts.error);
      }
      r := Success(AsWrittenPathDistance2(pts.value, point));
    }
  }

  // ---------------------------------------------------------------- Paths

  /** The interpreter's output for the path element of `p`. */
  function PointsOf(p: Path): Result<seq<Point>, Error> {
    Interp.AbsPath(p.parse, p.d)
  }

  /** The interpreter's output for every path element, in document order. */
  function Outputs(paths: seq<Path>): seq<Result<seq<Point>, Error>> {
    seq(|paths|, k requires 0 <= k < |paths| => PointsOf(paths[k]))
  }

  /**
   * The list `distances` of core.py:101 built from the interpreter's outputs,
   * or the first exception raised while building it.
   */
  function Distances(outs: seq<Result<seq<Point>, Error>>, point: Point): (r: Result<seq<Option<real>>, Error>)
    ensures r.Success? <==> forall k :: 0 <= k < |outs| ==> outs[k].Success?
    ensures r.Success? ==> |r.value| == |outs|
    ensures r.Success? ==> forall k :: 0 <= k < |outs| ==> r.value[k] == AsWrittenPathDistance2(outs[k].value, point)
    decreases |outs|
  {
    if |outs| == 0 then Success([])
    else
      var last := |outs| - 1;
      PrefixSucceeds(outs, last);
      match Distances(outs[..last], point)
      case Failure(e) => Failure(e)
      case Success(ds) =>
        match outs[last]
        case Failure(e) => Failure(e)
        case Success(pts) =>
          DistanceAppended(outs, point, ds);
          Success(ds + [AsWrittenPathDistance2(pts, point)])
  }

  /** Every output succeeds exactly when those before the last one do and the last one does. */
  lemma PrefixSucceeds(outs: seq<Result<seq<Point>, Error>>, last: nat)
    requires last == |outs| - 1
    ensures (forall k :: 0 <= k < |outs| ==> outs[k].Success?) <==>
      (forall k :: 0 <= k < last ==> outs[..last][k].Success?) && outs[last].Success?
  {
    assert forall k :: 0 <= k < last ==> outs[..last][k] == outs[k];
  }

  /** The distances of all outputs but the last, followed by the last one's, are the distances of all outputs. */
  lemma DistanceAppended(outs: seq<Result<seq<Point>, Error>>, point: Point, ds: seq<Option<real>>)
    requires |outs| > 0 && |ds| == |outs| - 1 && outs[|outs| - 1].Success?
    requires forall k :: 0 <= k < |ds| ==>
      outs[..|ds|][k].Success? && ds[k] == AsWrittenPathDistance2(outs[..|ds|][k].value, point)
    ensures var all := ds + [AsWrittenPathDistance2(outs[|outs| - 1].value, point)];
      forall k :: 0 <= k < |outs| ==> outs[k].Success? && all[k] == AsWrittenPathDistance2(outs[k].value, point)
  {
    assert forall k :: 0 <= k < |ds| ==> outs[..|ds|][k] == outs[k];
  }

  /** What `find_nearest` picks: the index of the nearest path, or the exception it raises. */
  function Nearest(paths: seq<Path>, point: Point): Result<nat, Error> {
    match Distances(Outputs(paths), point)
    case Failure(e) => Failure(e)
    case Success(ds) => NanArgMin(ds)
  }

  /** With no exception, entry `k` of `distances` is NaN exactly when path `k` has no points. */
  lemma DistancesOfPaths(paths: seq<Path>, point: Point)
    requires forall k :: 0 <= k < |paths| ==> PointsOf(paths[k]).Success?
    ensures Distances(Outputs(paths), point).Success?
    ensures |Distances(Outputs(paths), point).value| == |paths|
    ensures forall k :: 0 <= k < |paths| ==>
      Distances(Outputs(paths), point).value[k] == AsWrittenPathDistance2(PointsOf(paths[k]).value, point)
  {
  }

  /**
   * `find_nearest` raises the ValueError of `nanargmin` exactly when every path
   * is empty, or there is no path.
   */
  lemma NearestFailsWhenAllEmpty(paths: seq<Path>, point: Point)
    requires forall k :: 0 <= k < |paths| ==> PointsOf(paths[k]).Success?
    ensures Nearest(paths, point).Failure? <==> forall k :: 0 <= k < |paths| ==> PointsOf(paths[k]).value == []
    ensures Nearest(paths, point).Failure? ==> Nearest(paths, point).error == Interp.AllNaNValueError
  {
    DistancesOfPaths(paths, point);
  }

  /** The path `find_nearest` picks is non-empty and no farther than any other non-empty path. */
  lemma NearestIsLeast(paths: seq<Path>, point: Point, k: nat)
    requires forall j :: 0 <= j < |paths| ==> PointsOf(paths[j]).Success?
    requires Nearest(paths, point).Success?
    requires k < |paths| && PointsOf(paths[k]).value != []
    ensures var i := Nearest(paths, point).value;
      i < |paths| && PointsOf(paths[i]).value != [] &&
      AsWrittenPathDistance2(PointsOf(paths[i]).value, point).value <=
      AsWrittenPathDistance2(PointsOf(paths[k]).value, point).value
  {
    DistancesOfPaths(paths, point);
  }

  /** Every non-empty path before the one `find_nearest` picks is strictly farther. */
  lemma NearestIsFirst(paths: seq<Path>, point: Point, k: nat)
    requires forall j :: 0 <= j < |paths| ==> PointsOf(paths[j]).Success?
    requires Nearest(paths, point).Success?
    requires k < Nearest(paths, point).value && PointsOf(paths[k]).value != []
    ensures var i := Nearest(paths, point).value;
      i < |paths| && PointsOf(paths[i]).value != [] &&
      AsWrittenPathDistance2(PointsOf(paths[i]).value, point).value <
      AsWrittenPathDistance2(PointsOf(paths[k]).value, point).value
  {
    DistancesOfPaths(paths, point);
  }

  /** An exception raised by a path's interpreter is the exception of `find_nearest`. */
  lemma NearestRaises(paths: seq<Path>, point: Point, k: nat)
    requires k < |paths| && PointsOf(paths[k]).Failure?
    requires forall j :: 0 <= j < k ==> PointsOf(paths[j]).Success?
    ensures Nearest(paths, point) == Failure(PointsOf(paths[k]).error)
    ensures Nearest(paths, point).error.FloatValueError? || Nearest(paths, point).error.IndexError?
  {
    var outs := Outputs(paths);
    var prefix := outs[..k + 1];
    assert prefix[..k] == outs[..k];
    assert Distances(outs[..k], point).Success?;
    assert Distances(prefix, point) == Failure(PointsOf(paths[k]).error);
    DistancesFailureSticks(outs, point, k + 1);
    Interp.RunRaises(paths[k].parse, Tokens.Tokenize(paths[k].d));
  }

  /** An exception while building a prefix of `distances` is the exception of the whole list. */
  lemma {:induction false} DistancesFailureSticks(outs: seq<Result<seq<Point>, Error>>, point: Point, n: nat)
    requires n <= |outs|
    requires Distances(outs[..n], point).Failure?
    ensures Distances(outs, point) == Distances(outs[..n], point)
    decreases |outs| - n
  {
    if n < |outs| {
      assert outs[..n + 1][..n] == outs[..n];
      DistancesFailureSticks(outs, point, n + 1);
    } else {
      assert outs[..n] == outs;
    }
  }

  /** One more path measured: its distance is appended, or its exception is the exception of the whole list. */
  lemma DistancesNext(outs: seq<Result<seq<Point>, Error>>, point: Point, k: nat, ds: seq<Option<real>>)
    requires k < |outs| && Distances(outs[..k], point) == Success(ds)
    ensures outs[k].Failure? ==> Distances(outs, point) == Failure(outs[k].error)
    ensures outs[k].Success? ==> Distances(outs[..k + 1], point) == Success(ds + [AsWrittenPathDistance2(outs[k].value, point)])
  {
    assert outs[..k + 1][..k] == outs[..k];
    if outs[k].Failure? {
      DistancesFailureSticks(outs, point, k + 1);
    }
  }

  /** core.py:86-103: the path elements of one document, in document order. */
  class Paths {
    const paths: seq<Path>

    predicate Valid()
      reads paths
    {
      forall k :: 0 <= k < |paths| ==> paths[k].Valid()
    }

    /** core.py:90-94, given the `d` attribute of every path element instead of the SVG text. */
    constructor(ds: seq<string>, parse: Interp.Parser)
      ensures |paths| == |ds|
      ensures forall k :: 0 <= k < |ds| ==>
        paths[k].d == ds[k] && paths[k].parse == parse && paths[k].cache.None? && fresh(paths[k])
      ensures Valid()
    {
      var ps: seq<Path> := [];
      for k := 0 to |ds|
        invariant |ps| == k
        invariant forall j :: 0 <= j < k ==>
          ps[j].d == ds[j] && ps[j].parse == parse && ps[j].cache.None? && fresh(ps[j])
      {
        var p := new Path(ds[k], parse);
        ps := ps + [p];
      }
      paths := ps;
    }

    /** core.py:96-103: measures every path in order, then applies `nanargmin`. */
    method FindNearest(point: Point) returns (r: Result<Path, Error>)
      requires Valid()
      modifies paths
      ensures Valid()
      ensures match Nearest(paths, point)
        case Failure(e) => r == Failure(e)
        case Success(i) => i < |paths| && r == Success(paths[i])
    {
      ghost var outs := Outputs(paths);
      var ds: seq<Option<real>> := [];
      for k := 0 to |paths|
        invariant Valid()
        invariant Distances(outs[..k], point) == Success(ds)
      {
        var dk := paths[k].Distance2(point);
        DistancesNext(outs, point, k, ds);
        if dk.Failure? {
          return Failure(dk.error);
        }
        ds := ds + [dk.value];
      }
      assert outs[..|paths|] == outs;
      var i := NanArgMin(ds);
      if i.Failure? {
        return Failure(i.error);
      }
      r := Success(paths[i.value]);
    }
  }
}
