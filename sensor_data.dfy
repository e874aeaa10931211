// ScanPoint2D and LaserScan2D: a laser return stored either in polar or in
// cartesian form, with accessors that convert on demand, and a scan of such
// points sharing one trigonometric cache.

module SensorData {
  import opened Common

  datatype PointType = Polar | Cartesian

  /** A tag, the two numbers stored in the union (range and angle for a polar
      point, x and y for a cartesian one) and the occupancy flag. */
  datatype ScanPoint2D = ScanPoint2D(kind: PointType, xOrRange: real, yOrAngle: real, isOcc: bool)

  /** The length of the vector (x, y). */
  function Hypot(x: real, y: real, m: Elementary): (r: real)
    ensures 0.0 <= r
  {
    m.sqrt(x * x + y * y)
  }

  function Range(p: ScanPoint2D, m: Elementary): (r: real)
    ensures p.kind == Cartesian ==> 0.0 <= r
  {
    if p.kind == Polar then p.xOrRange
    else Hypot(p.xOrRange, p.yOrAngle, m)
  }

  function Angle(p: ScanPoint2D, m: Elementary): real
  {
    if p.kind == Polar then p.yOrAngle
    else m.atan2(p.yOrAngle, p.xOrRange)
  }

  function X(p: ScanPoint2D, m: Elementary): real
  {
    if p.kind == Cartesian then p.xOrRange
    else p.xOrRange * m.cos(p.yOrAngle)
  }

  function Y(p: ScanPoint2D, m: Elementary): real
  {
    if p.kind == Cartesian then p.yOrAngle
    else p.xOrRange * m.sin(p.yOrAngle)
  }

  function IsOccupied(p: ScanPoint2D): bool
  {
    p.isOcc
  }

  /** The accessors of the form that is not stored are computed from those
      of the stored form: x() and y() of a polar point are its range and
      angle resolved into axes, and range() and angle() of a cartesian point
      are the length and direction of (x(), y()). */
  lemma AccessorsAgree(p: ScanPoint2D, m: Elementary)
    ensures p.kind == Polar ==>
      X(p, m) == Range(p, m) * m.cos(Angle(p, m)) && Y(p, m) == Range(p, m) * m.sin(Angle(p, m))
    ensures p.kind == Cartesian ==>
      Range(p, m) == Hypot(X(p, m), Y(p, m), m) && Angle(p, m) == m.atan2(Y(p, m), X(p, m))
  {
    if p.kind == Cartesian {
      assert X(p, m) == p.xOrRange && Y(p, m) == p.yOrAngle;
    }
  }

  /** Whatever the tag, the accessors of the stored form give back the
      constructor's arguments. */
  lemma StoredFormReadsBack(kind: PointType, u: real, v: real, occ: bool, m: Elementary)
    ensures var p := ScanPoint2D(kind, u, v, occ);
      && IsOccupied(p) == occ
      && (kind == Polar ==> Range(p, m) == u && Angle(p, m) == v)
      && (kind == Cartesian ==> X(p, m) == u && Y(p, m) == v)
  {
  }

  /** make_polar: a polar point whose range and angle are the arguments. */
  function MakePolar(range: real, angle: real, isOcc: bool): (p: ScanPoint2D)
    ensures p.kind == Polar && IsOccupied(p) == isOcc
    ensures forall m: Elementary :: Range(p, m) == range && Angle(p, m) == angle
  {
    ScanPoint2D(Polar, range, angle, isOcc)
  }

  /** The default constructor: polar, range 0, angle 0, occupied. */
  function DefaultPoint(): (p: ScanPoint2D)
    ensures p.kind == Polar && IsOccupied(p)
    ensures forall m: Elementary :: Range(p, m) == 0.0 && Angle(p, m) == 0.0
  {
    ScanPoint2D(Polar, 0.0, 0.0, true)
  }

  /** to_cartesian(cache): range() times the cache's rotated cosine and sine of angle(). */
  function ToCartesianVia(p: ScanPoint2D, cache: TrigCache, m: Elementary): (r: ScanPoint2D)
    reads cache
    ensures r.kind == Cartesian && IsOccupied(r) == IsOccupied(p)
    ensures X(r, m) == Range(p, m) * cache.rotCos(cache.theta, Angle(p, m))
    ensures Y(r, m) == Range(p, m) * cache.rotSin(cache.theta, Angle(p, m))
  {
    var a := Angle(p, m);
    ScanPoint2D(Cartesian, Range(p, m) * cache.Cos(a), Range(p, m) * cache.Sin(a), p.isOcc)
  }

  /** to_cartesian(d_angle, d_range): offset the polar form, then convert. */
  function ToCartesian(p: ScanPoint2D, dAngle: real, dRange: real, m: Elementary): (r: ScanPoint2D)
    ensures r.kind == Cartesian && IsOccupied(r) == IsOccupied(p)
    ensures X(r, m) == (Range(p, m) + dRange) * m.cos(Angle(p, m) + dAngle)
    ensures Y(r, m) == (Range(p, m) + dRange) * m.sin(Angle(p, m) + dAngle)
    ensures p.kind == Polar && dAngle == 0.0 && dRange == 0.0 ==> X(r, m) == X(p, m) && Y(r, m) == Y(p, m)
  {
    var patched := ScanPoint2D(Polar, Range(p, m) + dRange, Angle(p, m) + dAngle, IsOccupied(p));
    ScanPoint2D(Cartesian, X(patched, m), Y(patched, m), IsOccupied(patched))
  }

  /** to_polar(d_x, d_y): offset the cartesian form, then convert. */
  function ToPolar(p: ScanPoint2D, dx: real, dy: real, m: Elementary): (r: ScanPoint2D)
    ensures r.kind == Polar && IsOccupied(r) == IsOccupied(p)
    ensures 0.0 <= Range(r, m)
    ensures p.kind == Cartesian && dx == 0.0 && dy == 0.0 ==> Range(r, m) == Range(p, m) && Angle(r, m) == Angle(p, m)
  {
    var patched := ScanPoint2D(Cartesian, X(p, m) + dx, Y(p, m) + dy, IsOccupied(p));
    ScanPoint2D(Polar, Range(patched, m), Angle(patched, m), IsOccupied(patched))
  }

  /** move_origin(d_x, d_y): the cartesian position shifted by (d_x, d_y). */
  function MoveOrigin(p: ScanPoint2D, dx: real, dy: real, m: Elementary): Point2D
  {
    Point2D(X(p, m) + dx, Y(p, m) + dy)
  }

  /** move_origin(d_x, d_y, d_angle): rotate the polar form by d_angle, then shift. */
  function MoveOriginRotated(p: ScanPoint2D, dx: real, dy: real, dAngle: real, m: Elementary): (r: Point2D)
    ensures r.x == Range(p, m) * m.cos(Angle(p, m) + dAngle) + dx
    ensures r.y == Range(p, m) * m.sin(Angle(p, m) + dAngle) + dy
  {
    var patched := ScanPoint2D(Polar, Range(p, m), Angle(p, m) + dAngle, IsOccupied(p));
    Point2D(X(patched, m) + dx, Y(patched, m) + dy)
  }

  /** Moving a polar point and moving its cartesian conversion give the same
      point: move_origin does not depend on the form the point is stored in. */
  lemma MoveOriginTransparent(p: ScanPoint2D, dx: real, dy: real, m: Elementary)
    requires p.kind == Polar
    ensures MoveOrigin(ToCartesian(p, 0.0, 0.0, m), dx, dy, m) == MoveOrigin(p, dx, dy, m)
  {
  }

  /** The rotating move_origin is to_cartesian by the same angle followed by the
      plain move_origin, and with no rotation a polar point moves as the plain
      move_origin moves it. */
  lemma MoveOriginRotatedFactors(p: ScanPoint2D, dx: real, dy: real, dAngle: real, m: Elementary)
    ensures MoveOriginRotated(p, dx, dy, dAngle, m) == MoveOrigin(ToCartesian(p, dAngle, 0.0, m), dx, dy, m)
    ensures p.kind == Polar ==> MoveOriginRotated(p, dx, dy, 0.0, m) == MoveOrigin(p, dx, dy, m)
  {
  }

  /** LaserScan2D: the points and the shared trigonometric cache (a
      shared_ptr, possibly empty). */
  class LaserScan2D {
    var points: seq<ScanPoint2D>
    var trigCache: TrigCache?

    constructor ()
      ensures points == [] && trigCache == null
    {
      points := [];
      trigCache := null;
    }

    /** to_cartesian(angle): a new scan sharing this scan's cache, whose theta
        is set to `angle`, holding each point converted through that cache. */
    method ToCartesian(angle: real, m: Elementary) returns (s: LaserScan2D)
      requires trigCache != null
      modifies trigCache
      ensures fresh(s) && s.trigCache == trigCache
      ensures trigCache.theta == angle
      ensures points == old(points)
      ensures |s.points| == |points|
      ensures forall i :: 0 <= i < |points| ==> s.points[i] == ToCartesianVia(points[i], trigCache, m)
    {
      s := new LaserScan2D();
      s.trigCache := trigCache;
      s.trigCache.SetTheta(angle);
      var i := 0;
      while i < |points|
        invariant 0 <= i <= |points|
        invariant s.trigCache == trigCache && trigCache.theta == angle
        invariant |s.points| == i
        invariant forall k :: 0 <= k < i ==> s.points[k] == ToCartesianVia(points[k], trigCache, m)
      {
        s.points := s.points + [ToCartesianVia(points[i], s.trigCache, m)];
        i := i + 1;
      }
    }
  }
}
