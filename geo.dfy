/**
 * Coordinates and path length. The great-circle distance (`haversine`) is
 * floating-point trigonometry; the model takes it as a parameter `dist` and
 * assumes nothing about it (not even symmetry) unless a lemma says so.
 */
module Geo {
  import opened Lists

  /** A (latitude, longitude) pair in degrees. */
  datatype Point = Point(lat: real, lon: real)

  /** A distance function in nautical miles, standing for `haversine`. */
  type DistFn = (Point, Point) -> real

  /** The coordinate-wise midpoint used for diversion and terrain queries. */
  function Midpoint(a: Point, b: Point): Point {
    Point((a.lat + b.lat) / 2.0, (a.lon + b.lon) / 2.0)
  }

  /** Sum of `dist` over consecutive points, accumulated from the front. */
  function PathLength(points: seq<Point>, dist: DistFn): real
    decreases |points|
  {
    if |points| < 2 then 0.0
    else PathLength(points[..|points| - 1], dist) + dist(points[|points| - 2], points[|points| - 1])
  }

  /** Putting `p` between `points[j-1]` and `points[j]` swaps that one leg for the two new ones. */
  lemma {:induction false} PathLengthInsert(points: seq<Point>, j: nat, p: Point, dist: DistFn)
    requires 0 < j < |points|
    ensures PathLength(InsertAt(points, j, p), dist)
         == PathLength(points, dist) - dist(points[j - 1], points[j]) + dist(points[j - 1], p) + dist(p, points[j])
  {
    var q := InsertAt(points, j, p);
    var n := |points|;
    var front := points[..n - 1];
    assert PathLength(points, dist) == PathLength(front, dist) + dist(points[n - 2], points[n - 1]);
    assert PathLength(q, dist) == PathLength(q[..n], dist) + dist(q[n - 1], q[n]);
    assert q[n] == points[n - 1];
    if j == n - 1 {
      assert q[n - 1] == p;
      assert q[..n] == front + [p];
      assert (front + [p])[..n - 1] == front;
      assert PathLength(q[..n], dist) == PathLength(front, dist) + dist(points[n - 2], p);
    } else {
      assert q[n - 1] == points[n - 2];
      assert q[..n] == InsertAt(front, j, p);
      PathLengthInsert(front, j, p, dist);
    }
  }

  /** Under the triangle inequality at the affected points, an insertion never shortens the path. */
  lemma InsertNeverShortens(points: seq<Point>, j: nat, p: Point, dist: DistFn)
    requires 0 < j < |points|
    requires dist(points[j - 1], points[j]) <= dist(points[j - 1], p) + dist(p, points[j])
    ensures PathLength(points, dist) <= PathLength(InsertAt(points, j, p), dist)
  {
    PathLengthInsert(points, j, p, dist);
  }
}
