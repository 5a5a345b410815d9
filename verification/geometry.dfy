/** Points, vectors and polylines, and the local direction of a polyline
    near a touch point (the nested helper `direction_at_point` of main.py). */
module Geometry {

  datatype Point = Point(x: real, y: real)

  /** A 2-D displacement; only ever derived from two points of a polyline. */
  datatype Vec = Vec(dx: real, dy: real)

  /** A polyline is its vertex sequence in path order. */
  type Polyline = seq<Point>

  /** The point-to-point distance the nearest-vertex search is keyed on;
      left abstract (it is a foreign geometry call in the program). */
  type Distance = (Point, Point) -> real

  function Sub(to: Point, from: Point): Vec {
    Vec(to.x - from.x, to.y - from.y)
  }

  predicate IsZero(v: Vec) {
    v.dx == 0.0 && v.dy == 0.0
  }

  function Dot(a: Vec, b: Vec): real {
    a.dx * b.dx + a.dy * b.dy
  }

  /** Indexing with the program language's negative-index convention:
      s[-1] is the last element. */
  function PyIndex<T>(s: seq<T>, i: int): T
    requires -|s| <= i < |s|
  {
    if i < 0 then s[|s| + i] else s[i]
  }

  /** `k` is the first index whose vertex is nearest to `p`: nothing is
      nearer, and every earlier vertex is strictly farther. */
  ghost predicate IsFirstNearest(coords: Polyline, p: Point, dist: Distance, k: int) {
    && 0 <= k < |coords|
    && (forall i :: 0 <= i < |coords| ==> dist(coords[k], p) <= dist(coords[i], p))
    && (forall i :: 0 <= i < k ==> dist(coords[k], p) < dist(coords[i], p))
  }

  /** The index a left-to-right `min` with a key returns: a later vertex
      replaces the current best only when strictly nearer. */
  function NearestIndex(coords: Polyline, p: Point, dist: Distance): (k: nat)
    requires |coords| > 0
    ensures IsFirstNearest(coords, p, dist, k)
    decreases |coords|
  {
    if |coords| == 1 then 0
    else
      var best := NearestIndex(coords[..|coords| - 1], p, dist);
      if dist(coords[|coords| - 1], p) < dist(coords[best], p) then |coords| - 1 else best
  }

  /** There is only one first-nearest index, so the property above pins
      `NearestIndex` down completely. */
  lemma FirstNearestUnique(coords: Polyline, p: Point, dist: Distance, k1: int, k2: int)
    requires IsFirstNearest(coords, p, dist, k1)
    requires IsFirstNearest(coords, p, dist, k2)
    ensures k1 == k2
  {
    // each is no farther than the other, and strictly nearer than the
    // other if it came later: so neither comes first
    var d1, d2 := dist(coords[k1], p), dist(coords[k2], p);
    assert d1 <= d2 && d2 <= d1;
  }

  /** A distance that is non-negative and zero exactly on equal points. */
  ghost predicate Separating(dist: Distance) {
    forall a, b :: dist(a, b) >= 0.0 && (dist(a, b) == 0.0 <==> a == b)
  }

  /** When the touch point is itself a vertex, the search lands on its
      first occurrence. */
  lemma NearestIsFirstOccurrence(coords: Polyline, p: Point, dist: Distance, j: nat)
    requires Separating(dist)
    requires j < |coords| && coords[j] == p
    ensures coords[NearestIndex(coords, p, dist)] == p
    ensures forall i :: 0 <= i < NearestIndex(coords, p, dist) ==> coords[i] != p
  {
    var k := NearestIndex(coords, p, dist);
    assert dist(coords[j], p) == 0.0;
    assert dist(coords[k], p) <= dist(coords[j], p);
    assert dist(coords[k], p) == 0.0;
    forall i | 0 <= i < k
      ensures coords[i] != p
    {
      assert dist(coords[k], p) < dist(coords[i], p);
    }
  }

  /** The segment vector at the vertex nearest to `p`: forward to the next
      vertex, or back from the previous one when the nearest vertex is the
      last. With a single vertex the "previous" index -1 wraps round to
      that same vertex. */
  function Direction(coords: Polyline, p: Point, dist: Distance): (v: Vec)
    requires |coords| > 0
    ensures |coords| == 1 ==> IsZero(v)
    ensures |coords| >= 2 ==>
      exists i :: 0 <= i < |coords| - 1 && v == Sub(coords[i + 1], coords[i])
  {
    var k := NearestIndex(coords, p, dist);
    if k < |coords| - 1 then
      Sub(coords[k + 1], coords[k])
    else
      Sub(coords[k], PyIndex(coords, k - 1))
  }

  /** Which segment `Direction` takes, in terms of the nearest vertex `k`:
      the one starting at `k` when `k` is not last, else the one ending
      at `k`. */
  lemma DirectionSegment(coords: Polyline, p: Point, dist: Distance)
    requires |coords| >= 2
    ensures var k := NearestIndex(coords, p, dist);
      && (k < |coords| - 1 ==> Direction(coords, p, dist) == Sub(coords[k + 1], coords[k]))
      && (k == |coords| - 1 ==> Direction(coords, p, dist) == Sub(coords[k], coords[k - 1]))
  {
  }

  /** A single segment has one direction wherever it is touched: both
      vertex choices take the segment from its first vertex to its last. */
  lemma SegmentDirection(coords: Polyline, p: Point, dist: Distance)
    requires |coords| == 2
    ensures Direction(coords, p, dist) == Sub(coords[1], coords[0])
  {
    DirectionSegment(coords, p, dist);
  }

  /** The direction only vanishes when the chosen segment joins two equal
      vertices. */
  lemma DirectionZeroIff(coords: Polyline, p: Point, dist: Distance)
    requires |coords| >= 2
    ensures var k := NearestIndex(coords, p, dist);
      IsZero(Direction(coords, p, dist)) <==>
        if k < |coords| - 1 then coords[k + 1] == coords[k] else coords[k - 1] == coords[k]
  {
  }
}
