/** The pairwise rule (`are_connected` in main.py): two polylines are
    linked when they meet in exactly one point and their local directions
    there make a folded angle below the threshold. */
module Connectivity {
  import opened Geometry
  import opened Angles

  /** The shape of a geometric intersection, as far as the rule cares:
      nothing, one point, or anything else (several points, an overlap). */
  datatype Intersection = Empty | Single(at: Point) | Other

  /** The foreign geometry calls: the `intersects` test and the
      `intersection` construction. */
  datatype Oracle = Oracle(
    intersects: (Polyline, Polyline) -> bool,
    intersection: (Polyline, Polyline) -> Intersection)

  /** The one fact of geometry the rule relies on: a single-point
      intersection needs a vertex on each side. */
  ghost predicate Sound(o: Oracle) {
    forall a, b :: o.intersection(a, b).Single? ==> |a| > 0 && |b| > 0
  }

  /** The intersection operations give the same answer in either order. */
  ghost predicate SymmetricOn(o: Oracle, a: Polyline, b: Polyline) {
    o.intersects(a, b) == o.intersects(b, a) && o.intersection(a, b) == o.intersection(b, a)
  }

  /** The program's default angle threshold, in degrees. */
  const DefaultAngleThreshold: real := 30.0

  /** Linked: the lines meet in exactly one point and the folded angle
      there is below `threshold`. A zero direction (angle 180) never links
      under a threshold of at most 180. */
  function AreConnected(a: Polyline, b: Polyline, o: Oracle, m: Numerics, threshold: real): (r: bool)
    requires Sound(o)
    ensures r ==> o.intersects(a, b) && o.intersection(a, b).Single?
    ensures r && Valid(m) && threshold <= 180.0 ==>
      && !IsZero(Direction(a, o.intersection(a, b).at, m.dist))
      && !IsZero(Direction(b, o.intersection(a, b).at, m.dist))
  {
    if !o.intersects(a, b) then false
    else
      match o.intersection(a, b)
      case Single(p) => Angle(a, b, p, m) < threshold
      case _ => false
  }

  /** With a threshold in (90, 180], the angle test only rules out zero
      directions: two lines are linked exactly when they meet in one point
      and neither is degenerate there. */
  lemma WideThresholdConnected(a: Polyline, b: Polyline, o: Oracle, m: Numerics, threshold: real)
    requires Sound(o) && Valid(m)
    requires 90.0 < threshold <= 180.0
    ensures AreConnected(a, b, o, m, threshold) <==>
      && o.intersects(a, b)
      && o.intersection(a, b).Single?
      && !IsZero(Direction(a, o.intersection(a, b).at, m.dist))
      && !IsZero(Direction(b, o.intersection(a, b).at, m.dist))
  {
  }

  /** The rule does not depend on the order of the two lines, as long as
      the intersection operations do not. */
  lemma AreConnectedSymmetric(a: Polyline, b: Polyline, o: Oracle, m: Numerics, threshold: real)
    requires Sound(o) && SymmetricOn(o, a, b)
    ensures AreConnected(a, b, o, m, threshold) == AreConnected(b, a, o, m, threshold)
  {
    if o.intersects(a, b) && o.intersection(a, b).Single? {
      AngleSymmetric(a, b, o.intersection(a, b).at, m);
    }
  }

  /** Lines that meet in one point and run the same or opposite ways there
      are linked under any positive threshold. */
  lemma AlignedLinesConnected(a: Polyline, b: Polyline, o: Oracle, m: Numerics, threshold: real)
    requires Sound(o) && Valid(m) && threshold > 0.0
    requires o.intersects(a, b) && o.intersection(a, b).Single?
    requires var p := o.intersection(a, b).at;
      var v1, v2 := Direction(a, p, m.dist), Direction(b, p, m.dist);
      && !IsZero(v1) && !IsZero(v2)
      && (Dot(v1, v2) == Magnitude(v1, m) * Magnitude(v2, m) || Dot(v1, v2) == -(Magnitude(v1, m) * Magnitude(v2, m)))
    ensures AreConnected(a, b, o, m, threshold)
  {
    var p := o.intersection(a, b).at;
    AlignedAngleZero(Direction(a, p, m.dist), Direction(b, p, m.dist), m);
  }

  /** Lines crossing at a right angle are not linked under any threshold
      up to 90, the default of 30 included. */
  lemma PerpendicularLinesNotConnected(a: Polyline, b: Polyline, o: Oracle, m: Numerics, threshold: real)
    requires Sound(o) && Valid(m) && threshold <= 90.0
    requires o.intersection(a, b).Single?
    requires var p := o.intersection(a, b).at;
      var v1, v2 := Direction(a, p, m.dist), Direction(b, p, m.dist);
      !IsZero(v1) && !IsZero(v2) && Dot(v1, v2) == 0.0
    ensures !AreConnected(a, b, o, m, threshold)
  {
    var p := o.intersection(a, b).at;
    PerpendicularAngle(Direction(a, p, m.dist), Direction(b, p, m.dist), m);
  }

  /** A polyline with a single vertex is never linked to anything under a
      threshold of at most 180 (the default of 30 included). */
  lemma SingleVertexNeverConnected(a: Polyline, b: Polyline, o: Oracle, m: Numerics, threshold: real)
    requires Sound(o) && Valid(m) && threshold <= 180.0
    requires |a| == 1
    ensures !AreConnected(a, b, o, m, threshold)
  {
  }
}
