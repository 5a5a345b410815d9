/** The angle between two polylines at a touch point
    (`angle_between_intersections` in main.py): magnitude guard, clamped
    cosine, arccos in degrees, and the fold that makes opposite directions
    count as aligned. */
module Angles {
  import opened Geometry

  /** The floating-point library calls the angle depends on, left
      uninterpreted: the vertex distance, `hypot` and `degrees(acos(.))`. */
  datatype Numerics = Numerics(
    dist: Distance,
    hypot: (real, real) -> real,
    acosDegrees: real -> real)

  /** What the angle proofs assume of those calls, read over the reals:
      `hypot` is non-negative and zero only at the origin, and `acosDegrees` maps [-1, 1] into
      [0, 180] with its three landmark values. */
  ghost predicate Valid(m: Numerics) {
    && (forall x, y :: m.hypot(x, y) >= 0.0)
    && (forall x, y :: m.hypot(x, y) == 0.0 <==> x == 0.0 && y == 0.0)
    && (forall c :: -1.0 <= c <= 1.0 ==> 0.0 <= m.acosDegrees(c) <= 180.0)
    && m.acosDegrees(1.0) == 0.0
    && m.acosDegrees(0.0) == 90.0
    && m.acosDegrees(-1.0) == 180.0
  }

  /** Cosine clamped into the domain of arccos. */
  function Clamp(c: real): (r: real)
    ensures -1.0 <= r <= 1.0
    ensures -1.0 <= c <= 1.0 ==> r == c
    ensures c > 1.0 ==> r == 1.0
    ensures c < -1.0 ==> r == -1.0
  {
    var upper := if 1.0 < c then 1.0 else c;
    if upper < -1.0 then -1.0 else upper
  }

  /** `min(theta, 180 - theta)`: the smaller of an angle and its
      supplement. */
  function Fold(theta: real): (r: real)
    ensures r <= theta && r <= 180.0 - theta
    ensures r == theta || r == 180.0 - theta
  {
    if 180.0 - theta < theta then 180.0 - theta else theta
  }

  /** A folded angle in [0, 180] lands in [0, 90]. */
  lemma FoldRange(theta: real)
    requires 0.0 <= theta <= 180.0
    ensures 0.0 <= Fold(theta) <= 90.0
  {
  }

  /** Folding does not distinguish a direction from its reverse. */
  lemma FoldSupplement(theta: real)
    ensures Fold(180.0 - theta) == Fold(theta)
  {
  }

  function Magnitude(v: Vec, m: Numerics): real {
    m.hypot(v.dx, v.dy)
  }

  /** The cosine of the angle between two non-zero vectors, as the dot
      product over the product of the norms. */
  function Cosine(v1: Vec, v2: Vec, m: Numerics): real
    requires Magnitude(v1, m) != 0.0 && Magnitude(v2, m) != 0.0
  {
    ProductNonZero(Magnitude(v1, m), Magnitude(v2, m));
    Dot(v1, v2) / (Magnitude(v1, m) * Magnitude(v2, m))
  }

  /** The angle between two direction vectors; 180 when either has zero
      magnitude. */
  function VectorAngle(v1: Vec, v2: Vec, m: Numerics): (r: real)
    ensures Valid(m) ==> (r == 180.0 <==> IsZero(v1) || IsZero(v2))
    ensures Valid(m) && !IsZero(v1) && !IsZero(v2) ==> 0.0 <= r <= 90.0
  {
    if Magnitude(v1, m) == 0.0 || Magnitude(v2, m) == 0.0 then
      180.0
    else
      Fold(m.acosDegrees(Clamp(Cosine(v1, v2, m))))
  }

  /** Vectors pointing the same way or opposite ways (the dot product is
      plus or minus the product of the norms) make a folded angle of 0. */
  lemma AlignedAngleZero(v1: Vec, v2: Vec, m: Numerics)
    requires Valid(m) && !IsZero(v1) && !IsZero(v2)
    requires Dot(v1, v2) == Magnitude(v1, m) * Magnitude(v2, m)
          || Dot(v1, v2) == -(Magnitude(v1, m) * Magnitude(v2, m))
    ensures VectorAngle(v1, v2, m) == 0.0
  {
    assert Magnitude(v1, m) != 0.0 && Magnitude(v2, m) != 0.0;
    var p := Magnitude(v1, m) * Magnitude(v2, m);
    ProductNonZero(Magnitude(v1, m), Magnitude(v2, m));
    if Dot(v1, v2) == p {
      assert Cosine(v1, v2, m) == 1.0;
      assert m.acosDegrees(Clamp(1.0)) == 0.0;
    } else {
      assert Cosine(v1, v2, m) == -1.0;
      assert m.acosDegrees(Clamp(-1.0)) == 180.0;
    }
  }

  lemma ProductNonZero(a: real, b: real)
    requires a != 0.0 && b != 0.0
    ensures a * b != 0.0
  {
  }

  /** Perpendicular vectors make a folded angle of 90. */
  lemma PerpendicularAngle(v1: Vec, v2: Vec, m: Numerics)
    requires Valid(m) && !IsZero(v1) && !IsZero(v2)
    requires Dot(v1, v2) == 0.0
    ensures VectorAngle(v1, v2, m) == 90.0
  {
    assert Magnitude(v1, m) != 0.0 && Magnitude(v2, m) != 0.0;
    assert Cosine(v1, v2, m) == 0.0;
    assert m.acosDegrees(Clamp(0.0)) == 90.0;
  }

  /** The angle does not depend on which vector comes first. */
  lemma VectorAngleSymmetric(v1: Vec, v2: Vec, m: Numerics)
    ensures VectorAngle(v1, v2, m) == VectorAngle(v2, v1, m)
  {
    assert Dot(v1, v2) == Dot(v2, v1);
    assert Magnitude(v1, m) * Magnitude(v2, m) == Magnitude(v2, m) * Magnitude(v1, m);
  }

  /** The angle between two polylines at a touch point `p`, each taken
      along its local direction there. */
  function Angle(line1: Polyline, line2: Polyline, p: Point, m: Numerics): (r: real)
    requires |line1| > 0 && |line2| > 0
    ensures Valid(m) ==> (r == 180.0 <==> IsZero(Direction(line1, p, m.dist)) || IsZero(Direction(line2, p, m.dist)))
    ensures Valid(m) ==> r == 180.0 || 0.0 <= r <= 90.0
  {
    VectorAngle(Direction(line1, p, m.dist), Direction(line2, p, m.dist), m)
  }

  /** Swapping the two polylines leaves the angle unchanged. */
  lemma AngleSymmetric(line1: Polyline, line2: Polyline, p: Point, m: Numerics)
    requires |line1| > 0 && |line2| > 0
    ensures Angle(line1, line2, p, m) == Angle(line2, line1, p, m)
  {
    VectorAngleSymmetric(Direction(line1, p, m.dist), Direction(line2, p, m.dist), m);
  }

  /** A polyline with a single vertex has a zero direction (index -1 wraps
      to the same vertex), so its angle with anything is 180. */
  lemma SingleVertexAngle(line1: Polyline, line2: Polyline, p: Point, m: Numerics)
    requires Valid(m)
    requires |line1| == 1 && |line2| > 0
    ensures Angle(line1, line2, p, m) == 180.0
  {
  }
}
