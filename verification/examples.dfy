/** Worked cases of the pairwise rule and of the graph built from it.
    The foreign calls get concrete stand-ins: the L1 (Manhattan) distance
    for the vertex search, the L1 norm for `hypot` (zero only at the
    origin, which is all the angle guard looks at), and a linear arccos
    that agrees with the real one at -1, 0 and 1. */
module Examples {
  import opened Geometry
  import opened Angles
  import opened Connectivity
  import opened StreetGraph
  import opened Coloring

  function Abs(x: real): real {
    if x < 0.0 then -x else x
  }

  function L1(x: real, y: real): real {
    Abs(x) + Abs(y)
  }

  function Manhattan(a: Point, b: Point): real {
    L1(a.x - b.x, a.y - b.y)
  }

  /** Linear on [-1, 1] between arccos's values at -1, 0 and 1. */
  function LinearArccos(c: real): real {
    90.0 - 90.0 * c
  }

  const Stand: Numerics := Numerics(Manhattan, L1, LinearArccos)

  lemma StandIsValid()
    ensures Valid(Stand)
  {
  }

  /** An oracle that reports one single-point meeting for the pair (a, b),
      in either order, and nothing else. */
  function MeetingAt(a: Polyline, b: Polyline, p: Point): Oracle
    requires |a| > 0 && |b| > 0
  {
    Oracle(
      (x: Polyline, y: Polyline) => (x == a && y == b) || (x == b && y == a),
      (x: Polyline, y: Polyline) => if (x == a && y == b) || (x == b && y == a) then Single(p) else Empty)
  }

  lemma MeetingAtSound(a: Polyline, b: Polyline, p: Point)
    requires |a| > 0 && |b| > 0
    ensures Sound(MeetingAt(a, b, p))
    ensures MeetingAt(a, b, p).intersects(a, b)
    ensures MeetingAt(a, b, p).intersection(a, b) == Single(p)
  {
  }

  /** Both segments of the first case point along (1, 0). */
  lemma FirstDirection()
    ensures Direction([Point(0.0, 0.0), Point(1.0, 0.0)], Point(1.0, 0.0), Manhattan) == Vec(1.0, 0.0)
  {
    SegmentDirection([Point(0.0, 0.0), Point(1.0, 0.0)], Point(1.0, 0.0), Manhattan);
  }

  lemma SecondDirection()
    ensures Direction([Point(1.0, 0.0), Point(2.0, 0.0)], Point(1.0, 0.0), Manhattan) == Vec(1.0, 0.0)
  {
    SegmentDirection([Point(1.0, 0.0), Point(2.0, 0.0)], Point(1.0, 0.0), Manhattan);
  }

  lemma StandParts()
    ensures Stand.dist == Manhattan && Stand.hypot == L1 && Stand.acosDegrees == LinearArccos
  {
  }

  /** (1, 0) has norm 1, so its dot product with itself is the product
      of the norms. */
  lemma UnitAligned()
    ensures Dot(Vec(1.0, 0.0), Vec(1.0, 0.0)) == Magnitude(Vec(1.0, 0.0), Stand) * Magnitude(Vec(1.0, 0.0), Stand)
  {
    StandParts();
    var h := Magnitude(Vec(1.0, 0.0), Stand);
    assert h == 1.0;
  }

  /** Two copies of (1, 0) are aligned: angle 0. */
  lemma UnitAngle()
    ensures VectorAngle(Vec(1.0, 0.0), Vec(1.0, 0.0), Stand) == 0.0
  {
    UnitAligned();
    StandIsValid();
    AlignedAngleZero(Vec(1.0, 0.0), Vec(1.0, 0.0), Stand);
  }

  /** Two segments continuing each other are linked under the default
      threshold. */
  lemma ContinuingSegmentsLinked()
    ensures Sound(MeetingAt([Point(0.0, 0.0), Point(1.0, 0.0)], [Point(1.0, 0.0), Point(2.0, 0.0)], Point(1.0, 0.0)))
    ensures AreConnected([Point(0.0, 0.0), Point(1.0, 0.0)], [Point(1.0, 0.0), Point(2.0, 0.0)], MeetingAt([Point(0.0, 0.0), Point(1.0, 0.0)], [Point(1.0, 0.0), Point(2.0, 0.0)], Point(1.0, 0.0)), Stand, DefaultAngleThreshold)
  {
    var a, b, p := [Point(0.0, 0.0), Point(1.0, 0.0)], [Point(1.0, 0.0), Point(2.0, 0.0)], Point(1.0, 0.0);
    MeetingAtSound(a, b, p);
    StandParts();
    assert Angle(a, b, p, Stand) == 0.0 by {
      FirstDirection();
      SecondDirection();
      UnitAngle();
    }
  }

  /** The second case: a horizontal segment (0,1)-(2,1) and a vertical
      one (1,0)-(1,2), crossing at (1,1). */
  lemma AcrossDirection()
    ensures Direction([Point(0.0, 1.0), Point(2.0, 1.0)], Point(1.0, 1.0), Manhattan) == Vec(2.0, 0.0)
  {
    SegmentDirection([Point(0.0, 1.0), Point(2.0, 1.0)], Point(1.0, 1.0), Manhattan);
  }

  lemma UpwardDirection()
    ensures Direction([Point(1.0, 0.0), Point(1.0, 2.0)], Point(1.0, 1.0), Manhattan) == Vec(0.0, 2.0)
  {
    SegmentDirection([Point(1.0, 0.0), Point(1.0, 2.0)], Point(1.0, 1.0), Manhattan);
  }

  /** At the crossing both vertices of the horizontal segment are equally
      near, and the first one wins the search. */
  lemma TieGoesToFirstVertex()
    ensures NearestIndex([Point(0.0, 1.0), Point(2.0, 1.0)], Point(1.0, 1.0), Manhattan) == 0
  {
  }

  /** (2, 0) and (0, 2) are perpendicular: angle 90. */
  lemma RightAngle()
    ensures VectorAngle(Vec(2.0, 0.0), Vec(0.0, 2.0), Stand) == 90.0
  {
    StandIsValid();
    PerpendicularAngle(Vec(2.0, 0.0), Vec(0.0, 2.0), Stand);
  }

  /** Two segments crossing at a right angle are not linked under the
      default threshold. */
  lemma CrossingSegmentsNotLinked()
    ensures Sound(MeetingAt([Point(0.0, 1.0), Point(2.0, 1.0)], [Point(1.0, 0.0), Point(1.0, 2.0)], Point(1.0, 1.0)))
    ensures !AreConnected([Point(0.0, 1.0), Point(2.0, 1.0)], [Point(1.0, 0.0), Point(1.0, 2.0)], MeetingAt([Point(0.0, 1.0), Point(2.0, 1.0)], [Point(1.0, 0.0), Point(1.0, 2.0)], Point(1.0, 1.0)), Stand, DefaultAngleThreshold)
  {
    var a, b, p := [Point(0.0, 1.0), Point(2.0, 1.0)], [Point(1.0, 0.0), Point(1.0, 2.0)], Point(1.0, 1.0);
    MeetingAtSound(a, b, p);
    StandParts();
    assert Angle(a, b, p, Stand) == 90.0 by {
      AcrossDirection();
      UpwardDirection();
      RightAngle();
    }
  }

  /** A repeated first vertex: touched at (0,0), the search stops at index
      0 and the segment from there joins two equal vertices, so the
      direction is zero although the line has two distinct points. */
  lemma RepeatedVertexNearest()
    ensures NearestIndex([Point(0.0, 0.0), Point(0.0, 0.0), Point(1.0, 0.0)], Point(0.0, 0.0), Manhattan) == 0
  {
    assert NearestIndex([Point(0.0, 0.0), Point(0.0, 0.0)], Point(0.0, 0.0), Manhattan) == 0;
  }

  lemma RepeatedVertexZeroDirection()
    ensures IsZero(Direction([Point(0.0, 0.0), Point(0.0, 0.0), Point(1.0, 0.0)], Point(0.0, 0.0), Manhattan))
  {
    RepeatedVertexNearest();
    DirectionSegment([Point(0.0, 0.0), Point(0.0, 0.0), Point(1.0, 0.0)], Point(0.0, 0.0), Manhattan);
  }

  /** Over three lines, the graph has the single edge (0, 1) exactly when
      only the first two are linked. */
  lemma OnlyFirstPairLinked(lines: seq<Polyline>, o: Oracle, m: Numerics, threshold: real)
    requires Sound(o) && |lines| == 3
    requires AreConnected(lines[0], lines[1], o, m, threshold)
    requires !AreConnected(lines[0], lines[2], o, m, threshold)
    requires !AreConnected(lines[1], lines[2], o, m, threshold)
    ensures StreetGraphOf(lines, o, m, threshold).edges == {(0, 1)}
  {
    var edges := StreetGraphOf(lines, o, m, threshold).edges;
    forall e: (nat, nat) | e in edges
      ensures e == (0, 1)
    {
      var (i, j) := e;
      assert i < j < 3 && AreConnected(lines[i], lines[j], o, m, threshold);
    }
    assert (0, 1) in edges;
  }

  /** The third line, (5,5)-(6,5), meets neither of the first two. */
  lemma ApartNotLinked()
    ensures Sound(MeetingAt([Point(0.0, 0.0), Point(1.0, 0.0)], [Point(1.0, 0.0), Point(2.0, 0.0)], Point(1.0, 0.0)))
    ensures !AreConnected([Point(0.0, 0.0), Point(1.0, 0.0)], [Point(5.0, 5.0), Point(6.0, 5.0)],
      MeetingAt([Point(0.0, 0.0), Point(1.0, 0.0)], [Point(1.0, 0.0), Point(2.0, 0.0)], Point(1.0, 0.0)), Stand, DefaultAngleThreshold)
    ensures !AreConnected([Point(1.0, 0.0), Point(2.0, 0.0)], [Point(5.0, 5.0), Point(6.0, 5.0)],
      MeetingAt([Point(0.0, 0.0), Point(1.0, 0.0)], [Point(1.0, 0.0), Point(2.0, 0.0)], Point(1.0, 0.0)), Stand, DefaultAngleThreshold)
  {
    MeetingAtSound([Point(0.0, 0.0), Point(1.0, 0.0)], [Point(1.0, 0.0), Point(2.0, 0.0)], Point(1.0, 0.0));
  }

  /** Three lines, (0,0)-(1,0), (1,0)-(2,0) and (5,5)-(6,5), where only the
      first two meet: the street graph has the single edge (0, 1). */
  lemma ThreeLineGraph()
    ensures Sound(MeetingAt([Point(0.0, 0.0), Point(1.0, 0.0)], [Point(1.0, 0.0), Point(2.0, 0.0)], Point(1.0, 0.0)))
    ensures StreetGraphOf(
      [[Point(0.0, 0.0), Point(1.0, 0.0)], [Point(1.0, 0.0), Point(2.0, 0.0)], [Point(5.0, 5.0), Point(6.0, 5.0)]],
      MeetingAt([Point(0.0, 0.0), Point(1.0, 0.0)], [Point(1.0, 0.0), Point(2.0, 0.0)], Point(1.0, 0.0)),
      Stand, DefaultAngleThreshold).edges == {(0, 1)}
  {
    ContinuingSegmentsLinked();
    ApartNotLinked();
    OnlyFirstPairLinked(
      [[Point(0.0, 0.0), Point(1.0, 0.0)], [Point(1.0, 0.0), Point(2.0, 0.0)], [Point(5.0, 5.0), Point(6.0, 5.0)]],
      MeetingAt([Point(0.0, 0.0), Point(1.0, 0.0)], [Point(1.0, 0.0), Point(2.0, 0.0)], Point(1.0, 0.0)),
      Stand, DefaultAngleThreshold);
  }

  /** The crossing pair alone: two lines that are not linked give a graph
      without edges. */
  lemma UnlinkedPairGraph(lines: seq<Polyline>, o: Oracle, m: Numerics, threshold: real)
    requires Sound(o) && |lines| == 2
    requires !AreConnected(lines[0], lines[1], o, m, threshold)
    ensures StreetGraphOf(lines, o, m, threshold).edges == {}
  {
  }

  lemma CrossingGraph()
    ensures Sound(MeetingAt([Point(0.0, 1.0), Point(2.0, 1.0)], [Point(1.0, 0.0), Point(1.0, 2.0)], Point(1.0, 1.0)))
    ensures StreetGraphOf(
      [[Point(0.0, 1.0), Point(2.0, 1.0)], [Point(1.0, 0.0), Point(1.0, 2.0)]],
      MeetingAt([Point(0.0, 1.0), Point(2.0, 1.0)], [Point(1.0, 0.0), Point(1.0, 2.0)], Point(1.0, 1.0)),
      Stand, DefaultAngleThreshold).edges == {}
  {
    CrossingSegmentsNotLinked();
    UnlinkedPairGraph(
      [[Point(0.0, 1.0), Point(2.0, 1.0)], [Point(1.0, 0.0), Point(1.0, 2.0)]],
      MeetingAt([Point(0.0, 1.0), Point(2.0, 1.0)], [Point(1.0, 0.0), Point(1.0, 2.0)], Point(1.0, 1.0)),
      Stand, DefaultAngleThreshold);
  }

  /** The components of the three-line graph are {0, 1} and {2}. */
  lemma ThreeLineComponents()
    ensures IsComponents(Graph(3, {(0, 1)}), [{0, 1}, {2}])
  {
    var g := Graph(3, {(0, 1)});
    var comps: seq<set<nat>> := [{0, 1}, {2}];
    assert IsPath(g, [0, 1]) && IsPath(g, [1, 0]);
    forall a: nat | a < 3
      ensures Reachable(g, a, a)
    {
      assert IsPath(g, [a]);
    }
    forall x: nat | x < 3
      ensures InSome(comps, x)
    {
      if x < 2 {
        assert x in comps[0];
      } else {
        assert x in comps[1];
      }
    }
  }
}
