/** The street graph (`build_street_graph` in main.py): one node per
    polyline position and an edge for every linked pair, found by trying
    each pair i < j once. */
module StreetGraph {
  import opened Geometry
  import opened Angles
  import opened Connectivity

  /** Nodes are the positions 0 .. n-1; each undirected edge is stored
      once, as (i, j) with i < j. */
  datatype Graph = Graph(n: nat, edges: set<(nat, nat)>)

  ghost predicate WellFormed(g: Graph) {
    forall i: nat, j: nat :: (i, j) in g.edges ==> i < j < g.n
  }

  /** Undirected adjacency. */
  predicate Adjacent(g: Graph, i: nat, j: nat) {
    (i, j) in g.edges || (j, i) in g.edges
  }

  /** The order in which the nested loop visits pairs: by first index,
      then by second. */
  predicate PairBefore(p: (nat, nat), q: (nat, nat)) {
    p.0 < q.0 || (p.0 == q.0 && p.1 < q.1)
  }

  /** The graph the builder is meant to produce, stated directly: every
      pair i < j whose lines are linked, and nothing else. */
  ghost function StreetGraphOf(lines: seq<Polyline>, o: Oracle, m: Numerics, threshold: real): Graph
    requires Sound(o)
  {
    Graph(|lines|, set i: nat, j: nat | i < j < |lines| && AreConnected(lines[i], lines[j], o, m, threshold) :: (i, j))
  }

  /** `edges` holds exactly the linked pairs the loop has passed before
      reaching pair (i, j). */
  ghost predicate EdgesBefore(edges: set<(nat, nat)>, lines: seq<Polyline>, o: Oracle, m: Numerics, threshold: real, i: nat, j: nat)
    requires Sound(o)
  {
    forall a: nat, b: nat :: (a, b) in edges <==>
      a < b < |lines| && PairBefore((a, b), (i, j)) && AreConnected(lines[a], lines[b], o, m, threshold)
  }

  /** `evaluated` lists, in loop order, exactly the pairs a < b < n that
      come before (i, j). */
  ghost predicate VisitedBefore(evaluated: seq<(nat, nat)>, n: nat, i: nat, j: nat) {
    && (forall a: nat, b: nat :: (a, b) in evaluated <==> a < b < n && PairBefore((a, b), (i, j)))
    && (forall x, y :: 0 <= x < y < |evaluated| ==> PairBefore(evaluated[x], evaluated[y]))
    && (forall x :: 0 <= x < |evaluated| ==> PairBefore(evaluated[x], (i, j)))
  }

  /** The inner loop: tries (i, i+1), ..., (i, n-1) against the rule. */
  method LinkRow(lines: seq<Polyline>, o: Oracle, m: Numerics, threshold: real, i: nat,
                 edges0: set<(nat, nat)>, evaluated0: seq<(nat, nat)>)
    returns (edges: set<(nat, nat)>, evaluated: seq<(nat, nat)>)
    requires Sound(o) && i < |lines|
    requires EdgesBefore(edges0, lines, o, m, threshold, i, i + 1)
    requires VisitedBefore(evaluated0, |lines|, i, i + 1)
    ensures EdgesBefore(edges, lines, o, m, threshold, i, |lines|)
    ensures VisitedBefore(evaluated, |lines|, i, |lines|)
  {
    edges, evaluated := edges0, evaluated0;
    var j := i + 1;
    while j < |lines|
      invariant i + 1 <= j <= |lines|
      invariant EdgesBefore(edges, lines, o, m, threshold, i, j)
      invariant VisitedBefore(evaluated, |lines|, i, j)
    {
      VisitStep(evaluated, |lines|, i, j);
      evaluated := evaluated + [(i, j)];
      var linked := AreConnected(lines[i], lines[j], o, m, threshold);
      edges := RowStep(edges, lines, o, m, threshold, i, j, linked);
      j := j + 1;
    }
  }

  /** One turn of the inner loop on the edge set: the pair (i, j) is added
      exactly when it is linked. */
  method RowStep(edges0: set<(nat, nat)>, lines: seq<Polyline>, o: Oracle, m: Numerics, threshold: real,
                 i: nat, j: nat, linked: bool)
    returns (edges: set<(nat, nat)>)
    requires Sound(o) && i < j < |lines|
    requires EdgesBefore(edges0, lines, o, m, threshold, i, j)
    requires linked == AreConnected(lines[i], lines[j], o, m, threshold)
    ensures EdgesBefore(edges, lines, o, m, threshold, i, j + 1)
  {
    if linked {
      LinkStep(edges0, lines, o, m, threshold, i, j);
      edges := edges0 + {(i, j)};
    } else {
      SkipStep(edges0, lines, o, m, threshold, i, j);
      edges := edges0;
    }
  }

  /** One turn of the inner loop keeps `VisitedBefore`. */
  lemma VisitStep(evaluated: seq<(nat, nat)>, n: nat, i: nat, j: nat)
    requires i < j < n
    requires VisitedBefore(evaluated, n, i, j)
    ensures VisitedBefore(evaluated + [(i, j)], n, i, j + 1)
  {
    var e := evaluated + [(i, j)];
    forall a: nat, b: nat
      ensures (a, b) in e <==> a < b < n && PairBefore((a, b), (i, j + 1))
    {
      assert (a, b) in e <==> (a, b) in evaluated || (a, b) == (i, j);
    }
  }

  /** A linked pair (i, j) joins the edges passed so far. */
  lemma LinkStep(edges: set<(nat, nat)>, lines: seq<Polyline>, o: Oracle, m: Numerics, threshold: real, i: nat, j: nat)
    requires Sound(o) && i < j < |lines|
    requires EdgesBefore(edges, lines, o, m, threshold, i, j)
    requires AreConnected(lines[i], lines[j], o, m, threshold)
    ensures EdgesBefore(edges + {(i, j)}, lines, o, m, threshold, i, j + 1)
  {
    var e := edges + {(i, j)};
    forall a: nat, b: nat
      ensures (a, b) in e <==>
        a < b < |lines| && PairBefore((a, b), (i, j + 1)) && AreConnected(lines[a], lines[b], o, m, threshold)
    {
      if (a, b) != (i, j) {
        assert (a, b) in e <==> (a, b) in edges;
        assert PairBefore((a, b), (i, j + 1)) <==> PairBefore((a, b), (i, j));
      }
    }
  }

  /** An unlinked pair (i, j) leaves the edges passed so far unchanged. */
  lemma SkipStep(edges: set<(nat, nat)>, lines: seq<Polyline>, o: Oracle, m: Numerics, threshold: real, i: nat, j: nat)
    requires Sound(o) && i < j < |lines|
    requires EdgesBefore(edges, lines, o, m, threshold, i, j)
    requires !AreConnected(lines[i], lines[j], o, m, threshold)
    ensures EdgesBefore(edges, lines, o, m, threshold, i, j + 1)
  {
    forall a: nat, b: nat
      ensures (a, b) in edges <==>
        a < b < |lines| && PairBefore((a, b), (i, j + 1)) && AreConnected(lines[a], lines[b], o, m, threshold)
    {
      if (a, b) != (i, j) {
        assert PairBefore((a, b), (i, j + 1)) <==> PairBefore((a, b), (i, j));
      }
    }
  }

  /** Builds the graph with the nested loop of the program. `evaluated`
      records the pairs handed to the rule, in order: every pair i < j
      appears, in strictly increasing order, hence exactly once, and no
      node is ever paired with itself. */
  method BuildStreetGraph(lines: seq<Polyline>, o: Oracle, m: Numerics, threshold: real)
    returns (g: Graph, evaluated: seq<(nat, nat)>)
    requires Sound(o)
    ensures g.n == |lines|
    ensures WellFormed(g)
    ensures forall i: nat, j: nat :: (i, j) in g.edges <==>
      i < j < |lines| && AreConnected(lines[i], lines[j], o, m, threshold)
    ensures g == StreetGraphOf(lines, o, m, threshold)
    ensures forall i: nat, j: nat :: (i, j) in evaluated <==> i < j < |lines|
    ensures forall x, y :: 0 <= x < y < |evaluated| ==> PairBefore(evaluated[x], evaluated[y])
    ensures forall x, y :: 0 <= x < y < |evaluated| ==> evaluated[x] != evaluated[y]
  {
    var n := |lines|;
    var edges: set<(nat, nat)> := {};
    evaluated := [];
    var i := 0;
    while i < n
      invariant 0 <= i <= n
      invariant EdgesBefore(edges, lines, o, m, threshold, i, i + 1)
      invariant VisitedBefore(evaluated, n, i, i + 1)
    {
      edges, evaluated := LinkRow(lines, o, m, threshold, i, edges, evaluated);
      i := i + 1;
    }
    g := Graph(n, edges);
    EdgeSetOfMembership(lines, o, m, threshold, edges);
  }

  /** An edge set described pair by pair is the edge set of the reference
      graph. */
  lemma EdgeSetOfMembership(lines: seq<Polyline>, o: Oracle, m: Numerics, threshold: real, edges: set<(nat, nat)>)
    requires Sound(o)
    requires forall a: nat, b: nat :: (a, b) in edges <==>
      a < b < |lines| && AreConnected(lines[a], lines[b], o, m, threshold)
    ensures edges == StreetGraphOf(lines, o, m, threshold).edges
  {
    var expected := StreetGraphOf(lines, o, m, threshold).edges;
    forall e: (nat, nat) | e in edges
      ensures e in expected
    {
      var (a, b) := e;
      assert (a, b) in edges;
    }
    forall e: (nat, nat) | e in expected
      ensures e in edges
    {
      var a: nat, b: nat :| a < b < |lines| && AreConnected(lines[a], lines[b], o, m, threshold) && e == (a, b);
    }
    assert edges <= expected && expected <= edges;
  }
}
