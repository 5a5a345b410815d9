/** One colour per street group (`assign_colors_by_street_group` in
    main.py): the connected components of the street graph are given, each
    with its colour, and every member of a component is mapped to that
    component's colour. */
module Coloring {
  import opened Geometry
  import opened Angles
  import opened Connectivity
  import opened StreetGraph

  /** An RGB colour; the program draws one at random per component, so
      here the colours are an input. */
  datatype Color = Color(red: real, green: real, blue: real)

  /** The colour map built by walking the components in order and writing
      each member's entry; a later component overwrites an earlier one. */
  function ColorMap(comps: seq<set<nat>>, colors: seq<Color>): (cm: map<nat, Color>)
    requires |colors| == |comps|
    ensures forall idx :: idx in cm <==> InSome(comps, idx)
    ensures forall idx :: idx in cm ==> exists k :: 0 <= k < |comps| && idx in comps[k] && cm[idx] == colors[k]
    decreases |comps|
  {
    if |comps| == 0 then map[]
    else
      var last := |comps| - 1;
      var earlier := ColorMap(comps[..last], colors[..last]);
      assert forall k :: 0 <= k < last ==> comps[..last][k] == comps[k] && colors[..last][k] == colors[k];
      earlier + map idx | idx in comps[last] :: colors[last]
  }

  ghost predicate InSome(comps: seq<set<nat>>, x: nat) {
    exists k :: 0 <= k < |comps| && x in comps[k]
  }

  /** No index lies in two components. */
  ghost predicate Disjoint(comps: seq<set<nat>>) {
    forall k1, k2, x :: 0 <= k1 < k2 < |comps| && x in comps[k1] ==> x !in comps[k2]
  }

  /** The components are non-empty, disjoint and cover 0 .. n-1 exactly. */
  ghost predicate IsPartition(comps: seq<set<nat>>, n: nat) {
    && Disjoint(comps)
    && (forall k :: 0 <= k < |comps| ==> comps[k] != {})
    && (forall k, x :: 0 <= k < |comps| && x in comps[k] ==> x < n)
    && (forall x: nat :: x < n ==> InSome(comps, x))
  }

  /** A walk along edges of `g`. */
  ghost predicate IsPath(g: Graph, p: seq<nat>) {
    |p| >= 1 && forall t :: 0 <= t < |p| - 1 ==> Adjacent(g, p[t], p[t + 1])
  }

  ghost predicate Reachable(g: Graph, a: nat, b: nat) {
    exists p :: IsPath(g, p) && p[0] == a && p[|p| - 1] == b
  }

  /** No edge leaves a component. */
  ghost predicate EdgeClosed(g: Graph, comps: seq<set<nat>>) {
    forall k, a, b :: 0 <= k < |comps| && a in comps[k] && Adjacent(g, a, b) ==> b in comps[k]
  }

  /** The connected components of `g`: a partition of its nodes that no
      edge leaves and within which every node reaches every other. */
  ghost predicate IsComponents(g: Graph, comps: seq<set<nat>>) {
    && IsPartition(comps, g.n)
    && EdgeClosed(g, comps)
    && (forall k, a, b :: 0 <= k < |comps| && a in comps[k] && b in comps[k] ==> Reachable(g, a, b))
  }

  /** With disjoint components, each member gets exactly its own
      component's colour. */
  lemma {:induction false} MemberColor(comps: seq<set<nat>>, colors: seq<Color>, k: nat, idx: nat)
    requires |colors| == |comps| && Disjoint(comps)
    requires k < |comps| && idx in comps[k]
    ensures idx in ColorMap(comps, colors) && ColorMap(comps, colors)[idx] == colors[k]
    decreases |comps|
  {
    var last := |comps| - 1;
    var earlier := ColorMap(comps[..last], colors[..last]);
    var newest := map x | x in comps[last] :: colors[last];
    assert ColorMap(comps, colors) == earlier + newest;
    if k < last {
      assert comps[..last][k] == comps[k] && colors[..last][k] == colors[k];
      DisjointPrefix(comps, last);
      MemberColor(comps[..last], colors[..last], k, idx);
      assert idx !in newest;
    } else {
      assert idx in newest;
    }
  }

  lemma DisjointPrefix(comps: seq<set<nat>>, len: nat)
    requires Disjoint(comps) && len <= |comps|
    ensures Disjoint(comps[..len])
  {
    forall k1, k2, x | 0 <= k1 < k2 < len && x in comps[..len][k1]
      ensures x !in comps[..len][k2]
    {
      assert comps[..len][k1] == comps[k1] && comps[..len][k2] == comps[k2];
    }
  }

  /** Two indices in one component get the same colour. */
  lemma SameComponentSameColor(comps: seq<set<nat>>, colors: seq<Color>, k: nat, a: nat, b: nat)
    requires |colors| == |comps| && Disjoint(comps)
    requires k < |comps| && a in comps[k] && b in comps[k]
    ensures a in ColorMap(comps, colors) && b in ColorMap(comps, colors)
    ensures ColorMap(comps, colors)[a] == ColorMap(comps, colors)[b]
  {
    MemberColor(comps, colors, k, a);
    MemberColor(comps, colors, k, b);
  }

  /** Over a partition of 0 .. n-1 the map colours exactly the nodes. */
  lemma EveryNodeColored(comps: seq<set<nat>>, colors: seq<Color>, n: nat)
    requires |colors| == |comps| && IsPartition(comps, n)
    ensures forall x: nat :: x in ColorMap(comps, colors) <==> x < n
  {
  }

  /** A walk that starts in a component stays in it, when no edge leaves
      the component. */
  lemma {:induction false} PathStaysInComponent(g: Graph, comps: seq<set<nat>>, k: nat, p: seq<nat>)
    requires EdgeClosed(g, comps) && IsPath(g, p)
    requires k < |comps| && p[0] in comps[k]
    ensures p[|p| - 1] in comps[k]
    decreases |p|
  {
    if |p| > 1 {
      var front := p[..|p| - 1];
      assert IsPath(g, front) by {
        forall t | 0 <= t < |front| - 1
          ensures Adjacent(g, front[t], front[t + 1])
        {
          assert front[t] == p[t] && front[t + 1] == p[t + 1];
        }
      }
      PathStaysInComponent(g, comps, k, front);
      assert Adjacent(g, p[|p| - 2], p[|p| - 1]);
    }
  }

  /** Reachable nodes share a colour. */
  lemma ReachableSameColor(g: Graph, comps: seq<set<nat>>, colors: seq<Color>, a: nat, b: nat)
    requires |colors| == |comps| && IsPartition(comps, g.n) && EdgeClosed(g, comps)
    requires a < g.n && Reachable(g, a, b)
    ensures a in ColorMap(comps, colors) && b in ColorMap(comps, colors)
    ensures ColorMap(comps, colors)[a] == ColorMap(comps, colors)[b]
  {
    assert InSome(comps, a);
    var k :| 0 <= k < |comps| && a in comps[k];
    var p :| IsPath(g, p) && p[0] == a && p[|p| - 1] == b;
    PathStaysInComponent(g, comps, k, p);
    SameComponentSameColor(comps, colors, k, a, b);
  }

  /** With the true components and pairwise different colours, two nodes
      share a colour exactly when one reaches the other. */
  lemma SameColorIffReachable(g: Graph, comps: seq<set<nat>>, colors: seq<Color>, a: nat, b: nat)
    requires |colors| == |comps| && IsComponents(g, comps)
    requires forall k1, k2 :: 0 <= k1 < k2 < |colors| ==> colors[k1] != colors[k2]
    requires a < g.n && b < g.n
    ensures a in ColorMap(comps, colors) && b in ColorMap(comps, colors)
    ensures ColorMap(comps, colors)[a] == ColorMap(comps, colors)[b] <==> Reachable(g, a, b)
  {
    assert InSome(comps, a) && InSome(comps, b);
    var ka :| 0 <= ka < |comps| && a in comps[ka];
    var kb :| 0 <= kb < |comps| && b in comps[kb];
    MemberColor(comps, colors, ka, a);
    MemberColor(comps, colors, kb, b);
    if Reachable(g, a, b) {
      var p :| IsPath(g, p) && p[0] == a && p[|p| - 1] == b;
      PathStaysInComponent(g, comps, ka, p);
      assert ka == kb by {
        assert b in comps[ka] && b in comps[kb];
      }
    }
    if ka == kb {
      assert Reachable(g, a, b);
    } else {
      assert colors[ka] != colors[kb] by {
        if ka < kb {
          assert colors[ka] != colors[kb];
        } else {
          assert colors[kb] != colors[ka];
        }
      }
    }
  }

  /** End to end: two linked polylines end up with the same colour, once
      the components of the street graph are coloured. */
  lemma LinkedStreetsShareColor(lines: seq<Polyline>, o: Oracle, m: Numerics, threshold: real,
                                comps: seq<set<nat>>, colors: seq<Color>, i: nat, j: nat)
    requires Sound(o) && |colors| == |comps|
    requires IsComponents(StreetGraphOf(lines, o, m, threshold), comps)
    requires i < j < |lines| && AreConnected(lines[i], lines[j], o, m, threshold)
    ensures i in ColorMap(comps, colors) && j in ColorMap(comps, colors)
    ensures ColorMap(comps, colors)[i] == ColorMap(comps, colors)[j]
  {
    var g := StreetGraphOf(lines, o, m, threshold);
    assert (i, j) in g.edges;
    assert InSome(comps, i);
    var k :| 0 <= k < |comps| && i in comps[k];
    assert Adjacent(g, i, j);
    SameComponentSameColor(comps, colors, k, i, j);
  }
}
