# Street grouping: a verified model

This project models how `main.py` groups the streets of a road network. It
has four parts:

- **Pairwise rule.** Two polylines are *linked* when they meet in exactly one
  point and their local directions there make a small angle. The angle is
  folded, so a line and its reverse count as aligned.
- **Street graph.** It has one node per polyline position. Every linked
  pair `i < j` is an edge, and a nested loop tries each such pair once.
- **Colouring.** Each connected component of the graph gets one colour, and
  every member of the component is mapped to it.
- **Local direction.** This is the direction of a polyline near a touch
  point. The search finds the vertex nearest the point; a tie goes to the
  first such vertex. The direction is the segment from that vertex to the
  next one, or from the previous one when the nearest vertex is the last.

Modules:

- `Geometry` (`geometry.dfy`): points, vectors, the nearest-vertex search
  and the local direction.
- `Angles` (`angles.dfy`): the angle guard, clamp, arccos and fold.
- `Connectivity` (`connectivity.dfy`): the pairwise rule.
- `StreetGraph` (`street_graph.dfy`): the graph builder.
- `Coloring` (`coloring.dfy`): the colour map over components.
- `Examples` (`examples.dfy`): concrete instances under stand-in numerics.

The foreign calls are parameters:

- Shapely's `intersects`, `intersection` and `Point.distance` are function
  values in an `Oracle` and a `Numerics` record.
- `math.hypot` and `degrees(acos(.))` are also function values in
  `Numerics`.
- `Angles.Valid` lists the few real-number facts the proofs use about
  them. `Connectivity.Sound` says a single-point intersection needs a
  vertex on each line.

Arithmetic is over mathematical reals, not IEEE doubles.

Two edge cases of the local direction:

- **One-vertex polylines.** The `nearest_idx - 1` index becomes `-1` and
  wraps round to the same vertex. The direction is then zero and the angle
  is 180. The line is therefore never linked under a threshold of at most
  180, the default 30 included (`Geometry.PyIndex`,
  `Angles.SingleVertexAngle`, `Connectivity.SingleVertexNeverConnected`).
- **Repeated vertices.** The direction is zero whenever the chosen segment
  joins two equal consecutive vertices, even if the polyline has other
  distinct points (`Geometry.DirectionZeroIff`,
  `Examples.RepeatedVertexZeroDirection`).

Only the single-point-intersection rule of `are_connected` is modelled.

## Model

| member | source | states |
|---|---|---|
| Geometry.NearestIndex | main.py:14 | the index returned is at minimum distance from the touch point, and every earlier vertex is strictly farther (Python's `min` returns the first minimum) |
| Geometry.FirstNearestUnique | main.py:14 | at most one index has the first-nearest property, so it fixes the search result completely |
| Geometry.NearestIsFirstOccurrence | main.py:14 | when the touch point is a vertex and the distance separates points, the search lands on the first occurrence of that vertex |
| Geometry.Direction | main.py:12-24 | a one-vertex line has a zero direction (index -1 wraps); otherwise the direction is the vector of one of the line's segments |
| Geometry.DirectionSegment | main.py:16-24 | with at least two vertices: forward segment `coords[k+1]-coords[k]` when the nearest vertex k is not last, else the backward segment `coords[k]-coords[k-1]` |
| Geometry.SegmentDirection | main.py:17-24 | a two-vertex line has the same direction, from its first vertex to its last, wherever it is touched |
| Geometry.DirectionZeroIff | main.py:17-24 | the direction is zero exactly when the chosen segment joins two equal vertices |
| Angles.Clamp | main.py:38 | the clamped cosine lies in [-1, 1], is unchanged inside that range, and is pinned to the nearer bound outside it |
| Angles.Fold | main.py:41 | the fold is no larger than the angle or its supplement, and equals one of them |
| Angles.FoldRange | main.py:39-41 | an angle in [0, 180] folds into [0, 90] |
| Angles.FoldSupplement | main.py:41 | replacing the angle by its supplement does not change the fold |
| Angles.VectorAngle | main.py:30-41 | the angle is exactly 180 if and only if a vector is zero; otherwise it lies in [0, 90] |
| Angles.AlignedAngleZero | main.py:36-41 | vectors pointing the same or opposite ways make angle 0 |
| Angles.PerpendicularAngle | main.py:37-41 | perpendicular vectors make angle 90 |
| Angles.VectorAngleSymmetric | main.py:30-41 | swapping the two vectors leaves the angle unchanged |
| Angles.Angle | main.py:11-41 | the angle between two lines at a point is 180 if and only if a local direction is zero; otherwise it lies in [0, 90] |
| Angles.AngleSymmetric | main.py:26-41 | swapping `line1` and `line2` leaves the angle unchanged |
| Angles.SingleVertexAngle | main.py:12-34 | a one-vertex line makes angle 180 with anything |
| Connectivity.AreConnected | main.py:43-54 | linked only if the lines intersect and the intersection is a single point; under a threshold of at most 180, both local directions there are non-zero |
| Connectivity.WideThresholdConnected | main.py:43-54 | for a threshold in (90, 180], linked if and only if the lines meet in a single point with both directions non-zero |
| Connectivity.AreConnectedSymmetric | main.py:43-54 | when the intersection operations are symmetric, the rule gives the same answer for both orders of the lines |
| Connectivity.AlignedLinesConnected | main.py:47-52 | lines meeting in one point and aligned there are linked under any positive threshold |
| Connectivity.PerpendicularLinesNotConnected | main.py:47-52 | lines crossing at a right angle are not linked under any threshold up to 90 |
| Connectivity.SingleVertexNeverConnected | main.py:33-52 | a one-vertex line is never linked under a threshold of at most 180, the default 30 included |
| StreetGraph.BuildStreetGraph | main.py:56-70 | edge (i, j) is present if and only if i < j < N and the lines are linked, with no self-loops; the evaluated pairs are exactly the pairs i < j, in loop order, each once |
| StreetGraph.LinkRow | main.py:63-68 | the inner loop over j adds exactly the linked pairs (i, j) and logs each pair (i, j), in order |
| StreetGraph.RowStep | main.py:67-68 | one inner step adds the pair (i, j) exactly when it is linked |
| Coloring.ColorMap | main.py:72-77 | an index is mapped if and only if it lies in some component, and its colour is the colour of a component containing it |
| Coloring.MemberColor | main.py:74-77 | with disjoint components, every member of component k gets exactly colour k |
| Coloring.SameComponentSameColor | main.py:74-77 | two indices in the same component get the same colour |
| Coloring.EveryNodeColored | main.py:73-77 | over a partition of the nodes, exactly the nodes 0..N-1 receive a colour |
| Coloring.PathStaysInComponent | main.py:74 | a walk that starts in a connected component stays inside it |
| Coloring.ReachableSameColor | main.py:74-77 | nodes reachable from one another get the same colour |
| Coloring.SameColorIffReachable | main.py:74-77 | with pairwise different colours, two nodes share a colour if and only if one reaches the other |
| Coloring.LinkedStreetsShareColor | main.py:103-104 | two linked streets end up with the same colour once the street graph's components are coloured |
| Examples.TieGoesToFirstVertex | main.py:14 | with two vertices equally near the touch point, the first one is chosen |
| Examples.RepeatedVertexZeroDirection | main.py:14-24 | a line whose first two vertices coincide has a zero direction when touched there, although it has two distinct points |
| Examples.ContinuingSegmentsLinked | main.py:43-54 | (0,0)-(1,0) and (1,0)-(2,0), meeting at (1,0), are linked under the default threshold of 30 |
| Examples.CrossingSegmentsNotLinked | main.py:43-54 | two segments crossing at a right angle at (1,1) are not linked under the default threshold |
| Examples.ThreeLineGraph | main.py:56-70 | over (0,0)-(1,0), (1,0)-(2,0) and (5,5)-(6,5), the street graph has the single edge (0, 1) |
| Examples.CrossingGraph | main.py:56-70 | the two crossing segments give a graph without edges |
| Examples.ThreeLineComponents | main.py:74 | {0, 1} and {2} are the connected components of the three-line graph |

## Left out

- Shapely's `intersects`, `intersection` and `Point.distance` (main.py:14, 44, 47) are foreign geometry calls. They are the function values of `Connectivity.Oracle` and `Angles.Numerics.dist`. Only the shape of the intersection is modelled: empty, a single point, or anything else.
- `math.hypot`, `math.acos` and `math.degrees` (main.py:30-31, 39) are floating-point library calls, left uninterpreted. `Angles.Valid` assumes `hypot` is non-negative and zero only at the origin. It assumes arccos in degrees maps [-1, 1] into [0, 180], with the values 0, 90 and 180 at 1, 0 and -1.
- Floating-point rounding is not modelled: all arithmetic is over the reals.
- `get_random_color` (main.py:8-9) draws random numbers. The colours are an input instead, one per component.
- `nx.connected_components` (main.py:74) is library code. The components are an input. `Coloring.IsComponents` says what they must be: a partition of the nodes that no edge leaves, in which every node reaches every other.
- The order in which networkx lists components is not modelled. Components are disjoint, so the order does not change the resulting map.
- `nx.Graph` and its node attributes (main.py:57-60) are modelled by `StreetGraph.Graph`. Nodes are the positions 0..N-1, as in the edge loop. Index labels other than 0..N-1 are not modelled.
- Writing the colour column back into the data frame (main.py:79) is not modelled. It is a lookup of the map by index label.
- `plot_colored_streets` and the main block (main.py:83-106) are rendering and file I/O.
- `distance_threshold` (main.py:43, 56) is never read by the code, so it has no counterpart.
- An intersection with an empty line never reaches the vertex search: `Connectivity.Sound` rules out a single-point intersection with an empty line. The `min` over an empty range, which would raise, is therefore not modelled.
- Connectivity.AreConnectedSymmetric: holds only when the intersection operations themselves are symmetric, which the model assumes of the oracle rather than proving.
- Angles.VectorAngle: does not state the value of arccos for cosines other than -1, 0 and 1, because the model leaves arccos uninterpreted apart from those landmarks.
- Coloring.SameColorIffReachable: assumes the component colours are pairwise different. The program draws them at random, so two components could share a colour by chance.
- Inputs are assumed to be 2-D single-part lines, so a polyline is a sequence of 2-D points. Two exceptions are not modelled. `list(line.coords)` (main.py:13) raises for a multi-part geometry such as a MultiLineString, and `build_street_graph` (main.py:62-68) does not filter geometry types. The tuple unpacking at main.py:18-22 raises for 3-D coordinates.
