# Point-in-polygon classifier, modelled in Dafny

This project models the point-in-polygon classifier of `main_from_user.py` and
`main_from_file.py`. Both files define a `Point` class and a `Polygon` class.
The polygon classifies a query point in three steps:

- **MBR test.** A closed-interval check against the polygon's minimum bounding
  rectangle.
- **Boundary test.** Is `|AP| + |PB| == |AB|` for some edge A, B? The
  interactive variant rounds both sides to 12 decimals; the batch variant does
  not round.
- **Ray cast.** A horizontal-ray parity test. It puts each edge's lower endpoint
  first and nudges the query point's `y` up by `0.00001` whenever the point is
  level with an endpoint. The nudge is written into the caller's `Point` object
  and accumulates over the edges. It then compares slopes, with
  `sys.float_info.max` standing in for a zero run.

The two files differ only in details:

- the ray cast's skip rule: `x >= max` against `x > max`;
- the batch variant's extra "falling edge straight above A" skip;
- the boundary test: the interactive variant rounds both sides to 12
  decimals; the batch variant does not round, and first swaps the edge's
  endpoints to put the lower one first, which changes nothing because the
  distance test is symmetric in its two ends (`OnSegmentSymmetric`);
- the driver. The interactive variant has the nested `check_point`. The batch
  variant has three module-level loops that fill a dictionary keyed by point
  name.

The model has six modules:

- `Geometry`: coordinates as reals, the MBR, the slope with its sentinel,
  squared distances, and the orientation of a point against an edge.
- `Sequences`: order-preserving filtering of a list by a mask.
- `RayScan`: the edge loop of `contains` as a fold. It is parameterised by the
  per-edge crossing rule, which is the only part that differs between the two
  variants.
- `FromUser` and `FromFile`: the two `Point`/`Polygon` classes. Their methods
  are imperative Dafny over the same state as the source: `Point` objects with
  mutable `x`/`y`, and a polygon with a list of points. Each method is proved
  against the functions of `RayScan` and `Geometry`.
- `FilePipeline`: the module-level three-stage run of `main_from_file.py`, as
  methods over the point list and the dictionary. Each stage is tied to value
  functions (`Select` for the lists passed on, `Relabel` for the dictionary).
  Lemmas then relate the whole run to the one-point decision `Classify`.

Python's `** (1 / 2)` and `round(·, 12)` are function-valued parameters
(`sqrt`, `round12`), left uninterpreted. The only fact the proofs need about them is
`sqrt(0.0) == 0.0`, a precondition of the vertex-on-boundary lemmas. `_huge` is the exact
value of the largest finite double (`Geometry.Huge`). `_eps` is
`Geometry.Eps`, the real 0.00001.

Two facts about the code are proved here and not stated in its comments:

- Given an edge slope of at most `_huge`, the slope comparison in `contains`
  is exactly an orientation test. For the interactive variant: the point is
  within the edge's height, strictly left of its right end, and on or left of
  the line from A up to B (`CrossesIsOrientation`). The batch variant's
  negative-slope skip is exactly what makes the same statement hold with a
  non-strict "left of the right end".
- A point far enough right is reported outside: in the interactive variant
  a point at or right of every vertex, in the batch variant a point strictly
  right of every vertex (`RayCastRightOfAll` in each). The batch variant does
  examine an edge whose right end is level in x with the point: on the unit
  square (0,0), (0,1), (1,1), (1,0), the point (1, 0.5) on the right edge is
  reported inside by the batch ray cast and outside by the interactive one,
  while the centre is inside for both (`UnitSquareRays` in each). A point
  right of every vertex can still be nudged, because the level test runs
  before the skip test, so such a call is not free of side effects.

## Model

| member | source | states |
|---|---|---|
| FromUser.Point.constructor | main_from_user.py:50-53 | a point holds the given x and y |
| FromUser.Polygon.constructor | main_from_user.py:60-61 | the polygon holds the given vertex list |
| FromUser.Polygon.Edges | main_from_user.py:63-74 | one pair per vertex; pair i is vertex i and vertex (i+1) mod n, so the last pair closes the loop |
| RayScan.NextIsModulo | main_from_user.py:71 | the successor index used for the edges is `(i + 1) % n` |
| FromUser.Polygon.XVertices | main_from_user.py:76-81 | same length as the vertex list; element i is vertex i's x |
| FromUser.Polygon.YVertices | main_from_user.py:83-88 | same length as the vertex list; element i is vertex i's y |
| FromUser.Polygon.MbrContains | main_from_user.py:90-100 | true iff the point lies in the closed box of the four bounds; it only reads the point; true implies the bounds are ordered |
| FromUser.Polygon.Contains | main_from_user.py:102-160 | the returned flag and the point's final y are those of the scan over all edges from the point's initial y; x is unchanged, and only the query point is modified (never a vertex) |
| FromUser.Polygon.VisitEdge | main_from_user.py:114-158 | one loop iteration: order the endpoints, nudge a level point by `_eps`, then skip, cross, or compare slopes; result and new y are one step of the scan |
| RayScan.Lower | main_from_user.py:117-119 | afterwards A is not above B; the edge is kept or swapped, and kept when already ordered |
| RayScan.Nudge | main_from_user.py:121-124 | y grows by exactly `_eps` or stays; once A is the lower end, the nudged y is never level with A |
| RayScan.ScanStep | main_from_user.py:112-158 | visiting one more edge toggles the scan's flag exactly when that edge is crossed, and moves y as the edge's level test says |
| RayScan.ScanParity | main_from_user.py:112-160 | the flag after k edges is true iff an odd number of them were crossed |
| RayScan.ScanRaisesY | main_from_user.py:121-124 | y only ever grows, by one `_eps` per nudging edge, and at most one nudge per edge |
| RayScan.ScanUntouched | main_from_user.py:121-129 | a point level with no vertex, crossing no edge at its own height, keeps flag false and y unchanged |
| RayScan.ScanNeverInside | main_from_user.py:126-129 | if no edge is crossed at any height, the flag stays false |
| RayScan.ScanAgreement | main_from_user.py:117-158 | two crossing rules that agree away from each lower endpoint's height give the same scan, because a nudged point is never level with A |
| Geometry.SlopeOrder | main_from_user.py:137-156 | for a point strictly between the ends in x, on A's side, `slope_point >= slope_edge` iff the point is on or left of the directed line A to B |
| Geometry.LeftOfBothEnds | main_from_user.py:131-135 | a point in the edge's height strictly left of both ends is strictly left of the line from A up to B, so the unconditional toggle agrees with orientation |
| Geometry.QuotientCompare | main_from_user.py:156 | comparing two quotients with same-sign denominators is comparing their cross products |
| FromUser.CrossesIsOrientation | main_from_user.py:126-158 | with A lower, the point not level with A and the edge slope at most `_huge`, the skip/toggle/slope rule equals: A.y < y <= B.y, x < max(A.x, B.x), and orientation >= 0 |
| FromUser.VerticalEdgeCrossing | main_from_user.py:137-158 | a vertical edge never fails; it is crossed iff the point is within its closed height and strictly left of it |
| FromUser.RayCastIsOrientation | main_from_user.py:102-160 | over a whole polygon with bounded slopes, the slope-based ray cast equals the orientation-based one, flag and final y |
| FromUser.RayCastBesideVerticalExtent | main_from_user.py:121-129 | a query y strictly below or strictly above every vertex gives false with no nudge |
| FromUser.RayCastRightOfAll | main_from_user.py:126-129 | x at or right of every vertex gives false (y may still be nudged) |
| FromUser.UnitSquareRays | main_from_user.py:102-160 | on the unit square the centre is inside, and the midpoint (1, 0.5) of the right edge is outside because that edge is skipped |
| FromUser.Polygon.Boundary | main_from_user.py:162-186 | true iff some edge passes the rounded test: dist(A,P) + dist(P,B) equals dist(A,B) after rounding both sides to 12 decimals; every edge is visited |
| FromUser.VertexOnBoundary | main_from_user.py:162-186 | every vertex passes the boundary test (given sqrt(0) = 0) |
| FromUser.FindMbr | main_from_user.py:227-233 | the bounds are the min and max of the vertex coordinates; no vertices gives None (Python's `min` raises) |
| FromUser.ClassifyVertex | main_from_user.py:204-217 | every vertex is classified boundary against the polygon's own MBR |
| FromUser.ClassifyPrecedence | main_from_user.py:204-217 | outside the MBR gives outside whatever the ray cast says; in the MBR and on the boundary gives boundary; inside implies in the MBR and off the boundary |
| FromUser.CheckPoint | main_from_user.py:204-217 | the result is the MBR-then-boundary-then-ray-cast decision on the point's initial coordinates; the point's y changes only when the ray cast runs, and then to the scan's final y |
| FromFile.Point.constructor | main_from_file.py:42-46 | a point holds the given name, x and y |
| FromFile.Polygon.constructor | main_from_file.py:51-53 | the polygon holds the given vertex list |
| FromFile.Polygon.Edges | main_from_file.py:55-68 | one pair per vertex; pair i is vertex i and vertex (i+1) mod n |
| FromFile.Polygon.VertexXs | main_from_file.py:70-74 | same length as the vertex list; element i is vertex i's x |
| FromFile.Polygon.VertexYs | main_from_file.py:76-80 | same length as the vertex list; element i is vertex i's y |
| FromFile.FindMbr | main_from_file.py:210-216 | the MBR bounds are the min and max of the vertex coordinates; no vertices gives None |
| Geometry.MinOf | main_from_file.py:213 | the result is an element of the list and at most every element |
| Geometry.MaxOf | main_from_file.py:214 | the result is an element of the list and at least every element |
| Geometry.MbrOf | main_from_file.py:210-216 | an MBR exists iff there is at least one vertex |
| Geometry.MbrIsTight | main_from_file.py:210-216 | every vertex lies in the MBR, and each of the four bounds is attained by some vertex |
| FromFile.Polygon.MbrCheckIfInside | main_from_file.py:94-100 | true iff the point lies in the closed MBR; it only reads the point |
| FromFile.Polygon.Contains | main_from_file.py:104-164 | the flag and the point's final y are those of the scan with the batch crossing rule; x is unchanged; no vertex is modified |
| FromFile.Polygon.VisitEdge | main_from_file.py:115-162 | one iteration with the strict `x > max` skip and the falling-edge skip at `a.x == x`; result and new y are one step of the scan |
| FromFile.CrossesIsOrientation | main_from_file.py:127-162 | with A lower, the point not level with A and edge slope at most `_huge`, the rule equals: A.y < y <= B.y, x <= max(A.x, B.x), and orientation >= 0; the falling-edge skip is exactly the negative-orientation case above A |
| FromFile.VerticalEdgeCrossing | main_from_file.py:127-162 | a vertical edge is crossed iff the point is within its closed height and on or left of it (the strict skip keeps x == A.x) |
| FromFile.RayCastIsOrientation | main_from_file.py:104-164 | over a polygon with bounded slopes, the slope-based ray cast equals the orientation-based one |
| FromFile.RayCastBesideVerticalExtent | main_from_file.py:121-128 | a query y strictly outside the vertices' vertical extent gives false with no nudge |
| FromFile.RayCastRightOfAll | main_from_file.py:127-128 | x strictly right of every vertex gives false |
| FromFile.UnitSquareRays | main_from_file.py:104-164 | on the unit square the centre is inside, and so is the midpoint (1, 0.5) of the right edge, whose vertical slope meets the point's |
| FromFile.Polygon.Boundary | main_from_file.py:167-187 | true iff some edge passes the unrounded test dist(A,P) + dist(P,B) == dist(A,B); every edge is visited |
| FromFile.Polygon.EdgeTest | main_from_file.py:171-185 | the test after the endpoint swap equals the test on the edge as listed |
| FromFile.OnSegmentSymmetric | main_from_file.py:174-185 | the distance test does not depend on which endpoint is A, so the swap changes nothing |
| FromFile.VertexOnBoundary | main_from_file.py:167-187 | every vertex passes the boundary test (given sqrt(0) = 0) |
| FromFile.ClassifyVertex | main_from_file.py:231-245 | every vertex is labelled boundary against the polygon's own MBR |
| FilePipeline.NamesGrow | main_from_file.py:228-229 | one more point adds its name to the key set |
| FilePipeline.BuildDictionary | main_from_file.py:226-229 | the keys are the input names; every entry is unclassified; for each name, the last point with it supplies the coordinates |
| FilePipeline.Relabel | main_from_file.py:231-252 | writing categories never adds or removes a key |
| FilePipeline.RelabelStep | main_from_file.py:248-252 | a write at point n sets the category of point n's name and touches nothing else |
| FilePipeline.RelabelKeepsCoordinates | main_from_file.py:237-252 | stage writes change only the category, never the stored coordinates |
| FilePipeline.RelabelUnwritten | main_from_file.py:237-252 | a name that no point writes keeps its entry |
| FilePipeline.RelabelLastWrite | main_from_file.py:237-252 | the last point to write a name decides its category |
| FilePipeline.RelabelSettles | main_from_file.py:237-252 | when no write is unclassified, a written or already classified name ends up classified |
| FilePipeline.PassedIffUnwritten | main_from_file.py:233-245 | in a list of distinct points, a point reaches the next stage's list exactly when this stage writes no label for it |
| Sequences.SelectFirst | main_from_file.py:232-235 | filtering a prefix of n points keeps at most n of them |
| Sequences.SelectKeeps | main_from_file.py:232-245 | every point a stage passes on is in the next stage's list |
| Sequences.SelectDrawsFrom | main_from_file.py:232-245 | every point in the next stage's list was passed on by this stage |
| Sequences.SelectDistinct | main_from_file.py:232-245 | filtering a list of distinct points gives distinct points |
| Sequences.SelectIn | main_from_file.py:232-245 | a filtered list draws only from its source list |
| FilePipeline.SplitByMbr | main_from_file.py:231-237 | `inside_mbr` is, in order, the input points inside the MBR; the dictionary is the built one with every point outside the MBR labelled outside |
| FilePipeline.SplitByBoundary | main_from_file.py:239-245 | `to_be_classified` is, in order, the points of `inside_mbr` off the boundary; the dictionary gains boundary labels for the others |
| FilePipeline.BoundaryStep | main_from_file.py:241-245 | one iteration of the boundary loop keeps that loop's filter and dictionary invariant |
| FilePipeline.ClassifyRemaining | main_from_file.py:247-252 | each remaining point is labelled inside or outside by its own ray cast from its coordinates on entry; each is nudged to that cast's final y with x unchanged; any other point keeps its coordinates; the polygon is unchanged |
| FilePipeline.RayCastStep | main_from_file.py:248-252 | one iteration ray-casts one point and labels it; earlier points stay as labelled and nudged, later ones untouched |
| FilePipeline.StagesClassify | main_from_file.py:231-252 | the first label written by the three stages is `Classify`'s label; no stage writes unclassified; the ray cast labels every point it gets |
| FilePipeline.WithinNamesIn | main_from_file.py:237-250 | the names of a stage's sublist are dictionary keys |
| FilePipeline.SelectOmits | main_from_file.py:231-245 | with distinct names, a point a stage labels leaves no point with its name in the lists passed on |
| FilePipeline.SelectAvoids | main_from_file.py:231-245 | filtering introduces no new name |
| FilePipeline.SelectDistinctNames | main_from_file.py:231-245 | filtering keeps names distinct |
| FilePipeline.SplitPassesOn | main_from_file.py:231-245 | `inside_mbr` and `to_be_classified` are distinct sublists of the input whose names are keys |
| FilePipeline.RunSettlesAt | main_from_file.py:231-252 | after the three stages, each input point's name is classified |
| FilePipeline.RunPassesOn | main_from_file.py:239-252 | every point the ray cast sees was inside the MBR and off the boundary |
| FilePipeline.RunLabels | main_from_file.py:226-252 | with distinct names, each input point's entry holds its coordinates as read and the first label a stage writes for them |
| FilePipeline.RunClassifies | main_from_file.py:226-252 | after a run the keys are the input names, and none is unclassified; the ray cast never sees a point outside the MBR or on the boundary; with distinct names every entry is (x, y as read, `Classify`'s label) |
| FilePipeline.SplitStages | main_from_file.py:226-245 | the dictionary and the first two stages, read-only on the points, produce the values a run starts from |
| FilePipeline.ClassifyAll | main_from_file.py:226-252 | the whole module-level run: the keys are the input names and none is unclassified; `inside_mbr` and `to_be_classified` are the order-preserving filters; boundary points and points outside the MBR never reach the ray cast; with distinct names each entry is `Classify` of the point as read; each point of `to_be_classified` keeps its x and ends at its ray cast's nudged y, and every other input point keeps both coordinates; the vertices are unchanged |

## Left out

- The `Plotter` class of both files (matplotlib drawing) is not part of this model.
- `read_points_from_file` in both files is not part of this model: it does file I/O, CSV splitting and `float()` parsing. Points arrive as a `seq<Point>`. Because each point is constructed freshly in the source, `FilePipeline.ClassifyAll` requires the input points to be distinct objects.
- The `output.csv` writer (main_from_file.py:255-262) and all `print` output are not modelled.
- The interactive `input()` loop of `main` (main_from_user.py:239-279) is left out. It is console I/O; `check_point` is modelled as `FromUser.CheckPoint`.
- `more_input_gen.py` only generates an input grid and is not part of this model.
- Floating point is not modelled: coordinates are reals, so large-magnitude absorption of `+ 0.00001` and rounding in `/` are not captured. `** (1 / 2)` and `round(·, 12)` are uninterpreted function parameters.
- FromUser.Polygon.Contains, FromFile.Polygon.Contains: require the query point not to be one of the polygon's own vertex objects. In the source the query points are always separate objects; a vertex object passed in would be nudged together with the polygon.
- FromUser.CheckPoint: calls `mbr_contains` and `boundary` once each, where the source evaluates each twice (once per `if`/`elif` arm). Both only read, so the second call returns the same value.
- FilePipeline.ClassifyAll: takes the MBR bounds as a `Box`, which `FromFile.FindMbr` computes. The source reads them from module-level globals, and an empty polygon makes `min` raise before the pipeline starts (`FindMbr` returns None).
- FilePipeline.ClassifyAll: states the exact per-point label only when input names are distinct. With a repeated name the dictionary keeps one entry per name, and later writes overwrite earlier ones; for that case the model states only that no entry is left unclassified.
- The per-iteration bodies of the loops in `contains`, `boundary` and the second and third pipeline stages are separate methods (`VisitEdge`, `EdgeTest`, `BoundaryStep`, `RayCastStep`). The loop structure and the order of effects are those of the source.
- The dictionary's values are Python lists `[x, y, label]` updated by index. They are modelled as immutable `Entry` values that the map reassigns; each list is private to its key, so no aliasing is lost.
- `_eps` in the batch variant's `boundary` (main_from_file.py:168) is never used and is not modelled.
- A polygon needs no minimum number of vertices in the code: `edges` on one vertex yields a self-loop, and an empty polygon fails only at `min`. The model follows the code and imposes no three-vertex minimum.
