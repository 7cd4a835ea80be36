/** The interactive variant of the classifier (main_from_user.py): a point
    is classified as outside, boundary or inside by the MBR test, then the
    boundary test with distances rounded to 12 decimals, then ray casting
    with the `x >= max(A.x, B.x)` skip rule.

    `sqrt` stands for Python's `** (1 / 2)` and `round12` for
    `round(., 12)`; both are left uninterpreted. */
module FromUser {
  import opened Geometry
  import opened RayScan

  class Point {
    var x: real
    var y: real

    constructor (x: real, y: real)
      ensures this.x == x && this.y == y
    {
      this.x := x;
      this.y := y;
    }
  }

  /** The current coordinates of a list of points. */
  function Coords(ps: seq<Point>): (cs: seq<Coord>)
    reads ps
    ensures |cs| == |ps|
    ensures forall i :: 0 <= i < |ps| ==> cs[i] == Coord(ps[i].x, ps[i].y)
  {
    seq(|ps|, i requires 0 <= i < |ps| reads ps => Coord(ps[i].x, ps[i].y))
  }

  /** The classification returned by `check_point`. */
  datatype Category = Outside | Boundary | Inside

  /** The ray-casting rule for one edge, A the lower endpoint: skip the edge
      when y is outside [A.y, B.y] or x is at or right of both endpoints,
      cross when x is left of both, otherwise compare slopes with `Huge`
      standing in for a zero run. */
  function Crosses(a: Coord, b: Coord, x: real, y: real): bool
  {
    if y > b.y || y < a.y || x >= Max2(a.x, b.x) then false
    else if x < Min2(a.x, b.x) then true
    else
      var slopeEdge := Slope(b.y - a.y, b.x - a.x);
      var slopePoint := Slope(y - a.y, x - a.x);
      slopePoint >= slopeEdge
  }

  /** The half-open crossing rule stated with the orientation of the point
      against the upward edge instead of slopes. */
  function CrossesByOrientation(a: Coord, b: Coord, x: real, y: real): bool
  {
    a.y < y <= b.y && x < Max2(a.x, b.x) && Orient(a, b, Coord(x, y)) >= 0.0
  }

  /** With A the lower endpoint, the point not level with A (the nudge
      guarantees it) and the edge's slope at most `Huge` (true of every
      finite double), the slope rule is the orientation rule: the ray
      crosses exactly when the point is within the edge's height, left of
      its right end, and on or to the left of the line from A up to B.
      When the comparison is reached the edge is never vertical, so the
      edge-slope sentinel only matters through the point's slope. */
  lemma CrossesIsOrientation(a: Coord, b: Coord, x: real, y: real)
    requires a.y <= b.y && y != a.y
    requires Slope(b.y - a.y, b.x - a.x) <= Huge
    ensures Crosses(a, b, x, y) == CrossesByOrientation(a, b, x, y)
  {
    var p := Coord(x, y);
    if y > b.y || y < a.y || x >= Max2(a.x, b.x) {
    } else if x < Min2(a.x, b.x) {
      LeftOfBothEnds(a, b, p);
    } else if x == a.x {
      // a.x is the left end, so the edge is not vertical and its slope is finite
      assert b.x - a.x > 0.0 && y - a.y > 0.0;
      assert Orient(a, b, p) == (b.x - a.x) * (y - a.y);
    } else {
      // the point lies strictly between the ends in x, on the side of A where B is
      assert (a.x < b.x && a.x < x) || (b.x < a.x && x < a.x);
      SlopeOrder(a, b, p);
    }
  }

  /** A vertical edge is crossed exactly when the point is strictly to its
      left within its (closed) height range. */
  lemma VerticalEdgeCrossing(a: Coord, b: Coord, x: real, y: real)
    requires a.y <= b.y && a.x == b.x
    ensures Crosses(a, b, x, y) <==> a.y <= y <= b.y && x < a.x
  {
  }

  /** Whether every edge's slope is at most `Huge`. */
  predicate SlopesBounded(cs: seq<Coord>)
  {
    forall k :: 0 <= k < |cs| ==>
      Slope(Lower(EdgeAt(cs, k)).1.y - Lower(EdgeAt(cs, k)).0.y, Lower(EdgeAt(cs, k)).1.x - Lower(EdgeAt(cs, k)).0.x) <= Huge
  }

  /** Over a whole polygon, the ray cast with slopes equals the ray cast
      with the orientation rule, flag and final y alike. */
  lemma RayCastIsOrientation(cs: seq<Coord>, x: real, y0: real)
    requires SlopesBounded(cs)
    ensures RayCast(cs, x, y0, Crosses) == RayCast(cs, x, y0, CrossesByOrientation)
  {
    forall i, y | 0 <= i < |cs| && y != Lower(EdgeAt(cs, i)).0.y
      ensures Crosses(Lower(EdgeAt(cs, i)).0, Lower(EdgeAt(cs, i)).1, x, y)
           == CrossesByOrientation(Lower(EdgeAt(cs, i)).0, Lower(EdgeAt(cs, i)).1, x, y)
    {
      CrossesIsOrientation(Lower(EdgeAt(cs, i)).0, Lower(EdgeAt(cs, i)).1, x, y);
    }
    ScanAgreement(cs, |cs|, x, y0, Crosses, CrossesByOrientation);
  }

  /** A point strictly below or strictly above every vertex is never
      nudged, every edge is skipped, and the result is false. */
  lemma RayCastBesideVerticalExtent(cs: seq<Coord>, x: real, y0: real)
    requires (forall i :: 0 <= i < |cs| ==> y0 < cs[i].y) || (forall i :: 0 <= i < |cs| ==> y0 > cs[i].y)
    ensures RayCast(cs, x, y0, Crosses) == ScanState(false, y0)
  {
    forall i | 0 <= i < |cs|
      ensures !Crosses(Lower(EdgeAt(cs, i)).0, Lower(EdgeAt(cs, i)).1, x, y0)
    {
      var n := |cs|;
      assert cs[i] in cs && cs[Next(i, n)] in cs;
    }
    ScanUntouched(cs, |cs|, x, y0, Crosses);
  }

  /** A point at or right of every vertex is reported outside.  It may still
      be nudged: the level test comes before the skip. */
  lemma RayCastRightOfAll(cs: seq<Coord>, x: real, y0: real)
    requires forall i :: 0 <= i < |cs| ==> cs[i].x <= x
    ensures !RayCast(cs, x, y0, Crosses).inside
  {
    forall i, y | 0 <= i < |cs|
      ensures !Crosses(Lower(EdgeAt(cs, i)).0, Lower(EdgeAt(cs, i)).1, x, y)
    {
      var n := |cs|;
      assert cs[i] in cs && cs[Next(i, n)] in cs;
    }
    ScanNeverInside(cs, |cs|, x, y0, Crosses);
  }

  /** On the unit square, the centre is inside, but the midpoint of the
      right edge is outside: the point is level in x with that edge's right
      end, so the edge is skipped. */
  lemma UnitSquareRays()
    ensures RayCast([Coord(0.0, 0.0), Coord(0.0, 1.0), Coord(1.0, 1.0), Coord(1.0, 0.0)], 0.5, 0.5, Crosses) == ScanState(true, 0.5)
    ensures RayCast([Coord(0.0, 0.0), Coord(0.0, 1.0), Coord(1.0, 1.0), Coord(1.0, 0.0)], 1.0, 0.5, Crosses) == ScanState(false, 0.5)
  {
    var sq := [Coord(0.0, 0.0), Coord(0.0, 1.0), Coord(1.0, 1.0), Coord(1.0, 0.0)];
    assert Scan(sq, 1, 0.5, 0.5, Crosses) == ScanState(false, 0.5);
    assert Scan(sq, 2, 0.5, 0.5, Crosses) == ScanState(false, 0.5);
    assert Scan(sq, 3, 0.5, 0.5, Crosses) == ScanState(true, 0.5);
    assert Scan(sq, 4, 0.5, 0.5, Crosses) == ScanState(true, 0.5);
    assert Scan(sq, 1, 1.0, 0.5, Crosses) == ScanState(false, 0.5);
    assert Scan(sq, 2, 1.0, 0.5, Crosses) == ScanState(false, 0.5);
    assert Scan(sq, 3, 1.0, 0.5, Crosses) == ScanState(false, 0.5);
    assert Scan(sq, 4, 1.0, 0.5, Crosses) == ScanState(false, 0.5);
  }

  /** The rounded distance test for one edge: |AP| + |PB| equals |AB| after
      both sides are rounded to 12 decimals. */
  predicate OnEdge(a: Coord, b: Coord, p: Coord, sqrt: real -> real, round12: real -> real)
  {
    round12(sqrt(SqDist(a, p)) + sqrt(SqDist(p, b))) == round12(sqrt(SqDist(a, b)))
  }

  /** The distance test for edge k of the polygon. */
  predicate OnEdgeAt(cs: seq<Coord>, k: nat, p: Coord, sqrt: real -> real, round12: real -> real)
    requires k < |cs|
  {
    OnEdge(EdgeAt(cs, k).0, EdgeAt(cs, k).1, p, sqrt, round12)
  }

  /** The point passes the distance test for some edge of the polygon. */
  predicate OnBoundary(cs: seq<Coord>, p: Coord, sqrt: real -> real, round12: real -> real)
  {
    exists k :: 0 <= k < |cs| && OnEdgeAt(cs, k, p, sqrt, round12)
  }

  /** Every vertex is on the boundary: with P = A the test reads
      round(0 + |AB|) == round(|AB|). */
  lemma VertexOnBoundary(cs: seq<Coord>, k: nat, sqrt: real -> real, round12: real -> real)
    requires k < |cs| && sqrt(0.0) == 0.0
    ensures OnBoundary(cs, cs[k], sqrt, round12)
  {
    var (a, b) := EdgeAt(cs, k);
    assert SqDist(a, a) == 0.0;
    assert SqDist(a, b) == SqDist(cs[k], b);
    assert OnEdgeAt(cs, k, cs[k], sqrt, round12);
  }

  /** The decision of `check_point`, as a function of the polygon, the MBR
      and the point's coordinates: MBR first, then boundary, then ray cast. */
  function Classify(cs: seq<Coord>, mbr: Box, p: Coord, sqrt: real -> real, round12: real -> real): Category
  {
    if !mbr.Contains(p) then Outside
    else if OnBoundary(cs, p, sqrt, round12) then Boundary
    else if RayCast(cs, p.x, p.y, Crosses).inside then Inside
    else Outside
  }

  /** Every vertex of the polygon is classified as boundary against the
      polygon's own MBR. */
  lemma ClassifyVertex(cs: seq<Coord>, k: nat, sqrt: real -> real, round12: real -> real)
    requires k < |cs| && sqrt(0.0) == 0.0
    ensures MbrOf(cs).Some?
    ensures Classify(cs, MbrOf(cs).value, cs[k], sqrt, round12) == Boundary
  {
    MbrIsTight(cs);
    VertexOnBoundary(cs, k, sqrt, round12);
  }

  /** Outside the MBR the answer is outside, whatever the ray cast would say;
      inside it, a point on the boundary is boundary, never inside. */
  lemma ClassifyPrecedence(cs: seq<Coord>, mbr: Box, p: Coord, sqrt: real -> real, round12: real -> real)
    ensures !mbr.Contains(p) ==> Classify(cs, mbr, p, sqrt, round12) == Outside
    ensures mbr.Contains(p) && OnBoundary(cs, p, sqrt, round12) ==> Classify(cs, mbr, p, sqrt, round12) == Boundary
    ensures Classify(cs, mbr, p, sqrt, round12) == Inside ==> mbr.Contains(p) && !OnBoundary(cs, p, sqrt, round12)
  {
  }

  /** The loop state of `contains` after i edges: x untouched, and the flag
      and the point's y are those of the scan over the first i edges. */
  ghost predicate ScannedUpTo(cs: seq<Coord>, i: nat, x0: real, y0: real, point: Point, inside: bool)
    reads point
  {
    i <= |cs| && point.x == x0 && Scan(cs, i, x0, y0, Crosses) == ScanState(inside, point.y)
  }

  class Polygon {
    /** The vertices, in clockwise order. */
    const points: seq<Point>

    constructor (points: seq<Point>)
      ensures this.points == points
    {
      this.points := points;
    }

    /** One pair per vertex: the vertex and the next one, the last pair
        wrapping back to the first vertex. */
    method Edges() returns (edgeList: seq<(Point, Point)>)
      ensures |edgeList| == |points|
      ensures forall i :: 0 <= i < |points| ==> edgeList[i] == (points[i], points[Next(i, |points|)])
    {
      edgeList := [];
      var i := 0;
      while i < |points|
        invariant 0 <= i <= |points|
        invariant |edgeList| == i
        invariant forall j :: 0 <= j < i ==> edgeList[j] == (points[j], points[Next(j, |points|)])
      {
        var p1 := points[i];
        var p2 := points[(i + 1) % |points|];
        NextIsModulo(i, |points|);
        edgeList := edgeList + [(p1, p2)];
        i := i + 1;
      }
    }

    /** The x-coordinates of the vertices, in vertex order. */
    method XVertices() returns (xs: seq<real>)
      ensures |xs| == |points|
      ensures forall i :: 0 <= i < |points| ==> xs[i] == points[i].x
    {
      xs := [];
      var i := 0;
      while i < |points|
        invariant 0 <= i <= |points|
        invariant |xs| == i && forall j :: 0 <= j < i ==> xs[j] == points[j].x
      {
        xs := xs + [points[i].x];
        i := i + 1;
      }
    }

    /** The y-coordinates of the vertices, in vertex order. */
    method YVertices() returns (ys: seq<real>)
      ensures |ys| == |points|
      ensures forall i :: 0 <= i < |points| ==> ys[i] == points[i].y
    {
      ys := [];
      var i := 0;
      while i < |points|
        invariant 0 <= i <= |points|
        invariant |ys| == i && forall j :: 0 <= j < i ==> ys[j] == points[j].y
      {
        ys := ys + [points[i].y];
        i := i + 1;
      }
    }

    /** The closed-interval test against the MBR bounds; the point is only read. */
    function MbrContains(point: Point, minX: real, maxX: real, minY: real, maxY: real): (isInsideMbr: bool)
      reads point
      ensures isInsideMbr <==> Box(minX, maxX, minY, maxY).Contains(Coord(point.x, point.y))
      ensures isInsideMbr ==> minX <= maxX && minY <= maxY
    {
      (minX <= point.x <= maxX) && (minY <= point.y <= maxY)
    }

    /** Ray casting.  The caller's point is nudged upwards in place, the
        nudges accumulating over the edges; its x and the vertices are left
        alone. */
    method Contains(point: Point) returns (isInsidePolygon: bool)
      requires point !in points
      modifies point
      ensures point.x == old(point.x)
      ensures RayCast(Coords(points), point.x, old(point.y), Crosses) == ScanState(isInsidePolygon, point.y)
    {
      var edgeList := Edges();
      ghost var cs := Coords(points);
      ghost var x0, y0 := point.x, point.y;
      var n := |edgeList|;
      isInsidePolygon := false;
      var i := 0;
      while i < n
        invariant i <= n && Coords(points) == cs
        invariant ScannedUpTo(cs, i, x0, y0, point, isInsidePolygon)
      {
        var a, b := edgeList[i].0, edgeList[i].1;
        assert EdgeAt(cs, i) == (Coord(a.x, a.y), Coord(b.x, b.y));
        var crossed := VisitEdge(a, b, point);
        ScanStep(cs, i, x0, y0, Crosses, crossed, point.y);
        if crossed {
          isInsidePolygon := !isInsidePolygon;
        }
        i := i + 1;
      }
    }

    /** The body of the edge loop of `contains`: order the endpoints so that
        A is the lower one, nudge the point up if it is level with either,
        then decide whether the ray from the point crosses the edge. */
    method VisitEdge(a: Point, b: Point, point: Point) returns (crossed: bool)
      requires point != a && point != b
      modifies point
      ensures point.x == old(point.x)
      ensures Visit((Coord(a.x, a.y), Coord(b.x, b.y)), point.x, ScanState(false, old(point.y)), Crosses)
           == ScanState(crossed, point.y)
    {
      var a, b := a, b;
      if a.y > b.y {
        a, b := b, a;
      }
      if point.y == a.y || point.y == b.y {
        point.y := point.y + Eps;
      }
      crossed := false;
      if point.y > b.y || point.y < a.y || point.x >= Max2(a.x, b.x) {
      } else if point.x < Min2(a.x, b.x) {
        crossed := true;
      } else {
        var slopeEdge := Slope(b.y - a.y, b.x - a.x);
        var slopePoint := Slope(point.y - a.y, point.x - a.x);
        if slopePoint >= slopeEdge {
          crossed := true;
        }
      }
    }

    /** The rounded distance test, run over every edge without stopping at
        the first match. */
    method Boundary(point: Point, sqrt: real -> real, round12: real -> real) returns (onBoundary: bool)
      ensures onBoundary <==> OnBoundary(Coords(points), Coord(point.x, point.y), sqrt, round12)
    {
      var edgeList := Edges();
      ghost var cs := Coords(points);
      ghost var p := Coord(point.x, point.y);
      var n := |edgeList|;
      onBoundary := false;
      var i := 0;
      while i < n
        invariant 0 <= i <= n
        invariant onBoundary <==> exists k :: 0 <= k < i && OnEdgeAt(cs, k, p, sqrt, round12)
      {
        var a, b := edgeList[i].0, edgeList[i].1;
        assert EdgeAt(cs, i) == (Coord(a.x, a.y), Coord(b.x, b.y)) && p == Coord(point.x, point.y);
        var distanceAB := sqrt(SqDist(Coord(a.x, a.y), Coord(b.x, b.y)));
        var distanceAPoint := sqrt(SqDist(Coord(a.x, a.y), Coord(point.x, point.y)));
        var distanceBPoint := sqrt(SqDist(Coord(point.x, point.y), Coord(b.x, b.y)));
        var sumPointDist := distanceAPoint + distanceBPoint;
        distanceAB := round12(distanceAB);
        sumPointDist := round12(sumPointDist);
        assert (sumPointDist == distanceAB) == OnEdgeAt(cs, i, p, sqrt, round12);
        if sumPointDist == distanceAB {
          onBoundary := true;
        }
        i := i + 1;
      }
    }
  }

  /** The MBR bounds computed in `main`: min and max of the vertex
      coordinates; no vertices make Python's `min` raise, modelled as None. */
  method FindMbr(polygon: Polygon) returns (mbr: Option<Box>)
    ensures mbr == MbrOf(Coords(polygon.points))
  {
    var polygonXs := polygon.XVertices();
    var polygonYs := polygon.YVertices();
    ghost var cs := Coords(polygon.points);
    assert polygonXs == Xs(cs) && polygonYs == Ys(cs);
    if |polygonXs| == 0 {
      mbr := None;
    } else {
      mbr := Some(Box(MinOf(polygonXs), MaxOf(polygonXs), MinOf(polygonYs), MaxOf(polygonYs)));
    }
  }

  /** `check_point`: MBR test, then boundary test, then ray casting.  Only
      the last stage touches the point, so a point outside the MBR or on
      the boundary is left as it was. */
  method CheckPoint(thePolygon: Polygon, point: Point, mbr: Box, sqrt: real -> real, round12: real -> real)
    returns (checkResult: Category)
    requires point !in thePolygon.points
    modifies point
    ensures point.x == old(point.x)
    ensures checkResult == Classify(Coords(thePolygon.points), mbr, old(Coord(point.x, point.y)), sqrt, round12)
    ensures point.y == if mbr.Contains(old(Coord(point.x, point.y)))
                          && !OnBoundary(Coords(thePolygon.points), old(Coord(point.x, point.y)), sqrt, round12)
                       then RayCast(Coords(thePolygon.points), point.x, old(point.y), Crosses).y
                       else old(point.y)
  {
    checkResult := Outside;
    if !thePolygon.MbrContains(point, mbr.minX, mbr.maxX, mbr.minY, mbr.maxY) {
      checkResult := Outside;
    } else {
      var onBoundary := thePolygon.Boundary(point, sqrt, round12);
      if onBoundary {
        checkResult := Boundary;
      } else {
        var isInside := thePolygon.Contains(point);
        if isInside {
          checkResult := Inside;
        }
      }
    }
  }
}
