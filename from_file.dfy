/** The batch variant of the classifier (main_from_file.py): polygon
    vertices and query points come with names, the ray cast skips an edge
    only when the point is strictly right of it and skips a falling edge
    whose lower end lies straight below the point, the boundary test
    compares unrounded distances, and a three-stage pipeline fills a
    dictionary of labels keyed by point name.

    `sqrt` stands for Python's `** (1 / 2)` and is left uninterpreted. */
module FromFile {
  import opened Geometry
  import opened RayScan

  class Point {
    const name: string
    var x: real
    var y: real

    constructor (name: string, x: real, y: real)
      ensures this.name == name && this.x == x && this.y == y
    {
      this.name := name;
      this.x := x;
      this.y := y;
    }
  }

  /** The current coordinates of a list of points. */
  function Coords(ps: seq<Point>): (cs: seq<Coord>)
    reads ps
    ensures |cs| == |ps|
    ensures forall i :: 0 <= i < |ps| ==> cs[i] == Coord(ps[i].x, ps[i].y)
  {
    seq(|ps|, i requires 0 <= i < |ps| reads ps => Coord(ps[i].x, ps[i].y))
  }

  /** The ray-casting rule for one edge, A the lower endpoint: skip the edge
      when y is outside [A.y, B.y] or x is strictly right of both endpoints,
      cross when x is left of both, skip a falling edge whose lower end A is
      straight below the point, otherwise compare slopes with `Huge`
      standing in for a zero run. */
  function Crosses(a: Coord, b: Coord, x: real, y: real): bool
  {
    if y > b.y || y < a.y || x > Max2(a.x, b.x) then false
    else if x < Min2(a.x, b.x) then true
    else
      var mEdge := Slope(b.y - a.y, b.x - a.x);
      var mPoint := Slope(y - a.y, x - a.x);
      if mEdge < 0.0 && a.x == x then false
      else mPoint >= mEdge
  }

  /** The crossing rule stated with the orientation of the point against
      the upward edge; unlike the interactive variant, a point level in x
      with the edge's right end is still counted. */
  function CrossesByOrientation(a: Coord, b: Coord, x: real, y: real): bool
  {
    a.y < y <= b.y && x <= Max2(a.x, b.x) && Orient(a, b, Coord(x, y)) >= 0.0
  }

  /** With A the lower endpoint, the point not level with A and the edge's
      slope at most `Huge`, the slope rule is the orientation rule.  The
      falling-edge skip is exactly the case where the point is straight
      above A and the orientation is negative. */
  lemma CrossesIsOrientation(a: Coord, b: Coord, x: real, y: real)
    requires a.y <= b.y && y != a.y
    requires Slope(b.y - a.y, b.x - a.x) <= Huge
    ensures Crosses(a, b, x, y) == CrossesByOrientation(a, b, x, y)
  {
    var p := Coord(x, y);
    if y > b.y || y < a.y || x > Max2(a.x, b.x) {
    } else if x < Min2(a.x, b.x) {
      LeftOfBothEnds(a, b, p);
    } else if x == a.x {
      // the point is straight above A: the sign of the orientation is the
      // sign of the edge's run, and a falling edge is the skipped one
      var w, dy := b.x - a.x, y - a.y;
      assert dy > 0.0 && Orient(a, b, p) == w * dy;
      if w > 0.0 {
        assert w * dy > 0.0;
      } else if w < 0.0 {
        assert (b.y - a.y) / w < 0.0;
        assert w * dy < 0.0;
      }
    } else {
      // the point lies strictly between the ends in x, on the side of A where B is
      assert (a.x < b.x && a.x < x) || (b.x < a.x && x < a.x);
      SlopeOrder(a, b, p);
    }
  }

  /** A vertical edge is crossed exactly when the point is on or left of it
      within its (closed) height range. */
  lemma VerticalEdgeCrossing(a: Coord, b: Coord, x: real, y: real)
    requires a.y <= b.y && a.x == b.x
    ensures Crosses(a, b, x, y) <==> a.y <= y <= b.y && x <= a.x
  {
  }

  /** Whether every edge's slope is at most `Huge`. */
  predicate SlopesBounded(cs: seq<Coord>)
  {
    forall k :: 0 <= k < |cs| ==>
      Slope(Lower(EdgeAt(cs, k)).1.y - Lower(EdgeAt(cs, k)).0.y, Lower(EdgeAt(cs, k)).1.x - Lower(EdgeAt(cs, k)).0.x) <= Huge
  }

  /** Over a whole polygon, the ray cast with slopes equals the ray cast
      with the orientation rule, flag and final y alike. */
  lemma RayCastIsOrientation(cs: seq<Coord>, x: real, y0: real)
    requires SlopesBounded(cs)
    ensures RayCast(cs, x, y0, Crosses) == RayCast(cs, x, y0, CrossesByOrientation)
  {
    forall i, y | 0 <= i < |cs| && y != Lower(EdgeAt(cs, i)).0.y
      ensures Crosses(Lower(EdgeAt(cs, i)).0, Lower(EdgeAt(cs, i)).1, x, y)
           == CrossesByOrientation(Lower(EdgeAt(cs, i)).0, Lower(EdgeAt(cs, i)).1, x, y)
    {
      CrossesIsOrientation(Lower(EdgeAt(cs, i)).0, Lower(EdgeAt(cs, i)).1, x, y);
    }
    ScanAgreement(cs, |cs|, x, y0, Crosses, CrossesByOrientation);
  }

  /** A point strictly below or strictly above every vertex is never
      nudged, every edge is skipped, and the result is false. */
  lemma RayCastBesideVerticalExtent(cs: seq<Coord>, x: real, y0: real)
    requires (forall i :: 0 <= i < |cs| ==> y0 < cs[i].y) || (forall i :: 0 <= i < |cs| ==> y0 > cs[i].y)
    ensures RayCast(cs, x, y0, Crosses) == ScanState(false, y0)
  {
    forall i | 0 <= i < |cs|
      ensures !Crosses(Lower(EdgeAt(cs, i)).0, Lower(EdgeAt(cs, i)).1, x, y0)
    {
      var n := |cs|;
      assert cs[i] in cs && cs[Next(i, n)] in cs;
    }
    ScanUntouched(cs, |cs|, x, y0, Crosses);
  }

  /** A point strictly right of every vertex is reported outside.  It may
      still be nudged: the level test comes before the skip. */
  lemma RayCastRightOfAll(cs: seq<Coord>, x: real, y0: real)
    requires forall i :: 0 <= i < |cs| ==> cs[i].x < x
    ensures !RayCast(cs, x, y0, Crosses).inside
  {
    forall i, y | 0 <= i < |cs|
      ensures !Crosses(Lower(EdgeAt(cs, i)).0, Lower(EdgeAt(cs, i)).1, x, y)
    {
      var n := |cs|;
      assert cs[i] in cs && cs[Next(i, n)] in cs;
    }
    ScanNeverInside(cs, |cs|, x, y0, Crosses);
  }

  /** On the unit square, the centre is inside, and so is the midpoint of
      the right edge: that edge's right end is level in x with the point, so
      it is examined, and its infinite slope meets the point's infinite
      slope. */
  lemma UnitSquareRays()
    ensures RayCast([Coord(0.0, 0.0), Coord(0.0, 1.0), Coord(1.0, 1.0), Coord(1.0, 0.0)], 0.5, 0.5, Crosses) == ScanState(true, 0.5)
    ensures RayCast([Coord(0.0, 0.0), Coord(0.0, 1.0), Coord(1.0, 1.0), Coord(1.0, 0.0)], 1.0, 0.5, Crosses) == ScanState(true, 0.5)
  {
    var sq := [Coord(0.0, 0.0), Coord(0.0, 1.0), Coord(1.0, 1.0), Coord(1.0, 0.0)];
    assert Scan(sq, 1, 0.5, 0.5, Crosses) == ScanState(false, 0.5);
    assert Scan(sq, 2, 0.5, 0.5, Crosses) == ScanState(false, 0.5);
    assert Scan(sq, 3, 0.5, 0.5, Crosses) == ScanState(true, 0.5);
    assert Scan(sq, 4, 0.5, 0.5, Crosses) == ScanState(true, 0.5);
    assert Scan(sq, 1, 1.0, 0.5, Crosses) == ScanState(false, 0.5);
    assert Scan(sq, 2, 1.0, 0.5, Crosses) == ScanState(false, 0.5);
    assert Scan(sq, 3, 1.0, 0.5, Crosses) == ScanState(true, 0.5);
    assert Scan(sq, 4, 1.0, 0.5, Crosses) == ScanState(true, 0.5);
  }

  /** The unrounded distance test for one edge: |AP| + |PB| equals |AB|. */
  predicate OnSegment(a: Coord, b: Coord, p: Coord, sqrt: real -> real)
  {
    sqrt(SqDist(a, p)) + sqrt(SqDist(p, b)) == sqrt(SqDist(a, b))
  }

  /** The test does not depend on which end is called A: distances are
      symmetric, so swapping the endpoints to put the lower one first
      changes nothing. */
  lemma OnSegmentSymmetric(a: Coord, b: Coord, p: Coord, sqrt: real -> real)
    ensures OnSegment(a, b, p, sqrt) == OnSegment(b, a, p, sqrt)
  {
    assert SqDist(a, p) == SqDist(p, a);
    assert SqDist(p, b) == SqDist(b, p);
    assert SqDist(a, b) == SqDist(b, a);
  }

  /** The distance test for edge k of the polygon, endpoints in list order. */
  predicate OnEdgeAt(cs: seq<Coord>, k: nat, p: Coord, sqrt: real -> real)
    requires k < |cs|
  {
    OnSegment(EdgeAt(cs, k).0, EdgeAt(cs, k).1, p, sqrt)
  }

  /** The point passes the distance test for some edge of the polygon. */
  predicate OnBoundary(cs: seq<Coord>, p: Coord, sqrt: real -> real)
  {
    exists k :: 0 <= k < |cs| && OnEdgeAt(cs, k, p, sqrt)
  }

  /** Every vertex is on the boundary: with P = A the test reads
      0 + |AB| == |AB|. */
  lemma VertexOnBoundary(cs: seq<Coord>, k: nat, sqrt: real -> real)
    requires k < |cs| && sqrt(0.0) == 0.0
    ensures OnBoundary(cs, cs[k], sqrt)
  {
    var (a, b) := EdgeAt(cs, k);
    assert SqDist(a, a) == 0.0;
    assert SqDist(a, b) == SqDist(cs[k], b);
    assert OnEdgeAt(cs, k, cs[k], sqrt);
  }

  /** The label stored for a point in the dictionary. */
  datatype Label = Unclassified | Outside | Boundary | Inside

  /** The label the three stages give a point with coordinates p: outside
      the MBR it is outside, then boundary, then the ray cast decides. */
  function Classify(cs: seq<Coord>, mbr: Box, p: Coord, sqrt: real -> real): Label
  {
    if !mbr.Contains(p) then Outside
    else if OnBoundary(cs, p, sqrt) then Boundary
    else if RayCast(cs, p.x, p.y, Crosses).inside then Inside
    else Outside
  }

  /** Every vertex of the polygon is labelled boundary against the
      polygon's own MBR. */
  lemma ClassifyVertex(cs: seq<Coord>, k: nat, sqrt: real -> real)
    requires k < |cs| && sqrt(0.0) == 0.0
    ensures MbrOf(cs).Some?
    ensures Classify(cs, MbrOf(cs).value, cs[k], sqrt) == Boundary
  {
    MbrIsTight(cs);
    VertexOnBoundary(cs, k, sqrt);
  }

  /** The loop state of `contains` after i edges: x untouched, and the flag
      and the point's y are those of the scan over the first i edges. */
  ghost predicate ScannedUpTo(cs: seq<Coord>, i: nat, x0: real, y0: real, point: Point, inside: bool)
    reads point
  {
    i <= |cs| && point.x == x0 && Scan(cs, i, x0, y0, Crosses) == ScanState(inside, point.y)
  }

  class Polygon {
    /** The vertices, in clockwise order. */
    const points: seq<Point>

    constructor (points: seq<Point>)
      ensures this.points == points
    {
      this.points := points;
    }

    /** One pair per vertex: the vertex and the next one, the last pair
        wrapping back to the first vertex. */
    method Edges() returns (edgeList: seq<(Point, Point)>)
      ensures |edgeList| == |points|
      ensures forall i :: 0 <= i < |points| ==> edgeList[i] == (points[i], points[Next(i, |points|)])
    {
      edgeList := [];
      var i := 0;
      while i < |points|
        invariant 0 <= i <= |points|
        invariant |edgeList| == i
        invariant forall j :: 0 <= j < i ==> edgeList[j] == (points[j], points[Next(j, |points|)])
      {
        var p1 := points[i];
        var p2 := points[(i + 1) % |points|];
        NextIsModulo(i, |points|);
        edgeList := edgeList + [(p1, p2)];
        i := i + 1;
      }
    }

    /** The x-coordinates of the vertices, in vertex order. */
    method VertexXs() returns (xs: seq<real>)
      ensures |xs| == |points|
      ensures forall i :: 0 <= i < |points| ==> xs[i] == points[i].x
    {
      xs := [];
      var i := 0;
      while i < |points|
        invariant 0 <= i <= |points|
        invariant |xs| == i && forall j :: 0 <= j < i ==> xs[j] == points[j].x
      {
        xs := xs + [points[i].x];
        i := i + 1;
      }
    }

    /** The y-coordinates of the vertices, in vertex order. */
    method VertexYs() returns (ys: seq<real>)
      ensures |ys| == |points|
      ensures forall i :: 0 <= i < |points| ==> ys[i] == points[i].y
    {
      ys := [];
      var i := 0;
      while i < |points|
        invariant 0 <= i <= |points|
        invariant |ys| == i && forall j :: 0 <= j < i ==> ys[j] == points[j].y
      {
        ys := ys + [points[i].y];
        i := i + 1;
      }
    }

    /** The closed-interval test against the MBR bounds computed at module
        level; the point is only read. */
    function MbrCheckIfInside(point: Point, mbr: Box): (isInsideMbr: bool)
      reads point
      ensures isInsideMbr <==> mbr.Contains(Coord(point.x, point.y))
      ensures isInsideMbr ==> mbr.minX <= mbr.maxX && mbr.minY <= mbr.maxY
    {
      (mbr.minX <= point.x <= mbr.maxX) && (mbr.minY <= point.y <= mbr.maxY)
    }

    /** Ray casting.  The caller's point is nudged upwards in place, the
        nudges accumulating over the edges; its x and the vertices are left
        alone. */
    method Contains(point: Point) returns (insidePolygon: bool)
      requires point !in points
      modifies point
      ensures point.x == old(point.x)
      ensures RayCast(Coords(points), point.x, old(point.y), Crosses) == ScanState(insidePolygon, point.y)
    {
      var edgeList := Edges();
      ghost var cs := Coords(points);
      ghost var x0, y0 := point.x, point.y;
      var n := |edgeList|;
      insidePolygon := false;
      var i := 0;
      while i < n
        invariant i <= n && Coords(points) == cs
        invariant ScannedUpTo(cs, i, x0, y0, point, insidePolygon)
      {
        var a, b := edgeList[i].0, edgeList[i].1;
        assert EdgeAt(cs, i) == (Coord(a.x, a.y), Coord(b.x, b.y));
        var crossed := VisitEdge(a, b, point);
        ScanStep(cs, i, x0, y0, Crosses, crossed, point.y);
        if crossed {
          insidePolygon := !insidePolygon;
        }
        i := i + 1;
      }
    }

    /** The body of the edge loop of `contains`: order the endpoints so that
        A is the lower one, nudge the point up if it is level with either,
        then decide whether the ray from the point crosses the edge. */
    method VisitEdge(a: Point, b: Point, point: Point) returns (crossed: bool)
      requires point != a && point != b
      modifies point
      ensures point.x == old(point.x)
      ensures Visit((Coord(a.x, a.y), Coord(b.x, b.y)), point.x, ScanState(false, old(point.y)), Crosses)
           == ScanState(crossed, point.y)
    {
      var a, b := a, b;
      if a.y > b.y {
        a, b := b, a;
      }
      if point.y == a.y || point.y == b.y {
        point.y := point.y + Eps;
      }
      crossed := false;
      if point.y > b.y || point.y < a.y || point.x > Max2(a.x, b.x) {
      } else if point.x < Min2(a.x, b.x) {
        crossed := true;
      } else {
        var mEdge := Slope(b.y - a.y, b.x - a.x);
        var mPoint := Slope(point.y - a.y, point.x - a.x);
        if mEdge < 0.0 && a.x == point.x {
        } else if mPoint >= mEdge {
          crossed := true;
        }
      }
    }

    /** The unrounded distance test, run over every edge without stopping
        at the first match. */
    method Boundary(point: Point, sqrt: real -> real) returns (onBoundary: bool)
      ensures onBoundary <==> OnBoundary(Coords(points), Coord(point.x, point.y), sqrt)
    {
      var edgeList := Edges();
      ghost var cs := Coords(points);
      ghost var p := Coord(point.x, point.y);
      var n := |edgeList|;
      onBoundary := false;
      var i := 0;
      while i < n
        invariant 0 <= i <= n
        invariant onBoundary <==> exists k :: 0 <= k < i && OnEdgeAt(cs, k, p, sqrt)
      {
        assert EdgeAt(cs, i) == (Coord(edgeList[i].0.x, edgeList[i].0.y), Coord(edgeList[i].1.x, edgeList[i].1.y));
        var hit := EdgeTest(edgeList[i].0, edgeList[i].1, point, sqrt);
        assert hit == OnEdgeAt(cs, i, p, sqrt);
        if hit {
          onBoundary := true;
        }
        i := i + 1;
      }
    }

    /** The body of the edge loop of `boundary`: put the lower endpoint
        first, then compare |AP| + |PB| with |AB|. */
    method EdgeTest(a: Point, b: Point, point: Point, sqrt: real -> real) returns (hit: bool)
      ensures hit == OnSegment(Coord(a.x, a.y), Coord(b.x, b.y), Coord(point.x, point.y), sqrt)
    {
      var a, b := a, b;
      if a.y > b.y {
        a, b := b, a;
        OnSegmentSymmetric(Coord(b.x, b.y), Coord(a.x, a.y), Coord(point.x, point.y), sqrt);
      }
      var distanceAB := sqrt(SqDist(Coord(a.x, a.y), Coord(b.x, b.y)));
      var distanceAPoint := sqrt(SqDist(Coord(a.x, a.y), Coord(point.x, point.y)));
      var distanceBPoint := sqrt(SqDist(Coord(point.x, point.y), Coord(b.x, b.y)));
      hit := distanceAPoint + distanceBPoint == distanceAB;
    }
  }

  /** The MBR bounds computed at module level: min and max of the vertex
      coordinates; no vertices make Python's `min` raise, modelled as None. */
  method FindMbr(polygon: Polygon) returns (mbr: Option<Box>)
    ensures mbr == MbrOf(Coords(polygon.points))
  {
    var xs := polygon.VertexXs();
    var ys := polygon.VertexYs();
    ghost var cs := Coords(polygon.points);
    assert xs == Xs(cs) && ys == Ys(cs);
    if |xs| == 0 {
      mbr := None;
    } else {
      mbr := Some(Box(MinOf(xs), MaxOf(xs), MinOf(ys), MaxOf(ys)));
    }
  }
}
