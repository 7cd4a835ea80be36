/** Plane geometry shared by both classifier variants: coordinates, the
    minimum bounding rectangle (MBR), slopes with the division-by-zero
    sentinel, squared distances and the orientation of a point with
    respect to an edge.  Coordinates are mathematical reals; the
    floating-point behaviour of the original program is not modelled. */
module Geometry {

  datatype Option<T> = None | Some(value: T)

  /** The coordinates of a point, as a value. */
  datatype Coord = Coord(x: real, y: real)

  /** `sys.float_info.max`, the largest finite double, 2^1024 - 2^971.  It
      stands in for an infinite slope when a run is zero. */
  const Huge: real := 179769313486231570814527423731704356798070567525844996598917476803157260780028538760589558632766878171540458953514382464234321326889464182768467546703537516986049910576551282076245490090389328944075868508455133942304583236903222948165808559332123348274797826204144723168738177180919299881250404026184124858368.0

  /** The upward nudge applied to a query point level with an edge endpoint. */
  const Eps: real := 0.00001

  function Min2(u: real, v: real): real { if u <= v then u else v }
  function Max2(u: real, v: real): real { if u >= v then u else v }

  /** rise / run, or `Huge` where Python would raise ZeroDivisionError. */
  function Slope(rise: real, run: real): real
  {
    if run == 0.0 then Huge else rise / run
  }

  /** The squared Euclidean distance `(p.x - q.x)**2 + (p.y - q.y)**2`. */
  function SqDist(p: Coord, q: Coord): real
  {
    (p.x - q.x) * (p.x - q.x) + (p.y - q.y) * (p.y - q.y)
  }

  /** Twice the signed area of the triangle A, B, P: positive when P lies to
      the left of the line directed from A to B, zero when P is on it. */
  function Orient(a: Coord, b: Coord, p: Coord): real
  {
    (b.x - a.x) * (p.y - a.y) - (b.y - a.y) * (p.x - a.x)
  }

  /** Comparing two quotients whose denominators have the same sign is
      comparing the cross products. */
  lemma QuotientCompare(p: real, q: real, r: real, s: real)
    requires q * s > 0.0
    ensures p / q >= r / s <==> p * s >= r * q
  {
    var u, v := p / q, r / s;
    assert u * q == p && v * s == r;
    assert p * s - r * q == (u - v) * (q * s);
    if u >= v {
      assert (u - v) * (q * s) >= 0.0;
    } else {
      assert (v - u) * (q * s) > 0.0;
    }
  }

  /** A point within the height of a rising edge and strictly left of both
      of its ends is strictly left of the line from A up to B. */
  lemma LeftOfBothEnds(a: Coord, b: Coord, p: Coord)
    requires a.y < p.y <= b.y && p.x < a.x && p.x < b.x
    ensures Orient(a, b, p) > 0.0
  {
    var h, w, dy, dx := b.y - a.y, b.x - a.x, p.y - a.y, p.x - a.x;
    assert Orient(a, b, p) == w * dy - h * dx;
    assert 0.0 < dy <= h && dx < 0.0;
    if w >= 0.0 {
      assert w * dy >= 0.0;
      assert -h * dx > 0.0;
    } else {
      assert (h - dy) * (-w) >= 0.0;
      assert w * dy - h * dx >= w * h - h * dx;
      assert w * h - h * dx == h * (b.x - p.x);
      assert h * (b.x - p.x) > 0.0;
    }
  }

  /** Where the point and B are on the same side of A in x,
      comparing the slopes from A is comparing the orientation. */
  lemma SlopeOrder(a: Coord, b: Coord, p: Coord)
    requires (a.x < b.x && a.x < p.x) || (b.x < a.x && p.x < a.x)
    ensures Slope(p.y - a.y, p.x - a.x) >= Slope(b.y - a.y, b.x - a.x) <==> Orient(a, b, p) >= 0.0
  {
    var h, w, dy, dx := b.y - a.y, b.x - a.x, p.y - a.y, p.x - a.x;
    if w > 0.0 {
      assert dx * w > 0.0;
    } else {
      assert (-dx) * (-w) > 0.0;
    }
    QuotientCompare(dy, dx, h, w);
    assert Orient(a, b, p) == dy * w - h * dx;
  }

  /** The smallest element, as Python's `min` on a non-empty list. */
  function MinOf(s: seq<real>): (m: real)
    requires |s| > 0
    ensures m in s
    ensures forall v :: v in s ==> m <= v
  {
    if |s| == 1 then s[0]
    else
      var rest := MinOf(s[1..]);
      assert forall v :: v in s ==> v == s[0] || v in s[1..];
      if s[0] <= rest then s[0] else rest
  }

  /** The largest element, as Python's `max` on a non-empty list. */
  function MaxOf(s: seq<real>): (m: real)
    requires |s| > 0
    ensures m in s
    ensures forall v :: v in s ==> v <= m
  {
    if |s| == 1 then s[0]
    else
      var rest := MaxOf(s[1..]);
      assert forall v :: v in s ==> v == s[0] || v in s[1..];
      if s[0] >= rest then s[0] else rest
  }

  /** The x-coordinates of the vertices, in vertex order. */
  function Xs(cs: seq<Coord>): (xs: seq<real>)
    ensures |xs| == |cs| && forall i :: 0 <= i < |cs| ==> xs[i] == cs[i].x
  {
    seq(|cs|, i requires 0 <= i < |cs| => cs[i].x)
  }

  /** The y-coordinates of the vertices, in vertex order. */
  function Ys(cs: seq<Coord>): (ys: seq<real>)
    ensures |ys| == |cs| && forall i :: 0 <= i < |cs| ==> ys[i] == cs[i].y
  {
    seq(|cs|, i requires 0 <= i < |cs| => cs[i].y)
  }

  /** An axis-aligned rectangle given by its bounds. */
  datatype Box = Box(minX: real, maxX: real, minY: real, maxY: real)
  {
    /** Closed on all four sides. */
    predicate Contains(p: Coord)
    {
      minX <= p.x <= maxX && minY <= p.y <= maxY
    }
  }

  /** The MBR of the vertices: the minimum and maximum of each coordinate.
      With no vertices Python's `min` raises ValueError, modelled as None. */
  function MbrOf(cs: seq<Coord>): (r: Option<Box>)
    ensures r.None? <==> cs == []
  {
    if cs == [] then None
    else Some(Box(MinOf(Xs(cs)), MaxOf(Xs(cs)), MinOf(Ys(cs)), MaxOf(Ys(cs))))
  }

  /** Every vertex lies in the MBR, and each bound is attained by a vertex,
      so the MBR is the smallest box holding the vertices. */
  lemma MbrIsTight(cs: seq<Coord>)
    requires cs != []
    ensures MbrOf(cs).Some?
    ensures forall i :: 0 <= i < |cs| ==> MbrOf(cs).value.Contains(cs[i])
    ensures exists i :: 0 <= i < |cs| && cs[i].x == MbrOf(cs).value.minX
    ensures exists i :: 0 <= i < |cs| && cs[i].x == MbrOf(cs).value.maxX
    ensures exists i :: 0 <= i < |cs| && cs[i].y == MbrOf(cs).value.minY
    ensures exists i :: 0 <= i < |cs| && cs[i].y == MbrOf(cs).value.maxY
  {
    var xs, ys := Xs(cs), Ys(cs);
    forall i | 0 <= i < |cs| ensures MbrOf(cs).value.Contains(cs[i]) {
      assert xs[i] in xs && ys[i] in ys;
    }
    var mx, Mx, my, My := MinOf(xs), MaxOf(xs), MinOf(ys), MaxOf(ys);
    var i0 :| 0 <= i0 < |xs| && xs[i0] == mx;
    var i1 :| 0 <= i1 < |xs| && xs[i1] == Mx;
    var i2 :| 0 <= i2 < |ys| && ys[i2] == my;
    var i3 :| 0 <= i3 < |ys| && ys[i3] == My;
  }
}
