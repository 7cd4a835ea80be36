/** The horizontal-ray parity scan shared by both classifier variants.

    The scan walks the polygon's edges in order.  At each edge it puts the
    lower endpoint first, nudges the query point's y up by `Eps` when it is
    level with an endpoint (the nudged y is carried on to later edges), and
    toggles the parity flag when the variant's crossing rule says the ray
    from the point crosses the edge.  The two variants differ only in that
    crossing rule, which is a parameter here. */
module RayScan {
  import opened Geometry

  /** A per-edge crossing rule: lower endpoint, upper endpoint, and the
      (already nudged) query point's x and y. */
  type CrossingRule = (Coord, Coord, real, real) -> bool

  /** The loop state of the scan: the parity flag and the query point's y. */
  datatype ScanState = ScanState(inside: bool, y: real)

  /** The index after k in a cyclic list of length n, that is `(k + 1) % n`. */
  function Next(k: nat, n: nat): (j: nat)
    requires k < n
    ensures j < n
  {
    if k + 1 < n then k + 1 else 0
  }

  /** `Next` is the successor modulo n. */
  lemma NextIsModulo(k: nat, n: nat)
    requires k < n
    ensures (k + 1) % n == Next(k, n)
  {
    if k + 1 == n {
      assert (k + 1) % n == 0;
    }
  }

  /** Edge k joins vertex k to the next vertex; the last edge closes the
      loop back to the first vertex. */
  function EdgeAt(cs: seq<Coord>, k: nat): (Coord, Coord)
    requires k < |cs|
  {
    (cs[k], cs[Next(k, |cs|)])
  }

  /** The edge with its lower endpoint first; a level edge keeps its order. */
  function Lower(e: (Coord, Coord)): (r: (Coord, Coord))
    ensures r.0.y <= r.1.y
    ensures r == e || r == (e.1, e.0)
    ensures e.0.y <= e.1.y ==> r == e
  {
    if e.0.y > e.1.y then (e.1, e.0) else e
  }

  /** The query point's y after the level test against the edge A, B.  Once
      A is the lower endpoint, the nudged y is never level with A. */
  function Nudge(a: Coord, b: Coord, y: real): (y': real)
    ensures y' == y || y' == y + Eps
    ensures a.y <= b.y ==> y' != a.y
  {
    if y == a.y || y == b.y then y + Eps else y
  }

  /** One iteration of the edge loop. */
  function Visit(e: (Coord, Coord), x: real, st: ScanState, crosses: CrossingRule): ScanState
  {
    var (a, b) := Lower(e);
    var y := Nudge(a, b, st.y);
    ScanState(st.inside != crosses(a, b, x, y), y)
  }

  /** The loop state after the first k edges, starting outside at y0. */
  function Scan(cs: seq<Coord>, k: nat, x: real, y0: real, crosses: CrossingRule): ScanState
    requires k <= |cs|
    decreases k
  {
    if k == 0 then ScanState(false, y0)
    else Visit(EdgeAt(cs, k - 1), x, Scan(cs, k - 1, x, y0, crosses), crosses)
  }

  /** One more edge: the scan's flag toggles exactly when visiting the edge
      from a cleared flag reports a crossing, and y moves as that visit says. */
  lemma ScanStep(cs: seq<Coord>, k: nat, x: real, y0: real, crosses: CrossingRule, crossed: bool, y': real)
    requires k < |cs|
    requires Visit(EdgeAt(cs, k), x, ScanState(false, Scan(cs, k, x, y0, crosses).y), crosses) == ScanState(crossed, y')
    ensures Scan(cs, k + 1, x, y0, crosses) == ScanState(Scan(cs, k, x, y0, crosses).inside != crossed, y')
  {
  }

  /** The result of the whole scan: the flag and the final y of the point. */
  function RayCast(cs: seq<Coord>, x: real, y0: real, crosses: CrossingRule): ScanState
  {
    Scan(cs, |cs|, x, y0, crosses)
  }

  /** Whether edge k is level with the point when the scan reaches it. */
  predicate NudgedAt(cs: seq<Coord>, k: nat, x: real, y0: real, crosses: CrossingRule)
    requires k < |cs|
  {
    var (a, b) := Lower(EdgeAt(cs, k));
    var y := Scan(cs, k, x, y0, crosses).y;
    y == a.y || y == b.y
  }

  /** Whether the ray crosses edge k when the scan reaches it. */
  predicate CrossesAt(cs: seq<Coord>, k: nat, x: real, y0: real, crosses: CrossingRule)
    requires k < |cs|
  {
    var (a, b) := Lower(EdgeAt(cs, k));
    crosses(a, b, x, Nudge(a, b, Scan(cs, k, x, y0, crosses).y))
  }

  /** How many of the first k edges nudge the point. */
  function Nudges(cs: seq<Coord>, k: nat, x: real, y0: real, crosses: CrossingRule): nat
    requires k <= |cs|
  {
    if k == 0 then 0
    else Nudges(cs, k - 1, x, y0, crosses) + (if NudgedAt(cs, k - 1, x, y0, crosses) then 1 else 0)
  }

  /** How many of the first k edges the ray crosses. */
  function Crossings(cs: seq<Coord>, k: nat, x: real, y0: real, crosses: CrossingRule): nat
    requires k <= |cs|
  {
    if k == 0 then 0
    else Crossings(cs, k - 1, x, y0, crosses) + (if CrossesAt(cs, k - 1, x, y0, crosses) then 1 else 0)
  }

  /** The flag is the parity of the number of crossings: inside iff odd. */
  lemma {:induction false} ScanParity(cs: seq<Coord>, k: nat, x: real, y0: real, crosses: CrossingRule)
    requires k <= |cs|
    ensures Scan(cs, k, x, y0, crosses).inside <==> Crossings(cs, k, x, y0, crosses) % 2 == 1
  {
    if k > 0 {
      ScanParity(cs, k - 1, x, y0, crosses);
    }
  }

  /** The point's y only ever grows, by one `Eps` per nudging edge, and at
      most one nudge per edge. */
  lemma {:induction false} ScanRaisesY(cs: seq<Coord>, k: nat, x: real, y0: real, crosses: CrossingRule)
    requires k <= |cs|
    ensures Scan(cs, k, x, y0, crosses).y == y0 + (Nudges(cs, k, x, y0, crosses) as real) * Eps
    ensures Nudges(cs, k, x, y0, crosses) <= k
    ensures Scan(cs, k, x, y0, crosses).y >= y0
  {
    if k > 0 {
      ScanRaisesY(cs, k - 1, x, y0, crosses);
    }
  }

  /** When the point is level with no vertex and no edge is crossed at the
      point's own height, the scan leaves both the flag and y untouched. */
  lemma {:induction false} ScanUntouched(cs: seq<Coord>, k: nat, x: real, y0: real, crosses: CrossingRule)
    requires k <= |cs|
    requires forall i :: 0 <= i < |cs| ==> cs[i].y != y0
    requires forall i :: 0 <= i < |cs| ==> !crosses(Lower(EdgeAt(cs, i)).0, Lower(EdgeAt(cs, i)).1, x, y0)
    ensures Scan(cs, k, x, y0, crosses) == ScanState(false, y0)
  {
    if k > 0 {
      ScanUntouched(cs, k - 1, x, y0, crosses);
      var n := |cs|;
      assert cs[k - 1].y != y0 && cs[Next(k - 1, n)].y != y0;
    }
  }

  /** When no edge is crossed at any height, the flag stays false. */
  lemma {:induction false} ScanNeverInside(cs: seq<Coord>, k: nat, x: real, y0: real, crosses: CrossingRule)
    requires k <= |cs|
    requires forall i, y :: 0 <= i < |cs| ==> !crosses(Lower(EdgeAt(cs, i)).0, Lower(EdgeAt(cs, i)).1, x, y)
    ensures !Scan(cs, k, x, y0, crosses).inside
  {
    if k > 0 {
      ScanNeverInside(cs, k - 1, x, y0, crosses);
    }
  }

  /** Two crossing rules that agree on every edge at every height other than
      the lower endpoint's give the same scan: the nudge never leaves the
      point level with the lower endpoint. */
  lemma {:induction false} ScanAgreement(cs: seq<Coord>, k: nat, x: real, y0: real, c1: CrossingRule, c2: CrossingRule)
    requires k <= |cs|
    requires forall i, y :: 0 <= i < |cs| && y != Lower(EdgeAt(cs, i)).0.y ==>
               c1(Lower(EdgeAt(cs, i)).0, Lower(EdgeAt(cs, i)).1, x, y) == c2(Lower(EdgeAt(cs, i)).0, Lower(EdgeAt(cs, i)).1, x, y)
    ensures Scan(cs, k, x, y0, c1) == Scan(cs, k, x, y0, c2)
  {
    if k > 0 {
      ScanAgreement(cs, k - 1, x, y0, c1, c2);
    }
  }
}
