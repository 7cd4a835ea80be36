/** The module-level classification of main_from_file.py.  A dictionary
    keyed by point name holds each input point's coordinates and category;
    three stages then run one after the other: the MBR filter labels the
    points outside the MBR, the boundary test labels the points on the
    boundary, and the ray cast labels the rest inside or outside.  Each
    stage passes the points it does not label, in order, to the next. */
module FilePipeline {
  import opened Geometry
  import opened RayScan
  import opened Sequences
  import opened FromFile

  /** A dictionary value: the coordinates as read and the category. */
  datatype Entry = Entry(x: real, y: real, category: Label)

  /** The names of a list of points. */
  function Names(ps: seq<Point>): set<string>
  {
    set i | 0 <= i < |ps| :: ps[i].name
  }

  /** No two points of the list share a name. */
  predicate DistinctNames(ps: seq<Point>)
  {
    forall i, j :: 0 <= i < j < |ps| ==> ps[i].name != ps[j].name
  }

  /** Every point's name is a key of the dictionary. */
  predicate NamesIn(ps: seq<Point>, d: map<string, Entry>)
  {
    forall j :: 0 <= j < |ps| ==> ps[j].name in d
  }

  /** Point j is the last of the first n points with its name. */
  predicate LastWithName(ps: seq<Point>, j: nat, n: nat)
    requires j < n <= |ps|
  {
    forall i :: j < i < n ==> ps[i].name != ps[j].name
  }

  /** The dictionary after the first n points of a stage have written, in
      order: a point whose write is `Some(l)` sets the category of its name
      to l, and `None` leaves the dictionary alone. */
  function Relabel(d: map<string, Entry>, ps: seq<Point>, writes: seq<Option<Label>>, n: nat): (r: map<string, Entry>)
    requires |writes| == |ps| && n <= |ps| && NamesIn(ps, d)
    ensures r.Keys == d.Keys
  {
    if n == 0 then d
    else
      var r := Relabel(d, ps, writes, n - 1);
      if writes[n - 1].Some? then r[ps[n - 1].name := r[ps[n - 1].name].(category := writes[n - 1].value)]
      else r
  }

  /** One more write: a `Some` write at n relabels the name of point n. */
  lemma RelabelStep(d: map<string, Entry>, ps: seq<Point>, writes: seq<Option<Label>>, n: nat)
    requires |writes| == |ps| && n < |ps| && NamesIn(ps, d) && writes[n].Some?
    ensures ps[n].name in Relabel(d, ps, writes, n)
    ensures Relabel(d, ps, writes, n + 1)
         == Relabel(d, ps, writes, n)[ps[n].name := Relabel(d, ps, writes, n)[ps[n].name].(category := writes[n].value)]
  {
  }

  /** The writes leave every entry's coordinates as they were. */
  lemma {:induction false} RelabelKeepsCoordinates(d: map<string, Entry>, ps: seq<Point>, writes: seq<Option<Label>>, n: nat, k: string)
    requires |writes| == |ps| && n <= |ps| && NamesIn(ps, d) && k in d
    ensures Relabel(d, ps, writes, n)[k].x == d[k].x && Relabel(d, ps, writes, n)[k].y == d[k].y
  {
    if n > 0 {
      RelabelKeepsCoordinates(d, ps, writes, n - 1, k);
    }
  }

  /** A name no point writes keeps its entry. */
  lemma {:induction false} RelabelUnwritten(d: map<string, Entry>, ps: seq<Point>, writes: seq<Option<Label>>, n: nat, k: string)
    requires |writes| == |ps| && n <= |ps| && NamesIn(ps, d) && k in d
    requires forall j :: 0 <= j < n && writes[j].Some? ==> ps[j].name != k
    ensures Relabel(d, ps, writes, n)[k] == d[k]
  {
    if n > 0 {
      RelabelUnwritten(d, ps, writes, n - 1, k);
    }
  }

  /** The last point to write a name decides its category. */
  lemma {:induction false} RelabelLastWrite(d: map<string, Entry>, ps: seq<Point>, writes: seq<Option<Label>>, n: nat, j: nat)
    requires |writes| == |ps| && n <= |ps| && NamesIn(ps, d)
    requires j < n && writes[j].Some?
    requires forall i :: j < i < n && writes[i].Some? ==> ps[i].name != ps[j].name
    ensures Relabel(d, ps, writes, n)[ps[j].name].category == writes[j].value
  {
    if n - 1 > j {
      RelabelLastWrite(d, ps, writes, n - 1, j);
    }
  }

  /** When no write is `Some(Unclassified)`, a written name ends up
      classified and a classified entry stays classified. */
  lemma {:induction false} RelabelSettles(d: map<string, Entry>, ps: seq<Point>, writes: seq<Option<Label>>, n: nat, k: string)
    requires |writes| == |ps| && n <= |ps| && NamesIn(ps, d) && k in d
    requires forall i :: 0 <= i < n ==> writes[i] != Some(Unclassified)
    requires d[k].category != Unclassified || exists j :: 0 <= j < n && writes[j].Some? && ps[j].name == k
    ensures Relabel(d, ps, writes, n)[k].category != Unclassified
  {
    if n > 0 {
      if writes[n - 1].Some? && ps[n - 1].name == k {
      } else {
        RelabelSettles(d, ps, writes, n - 1, k);
      }
    }
  }

  /** One stage's verdict on a point with the given coordinates: the label
      it writes into the dictionary, or None to pass the point on. */
  type Stage = Coord -> Option<Label>

  /** The first stage: outside for a point outside the MBR. */
  function MbrStage(mbr: Box): Stage
  {
    c => if mbr.Contains(c) then None else Some(Outside)
  }

  /** The second stage: boundary for a point that passes the distance test
      against some edge. */
  function BoundaryStage(polygonCs: seq<Coord>, sqrt: real -> real): Stage
  {
    c => if OnBoundary(polygonCs, c, sqrt) then Some(Boundary) else None
  }

  /** The third stage: inside or outside as the ray cast from the point
      decides; it passes nothing on. */
  function RayCastStage(polygonCs: seq<Coord>): Stage
  {
    (c: Coord) => Some(if RayCast(polygonCs, c.x, c.y, Crosses).inside then Inside else Outside)
  }

  /** What a stage writes for each point of a list, in list order. */
  function Writes(cs: seq<Coord>, stage: Stage): seq<Option<Label>>
  {
    seq(|cs|, i requires 0 <= i < |cs| => stage(cs[i]))
  }

  /** Which points of a list a stage passes on, in list order. */
  function Passes(cs: seq<Coord>, stage: Stage): seq<bool>
  {
    seq(|cs|, i requires 0 <= i < |cs| => stage(cs[i]).None?)
  }

  /** A stage passes a point of a list of distinct points on to the next
      stage exactly when it writes no label for that point. */
  lemma PassedIffUnwritten(ps: seq<Point>, stage: Stage, i: nat)
    requires Distinct(ps) && i < |ps|
    ensures ps[i] in Select(ps, Passes(Coords(ps), stage)) <==> Writes(Coords(ps), stage)[i] == None
  {
    var keep := Passes(Coords(ps), stage);
    var passed := Select(ps, keep);
    SelectKeeps(ps, keep, |ps|);
    if ps[i] in passed {
      SelectDrawsFrom(ps, keep, |ps|);
      var k :| 0 <= k < |passed| && passed[k] == ps[i];
      assert FlaggedIn(passed[k], ps, keep, |ps|);
      var j :| 0 <= j < |ps| && keep[j] && ps[j] == ps[i];
      assert j == i;
    }
  }

  /** The label of a point at c after the three stages: the first label
      written wins, since a stage only sees the points passed on to it. */
  function FirstLabel(s1: Stage, s2: Stage, s3: Stage, c: Coord): Label
  {
    if s1(c).Some? then s1(c).value
    else if s2(c).Some? then s2(c).value
    else if s3(c).Some? then s3(c).value
    else Unclassified
  }

  /** The three stages of this program, one after the other, classify as
      `Classify` does; none of them writes `Unclassified`, and the last
      writes every point it gets. */
  lemma StagesClassify(polygonCs: seq<Coord>, mbr: Box, sqrt: real -> real)
    ensures forall c :: FirstLabel(MbrStage(mbr), BoundaryStage(polygonCs, sqrt), RayCastStage(polygonCs), c) == Classify(polygonCs, mbr, c, sqrt)
    ensures Settles(MbrStage(mbr)) && Settles(BoundaryStage(polygonCs, sqrt)) && Settles(RayCastStage(polygonCs))
    ensures forall c :: RayCastStage(polygonCs)(c).Some?
  {
  }

  /** One more point adds its name to the names of a prefix. */
  lemma NamesGrow(ps: seq<Point>, i: nat)
    requires i < |ps|
    ensures Names(ps[..i + 1]) == Names(ps[..i]) + {ps[i].name}
  {
    assert ps[..i + 1][i] == ps[i];
    assert forall j :: 0 <= j < i ==> ps[..i + 1][j] == ps[..i][j];
  }

  /** One entry per point name, with the point's coordinates and the
      category unclassified; a later point with the same name overwrites
      an earlier one. */
  method BuildDictionary(inputPoints: seq<Point>) returns (pointsDictionary: map<string, Entry>)
    ensures pointsDictionary.Keys == Names(inputPoints)
    ensures forall k :: k in pointsDictionary ==> pointsDictionary[k].category == Unclassified
    ensures forall j :: 0 <= j < |inputPoints| && LastWithName(inputPoints, j, |inputPoints|) ==>
              pointsDictionary[inputPoints[j].name] == Entry(inputPoints[j].x, inputPoints[j].y, Unclassified)
  {
    pointsDictionary := map[];
    var i := 0;
    while i < |inputPoints|
      invariant 0 <= i <= |inputPoints|
      invariant pointsDictionary.Keys == Names(inputPoints[..i])
      invariant forall k :: k in pointsDictionary ==> pointsDictionary[k].category == Unclassified
      invariant forall j :: 0 <= j < i && LastWithName(inputPoints, j, i) ==>
                  pointsDictionary[inputPoints[j].name] == Entry(inputPoints[j].x, inputPoints[j].y, Unclassified)
    {
      var point := inputPoints[i];
      NamesGrow(inputPoints, i);
      pointsDictionary := pointsDictionary[point.name := Entry(point.x, point.y, Unclassified)];
      i := i + 1;
    }
    assert inputPoints[..i] == inputPoints;
  }

  /** The first stage: a point outside the MBR has its category set to
      outside; the others are kept, in order, for the next stage. */
  method SplitByMbr(polygon: Polygon, inputPoints: seq<Point>, mbr: Box, pointsDictionary: map<string, Entry>)
    returns (insideMbr: seq<Point>, labelled: map<string, Entry>)
    requires NamesIn(inputPoints, pointsDictionary)
    ensures insideMbr == Select(inputPoints, Passes(Coords(inputPoints), MbrStage(mbr)))
    ensures labelled == Relabel(pointsDictionary, inputPoints, Writes(Coords(inputPoints), MbrStage(mbr)), |inputPoints|)
  {
    ghost var keep, writes := Passes(Coords(inputPoints), MbrStage(mbr)), Writes(Coords(inputPoints), MbrStage(mbr));
    insideMbr := [];
    labelled := pointsDictionary;
    var i := 0;
    while i < |inputPoints|
      invariant 0 <= i <= |inputPoints|
      invariant insideMbr == SelectFirst(inputPoints, keep, i)
      invariant labelled == Relabel(pointsDictionary, inputPoints, writes, i)
    {
      var point := inputPoints[i];
      if polygon.MbrCheckIfInside(point, mbr) {
        insideMbr := insideMbr + [point];
      } else {
        labelled := labelled[point.name := labelled[point.name].(category := Outside)];
      }
      i := i + 1;
    }
  }

  /** The second stage: a point on the boundary has its category set to
      boundary; the others are kept, in order, for the ray cast. */
  method SplitByBoundary(polygon: Polygon, insideMbr: seq<Point>, pointsDictionary: map<string, Entry>, sqrt: real -> real)
    returns (toBeClassified: seq<Point>, labelled: map<string, Entry>)
    requires NamesIn(insideMbr, pointsDictionary)
    ensures toBeClassified == Select(insideMbr, Passes(Coords(insideMbr), BoundaryStage(Coords(polygon.points), sqrt)))
    ensures labelled == Relabel(pointsDictionary, insideMbr, Writes(Coords(insideMbr), BoundaryStage(Coords(polygon.points), sqrt)), |insideMbr|)
  {
    toBeClassified := [];
    labelled := pointsDictionary;
    var i := 0;
    while i < |insideMbr|
      invariant 0 <= i <= |insideMbr|
      invariant toBeClassified == SelectFirst(insideMbr, Passes(Coords(insideMbr), BoundaryStage(Coords(polygon.points), sqrt)), i)
      invariant labelled == Relabel(pointsDictionary, insideMbr, Writes(Coords(insideMbr), BoundaryStage(Coords(polygon.points), sqrt)), i)
    {
      toBeClassified, labelled := BoundaryStep(polygon, insideMbr, i, sqrt, pointsDictionary, toBeClassified, labelled);
      i := i + 1;
    }
  }

  /** One point of the second stage: label it boundary, or keep it. */
  method BoundaryStep(polygon: Polygon, insideMbr: seq<Point>, i: nat, sqrt: real -> real, ghost d: map<string, Entry>,
                      toBeClassified: seq<Point>, labelled: map<string, Entry>)
    returns (toBeClassified': seq<Point>, labelled': map<string, Entry>)
    requires i < |insideMbr| && NamesIn(insideMbr, d)
    requires toBeClassified == SelectFirst(insideMbr, Passes(Coords(insideMbr), BoundaryStage(Coords(polygon.points), sqrt)), i)
    requires labelled == Relabel(d, insideMbr, Writes(Coords(insideMbr), BoundaryStage(Coords(polygon.points), sqrt)), i)
    ensures toBeClassified' == SelectFirst(insideMbr, Passes(Coords(insideMbr), BoundaryStage(Coords(polygon.points), sqrt)), i + 1)
    ensures labelled' == Relabel(d, insideMbr, Writes(Coords(insideMbr), BoundaryStage(Coords(polygon.points), sqrt)), i + 1)
  {
    var point := insideMbr[i];
    var onBoundary := polygon.Boundary(point, sqrt);
    toBeClassified', labelled' := toBeClassified, labelled;
    if onBoundary {
      labelled' := labelled[point.name := labelled[point.name].(category := Boundary)];
    } else {
      toBeClassified' := toBeClassified + [point];
    }
  }

  /** The third stage: the ray cast sets each remaining point's category to
      inside or outside.  Each point is nudged by its own ray cast only, and
      any point not in the list (among `others`) keeps its coordinates. */
  method ClassifyRemaining(polygon: Polygon, toBeClassified: seq<Point>, pointsDictionary: map<string, Entry>, ghost others: seq<Point>)
    returns (labelled: map<string, Entry>)
    requires Distinct(toBeClassified)
    requires forall j :: 0 <= j < |toBeClassified| ==> toBeClassified[j] !in polygon.points
    requires NamesIn(toBeClassified, pointsDictionary)
    modifies set j | 0 <= j < |toBeClassified| :: toBeClassified[j]
    ensures Coords(polygon.points) == old(Coords(polygon.points))
    ensures labelled == Relabel(pointsDictionary, toBeClassified, Writes(old(Coords(toBeClassified)), RayCastStage(Coords(polygon.points))), |toBeClassified|)
    ensures forall j :: 0 <= j < |toBeClassified| ==>
              toBeClassified[j].x == old(toBeClassified[j].x) &&
              toBeClassified[j].y == RayCast(Coords(polygon.points), old(toBeClassified[j].x), old(toBeClassified[j].y), Crosses).y
    ensures forall j :: 0 <= j < |others| && others[j] !in toBeClassified ==>
              others[j].x == old(others[j].x) && others[j].y == old(others[j].y)
  {
    ghost var pcs, cs := Coords(polygon.points), Coords(toBeClassified);
    ghost var casts := seq(|cs|, j requires 0 <= j < |cs| => RayCast(pcs, cs[j].x, cs[j].y, Crosses));
    ghost var writes := seq(|cs|, j requires 0 <= j < |cs| => Some(if casts[j].inside then Inside else Outside));
    labelled := pointsDictionary;
    var i := 0;
    while i < |toBeClassified|
      invariant RayCastProgress(polygon, toBeClassified, i, pcs, cs, casts, writes, pointsDictionary, labelled)
    {
      labelled := RayCastStep(polygon, toBeClassified, i, pcs, cs, casts, writes, pointsDictionary, labelled);
      i := i + 1;
    }
    assert writes == Writes(cs, RayCastStage(pcs));
  }

  /** The third stage after i points, on the polygon's vertices `pcs`, the
      points' coordinates `cs` on entry, their ray casts `casts` and the
      writes of the stage: the first i points are labelled and nudged, the
      others untouched. */
  ghost predicate RayCastProgress(polygon: Polygon, toBeClassified: seq<Point>, i: nat, pcs: seq<Coord>, cs: seq<Coord>,
                                  casts: seq<ScanState>, writes: seq<Option<Label>>,
                                  d: map<string, Entry>, labelled: map<string, Entry>)
    reads polygon.points, toBeClassified
  {
    i <= |toBeClassified| == |cs| == |casts| == |writes| && NamesIn(toBeClassified, d) && Coords(polygon.points) == pcs &&
    labelled == Relabel(d, toBeClassified, writes, i) &&
    (forall j :: i <= j < |toBeClassified| ==> Coord(toBeClassified[j].x, toBeClassified[j].y) == cs[j]) &&
    (forall j :: 0 <= j < i ==> toBeClassified[j].x == cs[j].x && toBeClassified[j].y == casts[j].y)
  }

  /** One point of the third stage: ray-cast it and label it inside or
      outside; the other points keep their coordinates. */
  method RayCastStep(polygon: Polygon, toBeClassified: seq<Point>, i: nat, ghost pcs: seq<Coord>, ghost cs: seq<Coord>,
                     ghost casts: seq<ScanState>, ghost writes: seq<Option<Label>>,
                     ghost d: map<string, Entry>, labelled: map<string, Entry>)
    returns (labelled': map<string, Entry>)
    requires i < |toBeClassified| && Distinct(toBeClassified) && toBeClassified[i] !in polygon.points
    requires RayCastProgress(polygon, toBeClassified, i, pcs, cs, casts, writes, d, labelled)
    requires casts[i] == RayCast(pcs, cs[i].x, cs[i].y, Crosses)
    requires writes[i] == Some(if casts[i].inside then Inside else Outside)
    modifies toBeClassified[i]
    ensures RayCastProgress(polygon, toBeClassified, i + 1, pcs, cs, casts, writes, d, labelled')
  {
    var point := toBeClassified[i];
    var inside := polygon.Contains(point);
    RelabelStep(d, toBeClassified, writes, i);
    if inside {
      labelled' := labelled[point.name := labelled[point.name].(category := Inside)];
    } else {
      labelled' := labelled[point.name := labelled[point.name].(category := Outside)];
    }
  }

  /** The names of a sublist are keys wherever the names of the list are. */
  lemma WithinNamesIn(qs: seq<Point>, ps: seq<Point>, d: map<string, Entry>)
    requires Within(qs, ps) && NamesIn(ps, d)
    ensures NamesIn(qs, d)
  {
    forall i | 0 <= i < |qs| ensures qs[i].name in d {
      var j :| 0 <= j < |ps| && ps[j] == qs[i];
    }
  }

  /** No point of the list has name k. */
  predicate NamesAvoid(ps: seq<Point>, k: string)
  {
    forall i :: 0 <= i < |ps| ==> ps[i].name != k
  }

  /** The coordinates `qcs` of a sublist `qs` are those its points have in
      the full list. */
  predicate Linked(qs: seq<Point>, qcs: seq<Coord>, ps: seq<Point>, cs: seq<Coord>)
    requires |cs| == |ps|
  {
    |qcs| == |qs| && forall i, j :: 0 <= i < |qs| && 0 <= j < |ps| && qs[i] == ps[j] ==> qcs[i] == cs[j]
  }

  /** A point a stage does not pass on takes its name with it: with
      distinct names, no passed-on point carries it. */
  lemma SelectOmits(ps: seq<Point>, keep: seq<bool>, j: nat)
    requires |keep| == |ps| && j < |ps| && !keep[j] && DistinctNames(ps)
    ensures NamesAvoid(Select(ps, keep), ps[j].name)
  {
    var r := Select(ps, keep);
    SelectDrawsFrom(ps, keep, |ps|);
    forall i | 0 <= i < |r| ensures r[i].name != ps[j].name {
      assert FlaggedIn(r[i], ps, keep, |ps|);
      var j' :| 0 <= j' < |ps| && keep[j'] && ps[j'] == r[i];
      assert j' != j;
    }
  }

  /** Filtering introduces no name. */
  lemma SelectAvoids(ps: seq<Point>, keep: seq<bool>, k: string)
    requires |keep| == |ps| && NamesAvoid(ps, k)
    ensures NamesAvoid(Select(ps, keep), k)
  {
    var r := Select(ps, keep);
    SelectDrawsFrom(ps, keep, |ps|);
    forall i | 0 <= i < |r| ensures r[i].name != k {
      assert FlaggedIn(r[i], ps, keep, |ps|);
    }
  }

  /** Filtering a list of distinct points with distinct names keeps both
      the points and the names distinct. */
  lemma SelectDistinctNames(ps: seq<Point>, keep: seq<bool>)
    requires |keep| == |ps| && Distinct(ps) && DistinctNames(ps)
    ensures Distinct(Select(ps, keep)) && DistinctNames(Select(ps, keep))
  {
    var r := Select(ps, keep);
    SelectDistinct(ps, keep, |ps|);
    SelectDrawsFrom(ps, keep, |ps|);
    forall a, b | 0 <= a < b < |r| ensures r[a].name != r[b].name {
      assert FlaggedIn(r[a], ps, keep, |ps|) && FlaggedIn(r[b], ps, keep, |ps|);
      var ja :| 0 <= ja < |ps| && keep[ja] && ps[ja] == r[a];
      var jb :| 0 <= jb < |ps| && keep[jb] && ps[jb] == r[b];
      assert ja != jb;
    }
  }

  /** A stage never writes `Unclassified`. */
  ghost predicate Settles(s: Stage)
  {
    forall c :: s(c) != Some(Unclassified)
  }

  /** The values of the dictionary and the first two stages s1, s2: the
      dictionary `d0` as built, the first stage over the points `ps` with
      coordinates `cs`, the second over the points it passes on (`im`,
      coordinates `ics`), which passes on `tb`. */
  ghost predicate Split(ps: seq<Point>, cs: seq<Coord>, s1: Stage, s2: Stage,
                        d0: map<string, Entry>, im: seq<Point>, d1: map<string, Entry>, ics: seq<Coord>,
                        tb: seq<Point>, d2: map<string, Entry>)
  {
    |cs| == |ps| && d0.Keys == Names(ps) && NamesIn(ps, d0) &&
    im == Select(ps, Passes(cs, s1)) && d1 == Relabel(d0, ps, Writes(cs, s1), |ps|) &&
    Linked(im, ics, ps, cs) && NamesIn(im, d1) &&
    tb == Select(im, Passes(ics, s2)) && d2 == Relabel(d1, im, Writes(ics, s2), |im|)
  }

  /** The values of a whole run: the first two stages, then the third stage
      over `tb` (coordinates `tcs`). */
  ghost predicate Run(ps: seq<Point>, cs: seq<Coord>, s1: Stage, s2: Stage, s3: Stage,
                      d0: map<string, Entry>, im: seq<Point>, d1: map<string, Entry>, ics: seq<Coord>,
                      tb: seq<Point>, d2: map<string, Entry>, tcs: seq<Coord>, d3: map<string, Entry>)
  {
    Split(ps, cs, s1, s2, d0, im, d1, ics, tb, d2) &&
    Linked(tb, tcs, ps, cs) && NamesIn(tb, d2) &&
    d3 == Relabel(d2, tb, Writes(tcs, s3), |tb|)
  }

  /** The points the first two stages pass on are distinct input points
      whose names are keys. */
  lemma SplitPassesOn(ps: seq<Point>, cs: seq<Coord>, s1: Stage, s2: Stage,
                      d0: map<string, Entry>, im: seq<Point>, d1: map<string, Entry>, ics: seq<Coord>,
                      tb: seq<Point>, d2: map<string, Entry>)
    requires Split(ps, cs, s1, s2, d0, im, d1, ics, tb, d2) && Distinct(ps)
    ensures Within(im, ps) && Within(tb, im) && Within(tb, ps)
    ensures Distinct(im) && Distinct(tb) && NamesIn(tb, d2)
  {
    SelectIn(ps, Passes(cs, s1));
    SelectIn(im, Passes(ics, s2));
    SelectDistinct(ps, Passes(cs, s1), |ps|);
    SelectDistinct(im, Passes(ics, s2), |im|);
    WithinNamesIn(tb, im, d2);
  }

  /** The point at index j of a run ends up classified: the stage that does
      not pass it on labels it, and a label, once written, is replaced only
      by another label. */
  lemma RunSettlesAt(ps: seq<Point>, cs: seq<Coord>, s1: Stage, s2: Stage, s3: Stage,
                     d0: map<string, Entry>, im: seq<Point>, d1: map<string, Entry>, ics: seq<Coord>,
                     tb: seq<Point>, d2: map<string, Entry>, tcs: seq<Coord>, d3: map<string, Entry>, j: nat)
    requires |cs| == |ps| && NamesIn(ps, d0) && j < |ps|
    requires im == Select(ps, Passes(cs, s1)) && d1 == Relabel(d0, ps, Writes(cs, s1), |ps|) && NamesIn(im, d1)
    requires |ics| == |im| && tb == Select(im, Passes(ics, s2)) && d2 == Relabel(d1, im, Writes(ics, s2), |im|) && NamesIn(tb, d2)
    requires |tcs| == |tb| && d3 == Relabel(d2, tb, Writes(tcs, s3), |tb|)
    requires Settles(s1) && Settles(s2) && Settles(s3) && forall c :: s3(c).Some?
    ensures d3[ps[j].name].category != Unclassified
  {
    var k := ps[j].name;
    var keep1, w1 := Passes(cs, s1), Writes(cs, s1);
    var keep2, w2 := Passes(ics, s2), Writes(ics, s2);
    var w3 := Writes(tcs, s3);
    if !keep1[j] {
      RelabelSettles(d0, ps, w1, |ps|, k);
      RelabelSettles(d1, im, w2, |im|, k);
      RelabelSettles(d2, tb, w3, |tb|, k);
    } else {
      SelectKeeps(ps, keep1, |ps|);
      var i :| 0 <= i < |im| && im[i] == ps[j];
      if !keep2[i] {
        RelabelSettles(d1, im, w2, |im|, k);
        RelabelSettles(d2, tb, w3, |tb|, k);
      } else {
        SelectKeeps(im, keep2, |im|);
        var t :| 0 <= t < |tb| && tb[t] == im[i];
        RelabelSettles(d2, tb, w3, |tb|, k);
      }
    }
  }

  /** Every point handed to the third stage was passed on by the first two. */
  lemma RunPassesOn(ps: seq<Point>, cs: seq<Coord>, s1: Stage, s2: Stage, s3: Stage,
                    d0: map<string, Entry>, im: seq<Point>, d1: map<string, Entry>, ics: seq<Coord>,
                    tb: seq<Point>, d2: map<string, Entry>, tcs: seq<Coord>, d3: map<string, Entry>)
    requires Run(ps, cs, s1, s2, s3, d0, im, d1, ics, tb, d2, tcs, d3)
    ensures forall t :: 0 <= t < |tb| ==> s1(tcs[t]).None? && s2(tcs[t]).None?
  {
    var keep1, keep2 := Passes(cs, s1), Passes(ics, s2);
    SelectDrawsFrom(ps, keep1, |ps|);
    SelectDrawsFrom(im, keep2, |im|);
    forall t | 0 <= t < |tb| ensures s1(tcs[t]).None? && s2(tcs[t]).None? {
      assert FlaggedIn(tb[t], im, keep2, |im|);
      var i :| 0 <= i < |im| && keep2[i] && im[i] == tb[t];
      assert FlaggedIn(im[i], ps, keep1, |ps|);
      var j :| 0 <= j < |ps| && keep1[j] && ps[j] == im[i];
      assert ics[i] == cs[j] && tcs[t] == cs[j];
    }
  }

  /** With distinct names, each point ends up with the coordinates it was
      read with and the first label a stage writes for them. */
  lemma RunLabels(ps: seq<Point>, cs: seq<Coord>, s1: Stage, s2: Stage, s3: Stage,
                  d0: map<string, Entry>, im: seq<Point>, d1: map<string, Entry>, ics: seq<Coord>,
                  tb: seq<Point>, d2: map<string, Entry>, tcs: seq<Coord>, d3: map<string, Entry>, j: nat)
    requires Run(ps, cs, s1, s2, s3, d0, im, d1, ics, tb, d2, tcs, d3)
    requires Distinct(ps) && DistinctNames(ps) && j < |ps| && forall c :: s3(c).Some?
    requires d0[ps[j].name] == Entry(cs[j].x, cs[j].y, Unclassified)
    ensures d3[ps[j].name] == Entry(cs[j].x, cs[j].y, FirstLabel(s1, s2, s3, cs[j]))
  {
    var k := ps[j].name;
    var keep1, w1 := Passes(cs, s1), Writes(cs, s1);
    var keep2, w2 := Passes(ics, s2), Writes(ics, s2);
    var w3 := Writes(tcs, s3);
    RelabelKeepsCoordinates(d0, ps, w1, |ps|, k);
    RelabelKeepsCoordinates(d1, im, w2, |im|, k);
    RelabelKeepsCoordinates(d2, tb, w3, |tb|, k);
    SelectDistinctNames(ps, keep1);
    SelectDistinctNames(im, keep2);
    if !keep1[j] {
      RelabelLastWrite(d0, ps, w1, |ps|, j);
      SelectOmits(ps, keep1, j);
      SelectAvoids(im, keep2, k);
      RelabelUnwritten(d1, im, w2, |im|, k);
      RelabelUnwritten(d2, tb, w3, |tb|, k);
    } else {
      SelectKeeps(ps, keep1, |ps|);
      var i :| 0 <= i < |im| && im[i] == ps[j];
      assert ics[i] == cs[j];
      if !keep2[i] {
        RelabelLastWrite(d1, im, w2, |im|, i);
        SelectOmits(im, keep2, i);
        RelabelUnwritten(d2, tb, w3, |tb|, k);
      } else {
        SelectKeeps(im, keep2, |im|);
        var t :| 0 <= t < |tb| && tb[t] == im[i];
        assert tcs[t] == cs[j];
        RelabelLastWrite(d2, tb, w3, |tb|, t);
      }
    }
  }

  /** What a run of this program's three stages establishes, on values: the
      keys are the input names, none is left unclassified, the ray cast
      sees only points inside the MBR and off the boundary, and with
      distinct names every point gets the coordinates it was read with and
      the label `Classify` gives them. */
  lemma RunClassifies(ps: seq<Point>, cs: seq<Coord>, mbr: Box, pcs: seq<Coord>, sqrt: real -> real,
                      d0: map<string, Entry>, im: seq<Point>, d1: map<string, Entry>, ics: seq<Coord>,
                      tb: seq<Point>, d2: map<string, Entry>, tcs: seq<Coord>, d3: map<string, Entry>)
    requires Run(ps, cs, MbrStage(mbr), BoundaryStage(pcs, sqrt), RayCastStage(pcs), d0, im, d1, ics, tb, d2, tcs, d3)
    requires Distinct(ps)
    requires forall j :: 0 <= j < |ps| && LastWithName(ps, j, |ps|) ==> d0[ps[j].name] == Entry(cs[j].x, cs[j].y, Unclassified)
    ensures d3.Keys == Names(ps)
    ensures forall k :: k in d3 ==> d3[k].category != Unclassified
    ensures forall t :: 0 <= t < |tb| ==> mbr.Contains(tcs[t]) && !OnBoundary(pcs, tcs[t], sqrt)
    ensures DistinctNames(ps) ==> forall j :: 0 <= j < |ps| ==> d3[ps[j].name] == Entry(cs[j].x, cs[j].y, Classify(pcs, mbr, cs[j], sqrt))
  {
    var s1, s2, s3 := MbrStage(mbr), BoundaryStage(pcs, sqrt), RayCastStage(pcs);
    StagesClassify(pcs, mbr, sqrt);
    forall k | k in d3 ensures d3[k].category != Unclassified {
      var j :| 0 <= j < |ps| && ps[j].name == k;
      RunSettlesAt(ps, cs, s1, s2, s3, d0, im, d1, ics, tb, d2, tcs, d3, j);
    }
    RunPassesOn(ps, cs, s1, s2, s3, d0, im, d1, ics, tb, d2, tcs, d3);
    if DistinctNames(ps) {
      forall j | 0 <= j < |ps| ensures d3[ps[j].name] == Entry(cs[j].x, cs[j].y, Classify(pcs, mbr, cs[j], sqrt)) {
        assert LastWithName(ps, j, |ps|);
        RunLabels(ps, cs, s1, s2, s3, d0, im, d1, ics, tb, d2, tcs, d3, j);
      }
    }
  }

  /** The dictionary and the first two stages, which read the points and
      change none of them. */
  method SplitStages(polygon: Polygon, inputPoints: seq<Point>, mbr: Box, sqrt: real -> real)
    returns (ghost d0: map<string, Entry>, insideMbr: seq<Point>, ghost d1: map<string, Entry>,
             toBeClassified: seq<Point>, pointsDictionary: map<string, Entry>)
    ensures Split(inputPoints, Coords(inputPoints), MbrStage(mbr), BoundaryStage(Coords(polygon.points), sqrt),
                  d0, insideMbr, d1, Coords(insideMbr), toBeClassified, pointsDictionary)
    ensures forall j :: 0 <= j < |inputPoints| && LastWithName(inputPoints, j, |inputPoints|) ==>
              d0[inputPoints[j].name] == Entry(inputPoints[j].x, inputPoints[j].y, Unclassified)
    ensures Linked(toBeClassified, Coords(toBeClassified), inputPoints, Coords(inputPoints))
    ensures Distinct(inputPoints) ==>
              Within(insideMbr, inputPoints) && Within(toBeClassified, insideMbr) && Within(toBeClassified, inputPoints) &&
              Distinct(toBeClassified) && NamesIn(toBeClassified, pointsDictionary)
  {
    var built := BuildDictionary(inputPoints);
    var afterMbr;
    insideMbr, afterMbr := SplitByMbr(polygon, inputPoints, mbr, built);
    d0, d1 := built, afterMbr;
    SelectIn(inputPoints, Passes(Coords(inputPoints), MbrStage(mbr)));
    WithinNamesIn(insideMbr, inputPoints, d1);
    toBeClassified, pointsDictionary := SplitByBoundary(polygon, insideMbr, afterMbr, sqrt);
    if Distinct(inputPoints) {
      SplitPassesOn(inputPoints, Coords(inputPoints), MbrStage(mbr), BoundaryStage(Coords(polygon.points), sqrt),
                    d0, insideMbr, d1, Coords(insideMbr), toBeClassified, pointsDictionary);
    }
  }

  /** The module-level run over the input points, given the MBR computed
      from the polygon's vertices (`FindMbr`): build the dictionary, then
      run the three stages.  The ray cast nudges the points it tests, as the
      source does. */
  method ClassifyAll(polygon: Polygon, inputPoints: seq<Point>, mbr: Box, sqrt: real -> real)
    returns (pointsDictionary: map<string, Entry>, insideMbr: seq<Point>, toBeClassified: seq<Point>)
    requires Distinct(inputPoints)
    requires forall j :: 0 <= j < |inputPoints| ==> inputPoints[j] !in polygon.points
    modifies set j | 0 <= j < |inputPoints| :: inputPoints[j]
    ensures Coords(polygon.points) == old(Coords(polygon.points))
    ensures pointsDictionary.Keys == Names(inputPoints)
    ensures forall k :: k in pointsDictionary ==> pointsDictionary[k].category != Unclassified
    ensures Within(insideMbr, inputPoints) && Within(toBeClassified, insideMbr)
    ensures insideMbr == Select(inputPoints, Passes(old(Coords(inputPoints)), MbrStage(mbr)))
    ensures toBeClassified == Select(insideMbr, Passes(old(Coords(insideMbr)), BoundaryStage(Coords(polygon.points), sqrt)))
    ensures forall t :: 0 <= t < |toBeClassified| ==>
              mbr.Contains(old(Coord(toBeClassified[t].x, toBeClassified[t].y))) &&
              !OnBoundary(Coords(polygon.points), old(Coord(toBeClassified[t].x, toBeClassified[t].y)), sqrt)
    ensures DistinctNames(inputPoints) ==> forall j :: 0 <= j < |inputPoints| ==>
              pointsDictionary[inputPoints[j].name] ==
              Entry(old(inputPoints[j].x), old(inputPoints[j].y), Classify(Coords(polygon.points), mbr, old(Coord(inputPoints[j].x, inputPoints[j].y)), sqrt))
    ensures forall t :: 0 <= t < |toBeClassified| ==>
              toBeClassified[t].x == old(toBeClassified[t].x) &&
              toBeClassified[t].y == RayCast(Coords(polygon.points), old(toBeClassified[t].x), old(toBeClassified[t].y), Crosses).y
    ensures forall j :: 0 <= j < |inputPoints| && inputPoints[j] !in toBeClassified ==>
              inputPoints[j].x == old(inputPoints[j].x) && inputPoints[j].y == old(inputPoints[j].y)
  {
    ghost var d0, d1;
    var d2;
    d0, insideMbr, d1, toBeClassified, d2 := SplitStages(polygon, inputPoints, mbr, sqrt);
    ghost var pcs, cs, ics, tcs := Coords(polygon.points), Coords(inputPoints), Coords(insideMbr), Coords(toBeClassified);
    assert cs == old(Coords(inputPoints)) && pcs == old(Coords(polygon.points)) && ics == old(Coords(insideMbr));
    pointsDictionary := ClassifyRemaining(polygon, toBeClassified, d2, inputPoints);
    RunClassifies(inputPoints, cs, mbr, pcs, sqrt, d0, insideMbr, d1, ics, toBeClassified, d2, tcs, pointsDictionary);
  }
}
