/**
 * The state of the current MeasureManager (src/modules/measure.js) as a value, and each of
 * its operations as a function from the old state to the new one. The class in module
 * Measure is proved to perform exactly these transitions; the properties of the manager
 * are proved here, about the transitions.
 */
module MeasureState {
  import opened Wrappers
  import opened Geometry

  /** A tap closer than this to the first of at least three points snaps the chain shut. */
  const CLOSE_RADIUS: real := 0.15
  /** A tap closer than this to the last point is a duplicate. */
  const DUPLICATE_RADIUS: real := 0.1

  /** An archived chain, as startNewLine pushes it onto allChains. */
  datatype Chain = Chain(points: seq<Vec3>, meshes: seq<Mesh>, line: Option<Line>, labels: seq<Label>, isClosed: bool)

  /** The fields of a MeasureManager (the scene it draws into is left out). */
  datatype Measure = Measure(
    points: seq<Vec3>,
    pointMeshes: seq<Mesh>,
    line: Option<Line>,
    labels: seq<Label>,
    allChains: seq<Chain>,
    previewLine: Option<Line>,
    isClosed: bool,
    currentUnit: string)

  /** A new manager: nothing captured, `isClosed` and `currentUnit` not yet set. */
  const Initial: Measure := Measure([], [], None, [], [], None, false, "")

  predicate ClosesLoop(dist: Distance, m: Measure, pos: Vec3) {
    |m.points| >= 3 && dist(pos, m.points[0]) < CLOSE_RADIUS
  }

  predicate RepeatsLast(dist: Distance, m: Measure, pos: Vec3) {
    |m.points| > 0 && dist(pos, Last(m.points)) < DUPLICATE_RADIUS
  }

  /** updateLine: rebuild the polyline and the segment labels of the current chain. */
  function UpdateLine(dist: Distance, m: Measure): Measure {
    if |m.points| < 2 then m.(labels := [])
    else
      var d := DrawPoints(m.points, m.isClosed);
      m.(line := Some(Polyline(d)), labels := SegmentLabels(dist, d, LabelUnit(m.currentUnit)))
  }

  /** The accepted branch of addPoint: reopen, then push a new dot and the point. */
  function Append(m: Measure, pos: Vec3): Measure {
    m.(isClosed := false, pointMeshes := m.pointMeshes + [Dot(pos)], points := m.points + [pos])
  }

  /**
   * addPoint exactly as written: `isClosed` is cleared before the duplicate check returns, so
   * every tap that does not close the loop leaves the chain open.
   */
  function AddPointAsWritten(dist: Distance, m: Measure, pos: Vec3): (r: Measure)
    ensures r.isClosed <==> ClosesLoop(dist, m, pos)
    ensures |m.points| <= |r.points| <= |m.points| + 1
    ensures r.allChains == m.allChains && r.currentUnit == m.currentUnit
  {
    if ClosesLoop(dist, m, pos) then UpdateLine(dist, m.(isClosed := true))
    else if RepeatsLast(dist, m, pos) then m.(isClosed := false)
    else UpdateLine(dist, Append(m, pos))
  }

  /** addPoint with the duplicate check taken before the chain is reopened: an ignored tap changes nothing. */
  function AddPoint(dist: Distance, m: Measure, pos: Vec3): Measure {
    if ClosesLoop(dist, m, pos) then UpdateLine(dist, m.(isClosed := true))
    else if RepeatsLast(dist, m, pos) then m
    else UpdateLine(dist, Append(m, pos))
  }

  /** undoLastPoint: reopen a closed chain, otherwise pop the last point and its dot. */
  function UndoLastPoint(dist: Distance, m: Measure): Measure {
    if m.isClosed then UpdateLine(dist, m.(isClosed := false))
    else if |m.points| == 0 then m
    else UpdateLine(dist, m.(pointMeshes := DropLast(m.pointMeshes), points := DropLast(m.points)))
  }

  /** resetAll: forget every chain, the current one included. */
  function ResetAll(m: Measure): Measure {
    m.(isClosed := false, allChains := [], points := [], pointMeshes := [], line := None,
       previewLine := None, labels := [])
  }

  /** The record startNewLine archives: copies of the current lists, the line and the closure flag. */
  function Archive(m: Measure): Chain {
    Chain(m.points, m.pointMeshes, m.line, m.labels, m.isClosed)
  }

  /** startNewLine: archive a chain of at least two points and start an empty one. */
  function StartNewLine(m: Measure): Measure {
    if |m.points| < 2 then m
    else m.(allChains := m.allChains + [Archive(m)], points := [], pointMeshes := [], line := None,
            labels := [], isClosed := false)
  }

  /** The labels setUnit rebuilds for one archived chain. */
  function Relabel(dist: Distance, c: Chain, unit: string): Chain {
    c.(labels := SegmentLabels(dist, DrawPoints(c.points, c.isClosed), unit))
  }

  function RelabelAll(dist: Distance, cs: seq<Chain>, unit: string): seq<Chain> {
    seq(|cs|, i requires 0 <= i < |cs| => Relabel(dist, cs[i], unit))
  }

  /** setUnit: record the unit, redraw the current chain, then relabel every archived chain. */
  function SetUnit(dist: Distance, m: Measure, unit: string): Measure {
    var m1 := UpdateLine(dist, m.(currentUnit := unit));
    m1.(allChains := RelabelAll(dist, m1.allChains, LabelUnit(unit)))
  }

  /**
   * getTotalDistance: the chain's length, plus the closing segment of a closed chain or,
   * for an open one, the segment to the live reticle position when there is one.
   */
  function TotalDistance(dist: Distance, m: Measure, reticle: Option<Vec3>): (t: real)
    requires m.isClosed ==> |m.points| > 0
    ensures m.isClosed ==> t == PathLength(dist, DrawPoints(m.points, true))
    ensures !m.isClosed && reticle.Some? && |m.points| > 0 ==> t == PathLength(dist, m.points + [reticle.value])
    ensures !m.isClosed && (reticle.None? || |m.points| == 0) ==> t == PathLength(dist, m.points)
  {
    if m.isClosed then
      PathLengthAppend(dist, m.points, m.points[0]);
      PathLength(dist, m.points) + dist(Last(m.points), m.points[0])
    else if reticle.Some? && |m.points| > 0 then
      PathLengthAppend(dist, m.points, reticle.value);
      PathLength(dist, m.points) + dist(Last(m.points), reticle.value)
    else PathLength(dist, m.points)
  }

  /** getArea: the floor area of a closed chain of at least three points, otherwise 0. */
  function Area(m: Measure): (a: real)
    ensures a >= 0.0
    ensures a > 0.0 ==> m.isClosed && |m.points| >= 3
  {
    if !m.isClosed || |m.points| < 3 then 0.0 else PolygonArea(m.points)
  }

  predicate HasContent(m: Measure) {
    |m.points| > 0 || |m.allChains| > 0
  }

  /** An archived chain: its dots mark its points and its line and labels are those of its points. */
  ghost predicate ChainConsistent(dist: Distance, c: Chain, unit: string) {
    && |c.points| >= 2
    && MarksPoints(c.meshes, c.points)
    && (c.isClosed ==> |c.points| >= 3)
    && c.line == Some(Polyline(DrawPoints(c.points, c.isClosed)))
    && c.labels == SegmentLabels(dist, DrawPoints(c.points, c.isClosed), unit)
  }

  /**
   * The manager's invariant: one dot per point, only a chain of three or more points is
   * closed, the labels (and, from two points on, the line) are exactly those of the current
   * points and closure, and every archived chain is consistent in the current unit.
   */
  ghost predicate Consistent(dist: Distance, m: Measure) {
    && MarksPoints(m.pointMeshes, m.points)
    && (m.isClosed ==> |m.points| >= 3)
    && m.labels == SegmentLabels(dist, DrawPoints(m.points, m.isClosed), LabelUnit(m.currentUnit))
    && (|m.points| >= 2 ==> m.line == Some(Polyline(DrawPoints(m.points, m.isClosed))))
    && forall i :: 0 <= i < |m.allChains| ==> ChainConsistent(dist, m.allChains[i], LabelUnit(m.currentUnit))
  }

  lemma InitialConsistent(dist: Distance)
    ensures Consistent(dist, Initial) && !HasContent(Initial)
  {
  }

  // ----- addPoint -----

  /** A tap near the first of at least three points closes the loop and adds no point. */
  lemma SnapClosesLoop(dist: Distance, m: Measure, pos: Vec3)
    requires Consistent(dist, m) && ClosesLoop(dist, m, pos)
    ensures var r := AddPoint(dist, m, pos);
      && r.isClosed && r.points == m.points && r.pointMeshes == m.pointMeshes
      && r.allChains == m.allChains && |r.labels| == |m.points|
  {
  }

  /** A tap near the last point (and not closing the loop) leaves the whole state unchanged. */
  lemma DuplicateIgnored(dist: Distance, m: Measure, pos: Vec3)
    requires !ClosesLoop(dist, m, pos) && RepeatsLast(dist, m, pos)
    ensures AddPoint(dist, m, pos) == m
  {
  }

  /** An accepted tap appends exactly one point and one dot at that point, and opens the chain. */
  lemma AcceptedTapAppends(dist: Distance, m: Measure, pos: Vec3)
    requires !ClosesLoop(dist, m, pos) && !RepeatsLast(dist, m, pos)
    ensures var r := AddPoint(dist, m, pos);
      && r.points == m.points + [pos] && r.pointMeshes == m.pointMeshes + [Dot(pos)]
      && !r.isClosed && r.allChains == m.allChains
  {
  }

  /** No tap adds more than one point or removes any. */
  lemma AddPointGrowsByAtMostOne(dist: Distance, m: Measure, pos: Vec3)
    ensures |m.points| <= |AddPoint(dist, m, pos).points| <= |m.points| + 1
  {
  }

  /** updateLine restores the label and line part of the invariant for any points and closure it is given. */
  lemma UpdateLineRestores(dist: Distance, m: Measure)
    requires MarksPoints(m.pointMeshes, m.points) && (m.isClosed ==> |m.points| >= 3)
    requires forall i :: 0 <= i < |m.allChains| ==> ChainConsistent(dist, m.allChains[i], LabelUnit(m.currentUnit))
    ensures Consistent(dist, UpdateLine(dist, m))
  {
  }

  lemma AddPointKeepsConsistent(dist: Distance, m: Measure, pos: Vec3)
    requires Consistent(dist, m)
    ensures Consistent(dist, AddPoint(dist, m, pos))
  {
    if ClosesLoop(dist, m, pos) {
      UpdateLineRestores(dist, m.(isClosed := true));
    } else if !RepeatsLast(dist, m, pos) {
      var a := Append(m, pos);
      MarksPointsAppend(m.pointMeshes, m.points, pos);
      UpdateLineRestores(dist, a);
    }
  }

  /** The two orders differ exactly on a duplicate tap at a closed chain. */
  lemma AsWrittenAgreesOffClosedDuplicate(dist: Distance, m: Measure, pos: Vec3)
    ensures AddPointAsWritten(dist, m, pos) == AddPoint(dist, m, pos)
        <==> !(m.isClosed && !ClosesLoop(dist, m, pos) && RepeatsLast(dist, m, pos))
  {
  }

  /**
   * As written, a duplicate tap on a closed loop still reopens it: the points and dots stay,
   * `isClosed` becomes false, and the labels of the closed loop are kept.
   */
  lemma AsWrittenDuplicateReopens(dist: Distance, m: Measure, pos: Vec3)
    requires !ClosesLoop(dist, m, pos) && RepeatsLast(dist, m, pos)
    ensures var r := AddPointAsWritten(dist, m, pos);
      && r.points == m.points && r.pointMeshes == m.pointMeshes && !r.isClosed
      && r.labels == m.labels && r.line == m.line
  {
  }

  /**
   * As written, that reopening breaks the invariant: a closed triangle keeps its three labels
   * (the closing segment's included) although it is now reported open.
   */
  lemma AsWrittenLeavesStaleClosingLabel()
    ensures var dist: Distance := (a: Vec3, b: Vec3) => Abs(a.x - b.x);
      var tri := [Vec3(0.0, 0.0, 0.0), Vec3(1.0, 0.0, 0.0), Vec3(2.0, 0.0, 0.0)];
      var m := UpdateLine(dist, Initial.(points := tri, pointMeshes := [Dot(tri[0]), Dot(tri[1]), Dot(tri[2])], isClosed := true));
      var r := AddPointAsWritten(dist, m, Vec3(2.05, 0.0, 0.0));
      && Consistent(dist, m)
      && !Consistent(dist, r)
      && |r.labels| == 3 && !r.isClosed
  {
    var dist: Distance := (a: Vec3, b: Vec3) => Abs(a.x - b.x);
    var tri := [Vec3(0.0, 0.0, 0.0), Vec3(1.0, 0.0, 0.0), Vec3(2.0, 0.0, 0.0)];
    var m := UpdateLine(dist, Initial.(points := tri, pointMeshes := [Dot(tri[0]), Dot(tri[1]), Dot(tri[2])], isClosed := true));
    var pos := Vec3(2.05, 0.0, 0.0);
    assert m.points == tri;
    assert dist(pos, tri[0]) == Abs(pos.x - tri[0].x) == 2.05;
    assert dist(pos, tri[2]) == Abs(pos.x - tri[2].x);
    assert Abs(pos.x - tri[2].x) < 0.1;
    assert !ClosesLoop(dist, m, pos);
    assert RepeatsLast(dist, m, pos);
    var r := AddPointAsWritten(dist, m, pos);
    assert |r.labels| == 3;
    assert |SegmentLabels(dist, DrawPoints(r.points, r.isClosed), LabelUnit(r.currentUnit))| == 2;
  }

  // ----- undoLastPoint -----

  /** undo reopens a closed chain keeping every point; on an empty chain it does nothing; otherwise it pops exactly the last point and dot. */
  lemma UndoOutcomes(dist: Distance, m: Measure)
    ensures var r := UndoLastPoint(dist, m);
      && (m.isClosed ==> !r.isClosed && r.points == m.points && r.pointMeshes == m.pointMeshes)
      && (!m.isClosed && m.points == [] ==> r == m)
      && (!m.isClosed && |m.points| > 0 ==>
            r.points + [Last(m.points)] == m.points && r.pointMeshes == DropLast(m.pointMeshes))
      && r.allChains == m.allChains
  {
  }

  lemma UndoKeepsConsistent(dist: Distance, m: Measure)
    requires Consistent(dist, m)
    ensures Consistent(dist, UndoLastPoint(dist, m))
  {
    if m.isClosed {
      UpdateLineRestores(dist, m.(isClosed := false));
    } else if |m.points| > 0 {
      var p := m.(pointMeshes := DropLast(m.pointMeshes), points := DropLast(m.points));
      MarksPointsDropLast(m.pointMeshes, m.points);
      UpdateLineRestores(dist, p);
    }
  }

  /** Undo right after a snap-close gives back exactly the open chain. */
  lemma UndoAfterSnapRestores(dist: Distance, m: Measure, pos: Vec3)
    requires Consistent(dist, m) && !m.isClosed && ClosesLoop(dist, m, pos)
    ensures UndoLastPoint(dist, AddPoint(dist, m, pos)) == m
  {
  }

  /** Undo right after an accepted tap on an open chain of two or more points gives back that chain. */
  lemma UndoAfterTapRestores(dist: Distance, m: Measure, pos: Vec3)
    requires Consistent(dist, m) && !m.isClosed && |m.points| >= 2
    requires !ClosesLoop(dist, m, pos) && !RepeatsLast(dist, m, pos)
    ensures UndoLastPoint(dist, AddPoint(dist, m, pos)) == m
  {
    var a := UpdateLine(dist, Append(m, pos));
    assert DropLast(a.points) == m.points;
    assert DropLast(a.pointMeshes) == m.pointMeshes;
  }

  // ----- resetAll and startNewLine -----

  /** After resetAll every list is empty, both lines are gone, the chain is open; a second reset changes nothing. */
  lemma ResetClearsEverything(dist: Distance, m: Measure)
    ensures var r := ResetAll(m);
      && r.points == [] && r.pointMeshes == [] && r.labels == [] && r.allChains == []
      && r.line == None && r.previewLine == None && !r.isClosed && r.currentUnit == m.currentUnit
      && !HasContent(r) && Consistent(dist, r) && ResetAll(r) == r
  {
  }

  /** startNewLine with fewer than two points changes nothing; otherwise it archives the chain and starts an empty, open one. */
  lemma StartNewLineOutcomes(m: Measure)
    ensures var r := StartNewLine(m);
      && (|m.points| < 2 ==> r == m)
      && (|m.points| >= 2 ==>
            && r.allChains == m.allChains + [Chain(m.points, m.pointMeshes, m.line, m.labels, m.isClosed)]
            && r.points == [] && r.pointMeshes == [] && r.labels == [] && r.line == None && !r.isClosed)
      && HasContent(r) == HasContent(m)
  {
  }

  lemma StartNewLineKeepsConsistent(dist: Distance, m: Measure)
    requires Consistent(dist, m)
    ensures Consistent(dist, StartNewLine(m))
  {
    var r := StartNewLine(m);
    if |m.points| >= 2 {
      forall i | 0 <= i < |r.allChains| ensures ChainConsistent(dist, r.allChains[i], LabelUnit(r.currentUnit)) {
        if i < |m.allChains| {
          assert r.allChains[i] == m.allChains[i];
        }
      }
    }
  }

  // ----- labels, setUnit and the totals -----

  /** The labels of the current chain: none under two points, one per segment when open, one more (the closing segment) when closed. */
  lemma LabelCount(dist: Distance, m: Measure)
    requires Consistent(dist, m)
    ensures |m.labels| == if |m.points| < 2 then 0 else if m.isClosed then |m.points| else |m.points| - 1
  {
  }

  /** Every label of the current chain and of every archived chain is formatted in `unit`. */
  ghost predicate AllLabelsIn(m: Measure, unit: string) {
    && (forall j :: 0 <= j < |m.labels| ==> m.labels[j].unit == unit)
    && (forall i, j :: 0 <= i < |m.allChains| && 0 <= j < |m.allChains[i].labels| ==>
          m.allChains[i].labels[j].unit == unit)
  }

  lemma SegmentLabelsIn(dist: Distance, pts: seq<Vec3>, unit: string)
    ensures forall j :: 0 <= j < |SegmentLabels(dist, pts, unit)| ==> SegmentLabels(dist, pts, unit)[j].unit == unit
  {
  }

  /** A consistent manager shows every label, archived ones included, in the unit new labels get. */
  lemma ConsistentLabelsShareUnit(dist: Distance, m: Measure)
    requires Consistent(dist, m)
    ensures AllLabelsIn(m, LabelUnit(m.currentUnit))
  {
    var u := LabelUnit(m.currentUnit);
    SegmentLabelsIn(dist, DrawPoints(m.points, m.isClosed), u);
    forall i | 0 <= i < |m.allChains|
      ensures forall j :: 0 <= j < |m.allChains[i].labels| ==> m.allChains[i].labels[j].unit == u
    {
      var c := m.allChains[i];
      assert ChainConsistent(dist, c, u);
      SegmentLabelsIn(dist, DrawPoints(c.points, c.isClosed), u);
    }
  }

  /** An archived chain has one label per segment, the closing one included when it is closed. */
  lemma ChainLabelCount(dist: Distance, c: Chain, unit: string)
    requires ChainConsistent(dist, c, unit)
    ensures |c.labels| == if c.isClosed then |c.points| else |c.points| - 1
  {
  }

  /** Relabelling an archived chain in a new unit keeps it consistent, now in that unit. */
  lemma RelabelKeepsChain(dist: Distance, c: Chain, unit: string, newUnit: string)
    requires ChainConsistent(dist, c, unit)
    ensures ChainConsistent(dist, Relabel(dist, c, newUnit), newUnit)
  {
  }

  /** setUnit keeps the invariant and changes no point, closure or chain count. */
  lemma SetUnitKeepsConsistent(dist: Distance, m: Measure, unit: string)
    requires Consistent(dist, m)
    ensures var r := SetUnit(dist, m, unit);
      && Consistent(dist, r)
      && r.currentUnit == unit && r.points == m.points && r.pointMeshes == m.pointMeshes
      && r.isClosed == m.isClosed && |r.allChains| == |m.allChains|
      && forall i :: 0 <= i < |r.allChains| ==>
           r.allChains[i].points == m.allChains[i].points && r.allChains[i].isClosed == m.allChains[i].isClosed
  {
    var u := LabelUnit(unit);
    var m2 := m.(currentUnit := unit, allChains := RelabelAll(dist, m.allChains, u));
    forall i | 0 <= i < |m2.allChains|
      ensures ChainConsistent(dist, m2.allChains[i], u)
    {
      RelabelKeepsChain(dist, m.allChains[i], LabelUnit(m.currentUnit), u);
    }
    UpdateLineRestores(dist, m2);
    assert SetUnit(dist, m, unit) == UpdateLine(dist, m2);
  }

  /** After setUnit every label, on the current chain and on every archived chain, is formatted in the new unit. */
  lemma SetUnitRelabelsEverything(dist: Distance, m: Measure, unit: string)
    requires Consistent(dist, m)
    ensures AllLabelsIn(SetUnit(dist, m, unit), LabelUnit(unit))
  {
    SetUnitKeepsConsistent(dist, m, unit);
    ConsistentLabelsShareUnit(dist, SetUnit(dist, m, unit));
  }

  /** The labels of a consistent chain add up to the total getTotalDistance reports without a reticle. */
  lemma LabelsMatchTotal(dist: Distance, m: Measure)
    requires Consistent(dist, m)
    ensures LabelTotal(m.labels) == TotalDistance(dist, m, None)
  {
    LabelsAddUpToPath(dist, DrawPoints(m.points, m.isClosed), LabelUnit(m.currentUnit));
    if m.isClosed {
      PathLengthAppend(dist, m.points, m.points[0]);
    }
  }

  /** With fewer than two points and no reticle the total is zero. */
  lemma ShortChainHasNoLength(dist: Distance, m: Measure)
    requires Consistent(dist, m) && |m.points| < 2
    ensures TotalDistance(dist, m, None) == 0.0
  {
  }
}
