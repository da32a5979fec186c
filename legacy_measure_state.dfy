/**
 * The state of the legacy MeasureManager (legacy/js/modules/measure.js) as a value, and its
 * operations as transitions. The legacy manager has no closed loops and no preview line,
 * and its setUnit redraws only the current chain.
 */
module LegacyMeasureState {
  import opened Wrappers
  import opened Geometry

  /** A tap closer than this to the last point is a duplicate. */
  const DUPLICATE_RADIUS: real := 0.1

  /** An archived chain, as startNewLine pushes it onto allChains. */
  datatype Chain = Chain(points: seq<Vec3>, meshes: seq<Mesh>, line: Option<Line>, labels: seq<Label>)

  /** The fields of a legacy MeasureManager (the scene it draws into is left out). */
  datatype Measure = Measure(
    points: seq<Vec3>,
    pointMeshes: seq<Mesh>,
    line: Option<Line>,
    labels: seq<Label>,
    allChains: seq<Chain>,
    currentUnit: string)

  const Initial: Measure := Measure([], [], None, [], [], "")

  predicate RepeatsLast(dist: Distance, m: Measure, pos: Vec3) {
    |m.points| > 0 && dist(pos, Last(m.points)) < DUPLICATE_RADIUS
  }

  /** updateLine: rebuild the polyline and one label per segment of the current chain. */
  function UpdateLine(dist: Distance, m: Measure): Measure {
    if |m.points| < 2 then m.(labels := [])
    else m.(line := Some(Polyline(m.points)), labels := SegmentLabels(dist, m.points, LabelUnit(m.currentUnit)))
  }

  /** addPoint: ignore a duplicate of the last point, otherwise push a dot and the point and redraw. */
  function AddPoint(dist: Distance, m: Measure, pos: Vec3): Measure {
    if RepeatsLast(dist, m, pos) then m
    else UpdateLine(dist, m.(pointMeshes := m.pointMeshes + [Dot(pos)], points := m.points + [pos]))
  }

  /** undoLastPoint: pop the last point and its dot, if there is one. */
  function UndoLastPoint(dist: Distance, m: Measure): Measure {
    if |m.points| == 0 then m
    else UpdateLine(dist, m.(pointMeshes := DropLast(m.pointMeshes), points := DropLast(m.points)))
  }

  function ResetAll(m: Measure): Measure {
    m.(allChains := [], points := [], pointMeshes := [], line := None, labels := [])
  }

  /** startNewLine: archive a chain of at least two points and start an empty one. */
  function StartNewLine(m: Measure): Measure {
    if |m.points| < 2 then m
    else m.(allChains := m.allChains + [Chain(m.points, m.pointMeshes, m.line, m.labels)],
            points := [], pointMeshes := [], line := None, labels := [])
  }

  /** setUnit: record the unit and redraw the current chain. */
  function SetUnit(dist: Distance, m: Measure, unit: string): Measure {
    UpdateLine(dist, m.(currentUnit := unit))
  }

  /** getTotalDistance: the sum of the consecutive segment lengths. */
  function TotalDistance(dist: Distance, m: Measure): real {
    PathLength(dist, m.points)
  }

  predicate HasContent(m: Measure) {
    |m.points| > 0 || |m.allChains| > 0
  }

  /** One label per segment of `pts`, each showing that segment's length (in whatever unit). */
  ghost predicate LabelsMeasure(dist: Distance, ls: seq<Label>, pts: seq<Vec3>) {
    |ls| == |pts| - 1 && forall i :: 0 <= i < |ls| ==> ls[i].meters == dist(pts[i], pts[i + 1])
  }

  ghost predicate ChainConsistent(dist: Distance, c: Chain) {
    && |c.points| >= 2
    && MarksPoints(c.meshes, c.points)
    && c.line == Some(Polyline(c.points))
    && LabelsMeasure(dist, c.labels, c.points)
  }

  /**
   * The legacy manager's invariant: one dot per point, the labels (and, from two points on,
   * the line) are exactly those of the current points in the current unit, and every archived
   * chain keeps a dot per point, its line and a label per segment.
   */
  ghost predicate Consistent(dist: Distance, m: Measure) {
    && MarksPoints(m.pointMeshes, m.points)
    && m.labels == SegmentLabels(dist, m.points, LabelUnit(m.currentUnit))
    && (|m.points| >= 2 ==> m.line == Some(Polyline(m.points)))
    && forall i :: 0 <= i < |m.allChains| ==> ChainConsistent(dist, m.allChains[i])
  }

  lemma InitialConsistent(dist: Distance)
    ensures Consistent(dist, Initial) && !HasContent(Initial)
  {
  }

  /** A tap near the last point leaves the whole state unchanged. */
  lemma DuplicateIgnored(dist: Distance, m: Measure, pos: Vec3)
    requires RepeatsLast(dist, m, pos)
    ensures AddPoint(dist, m, pos) == m
  {
  }

  /** An accepted tap appends exactly one point and one dot at that point. */
  lemma AcceptedTapAppends(dist: Distance, m: Measure, pos: Vec3)
    requires !RepeatsLast(dist, m, pos)
    ensures var r := AddPoint(dist, m, pos);
      r.points == m.points + [pos] && r.pointMeshes == m.pointMeshes + [Dot(pos)] && r.allChains == m.allChains
  {
  }

  lemma AddPointGrowsByAtMostOne(dist: Distance, m: Measure, pos: Vec3)
    ensures |m.points| <= |AddPoint(dist, m, pos).points| <= |m.points| + 1
  {
  }

  /** updateLine restores the label and line part of the invariant for any points it is given. */
  lemma UpdateLineRestores(dist: Distance, m: Measure)
    requires MarksPoints(m.pointMeshes, m.points)
    requires forall i :: 0 <= i < |m.allChains| ==> ChainConsistent(dist, m.allChains[i])
    ensures Consistent(dist, UpdateLine(dist, m))
  {
  }

  lemma AddPointKeepsConsistent(dist: Distance, m: Measure, pos: Vec3)
    requires Consistent(dist, m)
    ensures Consistent(dist, AddPoint(dist, m, pos))
  {
    if !RepeatsLast(dist, m, pos) {
      var a := m.(pointMeshes := m.pointMeshes + [Dot(pos)], points := m.points + [pos]);
      MarksPointsAppend(m.pointMeshes, m.points, pos);
      UpdateLineRestores(dist, a);
    }
  }

  /** undo on an empty chain does nothing; otherwise it pops exactly the last point and dot. */
  lemma UndoOutcomes(dist: Distance, m: Measure)
    ensures var r := UndoLastPoint(dist, m);
      && (m.points == [] ==> r == m)
      && (|m.points| > 0 ==> r.points + [Last(m.points)] == m.points && r.pointMeshes == DropLast(m.pointMeshes))
      && r.allChains == m.allChains
  {
  }

  lemma UndoKeepsConsistent(dist: Distance, m: Measure)
    requires Consistent(dist, m)
    ensures Consistent(dist, UndoLastPoint(dist, m))
  {
    if |m.points| > 0 {
      var p := m.(pointMeshes := DropLast(m.pointMeshes), points := DropLast(m.points));
      MarksPointsDropLast(m.pointMeshes, m.points);
      UpdateLineRestores(dist, p);
    }
  }

  /** Undo right after an accepted tap on a chain of two or more points gives back that chain. */
  lemma UndoAfterTapRestores(dist: Distance, m: Measure, pos: Vec3)
    requires Consistent(dist, m) && |m.points| >= 2 && !RepeatsLast(dist, m, pos)
    ensures UndoLastPoint(dist, AddPoint(dist, m, pos)) == m
  {
    var a := AddPoint(dist, m, pos);
    assert DropLast(a.points) == m.points;
    assert DropLast(a.pointMeshes) == m.pointMeshes;
  }

  /** After resetAll the point, dot, label and chain lists are empty and the line is gone; a second reset changes nothing. */
  lemma ResetClearsEverything(dist: Distance, m: Measure)
    ensures var r := ResetAll(m);
      && r.points == [] && r.pointMeshes == [] && r.labels == [] && r.allChains == [] && r.line == None
      && !HasContent(r) && Consistent(dist, r) && ResetAll(r) == r
  {
  }

  /** startNewLine with fewer than two points changes nothing; otherwise it archives the chain and starts an empty one. */
  lemma StartNewLineOutcomes(m: Measure)
    ensures var r := StartNewLine(m);
      && (|m.points| < 2 ==> r == m)
      && (|m.points| >= 2 ==>
            && r.allChains == m.allChains + [Chain(m.points, m.pointMeshes, m.line, m.labels)]
            && r.points == [] && r.pointMeshes == [] && r.labels == [] && r.line == None)
      && HasContent(r) == HasContent(m)
  {
  }

  lemma StartNewLineKeepsConsistent(dist: Distance, m: Measure)
    requires Consistent(dist, m)
    ensures Consistent(dist, StartNewLine(m))
  {
    var r := StartNewLine(m);
    if |m.points| >= 2 {
      forall i | 0 <= i < |r.allChains| ensures ChainConsistent(dist, r.allChains[i]) {
        if i < |m.allChains| {
          assert r.allChains[i] == m.allChains[i];
        }
      }
    }
  }

  /** updateLine leaves exactly max(0, n - 1) labels. */
  lemma LabelCount(dist: Distance, m: Measure)
    ensures |UpdateLine(dist, m).labels| == if |m.points| < 2 then 0 else |m.points| - 1
  {
  }

  /** setUnit relabels the current chain in the new unit and leaves every archived chain, labels included, as it was. */
  lemma SetUnitKeepsArchivedChains(dist: Distance, m: Measure, unit: string)
    requires Consistent(dist, m)
    ensures var r := SetUnit(dist, m, unit);
      && Consistent(dist, r) && r.allChains == m.allChains && r.points == m.points
      && forall j :: 0 <= j < |r.labels| ==> r.labels[j].unit == LabelUnit(unit)
  {
    var r := SetUnit(dist, m, unit);
    assert r.labels == SegmentLabels(dist, m.points, LabelUnit(unit));
    forall j | 0 <= j < |r.labels| ensures r.labels[j].unit == LabelUnit(unit) {
      assert r.labels[j] == Label(dist(m.points[j], m.points[j + 1]), LabelUnit(unit));
    }
  }

  /** The labels of the current chain add up to the total getTotalDistance reports. */
  lemma LabelsMatchTotal(dist: Distance, m: Measure)
    requires Consistent(dist, m)
    ensures LabelTotal(m.labels) == TotalDistance(dist, m)
  {
    LabelsAddUpToPath(dist, m.points, LabelUnit(m.currentUnit));
  }
}
