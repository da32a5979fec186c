/**
 * The legacy MeasureManager of legacy/js/modules/measure.js: an open chain of captured
 * points with a dot per point, a polyline and a label per segment, and the archived chains.
 * Each mutating method is proved to perform the transition of the same name in
 * LegacyMeasureState and to keep its invariant.
 */
module LegacyMeasure {
  import opened Wrappers
  import opened Geometry
  import S = LegacyMeasureState

  class MeasureManager {
    /** Vector3.distanceTo. */
    const dist: Distance
    var points: seq<Vec3>
    var pointMeshes: seq<Mesh>
    var line: Option<Line>
    var labels: seq<Label>
    var allChains: seq<S.Chain>
    var currentUnit: string

    function State(): S.Measure
      reads this
    {
      S.Measure(points, pointMeshes, line, labels, allChains, currentUnit)
    }

    ghost predicate Valid()
      reads this
    {
      S.Consistent(dist, State())
    }

    constructor (dist: Distance)
      ensures this.dist == dist && State() == S.Initial && Valid()
    {
      this.dist := dist;
      points := [];
      pointMeshes := [];
      line := None;
      labels := [];
      allChains := [];
      currentUnit := "";
    }

    method AddPoint(position: Vec3)
      requires Valid()
      modifies this
      ensures Valid()
      ensures State() == S.AddPoint(dist, old(State()), position)
    {
      ghost var before := State();
      AddPointSteps(position);
      S.AddPointKeepsConsistent(dist, before, position);
    }

    /** The body of addPoint: skip a duplicate, otherwise push a dot and the point, then redraw. */
    method AddPointSteps(position: Vec3)
      modifies this
      ensures State() == S.AddPoint(dist, old(State()), position)
    {
      if |points| > 0 {
        var lastPoint := points[|points| - 1];
        if dist(position, lastPoint) < S.DUPLICATE_RADIUS {
          return;
        }
      }
      pointMeshes := pointMeshes + [Dot(position)];
      points := points + [position];
      UpdateLine();
    }

    method UndoLastPoint()
      requires Valid()
      modifies this
      ensures Valid()
      ensures State() == S.UndoLastPoint(dist, old(State()))
    {
      ghost var before := State();
      UndoLastPointSteps();
      S.UndoKeepsConsistent(dist, before);
    }

    /** The body of UndoLastPoint, proved against its transition alone. */
    method UndoLastPointSteps()
      modifies this
      ensures State() == S.UndoLastPoint(dist, old(State()))
    {
      if |points| == 0 {
        return;
      }
      pointMeshes := DropLast(pointMeshes);
      points := DropLast(points);
      UpdateLine();
    }

    method ResetAll()
      requires Valid()
      modifies this
      ensures Valid()
      ensures State() == S.ResetAll(old(State()))
    {
      ghost var before := State();
      ResetAllSteps();
      S.ResetClearsEverything(dist, before);
    }

    /** The body of ResetAll, proved against its transition alone. */
    method ResetAllSteps()
      modifies this
      ensures State() == S.ResetAll(old(State()))
    {
      allChains := [];
      points := [];
      pointMeshes := [];
      line := None;
      labels := [];
    }

    method StartNewLine()
      requires Valid()
      modifies this
      ensures Valid()
      ensures State() == S.StartNewLine(old(State()))
    {
      ghost var before := State();
      StartNewLineSteps();
      S.StartNewLineKeepsConsistent(dist, before);
    }

    /** The body of StartNewLine, proved against its transition alone. */
    method StartNewLineSteps()
      modifies this
      ensures State() == S.StartNewLine(old(State()))
    {
      if |points| < 2 {
        return;
      }
      allChains := allChains + [S.Chain(points, pointMeshes, line, labels)];
      points := [];
      pointMeshes := [];
      line := None;
      labels := [];
    }

    /** Rebuild the polyline and the segment labels of the current chain. */
    method UpdateLine()
      modifies this
      ensures State() == S.UpdateLine(dist, old(State()))
    {
      labels := [];
      if |points| < 2 {
        return;
      }
      line := Some(Polyline(points));
      labels := BuildSegmentLabels(dist, points, LabelUnit(currentUnit));
    }

    method SetUnit(unit: string)
      requires Valid()
      modifies this
      ensures Valid()
      ensures State() == S.SetUnit(dist, old(State()), unit)
    {
      S.SetUnitKeepsArchivedChains(dist, State(), unit);
      currentUnit := unit;
      UpdateLine();
    }

    method GetTotalDistance() returns (total: real)
      requires Valid()
      ensures total == S.TotalDistance(dist, State())
      ensures total == LabelTotal(labels)
      ensures |points| < 2 ==> total == 0.0
    {
      S.LabelsMatchTotal(dist, State());
      total := SumSegments(dist, points);
    }

    /** getPointCount: the number of points of the current chain, one dot drawn for each. */
    function GetPointCount(): (n: nat)
      reads this
      ensures n == |State().points|
      ensures Valid() ==> n == |pointMeshes|
    {
      |points|
    }

    /** hasContent: false exactly when neither the current chain nor any archived chain holds a point. */
    function HasContent(): (r: bool)
      reads this
      ensures !r <==> points == [] && allChains == []
      ensures Valid() && !r ==> pointMeshes == [] && labels == []
    {
      S.HasContent(State())
    }
  }
}
