/**
 * The MeasureManager of src/modules/measure.js: a chain of captured points with one marker
 * dot per point, a polyline and one distance label per segment, an optional snap-closed
 * loop, and the list of chains already archived. Each mutating method is proved to perform
 * the transition of the same name in MeasureState and to keep its invariant.
 */
module Measure {
  import opened Wrappers
  import opened Geometry
  import S = MeasureState

  class MeasureManager {
    /** Vector3.distanceTo. */
    const dist: Distance
    var points: seq<Vec3>
    var pointMeshes: seq<Mesh>
    var line: Option<Line>
    var labels: seq<Label>
    var allChains: seq<S.Chain>
    var previewLine: Option<Line>
    var isClosed: bool
    var currentUnit: string

    function State(): S.Measure
      reads this
    {
      S.Measure(points, pointMeshes, line, labels, allChains, previewLine, isClosed, currentUnit)
    }

    ghost predicate Valid()
      reads this
    {
      S.Consistent(dist, State())
    }

    constructor (dist: Distance)
      ensures this.dist == dist && State() == S.Initial && Valid()
    {
      this.dist := dist;
      points := [];
      pointMeshes := [];
      line := None;
      labels := [];
      allChains := [];
      previewLine := None;
      isClosed := false;
      currentUnit := "";
    }

    method AddPoint(position: Vec3)
      requires Valid()
      modifies this
      ensures Valid()
      ensures State() == S.AddPoint(dist, old(State()), position)
    {
      ghost var before := State();
      AddPointSteps(position);
      S.AddPointKeepsConsistent(dist, before, position);
    }

    /** The body of addPoint: snap-close, skip a duplicate, or append and redraw. */
    method AddPointSteps(position: Vec3)
      modifies this
      ensures State() == S.AddPoint(dist, old(State()), position)
    {
      if |points| >= 3 {
        var firstPoint := points[0];
        if dist(position, firstPoint) < S.CLOSE_RADIUS {
          isClosed := true;
          UpdateLine();
          return;
        }
      }
      if |points| > 0 {
        var lastPoint := points[|points| - 1];
        if dist(position, lastPoint) < S.DUPLICATE_RADIUS {
          return;
        }
      }
      isClosed := false;
      pointMeshes := pointMeshes + [Dot(position)];
      points := points + [position];
      UpdateLine();
    }

    method UndoLastPoint()
      requires Valid()
      modifies this
      ensures Valid()
      ensures State() == S.UndoLastPoint(dist, old(State()))
    {
      ghost var before := State();
      UndoLastPointSteps();
      S.UndoKeepsConsistent(dist, before);
    }

    /** The body of UndoLastPoint, proved against its transition alone. */
    method UndoLastPointSteps()
      modifies this
      ensures State() == S.UndoLastPoint(dist, old(State()))
    {
      if isClosed {
        isClosed := false;
        UpdateLine();
        return;
      }
      if |points| == 0 {
        return;
      }
      pointMeshes := DropLast(pointMeshes);
      points := DropLast(points);
      UpdateLine();
    }

    method ResetAll()
      requires Valid()
      modifies this
      ensures Valid()
      ensures State() == S.ResetAll(old(State()))
    {
      ghost var before := State();
      ResetAllSteps();
      S.ResetClearsEverything(dist, before);
    }

    /** The body of ResetAll, proved against its transition alone. */
    method ResetAllSteps()
      modifies this
      ensures State() == S.ResetAll(old(State()))
    {
      isClosed := false;
      allChains := [];
      points := [];
      pointMeshes := [];
      line := None;
      previewLine := None;
      labels := [];
    }

    method StartNewLine()
      requires Valid()
      modifies this
      ensures Valid()
      ensures State() == S.StartNewLine(old(State()))
    {
      ghost var before := State();
      StartNewLineSteps();
      S.StartNewLineKeepsConsistent(dist, before);
    }

    /** The body of StartNewLine, proved against its transition alone. */
    method StartNewLineSteps()
      modifies this
      ensures State() == S.StartNewLine(old(State()))
    {
      if |points| < 2 {
        return;
      }
      allChains := allChains + [S.Chain(points, pointMeshes, line, labels, isClosed)];
      points := [];
      pointMeshes := [];
      line := None;
      labels := [];
      isClosed := false;
    }

    /** Rebuild the polyline and the segment labels of the current chain. */
    method UpdateLine()
      modifies this
      ensures State() == S.UpdateLine(dist, old(State()))
    {
      labels := [];
      if |points| < 2 {
        return;
      }
      var drawPoints := DrawPoints(points, isClosed);
      line := Some(Polyline(drawPoints));
      labels := BuildSegmentLabels(dist, drawPoints, LabelUnit(currentUnit));
    }

    method SetUnit(unit: string)
      requires Valid()
      modifies this
      ensures Valid()
      ensures State() == S.SetUnit(dist, old(State()), unit)
    {
      ghost var before := State();
      currentUnit := unit;
      UpdateLine();
      RelabelChains();
      S.SetUnitKeepsConsistent(dist, before, unit);
    }

    /** The loop of setUnit that rebuilds the labels of every archived chain in the current unit. */
    method RelabelChains()
      modifies this
      ensures State() == old(State()).(allChains := S.RelabelAll(dist, old(allChains), LabelUnit(currentUnit)))
    {
      var i := 0;
      while i < |allChains|
        invariant 0 <= i <= |allChains| == |old(allChains)|
        invariant State() == old(State()).(allChains := allChains)
        invariant forall k :: 0 <= k < i ==> allChains[k] == S.Relabel(dist, old(allChains)[k], LabelUnit(currentUnit))
        invariant forall k :: i <= k < |allChains| ==> allChains[k] == old(allChains)[k]
      {
        var chain := allChains[i];
        var pts := DrawPoints(chain.points, chain.isClosed);
        var chainLabels := BuildSegmentLabels(dist, pts, LabelUnit(currentUnit));
        allChains := allChains[i := chain.(labels := chainLabels)];
        i := i + 1;
      }
      assert allChains == S.RelabelAll(dist, old(allChains), LabelUnit(currentUnit));
    }

    /** The total length of the chain, with the closing segment or the segment to the live reticle. */
    method GetTotalDistance(liveReticlePos: Option<Vec3>) returns (total: real)
      requires Valid()
      ensures total == S.TotalDistance(dist, State(), liveReticlePos)
      ensures liveReticlePos == None ==> total == LabelTotal(labels)
    {
      S.LabelsMatchTotal(dist, State());
      total := SumSegments(dist, points);
      if isClosed {
        total := total + dist(points[|points| - 1], points[0]);
      } else if liveReticlePos.Some? && |points| > 0 {
        total := total + dist(points[|points| - 1], liveReticlePos.value);
      }
    }

    method GetArea() returns (area: real)
      ensures area == S.Area(State())
      ensures area >= 0.0
      ensures !isClosed || |points| < 3 ==> area == 0.0
    {
      if !isClosed || |points| < 3 {
        return 0.0;
      }
      var sum := ShoelaceSum(points);
      area := Abs(sum) / 2.0;
    }

    /** getPointCount: the number of points of the current chain, one dot drawn for each. */
    function GetPointCount(): (n: nat)
      reads this
      ensures n == |State().points|
      ensures Valid() ==> n == |pointMeshes|
    {
      |points|
    }

    /** hasContent: false exactly when neither the current chain nor any archived chain holds a point. */
    function HasContent(): (r: bool)
      reads this
      ensures !r <==> points == [] && allChains == []
      ensures Valid() && !r ==> pointMeshes == [] && labels == []
    {
      S.HasContent(State())
    }
  }
}
