/**
 * The AR view component (src/components/ARScene.jsx): the logic it keeps in a ref (the
 * measurement manager, whether the interaction manager exists, the unit), the two pieces
 * of React state it publishes (status text and stats), and the handle it gives its parent
 * (undo, reset, new line, set unit, cycle unit). The reticle position is a parameter.
 */
module ArScene {
  import opened Wrappers
  import opened Geometry
  import Measure
  import S = MeasureState

  /** The units cycleUnit steps through, in order. */
  const UNITS: seq<string> := ["m", "cm", "in", "ft"]

  /** Taps add no point once the chain holds this many. */
  const MAX_POINTS: nat := 20

  /** Array.prototype.indexOf: the first position of `u`, or -1 when it does not occur. */
  function IndexOf(units: seq<string>, u: string): (i: int)
    ensures -1 <= i < |units|
    ensures i >= 0 ==> units[i] == u && forall j :: 0 <= j < i ==> units[j] != u
    ensures i == -1 <==> u !in units
  {
    if |units| == 0 then -1
    else if units[0] == u then 0
    else
      var k := IndexOf(units[1..], u);
      if k == -1 then -1 else k + 1
  }

  /** The unit after `u` in the cycle; a unit outside the cycle (index -1) moves to its start. */
  function CycledUnit(u: string): (r: string)
    ensures r in UNITS
    ensures u !in UNITS ==> r == UNITS[0]
  {
    UNITS[(IndexOf(UNITS, u) + 1) % |UNITS|]
  }

  /** Where indexOf finds each unit of the cycle. */
  lemma IndexOfUnits()
    ensures IndexOf(UNITS, "m") == 0 && IndexOf(UNITS, "cm") == 1
    ensures IndexOf(UNITS, "in") == 2 && IndexOf(UNITS, "ft") == 3
  {
    var tail1, tail2, tail3 := UNITS[1..], UNITS[2..], UNITS[3..];
    assert tail1 == ["cm", "in", "ft"] && tail1[1..] == tail2;
    assert tail2 == ["in", "ft"] && tail2[1..] == tail3;
    assert tail3 == ["ft"];
    assert IndexOf(tail3, "ft") == 0;
    assert IndexOf(tail2, "in") == 0 && IndexOf(tail2, "ft") == 1;
    assert IndexOf(tail1, "cm") == 0 && IndexOf(tail1, "in") == 1 && IndexOf(tail1, "ft") == 2;
  }

  lemma CycleOrder()
    ensures CycledUnit("m") == "cm" && CycledUnit("cm") == "in"
    ensures CycledUnit("in") == "ft" && CycledUnit("ft") == "m"
  {
    IndexOfUnits();
    assert CycledUnit("m") == UNITS[1];
    assert CycledUnit("cm") == UNITS[2];
    assert CycledUnit("in") == UNITS[3];
    assert CycledUnit("ft") == UNITS[0];
  }

  /** Every unit of the cycle comes back after four steps, and never after one. */
  lemma CycleReturnsAfterFour(u: string)
    requires u in UNITS
    ensures CycledUnit(u) != u
    ensures CycledUnit(CycledUnit(CycledUnit(CycledUnit(u)))) == u
  {
    CycleOrder();
    assert u == "m" || u == "cm" || u == "in" || u == "ft";
  }

  /** The stats published to the parent: the formatted total and the point count. */
  datatype Stats = Stats(total: string, count: nat)

  /** The distance formatter the component imports: metres and a unit name to display text. */
  type Formatter = (real, string) -> string

  class ArScene {
    const dist: Distance
    const format: Formatter
    var currentUnit: string
    var measure: Measure.MeasureManager?
    var interactionReady: bool
    var statusText: string
    var stats: Stats

    ghost predicate Valid()
      reads this, measure
    {
      measure != null ==> measure.Valid() && measure.dist == dist
    }

    /** The initial ref and state: no managers yet, metres, "0.00 m" and no points. */
    constructor (dist: Distance, format: Formatter)
      ensures Valid() && this.dist == dist && this.format == format
      ensures currentUnit == "m" && measure == null && !interactionReady
      ensures statusText == "Initializing AR..." && stats == Stats("0.00 m", 0)
    {
      this.dist := dist;
      this.format := format;
      currentUnit := "m";
      measure := null;
      interactionReady := false;
      statusText := "Initializing AR...";
      stats := Stats("0.00 m", 0);
    }

    /** initAR: a fresh, empty measurement manager and an interaction manager. */
    method InitAr()
      modifies this
      ensures Valid() && fresh(measure) && measure.State() == S.Initial && interactionReady
      ensures currentUnit == old(currentUnit) && statusText == old(statusText) && stats == old(stats)
    {
      measure := new Measure.MeasureManager(dist);
      interactionReady := true;
    }

    /** The scene's session-start callback. */
    method OnSessionStart()
      modifies this
      ensures statusText == "AR Session Active"
      ensures measure == old(measure) && stats == old(stats) && currentUnit == old(currentUnit)
      ensures interactionReady == old(interactionReady)
    {
      statusText := "AR Session Active";
    }

    /** The scene's session-end callback. */
    method OnSessionEnd()
      modifies this
      ensures statusText == "AR Session Ended"
      ensures measure == old(measure) && stats == old(stats) && currentUnit == old(currentUnit)
      ensures interactionReady == old(interactionReady)
    {
      statusText := "AR Session Ended";
    }

    /**
     * updateUI: publish the total (without a live reticle) in the current unit and the count.
     * Without a measurement manager the source throws; `ok` is then false and nothing changes.
     */
    method UpdateUi() returns (ok: bool)
      requires Valid()
      modifies this
      ensures Valid() && ok == (measure != null)
      ensures measure == old(measure) && currentUnit == old(currentUnit)
      ensures interactionReady == old(interactionReady) && statusText == old(statusText)
      ensures ok ==> stats == Stats(format(S.TotalDistance(dist, measure.State(), None), currentUnit),
                                    |measure.points|)
      ensures !ok ==> stats == old(stats)
    {
      if measure == null {
        return false;
      }
      var total := measure.GetTotalDistance(None);
      stats := Stats(format(total, currentUnit), measure.GetPointCount());
      ok := true;
    }

    /** handleTap: with both managers present, add the reticle position while fewer than 20 points are held. */
    method HandleTap(reticle: Option<Vec3>)
      requires Valid()
      modifies this, measure
      ensures statusText == old(statusText) && interactionReady == old(interactionReady)
      ensures Valid() && measure == old(measure) && currentUnit == old(currentUnit)
      ensures measure != null && interactionReady && reticle.Some? && old(|measure.points|) < MAX_POINTS ==>
        && measure.State() == S.AddPoint(dist, old(measure.State()), reticle.value)
        && stats == Stats(format(S.TotalDistance(dist, measure.State(), None), currentUnit),
                          |measure.points|)
      ensures measure != null && !(interactionReady && reticle.Some? && old(|measure.points|) < MAX_POINTS) ==>
        measure.State() == old(measure.State()) && stats == old(stats)
      ensures measure == null ==> stats == old(stats)
      ensures measure != null && old(|measure.points|) <= MAX_POINTS ==> |measure.points| <= MAX_POINTS
    {
      if !interactionReady || measure == null {
        return;
      }
      if reticle.Some? && measure.GetPointCount() < MAX_POINTS {
        S.AddPointGrowsByAtMostOne(dist, measure.State(), reticle.value);
        measure.AddPoint(reticle.value);
        var _ := UpdateUi();
      }
    }

    /** The handle's setUnit: remember the unit, relabel through the manager if there is one, refresh. */
    method SetUnit(u: string) returns (ok: bool)
      requires Valid()
      modifies this, measure
      ensures statusText == old(statusText) && interactionReady == old(interactionReady)
      ensures Valid() && measure == old(measure) && currentUnit == u && ok == (measure != null)
      ensures ok ==> measure.State() == S.SetUnit(dist, old(measure.State()), u)
      ensures ok ==> stats == Stats(format(S.TotalDistance(dist, measure.State(), None), u),
                                    |measure.points|)
      ensures !ok ==> stats == old(stats)
    {
      currentUnit := u;
      if measure != null {
        measure.SetUnit(u);
      }
      ok := UpdateUi();
    }

    /** The handle's cycleUnit: move to the next unit of UNITS and apply it as setUnit does. */
    method CycleUnit() returns (ok: bool)
      requires Valid()
      modifies this, measure
      ensures statusText == old(statusText) && interactionReady == old(interactionReady)
      ensures Valid() && measure == old(measure) && currentUnit == CycledUnit(old(currentUnit))
      ensures ok == (measure != null)
      ensures ok ==> measure.State() == S.SetUnit(dist, old(measure.State()), currentUnit)
      ensures ok ==> stats == Stats(format(S.TotalDistance(dist, measure.State(), None), currentUnit),
                                    |measure.points|)
      ensures !ok ==> stats == old(stats)
    {
      var next := CycledUnit(currentUnit);
      ok := SetUnit(next);
    }

    /** The handle's undo: forwarded to the manager when there is one; the stats are not refreshed. */
    method Undo()
      requires Valid()
      modifies measure
      ensures Valid()
      ensures measure != null ==> measure.State() == S.UndoLastPoint(dist, old(measure.State()))
    {
      if measure != null {
        measure.UndoLastPoint();
      }
    }

    method Reset()
      requires Valid()
      modifies measure
      ensures Valid()
      ensures measure != null ==> measure.State() == S.ResetAll(old(measure.State()))
    {
      if measure != null {
        measure.ResetAll();
      }
    }

    method StartNewLine()
      requires Valid()
      modifies measure
      ensures Valid()
      ensures measure != null ==> measure.State() == S.StartNewLine(old(measure.State()))
    {
      if measure != null {
        measure.StartNewLine();
      }
    }
  }
}
