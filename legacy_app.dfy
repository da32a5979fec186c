/**
 * The legacy application controller (legacy/js/app.js): it owns the controls and the
 * legacy measurement manager, turns taps into points behind the reticle and 20-point
 * guards, refreshes the readout and controls, and forwards unit changes.
 * The reticle position comes from the hit test, which is left out, as a parameter.
 */
module LegacyApp {
  import opened Wrappers
  import opened Geometry
  import opened LegacyUi
  import opened Format
  import LegacyMeasure
  import S = LegacyMeasureState

  /** Taps add no point once the chain holds this many. */
  const MAX_POINTS: nat := 20

  class App {
    var currentUnit: string
    const ui: Ui
    const measure: LegacyMeasure.MeasureManager

    ghost predicate Valid()
      reads this, ui, measure
    {
      ui.Valid() && measure.Valid()
    }

    constructor (dist: Distance)
      ensures Valid() && fresh(ui) && fresh(measure)
      ensures currentUnit == "m" && ui.currentUnit == "m"
      ensures measure.dist == dist && measure.State() == S.Initial
      ensures ui.undoDisplay == HIDDEN && ui.resetDisplay == HIDDEN && ui.newLineDisplay == HIDDEN
      ensures ui.info == Idle("m")
    {
      currentUnit := "m";
      ui := new Ui();
      measure := new LegacyMeasure.MeasureManager(dist);
    }

    /** updateUI: show the total and point count, and enable the controls from the chain's state. */
    method UpdateUi()
      requires Valid()
      modifies ui
      ensures Valid()
      ensures ui.info == Totals(FormatDistance(S.TotalDistance(measure.dist, measure.State()), currentUnit), |measure.points|)
      ensures ui.undoDisplay == ui.resetDisplay == Display(measure.HasContent())
      ensures ui.newLineDisplay == Display(|measure.points| >= 2)
      ensures ui.currentUnit == old(ui.currentUnit)
    {
      var dist := measure.GetTotalDistance();
      var count := measure.GetPointCount();
      ui.UpdateInfo(Totals(FormatDistance(dist, currentUnit), count));
      ui.UpdateControls(measure.HasContent(), count >= 2);
    }

    /** handleTap: add the reticle position while fewer than 20 points are held, then refresh. */
    method HandleTap(reticle: Option<Vec3>)
      requires Valid()
      modifies ui, measure
      ensures Valid()
      ensures reticle.Some? && old(|measure.points|) < MAX_POINTS ==>
        && measure.State() == S.AddPoint(measure.dist, old(measure.State()), reticle.value)
        && ui.info == Totals(FormatDistance(S.TotalDistance(measure.dist, measure.State()), currentUnit), |measure.points|)
        && ui.undoDisplay == ui.resetDisplay == Display(measure.HasContent())
        && ui.newLineDisplay == Display(|measure.points| >= 2)
      ensures reticle.None? || old(|measure.points|) >= MAX_POINTS ==>
        measure.State() == old(measure.State()) && unchanged(ui)
      ensures old(|measure.points|) <= MAX_POINTS ==> |measure.points| <= MAX_POINTS
      ensures ui.currentUnit == old(ui.currentUnit)
    {
      var pos := reticle;
      if pos.Some? && measure.GetPointCount() < MAX_POINTS {
        S.AddPointGrowsByAtMostOne(measure.dist, measure.State(), pos.value);
        measure.AddPoint(pos.value);
        UpdateUi();
      }
    }

    /** The per-frame readout: a zero total under two points (controls untouched), the full refresh otherwise. */
    method Render()
      requires Valid()
      modifies ui
      ensures Valid() && ui.currentUnit == old(ui.currentUnit)
      ensures |measure.points| < 2 ==>
        && ui.info == Idle(currentUnit)
        && ui.undoDisplay == old(ui.undoDisplay) && ui.resetDisplay == old(ui.resetDisplay)
        && ui.newLineDisplay == old(ui.newLineDisplay)
      ensures |measure.points| >= 2 ==>
        && ui.info == Totals(FormatDistance(S.TotalDistance(measure.dist, measure.State()), currentUnit), |measure.points|)
        && ui.undoDisplay == ui.resetDisplay == Display(measure.HasContent())
        && ui.newLineDisplay == Display(true)
    {
      if measure.GetPointCount() < 2 {
        ui.UpdateInfo(Idle(currentUnit));
      } else {
        UpdateUi();
      }
    }

    /** The onUnitChange callback: take the unit, relabel the chain in it and refresh. */
    method OnUnitChange(unit: string)
      requires Valid()
      modifies this, ui, measure
      ensures Valid()
      ensures currentUnit == unit && ui.currentUnit == old(ui.currentUnit)
      ensures measure.State() == S.SetUnit(measure.dist, old(measure.State()), unit)
      ensures ui.info == Totals(FormatDistance(S.TotalDistance(measure.dist, measure.State()), unit), |measure.points|)
      ensures ui.undoDisplay == ui.resetDisplay == Display(measure.HasContent())
      ensures ui.newLineDisplay == Display(|measure.points| >= 2)
    {
      currentUnit := unit;
      measure.SetUnit(unit);
      UpdateUi();
    }

    /** A press of the unit button: toggle the unit, then hand the new unit to onUnitChange. */
    method UnitButtonClick()
      requires Valid()
      modifies this, ui, measure
      ensures Valid()
      ensures ui.currentUnit == ToggledUnit(old(ui.currentUnit)) && currentUnit == ui.currentUnit
      ensures ui.unitButtonText == currentUnit
      ensures measure.State() == S.SetUnit(measure.dist, old(measure.State()), currentUnit)
      ensures ui.info == Totals(FormatDistance(S.TotalDistance(measure.dist, measure.State()), currentUnit), |measure.points|)
      ensures ui.undoDisplay == ui.resetDisplay == Display(measure.HasContent())
      ensures ui.newLineDisplay == Display(|measure.points| >= 2)
    {
      ui.ToggleUnit();
      OnUnitChange(ui.currentUnit);
    }

    /** The onUndo callback: only the manager changes; the readout waits for the next frame or tap. */
    method OnUndo()
      requires Valid()
      modifies measure
      ensures Valid() && measure.State() == S.UndoLastPoint(measure.dist, old(measure.State()))
    {
      measure.UndoLastPoint();
    }

    method OnReset()
      requires Valid()
      modifies measure
      ensures Valid() && measure.State() == S.ResetAll(old(measure.State()))
    {
      measure.ResetAll();
    }

    method OnNewLine()
      requires Valid()
      modifies measure
      ensures Valid() && measure.State() == S.StartNewLine(old(measure.State()))
    {
      measure.StartNewLine();
    }
  }
}
