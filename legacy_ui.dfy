/**
 * The legacy on-screen controls (legacy/js/modules/ui.js): the unit button and its unit
 * cycle, the info panel and the display state of the undo, reset and new-line buttons.
 * The DOM elements are modelled by the values the code writes into them.
 */
module LegacyUi {
  import opened Format

  /** The info panel's text. */
  datatype Readout =
    /** `Total: 0.00 <unit> • 0 pts` */
    | Idle(unit: string)
    /** `Total: <formatted total> • <count> pts` */
    | Totals(total: Reading, count: nat)

  const FLEX := "flex"
  const HIDDEN := "none"

  /** The three units the unit button offers. */
  predicate IsLegacyUnit(u: string) {
    u == "m" || u == "ft" || u == "in"
  }

  /** toggleUnit's choice of the next unit: m, then ft, then in, and back to m from anything else. */
  function ToggledUnit(u: string): (r: string)
    ensures IsLegacyUnit(r)
    ensures u != "m" && u != "ft" ==> r == "m"
  {
    if u == "m" then "ft" else if u == "ft" then "in" else "m"
  }

  /** Each toggle moves to a different unit and three toggles come back to the start. */
  lemma ToggleCycle(u: string)
    requires IsLegacyUnit(u)
    ensures ToggledUnit(u) != u && ToggledUnit(ToggledUnit(u)) != u
    ensures ToggledUnit(ToggledUnit(ToggledUnit(u))) == u
  {
  }

  /** The display value of a button that is shown exactly when `shown` holds. */
  function Display(shown: bool): (d: string)
    ensures d == FLEX <==> shown
    ensures d == HIDDEN <==> !shown
  {
    if shown then FLEX else HIDDEN
  }

  class Ui {
    var currentUnit: string
    var unitButtonText: string
    var undoDisplay: string
    var resetDisplay: string
    var newLineDisplay: string
    var info: Readout

    /** The unit button always shows one of the three units: the current one. */
    ghost predicate Valid()
      reads this
    {
      IsLegacyUnit(currentUnit) && unitButtonText == currentUnit
    }

    /** The constructor followed by init(): the unit is metres and the three controls start hidden. */
    constructor ()
      ensures Valid()
      ensures currentUnit == "m" && unitButtonText == "m"
      ensures undoDisplay == HIDDEN && resetDisplay == HIDDEN && newLineDisplay == HIDDEN
      ensures info == Idle("m")
    {
      currentUnit := "m";
      unitButtonText := "m";
      undoDisplay := HIDDEN;
      resetDisplay := HIDDEN;
      newLineDisplay := HIDDEN;
      info := Idle("m");
    }

    method ToggleUnit()
      modifies this
      ensures currentUnit == ToggledUnit(old(currentUnit)) && unitButtonText == currentUnit
      ensures Valid()
      ensures undoDisplay == old(undoDisplay) && resetDisplay == old(resetDisplay)
      ensures newLineDisplay == old(newLineDisplay) && info == old(info)
    {
      if currentUnit == "m" {
        currentUnit := "ft";
      } else if currentUnit == "ft" {
        currentUnit := "in";
      } else {
        currentUnit := "m";
      }
      unitButtonText := currentUnit;
    }

    method UpdateInfo(text: Readout)
      modifies this
      ensures info == text
      ensures currentUnit == old(currentUnit) && unitButtonText == old(unitButtonText)
      ensures undoDisplay == old(undoDisplay) && resetDisplay == old(resetDisplay)
      ensures newLineDisplay == old(newLineDisplay)
    {
      info := text;
    }

    /** Undo and reset share one display value, shown iff `hasPoints`; new-line is shown iff `canNewLine`. */
    method UpdateControls(hasPoints: bool, canNewLine: bool)
      modifies this
      ensures undoDisplay == resetDisplay == Display(hasPoints)
      ensures newLineDisplay == Display(canNewLine)
      ensures currentUnit == old(currentUnit) && unitButtonText == old(unitButtonText) && info == old(info)
    {
      var shown := if hasPoints then FLEX else HIDDEN;
      resetDisplay := shown;
      undoDisplay := shown;
      newLineDisplay := if canNewLine then FLEX else HIDDEN;
    }
  }
}
