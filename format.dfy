/**
 * formatDistance (legacy/js/modules/utils.js): a length in metres becomes an amount, a
 * number of decimals and a unit suffix. Feet and inches are converted; every other unit
 * name, including "cm", is written in metres. The digits that toFixed would produce are
 * left out: the model keeps the exact amount and the number of decimals asked for.
 */
module Format {

  const FEET_PER_METRE: real := 3.28084
  const INCHES_PER_METRE: real := 39.3701

  datatype Reading = Reading(amount: real, decimals: nat, suffix: string)

  function FormatDistance(meters: real, unit: string): (r: Reading)
    ensures r.suffix == "ft" || r.suffix == "in" || r.suffix == "m"
    ensures r.suffix != "m" <==> unit == "ft" || unit == "in"
    ensures r.suffix != "m" ==> r.suffix == unit
    ensures r.decimals == (if unit == "in" then 1 else 2)
    ensures meters >= 0.0 ==> r.amount >= 0.0
  {
    if unit == "ft" then Reading(meters * FEET_PER_METRE, 2, "ft")
    else if unit == "in" then Reading(meters * INCHES_PER_METRE, 1, "in")
    else Reading(meters, 2, "m")
  }

  /** A unit name formatDistance does not know shows the length itself, in metres. */
  lemma UnknownUnitShowsMetres(meters: real, unit: string)
    requires unit != "ft" && unit != "in"
    ensures FormatDistance(meters, unit) == Reading(meters, 2, "m")
    ensures FormatDistance(meters, unit) == FormatDistance(meters, "m")
  {
  }

  /** Conversion is linear in the length: a longer length never reads as less. */
  lemma FormatIsMonotone(a: real, b: real, unit: string)
    requires 0.0 <= a <= b
    ensures FormatDistance(a, unit).amount <= FormatDistance(b, unit).amount
  {
  }
}
