/** The height conversion `convertFeetAndInchesToInches` (tdee.js): feet and
    inches as parsed from the form, where a missing or unparsable field
    (`NaN`) is `None`. */
module Units {
  import opened Wrappers

  /** A field that is missing, zero or negative counts as 0. */
  function Clamp(v: Option<int>): (r: nat)
    ensures v.Some? && v.value > 0 ==> r == v.value
    ensures v.None? || v.value <= 0 ==> r == 0
  {
    if v.None? || v.value < 0 || v.value == 0 then 0 else v.value
  }

  /** Total height in inches: twelve per foot plus the inches. */
  function FeetAndInchesToInches(feet: Option<int>, inches: Option<int>): (total: nat)
  {
    12 * Clamp(feet) + Clamp(inches)
  }

  /** For a proper height (feet >= 0, 0 <= inches < 12) the conversion is
      undone by splitting the total back into feet and inches, as the
      display string does with floor division and remainder by 12. */
  lemma FeetAndInchesRoundTrip(feet: nat, inches: nat)
    requires inches < 12
    ensures FeetAndInchesToInches(Some(feet), Some(inches)) / 12 == feet
    ensures FeetAndInchesToInches(Some(feet), Some(inches)) % 12 == inches
    ensures FeetAndInchesToInches(None, Some(inches)) == FeetAndInchesToInches(Some(0), Some(inches)) == inches
  {
  }
}
