# TDEE equation selection and estimation, modelled in Dafny

This project models the estimation engine of a client-side TDEE
(Total Daily Energy Expenditure) calculator (`tdee.js`). The engine has five parts:

- **Measurement**: a body-fat measurement has a fraction, a technique and the
  weight it was taken at. Fat mass and fat-free mass (FFM) are derived from it.
- **User**: the profile is height, weight, sex, activity level, age, an
  optional athlete type and an optional measurement. The activity multiplier
  comes from the activity level.
- **Equation bank**: there are twelve resting metabolic rate (RMR) equations
  with the coefficients as coded. They are split into an FFM list and a
  body-weight (BW) list. RMR is the rounded estimate. TDEE is the rounded
  estimate times the multiplier.
- **Selector**: `getOptimalEquationForTDEE` is a decision tree on whether FFM
  is known, the athlete type, the measurement technique and sex.
- **Comparison listing**: `buildListOfMultipleTDEE` lists the recommended
  equation first, then the other members of the applicable list.

Modules:

- `Wrappers` holds `Option`.
- `Users` holds the measurement, the user and the activity multiplier.
- `Equations` holds the bank, Math.round and the lists.
- `Selection` holds the tree and a flat recommendation table that serves as
  its reference definition.
- `Comparison` holds the listing: a specification function and the looping
  method.
- `Scenarios` holds worked examples.
- `Units` holds the feet/inches height clamp.

The source's classes never change their fields after construction, so they
are datatypes. The numbers are exact `real`s. Activity levels, athlete types and
techniques stay strings, because the source falls back on a value
it does not recognise. The null fields (`athleteType`, `bodyFat`) become `Option`.
The tree leaves `optimalEq` undefined on some inputs. The model returns `None` there.

Each of these equations has its own constructor: Tinsley, ten Haaf, Mifflin,
Owen and Müller appear in both an FFM and a BW version with the same display
name. Names are spelled as coded ("Mifflin-St. Joer", "Cunnigham").

Evaluating an FFM equation on a user without a measurement throws in the
source: `bodyFat` is then `undefined`, so the call is `undefined.getFFM()`.
Here that case is the precondition `CanEvaluate`. The model proves that the
selector and the listing never ask for it.

Facts about the code that the model keeps:

- The technique strings compared are `"UWW"` and `"BIA"` (tdee.js:370, 375).
- For a 75 kg man measured at 15% body fat by DXA, Cunningham gives exactly
  1747 kcal: 21.6 × 63.75 + 370 = 1747.
- The `plainTextEquation` strings differ from the coded coefficients in
  places (tdee.js:165-170, 264-271): ten Haaf is displayed with 0.239/95.272
  and coded with 0.24/95.27, and Müller's displayed coefficients are longer
  than the coded ones. The model uses the coded coefficients.

## Model

| member | source | states |
|---|---|---|
| `Users.FatMass` | tdee.js:28-31 | for a fraction in [0,1] and a non-negative weight, fat mass lies between 0 and the weight |
| `Users.FatFreeMass` | tdee.js:39-44 | fat-free mass equals weight × (1 − fraction) |
| `Users.MassesAddUp` | tdee.js:28-44 | fat mass plus fat-free mass is the measured weight |
| `Users.FatFreeMassBounds` | tdee.js:39-44 | for a fraction in [0,1] and a non-negative weight, fat-free mass lies in [0, weight] |
| `Users.FatFreeMassShrinks` | tdee.js:39-44 | at a non-negative weight, fat-free mass does not grow as the fraction grows |
| `Users.UserMassesAddUp` | tdee.js:811-823 | when the measurement was taken at the profile's weight (as the form handler builds it), fat plus fat-free mass is the user's weight |
| `Users.ActivityMultiplier` | tdee.js:81-97 | 1.2, 1.375, 1.55, 1.725 for Sedentary, Lightly Active, Active, Very Active; exactly 1 if and only if the level is none of these |
| `Users.MultiplierGrowsWithActivity` | tdee.js:81-97 | the multiplier is at least 1 and strictly increases from Sedentary to Very Active |
| `Equations.Name` | tdee.js:149-293 | the display name each equation is constructed with, spelled as coded; no contract, its meaning is stated by `NamesAreShared` |
| `Equations.Estimate` | tdee.js:149-296 | the twelve estimate lambdas, coefficients as coded; no contract, pinned by the lemmas below and the scenarios |
| `Equations.NamesAreShared` | tdee.js:149-296 | two different equations can share a display name, and when they do one is the FFM and the other the BW variant |
| `Equations.Round` | tdee.js:126 | Math.round gives the integer n with n − 0.5 ≤ x < n + 0.5 |
| `Equations.RoundIsUnique` | tdee.js:126 | that integer is unique |
| `Equations.RoundMonotonic` | tdee.js:126 | rounding is monotonic |
| `Equations.EstimateOfRmr` | tdee.js:125-127 | RMR is the integer nearest the unrounded estimate |
| `Equations.EstimateOfTdee` | tdee.js:133-135 | TDEE is the integer nearest the unrounded estimate times the activity multiplier |
| `Equations.TdeeNotBelowRmr` | tdee.js:125-135 | for a non-negative estimate TDEE ≥ RMR, with equality for an unrecognised activity level |
| `Equations.ListsAreDuplicateFree` | tdee.js:302-322 | each of the FFM and BW lists has six distinct equations |
| `Equations.BankIsPartitioned` | tdee.js:302-340 | every equation is in exactly one of the two lists, and the full list holds all twelve once each |
| `Equations.FfmListIsMeasurementEquations` | tdee.js:149-322 | the FFM list is exactly the equations whose estimate reads `user.bodyFat`; the BW list is exactly the rest |
| `Equations.ApplicableList` | tdee.js:872-878 | the list considered is the FFM list or the BW list, and every member can be evaluated for the user |
| `Equations.BodyWeightEquationsIgnoreMeasurement` | tdee.js:158-296 | a BW equation's estimate does not depend on the measurement |
| `Equations.FfmEquationsIgnoreProfileWeight` | tdee.js:149-273 | an FFM equation takes weight only through the measurement, never from the profile's weight |
| `Equations.BodyWeightEstimatesGrowWithWeight` | tdee.js:158-296 | every BW estimate strictly increases with body weight |
| `Equations.FfmEstimatesGrowWithLeanMass` | tdee.js:149-273 | every FFM estimate strictly increases as the body-fat fraction falls at a fixed positive weight; Müller's too, since its fat-free-mass coefficient exceeds its fat-mass coefficient |
| `Selection.OptimalEquation` | tdee.js:426-486 | no recommendation exactly for an unknown athlete type or for a non-athlete with an unknown technique; a recommendation is from the FFM list when a measurement is present and from the BW list otherwise, so it can always be evaluated |
| `Selection.TableRowsAreExclusive` | tdee.js:434-484 | no two leaves of the recommendation table apply to the same user |
| `Selection.RowRecommends` | tdee.js:426-486 | when a table row applies, the tree recommends that row's equation |
| `Selection.MatchingRow` | tdee.js:426-486 | every user the tree covers is matched by some table row |
| `Selection.SelectorFollowsTable` | tdee.js:426-486 | the tree recommends something exactly when a table row applies, and then it recommends that row's equation; the rows are Physique→Tinsley FFM, Sport→ten Haaf FFM, Skinfold→Mifflin FFM, DXA→Cunningham, UWW→Owen FFM, BIA→Müller FFM with FFM known; Physique→Tinsley BW, Sport male→De Lorenzo, Sport female→ten Haaf BW, non-athlete male→Mifflin BW, non-athlete female→Owen BW without |
| `Selection.SelectionDependsOnlyOnCategories` | tdee.js:428-433 | the recommendation depends only on FFM known, athlete type, technique (when FFM is known) and sex |
| `Selection.WhichEquationsAreRecommended` | tdee.js:426-486 | Müller BW is never recommended; each other equation is recommended for some user |
| `Comparison.Evaluate` | tdee.js:879-890 | an entry names its equation and the highlight flag, and shows the estimate rounded to the nearest kcal: RMR within half a unit of the estimate, TDEE within half a unit of the estimate times the activity multiplier |
| `Comparison.EvaluateAll` | tdee.js:895-899 | the entries name exactly the given equations in order, none is highlighted, and each shows its equation's RMR and TDEE rounded to the nearest kcal |
| `Comparison.Without` | tdee.js:895-899 | the skipped-optimal sequence holds only members of the input other than the optimal equation, and is no longer than the input |
| `Comparison.WithoutAbsent` | tdee.js:895-899 | skipping an equation that is not in the list keeps the whole list |
| `Comparison.WithoutAt` | tdee.js:895-899 | in a duplicate-free list, skipping the k-th member leaves the members before it followed by those after it |
| `Comparison.ListingOfEntries` | tdee.js:879-899 | the recommended equation is first and is the only highlighted entry; every other entry is a list member other than it; every entry holds its own equation's RMR and TDEE |
| `Comparison.ListingOfOrder` | tdee.js:894-899 | the listing is the recommendation followed by the other list members in list order; if it is member k of a duplicate-free list, the order is k, 0, …, k−1, k+1, … |
| `Comparison.ListingOfIsPermutation` | tdee.js:894-899 | when the recommendation is in the list, the listing is a permutation of the list with every member exactly once; otherwise it is the recommendation followed by the whole list |
| `Comparison.ListingFollowsMeasurement` | tdee.js:868-878 | the listing uses the FFM list when a measurement is present and the BW list otherwise |
| `Comparison.ListingShape` | tdee.js:868-899 | with the recommendation in the applicable list, the listing has six entries, each list member once, recommendation first and the others in list order |
| `Comparison.BuildListOfMultipleTdee` | tdee.js:868-899 | the loop that appends the recommended entry and then every non-recommended list member computes exactly the listing specified above |
| `Comparison.ListComparisons` | tdee.js:852-860 | no listing exactly when the tree recommends nothing; otherwise the listing for the recommended equation |
| `Comparison.RecommendedListingCoversList` | tdee.js:852-899 | for every covered user the listing starts with the recommendation and is a six-entry permutation of the applicable list |
| `Scenarios.UntrainedManWithoutMeasurement` | tdee.js:200-207 | 80 kg/180 cm/25-year-old active man: Mifflin BW, estimate 1806.2, RMR 1806, TDEE 2800 (rounding first would give 2799) |
| `Scenarios.FemaleSportAthleteWithoutMeasurement` | tdee.js:177-184 | 60 kg/165 cm/30-year-old sedentary female sport athlete: ten Haaf BW, estimate 1477.428, RMR 1477, TDEE 1773 |
| `Scenarios.UntrainedManWithDxa` | tdee.js:213-216 | 75 kg man with a 15% DXA measurement: FFM 63.75, Cunningham, RMR 1747, a six-entry listing led by Cunningham |
| `Scenarios.UnknownAthleteType` | tdee.js:426-486 | athlete type "Endurance": no recommendation and no listing, with or without a measurement |
| `Units.Clamp` | tdee.js:649-656 | a missing, zero or negative field counts as 0, a positive one as itself |
| `Units.FeetAndInchesToInches` | tdee.js:648-658 | twelve inches per clamped foot plus the clamped inches; no contract, its meaning is stated by `FeetAndInchesRoundTrip` |
| `Units.FeetAndInchesRoundTrip` | tdee.js:648-658 | for feet ≥ 0 and 0 ≤ inches < 12, dividing the total by 12 gives back the feet and the remainder gives back the inches; missing feet count as 0 |

## Left out

- Page and DOM work is not modelled: `setSelectById`, `clearInputByID`, `resetForm`, `numberSystemChange`, `showResults`, `showForm`, `buildOptimalStatement`, `buildDemoStatement`, `buildEquationList`, `buildChart` (Chart.js) and the `innerHTML`/`classList` effects in `buildListOfMultipleTDEE`. They are presentation only. A listing `Entry` stands for one header/content pair.
- `handleSubmission`, `isValidNumericFormControlValue` and `handleSubmissionError` are not modelled. They read and validate raw form fields (`parseInt`, `parseFloat`, `isNaN`). The model takes already-parsed values.
- `roundNumberToSpecifiedDecimalPlace` and the unit conversions (`convertLbsToKg`, `convertKgToLbs`, `convertInchesToCentimeters`, `convertCentimetersToInches`, `convertInchesToString`) are not modelled. They rely on IEEE floating point and belong to the input/display layer. Only the integer clamp `convertFeetAndInchesToInches` is modelled, with unparsable fields (`NaN`) as `None`.
- The global `currentNumberSystem` is UI state and is not modelled.
- The `plainTextEquation` display strings are not modelled; the coefficients are taken as coded.
- Arithmetic is exact `real`. JavaScript doubles only approximate these identities, and Math.round on a double may differ from the exact result near .5.
- `User.isMale` is a `bool`, as the form handler always sets it. In the source the `else if (userIsFemale)` branches leave `optimalEq` undefined (and Owen's RMR at 0) for a non-boolean `isMale`; that case is not modelled.
- The model has an undefined `athleteType` and `null` as the same `None`, as the source's `!= null` test does.
- When the tree recommends nothing the source goes on to fail inside `buildOptimalStatement`. The model stops at `ListComparisons = None` instead.
- `Equations.Estimate`, `Equations.Name` and `Units.FeetAndInchesToInches` have no contract of their own. Their meaning is stated by the lemmas about them and, for the estimates, by the scenarios.
