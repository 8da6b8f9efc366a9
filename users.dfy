/** The two value classes of the calculator: a body-fat measurement and the
    user whose RMR and TDEE are estimated (tdee.js, classes
    `BodyFatMeasurement` and `User`). Neither class mutates its fields after
    construction, so both are datatypes here. */
module Users {
  import opened Wrappers

  /** A body-fat determination: `measurement` is the body-fat fraction as a
      decimal (0.17 for 17%), `technique` the name of the method used and
      `userWeightKg` the weight of the person it was taken from. */
  datatype BodyFatMeasurement = BodyFatMeasurement(measurement: real, technique: string, userWeightKg: real)

  /** The person asking for an estimate. `athleteType` is `None` for a
      non-athlete, `bodyFat` is `None` when fat-free mass is unknown. */
  datatype User = User(
    heightCm: real,
    weightKg: real,
    isMale: bool,
    activityLevel: string,
    ageYears: int,
    athleteType: Option<string>,
    bodyFat: Option<BodyFatMeasurement>)

  // Activity levels recognised by the multiplier table.
  const ActivitySedentary: string := "Sedentary"
  const ActivityLightlyActive: string := "Lightly Active"
  const ActivityActive: string := "Active"
  const ActivityVeryActive: string := "Very Active"

  /** The recognised levels, from least to most active. */
  const ActivityLevels: seq<string> := [ActivitySedentary, ActivityLightlyActive, ActivityActive, ActivityVeryActive]

  // Athlete classifications the selector knows about.
  const AthletePhysique: string := "Physique"
  const AthleteSport: string := "Sport"

  // Body-fat measurement techniques the selector knows about.
  const TechniqueSkinfold: string := "Skinfold"
  const TechniqueDxa: string := "DXA"
  const TechniqueUww: string := "UWW"
  const TechniqueBia: string := "BIA"

  const Techniques: seq<string> := [TechniqueSkinfold, TechniqueDxa, TechniqueUww, TechniqueBia]

  /** Fat mass in kg: the share of the measured weight that is fat. */
  function FatMass(m: BodyFatMeasurement): (fm: real)
    ensures 0.0 <= m.measurement <= 1.0 && 0.0 <= m.userWeightKg ==> 0.0 <= fm <= m.userWeightKg
  {
    MulBetween(m.userWeightKg, m.measurement);
    m.userWeightKg * m.measurement
  }

  /** Fat-free mass in kg: the measured weight minus its fat mass. */
  function FatFreeMass(m: BodyFatMeasurement): (ffm: real)
    ensures ffm == m.userWeightKg * (1.0 - m.measurement)
  {
    m.userWeightKg - FatMass(m)
  }

  /** For 0 <= f <= 1, w * f lies between 0 and w. */
  lemma MulBetween(w: real, f: real)
    ensures 0.0 <= f <= 1.0 && 0.0 <= w ==> 0.0 <= w * f <= w
  {
    if 0.0 <= f <= 1.0 && 0.0 <= w {
      assert w * f <= w * 1.0 by {
        assert w * (1.0 - f) >= 0.0;
      }
    }
  }

  /** Fat mass and fat-free mass together make up the measured weight. */
  lemma MassesAddUp(m: BodyFatMeasurement)
    ensures FatMass(m) + FatFreeMass(m) == m.userWeightKg
  {
  }

  /** With a fraction in [0, 1] and a non-negative weight, the fat-free mass
      lies between 0 and the weight. */
  lemma FatFreeMassBounds(m: BodyFatMeasurement)
    requires 0.0 <= m.measurement <= 1.0 && 0.0 <= m.userWeightKg
    ensures 0.0 <= FatFreeMass(m) <= m.userWeightKg
  {
    MulBetween(m.userWeightKg, 1.0 - m.measurement);
  }

  /** At a non-negative weight, the fat-free mass shrinks as the fraction
      grows. */
  lemma FatFreeMassShrinks(m: BodyFatMeasurement, f: real)
    requires 0.0 <= m.userWeightKg && m.measurement <= f
    ensures FatFreeMass(m.(measurement := f)) <= FatFreeMass(m)
  {
    assert m.userWeightKg * (f - m.measurement) >= 0.0;
  }

  /** The profile as the form handler builds it: the measurement, when
      present, was taken at the user's own weight. */
  predicate WellFormed(u: User)
  {
    u.bodyFat.Some? ==> u.bodyFat.value.userWeightKg == u.weightKg
  }

  /** For a well-formed profile, fat and fat-free mass add up to the user's
      weight. */
  lemma UserMassesAddUp(u: User)
    requires WellFormed(u) && u.bodyFat.Some?
    ensures FatMass(u.bodyFat.value) + FatFreeMass(u.bodyFat.value) == u.weightKg
  {
    MassesAddUp(u.bodyFat.value);
  }

  /** The factor that turns RMR into TDEE; an unrecognised activity level
      gets the neutral factor 1. */
  function ActivityMultiplier(level: string): (mult: real)
    ensures level == ActivitySedentary ==> mult == 1.2
    ensures level == ActivityLightlyActive ==> mult == 1.375
    ensures level == ActivityActive ==> mult == 1.55
    ensures level == ActivityVeryActive ==> mult == 1.725
    ensures mult == 1.0 <==> level !in ActivityLevels
  {
    if level == ActivitySedentary then 1.2
    else if level == ActivityLightlyActive then 1.375
    else if level == ActivityActive then 1.55
    else if level == ActivityVeryActive then 1.725
    else 1.0
  }

  /** The multiplier never lowers the estimate, and it strictly grows along
      the recognised levels, from sedentary to very active. */
  lemma {:induction false} MultiplierGrowsWithActivity(i: nat, j: nat)
    requires i < j < |ActivityLevels|
    ensures 1.0 <= ActivityMultiplier(ActivityLevels[i]) < ActivityMultiplier(ActivityLevels[j])
  {
  }
}
