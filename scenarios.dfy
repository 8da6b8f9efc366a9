/** Worked examples: concrete profiles run through the selector, the
    equations and the listing. */
module Scenarios {
  import opened Wrappers
  import opened Users
  import opened Equations
  import opened Selection
  import opened Comparison

  /** A 25-year-old, 180 cm, 80 kg active man who is not an athlete and has
      no measurement is recommended Mifflin-St Jeor (body weight): RMR
      round(1806.2) = 1806 and TDEE round(1806.2 * 1.55) = 2800. Rounding the
      RMR before applying the multiplier would give 2799, so the source's
      order of operations is observable. */
  lemma UntrainedManWithoutMeasurement()
    ensures var u := User(180.0, 80.0, true, ActivityActive, 25, None, None);
      && OptimalEquation(u) == Some(MifflinBw)
      && Estimate(MifflinBw, u) == 1806.2
      && EstimateOfRmr(MifflinBw, u) == 1806
      && EstimateOfTdee(MifflinBw, u) == 2800
      && Round(EstimateOfRmr(MifflinBw, u) as real * ActivityMultiplier(u.activityLevel)) == 2799
  {
  }

  /** A 30-year-old, 165 cm, 60 kg sedentary female sport athlete without a
      measurement is recommended ten Haaf (body weight), evaluated with
      sex = 0: estimate 1477.428, RMR 1477, TDEE 1773. */
  lemma FemaleSportAthleteWithoutMeasurement()
    ensures var u := User(165.0, 60.0, false, ActivitySedentary, 30, Some(AthleteSport), None);
      && OptimalEquation(u) == Some(TenHaafBw)
      && Estimate(TenHaafBw, u) == 1477.428
      && EstimateOfRmr(TenHaafBw, u) == 1477
      && EstimateOfTdee(TenHaafBw, u) == 1773
  {
  }

  /** A 28-year-old, 175 cm, 75 kg active man who is not an athlete and has
      a 15% DXA measurement has 63.75 kg fat-free mass and is recommended
      Cunningham: 21.6 * 63.75 + 370 = 1747 exactly. The listing starts with
      Cunningham and holds the six FFM equations. */
  lemma UntrainedManWithDxa()
    ensures var u := User(175.0, 75.0, true, ActivityActive, 28, None, Some(BodyFatMeasurement(0.15, TechniqueDxa, 75.0)));
      && FatFreeMass(u.bodyFat.value) == 63.75
      && OptimalEquation(u) == Some(Cunningham)
      && EstimateOfRmr(Cunningham, u) == 1747
      && ListComparisons(u).Some?
      && ListComparisons(u).value[0] == Entry(Cunningham, 1747, EstimateOfTdee(Cunningham, u), true)
      && |ListComparisons(u).value| == 6
  {
    var u := User(175.0, 75.0, true, ActivityActive, 28, None, Some(BodyFatMeasurement(0.15, TechniqueDxa, 75.0)));
    var m := u.bodyFat.value;
    assert FatFreeMass(m) == 63.75;
    assert Estimate(Cunningham, u) == 1747.0;
    RoundIsUnique(1747.0, 1747);
    assert OptimalEquation(u) == Some(Cunningham);
    var r := ComparisonListing(u, Cunningham);
    assert ListComparisons(u) == Some(r);
    RecommendedListingCoversList(u);
    ListingOfEntries(u, Cunningham, ApplicableList(u));
    assert r[0] == Entry(Cunningham, 1747, EstimateOfTdee(Cunningham, u), true);
  }

  /** An athlete of a type the tree does not know ("Endurance") gets no
      recommendation and no listing. */
  lemma UnknownAthleteType(m: Option<BodyFatMeasurement>)
    ensures var u := User(170.0, 70.0, true, ActivityActive, 40, Some("Endurance"), m);
      OptimalEquation(u) == None && ListComparisons(u) == None
  {
  }
}
