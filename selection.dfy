/** The recommendation procedure `getOptimalEquationForTDEE` (tdee.js): a
    decision tree on whether fat-free mass is known, the athlete type, the
    measurement technique and sex. */
module Selection {
  import opened Wrappers
  import opened Users
  import opened Equations

  /** The inputs the tree leaves undecided (the source's `optimalEq` stays
      `undefined`): an athlete type other than Physique or Sport, or a
      non-athlete whose measurement technique is not one of the four known. */
  predicate Uncovered(u: User)
  {
    || (u.athleteType.Some? && u.athleteType.value != AthletePhysique && u.athleteType.value != AthleteSport)
    || (u.bodyFat.Some? && u.athleteType.None? && u.bodyFat.value.technique !in Techniques)
  }

  /** The recommended equation, or `None` when the tree has no leaf for the
      user. A recommendation is always drawn from the list that matches what
      the user knows, so an FFM equation is never picked without a
      measurement. */
  function OptimalEquation(u: User): (r: Option<Equation>)
    ensures r.None? <==> Uncovered(u)
    ensures r.Some? && u.bodyFat.Some? ==> r.value in FfmEquationList
    ensures r.Some? && u.bodyFat.None? ==> r.value in BwEquationList
    ensures r.Some? ==> CanEvaluate(r.value, u)
  {
    var knowsFfm := u.bodyFat.Some?;
    var isAthlete := u.athleteType.Some?;
    var isSport := u.athleteType == Some(AthleteSport);
    var isPhysique := u.athleteType == Some(AthletePhysique);
    if knowsFfm then
      if isAthlete then
        if isPhysique then Some(TinsleyFfm)
        else if isSport then Some(TenHaafFfm)
        else None
      else
        var technique := u.bodyFat.value.technique;
        if technique == TechniqueSkinfold then Some(MifflinFfm)
        else if technique == TechniqueDxa then Some(Cunningham)
        else if technique == TechniqueUww then Some(OwenFfm)
        else if technique == TechniqueBia then Some(MullerFfm)
        else None
    else
      if isAthlete then
        if isPhysique then Some(TinsleyBw)
        else if isSport then (if u.isMale then Some(DeLorenzo) else Some(TenHaafBw))
        else None
      else
        if u.isMale then Some(MifflinBw) else Some(OwenBw)
  }

  /** One leaf of the recommendation table: the profile features it requires
      (`None` in `technique` or `male` means "any") and the equation it
      recommends. `athlete == None` means "not an athlete". */
  datatype Rule = Rule(ffmKnown: bool, athlete: Option<string>, technique: Option<string>, male: Option<bool>, choice: Equation)

  predicate Matches(rule: Rule, u: User)
  {
    && u.bodyFat.Some? == rule.ffmKnown
    && u.athleteType == rule.athlete
    && (rule.technique.Some? ==> u.bodyFat.Some? && u.bodyFat.value.technique == rule.technique.value)
    && (rule.male.Some? ==> u.isMale == rule.male.value)
  }

  /** The recommendations as a flat table, one row per leaf of the tree. */
  const RecommendationTable: seq<Rule> := [
    // fat-free mass known
    Rule(true, Some(AthletePhysique), None, None, TinsleyFfm),
    Rule(true, Some(AthleteSport), None, None, TenHaafFfm),
    Rule(true, None, Some(TechniqueSkinfold), None, MifflinFfm),
    Rule(true, None, Some(TechniqueDxa), None, Cunningham),
    Rule(true, None, Some(TechniqueUww), None, OwenFfm),
    Rule(true, None, Some(TechniqueBia), None, MullerFfm),
    // fat-free mass unknown
    Rule(false, Some(AthletePhysique), None, None, TinsleyBw),
    Rule(false, Some(AthleteSport), None, Some(true), DeLorenzo),
    Rule(false, Some(AthleteSport), None, Some(false), TenHaafBw),
    Rule(false, None, None, Some(true), MifflinBw),
    Rule(false, None, None, Some(false), OwenBw)
  ]

  /** At most one row of the table applies to any user. */
  lemma TableRowsAreExclusive(u: User, i: nat, j: nat)
    requires i < j < |RecommendationTable|
    ensures !(Matches(RecommendationTable[i], u) && Matches(RecommendationTable[j], u))
  {
  }

  /** The tree agrees with the table: a row applies exactly when the tree
      recommends something, and then the tree recommends that row's
      equation. */
  lemma SelectorFollowsTable(u: User)
    ensures OptimalEquation(u).Some? <==> exists i | 0 <= i < |RecommendationTable| :: Matches(RecommendationTable[i], u)
    ensures forall i | 0 <= i < |RecommendationTable| && Matches(RecommendationTable[i], u) ::
              OptimalEquation(u) == Some(RecommendationTable[i].choice)
  {
    var t := RecommendationTable;
    match OptimalEquation(u)
    case None =>
      forall i | 0 <= i < |t| ensures !Matches(t[i], u) {
        RowRecommends(u, i);
      }
    case Some(e) =>
      var i := MatchingRow(u);
      assert Matches(t[i], u);
      forall j | 0 <= j < |t| && Matches(t[j], u) ensures OptimalEquation(u) == Some(t[j].choice) {
        RowRecommends(u, j);
      }
  }

  /** Whatever row applies, the tree recommends its equation. */
  lemma RowRecommends(u: User, i: nat)
    requires i < |RecommendationTable|
    ensures Matches(RecommendationTable[i], u) ==> OptimalEquation(u) == Some(RecommendationTable[i].choice)
  {
  }

  /** The row of the table that applies to a user the tree covers. */
  lemma MatchingRow(u: User) returns (i: nat)
    requires !Uncovered(u)
    ensures i < |RecommendationTable| && Matches(RecommendationTable[i], u)
  {
    var t := RecommendationTable;
    if u.bodyFat.Some? {
      if u.athleteType == Some(AthletePhysique) { i := 0; }
      else if u.athleteType == Some(AthleteSport) { i := 1; }
      else {
        var technique := u.bodyFat.value.technique;
        if technique == TechniqueSkinfold { i := 2; }
        else if technique == TechniqueDxa { i := 3; }
        else if technique == TechniqueUww { i := 4; }
        else { i := 5; }
      }
    } else {
      if u.athleteType == Some(AthletePhysique) { i := 6; }
      else if u.athleteType == Some(AthleteSport) { i := if u.isMale then 7 else 8; }
      else { i := if u.isMale then 9 else 10; }
    }
  }

  /** The recommendation is a function of the four categories alone: users
      who agree on whether FFM is known, athlete type, technique (when FFM is
      known) and sex get the same answer, whatever their numbers. */
  lemma SelectionDependsOnlyOnCategories(u1: User, u2: User)
    requires u1.bodyFat.Some? == u2.bodyFat.Some?
    requires u1.athleteType == u2.athleteType && u1.isMale == u2.isMale
    requires u1.bodyFat.Some? ==> u1.bodyFat.value.technique == u2.bodyFat.value.technique
    ensures OptimalEquation(u1) == OptimalEquation(u2)
  {
  }

  /** The body-weight Müller equation is never recommended; every other
      equation is recommended for some user. */
  lemma WhichEquationsAreRecommended(e: Equation, u: User)
    ensures OptimalEquation(u) != Some(MullerBw)
    ensures e != MullerBw ==> exists v :: OptimalEquation(v) == Some(e)
  {
    if e != MullerBw {
      var i: nat := match e
        case TinsleyFfm => 0 case TenHaafFfm => 1 case MifflinFfm => 2
        case Cunningham => 3 case OwenFfm => 4 case MullerFfm => 5
        case TinsleyBw => 6 case DeLorenzo => 7 case TenHaafBw => 8
        case MifflinBw => 9 case OwenBw => 10;
      assert RecommendationTable[i].choice == e;
      var v := RowExample(i);
      RowRecommends(v, i);
    }
  }

  /** A user to whom a given row of the table applies. */
  function RowExample(i: nat): (v: User)
    requires i < |RecommendationTable|
    ensures Matches(RecommendationTable[i], v)
  {
    var rule := RecommendationTable[i];
    var m := if rule.ffmKnown then Some(BodyFatMeasurement(0.2, if rule.technique.Some? then rule.technique.value else TechniqueSkinfold, 70.0)) else None;
    User(170.0, 70.0, rule.male == Some(true), ActivitySedentary, 30, rule.athlete, m)
  }
}
