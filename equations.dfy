/** The bank of twelve RMR equations (tdee.js, class `EnergyEquation` and the
    `*_RMR_EQUATION*` constants), their rounding to whole kcal, and the two
    lists the selector chooses from. */
module Equations {
  import opened Wrappers
  import opened Users

  /** One constructor per equation constant. Display names are shared between
      variants, so an equation is identified by its constructor. */
  datatype Equation =
    | TinsleyFfm | TinsleyBw
    | TenHaafFfm | TenHaafBw
    | MifflinFfm | MifflinBw
    | Cunningham
    | OwenFfm | OwenBw
    | MullerFfm | MullerBw
    | DeLorenzo

  /** The display name each constant is built with (spelling as coded). */
  function Name(e: Equation): (name: string)
  {
    match e
    case TinsleyFfm | TinsleyBw => "Tinsley"
    case TenHaafFfm | TenHaafBw => "ten Haaf"
    case MifflinFfm | MifflinBw => "Mifflin-St. Joer"
    case Cunningham => "Cunnigham"
    case OwenFfm | OwenBw => "Owen"
    case MullerFfm | MullerBw => "Muller"
    case DeLorenzo => "De Lorenzo"
  }

  /** Names do not identify equations: the FFM and body-weight variants of
      one published model share a name, and only those do. */
  lemma NamesAreShared(e1: Equation, e2: Equation)
    ensures Name(TinsleyFfm) == Name(TinsleyBw) && TinsleyFfm != TinsleyBw
    ensures e1 != e2 && Name(e1) == Name(e2) ==> (e1 in FfmEquationList <==> e2 in BwEquationList)
  {
    // Comparing lengths first keeps the string comparisons cheap: the seven
    // names have seven different lengths.
    assert Name(e1) == Name(e2) ==> |Name(e1)| == |Name(e2)|;
  }

  /** The equations whose estimate dereferences `user.bodyFat`. */
  predicate ReadsBodyFat(e: Equation)
  {
    match e
    case TinsleyFfm | TenHaafFfm | MifflinFfm | Cunningham | OwenFfm | MullerFfm => true
    case _ => false
  }

  /** An equation can be evaluated for a user unless it reads a body-fat
      measurement the user does not have (the source would throw on
      `undefined.getFFM()`). */
  predicate CanEvaluate(e: Equation, u: User)
  {
    ReadsBodyFat(e) ==> u.bodyFat.Some?
  }

  /** The unrounded RMR estimate in kcal/day, with the coefficients as coded. */
  function Estimate(e: Equation, u: User): (rmr: real)
    requires CanEvaluate(e, u)
  {
    var sex := if u.isMale then 1.0 else 0.0;
    var age := u.ageYears as real;
    var w := u.weightKg;
    var h := u.heightCm;
    match e
    case TinsleyFfm => 25.9 * FatFreeMass(u.bodyFat.value) + 284.0
    case TinsleyBw => 24.8 * w + 10.0
    case TenHaafFfm => 0.24 * (95.27 * FatFreeMass(u.bodyFat.value) + 2026.16)
    case TenHaafBw => 0.24 * ((49.94 * w + 24.59 * h - 34.01 * age + 799.26 * sex) + 122.5)
    case MifflinFfm => 19.7 * FatFreeMass(u.bodyFat.value) + 413.0
    case MifflinBw => 9.99 * w + 6.25 * h - 4.92 * age + 166.0 * sex - 161.0
    case Cunningham => 21.6 * FatFreeMass(u.bodyFat.value) + 370.0
    case OwenFfm =>
      if u.isMale then 22.3 * FatFreeMass(u.bodyFat.value) + 290.0
      else 19.7 * FatFreeMass(u.bodyFat.value) + 334.0
    case OwenBw =>
      if u.isMale then 879.0 + 10.2 * w
      else if u.athleteType.Some? then 50.4 + 21.1 * w
      else 795.0 + 7.18 * w
    case MullerFfm =>
      239.0 * (0.05 * FatFreeMass(u.bodyFat.value) + 0.04 * FatMass(u.bodyFat.value) + 0.87 * sex - 0.01 * age + 2.99)
    case MullerBw => 239.0 * (0.05 * w + 1.0 * sex - 0.01 * age + 3.21)
    case DeLorenzo => 9.0 * w + 11.7 * h - 857.0
  }

  /** JavaScript's `Math.round`: the nearest integer, halves rounded up. */
  function Round(x: real): (n: int)
    ensures n as real - 0.5 <= x < n as real + 0.5
  {
    (x + 0.5).Floor
  }

  /** `Round` is the only integer within half a unit (halves going up). */
  lemma RoundIsUnique(x: real, n: int)
    requires n as real - 0.5 <= x < n as real + 0.5
    ensures Round(x) == n
  {
  }

  /** `Round` is monotonic. */
  lemma RoundMonotonic(x: real, y: real)
    requires x <= y
    ensures Round(x) <= Round(y)
  {
  }

  /** `getEstimateOfRMR`: the estimate rounded to whole kcal. */
  function EstimateOfRmr(e: Equation, u: User): (rmr: int)
    requires CanEvaluate(e, u)
    ensures rmr as real - 0.5 <= Estimate(e, u) < rmr as real + 0.5
  {
    Round(Estimate(e, u))
  }

  /** `getEstimateOfTDEE`: the unrounded estimate times the activity
      multiplier, rounded to whole kcal. */
  function EstimateOfTdee(e: Equation, u: User): (tdee: int)
    requires CanEvaluate(e, u)
    ensures tdee as real - 0.5 <= Estimate(e, u) * ActivityMultiplier(u.activityLevel) < tdee as real + 0.5
  {
    Round(Estimate(e, u) * ActivityMultiplier(u.activityLevel))
  }

  /** For a non-negative estimate the TDEE is never below the RMR, and for an
      unrecognised activity level the two coincide. */
  lemma TdeeNotBelowRmr(e: Equation, u: User)
    requires CanEvaluate(e, u) && Estimate(e, u) >= 0.0
    ensures EstimateOfRmr(e, u) <= EstimateOfTdee(e, u)
    ensures u.activityLevel !in ActivityLevels ==> EstimateOfTdee(e, u) == EstimateOfRmr(e, u)
  {
    RoundNotBelowScaled(Estimate(e, u), ActivityMultiplier(u.activityLevel));
  }

  /** Scaling a non-negative value by a factor of at least 1 does not lower
      its rounding, and scaling by exactly 1 keeps it. */
  lemma RoundNotBelowScaled(x: real, mult: real)
    requires 0.0 <= x && 1.0 <= mult
    ensures Round(x) <= Round(x * mult)
    ensures mult == 1.0 ==> Round(x * mult) == Round(x)
  {
    assert x <= x * mult by {
      assert x * (mult - 1.0) >= 0.0;
    }
    RoundMonotonic(x, x * mult);
  }

  /** Equations usable when fat-free mass is known, in display order. */
  const FfmEquationList: seq<Equation> := [TinsleyFfm, TenHaafFfm, MifflinFfm, Cunningham, OwenFfm, MullerFfm]

  /** Equations usable when fat-free mass is unknown, in display order. */
  const BwEquationList: seq<Equation> := [TinsleyBw, DeLorenzo, TenHaafBw, MifflinBw, OwenBw, MullerBw]

  /** Every equation, in the order the explanation page lists them. */
  const AllEquations: seq<Equation> := [
    TinsleyFfm, TinsleyBw, TenHaafFfm, TenHaafBw, MifflinFfm, MifflinBw,
    Cunningham, OwenFfm, OwenBw, MullerFfm, MullerBw, DeLorenzo]

  /** No element occurs twice. */
  predicate Distinct<T(==)>(s: seq<T>)
  {
    forall i, j | 0 <= i < j < |s| :: s[i] != s[j]
  }

  /** Neither list repeats an equation, and each has six entries. */
  lemma ListsAreDuplicateFree()
    ensures Distinct(FfmEquationList) && |FfmEquationList| == 6
    ensures Distinct(BwEquationList) && |BwEquationList| == 6
  {
  }

  /** Every equation is in exactly one of the two lists, and the whole bank
      holds each equation once: the lists partition the bank. */
  lemma BankIsPartitioned(e: Equation)
    ensures e in FfmEquationList <==> e !in BwEquationList
    ensures e in AllEquations
    ensures Distinct(AllEquations) && |AllEquations| == |FfmEquationList| + |BwEquationList|
  {
  }

  /** The FFM list is exactly the set of equations that read the body-fat
      measurement; the body-weight list is exactly the rest. */
  lemma FfmListIsMeasurementEquations(e: Equation)
    ensures e in FfmEquationList <==> ReadsBodyFat(e)
    ensures e in BwEquationList <==> !ReadsBodyFat(e)
  {
  }

  /** The list the calculator considers for a user. */
  function ApplicableList(u: User): (eqs: seq<Equation>)
    ensures forall e <- eqs :: CanEvaluate(e, u)
    ensures eqs == FfmEquationList || eqs == BwEquationList
  {
    if u.bodyFat.Some? then FfmEquationList else BwEquationList
  }

  /** Body-weight equations never look at the measurement: replacing or
      removing it leaves their estimate unchanged. */
  lemma BodyWeightEquationsIgnoreMeasurement(e: Equation, u: User, m: Option<BodyFatMeasurement>)
    requires e in BwEquationList
    ensures Estimate(e, u) == Estimate(e, u.(bodyFat := m))
  {
  }

  /** FFM equations take the weight from the measurement, not from the
      profile: changing the profile's weight leaves them unchanged. */
  lemma FfmEquationsIgnoreProfileWeight(e: Equation, u: User, w: real)
    requires e in FfmEquationList && u.bodyFat.Some?
    ensures Estimate(e, u) == Estimate(e, u.(weightKg := w))
  {
  }

  /** Every body-weight equation strictly increases with body weight, all
      other inputs fixed. */
  lemma BodyWeightEstimatesGrowWithWeight(e: Equation, u: User, w: real)
    requires e in BwEquationList && u.weightKg < w
    ensures Estimate(e, u) < Estimate(e, u.(weightKg := w))
  {
  }

  /** Every FFM equation strictly increases with fat-free mass at a fixed
      measured weight, i.e. as the body-fat fraction falls. Müller's also
      reads the fat mass, but with a smaller coefficient than the fat-free
      mass, so it grows too. */
  lemma FfmEstimatesGrowWithLeanMass(e: Equation, u: User, f: real)
    requires e in FfmEquationList && u.bodyFat.Some?
    requires u.bodyFat.value.userWeightKg > 0.0 && f < u.bodyFat.value.measurement
    ensures Estimate(e, u) < Estimate(e, u.(bodyFat := Some(u.bodyFat.value.(measurement := f))))
  {
    var m := u.bodyFat.value;
    var m' := m.(measurement := f);
    var w, d := m.userWeightKg, m.measurement - f;
    assert w * d > 0.0;
    assert FatFreeMass(m') - FatFreeMass(m) == w * d by {
      assert FatFreeMass(m) == w * (1.0 - m.measurement);
      assert FatFreeMass(m') == w * (1.0 - f);
    }
    assert FatMass(m') - FatMass(m) == -(w * d);
  }
}
