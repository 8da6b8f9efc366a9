/** The comparison listing built by `buildListOfMultipleTDEE` (tdee.js):
    the recommended equation first, then every other equation of the list
    that applies to the user, each with its RMR and TDEE. The page elements
    it creates are not modelled; an `Entry` stands for one header/content
    pair. */
module Comparison {
  import opened Wrappers
  import opened Users
  import opened Equations
  import opened Selection

  /** One line of the listing; `recommended` is the highlight the source
      adds with the `optimalEq` class. */
  datatype Entry = Entry(equation: Equation, rmr: int, tdee: int, recommended: bool)

  /** An entry shows its equation's estimate for the user rounded to the
      nearest kcal: the RMR within half a unit of the estimate, the TDEE
      within half a unit of the estimate times the activity multiplier. */
  predicate Accurate(u: User, entry: Entry)
  {
    && CanEvaluate(entry.equation, u)
    && entry.rmr as real - 0.5 <= Estimate(entry.equation, u) < entry.rmr as real + 0.5
    && entry.tdee as real - 0.5 <= Estimate(entry.equation, u) * ActivityMultiplier(u.activityLevel) < entry.tdee as real + 0.5
  }

  /** The entry for one equation. */
  function Evaluate(u: User, e: Equation, recommended: bool): (entry: Entry)
    requires CanEvaluate(e, u)
    ensures entry.equation == e && entry.recommended == recommended
    ensures Accurate(u, entry)
  {
    Entry(e, EstimateOfRmr(e, u), EstimateOfTdee(e, u), recommended)
  }

  /** Entries, none highlighted, for a sequence of equations. */
  function EvaluateAll(u: User, eqs: seq<Equation>): (entries: seq<Entry>)
    requires forall e <- eqs :: CanEvaluate(e, u)
    ensures EquationsOf(entries) == eqs
    ensures forall k | 0 <= k < |entries| :: !entries[k].recommended && Accurate(u, entries[k])
  {
    seq(|eqs|, k requires 0 <= k < |eqs| => Evaluate(u, eqs[k], false))
  }

  /** The equations of a listing, in order. */
  function EquationsOf(entries: seq<Entry>): (eqs: seq<Equation>)
    ensures |eqs| == |entries|
    ensures forall k | 0 <= k < |entries| :: eqs[k] == entries[k].equation
  {
    seq(|entries|, k requires 0 <= k < |entries| => entries[k].equation)
  }

  /** The equations of the entries for `eqs` are `eqs`. */
  lemma EquationsOfEvaluateAll(u: User, eqs: seq<Equation>)
    requires forall e <- eqs :: CanEvaluate(e, u)
    ensures EquationsOf(EvaluateAll(u, eqs)) == eqs
  {
  }

  /** `EquationsOf` distributes over concatenation. */
  lemma EquationsOfConcat(a: seq<Entry>, b: seq<Entry>)
    ensures EquationsOf(a + b) == EquationsOf(a) + EquationsOf(b)
  {
  }

  /** `s` with every occurrence of `x` dropped, order kept. */
  function Without<T(==)>(s: seq<T>, x: T): (r: seq<T>)
    ensures forall y <- r :: y in s && y != x
    ensures |r| <= |s|
  {
    if s == [] then []
    else
      var init := Without(s[..|s| - 1], x);
      if s[|s| - 1] == x then init else init + [s[|s| - 1]]
  }

  /** Dropping an element that does not occur changes nothing. */
  lemma {:induction false} WithoutAbsent<T>(s: seq<T>, x: T)
    requires x !in s
    ensures Without(s, x) == s
  {
    if s != [] {
      var init := s[..|s| - 1];
      assert x !in init by { assert forall y <- init :: y in s; }
      WithoutAbsent(init, x);
      assert init + [s[|s| - 1]] == s;
    }
  }

  /** In a duplicate-free sequence, dropping the element at position `k`
      leaves the elements before it followed by those after it. */
  lemma {:induction false} WithoutAt<T>(s: seq<T>, k: nat)
    requires Distinct(s) && k < |s|
    ensures Without(s, s[k]) == s[..k] + s[k + 1..]
  {
    var n := |s| - 1;
    var init := s[..n];
    assert Distinct(init);
    if k == n {
      assert s[k] !in init;
      WithoutAbsent(init, s[k]);
    } else {
      assert init[k] == s[k];
      WithoutAt(init, k);
      assert s[n] != s[k];
      assert init[..k] + init[k + 1..] + [s[n]] == s[..k] + s[k + 1..];
    }
  }

  /** The listing for a recommended equation and a list of equations to
      compare with it. */
  function ListingOf(u: User, optimal: Equation, list: seq<Equation>): (entries: seq<Entry>)
    requires CanEvaluate(optimal, u) && forall e <- list :: CanEvaluate(e, u)
  {
    [Evaluate(u, optimal, true)] + EvaluateAll(u, Without(list, optimal))
  }

  /** What `buildListOfMultipleTDEE` displays for the user and the
      recommended equation. */
  function ComparisonListing(u: User, optimal: Equation): (entries: seq<Entry>)
    requires CanEvaluate(optimal, u)
  {
    ListingOf(u, optimal, ApplicableList(u))
  }

  /** `buildListOfMultipleTDEE`, as the loop the source runs: append the
      recommended entry, then each other entry of the applicable list. */
  method BuildListOfMultipleTdee(u: User, optimal: Equation) returns (entries: seq<Entry>)
    requires CanEvaluate(optimal, u)
    ensures entries == ComparisonListing(u, optimal)
  {
    var considered := ApplicableList(u);
    var first := Evaluate(u, optimal, true);
    entries := [first];
    var i := 0;
    while i < |considered|
      invariant 0 <= i <= |considered|
      invariant forall e <- considered :: CanEvaluate(e, u)
      invariant entries == [first] + EvaluateAll(u, Without(considered[..i], optimal))
    {
      var e := considered[i];
      ghost var done := EvaluateAll(u, Without(considered[..i], optimal));
      ListingStep(u, optimal, considered, i);
      if e != optimal {
        entries := entries + [Evaluate(u, e, false)];
        assert entries == [first] + (done + [Evaluate(u, e, false)]);
      }
      i := i + 1;
    }
    assert considered[..|considered|] == considered;
  }

  /** One iteration of the listing loop: extending the prefix by one
      equation appends its entry unless it is the recommendation. */
  lemma ListingStep(u: User, optimal: Equation, list: seq<Equation>, i: nat)
    requires forall e <- list :: CanEvaluate(e, u)
    requires i < |list|
    ensures EvaluateAll(u, Without(list[..i + 1], optimal)) ==
      EvaluateAll(u, Without(list[..i], optimal)) + (if list[i] == optimal then [] else [Evaluate(u, list[i], false)])
  {
    assert list[..i + 1][..i] == list[..i];
  }

  /** The entries of a listing: the recommended equation comes first and is
      the only highlighted entry; the rest are the other members of the list,
      each entry carrying its own equation's RMR and TDEE. */
  lemma ListingOfEntries(u: User, optimal: Equation, list: seq<Equation>)
    requires CanEvaluate(optimal, u) && forall e <- list :: CanEvaluate(e, u)
    ensures var r := ListingOf(u, optimal, list);
      && |r| >= 1 && r[0].equation == optimal && r[0].recommended
      && (forall j | 1 <= j < |r| :: !r[j].recommended && r[j].equation != optimal && r[j].equation in list)
      && (forall j | 0 <= j < |r| :: CanEvaluate(r[j].equation, u)
            && r[j].rmr == EstimateOfRmr(r[j].equation, u) && r[j].tdee == EstimateOfTdee(r[j].equation, u))
  {
    var r := ListingOf(u, optimal, list);
    var rest := Without(list, optimal);
    forall j | 1 <= j < |r|
      ensures r[j] == Evaluate(u, rest[j - 1], false) && rest[j - 1] in list && rest[j - 1] != optimal
    {
    }
  }

  /** The order of a listing: the recommendation, then the other members of
      the list in list order. When the recommendation is the `k`-th member of
      a duplicate-free list, the listing names the list's members in the
      order k, 0, ..., k-1, k+1, ..., once each. */
  lemma ListingOfOrder(u: User, optimal: Equation, list: seq<Equation>, k: nat)
    requires CanEvaluate(optimal, u) && forall e <- list :: CanEvaluate(e, u)
    ensures EquationsOf(ListingOf(u, optimal, list)) == [optimal] + Without(list, optimal)
    ensures Distinct(list) && k < |list| && list[k] == optimal ==>
      EquationsOf(ListingOf(u, optimal, list)) == [list[k]] + list[..k] + list[k + 1..]
  {
    var first := Evaluate(u, optimal, true);
    var rest := Without(list, optimal);
    assert ListingOf(u, optimal, list) == [first] + EvaluateAll(u, rest);
    EquationsOfConcat([first], EvaluateAll(u, rest));
    assert EquationsOf([first]) == [optimal];
    EquationsOfEvaluateAll(u, rest);
    if Distinct(list) && k < |list| && list[k] == optimal {
      WithoutAt(list, k);
    }
  }

  /** When the recommendation belongs to a duplicate-free list, the listing
      is a permutation of that list: every member appears exactly once and
      the lengths agree. Otherwise the recommendation is an extra first
      entry before the whole list. */
  lemma ListingOfIsPermutation(u: User, optimal: Equation, list: seq<Equation>)
    requires CanEvaluate(optimal, u) && forall e <- list :: CanEvaluate(e, u)
    requires Distinct(list)
    ensures optimal in list ==>
      && multiset(EquationsOf(ListingOf(u, optimal, list))) == multiset(list)
      && |ListingOf(u, optimal, list)| == |list|
      && forall e <- list :: multiset(EquationsOf(ListingOf(u, optimal, list)))[e] == 1
    ensures optimal !in list ==>
      EquationsOf(ListingOf(u, optimal, list)) == [optimal] + list
  {
    var r := ListingOf(u, optimal, list);
    if optimal in list {
      var k :| 0 <= k < |list| && list[k] == optimal;
      ListingOfOrder(u, optimal, list, k);
      assert list == list[..k] + [list[k]] + list[k + 1..];
      assert multiset(EquationsOf(r)) == multiset(list);
      forall e <- list ensures multiset(list)[e] == 1 {
        DistinctCountsOnce(list, e);
      }
    } else {
      ListingOfOrder(u, optimal, list, 0);
      WithoutAbsent(list, optimal);
    }
  }

  /** The comparison listing for a user is built from the FFM list when the
      user has a measurement and from the body-weight list otherwise. */
  lemma ListingFollowsMeasurement(u: User, optimal: Equation)
    requires CanEvaluate(optimal, u)
    ensures ComparisonListing(u, optimal) == ListingOf(u, optimal, if u.bodyFat.Some? then FfmEquationList else BwEquationList)
  {
  }

  /** When the recommendation is in the applicable list, the comparison
      listing names every member of that list exactly once, recommendation
      first and the others in list order. */
  lemma ListingShape(u: User, optimal: Equation)
    requires CanEvaluate(optimal, u)
    ensures var r := ComparisonListing(u, optimal);
      optimal in ApplicableList(u) ==>
      && multiset(EquationsOf(r)) == multiset(ApplicableList(u))
      && |r| == |ApplicableList(u)| == 6
      && forall k | 0 <= k < |ApplicableList(u)| && ApplicableList(u)[k] == optimal ::
           EquationsOf(r) == [optimal] + ApplicableList(u)[..k] + ApplicableList(u)[k + 1..]
  {
    var list := ApplicableList(u);
    ListsAreDuplicateFree();
    ListingOfIsPermutation(u, optimal, list);
    assert |list| == 6;
    forall k | 0 <= k < |list| && list[k] == optimal
      ensures EquationsOf(ComparisonListing(u, optimal)) == [optimal] + list[..k] + list[k + 1..]
    {
      ListingOfOrder(u, optimal, list, k);
    }
  }

  /** In a duplicate-free sequence every member occurs exactly once. */
  lemma {:induction false} DistinctCountsOnce<T>(s: seq<T>, x: T)
    requires Distinct(s) && x in s
    ensures multiset(s)[x] == 1
  {
    var n := |s| - 1;
    var init := s[..n];
    assert s == init + [s[n]];
    assert Distinct(init);
    if s[n] == x {
      assert x !in init;
    } else {
      DistinctCountsOnce(init, x);
    }
  }

  /** `displayResults` without the page: the recommendation and its
      listing, or `None` when the tree recommends nothing (where the source
      fails on `optimalEquation.name`). */
  function ListComparisons(u: User): (r: Option<seq<Entry>>)
    ensures r.None? <==> Uncovered(u)
    ensures r.Some? ==> r.value == ComparisonListing(u, OptimalEquation(u).value)
  {
    match OptimalEquation(u)
    case None => None
    case Some(e) => Some(ComparisonListing(u, e))
  }

  /** A recommended user's listing always covers the applicable list exactly,
      recommendation first. */
  lemma RecommendedListingCoversList(u: User)
    requires !Uncovered(u)
    ensures var r := ListComparisons(u).value;
      && r[0].equation == OptimalEquation(u).value
      && multiset(EquationsOf(r)) == multiset(ApplicableList(u))
      && |r| == |ApplicableList(u)| == 6
  {
    var e := OptimalEquation(u).value;
    ListingShape(u, e);
    ListingOfEntries(u, e, ApplicableList(u));
  }
}
