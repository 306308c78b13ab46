/** The period validator: sort by date range, then compare neighbours only. */
module Periods {
  import opened Text
  import opened Dates
  import opened Model
  import opened Sorting

  /** The sort key (start date, end date). */
  predicate RangeLe(a: BookPeriod, b: BookPeriod) {
    || DateLt(a.startDate, b.startDate)
    || (a.startDate == b.startDate && DateLe(a.endDate, b.endDate))
  }

  lemma RangeLeIsTotalOrder()
    ensures TotalOrder(RangeLe)
  {}

  /** Does `b` start after `a` has ended? */
  predicate After(a: BookPeriod, b: BookPeriod) {
    DateLt(a.endDate, b.startDate)
  }

  predicate Ranged(periods: seq<BookPeriod>) {
    forall i | 0 <= i < |periods| :: DateLe(periods[i].startDate, periods[i].endDate)
  }

  /** Neighbours that follow one another make any two of them follow one another. */
  lemma {:induction false} NeighboursSuffice(sorted: seq<BookPeriod>, i: nat, j: nat)
    requires Ranged(sorted) && i < j < |sorted|
    requires forall k | 0 <= k < |sorted| - 1 :: After(sorted[k], sorted[k + 1])
    ensures After(sorted[i], sorted[j])
    decreases j
  {
    if i < j - 1 {
      NeighboursSuffice(sorted, i, j - 1);
      assert After(sorted[j - 1], sorted[j - 1 + 1]);
    }
  }

  lemma PeriodsIsPairwise(periods: seq<BookPeriod>)
    ensures PeriodsOk(periods) <==> Pairwise(periods, Apart)
  {}

  lemma PeriodsPermuted(a: seq<BookPeriod>, b: seq<BookPeriod>)
    requires multiset(a) == multiset(b)
    ensures PeriodsOk(a) <==> PeriodsOk(b)
    ensures FiscalPeriods(a) == FiscalPeriods(b)
  {
    PeriodsIsPairwise(a);
    PeriodsIsPairwise(b);
    PairwisePermuted(a, b, Apart);
    SameElements(a, b);
  }

  predicate DifferentPeriods(a: BookPeriod, b: BookPeriod) { a.period != b.period }

  lemma ApartDifferent(periods: seq<BookPeriod>)
    requires PeriodsOk(periods)
    ensures Pairwise(periods, DifferentPeriods)
  {}

  ghost predicate Chained(sorted: seq<BookPeriod>) {
    forall k | 0 <= k < |sorted| - 1 :: After(sorted[k], sorted[k + 1])
  }

  lemma ChainedIsApart(sorted: seq<BookPeriod>)
    requires Ranged(sorted) && SortedBy(sorted, RangeLe) && Pairwise(sorted, DifferentPeriods)
    ensures PeriodsOk(sorted) <==> Chained(sorted)
  {
    if Chained(sorted) {
      forall i, j | 0 <= i < |sorted| && 0 <= j < |sorted| && i != j ensures Apart(sorted[i], sorted[j]) {
        if i < j { NeighboursSuffice(sorted, i, j); } else { NeighboursSuffice(sorted, j, i); }
        assert DifferentPeriods(sorted[i], sorted[j]);
      }
    }
    if PeriodsOk(sorted) {
      forall k | 0 <= k < |sorted| - 1 ensures After(sorted[k], sorted[k + 1]) {
        assert Apart(sorted[k], sorted[k + 1]);
        assert RangeLe(sorted[k], sorted[k + 1]);
      }
    }
  }

  /** Checking neighbours of the sorted list decides the question for all pairs of the given list. */
  lemma NeighbourCheckDecides(periods: seq<BookPeriod>)
    requires Ranged(periods) && Pairwise(periods, DifferentPeriods)
    ensures PeriodsOk(periods) <==> Chained(Sort(periods, RangeLe))
    ensures SortedBy(Sort(periods, RangeLe), RangeLe) && Ranged(Sort(periods, RangeLe))
  {
    var sorted := Sort(periods, RangeLe);
    RangeLeIsTotalOrder();
    SortSorted(periods, RangeLe);
    SameElements(periods, sorted);
    forall i | 0 <= i < |sorted| ensures sorted[i] in periods { assert sorted[i] in sorted; }
    PeriodsPermuted(periods, sorted);
    PairwisePermuted(periods, sorted, DifferentPeriods);
    ChainedIsApart(sorted);
  }

  datatype PeriodVerdict =
    | PeriodsAccepted
    | DuplicatePeriod(period: FiscalPeriod)
    | Overlap(previous: BookPeriod, current: BookPeriod)

  /** `period` is the first in the list that an earlier entry has already. */
  ghost predicate FirstRepeat(periods: seq<BookPeriod>, period: FiscalPeriod) {
    exists j | 0 <= j < |periods| ::
      && periods[j].period == period
      && (exists i | 0 <= i < j :: periods[i].period == period)
      && forall k, l | 0 <= k < l < j :: periods[k].period != periods[l].period
  }

  /** The first loop: the first fiscal period met twice, if any. */
  method FindDuplicate(periods: seq<BookPeriod>) returns (duplicate: Option<FiscalPeriod>)
    ensures duplicate.None? <==> Pairwise(periods, DifferentPeriods)
    ensures duplicate.Some? ==> FirstRepeat(periods, duplicate.value)
  {
    var seen: set<FiscalPeriod> := {};
    for i := 0 to |periods|
      invariant seen == FiscalPeriods(periods[..i])
      invariant forall k, l | 0 <= k < l < i :: periods[k].period != periods[l].period
    {
      if periods[i].period in seen {
        var k :| 0 <= k < |periods[..i]| && periods[..i][k].period == periods[i].period;
        assert !DifferentPeriods(periods[k], periods[i]);
        return Some(periods[i].period);
      }
      assert periods[..i + 1] == periods[..i] + [periods[i]];
      seen := seen + {periods[i].period};
    }
    return None;
  }

  /** The first two neighbours that overlap. */
  ghost predicate FirstOverlap(ordered: seq<BookPeriod>, previous: BookPeriod, current: BookPeriod) {
    exists k, m | 0 <= k < |ordered| && 0 <= m < |ordered| ::
      && m == k + 1 && ordered[k] == previous && ordered[m] == current
      && !After(previous, current) && Chained(ordered[..m])
  }

  /** The second loop: the first neighbours that overlap, if any. */
  method FindOverlap(ordered: seq<BookPeriod>) returns (overlap: Option<(BookPeriod, BookPeriod)>)
    ensures overlap.None? <==> Chained(ordered)
    ensures overlap.Some? ==> FirstOverlap(ordered, overlap.value.0, overlap.value.1)
  {
    hide DateLe;
    for k := 0 to if ordered == [] then 0 else |ordered| - 1
      invariant forall l | 0 <= l < k :: After(ordered[l], ordered[l + 1])
    {
      if DateLe(ordered[k + 1].startDate, ordered[k].endDate) {
        var m := k + 1;
        assert !After(ordered[k], ordered[m]) && Chained(ordered[..m]);
        return Some((ordered[k], ordered[m]));
      }
    }
    return None;
  }

  lemma OverlapIsAmong(ordered: seq<BookPeriod>, previous: BookPeriod, current: BookPeriod)
    requires FirstOverlap(ordered, previous, current) && SortedBy(ordered, RangeLe)
    ensures previous in ordered && current in ordered && RangeLe(previous, current) && !After(previous, current)
  {
    hide RangeLe, Chained;
  }

  /** Accepts exactly the lists of distinct, pairwise disjoint periods, whatever their order; otherwise names the
      first repeated fiscal period, or else the first neighbours in date order that overlap. */
  method ValidatePeriodCollection(periods: seq<BookPeriod>) returns (verdict: PeriodVerdict)
    requires Ranged(periods)
    ensures verdict.PeriodsAccepted? <==> PeriodsOk(periods)
    ensures verdict.DuplicatePeriod? <==> !Pairwise(periods, DifferentPeriods)
    ensures verdict.DuplicatePeriod? ==> FirstRepeat(periods, verdict.period)
    ensures verdict.Overlap? ==>
              exists ordered :: ordered == Sort(periods, RangeLe) && FirstOverlap(ordered, verdict.previous, verdict.current)
    ensures verdict.Overlap? ==>
              && verdict.previous in periods && verdict.current in periods
              && RangeLe(verdict.previous, verdict.current) && !After(verdict.previous, verdict.current)
  {
    hide PeriodsOk, Apart, Sort, RangeLe, Chained, FirstOverlap, FirstRepeat;
    if PeriodsOk(periods) { ApartDifferent(periods); }
    var duplicate := FindDuplicate(periods);
    if duplicate.Some? {
      return DuplicatePeriod(duplicate.value);
    }
    var ordered := Sort(periods, RangeLe);
    NeighbourCheckDecides(periods);
    SameElements(periods, ordered);
    var overlap := FindOverlap(ordered);
    if overlap.None? {
      return PeriodsAccepted;
    }
    OverlapIsAmong(ordered, overlap.value.0, overlap.value.1);
    verdict := Overlap(overlap.value.0, overlap.value.1);
  }
}
