/** Day arithmetic and the "most recent by audit date" selection. */
module Chrono {
  import opened Domain

  /**
   * The whole-day gap between two instants, as `diff()->days` reports it:
   * the absolute distance, whichever of the two comes first.
   */
  function DaysBetween(from: Instant, to: Instant): (days: nat)
    ensures days == 0 <==> from == to
    ensures from <= to ==> from + days == to
    ensures to <= from ==> to + days == from
  {
    if from <= to then to - from else from - to
  }

  lemma DaysBetweenSymmetric(a: Instant, b: Instant)
    ensures DaysBetween(a, b) == DaysBetween(b, a)
  {
  }

  /**
   * The position a stable sort by descending date puts first: the earliest
   * position holding the greatest date.
   */
  function LatestIndex(dates: seq<Instant>): (i: nat)
    requires |dates| > 0
    ensures i < |dates|
    ensures forall k :: 0 <= k < |dates| ==> dates[k] <= dates[i]
    ensures forall k :: 0 <= k < i ==> dates[k] < dates[i]
  {
    if |dates| == 1 then 0
    else
      var j := LatestIndex(dates[..|dates| - 1]);
      if dates[|dates| - 1] > dates[j] then |dates| - 1 else j
  }

  /** The two properties of LatestIndex single out one position. */
  lemma LatestIndexUnique(dates: seq<Instant>, m: nat)
    requires m < |dates|
    requires forall k :: 0 <= k < |dates| ==> dates[k] <= dates[m]
    requires forall k :: 0 <= k < m ==> dates[k] < dates[m]
    ensures LatestIndex(dates) == m
  {
  }
}
