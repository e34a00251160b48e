/**
 * TripPatternForDate: a trip pattern with the trips that run on one date,
 * sorted, and the period from the first departure to the last arrival.
 * Filtering the trips gives the same instance, no instance, or a new one.
 */
module TripPatternForDate {
  import opened JavaInt
  import opened Wrappers

  const SECONDS_PER_DAY: int := 86_400

  /** The times of one trip: departure and arrival per stop, in seconds after the service date's start. */
  datatype TripTimes = TripTimes(id: int, departureTimes: seq<int>, arrivalTimes: seq<int>)

  /**
   * The instance's fields; tripTimesArray stands for the identity of the
   * array, which the hash code reads, and dates are day numbers. filtered
   * tells the instance's class: FilteredTripPatternForDate when true.
   */
  datatype PatternForDate = PatternForDate(
    tripPattern: int, tripTimes: seq<TripTimes>, tripTimesArray: int, localDate: int,
    startOfRunningPeriod: int, endOfRunningPeriod: int, filtered: bool)

  /** The first trip has a departure and the last trip an arrival, as the constructor reads both. */
  predicate CanConstruct(tripTimes: seq<TripTimes>) {
    |tripTimes| > 0 && |tripTimes[0].departureTimes| > 0 && |tripTimes[|tripTimes| - 1].arrivalTimes| > 0
  }

  /** Every trip has a departure and an arrival, so any non-empty selection can be constructed. */
  predicate AllTripsHaveStops(tripTimes: seq<TripTimes>) {
    forall i :: 0 <= i < |tripTimes| ==> |tripTimes[i].departureTimes| > 0 && |tripTimes[i].arrivalTimes| > 0
  }

  /** DateMapper.asDateTime: the date's start plus the seconds, as seconds since day zero. */
  function AsDateTime(localDate: int, secondsSinceMidnight: int): int {
    localDate * SECONDS_PER_DAY + secondsSinceMidnight
  }

  /**
   * The constructor, of TripPatternForDate or, when filtered, of its
   * subclass FilteredTripPatternForDate: the period runs from the first
   * trip's first departure to the last trip's last arrival.
   */
  function New(tripPattern: int, tripTimes: seq<TripTimes>, tripTimesArray: int, localDate: int, filtered: bool): (p: PatternForDate)
    requires CanConstruct(tripTimes)
    ensures p.tripPattern == tripPattern && p.tripTimes == tripTimes && p.localDate == localDate
    ensures p.tripTimesArray == tripTimesArray && p.filtered == filtered
    ensures p.startOfRunningPeriod - localDate * SECONDS_PER_DAY == tripTimes[0].departureTimes[0]
    ensures p.endOfRunningPeriod - localDate * SECONDS_PER_DAY
            == Last(Last(tripTimes).arrivalTimes)
  {
    var last := tripTimes[|tripTimes| - 1];
    PatternForDate(
      tripPattern, tripTimes, tripTimesArray, localDate,
      AsDateTime(localDate, tripTimes[0].departureTimes[0]),
      AsDateTime(localDate, last.arrivalTimes[|last.arrivalTimes| - 1]),
      filtered)
  }

  function Last<T>(s: seq<T>): T
    requires |s| > 0
  {
    s[|s| - 1]
  }

  /** The trips the predicate keeps, in their order. */
  function FilterTrips(tripTimes: seq<TripTimes>, keep: TripTimes -> bool): (r: seq<TripTimes>)
    ensures |r| <= |tripTimes|
    ensures forall i :: 0 <= i < |r| ==> keep(r[i]) && r[i] in tripTimes
    ensures forall i :: 0 <= i < |tripTimes| && keep(tripTimes[i]) ==> tripTimes[i] in r
  {
    if tripTimes == [] then []
    else
      var rest := FilterTrips(tripTimes[1..], keep);
      assert forall i :: 1 <= i < |tripTimes| ==> tripTimes[i] == tripTimes[1..][i - 1];
      if keep(tripTimes[0]) then [tripTimes[0]] + rest else rest
  }

  /** Filtering a concatenation filters each part: the kept trips keep their order. */
  lemma {:induction false} FilterTripsConcat(a: seq<TripTimes>, b: seq<TripTimes>, keep: TripTimes -> bool)
    ensures FilterTrips(a + b, keep) == FilterTrips(a, keep) + FilterTrips(b, keep)
  {
    if a != [] {
      var ab := a + b;
      assert ab[0] == a[0] && ab[1..] == a[1..] + b;
      FilterTripsConcat(a[1..], b, keep);
      var rest := FilterTrips(ab[1..], keep);
      assert FilterTrips(ab, keep) == if keep(a[0]) then [a[0]] + rest else rest;
      assert FilterTrips(a, keep) == if keep(a[0]) then [a[0]] + FilterTrips(a[1..], keep) else FilterTrips(a[1..], keep);
    } else {
      assert a + b == b;
    }
  }

  /** Nothing is dropped exactly when every trip is kept, and then the trips are unchanged. */
  lemma {:induction false} FilterKeepsAllIff(tripTimes: seq<TripTimes>, keep: TripTimes -> bool)
    ensures |FilterTrips(tripTimes, keep)| == |tripTimes| <==> forall i :: 0 <= i < |tripTimes| ==> keep(tripTimes[i])
    ensures (forall i :: 0 <= i < |tripTimes| ==> keep(tripTimes[i])) ==> FilterTrips(tripTimes, keep) == tripTimes
  {
    if forall i :: 0 <= i < |tripTimes| ==> keep(tripTimes[i]) {
      FilterKeepsAll(tripTimes, keep);
    } else {
      var j :| 0 <= j < |tripTimes| && !keep(tripTimes[j]);
      FilterDropsOne(tripTimes, keep, j);
    }
  }

  /** A filter that keeps every trip returns the trips unchanged. */
  lemma {:induction false} FilterKeepsAll(tripTimes: seq<TripTimes>, keep: TripTimes -> bool)
    requires forall i :: 0 <= i < |tripTimes| ==> keep(tripTimes[i])
    ensures FilterTrips(tripTimes, keep) == tripTimes
  {
    if tripTimes != [] {
      var tail := tripTimes[1..];
      assert forall i :: 0 <= i < |tail| ==> keep(tail[i]) by {
        assert forall i :: 0 <= i < |tail| ==> tail[i] == tripTimes[i + 1];
      }
      FilterKeepsAll(tail, keep);
      assert tripTimes == [tripTimes[0]] + tail;
    }
  }

  /** A filter that drops the trip at j returns fewer trips. */
  lemma {:induction false} FilterDropsOne(tripTimes: seq<TripTimes>, keep: TripTimes -> bool, j: nat)
    requires j < |tripTimes| && !keep(tripTimes[j])
    ensures |FilterTrips(tripTimes, keep)| < |tripTimes|
  {
    var tail := tripTimes[1..];
    if j > 0 {
      assert tail[j - 1] == tripTimes[j];
      FilterDropsOne(tail, keep, j - 1);
    }
  }

  /** The result of newWithFilteredTripTimes: this instance, null, or a new instance. */
  datatype FilterResult = This | Null | NewInstance(pattern: PatternForDate)

  /**
   * newWithFilteredTripTimes: this when the filter keeps every trip, null
   * when it keeps none, else a new FilteredTripPatternForDate of the kept
   * trips with the same pattern and date; newArray is the identity of the
   * new array.
   */
  function NewWithFilteredTripTimes(p: PatternForDate, keep: TripTimes -> bool, newArray: int): (r: FilterResult)
    requires AllTripsHaveStops(p.tripTimes)
    ensures r == This <==> forall i :: 0 <= i < |p.tripTimes| ==> keep(p.tripTimes[i])
    ensures r == Null <==> |p.tripTimes| > 0 && forall i :: 0 <= i < |p.tripTimes| ==> !keep(p.tripTimes[i])
    ensures r.NewInstance? ==>
      r.pattern.tripPattern == p.tripPattern && r.pattern.localDate == p.localDate
      && r.pattern.tripTimes == FilterTrips(p.tripTimes, keep)
      && 0 < |r.pattern.tripTimes| < |p.tripTimes|
      && r.pattern.filtered && r.pattern.tripTimesArray == newArray
  {
    var filtered := FilterTrips(p.tripTimes, keep);
    FilterKeepsAllIff(p.tripTimes, keep);
    if |p.tripTimes| == |filtered| then This
    else if filtered == [] then
      Null
    else
      assert filtered[0] in p.tripTimes && filtered[|filtered| - 1] in p.tripTimes;
      NewInstance(New(p.tripPattern, filtered, newArray, p.localDate, true))
  }

  /** equals: instances of the same class, with the same pattern on the same date; the trips are not compared. */
  predicate Equal(a: PatternForDate, b: PatternForDate) {
    a.filtered == b.filtered && a.tripPattern == b.tripPattern && a.localDate == b.localDate
  }

  /**
   * A new filtered instance equals the instance it was filtered from
   * exactly when that one was itself a filtered instance: the classes
   * differ otherwise.
   */
  lemma FilteredEqualsOriginalIff(p: PatternForDate, keep: TripTimes -> bool, newArray: int)
    requires AllTripsHaveStops(p.tripTimes)
    requires NewWithFilteredTripTimes(p, keep, newArray).NewInstance?
    ensures Equal(p, NewWithFilteredTripTimes(p, keep, newArray).pattern) <==> p.filtered
    ensures Equal(NewWithFilteredTripTimes(p, keep, newArray).pattern, p) <==> p.filtered
  {
  }

  /** Objects.hash of three hash codes: 31-based, wrapping to a Java int. */
  function Hash3(h1: int, h2: int, h3: int): (r: int)
    ensures InRange(r)
  {
    Wrap(31 * Wrap(31 * Wrap(31 + h1) + h2) + h3)
  }

  /** hashCode as written: the pattern's, the array's identity and the date's hash codes. */
  function HashCodeAsWritten(p: PatternForDate, hashOf: int -> int): int {
    Hash3(hashOf(p.tripPattern), hashOf(p.tripTimesArray), hashOf(p.localDate))
  }

  /** hashCode over the fields equals compares. */
  function HashCode(p: PatternForDate, hashOf: int -> int): int {
    Hash3(hashOf(p.tripPattern), 0, hashOf(p.localDate))
  }

  /** With the hash over the compared fields, equal instances hash alike. */
  lemma EqualInstancesHashAlike(a: PatternForDate, b: PatternForDate, hashOf: int -> int)
    requires Equal(a, b)
    ensures HashCode(a, hashOf) == HashCode(b, hashOf)
  {
  }

  /**
   * As written, the same filter applied twice gives two filtered instances
   * that are equal but hash differently, as their new arrays' identity
   * hashes differ.
   */
  lemma FilteredInstanceHashesDifferently()
    ensures var p := New(1, [TripTimes(1, [0], [60]), TripTimes(2, [600], [660])], 1, 0, false);
      var keep := (t: TripTimes) => t.id == 1;
      var r1 := NewWithFilteredTripTimes(p, keep, 2);
      var r2 := NewWithFilteredTripTimes(p, keep, 3);
      r1.NewInstance? && r2.NewInstance? && Equal(r1.pattern, r2.pattern)
      && HashCodeAsWritten(r1.pattern, (x: int) => x) != HashCodeAsWritten(r2.pattern, (x: int) => x)
  {
    var p := New(1, [TripTimes(1, [0], [60]), TripTimes(2, [600], [660])], 1, 0, false);
    var keep := (t: TripTimes) => t.id == 1;
    assert FilterTrips(p.tripTimes, keep) == [TripTimes(1, [0], [60])];
  }

  /**
   * getRunningPeriodDates: every date from the first departure's to the
   * last arrival's, both included. datesUntil throws (None here) when the
   * day after the last date comes before the first date.
   */
  function RunningPeriodDates(p: PatternForDate): (r: Option<seq<int>>)
    ensures r.None? <==> p.endOfRunningPeriod / SECONDS_PER_DAY + 1 < p.startOfRunningPeriod / SECONDS_PER_DAY
    ensures p.startOfRunningPeriod <= p.endOfRunningPeriod ==>
      r.Some? && |r.value| == p.endOfRunningPeriod / SECONDS_PER_DAY - p.startOfRunningPeriod / SECONDS_PER_DAY + 1
    ensures r.Some? ==> forall i :: 0 <= i < |r.value| ==> r.value[i] == p.startOfRunningPeriod / SECONDS_PER_DAY + i
  {
    var first := p.startOfRunningPeriod / SECONDS_PER_DAY;
    var last := p.endOfRunningPeriod / SECONDS_PER_DAY;
    DayOrder(p.startOfRunningPeriod, p.endOfRunningPeriod);
    if last + 1 < first then None
    else if last + 1 == first then Some([])
    else Some(seq(last + 1 - first, i => first + i))
  }

  lemma DayOrder(a: int, b: int)
    ensures a <= b ==> a / SECONDS_PER_DAY <= b / SECONDS_PER_DAY
  {
  }
}
