/**
 * Access and egress legs as Raptor sees them: a stop, a cost, a duration
 * and the two time-window queries. A BookingTime leg wraps another and
 * moves its earliest departure to the earliest time a booking allows; a
 * DepartOnboard leg starts on board a trip at a fixed departure time.
 */
module AccessEgress {

  /** A time query's answer: a time, or RaptorConstants.TIME_NOT_SET. */
  datatype Time = NotSet | At(t: int)

  datatype Leg =
    /** Any other access or egress, given by its answers. */
    | Other(stop: int, c1: int, durationInSeconds: int, numberOfRides: int,
            hasOpeningHours: bool, stopReachedOnBoard: bool, isEmpty: bool,
            earliestDeparture: int -> Time, latestArrival: int -> Time)
    /** BookingTimeAccessEgress: a delegate that cannot depart before earliestDepartureTime. */
    | BookingTime(earliestDepartureTime: int, delegate: Leg)
    /** DepartOnboardAccess: already on board a trip leaving the stop at departureTime. */
    | DepartOnboard(stop: int, c1: int, durationInSeconds: int, departureTime: int)

  function Stop(leg: Leg): int {
    match leg
    case Other(stop, _, _, _, _, _, _, _, _) => stop
    case BookingTime(_, delegate) => Stop(delegate)
    case DepartOnboard(stop, _, _, _) => stop
  }

  function C1(leg: Leg): int {
    match leg
    case Other(_, c1, _, _, _, _, _, _, _) => c1
    case BookingTime(_, delegate) => C1(delegate)
    case DepartOnboard(_, c1, _, _) => c1
  }

  function DurationInSeconds(leg: Leg): int {
    match leg
    case Other(_, _, d, _, _, _, _, _, _) => d
    case BookingTime(_, delegate) => DurationInSeconds(delegate)
    case DepartOnboard(_, _, d, _) => d
  }

  function NumberOfRides(leg: Leg): int {
    match leg
    case Other(_, _, _, n, _, _, _, _, _) => n
    case BookingTime(_, delegate) => NumberOfRides(delegate)
    case DepartOnboard(_, _, _, _) => 1
  }

  /** hasRides: the interface's default, at least one ride. */
  predicate HasRides(leg: Leg) {
    match leg
    case Other(_, _, _, n, _, _, _, _, _) => n > 0
    case BookingTime(_, delegate) => HasRides(delegate)
    case DepartOnboard(_, _, _, _) => true
  }

  predicate HasOpeningHours(leg: Leg) {
    match leg
    case Other(_, _, _, _, h, _, _, _, _) => h
    case BookingTime(_, delegate) => HasOpeningHours(delegate)
    case DepartOnboard(_, _, _, _) => true
  }

  predicate StopReachedOnBoard(leg: Leg) {
    match leg
    case Other(_, _, _, _, _, b, _, _, _) => b
    case BookingTime(_, delegate) => StopReachedOnBoard(delegate)
    case DepartOnboard(_, _, _, _) => true
  }

  /** isEmpty is declared by DepartOnboardAccess, not by the booking wrapper. */
  predicate IsEmpty(leg: Leg)
    requires !leg.BookingTime?
  {
    match leg
    case Other(_, _, _, _, _, _, e, _, _) => e
    case DepartOnboard(_, _, _, _) => false
  }

  /**
   * earliestDepartureTime: a booking wrapper answers TIME_NOT_SET when its
   * delegate does and otherwise the later of its own earliest time and the
   * request; an on-board access answers -1 when the request is after its
   * departure.
   */
  function EarliestDepartureTime(leg: Leg, requestedDepartureTime: int): (r: Time)
    ensures leg.BookingTime? ==>
      (r.NotSet? <==> EarliestDepartureTime(leg.delegate, requestedDepartureTime).NotSet?)
    ensures leg.BookingTime? && r.At? ==>
      r.t >= leg.earliestDepartureTime && r.t >= requestedDepartureTime
      && (r.t == leg.earliestDepartureTime || r.t == requestedDepartureTime)
    ensures leg.DepartOnboard? ==>
      r == if requestedDepartureTime > leg.departureTime then At(-1) else At(leg.departureTime)
  {
    match leg
    case Other(_, _, _, _, _, _, _, edt, _) => edt(requestedDepartureTime)
    case BookingTime(earliest, delegate) =>
      if EarliestDepartureTime(delegate, requestedDepartureTime) == NotSet then NotSet
      else if earliest > requestedDepartureTime then At(earliest) else At(requestedDepartureTime)
    case DepartOnboard(_, _, duration, departureTime) =>
      if requestedDepartureTime > departureTime then At(-1) else At(departureTime)
  }

  /**
   * latestArrivalTime: a booking wrapper passes the delegate's answer on
   * only when it is not before its earliest departure plus the duration
   * (TIME_NOT_SET otherwise); an on-board access answers -1 when the request
   * is before its arrival.
   */
  function LatestArrivalTime(leg: Leg, requestedArrivalTime: int): (r: Time)
    ensures leg.BookingTime? && r.At? ==>
      r == LatestArrivalTime(leg.delegate, requestedArrivalTime)
      && r.t >= leg.earliestDepartureTime + DurationInSeconds(leg.delegate)
    ensures leg.BookingTime? && LatestArrivalTime(leg.delegate, requestedArrivalTime).At?
            && LatestArrivalTime(leg.delegate, requestedArrivalTime).t
               >= leg.earliestDepartureTime + DurationInSeconds(leg.delegate)
            ==> r == LatestArrivalTime(leg.delegate, requestedArrivalTime)
    ensures leg.DepartOnboard? ==>
      r == if requestedArrivalTime < leg.departureTime + leg.durationInSeconds then At(-1)
           else At(leg.departureTime + leg.durationInSeconds)
  {
    match leg
    case Other(_, _, _, _, _, _, _, _, lat) => lat(requestedArrivalTime)
    case BookingTime(earliest, delegate) =>
      var eat := earliest + DurationInSeconds(delegate);
      var lat := LatestArrivalTime(delegate, requestedArrivalTime);
      if lat.NotSet? || lat.t < eat then NotSet else lat
    case DepartOnboard(_, _, duration, departureTime) =>
      if requestedArrivalTime < departureTime + duration then At(-1) else At(departureTime + duration)
  }

  /** The booking wrapper forwards every other query to its delegate unchanged. */
  lemma BookingTimeForwards(earliest: int, delegate: Leg)
    ensures Stop(BookingTime(earliest, delegate)) == Stop(delegate)
    ensures C1(BookingTime(earliest, delegate)) == C1(delegate)
    ensures DurationInSeconds(BookingTime(earliest, delegate)) == DurationInSeconds(delegate)
    ensures NumberOfRides(BookingTime(earliest, delegate)) == NumberOfRides(delegate)
    ensures HasRides(BookingTime(earliest, delegate)) == HasRides(delegate)
    ensures HasOpeningHours(BookingTime(earliest, delegate)) == HasOpeningHours(delegate)
    ensures StopReachedOnBoard(BookingTime(earliest, delegate)) == StopReachedOnBoard(delegate)
  {
  }

  /**
   * The booking wrapper departs at the later of its earliest departure and
   * the request, whatever time the delegate answers: the delegate's answer
   * only decides whether there is a departure at all. So the departure is
   * no earlier than the delegate's only when the delegate answers the
   * request itself; an arrival is answered only where the delegate answers.
   */
  lemma BookingTimeNarrowsWindow(earliest: int, delegate: Leg, requestedDepartureTime: int, requestedArrivalTime: int)
    requires EarliestDepartureTime(delegate, requestedDepartureTime).At?
    ensures EarliestDepartureTime(BookingTime(earliest, delegate), requestedDepartureTime)
            == At(if earliest > requestedDepartureTime then earliest else requestedDepartureTime)
    ensures EarliestDepartureTime(delegate, requestedDepartureTime).t == requestedDepartureTime ==>
      EarliestDepartureTime(BookingTime(earliest, delegate), requestedDepartureTime).t
      >= EarliestDepartureTime(delegate, requestedDepartureTime).t
    ensures LatestArrivalTime(BookingTime(earliest, delegate), requestedArrivalTime).At? ==>
      LatestArrivalTime(delegate, requestedArrivalTime).At?
  {
  }

  /**
   * As written, the wrapper drops the delegate's own departure: a delegate
   * whose opening hours allow departing only 100 seconds after the request,
   * wrapped with an earliest booking time before the request, departs at
   * the request, before the delegate can.
   */
  lemma BookingTimeDepartsBeforeDelegate()
    ensures var delegate := Other(1, 0, 60, 1, true, false, false, (t: int) => At(t + 100), (t: int) => At(t));
      EarliestDepartureTime(delegate, 0) == At(100)
      && EarliestDepartureTime(BookingTime(-10, delegate), 0) == At(0)
  {
  }

  /**
   * The intended departure of the booking wrapper: the later of its
   * earliest departure and the delegate's own answer.
   */
  function BookingTimeDepartureFixed(earliest: int, delegate: Leg, requestedDepartureTime: int): (r: Time)
    ensures r.NotSet? <==> EarliestDepartureTime(delegate, requestedDepartureTime).NotSet?
    ensures r.At? ==> r.t >= earliest && r.t >= EarliestDepartureTime(delegate, requestedDepartureTime).t
                      && (r.t == earliest || r.t == EarliestDepartureTime(delegate, requestedDepartureTime).t)
  {
    match EarliestDepartureTime(delegate, requestedDepartureTime)
    case NotSet => NotSet
    case At(edt) => At(if earliest > edt then earliest else edt)
  }

  /**
   * The intended departure never precedes the delegate's, and agrees with
   * the written one whenever the delegate answers the request itself.
   */
  lemma BookingTimeFixedKeepsOpeningHours(earliest: int, delegate: Leg, requestedDepartureTime: int)
    requires EarliestDepartureTime(delegate, requestedDepartureTime).At?
    ensures BookingTimeDepartureFixed(earliest, delegate, requestedDepartureTime).At?
    ensures BookingTimeDepartureFixed(earliest, delegate, requestedDepartureTime).t
            >= EarliestDepartureTime(delegate, requestedDepartureTime).t
    ensures EarliestDepartureTime(delegate, requestedDepartureTime).t == requestedDepartureTime ==>
      BookingTimeDepartureFixed(earliest, delegate, requestedDepartureTime)
      == EarliestDepartureTime(BookingTime(earliest, delegate), requestedDepartureTime)
  {
  }

  /**
   * A leg departing at the booking wrapper's earliest departure and lasting
   * its duration arrives no later than any latest arrival the wrapper answers.
   */
  lemma BookingTimeWindowIsFeasible(earliest: int, delegate: Leg, requestedDepartureTime: int, requestedArrivalTime: int)
    requires EarliestDepartureTime(delegate, requestedDepartureTime).At?
    requires requestedDepartureTime <= earliest
    requires LatestArrivalTime(BookingTime(earliest, delegate), requestedArrivalTime).At?
    ensures EarliestDepartureTime(BookingTime(earliest, delegate), requestedDepartureTime) == At(earliest)
    ensures EarliestDepartureTime(BookingTime(earliest, delegate), requestedDepartureTime).t
            + DurationInSeconds(delegate)
            <= LatestArrivalTime(BookingTime(earliest, delegate), requestedArrivalTime).t
  {
  }

  /** An on-board access has one ride, opening hours, reaches its stop on board and is never empty. */
  lemma DepartOnboardFlags(stop: int, c1: int, duration: int, departureTime: int)
    ensures NumberOfRides(DepartOnboard(stop, c1, duration, departureTime)) == 1
    ensures HasRides(DepartOnboard(stop, c1, duration, departureTime))
    ensures HasOpeningHours(DepartOnboard(stop, c1, duration, departureTime))
    ensures StopReachedOnBoard(DepartOnboard(stop, c1, duration, departureTime))
    ensures !IsEmpty(DepartOnboard(stop, c1, duration, departureTime))
  {
  }

  /**
   * An on-board access's window is its single trip: any request not after
   * the departure gets that departure, and then the latest arrival at the
   * departure plus the duration is that arrival.
   */
  lemma DepartOnboardWindow(stop: int, c1: int, duration: int, departureTime: int, requested: int)
    requires requested <= departureTime
    ensures EarliestDepartureTime(DepartOnboard(stop, c1, duration, departureTime), requested) == At(departureTime)
    ensures LatestArrivalTime(DepartOnboard(stop, c1, duration, departureTime), departureTime + duration)
            == At(departureTime + duration)
  {
  }
}
