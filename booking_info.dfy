/**
 * RoutingBookingInfo: the booking restrictions of a flexible trip as seen by
 * the router, a latest booking time and a minimum booking notice (either may
 * be NOT_SET), plus the leg duration and the time offset of the boarding.
 */
module RoutingBookingInfo {
  import opened Wrappers

  const NOT_SET: int := -1_999_999
  const ZERO: int := 0

  datatype Info = Info(
    latestBookingTime: int,
    minimumBookingNotice: int,
    legDurationInSeconds: int,
    timeOffsetInSeconds: int)

  /** The IllegalArgumentException thrown by the constructor. */
  datatype BookingError =
    | NeitherTimeNorNoticeSet
    | NegativeLegDuration(legDurationInSeconds: int)
    | NegativeTimeOffset(timeOffsetInSeconds: int)

  /** The booking info of an imported trip: each part may be missing. */
  datatype BookingInfo = BookingInfo(latestBookingTime: Option<int>, minimumBookingNotice: Option<int>)

  const UNRESTRICTED: Info := Info(NOT_SET, NOT_SET, ZERO, ZERO)

  function Exist(value: int): bool {
    value != NOT_SET
  }

  /**
   * The checked constructor: at least one of the two restrictions must be
   * set, then the leg duration and the offset must not be negative, in that order.
   */
  function New(latestBookingTime: int, minimumBookingNotice: int, legDurationInSeconds: int, timeOffsetInSeconds: int)
    : (r: Result<Info, BookingError>)
    ensures r.Ok? <==> (Exist(latestBookingTime) || Exist(minimumBookingNotice))
                       && legDurationInSeconds >= 0 && timeOffsetInSeconds >= 0
    ensures r.Ok? ==> r.value == Info(latestBookingTime, minimumBookingNotice, legDurationInSeconds, timeOffsetInSeconds)
    ensures !Exist(latestBookingTime) && !Exist(minimumBookingNotice) ==> r == Err(NeitherTimeNorNoticeSet)
    ensures (Exist(latestBookingTime) || Exist(minimumBookingNotice)) && legDurationInSeconds < 0 ==>
      r == Err(NegativeLegDuration(legDurationInSeconds))
    ensures (Exist(latestBookingTime) || Exist(minimumBookingNotice))
            && legDurationInSeconds >= 0 && timeOffsetInSeconds < 0
            ==> r == Err(NegativeTimeOffset(timeOffsetInSeconds))
  {
    if latestBookingTime == NOT_SET && minimumBookingNotice == NOT_SET then Err(NeitherTimeNorNoticeSet)
    else if legDurationInSeconds < 0 then Err(NegativeLegDuration(legDurationInSeconds))
    else if timeOffsetInSeconds < 0 then Err(NegativeTimeOffset(timeOffsetInSeconds))
    else Ok(Info(latestBookingTime, minimumBookingNotice, legDurationInSeconds, timeOffsetInSeconds))
  }

  /** No booking restriction: the shared instance, or neither restriction set (the same thing for values). */
  predicate IsUnrestricted(info: Info) {
    info == UNRESTRICTED || (info.latestBookingTime == NOT_SET && info.minimumBookingNotice == NOT_SET)
  }

  /** The private overload: no requested booking time, or no restriction. */
  predicate IsUnrestrictedFor(info: Info, requestedBookingTime: int) {
    requestedBookingTime == NOT_SET || IsUnrestricted(info)
  }

  predicate ExceedsLatestBookingTime(info: Info, requestedBookingTime: int) {
    Exist(requestedBookingTime) && Exist(info.latestBookingTime) && requestedBookingTime > info.latestBookingTime
  }

  /** The booking is made later than the notice before the given departure time allows. */
  predicate ExceedsMinimumBookingNotice(info: Info, departureTime: int, requestedBookingTime: int) {
    Exist(requestedBookingTime) && Exist(info.minimumBookingNotice)
    && departureTime - info.minimumBookingNotice < requestedBookingTime
  }

  predicate IsThereEnoughTimeToBook(info: Info, time: int, requestedBookingTime: int) {
    if ExceedsLatestBookingTime(info, requestedBookingTime) then false
    else if ExceedsMinimumBookingNotice(info, time, requestedBookingTime) then false
    else true
  }

  /** The boarding happens timeOffsetInSeconds after the departure of the leg. */
  function IsThereEnoughTimeToBookForDeparture(info: Info, departureTime: int, requestedBookingTime: int): (r: bool)
    ensures IsUnrestrictedFor(info, requestedBookingTime) ==> r
  {
    if IsUnrestrictedFor(info, requestedBookingTime) then true
    else IsThereEnoughTimeToBook(info, departureTime + info.timeOffsetInSeconds, requestedBookingTime)
  }

  /** For an arrival the boarding is legDurationInSeconds before it, shifted by the offset. */
  function IsThereEnoughTimeToBookForArrival(info: Info, arrivalTime: int, requestedBookingTime: int): (r: bool)
    ensures IsUnrestrictedFor(info, requestedBookingTime) ==> r
  {
    if IsUnrestrictedFor(info, requestedBookingTime) then true
    else IsThereEnoughTimeToBook(
      info, arrivalTime - info.legDurationInSeconds + info.timeOffsetInSeconds, requestedBookingTime)
  }

  /** The earliest departure allowed by the minimum booking notice: never before departureTime. */
  function EarliestDepartureTime(info: Info, requestedDepartureTime: int, departureTime: int): (r: int)
    ensures r >= departureTime
    ensures !Exist(requestedDepartureTime) || !Exist(info.minimumBookingNotice) ==> r == departureTime
    ensures Exist(requestedDepartureTime) && Exist(info.minimumBookingNotice) ==>
      r >= requestedDepartureTime + info.minimumBookingNotice
      && (r == departureTime || r == requestedDepartureTime + info.minimumBookingNotice)
  {
    if requestedDepartureTime == NOT_SET || info.minimumBookingNotice == NOT_SET then departureTime
    else if requestedDepartureTime + info.minimumBookingNotice > departureTime
    then requestedDepartureTime + info.minimumBookingNotice
    else departureTime
  }

  /** equals: only the two restrictions take part, not the leg duration or the offset. */
  predicate Equal(a: Info, b: Info) {
    a.latestBookingTime == b.latestBookingTime && a.minimumBookingNotice == b.minimumBookingNotice
  }

  /**
   * The departure check holds exactly when no restriction applies, or the
   * request is not after the latest booking time and the boarding time
   * leaves at least the minimum notice.
   */
  lemma DepartureBookableIff(info: Info, departureTime: int, requestedBookingTime: int)
    ensures IsThereEnoughTimeToBookForDeparture(info, departureTime, requestedBookingTime) <==>
      requestedBookingTime == NOT_SET
      || (info.latestBookingTime == NOT_SET && info.minimumBookingNotice == NOT_SET)
      || ((info.latestBookingTime == NOT_SET || requestedBookingTime <= info.latestBookingTime)
          && (info.minimumBookingNotice == NOT_SET
              || requestedBookingTime <= departureTime + info.timeOffsetInSeconds - info.minimumBookingNotice))
  {
  }

  /** The arrival check is the departure check of the leg's departure, legDurationInSeconds earlier. */
  lemma ArrivalIsDepartureOfLeg(info: Info, arrivalTime: int, requestedBookingTime: int)
    ensures IsThereEnoughTimeToBookForArrival(info, arrivalTime, requestedBookingTime) ==
      IsThereEnoughTimeToBookForDeparture(info, arrivalTime - info.legDurationInSeconds, requestedBookingTime)
  {
  }

  /** Departing at the earliest departure time never violates the minimum booking notice. */
  lemma EarliestDepartureKeepsNotice(info: Info, requestedDepartureTime: int, departureTime: int)
    ensures !ExceedsMinimumBookingNotice(
      info, EarliestDepartureTime(info, requestedDepartureTime, departureTime), requestedDepartureTime)
  {
  }

  /** Booking later never helps: a check that fails for a request fails for every later request. */
  lemma LaterRequestNotBookable(info: Info, departureTime: int, t1: int, t2: int)
    requires Exist(t1) && Exist(t2) && t1 <= t2
    requires !IsThereEnoughTimeToBookForDeparture(info, departureTime, t1)
    ensures !IsThereEnoughTimeToBookForDeparture(info, departureTime, t2)
  {
    DepartureBookableIff(info, departureTime, t1);
    DepartureBookableIff(info, departureTime, t2);
  }

  /** Equal infos give the same answers to every check that ignores the leg and the offset. */
  lemma EqualInfosAgree(a: Info, b: Info, time: int, requested: int, departureTime: int)
    requires Equal(a, b)
    ensures IsUnrestricted(a) == IsUnrestricted(b)
    ensures ExceedsLatestBookingTime(a, requested) == ExceedsLatestBookingTime(b, requested)
    ensures ExceedsMinimumBookingNotice(a, time, requested) == ExceedsMinimumBookingNotice(b, time, requested)
    ensures EarliestDepartureTime(a, requested, departureTime) == EarliestDepartureTime(b, requested, departureTime)
  {
  }

  /** The builder: each setter overwrites one field; build checks them. */
  class Builder {
    var latestBookingTime: int
    var minimumBookingNotice: int
    var legDurationInSeconds: int
    var timeOffsetInSeconds: int

    constructor()
      ensures latestBookingTime == NOT_SET && minimumBookingNotice == NOT_SET
      ensures legDurationInSeconds == 0 && timeOffsetInSeconds == 0
    {
      legDurationInSeconds := 0;
      timeOffsetInSeconds := 0;
      latestBookingTime := NOT_SET;
      minimumBookingNotice := NOT_SET;
    }

    /** A missing booking info clears both restrictions; otherwise each missing part becomes NOT_SET. */
    method WithBookingInfo(bookingInfo: Option<BookingInfo>)
      modifies this
      ensures bookingInfo.None? ==> latestBookingTime == NOT_SET && minimumBookingNotice == NOT_SET
      ensures bookingInfo.Some? ==>
        latestBookingTime == (if bookingInfo.value.latestBookingTime.Some?
                              then bookingInfo.value.latestBookingTime.value else NOT_SET)
        && minimumBookingNotice == (if bookingInfo.value.minimumBookingNotice.Some?
                                    then bookingInfo.value.minimumBookingNotice.value else NOT_SET)
      ensures legDurationInSeconds == old(legDurationInSeconds) && timeOffsetInSeconds == old(timeOffsetInSeconds)
    {
      match bookingInfo
      case None =>
        latestBookingTime := NOT_SET;
        minimumBookingNotice := NOT_SET;
      case Some(b) =>
        WithLatestBookingTime(if b.latestBookingTime.Some? then b.latestBookingTime.value else NOT_SET);
        WithMinimumBookingNotice(if b.minimumBookingNotice.Some? then b.minimumBookingNotice.value else NOT_SET);
    }

    method WithLatestBookingTime(t: int)
      modifies this
      ensures latestBookingTime == t
      ensures minimumBookingNotice == old(minimumBookingNotice)
      ensures legDurationInSeconds == old(legDurationInSeconds) && timeOffsetInSeconds == old(timeOffsetInSeconds)
    {
      latestBookingTime := t;
    }

    method WithMinimumBookingNotice(n: int)
      modifies this
      ensures minimumBookingNotice == n
      ensures latestBookingTime == old(latestBookingTime)
      ensures legDurationInSeconds == old(legDurationInSeconds) && timeOffsetInSeconds == old(timeOffsetInSeconds)
    {
      minimumBookingNotice := n;
    }

    method WithLegDurationInSeconds(d: int)
      modifies this
      ensures legDurationInSeconds == d
      ensures latestBookingTime == old(latestBookingTime) && minimumBookingNotice == old(minimumBookingNotice)
      ensures timeOffsetInSeconds == old(timeOffsetInSeconds)
    {
      legDurationInSeconds := d;
    }

    method WithTimeOffsetInSeconds(o: int)
      modifies this
      ensures timeOffsetInSeconds == o
      ensures latestBookingTime == old(latestBookingTime) && minimumBookingNotice == old(minimumBookingNotice)
      ensures legDurationInSeconds == old(legDurationInSeconds)
    {
      timeOffsetInSeconds := o;
    }

    /**
     * build: UNRESTRICTED when neither restriction is set (whatever the
     * duration and offset), otherwise the checked constructor.
     */
    function Build(): (r: Result<Info, BookingError>)
      reads this
      ensures !Exist(latestBookingTime) && !Exist(minimumBookingNotice) ==> r == Ok(UNRESTRICTED)
      ensures r.Ok? <==> (!Exist(latestBookingTime) && !Exist(minimumBookingNotice))
                         || (legDurationInSeconds >= 0 && timeOffsetInSeconds >= 0)
      ensures r.Ok? ==> Equal(r.value, Info(latestBookingTime, minimumBookingNotice, 0, 0))
      ensures r.Ok? && !IsUnrestricted(r.value) ==>
        r.value.legDurationInSeconds == legDurationInSeconds && r.value.timeOffsetInSeconds == timeOffsetInSeconds
    {
      if latestBookingTime == NOT_SET && minimumBookingNotice == NOT_SET then Ok(UNRESTRICTED)
      else New(latestBookingTime, minimumBookingNotice, legDurationInSeconds, timeOffsetInSeconds)
    }
  }

  /**
   * of(bookingInfo): a missing booking info is unrestricted; otherwise a
   * fresh builder takes its two parts and builds, which cannot fail since the
   * duration and the offset stay 0.
   */
  method Of(bookingInfo: Option<BookingInfo>) returns (r: Info)
    ensures bookingInfo.None? ==> r == UNRESTRICTED
    ensures bookingInfo.Some? ==>
      r.latestBookingTime == (if bookingInfo.value.latestBookingTime.Some?
                              then bookingInfo.value.latestBookingTime.value else NOT_SET)
      && r.minimumBookingNotice == (if bookingInfo.value.minimumBookingNotice.Some?
                                    then bookingInfo.value.minimumBookingNotice.value else NOT_SET)
    ensures r.legDurationInSeconds == 0 && r.timeOffsetInSeconds == 0
  {
    if bookingInfo.None? {
      return UNRESTRICTED;
    }
    var builder := new Builder();
    builder.WithBookingInfo(bookingInfo);
    var built := builder.Build();
    r := built.value;
  }
}
