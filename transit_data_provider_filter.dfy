/**
 * RoutingRequestTransitDataProviderFilter: which trip patterns, trips and
 * boarding stops a routing request may use, from its banned and
 * white-listed routes and agencies, banned trips, allowed modes, bike and
 * wheelchair requirements and the cancellation setting.
 */
module TransitDataProviderFilter {
  import opened TransitModes

  datatype BikeAccess = UnknownBikeAccess | Allowed | NotAllowed

  datatype WheelchairAccessibility = Possible | NotPossible | NoInformation

  datatype Route = Route(id: int, agencyId: int, bikesAllowed: BikeAccess)

  datatype Trip = Trip(
    id: int, mode: TransitMode, netexSubMode: string, route: Route,
    bikesAllowed: BikeAccess, canceledOrReplaced: bool)

  datatype TripTimes = TripTimes(trip: Trip, wheelchairAccessibility: WheelchairAccessibility)

  /** The wheelchair preferences: whether they apply, and whether only accessible trips and stops count. */
  datatype WheelchairPreferences = WheelchairPreferences(
    enabled: bool, tripOnlyConsiderAccessible: bool, stopOnlyConsiderAccessible: bool)

  /** A route matcher, given by whether it is empty and what it matches. */
  datatype RouteMatcher = RouteMatcher(isEmpty: bool, matches: Route -> bool)

  datatype Filter = Filter(
    requireBikesAllowed: bool,
    wheelchairAccessibility: WheelchairPreferences,
    includePlannedCancellations: bool,
    /** The allowed-mode filter, as its answer for a mode and a sub-mode. */
    allows: (TransitMode, string) -> bool,
    bannedRoutes: set<int>,
    bannedTrips: set<int>)

  /** The trip's own bike access, or its route's when the trip's is unknown. */
  function BikeAccessForTrip(trip: Trip): (r: BikeAccess)
    ensures trip.bikesAllowed != UnknownBikeAccess ==> r == trip.bikesAllowed
    ensures trip.bikesAllowed == UnknownBikeAccess ==> r == trip.route.bikesAllowed
  {
    if trip.bikesAllowed != UnknownBikeAccess then trip.bikesAllowed else trip.route.bikesAllowed
  }

  /** routeIsNotBanned: the pattern's route is not among the banned route ids. */
  predicate RouteIsNotBanned(f: Filter, routeId: int) {
    routeId !in f.bannedRoutes
  }

  /** tripPatternPredicate: no banned routes at all, or the pattern's route is not banned. */
  predicate TripPatternPredicate(f: Filter, routeId: int) {
    f.bannedRoutes == {} || RouteIsNotBanned(f, routeId)
  }

  /** tripTimesPredicate: the checks in order, the first failing one rejecting the trip. */
  predicate TripTimesPredicate(f: Filter, tripTimes: TripTimes) {
    var trip := tripTimes.trip;
    if !f.allows(trip.mode, trip.netexSubMode) then false
    else if f.bannedTrips != {} && trip.id in f.bannedTrips then false
    else if f.requireBikesAllowed && BikeAccessForTrip(trip) != Allowed then false
    else if f.wheelchairAccessibility.enabled && f.wheelchairAccessibility.tripOnlyConsiderAccessible
            && tripTimes.wheelchairAccessibility != Possible then false
    else if !f.includePlannedCancellations && trip.canceledOrReplaced then false
    else true
  }

  /** A trip passes exactly when none of the five reasons to reject it holds. */
  lemma TripTimesPredicateIff(f: Filter, tripTimes: TripTimes)
    ensures TripTimesPredicate(f, tripTimes) <==>
      f.allows(tripTimes.trip.mode, tripTimes.trip.netexSubMode)
      && tripTimes.trip.id !in f.bannedTrips
      && (f.requireBikesAllowed ==> BikeAccessForTrip(tripTimes.trip) == Allowed)
      && (f.wheelchairAccessibility.enabled && f.wheelchairAccessibility.tripOnlyConsiderAccessible
          ==> tripTimes.wheelchairAccessibility == Possible)
      && (f.includePlannedCancellations || !tripTimes.trip.canceledOrReplaced)
  {
  }

  /** A pattern passes exactly when its route id is not banned; the empty-set shortcut changes nothing. */
  lemma TripPatternPredicateIff(f: Filter, routeId: int)
    ensures TripPatternPredicate(f, routeId) <==> routeId !in f.bannedRoutes
  {
  }

  /**
   * routeIsBanned: a banned agency or a banned-route match bans the route;
   * when any white list is in use, a route on none of them is banned too.
   */
  predicate RouteIsBanned(
    bannedAgencies: set<int>, bannedRoutes: RouteMatcher,
    whiteListedAgencies: set<int>, whiteListedRoutes: RouteMatcher, route: Route)
  {
    if bannedAgencies != {} && route.agencyId in bannedAgencies then true
    else if !bannedRoutes.isEmpty && bannedRoutes.matches(route) then true
    else
      var whiteListInUse := whiteListedAgencies != {} || !whiteListedRoutes.isEmpty;
      var whiteListed := (whiteListedAgencies != {} && route.agencyId in whiteListedAgencies)
                         || (!whiteListedRoutes.isEmpty && whiteListedRoutes.matches(route));
      whiteListInUse && !whiteListed
  }

  /** A route escapes the ban exactly when its agency and route are not banned and, with white lists, it is on one. */
  lemma RouteIsBannedIff(
    bannedAgencies: set<int>, bannedRoutes: RouteMatcher,
    whiteListedAgencies: set<int>, whiteListedRoutes: RouteMatcher, route: Route)
    ensures !RouteIsBanned(bannedAgencies, bannedRoutes, whiteListedAgencies, whiteListedRoutes, route) <==>
      route.agencyId !in bannedAgencies
      && (bannedRoutes.isEmpty || !bannedRoutes.matches(route))
      && ((whiteListedAgencies == {} && whiteListedRoutes.isEmpty)
          || route.agencyId in whiteListedAgencies
          || (!whiteListedRoutes.isEmpty && whiteListedRoutes.matches(route)))
  {
  }

  /** The ids of the banned routes, in the order of the routes. */
  function BannedIds(
    bannedAgencies: set<int>, bannedRoutes: RouteMatcher,
    whiteListedAgencies: set<int>, whiteListedRoutes: RouteMatcher, routes: seq<Route>): (r: seq<int>)
    ensures |r| <= |routes|
    ensures forall id :: id in r <==>
      exists k :: 0 <= k < |routes| && routes[k].id == id
        && RouteIsBanned(bannedAgencies, bannedRoutes, whiteListedAgencies, whiteListedRoutes, routes[k])
  {
    if routes == [] then []
    else
      var init := BannedIds(bannedAgencies, bannedRoutes, whiteListedAgencies, whiteListedRoutes,
                            routes[..|routes| - 1]);
      var last := routes[|routes| - 1];
      assert forall k :: 0 <= k < |routes| - 1 ==> routes[..|routes| - 1][k] == routes[k];
      if RouteIsBanned(bannedAgencies, bannedRoutes, whiteListedAgencies, whiteListedRoutes, last)
      then init + [last.id]
      else init
  }

  /** With no ban and no white list nothing is banned, so the early empty answer is the loop's answer. */
  lemma NoRestrictionBansNothing(bannedRoutes: RouteMatcher, whiteListedRoutes: RouteMatcher, routes: seq<Route>)
    requires bannedRoutes.isEmpty && whiteListedRoutes.isEmpty
    ensures BannedIds({}, bannedRoutes, {}, whiteListedRoutes, routes) == []
  {
  }

  /**
   * bannedRoutes: empty when nothing is banned or white-listed, otherwise
   * the ids of the banned routes collected in route order.
   */
  method BannedRoutes(
    bannedAgencies: set<int>, bannedRoutes: RouteMatcher,
    whiteListedAgencies: set<int>, whiteListedRoutes: RouteMatcher, routes: seq<Route>)
    returns (ret: seq<int>)
    ensures ret == BannedIds(bannedAgencies, bannedRoutes, whiteListedAgencies, whiteListedRoutes, routes)
  {
    if bannedRoutes.isEmpty && bannedAgencies == {} && whiteListedRoutes.isEmpty && whiteListedAgencies == {} {
      NoRestrictionBansNothing(bannedRoutes, whiteListedRoutes, routes);
      return [];
    }
    ret := [];
    var i := 0;
    while i < |routes|
      invariant 0 <= i <= |routes|
      invariant ret == BannedIds(bannedAgencies, bannedRoutes, whiteListedAgencies, whiteListedRoutes, routes[..i])
    {
      assert routes[..i + 1][..i] == routes[..i];
      if RouteIsBanned(bannedAgencies, bannedRoutes, whiteListedAgencies, whiteListedRoutes, routes[i]) {
        ret := ret + [routes[i].id];
      }
      i := i + 1;
    }
    assert routes[..i] == routes;
  }

  /** A set of stop indices, updated in place. */
  class BitSet {
    var bits: set<nat>

    constructor(bits0: set<nat>)
      ensures bits == bits0
    {
      bits := bits0;
    }

    method Clone() returns (c: BitSet)
      ensures fresh(c) && c.bits == bits
    {
      c := new BitSet(bits);
    }

    /** and: keep only the bits also set in other. */
    method And(other: BitSet)
      modifies this
      ensures bits == old(bits) * old(other.bits)
    {
      bits := bits * other.bits;
    }
  }

  /**
   * filterAvailableStops: when only wheelchair-accessible stops count, a
   * new set of the boardable stops that are accessible; otherwise the given
   * set itself. The given set is never changed.
   */
  method FilterAvailableStops(f: Filter, wheelchairAccessible: BitSet, boardingPossible: BitSet)
    returns (r: BitSet)
    ensures f.wheelchairAccessibility.enabled && f.wheelchairAccessibility.stopOnlyConsiderAccessible ==>
      fresh(r) && r.bits == boardingPossible.bits * wheelchairAccessible.bits
    ensures !(f.wheelchairAccessibility.enabled && f.wheelchairAccessibility.stopOnlyConsiderAccessible) ==>
      r == boardingPossible
    ensures boardingPossible.bits == old(boardingPossible.bits)
    ensures wheelchairAccessible.bits == old(wheelchairAccessible.bits)
  {
    if f.wheelchairAccessibility.enabled && f.wheelchairAccessibility.stopOnlyConsiderAccessible {
      var copy := boardingPossible.Clone();
      copy.And(wheelchairAccessible);
      return copy;
    }
    return boardingPossible;
  }

  /** The filtered stops are always a subset of the boardable ones. */
  lemma FilteredStopsAreBoardable(boardingPossible: set<nat>, wheelchairAccessible: set<nat>)
    ensures boardingPossible * wheelchairAccessible <= boardingPossible
  {
  }
}
