/**
 * SiriFuzzyTripMatcher: finds the scheduled trips a SIRI message speaks of
 * when it carries no trip id of the graph. Three static caches are built
 * once from the graph index: trips by unpadded id (rail trips also by
 * short name), trips by last stop and arrival time, and routes by
 * unpadded id; a journey is matched by vehicle ref, then dated journey
 * ref, then last stop and time, the time retried a day later, and at last
 * by the other quays of the last stop's station.
 */
module SiriFuzzyTripMatcher {
  import opened Wrappers
  import opened JavaStrings
  import opened TransitModes

  datatype AgencyAndId = AgencyAndId(agencyId: string, id: string)

  /** A trip: its id, short name, the mode of its route and its service. */
  datatype Trip = Trip(id: AgencyAndId, shortName: Option<string>, routeMode: TransitMode, serviceId: string)

  datatype Route = Route(id: AgencyAndId)

  datatype Stop = Stop(id: AgencyAndId, parentStation: Option<string>)

  /**
   * A trip of the index with what the cache build reads of its pattern:
   * the pattern's mode, the id of its last stop, and the scheduled arrival
   * at that stop when the timetable has times for the trip.
   */
  datatype TripEntry = TripEntry(trip: Trip, patternMode: TransitMode, lastStopId: string, lastArrival: Option<int>)

  /** The scheduled times of one trip: departure at the first stop and the service code. */
  datatype TripTimes = TripTimes(trip: Trip, firstDeparture: int, serviceCode: nat)

  datatype TripPattern = TripPattern(directionId: int, tripTimes: seq<TripTimes>)

  /**
   * The graph index, with every hash map's iteration order given as a
   * sequence: the trips of patternForTrip, the routes of patternsForRoute,
   * the feed agencies, the stops and the trips by id.
   */
  datatype GraphIndex = GraphIndex(
    tripEntries: seq<TripEntry>,
    routes: seq<Route>,
    patternsForRoute: map<Route, seq<TripPattern>>,
    feedAgencyIds: seq<string>,
    stopForId: map<AgencyAndId, Stop>,
    stops: seq<Stop>,
    stopsForParentStation: map<AgencyAndId, seq<Stop>>,
    trips: seq<Trip>)

  /* ---------------- string helpers ---------------- */

  /** getUnpaddedTripId: the id up to its first '-', when that '-' is not the first character. */
  function Unpadded(id: string): (r: string)
    ensures StartsWith(id, r)
    ensures r == id || (0 < |r| && '-' !in r && |r| < |id| && id[|r|] == '-')
  {
    var i := IndexOfAny(id, {'-'});
    if i > 0 then
      assert NoneIn(id[..i], {'-'});
      id[..i]
    else id
  }

  /** Unpadding an unpadded id changes nothing. */
  lemma UnpaddedIdempotent(id: string)
    ensures Unpadded(Unpadded(id)) == Unpadded(id)
  {
    var r := Unpadded(id);
    if r != id {
      assert NoneIn(r, {'-'});
    } else {
      assert Unpadded(r) == Unpadded(id);
    }
  }

  /** createStartStopKey: the stop id, a colon and the arrival time in decimal. */
  function StartStopKey(lastStopId: string, lastStopArrivalTime: int): string {
    lastStopId + ":" + IntToString(lastStopArrivalTime)
  }

  /**
   * The key names the stop and the time: the text after its last colon is
   * the time, which holds no colon, so even a stop id with colons is
   * recovered.
   */
  lemma StartStopKeyInjective(a: string, x: int, b: string, y: int)
    requires StartStopKey(a, x) == StartStopKey(b, y)
    ensures a == b && x == y
  {
    var s := StartStopKey(a, x);
    var xs, ys := IntToString(x), IntToString(y);
    assert s == a + ":" + xs;
    assert s == b + ":" + ys;
    assert s[|s| - |xs| - 1] == ':';
    assert s[|s| - |ys| - 1] == ':';
    assert forall k :: |s| - |ys| <= k < |s| ==> s[k] == ys[k - (|s| - |ys|)];
    assert forall k :: |s| - |xs| <= k < |s| ==> s[k] == xs[k - (|s| - |xs|)];
    assert |xs| == |ys|;
    assert a == s[..|a|] && b == s[..|b|];
    assert xs == s[|s| - |xs|..] && ys == s[|s| - |ys|..];
    IntToStringInjective(x, y);
  }

  /* ---------------- the caches as maps of sets ---------------- */

  /** No key maps to the empty set. */
  predicate NonEmptyEntries<V>(m: map<string, set<V>>) {
    forall k :: k in m ==> m[k] != {}
  }

  /** Map.get on a cache: None for a missing key. */
  function Get<V>(m: map<string, set<V>>, k: string): Option<set<V>> {
    if k in m then Some(m[k]) else None
  }

  /** Adding a value to the set under a key, creating the set when the key is new. */
  function AddTo<V(!new)>(m: map<string, set<V>>, k: string, v: V): (r: map<string, set<V>>)
    ensures NonEmptyEntries(m) ==> NonEmptyEntries(r)
  {
    m[k := (if k in m then m[k] else {}) + {v}]
  }

  /** The value added under each key in turn. */
  function AddKeys<V(!new)>(m: map<string, set<V>>, ks: seq<string>, v: V): (r: map<string, set<V>>)
    ensures NonEmptyEntries(m) ==> NonEmptyEntries(r)
    decreases |ks|
  {
    if ks == [] then m else AddKeys(AddTo(m, ks[0], v), ks[1..], v)
  }

  /** After adding under keys, a key is there when it was or is one of them, and its set gained the value just when it is. */
  lemma {:induction false} AddKeysContents<V(!new)>(m: map<string, set<V>>, ks: seq<string>, v: V, k: string, x: V)
    ensures k in AddKeys(m, ks, v) <==> k in m || k in ks
    ensures k in AddKeys(m, ks, v) ==> (x in AddKeys(m, ks, v)[k] <==> (k in m && x in m[k]) || (k in ks && x == v))
    decreases |ks|
  {
    if ks != [] {
      AddKeysContents(AddTo(m, ks[0], v), ks[1..], v, k, x);
      assert k in ks <==> k == ks[0] || k in ks[1..];
    }
  }

  /** Adding under one key is AddTo. */
  lemma AddKeysOne<V(!new)>(m: map<string, set<V>>, k: string, v: V)
    ensures AddKeys(m, [k], v) == AddTo(m, k, v)
  {
    assert [k][1..] == [];
  }

  /** The cache built from a base by adding each item's value under each of its keys, in order. */
  function IndexBy<E, V(!new)>(base: map<string, set<V>>, items: seq<E>, keysOf: E -> seq<string>, valueOf: E -> V): (r: map<string, set<V>>)
    ensures NonEmptyEntries(base) ==> NonEmptyEntries(r)
  {
    if items == [] then base
    else
      var last := items[|items| - 1];
      AddKeys(IndexBy(base, items[..|items| - 1], keysOf, valueOf), keysOf(last), valueOf(last))
  }

  /**
   * What the built cache holds: a key is there when it was there before or
   * some item has it, and its set holds what it held before and the values
   * of the items that have it.
   */
  lemma {:induction false} IndexByContents<E, V(!new)>(base: map<string, set<V>>, items: seq<E>, keysOf: E -> seq<string>, valueOf: E -> V, k: string, x: V)
    ensures k in IndexBy(base, items, keysOf, valueOf) <==> k in base || exists i :: 0 <= i < |items| && k in keysOf(items[i])
    ensures k in IndexBy(base, items, keysOf, valueOf) ==>
      (x in IndexBy(base, items, keysOf, valueOf)[k] <==>
         (k in base && x in base[k]) || exists i :: 0 <= i < |items| && k in keysOf(items[i]) && valueOf(items[i]) == x)
  {
    if items != [] {
      var init := items[..|items| - 1];
      var last := items[|items| - 1];
      IndexByContents(base, init, keysOf, valueOf, k, x);
      AddKeysContents(IndexBy(base, init, keysOf, valueOf), keysOf(last), valueOf(last), k, x);
      assert forall i :: 0 <= i < |init| ==> init[i] == items[i];
      if exists i :: 0 <= i < |items| && k in keysOf(items[i]) {
        var i :| 0 <= i < |items| && k in keysOf(items[i]);
        if i < |init| {
          assert k in keysOf(init[i]);
        }
      }
      if exists i :: 0 <= i < |items| && k in keysOf(items[i]) && valueOf(items[i]) == x {
        var i :| 0 <= i < |items| && k in keysOf(items[i]) && valueOf(items[i]) == x;
        if i < |init| {
          assert k in keysOf(init[i]) && valueOf(init[i]) == x;
        }
      }
    }
  }

  /** One more item is added to the cache of the items before it. */
  lemma IndexByStep<E, V(!new)>(base: map<string, set<V>>, items: seq<E>, keysOf: E -> seq<string>, valueOf: E -> V, i: nat)
    requires i < |items|
    ensures IndexBy(base, items[..i + 1], keysOf, valueOf)
            == AddKeys(IndexBy(base, items[..i], keysOf, valueOf), keysOf(items[i]), valueOf(items[i]))
  {
    assert items[..i + 1][..i] == items[..i];
  }

  /** The keys of a trip in the trip cache: its unpadded id, and for a rail trip its short name too. */
  function TripKeys(e: TripEntry): seq<string> {
    [Unpadded(e.trip.id.id)] + (if e.patternMode == Rail && e.trip.shortName.Some? then [e.trip.shortName.value] else [])
  }

  /** The key of a trip in the start-stop cache, when it has an arrival time. */
  function StartStopKeys(e: TripEntry): seq<string> {
    if e.lastArrival.Some? then [StartStopKey(e.lastStopId, e.lastArrival.value)] else []
  }

  function TripOf(e: TripEntry): Trip {
    e.trip
  }

  /** Adding a trip under its keys is adding it under its unpadded id and, for a rail trip, its short name. */
  lemma TripKeysAdded(m: map<string, set<Trip>>, e: TripEntry)
    ensures e.patternMode == Rail && e.trip.shortName.Some? ==>
      AddKeys(m, TripKeys(e), e.trip) == AddTo(AddTo(m, Unpadded(e.trip.id.id), e.trip), e.trip.shortName.value, e.trip)
    ensures !(e.patternMode == Rail && e.trip.shortName.Some?) ==>
      AddKeys(m, TripKeys(e), e.trip) == AddTo(m, Unpadded(e.trip.id.id), e.trip)
  {
    var t := e.trip;
    var u := Unpadded(t.id.id);
    if e.patternMode == Rail && t.shortName.Some? {
      assert TripKeys(e) == [u, t.shortName.value];
      assert [u, t.shortName.value][1..] == [t.shortName.value];
      AddKeysOne(AddTo(m, u, t), t.shortName.value, t);
    } else {
      assert TripKeys(e) == [u];
      AddKeysOne(m, u, t);
    }
  }

  function RouteKeys(r: Route): seq<string> {
    [Unpadded(r.id.id)]
  }

  function RouteOf(r: Route): Route {
    r
  }

  /**
   * The trip cache built from empty: a trip is under a key exactly when the
   * key is its unpadded id, or it runs on a rail pattern and the key is its
   * short name.
   */
  lemma TripCacheContents(entries: seq<TripEntry>, k: string, t: Trip)
    ensures var m := IndexBy(map[], entries, TripKeys, TripOf);
      (k in m && t in m[k]) <==>
        exists i :: 0 <= i < |entries| && entries[i].trip == t
                    && (k == Unpadded(t.id.id) || (entries[i].patternMode == Rail && t.shortName == Some(k)))
  {
    IndexByContents(map[], entries, TripKeys, TripOf, k, t);
    forall i | 0 <= i < |entries|
      ensures k in TripKeys(entries[i]) <==>
        k == Unpadded(entries[i].trip.id.id) || (entries[i].patternMode == Rail && entries[i].trip.shortName == Some(k))
    {
    }
  }

  /**
   * The start-stop cache built from empty: a trip is under the key of a
   * stop and a time exactly when that stop ends its pattern and the trip
   * arrives there at that time.
   */
  lemma StartStopCacheContents(entries: seq<TripEntry>, stopId: string, time: int, t: Trip)
    ensures var m := IndexBy(map[], entries, StartStopKeys, TripOf);
      var k := StartStopKey(stopId, time);
      (k in m && t in m[k]) <==>
        exists i :: 0 <= i < |entries| && entries[i].trip == t
                    && entries[i].lastStopId == stopId && entries[i].lastArrival == Some(time)
  {
    var k := StartStopKey(stopId, time);
    IndexByContents(map[], entries, StartStopKeys, TripOf, k, t);
    forall i | 0 <= i < |entries| && k in StartStopKeys(entries[i])
      ensures entries[i].lastStopId == stopId && entries[i].lastArrival == Some(time)
    {
      StartStopKeyInjective(entries[i].lastStopId, entries[i].lastArrival.value, stopId, time);
    }
  }

  /* ---------------- lookups ---------------- */

  /** getCachedTripsBySiriId: null for a null id, the empty set for an id not in the cache. */
  function BySiriId(mappedTrips: map<string, set<Trip>>, tripId: Option<string>): (r: Option<set<Trip>>)
    ensures tripId.None? ==> r.None?
    ensures tripId.Some? && tripId.value !in mappedTrips ==> r == Some({})
    ensures tripId.Some? && tripId.value in mappedTrips ==> r == Some(mappedTrips[tripId.value])
  {
    if tripId.None? then None
    else if tripId.value in mappedTrips then Some(mappedTrips[tripId.value])
    else Some({})
  }

  /** getRoutes: the routes of a line, or the empty set for a line not in the cache. */
  function GetRoutes(mappedRoutes: map<string, set<Route>>, lineRef: string): (r: set<Route>)
    ensures lineRef !in mappedRoutes ==> r == {}
    ensures lineRef in mappedRoutes ==> r == mappedRoutes[lineRef]
  {
    if lineRef in mappedRoutes then mappedRoutes[lineRef] else {}
  }

  /** The part of a monitored vehicle journey the activity match reads; times are seconds of the day. */
  datatype MonitoredJourney = MonitoredJourney(courseOfJourneyRef: Option<string>, destinationRef: Option<string>, destinationAimedArrival: Option<int>)

  /**
   * match(VehicleActivity): by course of journey when there is one, else by
   * destination and aimed arrival when both are there, else null.
   */
  function MatchActivity(mappedTrips: map<string, set<Trip>>, startStop: map<string, set<Trip>>, mvj: Option<MonitoredJourney>): (r: Option<set<Trip>>)
    ensures mvj.None? ==> r.None?
    ensures mvj.Some? && mvj.value.courseOfJourneyRef.Some? ==> r == BySiriId(mappedTrips, mvj.value.courseOfJourneyRef)
    ensures mvj.Some? && mvj.value.courseOfJourneyRef.None? && mvj.value.destinationRef.Some? && mvj.value.destinationAimedArrival.Some?
            ==> r == Get(startStop, StartStopKey(mvj.value.destinationRef.value, mvj.value.destinationAimedArrival.value))
    ensures r.Some? && r.value != {} ==> mvj.Some? && (mvj.value.courseOfJourneyRef.Some? || mvj.value.destinationRef.Some?)
  {
    if mvj.None? then None
    else if mvj.value.courseOfJourneyRef.Some? then BySiriId(mappedTrips, mvj.value.courseOfJourneyRef)
    else if mvj.value.destinationRef.Some? && mvj.value.destinationAimedArrival.Some? then
      Get(startStop, StartStopKey(mvj.value.destinationRef.value, mvj.value.destinationAimedArrival.value))
    else None
  }

  /** An estimated call: the stop point and the aimed times, in seconds of the day. */
  datatype EstimatedCall = EstimatedCall(stopPointRef: string, aimedArrival: Option<int>, aimedDeparture: Option<int>)

  datatype FramedRef = FramedRef(datedVehicleJourneyRef: Option<string>)

  datatype Journey = Journey(
    vehicleRef: Option<string>,
    datedVehicleJourneyRef: Option<string>,
    framedVehicleJourneyRef: Option<FramedRef>,
    estimatedCalls: seq<EstimatedCall>)

  /** The exceptions match can throw: no estimated call, no aimed time, no feed agency. */
  datatype MatchError = NoEstimatedCalls | NoAimedTime | NoFeedAgency

  /** The dated journey ref, taken from the framed ref when the journey has none of its own. */
  function DatedRef(j: Journey): Option<string> {
    if j.datedVehicleJourneyRef.Some? then j.datedVehicleJourneyRef
    else if j.framedVehicleJourneyRef.Some? then j.framedVehicleJourneyRef.value.datedVehicleJourneyRef
    else None
  }

  predicate NullOrEmpty(s: Option<set<Trip>>) {
    s.None? || s.value == {}
  }

  /** The key of a quay at a time in the start-stop cache. */
  function QuayKey(q: Stop, sec: int): string {
    StartStopKey(q.id.id, sec)
  }

  /**
   * The quay fallback: null when no quay has an entry at the time, else the
   * union of the entries of those that have one.
   */
  function QuayTrips(cache: map<string, set<Trip>>, quays: seq<Stop>, sec: int): (r: Option<set<Trip>>)
    ensures r.None? <==> forall i :: 0 <= i < |quays| ==> QuayKey(quays[i], sec) !in cache
  {
    if quays == [] then None
    else
      var init := quays[..|quays| - 1];
      var k := QuayKey(quays[|quays| - 1], sec);
      var prev := QuayTrips(cache, init, sec);
      assert forall i :: 0 <= i < |init| ==> init[i] == quays[i];
      if k !in cache then prev
      else if prev.None? then Some(cache[k])
      else Some(prev.value + cache[k])
  }

  /** The quay fallback's trips are exactly those cached for one of the quays at the time. */
  lemma {:induction false} QuayTripsMembers(cache: map<string, set<Trip>>, quays: seq<Stop>, sec: int, t: Trip)
    requires QuayTrips(cache, quays, sec).Some?
    ensures t in QuayTrips(cache, quays, sec).value <==>
      exists i :: 0 <= i < |quays| && QuayKey(quays[i], sec) in cache && t in cache[QuayKey(quays[i], sec)]
  {
    var init := quays[..|quays| - 1];
    var k := QuayKey(quays[|quays| - 1], sec);
    assert forall i :: 0 <= i < |init| ==> init[i] == quays[i];
    if QuayTrips(cache, init, sec).Some? {
      QuayTripsMembers(cache, init, sec, t);
    }
  }

  /** The first quay key with an entry: the key whose set the as-written loop takes as its own. */
  function FirstQuayKey(cache: map<string, set<Trip>>, quays: seq<Stop>, sec: int): (r: Option<string>)
    ensures r.None? <==> QuayTrips(cache, quays, sec).None?
    ensures r.Some? ==> r.value in cache && cache[r.value] <= QuayTrips(cache, quays, sec).value
  {
    if quays == [] then None
    else
      var prev := FirstQuayKey(cache, quays[..|quays| - 1], sec);
      var k := QuayKey(quays[|quays| - 1], sec);
      if prev.Some? then prev
      else if k in cache then Some(k)
      else None
  }

  /** One more quay is looked up after the quays before it. */
  lemma QuayStep(cache: map<string, set<Trip>>, quays: seq<Stop>, i: nat, sec: int)
    requires i < |quays|
    ensures var k := QuayKey(quays[i], sec);
      var prev := QuayTrips(cache, quays[..i], sec);
      QuayTrips(cache, quays[..i + 1], sec)
        == (if k !in cache then prev else if prev.None? then Some(cache[k]) else Some(prev.value + cache[k]))
    ensures var k := QuayKey(quays[i], sec);
      var first := FirstQuayKey(cache, quays[..i], sec);
      FirstQuayKey(cache, quays[..i + 1], sec) == (if first.Some? then first else if k in cache then Some(k) else None)
  {
    assert quays[..i + 1][..i] == quays[..i];
  }

  /**
   * One step of the as-written loop: with the cache as the loop left it,
   * a quay without an entry changes nothing, the first one found becomes
   * the set, and a later one is joined into it.
   */
  lemma AsWrittenStep(c0: map<string, set<Trip>>, quays: seq<Stop>, i: nat, sec: int, cur: map<string, set<Trip>>)
    requires i < |quays|
    requires FirstQuayKey(c0, quays[..i], sec).None? ==> cur == c0
    requires FirstQuayKey(c0, quays[..i], sec).Some? ==>
      cur == c0[FirstQuayKey(c0, quays[..i], sec).value := QuayTrips(c0, quays[..i], sec).value]
    ensures var k := QuayKey(quays[i], sec);
      var prev := QuayTrips(c0, quays[..i], sec);
      && (k !in cur ==> QuayTrips(c0, quays[..i + 1], sec) == prev
                        && FirstQuayKey(c0, quays[..i + 1], sec) == FirstQuayKey(c0, quays[..i], sec))
      && (k in cur && prev.None? ==> QuayTrips(c0, quays[..i + 1], sec) == Some(cur[k])
                                     && FirstQuayKey(c0, quays[..i + 1], sec) == Some(k))
      && (k in cur && prev.Some? ==> QuayTrips(c0, quays[..i + 1], sec) == Some(prev.value + cur[k])
                                     && FirstQuayKey(c0, quays[..i + 1], sec) == FirstQuayKey(c0, quays[..i], sec))
  {
    QuayStep(c0, quays, i, sec);
    var k := QuayKey(quays[i], sec);
    var prev := QuayTrips(c0, quays[..i], sec);
    var first := FirstQuayKey(c0, quays[..i], sec);
    if k in cur && prev.Some? && k == first.value {
      assert c0[k] <= prev.value;
      assert prev.value + c0[k] == prev.value + cur[k];
    }
  }

  /** The start-stop cache after the as-written loop: the first found set has taken in all the others. */
  function StartStopAfterAsWritten(cache: map<string, set<Trip>>, quays: seq<Stop>, sec: int): map<string, set<Trip>> {
    var first := FirstQuayKey(cache, quays, sec);
    if first.None? then cache else cache[first.value := QuayTrips(cache, quays, sec).value]
  }

  /**
   * After the as-written loop the cache entry of one quay holds a trip that
   * ends at another quay: a later lookup of that quay and time finds it.
   */
  lemma QuayLookupPollutesCache()
    ensures var a := Stop(AgencyAndId("RB", "A"), Some("S"));
      var b := Stop(AgencyAndId("RB", "B"), Some("S"));
      var tb := Trip(AgencyAndId("RB", "tb"), None, Bus, "s");
      var ta := Trip(AgencyAndId("RB", "ta"), None, Bus, "s");
      var cache := map[QuayKey(a, 5) := {ta}, QuayKey(b, 5) := {tb}];
      tb !in cache[QuayKey(a, 5)] && tb in StartStopAfterAsWritten(cache, [a, b], 5)[QuayKey(a, 5)]
  {
    var a := Stop(AgencyAndId("RB", "A"), Some("S"));
    var b := Stop(AgencyAndId("RB", "B"), Some("S"));
    var ta := Trip(AgencyAndId("RB", "ta"), None, Bus, "s");
    var tb := Trip(AgencyAndId("RB", "tb"), None, Bus, "s");
    assert QuayKey(a, 5) != QuayKey(b, 5) by {
      assert QuayKey(a, 5)[0] == 'A' && QuayKey(b, 5)[0] == 'B';
    }
    var cache := map[QuayKey(a, 5) := {ta}, QuayKey(b, 5) := {tb}];
    assert [a, b][..1] == [a];
    assert [a][..0] == [];
    assert QuayTrips(cache, [], 5) == None;
    assert QuayTrips(cache, [a], 5) == Some({ta});
    assert FirstQuayKey(cache, [a], 5) == Some(QuayKey(a, 5));
    assert FirstQuayKey(cache, [a, b], 5) == Some(QuayKey(a, 5));
    assert QuayTrips(cache, [a, b], 5) == Some({ta} + {tb});
  }

  /** The corrected fallback leaves the cache as it was and returns the same trips. */
  lemma CorrectedFallbackAgrees(cache: map<string, set<Trip>>, quays: seq<Stop>, sec: int)
    ensures FirstQuayKey(cache, quays, sec).None? ==> StartStopAfterAsWritten(cache, quays, sec) == cache
    ensures QuayTrips(cache, quays, sec).Some? ==>
      (StartStopAfterAsWritten(cache, quays, sec) != cache <==> cache[FirstQuayKey(cache, quays, sec).value] != QuayTrips(cache, quays, sec).value)
  {
  }

  /**
   * match(EstimatedVehicleJourney): by vehicle ref, then by dated journey
   * ref, then by last stop and aimed time, retried a day later, then by the
   * other quays of the last stop's station. The cache holds no empty set,
   * so the quay fallback starts from null.
   */
  function MatchOf(index: GraphIndex, mappedTrips: map<string, set<Trip>>, startStop: map<string, set<Trip>>, j: Journey): (r: Result<Option<set<Trip>>, MatchError>)
    requires NonEmptyEntries(startStop)
    ensures r == Err(NoEstimatedCalls) ==> j.estimatedCalls == []
    ensures r == Err(NoAimedTime) ==> j.estimatedCalls != [] && j.estimatedCalls[|j.estimatedCalls| - 1].aimedArrival.None?
    ensures r == Err(NoFeedAgency) ==> index.feedAgencyIds == []
  {
    var t2 := IdMatch(mappedTrips, j);
    if !NullOrEmpty(t2) then Ok(t2)
    else if j.estimatedCalls == [] then Err(NoEstimatedCalls)
    else LastStopMatch(index, startStop, j.estimatedCalls[|j.estimatedCalls| - 1])
  }

  /** The trips match finds by id: by vehicle ref, then by dated journey ref. */
  function IdMatch(mappedTrips: map<string, set<Trip>>, j: Journey): Option<set<Trip>> {
    var t1 := if j.vehicleRef.Some? then BySiriId(mappedTrips, j.vehicleRef) else None;
    if NullOrEmpty(t1) && DatedRef(j).Some? then Get(mappedTrips, DatedRef(j).value) else t1
  }

  /**
   * The part of match after the ids found nothing: the trips starting at
   * the last call's stop at its aimed time or a day later, else those of
   * the other quays of its station.
   */
  function LastStopMatch(index: GraphIndex, startStop: map<string, set<Trip>>, last: EstimatedCall): (r: Result<Option<set<Trip>>, MatchError>)
    requires NonEmptyEntries(startStop)
    ensures r != Err(NoEstimatedCalls)
    ensures r == Err(NoAimedTime) ==> last.aimedArrival.None? && last.aimedDeparture.None?
    ensures r == Err(NoFeedAgency) ==> index.feedAgencyIds == []
  {
    if last.aimedArrival.None? && last.aimedDeparture.None? then Err(NoAimedTime)
    else
      var sec := if last.aimedArrival.Some? then last.aimedArrival.value else last.aimedDeparture.value;
      var t3 := Get(startStop, StartStopKey(last.stopPointRef, sec));
      var t4 := if t3.None? then Get(startStop, StartStopKey(last.stopPointRef, sec + 24 * 60 * 60)) else t3;
      if !NullOrEmpty(t4) then Ok(t4)
      else if index.feedAgencyIds == [] then Err(NoFeedAgency)
      else
        var agencyId := index.feedAgencyIds[0];
        var stopId := AgencyAndId(agencyId, last.stopPointRef);
        if stopId in index.stopForId && index.stopForId[stopId].parentStation.Some? then
          var station := AgencyAndId(agencyId, index.stopForId[stopId].parentStation.value);
          var quays := if station in index.stopsForParentStation then index.stopsForParentStation[station] else [];
          Ok(QuayTrips(startStop, quays, sec))
        else Ok(t4)
  }

  /**
   * The start-stop cache after the last-stop part of match as written: only
   * the quay fallback changes it, as StartStopAfterAsWritten says.
   */
  function LastStopCacheAfter(index: GraphIndex, startStop: map<string, set<Trip>>, last: EstimatedCall): map<string, set<Trip>> {
    if last.aimedArrival.None? && last.aimedDeparture.None? then startStop
    else
      var sec := if last.aimedArrival.Some? then last.aimedArrival.value else last.aimedDeparture.value;
      var t3 := Get(startStop, StartStopKey(last.stopPointRef, sec));
      var t4 := if t3.None? then Get(startStop, StartStopKey(last.stopPointRef, sec + 24 * 60 * 60)) else t3;
      if !NullOrEmpty(t4) || index.feedAgencyIds == [] then startStop
      else
        var agencyId := index.feedAgencyIds[0];
        var stopId := AgencyAndId(agencyId, last.stopPointRef);
        if stopId in index.stopForId && index.stopForId[stopId].parentStation.Some? then
          var station := AgencyAndId(agencyId, index.stopForId[stopId].parentStation.value);
          var quays := if station in index.stopsForParentStation then index.stopsForParentStation[station] else [];
          StartStopAfterAsWritten(startStop, quays, sec)
        else startStop
  }

  /** The start-stop cache after the whole match as written. */
  function MatchCacheAfter(index: GraphIndex, mappedTrips: map<string, set<Trip>>, startStop: map<string, set<Trip>>, j: Journey): map<string, set<Trip>> {
    if !NullOrEmpty(IdMatch(mappedTrips, j)) || j.estimatedCalls == [] then startStop
    else LastStopCacheAfter(index, startStop, j.estimatedCalls[|j.estimatedCalls| - 1])
  }

  /**
   * The as-written quay lookup keeps the cache's keys and only lets its
   * sets grow, so the cache still holds no empty set.
   */
  lemma AsWrittenCacheGrows(cache: map<string, set<Trip>>, quays: seq<Stop>, sec: int)
    ensures var after := StartStopAfterAsWritten(cache, quays, sec);
      (forall k :: k in after <==> k in cache)
      && (forall k :: k in cache ==> cache[k] <= after[k])
      && (NonEmptyEntries(cache) ==> NonEmptyEntries(after))
  {
  }

  /** The same holds for the whole last-stop part and the whole match. */
  lemma MatchCacheGrows(index: GraphIndex, mappedTrips: map<string, set<Trip>>, startStop: map<string, set<Trip>>, j: Journey)
    ensures var after := MatchCacheAfter(index, mappedTrips, startStop, j);
      (forall k :: k in after <==> k in startStop)
      && (forall k :: k in startStop ==> startStop[k] <= after[k])
      && (NonEmptyEntries(startStop) ==> NonEmptyEntries(after))
  {
    if NullOrEmpty(IdMatch(mappedTrips, j)) && j.estimatedCalls != [] {
      var last := j.estimatedCalls[|j.estimatedCalls| - 1];
      if !(last.aimedArrival.None? && last.aimedDeparture.None?) {
        var sec := if last.aimedArrival.Some? then last.aimedArrival.value else last.aimedDeparture.value;
        if index.feedAgencyIds != [] {
          var agencyId := index.feedAgencyIds[0];
          var stopId := AgencyAndId(agencyId, last.stopPointRef);
          if stopId in index.stopForId && index.stopForId[stopId].parentStation.Some? {
            var station := AgencyAndId(agencyId, index.stopForId[stopId].parentStation.value);
            var quays := if station in index.stopsForParentStation then index.stopsForParentStation[station] else [];
            AsWrittenCacheGrows(startStop, quays, sec);
          }
        }
      }
    }
  }

  /** A vehicle ref the trip cache knows, with trips, decides the match. */
  lemma MatchPrefersVehicleRef(index: GraphIndex, mappedTrips: map<string, set<Trip>>, startStop: map<string, set<Trip>>, j: Journey)
    requires NonEmptyEntries(startStop)
    requires j.vehicleRef.Some? && j.vehicleRef.value in mappedTrips && mappedTrips[j.vehicleRef.value] != {}
    ensures MatchOf(index, mappedTrips, startStop, j) == Ok(Some(mappedTrips[j.vehicleRef.value]))
  {
  }

  /**
   * With no hit by id and no entry at the last stop's aimed time, the
   * entry a day later is taken: a trip that started the day before.
   */
  lemma MatchRetriesNextDay(index: GraphIndex, mappedTrips: map<string, set<Trip>>, startStop: map<string, set<Trip>>, j: Journey, sec: int)
    requires NonEmptyEntries(startStop)
    requires j.vehicleRef.None? && DatedRef(j).None?
    requires j.estimatedCalls != [] && j.estimatedCalls[|j.estimatedCalls| - 1].aimedArrival == Some(sec)
    requires StartStopKey(j.estimatedCalls[|j.estimatedCalls| - 1].stopPointRef, sec) !in startStop
    requires StartStopKey(j.estimatedCalls[|j.estimatedCalls| - 1].stopPointRef, sec + 86400) in startStop
    ensures MatchOf(index, mappedTrips, startStop, j)
            == Ok(Some(startStop[StartStopKey(j.estimatedCalls[|j.estimatedCalls| - 1].stopPointRef, sec + 86400)]))
  {
  }

  /** Every trip the match returns came from one of the caches. */
  lemma MatchedTripsAreCached(index: GraphIndex, mappedTrips: map<string, set<Trip>>, startStop: map<string, set<Trip>>, j: Journey, t: Trip)
    requires NonEmptyEntries(startStop)
    requires MatchOf(index, mappedTrips, startStop, j).Ok? && MatchOf(index, mappedTrips, startStop, j).value.Some?
    requires t in MatchOf(index, mappedTrips, startStop, j).value.value
    ensures (exists k :: k in mappedTrips && t in mappedTrips[k]) || (exists k :: k in startStop && t in startStop[k])
  {
    var r := MatchOf(index, mappedTrips, startStop, j).value.value;
    var t1 := if j.vehicleRef.Some? then BySiriId(mappedTrips, j.vehicleRef) else None;
    var t2 := IdMatch(mappedTrips, j);
    if !NullOrEmpty(t2) {
      if t2 == t1 {
        assert t in mappedTrips[j.vehicleRef.value];
      } else {
        assert t in mappedTrips[DatedRef(j).value];
      }
    } else {
      LastStopTripsAreCached(index, startStop, j.estimatedCalls[|j.estimatedCalls| - 1], t);
    }
  }

  /** Every trip the last-stop part of the match returns is in the start-stop cache. */
  lemma LastStopTripsAreCached(index: GraphIndex, startStop: map<string, set<Trip>>, last: EstimatedCall, t: Trip)
    requires NonEmptyEntries(startStop)
    requires LastStopMatch(index, startStop, last).Ok? && LastStopMatch(index, startStop, last).value.Some?
    requires t in LastStopMatch(index, startStop, last).value.value
    ensures exists k :: k in startStop && t in startStop[k]
  {
    var sec := if last.aimedArrival.Some? then last.aimedArrival.value else last.aimedDeparture.value;
    var k3 := StartStopKey(last.stopPointRef, sec);
    var k4 := StartStopKey(last.stopPointRef, sec + 24 * 60 * 60);
    var t4 := if k3 !in startStop then Get(startStop, k4) else Get(startStop, k3);
    if !NullOrEmpty(t4) {
      if k3 in startStop {
        assert t in startStop[k3];
      } else {
        assert t in startStop[k4];
      }
    } else {
      var agencyId := index.feedAgencyIds[0];
      var stopId := AgencyAndId(agencyId, last.stopPointRef);
      var station := AgencyAndId(agencyId, index.stopForId[stopId].parentStation.value);
      var quays := if station in index.stopsForParentStation then index.stopsForParentStation[station] else [];
      QuayTripsMembers(startStop, quays, sec, t);
      var i :| 0 <= i < |quays| && QuayKey(quays[i], sec) in startStop && t in startStop[QuayKey(quays[i], sec)];
    }
  }

  /* ---------------- the caches and the matcher ---------------- */

  /** The three static caches, shared by every matcher. */
  class TripCaches {
    var mappedTrips: map<string, set<Trip>>
    var mappedRoutes: map<string, set<Route>>
    var startStopTrips: map<string, set<Trip>>

    constructor()
      ensures mappedTrips == map[] && mappedRoutes == map[] && startStopTrips == map[]
      ensures Valid()
    {
      mappedTrips := map[];
      mappedRoutes := map[];
      startStopTrips := map[];
    }

    /** Every set in the caches was created with a first element. */
    ghost predicate Valid()
      reads this
    {
      NonEmptyEntries(mappedTrips) && NonEmptyEntries(mappedRoutes) && NonEmptyEntries(startStopTrips)
    }
  }

  class Matcher {
    const index: GraphIndex
    const caches: TripCaches

    /** The public constructor: builds the caches unless they are built already. */
    constructor(index: GraphIndex, caches: TripCaches)
      requires caches.Valid()
      modifies caches
      ensures this.index == index && this.caches == caches && caches.Valid()
      ensures old(caches.mappedTrips) != map[] ==> unchanged(caches)
      ensures old(caches.mappedTrips) == map[] ==> CachesBuilt(index, caches, old(caches.startStopTrips), old(caches.mappedRoutes))
    {
      this.index := index;
      this.caches := caches;
      new;
      InitCache(index, caches);
    }

    /**
     * The testing constructor: a forced rebuild empties the trip cache
     * alone, so the start-stop and route caches keep what an earlier index
     * put there.
     */
    constructor ForTesting(index: GraphIndex, caches: TripCaches, forceCacheRebuild: bool)
      requires caches.Valid()
      modifies caches
      ensures this.index == index && this.caches == caches && caches.Valid()
      ensures forceCacheRebuild ==> CachesBuilt(index, caches, old(caches.startStopTrips), old(caches.mappedRoutes))
    {
      this.index := index;
      this.caches := caches;
      new;
      if forceCacheRebuild {
        caches.mappedTrips := map[];
      }
      InitCache(index, caches);
    }

    /** The caches are those built from the index over the given earlier start-stop and route caches. */
    static ghost predicate CachesBuilt(index: GraphIndex, caches: TripCaches, startStop0: map<string, set<Trip>>, routes0: map<string, set<Route>>)
      reads caches
    {
      && caches.mappedTrips == IndexBy(map[], index.tripEntries, TripKeys, TripOf)
      && caches.startStopTrips == IndexBy(startStop0, index.tripEntries, StartStopKeys, TripOf)
      && caches.mappedRoutes == IndexBy(routes0, index.routes, RouteKeys, RouteOf)
    }

    /**
     * initCache: when the trip cache is empty, every trip is added under its
     * unpadded id (a rail trip also under its short name) and under the key
     * of its last stop and arrival, and every route under its unpadded id.
     */
    static method InitCache(index: GraphIndex, caches: TripCaches)
      requires caches.Valid()
      modifies caches
      ensures caches.Valid()
      ensures old(caches.mappedTrips) != map[] ==> unchanged(caches)
      ensures old(caches.mappedTrips) == map[] ==> CachesBuilt(index, caches, old(caches.startStopTrips), old(caches.mappedRoutes))
    {
      if caches.mappedTrips != map[] {
        return;
      }
      IndexTrips(index.tripEntries, caches);
      IndexRoutes(index.routes, caches);
    }

    /** The loop over the trips of initCache. */
    static method IndexTrips(entries: seq<TripEntry>, caches: TripCaches)
      requires caches.Valid()
      modifies caches
      ensures caches.Valid()
      ensures caches.mappedTrips == IndexBy(old(caches.mappedTrips), entries, TripKeys, TripOf)
      ensures caches.startStopTrips == IndexBy(old(caches.startStopTrips), entries, StartStopKeys, TripOf)
      ensures caches.mappedRoutes == old(caches.mappedRoutes)
    {
      var trips0, startStop0 := caches.mappedTrips, caches.startStopTrips;
      assert NonEmptyEntries(trips0) && NonEmptyEntries(startStop0);
      var mappedTrips, startStop := trips0, startStop0;
      var i := 0;
      while i < |entries|
        invariant 0 <= i <= |entries|
        invariant mappedTrips == IndexBy(trips0, entries[..i], TripKeys, TripOf)
        invariant startStop == IndexBy(startStop0, entries[..i], StartStopKeys, TripOf)
        invariant unchanged(caches)
      {
        IndexByStep(trips0, entries, TripKeys, TripOf, i);
        IndexByStep(startStop0, entries, StartStopKeys, TripOf, i);
        mappedTrips, startStop := AddTrip(entries[i], mappedTrips, startStop);
        i := i + 1;
      }
      assert entries[..i] == entries;
      assert NonEmptyEntries(mappedTrips) && NonEmptyEntries(startStop);
      caches.mappedTrips := mappedTrips;
      caches.startStopTrips := startStop;
    }

    /** The body of the loop over the trips: a trip added to the trip cache and the start-stop cache. */
    static method AddTrip(e: TripEntry, mappedTrips: map<string, set<Trip>>, startStop: map<string, set<Trip>>)
      returns (mappedTrips': map<string, set<Trip>>, startStop': map<string, set<Trip>>)
      ensures mappedTrips' == AddKeys(mappedTrips, TripKeys(e), e.trip)
      ensures startStop' == AddKeys(startStop, StartStopKeys(e), e.trip)
    {
      var trip := e.trip;
      TripKeysAdded(mappedTrips, e);
      var currentTripId := Unpadded(trip.id.id);
      mappedTrips' := AddTo(mappedTrips, currentTripId, trip);
      if e.patternMode == Rail && trip.shortName.Some? {
        mappedTrips' := AddTo(mappedTrips', trip.shortName.value, trip);
      }
      startStop' := startStop;
      if e.lastArrival.Some? {
        var key := StartStopKey(e.lastStopId, e.lastArrival.value);
        assert StartStopKeys(e) == [key];
        AddKeysOne(startStop, key, trip);
        startStop' := AddTo(startStop, key, trip);
      }
    }

    /** The loop over the routes of initCache. */
    static method IndexRoutes(routes: seq<Route>, caches: TripCaches)
      requires caches.Valid()
      modifies caches
      ensures caches.Valid()
      ensures caches.mappedRoutes == IndexBy(old(caches.mappedRoutes), routes, RouteKeys, RouteOf)
      ensures caches.mappedTrips == old(caches.mappedTrips) && caches.startStopTrips == old(caches.startStopTrips)
    {
      var routes0 := caches.mappedRoutes;
      assert NonEmptyEntries(routes0);
      var mappedRoutes := routes0;
      var i := 0;
      while i < |routes|
        invariant 0 <= i <= |routes|
        invariant mappedRoutes == IndexBy(routes0, routes[..i], RouteKeys, RouteOf)
        invariant unchanged(caches)
      {
        IndexByStep(routes0, routes, RouteKeys, RouteOf, i);
        var currentRouteId := Unpadded(routes[i].id.id);
        assert RouteKeys(routes[i]) == [currentRouteId];
        AddKeysOne(mappedRoutes, currentRouteId, routes[i]);
        mappedRoutes := AddTo(mappedRoutes, currentRouteId, routes[i]);
        i := i + 1;
      }
      assert routes[..i] == routes;
      assert NonEmptyEntries(mappedRoutes);
      caches.mappedRoutes := mappedRoutes;
    }

    /**
     * The quay fallback as written: the first set found is the cache's own,
     * and each later one is added into it, so the cache entry of the first
     * quay grows with the trips of the others.
     */
    method CollectQuayTripsAsWritten(quays: seq<Stop>, sec: int) returns (trips: Option<set<Trip>>)
      modifies caches
      ensures trips == QuayTrips(old(caches.startStopTrips), quays, sec)
      ensures caches.startStopTrips == StartStopAfterAsWritten(old(caches.startStopTrips), quays, sec)
      ensures caches.mappedTrips == old(caches.mappedTrips) && caches.mappedRoutes == old(caches.mappedRoutes)
    {
      var c0 := caches.startStopTrips;
      var cache := c0;
      trips := None;
      var aliasKey: Option<string> := None;
      var i := 0;
      while i < |quays|
        invariant 0 <= i <= |quays|
        invariant trips == QuayTrips(c0, quays[..i], sec)
        invariant aliasKey == FirstQuayKey(c0, quays[..i], sec)
        invariant aliasKey.None? ==> cache == c0
        invariant aliasKey.Some? ==> trips.Some? && cache == c0[aliasKey.value := trips.value]
        invariant unchanged(caches)
      {
        cache, trips, aliasKey := AsWrittenNext(c0, quays, i, sec, cache, trips, aliasKey);
        i := i + 1;
      }
      assert quays[..i] == quays;
      caches.startStopTrips := cache;
    }

    /** One quay of the as-written fallback, on the cache as the loop left it. */
    static method AsWrittenNext(c0: map<string, set<Trip>>, quays: seq<Stop>, i: nat, sec: int,
                                cache: map<string, set<Trip>>, trips: Option<set<Trip>>, aliasKey: Option<string>)
      returns (cache': map<string, set<Trip>>, trips': Option<set<Trip>>, aliasKey': Option<string>)
      requires i < |quays|
      requires trips == QuayTrips(c0, quays[..i], sec) && aliasKey == FirstQuayKey(c0, quays[..i], sec)
      requires aliasKey.None? ==> cache == c0
      requires aliasKey.Some? ==> trips.Some? && cache == c0[aliasKey.value := trips.value]
      ensures trips' == QuayTrips(c0, quays[..i + 1], sec) && aliasKey' == FirstQuayKey(c0, quays[..i + 1], sec)
      ensures aliasKey'.None? ==> cache' == c0
      ensures aliasKey'.Some? ==> trips'.Some? && cache' == c0[aliasKey'.value := trips'.value]
    {
      AsWrittenStep(c0, quays, i, sec, cache);
      cache', trips', aliasKey' := cache, trips, aliasKey;
      var key := QuayKey(quays[i], sec);
      var tripSet := Get(cache, key);
      if tripSet.Some? {
        if trips.None? {
          trips' := tripSet;
          aliasKey' := Some(key);
        } else {
          trips' := Some(trips.value + tripSet.value);
          // trips is the set stored under aliasKey: the cached set grows with it
          cache' := cache[aliasKey.value := trips'.value];
        }
      }
    }

    /** The quay fallback, corrected: the sets found are joined in a new set and the cache is left alone. */
    method CollectQuayTrips(quays: seq<Stop>, sec: int) returns (trips: Option<set<Trip>>)
      ensures trips == QuayTrips(caches.startStopTrips, quays, sec)
    {
      trips := None;
      var i := 0;
      while i < |quays|
        invariant 0 <= i <= |quays|
        invariant trips == QuayTrips(caches.startStopTrips, quays[..i], sec)
      {
        assert quays[..i + 1][..i] == quays[..i];
        var tripSet := Get(caches.startStopTrips, QuayKey(quays[i], sec));
        if tripSet.Some? {
          trips := if trips.None? then tripSet else Some(trips.value + tripSet.value);
        }
        i := i + 1;
      }
      assert quays[..i] == quays;
    }

    /**
     * match(EstimatedVehicleJourney), with the quay fallback as written: the
     * answer is the specified match on the caches as they were, and the
     * start-stop cache is left as the as-written fallback leaves it.
     */
    method Match(j: Journey) returns (r: Result<Option<set<Trip>>, MatchError>)
      requires caches.Valid()
      modifies caches
      ensures r == MatchOf(index, old(caches.mappedTrips), old(caches.startStopTrips), j)
      ensures caches.startStopTrips == MatchCacheAfter(index, old(caches.mappedTrips), old(caches.startStopTrips), j)
      ensures caches.mappedTrips == old(caches.mappedTrips) && caches.mappedRoutes == old(caches.mappedRoutes)
      ensures caches.Valid()
    {
      MatchCacheGrows(index, caches.mappedTrips, caches.startStopTrips, j);
      var trips: Option<set<Trip>> := None;
      if j.vehicleRef.Some? {
        trips := BySiriId(caches.mappedTrips, j.vehicleRef);
      }
      if NullOrEmpty(trips) {
        var datedVehicleRef := DatedRef(j);
        if datedVehicleRef.Some? {
          trips := Get(caches.mappedTrips, datedVehicleRef.value);
        }
      }
      if NullOrEmpty(trips) {
        if j.estimatedCalls == [] {
          return Err(NoEstimatedCalls);
        }
        r := MatchLastStop(j.estimatedCalls[|j.estimatedCalls| - 1]);
        return;
      }
      r := Ok(trips);
    }

    /** The last-stop part of match, with the quay fallback as written. */
    method MatchLastStop(lastStop: EstimatedCall) returns (r: Result<Option<set<Trip>>, MatchError>)
      requires caches.Valid()
      modifies caches
      ensures r == LastStopMatch(index, old(caches.startStopTrips), lastStop)
      ensures caches.startStopTrips == LastStopCacheAfter(index, old(caches.startStopTrips), lastStop)
      ensures caches.mappedTrips == old(caches.mappedTrips) && caches.mappedRoutes == old(caches.mappedRoutes)
    {
      if lastStop.aimedArrival.None? && lastStop.aimedDeparture.None? {
        return Err(NoAimedTime);
      }
      var arrivalTime := if lastStop.aimedArrival.Some? then lastStop.aimedArrival.value else lastStop.aimedDeparture.value;
      var trips := Get(caches.startStopTrips, StartStopKey(lastStop.stopPointRef, arrivalTime));
      if trips.None? {
        var lastStopArrivalTime := arrivalTime + 24 * 60 * 60;
        trips := Get(caches.startStopTrips, StartStopKey(lastStop.stopPointRef, lastStopArrivalTime));
      }
      if NullOrEmpty(trips) {
        if index.feedAgencyIds == [] {
          return Err(NoFeedAgency);
        }
        var agencyId := index.feedAgencyIds[0];
        var stopId := AgencyAndId(agencyId, lastStop.stopPointRef);
        if stopId in index.stopForId && index.stopForId[stopId].parentStation.Some? {
          var station := AgencyAndId(agencyId, index.stopForId[stopId].parentStation.value);
          var allQuays := if station in index.stopsForParentStation then index.stopsForParentStation[station] else [];
          trips := CollectQuayTripsAsWritten(allQuays, arrivalTime);
        }
      }
      r := Ok(trips);
    }

    /**
     * getStop: the id of the stop with that id, the first in the index's
     * order; failing that, the station id of the first stop whose parent
     * station has that id; failing that, null.
     */
    method GetStop(siriStopId: string) returns (r: Option<AgencyAndId>)
      ensures (exists i :: 0 <= i < |index.stops| && index.stops[i].id.id == siriStopId) ==>
        exists i :: 0 <= i < |index.stops| && index.stops[i].id.id == siriStopId && r == Some(index.stops[i].id)
                    && forall k :: 0 <= k < i ==> index.stops[k].id.id != siriStopId
      ensures (forall i :: 0 <= i < |index.stops| ==> index.stops[i].id.id != siriStopId) ==>
        ((exists i :: 0 <= i < |index.stops| && index.stops[i].parentStation == Some(siriStopId)) ==>
          exists i :: 0 <= i < |index.stops| && index.stops[i].parentStation == Some(siriStopId)
                      && r == Some(AgencyAndId(index.stops[i].id.agencyId, siriStopId)))
        && ((forall i :: 0 <= i < |index.stops| ==> index.stops[i].parentStation != Some(siriStopId)) ==> r.None?)
    {
      var stops := index.stops;
      var i := 0;
      while i < |stops|
        invariant 0 <= i <= |stops|
        invariant forall k :: 0 <= k < i ==> stops[k].id.id != siriStopId
      {
        if stops[i].id.id == siriStopId {
          return Some(stops[i].id);
        }
        i := i + 1;
      }
      i := 0;
      while i < |stops|
        invariant 0 <= i <= |stops|
        invariant forall k :: 0 <= k < i ==> stops[k].parentStation != Some(siriStopId)
      {
        if stops[i].parentStation == Some(siriStopId) {
          return Some(AgencyAndId(stops[i].id.agencyId, siriStopId));
        }
        i := i + 1;
      }
      return None;
    }

    /** getTripId: the id of the first trip of the index with that id part, or null. */
    method GetTripId(vehicleJourney: string) returns (r: Option<AgencyAndId>)
      ensures r.Some? ==> exists i :: 0 <= i < |index.trips| && index.trips[i].id == r.value && r.value.id == vehicleJourney
      ensures r.None? <==> forall i :: 0 <= i < |index.trips| ==> index.trips[i].id.id != vehicleJourney
      ensures r.Some? ==> exists i :: 0 <= i < |index.trips| && index.trips[i].id == r.value
                                      && forall k :: 0 <= k < i ==> index.trips[k].id.id != vehicleJourney
    {
      var i := 0;
      while i < |index.trips|
        invariant 0 <= i <= |index.trips|
        invariant forall k :: 0 <= k < i ==> index.trips[k].id.id != vehicleJourney
      {
        if index.trips[i].id.id == vehicleJourney {
          return Some(index.trips[i].id);
        }
        i := i + 1;
      }
      return None;
    }

    /** The patterns of a route; a route without patterns has none. */
    function PatternsOf(route: Route): seq<TripPattern>
      reads this
    {
      if route in index.patternsForRoute then index.patternsForRoute[route] else []
    }

    /**
     * getTrip: the trip of a pattern of the route in the direction that
     * departs its first stop at the start time on a running service; null
     * when there is none.
     */
    method GetTrip(route: Route, direction: int, startTime: int, servicesRunning: set<nat>) returns (r: Option<Trip>)
      ensures r.Some? ==>
        exists p, k :: p in PatternsOf(route) && p.directionId == direction && 0 <= k < |p.tripTimes|
          && TimesMatch(p.tripTimes[k], startTime, servicesRunning) && p.tripTimes[k].trip == r.value
      ensures r.None? ==> forall p :: p in PatternsOf(route) && p.directionId == direction ==> NoTimesMatch(p, startTime, servicesRunning)
      ensures r.Some? ==>
        exists i, k :: 0 <= i < |PatternsOf(route)| && PatternsOf(route)[i].directionId == direction
          && (forall m :: 0 <= m < i && PatternsOf(route)[m].directionId == direction ==> NoTimesMatch(PatternsOf(route)[m], startTime, servicesRunning))
          && 0 <= k < |PatternsOf(route)[i].tripTimes| && PatternsOf(route)[i].tripTimes[k].trip == r.value
          && TimesMatch(PatternsOf(route)[i].tripTimes[k], startTime, servicesRunning)
          && (forall m :: 0 <= m < k ==> !TimesMatch(PatternsOf(route)[i].tripTimes[m], startTime, servicesRunning))
    {
      var patterns := PatternsOf(route);
      var i := 0;
      while i < |patterns|
        invariant 0 <= i <= |patterns|
        invariant forall m :: 0 <= m < i && patterns[m].directionId == direction ==> NoTimesMatch(patterns[m], startTime, servicesRunning)
      {
        var pattern := patterns[i];
        if pattern.directionId == direction {
          var k := FirstMatchingTimes(pattern.tripTimes, startTime, servicesRunning);
          if k < |pattern.tripTimes| {
            return Some(pattern.tripTimes[k].trip);
          }
        }
        i := i + 1;
      }
      r := None;
      forall p | p in patterns && p.directionId == direction
        ensures NoTimesMatch(p, startTime, servicesRunning)
      {
        var m :| 0 <= m < |patterns| && patterns[m] == p;
      }
    }

    /** The index of the first matching trip times, or their number when none matches. */
    static method FirstMatchingTimes(times: seq<TripTimes>, startTime: int, servicesRunning: set<nat>) returns (k: nat)
      ensures k <= |times|
      ensures k < |times| ==> TimesMatch(times[k], startTime, servicesRunning)
      ensures forall m :: 0 <= m < k ==> !TimesMatch(times[m], startTime, servicesRunning)
    {
      k := 0;
      while k < |times| && !TimesMatch(times[k], startTime, servicesRunning)
        invariant k <= |times|
        invariant forall m :: 0 <= m < k ==> !TimesMatch(times[m], startTime, servicesRunning)
      {
        k := k + 1;
      }
    }

    /**
     * getTripIdForTripShortNameServiceDateAndMode: among the trips cached
     * under the short name, taken in the set's iteration order, the first
     * of that mode whose short name is that name and whose service runs on
     * the date; serviceDates stands for the calendar service.
     */
    method GetTripIdForShortNameDateAndMode(tripShortName: string, serviceDate: int, mode: TransitMode,
                                           order: seq<Trip>, serviceDates: string -> set<int>) returns (r: Option<AgencyAndId>)
      requires forall t :: t in order <==> t in BySiriId(caches.mappedTrips, Some(tripShortName)).value
      ensures r.Some? ==> exists t :: t in BySiriId(caches.mappedTrips, Some(tripShortName)).value && t.id == r.value
                                      && ShortNameMatch(t, tripShortName, serviceDate, mode, serviceDates)
      ensures r.None? ==> forall t :: t in BySiriId(caches.mappedTrips, Some(tripShortName)).value
                                      ==> !ShortNameMatch(t, tripShortName, serviceDate, mode, serviceDates)
    {
      var i := 0;
      while i < |order|
        invariant 0 <= i <= |order|
        invariant forall m :: 0 <= m < i ==> !ShortNameMatch(order[m], tripShortName, serviceDate, mode, serviceDates)
      {
        var trip := order[i];
        if trip.routeMode == mode {
          if serviceDate in serviceDates(trip.serviceId) && trip.shortName == Some(tripShortName) {
            return Some(trip.id);
          }
        }
        i := i + 1;
      }
      forall t | t in BySiriId(caches.mappedTrips, Some(tripShortName)).value
        ensures !ShortNameMatch(t, tripShortName, serviceDate, mode, serviceDates)
      {
        var m :| 0 <= m < |order| && order[m] == t;
      }
      return None;
    }
  }

  /** Trip times depart the first stop at the time on a running service. */
  predicate TimesMatch(times: TripTimes, startTime: int, servicesRunning: set<nat>) {
    times.firstDeparture == startTime && times.serviceCode in servicesRunning
  }

  /** No trip times of the pattern match. */
  predicate NoTimesMatch(p: TripPattern, startTime: int, servicesRunning: set<nat>) {
    forall k :: 0 <= k < |p.tripTimes| ==> !TimesMatch(p.tripTimes[k], startTime, servicesRunning)
  }

  /** A trip of the mode, with that short name, running on the date. */
  predicate ShortNameMatch(t: Trip, tripShortName: string, serviceDate: int, mode: TransitMode, serviceDates: string -> set<int>) {
    t.routeMode == mode && serviceDate in serviceDates(t.serviceId) && t.shortName == Some(tripShortName)
  }
}
