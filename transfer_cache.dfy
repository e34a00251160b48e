/**
 * RaptorRequestTransferCache: transfer indexes are cached by a key made of
 * the graph's transfer lists (compared by identity) and the street options
 * that influence transfers. Before the index is built, a copy of the
 * request's preferences is rounded so that similar requests can share it.
 */
module RaptorRequestTransferCache {
  import opened JavaInt

  datatype BikePreferences = BikePreferences(
    optimizeType: int, triangleSafetyFactor: real, triangleSlopeFactor: real, triangleTimeFactor: real,
    switchCost: int, switchTime: int, speed: real)

  datatype WalkPreferences = WalkPreferences(
    speed: real, reluctance: real, stairsReluctance: real, stairsTimeFactor: real, safetyFactor: real)

  datatype StreetPreferences = StreetPreferences(
    turnReluctance: real, elevatorBoardCost: int, elevatorBoardTime: int, elevatorHopCost: int, elevatorHopTime: int)

  /** The values of a RoutingPreferences that transfers depend on; the wheelchair accessibility is taken as already rounded. */
  datatype PreferenceValues = PreferenceValues(
    bike: BikePreferences, walk: WalkPreferences, street: StreetPreferences, wheelchairAccessibility: int)

  /** Every integer preference the cache rounds is a Java int. */
  predicate IntsInRange(v: PreferenceValues) {
    InRange(v.bike.switchCost) && InRange(v.bike.switchTime)
    && InRange(v.street.elevatorBoardCost) && InRange(v.street.elevatorBoardTime)
    && InRange(v.street.elevatorHopCost) && InRange(v.street.elevatorHopTime)
  }

  /**
   * roundTo100: 1 to 99 become 100; anything else is rounded to the nearest
   * hundred, halves up, by Java's truncating division after adding 50.
   */
  function RoundTo100(input: int): (r: int)
    requires InRange(input)
    ensures InRange(r) && r % 100 == 0
    ensures 0 < input < 100 ==> r == 100
    ensures -50 <= input <= 0 ==> r == 0
    ensures 100 <= input <= MAX_INT - 50 ==> input - 49 <= r <= input + 50 && r >= 100
    ensures input < -50 ==> input + 50 <= r <= input + 149 && r <= 0
    ensures input > MAX_INT - 50 ==> r < 0
  {
    if 0 < input < 100 then 100
    else
      var sum := Wrap(input + 50);
      RoundTowardZero(sum);
      Quot(sum, 100) * 100
  }

  /** Java's (sum / 100) * 100: the multiple of 100 next to sum toward zero. */
  lemma RoundTowardZero(sum: int)
    requires InRange(sum)
    ensures Quot(sum, 100) * 100 % 100 == 0 && InRange(Quot(sum, 100) * 100)
    ensures sum >= 0 ==> sum - 99 <= Quot(sum, 100) * 100 <= sum
    ensures sum < 0 ==> sum <= Quot(sum, 100) * 100 <= sum + 99
  {
    var q := Quot(sum, 100);
    assert Abs(q) * 100 <= Abs(sum) < (Abs(q) + 1) * 100;
    if sum >= 0 {
      assert q >= 0;
    } else {
      assert q <= 0;
    }
  }

  /**
   * Rounding an already rounded value changes nothing, for every value
   * whose rounding stays 50 below the largest int.
   */
  lemma RoundTo100Idempotent(input: int)
    requires 0 <= input <= MAX_INT - 100
    ensures RoundTo100(RoundTo100(input)) == RoundTo100(input)
  {
    var r := RoundTo100(input);
    if r != 0 {
      var x := RoundTo100(r);
      SameHundred(x, r);
    }
  }

  /**
   * Below -50 rounding is not idempotent: the truncating division moves a
   * rounded value up by another hundred.
   */
  lemma RoundTo100NegativeMovesTwice()
    ensures RoundTo100(-150) == -100 && RoundTo100(-100) == 0
  {
    assert Wrap(-150 + 50) == -100 && Quot(-100, 100) == -1;
    assert Wrap(-100 + 50) == -50 && Quot(-50, 100) == 0;
  }

  /** Two multiples of 100 less than 100 apart are equal. */
  lemma SameHundred(x: int, r: int)
    requires x % 100 == 0 && r % 100 == 0 && r - 100 < x < r + 100
    ensures x == r
  {
    var a, b := x / 100, r / 100;
    assert x == a * 100 && r == b * 100;
    assert (a - b) * 100 == x - r;
  }

  /** Math.round: the nearest integer, halves up. */
  function MathRound(x: real): int {
    (x + 0.5).Floor
  }

  /** roundTo(x, 1) on exact reals: the nearest tenth. */
  function RoundToTenth(x: real): (r: real)
    ensures x - 0.05 < r <= x + 0.05
  {
    MathRound(x * 10.0) as real / 10.0
  }

  /** roundToHalf on exact reals: (int) truncates toward zero. */
  function RoundToHalf(x: real): (r: real)
    ensures x >= 0.0 ==> x - 0.25 < r <= x + 0.25
  {
    var y := x * 2.0 + 0.5;
    var n := if y >= 0.0 then y.Floor else -((-y).Floor);
    n as real / 2.0
  }

  lemma RoundToTenthIdempotent(x: real)
    ensures RoundToTenth(RoundToTenth(x)) == RoundToTenth(x)
  {
    var k := MathRound(x * 10.0);
    assert RoundToTenth(x) * 10.0 == k as real;
    assert (k as real + 0.5).Floor == k;
  }

  lemma RoundToHalfIdempotent(x: real)
    requires x >= 0.0
    ensures RoundToHalf(RoundToHalf(x)) == RoundToHalf(x)
  {
    var y := x * 2.0 + 0.5;
    var n := y.Floor;
    assert RoundToHalf(x) * 2.0 == n as real;
    assert (n as real + 0.5).Floor == n;
  }

  /** The values after prepareTransferPreferences. */
  function Prepared(v: PreferenceValues): (r: PreferenceValues)
    requires IntsInRange(v)
    ensures IntsInRange(r)
  {
    var safety := RoundToTenth(v.bike.triangleSafetyFactor);
    var slope := RoundToTenth(v.bike.triangleSlopeFactor);
    PreferenceValues(
      BikePreferences(
        v.bike.optimizeType, safety, slope, 1.0 - safety - slope,
        RoundTo100(v.bike.switchCost), RoundTo100(v.bike.switchTime), RoundToHalf(v.bike.speed)),
      WalkPreferences(
        RoundToHalf(v.walk.speed), RoundToTenth(v.walk.reluctance), RoundToTenth(v.walk.stairsReluctance),
        RoundToTenth(v.walk.stairsTimeFactor), RoundToTenth(v.walk.safetyFactor)),
      StreetPreferences(
        RoundToTenth(v.street.turnReluctance),
        RoundTo100(v.street.elevatorBoardCost), RoundTo100(v.street.elevatorBoardTime),
        RoundTo100(v.street.elevatorHopCost), RoundTo100(v.street.elevatorHopTime)),
      v.wheelchairAccessibility)
  }

  /** The preferences a request can carry: no negative speeds, and no rounded integer close to overflow. */
  predicate Realistic(v: PreferenceValues) {
    v.bike.speed >= 0.0 && v.walk.speed >= 0.0
    && 0 <= v.bike.switchCost <= MAX_INT - 100 && 0 <= v.bike.switchTime <= MAX_INT - 100
    && 0 <= v.street.elevatorBoardCost <= MAX_INT - 100 && 0 <= v.street.elevatorBoardTime <= MAX_INT - 100
    && 0 <= v.street.elevatorHopCost <= MAX_INT - 100 && 0 <= v.street.elevatorHopTime <= MAX_INT - 100
  }

  /**
   * Preparing prepared preferences changes nothing; the bike triangle's
   * three factors then add up to one.
   */
  lemma PreparedIsIdempotent(v: PreferenceValues)
    requires IntsInRange(v) && Realistic(v)
    ensures Prepared(Prepared(v)) == Prepared(v)
    ensures Prepared(v).bike.triangleSafetyFactor + Prepared(v).bike.triangleSlopeFactor
            + Prepared(v).bike.triangleTimeFactor == 1.0
  {
    var p := Prepared(v);
    var q := Prepared(p);
    PreparedBikeIdempotent(v);
    PreparedWalkIdempotent(v);
    PreparedStreetIdempotent(v);
    assert q.bike == p.bike && q.walk == p.walk && q.street == p.street;
  }

  lemma PreparedBikeIdempotent(v: PreferenceValues)
    requires IntsInRange(v) && Realistic(v)
    ensures Prepared(Prepared(v)).bike == Prepared(v).bike
    ensures Prepared(v).bike.triangleSafetyFactor + Prepared(v).bike.triangleSlopeFactor
            + Prepared(v).bike.triangleTimeFactor == 1.0
  {
    RoundToTenthIdempotent(v.bike.triangleSafetyFactor);
    RoundToTenthIdempotent(v.bike.triangleSlopeFactor);
    RoundTo100Idempotent(v.bike.switchCost);
    RoundTo100Idempotent(v.bike.switchTime);
    RoundToHalfIdempotent(v.bike.speed);
  }

  lemma PreparedWalkIdempotent(v: PreferenceValues)
    requires IntsInRange(v) && Realistic(v)
    ensures Prepared(Prepared(v)).walk == Prepared(v).walk
  {
    RoundToHalfIdempotent(v.walk.speed);
    RoundToTenthIdempotent(v.walk.reluctance);
    RoundToTenthIdempotent(v.walk.stairsReluctance);
    RoundToTenthIdempotent(v.walk.stairsTimeFactor);
    RoundToTenthIdempotent(v.walk.safetyFactor);
  }

  lemma PreparedStreetIdempotent(v: PreferenceValues)
    requires IntsInRange(v) && Realistic(v)
    ensures Prepared(Prepared(v)).street == Prepared(v).street
  {
    RoundToTenthIdempotent(v.street.turnReluctance);
    RoundTo100Idempotent(v.street.elevatorBoardCost);
    RoundTo100Idempotent(v.street.elevatorBoardTime);
    RoundTo100Idempotent(v.street.elevatorHopCost);
    RoundTo100Idempotent(v.street.elevatorHopTime);
  }

  /** A RoutingPreferences: its parts, replaced by the setters. */
  class RoutingPreferences {
    var bike: BikePreferences
    var walk: WalkPreferences
    var street: StreetPreferences
    var wheelchairAccessibility: int

    function Values(): PreferenceValues
      reads this
    {
      PreferenceValues(bike, walk, street, wheelchairAccessibility)
    }

    constructor(v: PreferenceValues)
      ensures Values() == v
    {
      bike := v.bike;
      walk := v.walk;
      street := v.street;
      wheelchairAccessibility := v.wheelchairAccessibility;
    }

    /** clone: a new object holding the same values. */
    method Clone() returns (c: RoutingPreferences)
      ensures fresh(c) && c.Values() == Values()
    {
      c := new RoutingPreferences(Values());
    }
  }

  /**
   * prepareTransferPreferences: the setters, in order, round the bike
   * triangle, switch cost and time, speeds, reluctances and elevator costs
   * and times of the given preferences, which are returned.
   */
  method PrepareTransferPreferences(preferences: RoutingPreferences) returns (r: RoutingPreferences)
    requires IntsInRange(preferences.Values())
    modifies preferences
    ensures r == preferences
    ensures preferences.Values() == Prepared(old(preferences.Values()))
  {
    var bike := preferences.bike;
    var safety := RoundToTenth(bike.triangleSafetyFactor);
    bike := bike.(triangleSafetyFactor := safety);
    var slope := RoundToTenth(bike.triangleSlopeFactor);
    bike := bike.(triangleSlopeFactor := slope);
    bike := bike.(triangleTimeFactor := 1.0 - bike.triangleSafetyFactor - bike.triangleSlopeFactor);
    bike := bike.(switchCost := RoundTo100(bike.switchCost));
    bike := bike.(switchTime := RoundTo100(bike.switchTime));
    preferences.bike := bike;

    preferences.walk := preferences.walk.(speed := RoundToHalf(preferences.walk.speed));
    preferences.bike := preferences.bike.(speed := RoundToHalf(preferences.bike.speed));

    var walk := preferences.walk;
    walk := walk.(reluctance := RoundToTenth(walk.reluctance));
    walk := walk.(stairsReluctance := RoundToTenth(walk.stairsReluctance));
    walk := walk.(stairsTimeFactor := RoundToTenth(walk.stairsTimeFactor));
    preferences.walk := walk;
    preferences.street := preferences.street.(turnReluctance := RoundToTenth(preferences.street.turnReluctance));
    preferences.walk := preferences.walk.(safetyFactor := RoundToTenth(preferences.walk.safetyFactor));

    var street := preferences.street;
    street := street.(elevatorBoardCost := RoundTo100(street.elevatorBoardCost));
    street := street.(elevatorBoardTime := RoundTo100(street.elevatorBoardTime));
    street := street.(elevatorHopCost := RoundTo100(street.elevatorHopCost));
    street := street.(elevatorHopTime := RoundTo100(street.elevatorHopTime));
    preferences.street := street;
    return preferences;
  }

  /** StreetRelevantOptions: the street mode and the 17 preference values that influence transfers. */
  datatype StreetRelevantOptions = StreetRelevantOptions(
    transferMode: int, optimize: int,
    bikeTriangleSafetyFactor: real, bikeTriangleSlopeFactor: real, bikeTriangleTimeFactor: real,
    wheelchairAccessibility: int,
    walkSpeed: real, bikeSpeed: real,
    walkReluctance: real, stairsReluctance: real, stairsTimeFactor: real, turnReluctance: real,
    elevatorBoardCost: int, elevatorBoardTime: int, elevatorHopCost: int, elevatorHopTime: int,
    bikeSwitchCost: int, bikeSwitchTime: int)

  /** The options extracted from preferences and a street mode. */
  function OptionsOf(v: PreferenceValues, mode: int): (o: StreetRelevantOptions)
    ensures o.transferMode == mode && o.optimize == v.bike.optimizeType
    ensures o.bikeSwitchCost == v.bike.switchCost && o.elevatorBoardCost == v.street.elevatorBoardCost
  {
    StreetRelevantOptions(
      mode, v.bike.optimizeType,
      v.bike.triangleSafetyFactor, v.bike.triangleSlopeFactor, v.bike.triangleTimeFactor,
      v.wheelchairAccessibility,
      v.walk.speed, v.bike.speed,
      v.walk.reluctance, v.walk.stairsReluctance, v.walk.stairsTimeFactor, v.street.turnReluctance,
      v.street.elevatorBoardCost, v.street.elevatorBoardTime, v.street.elevatorHopCost, v.street.elevatorHopTime,
      v.bike.switchCost, v.bike.switchTime)
  }

  /** StreetRelevantOptions.equals: the field-by-field comparison, doubles by value. */
  predicate OptionsEqual(a: StreetRelevantOptions, b: StreetRelevantOptions) {
    b.bikeTriangleSafetyFactor == a.bikeTriangleSafetyFactor
    && b.bikeTriangleSlopeFactor == a.bikeTriangleSlopeFactor
    && b.bikeTriangleTimeFactor == a.bikeTriangleTimeFactor
    && b.walkSpeed == a.walkSpeed && b.bikeSpeed == a.bikeSpeed
    && b.walkReluctance == a.walkReluctance && b.stairsReluctance == a.stairsReluctance
    && b.stairsTimeFactor == a.stairsTimeFactor && b.turnReluctance == a.turnReluctance
    && a.wheelchairAccessibility == b.wheelchairAccessibility
    && a.elevatorBoardCost == b.elevatorBoardCost && a.elevatorBoardTime == b.elevatorBoardTime
    && a.elevatorHopCost == b.elevatorHopCost && a.elevatorHopTime == b.elevatorHopTime
    && a.bikeSwitchCost == b.bikeSwitchCost && a.bikeSwitchTime == b.bikeSwitchTime
    && a.transferMode == b.transferMode && a.optimize == b.optimize
  }

  /** The comparison leaves no field out: options are equal exactly when they are the same value. */
  lemma OptionsEqualIff(a: StreetRelevantOptions, b: StreetRelevantOptions)
    ensures OptionsEqual(a, b) <==> a == b
  {
  }

  /**
   * A cache key: the identity of the transfer lists (one instance per
   * graph), the prepared preferences, the street mode and the options.
   */
  datatype CacheKey = CacheKey(
    transfersByStopIndex: int, preferences: PreferenceValues, mode: int, options: StreetRelevantOptions)

  /** CacheKey.equals: the same transfer lists instance and equal options. */
  predicate KeysEqual(a: CacheKey, b: CacheKey) {
    a.transfersByStopIndex == b.transfersByStopIndex && OptionsEqual(a.options, b.options)
  }

  /** CacheKey.hashCode: the options' hash only, for any hash of the options. */
  function KeyHash(k: CacheKey, optionsHash: StreetRelevantOptions -> int): int {
    optionsHash(k.options)
  }

  /** Equal keys hash alike, as a hash map requires; the transfer lists are left out of the hash on purpose. */
  lemma EqualKeysHashAlike(a: CacheKey, b: CacheKey, optionsHash: StreetRelevantOptions -> int)
    requires KeysEqual(a, b)
    ensures KeyHash(a, optionsHash) == KeyHash(b, optionsHash)
  {
    OptionsEqualIff(a.options, b.options);
  }

  /** As written: the options are taken from the caller's preferences, before rounding. */
  function KeyAsWritten(transfersByStopIndex: int, v: PreferenceValues, mode: int): (k: CacheKey)
    requires IntsInRange(v)
    ensures k.preferences == Prepared(v) && k.options == OptionsOf(v, mode)
  {
    CacheKey(transfersByStopIndex, Prepared(v), mode, OptionsOf(v, mode))
  }

  /** As intended: the options are taken from the rounded preferences the index is built from. */
  function Key(transfersByStopIndex: int, v: PreferenceValues, mode: int): (k: CacheKey)
    requires IntsInRange(v)
    ensures k.preferences == Prepared(v) && k.options == OptionsOf(k.preferences, mode)
  {
    var prepared := Prepared(v);
    CacheKey(transfersByStopIndex, prepared, mode, OptionsOf(prepared, mode))
  }

  /**
   * The CacheKey constructor: the preferences are cloned and the clone is
   * rounded, so the caller's preferences are left as they were; the options
   * are then read from the caller's unrounded preferences, as written (see
   * Key for the intended key).
   */
  method NewCacheKey(transfersByStopIndex: int, preferences: RoutingPreferences, mode: int) returns (k: CacheKey)
    requires IntsInRange(preferences.Values())
    ensures preferences.Values() == old(preferences.Values())
    ensures k == KeyAsWritten(transfersByStopIndex, preferences.Values(), mode)
  {
    var copy := preferences.Clone();
    var prepared := PrepareTransferPreferences(copy);
    k := CacheKey(transfersByStopIndex, prepared.Values(), mode, OptionsOf(preferences.Values(), mode));
  }

  /** An elevator board cost of 90 or 110, everything else zero. */
  function Example(elevatorBoardCost: int): PreferenceValues {
    PreferenceValues(
      BikePreferences(0, 0.0, 0.0, 1.0, 0, 0, 0.0),
      WalkPreferences(0.0, 0.0, 0.0, 0.0, 0.0),
      StreetPreferences(0.0, elevatorBoardCost, 0, 0, 0),
      0)
  }

  /**
   * As written, two requests whose preferences round to the same values
   * still get different keys, so the second builds the same index again.
   */
  lemma RoundingDoesNotShareKeys()
    ensures Prepared(Example(90)) == Prepared(Example(110))
    ensures !KeysEqual(KeyAsWritten(0, Example(90), 0), KeyAsWritten(0, Example(110), 0))
  {
    assert RoundTo100(90) == 100;
    assert RoundTo100(110) == 100;
    assert RoundTo100(0) == 0;
    assert RoundToTenth(0.0) == 0.0;
    assert RoundToHalf(0.0) == 0.0;
    assert Prepared(Example(90)) == Example(100);
    assert Prepared(Example(110)) == Example(100);
    assert OptionsOf(Example(90), 0).elevatorBoardCost != OptionsOf(Example(110), 0).elevatorBoardCost;
  }

  /** With the intended key, preferences that round alike give equal keys, for the same transfers and mode. */
  lemma RoundedAlikeShareKeys(transfersByStopIndex: int, v: PreferenceValues, w: PreferenceValues, mode: int)
    requires IntsInRange(v) && IntsInRange(w) && Prepared(v) == Prepared(w)
    ensures KeysEqual(Key(transfersByStopIndex, v, mode), Key(transfersByStopIndex, w, mode))
  {
  }
}
