/**
 * EnturTransitCompetitionGroups: the transit-priority group (32n encoding)
 * of a route from its mode, sub-mode and authority. Local traffic,
 * airplanes and airport-link buses share three fixed groups; rail, coach
 * and rail-replacement buses get one group per authority.
 */
module EnturTransitCompetitionGroups {
  import opened Wrappers
  import opened JavaInt
  import opened GroupPriority
  import opened TransitModes
  import TransitPriorityGroup32n

  /** The competition a route takes part in, decided by findCompetitionGroup. */
  datatype Competition = LocalTraffic | AirplaneTraffic | AirportLinkBus | PerAuthority

  /**
   * What resolveCompetitionGroup records for each call: the id, mode, sub-mode
   * and authority. The sub-mode is kept as given, so a missing one is
   * formatted as null, not as the "unknown" the classification reads.
   */
  datatype Description = Description(groupId: bv32, mode: TransitMode, subMode: Option<string>, authorityId: int)

  /** The IllegalArgumentException of the id allocation, or the IllegalStateException for a negative id. */
  datatype CompetitionError = GroupIndexError(cause: SeqNoError) | NegativeGroupId(description: Description)

  predicate IsLocalTrafficMode(mode: TransitMode) {
    mode in {Bus, Subway, Tram, CableCar, Gondola, Funicular, Trolleybus, Monorail, Carpool, Taxi}
  }

  /** A missing sub-mode reads as "unknown". */
  function SubModeName(subMode: Option<string>): string {
    if subMode.None? then "unknown" else subMode.value
  }

  /**
   * The decision of findCompetitionGroup, in order: local sub-modes, the
   * airport-link bus, rail-replacement buses, local-traffic modes, airplanes,
   * rail and coach; anything else is logged and counted as local traffic.
   */
  function Classify(mode: TransitMode, subModeName: string): (c: Competition)
    ensures c == AirportLinkBus <==> subModeName == "airportLinkBus"
    ensures c == PerAuthority <==>
      subModeName == "railReplacementBus" || (!Contains(subModeName, "local") && mode in {Rail, Coach}
        && subModeName !in {"sightseeingService", "touristRailway", "airportLinkBus"})
  {
    NamedSubModesAreNotLocal();
    if Contains(subModeName, "local") || subModeName == "sightseeingService" || subModeName == "touristRailway"
    then LocalTraffic
    else if subModeName == "airportLinkBus" then AirportLinkBus
    else if subModeName == "railReplacementBus" then PerAuthority
    else if IsLocalTrafficMode(mode) then LocalTraffic
    else if mode == Airplane then AirplaneTraffic
    else if mode == Rail || mode == Coach then PerAuthority
    else LocalTraffic
  }

  /** A string lacking one of sub's characters does not contain sub. */
  lemma MissingChar(s: string, sub: string, k: nat)
    requires k < |sub| && sub[k] !in s
    ensures !Contains(s, sub)
  {
  }

  /** The sub-mode names compared by name never contain "local". */
  lemma NamedSubModesAreNotLocal()
    ensures !Contains("airportLinkBus", "local")
    ensures !Contains("railReplacementBus", "local")
  {
    MissingChar("airportLinkBus", "local", 2);
    MissingChar("railReplacementBus", "local", 1);
  }

  /** A sub-mode naming local traffic wins over every mode. */
  lemma LocalSubModeWins(mode: TransitMode, subModeName: string, i: int)
    requires OccursAt(subModeName, "local", i)
    ensures Classify(mode, subModeName) == LocalTraffic
  {
  }

  /** Without a telling sub-mode, the mode decides: only airplanes, rail and coach leave local traffic. */
  lemma ModeDecides(mode: TransitMode)
    ensures Classify(mode, SubModeName(None)) ==
      if mode == Airplane then AirplaneTraffic
      else if mode == Rail || mode == Coach then PerAuthority
      else LocalTraffic
  {
    MissingChar("unknown", "local", 0);
  }

  class CompetitionGroups {
    var groupIndex: int
    /** Drawn by the field initialisers, indices 0, 1 and 2 in that order. */
    const localTrafficGroupId: bv32 := TransitPriorityGroup32n.GroupId(0).value
    const airplaneGroupId: bv32 := TransitPriorityGroup32n.GroupId(1).value
    const airportLinkBusGroupId: bv32 := TransitPriorityGroup32n.GroupId(2).value
    var authorityGroupIds: map<int, bv32>
    var list: set<Description>

    /** After the three fixed groups the index stands at 2. */
    constructor()
      ensures groupIndex == 2
      ensures localTrafficGroupId == TransitPriorityGroup32n.GroupId(0).value == GROUP_ZERO
      ensures airplaneGroupId == TransitPriorityGroup32n.GroupId(1).value
      ensures airportLinkBusGroupId == TransitPriorityGroup32n.GroupId(2).value
      ensures authorityGroupIds == map[] && list == {}
    {
      groupIndex := 2;
      authorityGroupIds := map[];
      list := {};
    }

    /** nextGroupId: the index moves on first, then its id is drawn, which fails past 32. */
    method NextGroupId() returns (r: Result<bv32, SeqNoError>)
      modifies this
      ensures groupIndex == old(groupIndex) + 1
      ensures r == TransitPriorityGroup32n.GroupId(groupIndex)
      ensures authorityGroupIds == old(authorityGroupIds) && list == old(list)
    {
      groupIndex := groupIndex + 1;
      r := TransitPriorityGroup32n.GroupId(groupIndex);
    }

    /** groupId(authority): the authority's id, drawn and stored on its first use only. */
    method AuthorityGroupId(authorityId: int) returns (r: Result<bv32, SeqNoError>)
      modifies this
      ensures list == old(list)
      ensures authorityId in old(authorityGroupIds) ==>
        r == Ok(old(authorityGroupIds)[authorityId]) && groupIndex == old(groupIndex)
        && authorityGroupIds == old(authorityGroupIds)
      ensures authorityId !in old(authorityGroupIds) ==>
        groupIndex == old(groupIndex) + 1 && r == TransitPriorityGroup32n.GroupId(groupIndex)
        && authorityGroupIds == (if r.Ok? then old(authorityGroupIds)[authorityId := r.value]
                                 else old(authorityGroupIds))
    {
      if authorityId in authorityGroupIds {
        return Ok(authorityGroupIds[authorityId]);
      }
      r := NextGroupId();
      if r.Ok? {
        authorityGroupIds := authorityGroupIds[authorityId := r.value];
      }
    }

    /** findCompetitionGroup: the fixed group of the classification, or the authority's group. */
    method FindCompetitionGroup(mode: TransitMode, subMode: Option<string>, authorityId: int)
      returns (r: Result<bv32, SeqNoError>)
      modifies this
      ensures list == old(list)
      ensures Classify(mode, SubModeName(subMode)) == LocalTraffic ==> r == Ok(localTrafficGroupId)
      ensures Classify(mode, SubModeName(subMode)) == AirplaneTraffic ==> r == Ok(airplaneGroupId)
      ensures Classify(mode, SubModeName(subMode)) == AirportLinkBus ==> r == Ok(airportLinkBusGroupId)
      ensures Classify(mode, SubModeName(subMode)) != PerAuthority ==>
        groupIndex == old(groupIndex) && authorityGroupIds == old(authorityGroupIds)
      ensures Classify(mode, SubModeName(subMode)) == PerAuthority && authorityId in old(authorityGroupIds) ==>
        r == Ok(old(authorityGroupIds)[authorityId]) && groupIndex == old(groupIndex)
        && authorityGroupIds == old(authorityGroupIds)
      ensures Classify(mode, SubModeName(subMode)) == PerAuthority && authorityId !in old(authorityGroupIds) ==>
        groupIndex == old(groupIndex) + 1 && r == TransitPriorityGroup32n.GroupId(groupIndex)
        && authorityGroupIds == (if r.Ok? then old(authorityGroupIds)[authorityId := r.value]
                                 else old(authorityGroupIds))
    {
      var subModeName := SubModeName(subMode);
      var c := Classify(mode, subModeName);
      match c
      case LocalTraffic => r := Ok(localTrafficGroupId);
      case AirplaneTraffic => r := Ok(airplaneGroupId);
      case AirportLinkBus => r := Ok(airportLinkBusGroupId);
      case PerAuthority => r := AuthorityGroupId(authorityId);
    }

    /**
     * resolveCompetitionGroup: the group found, recorded in the list; a
     * negative id, the one of index 32, is refused after it is recorded.
     */
    method ResolveCompetitionGroup(mode: TransitMode, subMode: Option<string>, authorityId: int)
      returns (r: Result<bv32, CompetitionError>)
      modifies this
      ensures Classify(mode, SubModeName(subMode)) != PerAuthority ==>
        groupIndex == old(groupIndex) && authorityGroupIds == old(authorityGroupIds)
      ensures Classify(mode, SubModeName(subMode)) == LocalTraffic ==>
        r == Ok(localTrafficGroupId) && list == old(list) + {Description(localTrafficGroupId, mode, subMode, authorityId)}
      ensures Classify(mode, SubModeName(subMode)) == AirplaneTraffic ==>
        r == Ok(airplaneGroupId) && list == old(list) + {Description(airplaneGroupId, mode, subMode, authorityId)}
      ensures Classify(mode, SubModeName(subMode)) == AirportLinkBus ==>
        r == Ok(airportLinkBusGroupId) && list == old(list) + {Description(airportLinkBusGroupId, mode, subMode, authorityId)}
      ensures Classify(mode, SubModeName(subMode)) == PerAuthority && authorityId in old(authorityGroupIds) ==>
        var description := Description(old(authorityGroupIds)[authorityId], mode, subMode, authorityId);
        groupIndex == old(groupIndex) && authorityGroupIds == old(authorityGroupIds)
        && list == old(list) + {description}
        && (if IsNegative(description.groupId) then r == Err(NegativeGroupId(description)) else r == Ok(description.groupId))
      ensures Classify(mode, SubModeName(subMode)) == PerAuthority && authorityId !in old(authorityGroupIds) ==>
        var drawn := TransitPriorityGroup32n.GroupId(old(groupIndex) + 1);
        groupIndex == old(groupIndex) + 1
        && (drawn.Err? ==>
              r == Err(GroupIndexError(drawn.error)) && list == old(list) && authorityGroupIds == old(authorityGroupIds))
        && (drawn.Ok? ==>
              var description := Description(drawn.value, mode, subMode, authorityId);
              authorityGroupIds == old(authorityGroupIds)[authorityId := drawn.value]
              && list == old(list) + {description}
              && (if IsNegative(drawn.value) then r == Err(NegativeGroupId(description)) else r == Ok(drawn.value)))
      ensures r.Ok? ==> !IsNegative(r.value)
    {
      var found := FindCompetitionGroup(mode, subMode, authorityId);
      if found.Err? {
        return Err(GroupIndexError(found.error));
      }
      var description := Description(found.value, mode, subMode, authorityId);
      list := list + {description};
      if IsNegative(found.value) {
        return Err(NegativeGroupId(description));
      }
      return Ok(found.value);
    }
  }

  /** The three fixed groups are GROUP_ZERO and the ids of bits 0 and 1, none negative. */
  lemma FixedGroupIds()
    ensures TransitPriorityGroup32n.GroupId(0) == Ok(0)
    ensures TransitPriorityGroup32n.GroupId(1) == Ok(1)
    ensures TransitPriorityGroup32n.GroupId(2) == Ok(2)
  {
  }

  /**
   * Authority groups take indices 3 and up: the thirtieth authority draws
   * index 32, whose id is negative, so every route of it is refused; the next
   * authority draws index 33, past the allocator's range.
   */
  lemma AuthorityIdsRunOut()
    ensures TransitPriorityGroup32n.GroupId(31).Ok? && !IsNegative(TransitPriorityGroup32n.GroupId(31).value)
    ensures TransitPriorityGroup32n.GroupId(32).Ok? && IsNegative(TransitPriorityGroup32n.GroupId(32).value)
    ensures TransitPriorityGroup32n.GroupId(33).Err?
  {
  }
}
