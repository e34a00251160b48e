/**
 * PriorityGroupConfigurator: hands out transit-priority group ids (32n
 * encoding) to trip patterns during one request. Global matchers get one id
 * each at construction; agency matchers hand out one id per agency, on the
 * first lookup of a pattern of that agency.
 */
module PriorityGroupConfigurator {
  import opened Wrappers
  import opened JavaInt
  import opened GroupPriority
  import TransitPriorityGroup32n

  /** A trip pattern as far as the configurator sees it: the agency of its route, and what matchers look at. */
  datatype TripPattern = TripPattern(agencyId: int, routeId: int, mode: int)

  type Matcher = TripPattern -> bool

  /** The matchers with their ids: a global matcher with its one id, an agency matcher with its ids by agency. */
  datatype MatcherWithGroupId =
    | MatcherAndId(matcher: Matcher, groupId: bv32)
    | MatcherAgencyAndIds(matcher: Matcher, ids: map<int, bv32>)

  const GROUP_INDEX_COUNTER_START: int := 1

  /** The value the agency id map answers for an agency it does not hold. */
  const NO_ENTRY_VALUE: bv32 := 0xFFFF_FFFF

  /** ids.get(agencyId) on a map whose no-entry value is -1. */
  function StoredId(ids: map<int, bv32>, agencyId: int): (r: bv32)
    ensures agencyId !in ids ==> IsNegative(r)
    ensures agencyId in ids ==> r == ids[agencyId]
  {
    if agencyId in ids then ids[agencyId] else NO_ENTRY_VALUE
  }

  /** As written: a new id is drawn when the stored id is negative. */
  predicate NeedsNewId(ids: map<int, bv32>, agencyId: int) {
    IsNegative(StoredId(ids, agencyId))
  }

  /** As intended: a new id is drawn when the agency has none yet. */
  predicate NeedsNewIdFixed(ids: map<int, bv32>, agencyId: int) {
    agencyId !in ids
  }

  /** The index of the first entry whose matcher accepts the pattern, searching from k. */
  function FirstMatchFrom(entries: seq<MatcherWithGroupId>, p: TripPattern, k: nat): (r: Option<nat>)
    requires k <= |entries|
    ensures r.Some? ==> k <= r.value < |entries| && entries[r.value].matcher(p)
    ensures r.Some? ==> forall j :: k <= j < r.value ==> !entries[j].matcher(p)
    ensures r.None? ==> forall j :: k <= j < |entries| ==> !entries[j].matcher(p)
    decreases |entries| - k
  {
    if k == |entries| then None
    else if entries[k].matcher(p) then Some(k)
    else FirstMatchFrom(entries, p, k + 1)
  }

  function FirstMatch(entries: seq<MatcherWithGroupId>, p: TripPattern): (r: Option<nat>)
    ensures r.Some? ==> r.value < |entries| && entries[r.value].matcher(p)
    ensures r.Some? ==> forall j :: 0 <= j < r.value ==> !entries[j].matcher(p)
    ensures r.None? ==> forall j :: 0 <= j < |entries| ==> !entries[j].matcher(p)
  {
    FirstMatchFrom(entries, p, 0)
  }

  class Configurator {
    const baseGroupId: bv32
    var groupIndexCounter: int
    var enabled: bool
    var matchersWithIds: seq<MatcherWithGroupId>

    /** empty(): the disabled configurator. */
    constructor Empty()
      ensures !enabled && matchersWithIds == [] && groupIndexCounter == GROUP_INDEX_COUNTER_START
      ensures baseGroupId == TransitPriorityGroup32n.GroupId(GROUP_INDEX_COUNTER_START).value
    {
      baseGroupId := TransitPriorityGroup32n.GroupId(GROUP_INDEX_COUNTER_START).value;
      groupIndexCounter := GROUP_INDEX_COUNTER_START;
      enabled := false;
      matchersWithIds := [];
    }

    /** The start of the enabled constructor, before the matchers are added. */
    constructor Enabled()
      ensures enabled && matchersWithIds == [] && groupIndexCounter == GROUP_INDEX_COUNTER_START
      ensures baseGroupId == TransitPriorityGroup32n.GroupId(GROUP_INDEX_COUNTER_START).value
    {
      baseGroupId := TransitPriorityGroup32n.GroupId(GROUP_INDEX_COUNTER_START).value;
      groupIndexCounter := GROUP_INDEX_COUNTER_START;
      enabled := true;
      matchersWithIds := [];
    }

    /** nextGroupId: the counter moves on first, then its id is drawn, which fails past 32. */
    method NextGroupId() returns (r: Result<bv32, SeqNoError>)
      modifies this
      ensures groupIndexCounter == old(groupIndexCounter) + 1
      ensures r == TransitPriorityGroup32n.GroupId(groupIndexCounter)
      ensures enabled == old(enabled) && matchersWithIds == old(matchersWithIds)
    {
      groupIndexCounter := groupIndexCounter + 1;
      r := TransitPriorityGroup32n.GroupId(groupIndexCounter);
    }

    /**
     * lookupTransitGroupPriorityId: the base id when disabled, for a missing
     * pattern or when no matcher accepts it; otherwise the first accepting
     * entry decides. A global entry answers its id; an agency entry answers
     * the id it stored for the pattern's agency, or draws and stores a new one
     * when the stored id (or the no-entry value) is negative, as written; see
     * NeedsNewIdFixed for the intended check.
     */
    method LookupTransitGroupPriorityId(pattern: Option<TripPattern>) returns (r: Result<bv32, SeqNoError>)
      modifies this
      ensures !old(enabled) || pattern.None? || FirstMatch(old(matchersWithIds), pattern.value).None? ==>
        r == Ok(baseGroupId) && groupIndexCounter == old(groupIndexCounter)
        && matchersWithIds == old(matchersWithIds)
      ensures old(enabled) && pattern.Some? && FirstMatch(old(matchersWithIds), pattern.value).Some? ==>
        var i := FirstMatch(old(matchersWithIds), pattern.value).value;
        var entry := old(matchersWithIds)[i];
        var agencyId := pattern.value.agencyId;
        if entry.MatcherAndId? then
          r == Ok(entry.groupId) && groupIndexCounter == old(groupIndexCounter)
          && matchersWithIds == old(matchersWithIds)
        else if !NeedsNewId(entry.ids, agencyId) then
          r == Ok(StoredId(entry.ids, agencyId)) && groupIndexCounter == old(groupIndexCounter)
          && matchersWithIds == old(matchersWithIds)
        else
          groupIndexCounter == old(groupIndexCounter) + 1
          && r == TransitPriorityGroup32n.GroupId(groupIndexCounter)
          && matchersWithIds == (if r.Ok? then old(matchersWithIds)[i := entry.(ids := entry.ids[agencyId := r.value])]
                                 else old(matchersWithIds))
      ensures enabled == old(enabled)
    {
      if !enabled || pattern.None? {
        return Ok(baseGroupId);
      }
      var p := pattern.value;
      var i := 0;
      while i < |matchersWithIds|
        invariant 0 <= i <= |matchersWithIds|
        invariant FirstMatchFrom(matchersWithIds, p, i) == FirstMatch(matchersWithIds, p)
      {
        var entry := matchersWithIds[i];
        if entry.matcher(p) {
          match entry
          case MatcherAndId(_, id) =>
            return Ok(id);
          case MatcherAgencyAndIds(m, ids) =>
            if NeedsNewId(ids, p.agencyId) {
              r := NextGroupId();
              if r.Ok? {
                matchersWithIds := matchersWithIds[i := MatcherAgencyAndIds(m, ids[p.agencyId := r.value])];
              }
              return r;
            }
            return Ok(StoredId(ids, p.agencyId));
        }
        i := i + 1;
      }
      return Ok(baseGroupId);
    }
  }

  /** The ids the global matchers get at construction: consecutive indices from 2. */
  ghost predicate GlobalEntries(entries: seq<MatcherWithGroupId>, global: seq<Matcher>) {
    |entries| == |global| && |global| < TransitPriorityGroup32n.MAX_SEQ_NO
    && forall j :: 0 <= j < |global| ==>
      entries[j] == MatcherAndId(global[j], TransitPriorityGroup32n.GroupId(GROUP_INDEX_COUNTER_START + 1 + j).value)
  }

  /** The agency matchers, each with no ids yet. */
  ghost predicate AgencyEntries(entries: seq<MatcherWithGroupId>, byAgency: seq<Matcher>) {
    |entries| == |byAgency|
    && forall j :: 0 <= j < |byAgency| ==> entries[j] == MatcherAgencyAndIds(byAgency[j], map[])
  }

  /**
   * of(byAgency, global): the disabled configurator when both are empty;
   * otherwise the global matchers, each given the next id, followed by the
   * agency matchers. More than 31 global matchers exhaust the 32 ids.
   */
  method Of(byAgency: seq<Matcher>, global: seq<Matcher>) returns (r: Result<Configurator, SeqNoError>)
    ensures byAgency == [] && global == [] ==> r.Ok? && !r.value.enabled
    ensures r.Ok? <==> (byAgency == [] && global == []) || |global| < TransitPriorityGroup32n.MAX_SEQ_NO
    ensures r.Ok? ==> fresh(r.value) && r.value.baseGroupId == TransitPriorityGroup32n.GroupId(1).value
    ensures r.Ok? && (byAgency != [] || global != []) ==>
      r.value.enabled
      && r.value.groupIndexCounter == GROUP_INDEX_COUNTER_START + |global|
      && |r.value.matchersWithIds| == |global| + |byAgency|
      && GlobalEntries(r.value.matchersWithIds[..|global|], global)
      && AgencyEntries(r.value.matchersWithIds[|global|..], byAgency)
  {
    if byAgency == [] && global == [] {
      var c := new Configurator.Empty();
      return Ok(c);
    }
    var c := new Configurator.Enabled();
    var list: seq<MatcherWithGroupId> := [];
    var j := 0;
    while j < |global|
      invariant 0 <= j <= |global|
      invariant c.groupIndexCounter == GROUP_INDEX_COUNTER_START + j
      invariant c.enabled && c.matchersWithIds == []
      invariant j <= TransitPriorityGroup32n.MAX_SEQ_NO - 1
      invariant GlobalEntries(list, global[..j])
    {
      var id := c.NextGroupId();
      if id.Err? {
        return Err(id.error);
      }
      list := list + [MatcherAndId(global[j], id.value)];
      j := j + 1;
    }
    var agencyList := seq(|byAgency|, k requires 0 <= k < |byAgency| => MatcherAgencyAndIds(byAgency[k], map[]));
    c.matchersWithIds := list + agencyList;
    assert c.matchersWithIds[..|global|] == list;
    assert c.matchersWithIds[|global|..] == agencyList;
    return Ok(c);
  }

  /**
   * As written, an agency given the 32nd id (bit 31, a negative int) gets no
   * id back on its next lookup: the stored id reads as missing, and the new
   * id it draws is past 32.
   */
  lemma LastIdIsNotReused(ids: map<int, bv32>, agencyId: int)
    ensures TransitPriorityGroup32n.GroupId(32).Ok?
    ensures NeedsNewId(ids[agencyId := TransitPriorityGroup32n.GroupId(32).value], agencyId)
    ensures TransitPriorityGroup32n.GroupId(33).Err?
  {
  }

  /** With the intended check, an agency that has an id keeps it, whatever its sign. */
  lemma StoredIdIsReused(ids: map<int, bv32>, agencyId: int, id: bv32)
    ensures !NeedsNewIdFixed(ids[agencyId := id], agencyId)
    ensures StoredId(ids[agencyId := id], agencyId) == id
    ensures NeedsNewIdFixed(ids, agencyId) ==> NeedsNewId(ids, agencyId)
  {
  }
}
