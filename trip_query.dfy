/**
 * useTripQuery: the debug client's hook for trip searches. It holds the
 * last result and a loading flag, and hands out a fetch callback that
 * sends one GraphQL trip query at a time. An effect fetches on its own
 * whenever the origin or destination changes and both are usable.
 *
 * The hook's state across renders is a TripQuery object; the request
 * sent to the server is recorded in a log, and its answer arrives later
 * through Resolve or Reject.
 */
module TripQueries {
  import opened Wrappers

  datatype Coordinates = Coordinates(latitude: real, longitude: real)

  /** A Location of the query: coordinates, a place id, or both. */
  datatype Location = Location(coordinates: Option<Coordinates>, place: Option<string>)

  /** TripQueryVariables; the search parameters other than the two ends and the cursor are one opaque value. */
  datatype Variables = Variables(from: Option<Location>, to: Option<Location>, pageCursor: Option<string>, rest: int)

  /** The answer of the trip query, opaque here. */
  datatype QueryResult = QueryResult(payload: int)

  /** The two console warnings of the callback. */
  datatype Warning = WaitForPreviousSearch | NoVariables

  /** JavaScript truthiness of an optional string: present and not empty. */
  predicate Truthy(s: Option<string>) {
    s.Some? && s.value != ""
  }

  /** validLocation: a location that is there and has coordinates or a non-empty place. */
  predicate ValidLocation(location: Option<Location>) {
    location.Some? && (location.value.coordinates.Some? || Truthy(location.value.place))
  }

  /**
   * Which locations count: coordinates alone suffice, a place suffices
   * unless it is the empty string, and a location with neither, or no
   * location, does not.
   */
  lemma ValidLocationCases(c: Coordinates, place: string)
    ensures ValidLocation(Some(Location(Some(c), None)))
    ensures ValidLocation(Some(Location(None, Some(place)))) <==> place != ""
    ensures !ValidLocation(Some(Location(None, None))) && !ValidLocation(None)
  {
  }

  /** What both ends need before the automatic search fires. */
  predicate BothValid(v: Option<Variables>) {
    v.Some? && ValidLocation(v.value.from) && ValidLocation(v.value.to)
  }

  /**
   * The variables a request carries: a truthy page cursor spread over the
   * variables, replacing any cursor they had; otherwise the variables as
   * they are.
   */
  function RequestVariables(v: Variables, pageCursor: Option<string>): (r: Variables)
    ensures Truthy(pageCursor) ==> r.pageCursor == pageCursor
    ensures !Truthy(pageCursor) ==> r == v
    ensures r.(pageCursor := v.pageCursor) == v
  {
    if Truthy(pageCursor) then v.(pageCursor := pageCursor) else v
  }

  /** Merging a cursor twice is merging it once, and a later cursor wins over an earlier one. */
  lemma CursorMergeLastWins(v: Variables, first: Option<string>, second: Option<string>)
    ensures RequestVariables(RequestVariables(v, first), first) == RequestVariables(v, first)
    ensures Truthy(second) ==> RequestVariables(RequestVariables(v, first), second) == RequestVariables(v, second)
  {
  }

  class TripQuery {
    /** The variables of the latest render. */
    var variables: Option<Variables>
    var data: Option<QueryResult>
    var loading: bool
    /** A request has been sent and its promise has not settled. */
    var pending: bool
    /** The variables of every request sent, in order. */
    var sent: seq<Variables>
    var warnings: seq<Warning>

    /** A request in flight keeps the hook loading. */
    ghost predicate Valid()
      reads this
    {
      pending ==> loading
    }

    /** Loading with nothing in flight: the state a rejected request leaves behind. */
    ghost predicate Stuck()
      reads this
    {
      loading && !pending
    }

    /**
     * The first render: no data, not loading, and the mount effect
     * searching at once when both ends are valid.
     */
    constructor(variables: Option<Variables>)
      ensures Valid()
      ensures this.variables == variables && data == None && warnings == []
      ensures BothValid(variables) ==> loading && pending && sent == [variables.value]
      ensures !BothValid(variables) ==> !loading && !pending && sent == []
    {
      this.variables := variables;
      data := None;
      warnings := [];
      var search := BothValid(variables);
      loading := search;
      pending := search;
      sent := if search then [variables.value] else [];
    }

    /**
     * The fetch callback of the latest render: while loading it only
     * warns; without variables it only warns; otherwise it sets loading
     * and sends the variables with the page cursor merged in.
     */
    method Fetch(pageCursor: Option<string>)
      requires Valid()
      modifies this
      ensures Valid()
      ensures variables == old(variables) && data == old(data)
      ensures old(loading) ==>
                && warnings == old(warnings) + [WaitForPreviousSearch]
                && sent == old(sent) && loading && pending == old(pending)
      ensures !old(loading) && old(variables).None? ==>
                && warnings == old(warnings) + [NoVariables]
                && sent == old(sent) && !loading && !pending
      ensures !old(loading) && old(variables).Some? ==>
                && warnings == old(warnings)
                && sent == old(sent) + [RequestVariables(old(variables).value, pageCursor)]
                && loading && pending
      ensures old(pending) ==> sent == old(sent)
      ensures old(Stuck()) ==> Stuck() && sent == old(sent)
    {
      if loading {
        warnings := warnings + [WaitForPreviousSearch];
      } else if variables.Some? {
        loading := true;
        sent := sent + [RequestVariables(variables.value, pageCursor)];
        pending := true;
      } else {
        warnings := warnings + [NoVariables];
      }
    }

    /** The request resolved: its result becomes the data and loading ends. */
    method Resolve(result: QueryResult)
      requires Valid() && pending
      modifies this
      ensures Valid()
      ensures data == Some(result) && !loading && !pending
      ensures variables == old(variables) && sent == old(sent) && warnings == old(warnings)
    {
      data := Some(result);
      loading := false;
      pending := false;
    }

    /** The request rejected: with no catch, neither the data nor the loading flag change. */
    method Reject()
      requires Valid() && pending
      modifies this
      ensures Valid() && Stuck()
      ensures data == old(data) && loading == old(loading)
      ensures variables == old(variables) && sent == old(sent) && warnings == old(warnings)
    {
      pending := false;
    }

    /**
     * A re-render with new variables. The effect runs when the origin or
     * the destination changed, and searches only when both are valid.
     */
    method Rerender(next: Option<Variables>)
      requires Valid()
      modifies this
      ensures Valid()
      ensures variables == next && data == old(data)
      ensures var changed := FromOrToChanged(old(variables), next);
        && (!changed || !BothValid(next) ==>
              sent == old(sent) && loading == old(loading) && pending == old(pending) && warnings == old(warnings))
        && (changed && BothValid(next) && !old(loading) ==>
              sent == old(sent) + [next.value] && loading && pending && warnings == old(warnings))
        && (changed && BothValid(next) && old(loading) ==>
              sent == old(sent) && warnings == old(warnings) + [WaitForPreviousSearch])
      ensures old(Stuck()) ==> Stuck() && sent == old(sent)
    {
      var changed := FromOrToChanged(variables, next);
      variables := next;
      if changed && BothValid(next) {
        Fetch(None);
      }
    }
  }

  /** The effect's dependencies: variables?.from and variables?.to. */
  function From(v: Option<Variables>): Option<Location> {
    if v.Some? then v.value.from else None
  }

  function To(v: Option<Variables>): Option<Location> {
    if v.Some? then v.value.to else None
  }

  predicate FromOrToChanged(before: Option<Variables>, after: Option<Variables>) {
    From(before) != From(after) || To(before) != To(after)
  }
}
