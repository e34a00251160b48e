/**
 * RoundOnlyHeuristicRaptorWorker: a Raptor search that tracks only which
 * stops are first reached in which round, by access, by riding a route
 * from a stop reached in the last round, or by a transfer.
 */
module RoundOnlyHeuristicRaptorWorker {
  import opened Wrappers
  import RoundOnlyHeuristics

  /** A route's pattern, its stops in the order the search visits them, and where boarding and alighting are possible. */
  datatype Pattern = Pattern(stops: seq<nat>, boardingPossible: seq<bool>, alightingPossible: seq<bool>)

  /**
   * What the worker reads: the routes the transit data yields, the target
   * stops of each stop's transfers, the access stops by number of rides
   * (on street and on board) and the access paths' largest number of rides.
   */
  datatype SearchData = SearchData(
    routes: seq<Pattern>,
    transfersFrom: seq<seq<nat>>,
    onStreetByRides: map<int, seq<nat>>,
    onBoardByRides: map<int, seq<nat>>,
    maxNumberOfRides: nat)

  predicate PatternOk(p: Pattern, numStops: nat) {
    |p.boardingPossible| == |p.stops| && |p.alightingPossible| == |p.stops|
    && forall j :: 0 <= j < |p.stops| ==> p.stops[j] < numStops
  }

  predicate StopsBelow(stops: seq<nat>, numStops: nat) {
    forall j :: 0 <= j < |stops| ==> stops[j] < numStops
  }

  /** Every stop the data names is one of the numStops stops. */
  predicate DataOk(d: SearchData, numStops: nat) {
    (forall r :: 0 <= r < |d.routes| ==> PatternOk(d.routes[r], numStops))
    && |d.transfersFrom| == numStops
    && (forall f :: 0 <= f < numStops ==> StopsBelow(d.transfersFrom[f], numStops))
    && (forall k :: k in d.onStreetByRides ==> StopsBelow(d.onStreetByRides[k], numStops))
    && (forall k :: k in d.onBoardByRides ==> StopsBelow(d.onBoardByRides[k], numStops))
  }

  function Max(a: int, b: int): int { if a < b then b else a }

  /** Riding the pattern, some stop before position j where boarding is possible was reached in the last round. */
  ghost predicate BoardedBefore(p: Pattern, last: set<nat>, j: int)
    requires PatternOk(p, |p.stops| + 1) || (|p.boardingPossible| == |p.stops|)
  {
    exists i :: 0 <= i < j && i < |p.stops| && p.boardingPossible[i] && p.stops[i] in last
  }

  /** The stops among the first k positions where the pattern lets a rider who boarded earlier alight, not reached before. */
  ghost function Alighted(p: Pattern, last: set<nat>, previous: set<nat>, k: nat): set<nat>
    requires |p.boardingPossible| == |p.stops| == |p.alightingPossible| && k <= |p.stops|
  {
    set j | 0 <= j < k && p.alightingPossible[j] && BoardedBefore(p, last, j) && p.stops[j] !in previous :: p.stops[j]
  }

  /** The stops the routes reach by transit this round. */
  ghost function TransitReached(routes: seq<Pattern>, last: set<nat>, previous: set<nat>): set<nat>
    requires forall r :: 0 <= r < |routes| ==> |routes[r].boardingPossible| == |routes[r].stops| == |routes[r].alightingPossible|
  {
    if routes == [] then {}
    else
      var p := routes[|routes| - 1];
      TransitReached(routes[..|routes| - 1], last, previous) + Alighted(p, last, previous, |p.stops|)
  }

  /** The first k targets of a stop's transfers not reached before. */
  ghost function TargetsFrom(targets: seq<nat>, previous: set<nat>, k: nat): set<nat>
    requires k <= |targets|
  {
    set j | 0 <= j < k && targets[j] !in previous :: targets[j]
  }

  /** The targets not reached before of the transfers from the snapshot's stops below i. */
  ghost function TransferReached(snapshot: set<nat>, transfersFrom: seq<seq<nat>>, previous: set<nat>, i: nat): set<nat>
    requires i <= |transfersFrom|
  {
    if i == 0 then {}
    else
      TransferReached(snapshot, transfersFrom, previous, i - 1)
      + (if i - 1 in snapshot then TargetsFrom(transfersFrom[i - 1], previous, |transfersFrom[i - 1]|) else {})
  }

  /** The access stops among paths not reached before. */
  ghost function AccessReached(paths: seq<nat>, previous: set<nat>, k: nat): set<nat>
    requires k <= |paths|
  {
    set j | 0 <= j < k && paths[j] !in previous :: paths[j]
  }

  /** The union of the first k rounds. */
  ghost function UnionBefore(slots: seq<Option<set<nat>>>, k: nat): set<nat>
    requires k <= |slots| && forall i :: 0 <= i < k ==> slots[i].Some?
  {
    if k == 0 then {} else UnionBefore(slots, k - 1) + slots[k - 1].value
  }

  lemma {:induction false} UnionBeforeContains(slots: seq<Option<set<nat>>>, k: nat, i: nat)
    requires k <= |slots| && (forall j :: 0 <= j < k ==> slots[j].Some?) && i < k
    ensures slots[i].value <= UnionBefore(slots, k)
  {
    if i < k - 1 {
      UnionBeforeContains(slots, k - 1, i);
    }
  }

  lemma {:induction false} UnionBeforeSame(a: seq<Option<set<nat>>>, b: seq<Option<set<nat>>>, k: nat)
    requires k <= |a| && k <= |b| && (forall j :: 0 <= j < k ==> a[j].Some? && a[j] == b[j])
    ensures UnionBefore(a, k) == UnionBefore(b, k)
  {
    if k > 0 {
      UnionBeforeSame(a, b, k - 1);
    }
  }

  /** No stop is in two rounds up to round. */
  ghost predicate RoundsDisjoint(slots: seq<Option<set<nat>>>, round: nat)
    requires round < |slots| && forall i :: 0 <= i <= round ==> slots[i].Some?
  {
    forall i, j :: 0 <= i < j <= round ==> slots[i].value !! slots[j].value
  }

  /** The round slots with every null slot read as an empty round. */
  function Filled(slots: seq<Option<set<nat>>>): (r: seq<Option<set<nat>>>)
    ensures |r| == |slots|
    ensures forall i :: 0 <= i < |r| ==> r[i] == if slots[i].Some? then slots[i] else Some({})
  {
    seq(|slots|, i requires 0 <= i < |slots| => if slots[i].Some? then slots[i] else Some({}))
  }

  class Worker {
    const data: SearchData
    const egressStops: seq<nat>
    const numStops: nat
    const nRounds: nat
    /** The stops first reached in each round; slots after the current round are null. */
    const reachedStopsByRound: array<Option<set<nat>>>
    var reachedPreviousRounds: set<nat>
    /** Stops touched in the current round. */
    var reachedCurrentRound: set<nat>
    /** Stops touched in the last round. */
    var reachedLastRound: set<nat>
    /** The round tracker's round. */
    var round: nat

    /**
     * The slot of the current round is the current set, slots up to it are
     * set and later ones null, the previous set is the union of the earlier
     * rounds, and no stop is in two rounds.
     */
    ghost predicate Valid()
      reads this, reachedStopsByRound
    {
      DataOk(data, numStops)
      && reachedStopsByRound.Length == nRounds + 1 && round <= nRounds
      && (forall i :: 0 <= i <= round ==> reachedStopsByRound[i].Some?)
      && (forall i :: round < i <= nRounds ==> reachedStopsByRound[i].None?)
      && reachedStopsByRound[round] == Some(reachedCurrentRound)
      && reachedPreviousRounds == UnionBefore(reachedStopsByRound[..], round)
      && RoundsDisjoint(reachedStopsByRound[..], round)
      && (forall i, s :: 0 <= i <= round && s in reachedStopsByRound[i].value ==> s < numStops)
      && (round > 0 ==> reachedLastRound == reachedStopsByRound[round - 1].value)
    }

    /**
     * The constructor: at least as many rounds as the access paths ride,
     * one slot per round plus round zero, whose slot is the current set.
     */
    constructor(data: SearchData, egressStops: seq<nat>, numStops: nat, nRounds: nat)
      requires DataOk(data, numStops)
      ensures this.data == data && this.egressStops == egressStops && this.numStops == numStops
      ensures this.nRounds == Max(nRounds, data.maxNumberOfRides)
      ensures Valid() && fresh(reachedStopsByRound)
      ensures round == 0 && reachedCurrentRound == {} && reachedPreviousRounds == {}
    {
      this.data := data;
      this.egressStops := egressStops;
      this.numStops := numStops;
      var n := Max(nRounds, data.maxNumberOfRides);
      this.nRounds := n;
      var slots := new Option<set<nat>>[n + 1](_ => None);
      slots[0] := Some({});
      this.reachedStopsByRound := slots;
      reachedPreviousRounds := {};
      reachedCurrentRound := {};
      reachedLastRound := {};
      round := 0;
    }

    /** The first-reach rule: a stop not reached in an earlier round joins the current round. */
    method Reach(stop: nat)
      requires Valid() && stop < numStops && stop !in reachedPreviousRounds
      modifies this, reachedStopsByRound
      ensures Valid()
      ensures reachedCurrentRound == old(reachedCurrentRound) + {stop}
      ensures round == old(round) && reachedPreviousRounds == old(reachedPreviousRounds)
      ensures reachedLastRound == old(reachedLastRound)
    {
      var before := reachedStopsByRound[..];
      reachedCurrentRound := reachedCurrentRound + {stop};
      reachedStopsByRound[round] := Some(reachedCurrentRound);
      var after := reachedStopsByRound[..];
      UnionBeforeSame(before, after, round);
      forall i | 0 <= i < round
        ensures after[i].value !! after[round].value
      {
        UnionBeforeContains(before, round, i);
      }
    }

    /** addAccessPaths: nothing for a missing list, else each stop by the first-reach rule. */
    method AddAccessPaths(paths: Option<seq<nat>>)
      requires Valid() && (paths.Some? ==> StopsBelow(paths.value, numStops))
      modifies this, reachedStopsByRound
      ensures Valid()
      ensures reachedCurrentRound == old(reachedCurrentRound)
        + if paths.None? then {} else AccessReached(paths.value, reachedPreviousRounds, |paths.value|)
      ensures round == old(round) && reachedPreviousRounds == old(reachedPreviousRounds)
      ensures reachedLastRound == old(reachedLastRound)
    {
      if paths.None? {
        return;
      }
      var stops := paths.value;
      var k := 0;
      while k < |stops|
        invariant 0 <= k <= |stops|
        invariant Valid()
        invariant round == old(round) && reachedPreviousRounds == old(reachedPreviousRounds)
        invariant reachedLastRound == old(reachedLastRound)
        invariant reachedCurrentRound == old(reachedCurrentRound) + AccessReached(stops, reachedPreviousRounds, k)
      {
        var stop := stops[k];
        if stop !in reachedPreviousRounds {
          Reach(stop);
        }
        assert AccessReached(stops, reachedPreviousRounds, k + 1)
               == AccessReached(stops, reachedPreviousRounds, k) + (if stop !in reachedPreviousRounds then {stop} else {});
        k := k + 1;
      }
    }

    /** findAccessOnStreetForRound: the street access paths with as many rides as the round. */
    method FindAccessOnStreetForRound()
      requires Valid()
      modifies this, reachedStopsByRound
      ensures Valid()
      ensures reachedCurrentRound == old(reachedCurrentRound)
        + if round in data.onStreetByRides then AccessReached(data.onStreetByRides[round], reachedPreviousRounds, |data.onStreetByRides[round]|) else {}
      ensures round == old(round) && reachedPreviousRounds == old(reachedPreviousRounds)
      ensures reachedLastRound == old(reachedLastRound)
    {
      AddAccessPaths(if round in data.onStreetByRides then Some(data.onStreetByRides[round]) else None);
    }

    /** findAccessOnBoardForRound: the on-board access paths with as many rides as the round. */
    method FindAccessOnBoardForRound()
      requires Valid()
      modifies this, reachedStopsByRound
      ensures Valid()
      ensures reachedCurrentRound == old(reachedCurrentRound)
        + if round in data.onBoardByRides then AccessReached(data.onBoardByRides[round], reachedPreviousRounds, |data.onBoardByRides[round]|) else {}
      ensures round == old(round) && reachedPreviousRounds == old(reachedPreviousRounds)
      ensures reachedLastRound == old(reachedLastRound)
    {
      AddAccessPaths(if round in data.onBoardByRides then Some(data.onBoardByRides[round]) else None);
    }

    /**
     * findTransitForRound: along each route, a stop where alighting is
     * possible is reached when the rider boarded at an earlier stop reached
     * in the last round; alighting is checked before boarding at each stop.
     */
    method FindTransitForRound()
      requires Valid()
      modifies this, reachedStopsByRound
      ensures Valid()
      ensures reachedCurrentRound == old(reachedCurrentRound)
        + TransitReached(data.routes, reachedLastRound, reachedPreviousRounds)
      ensures round == old(round) && reachedPreviousRounds == old(reachedPreviousRounds)
      ensures reachedLastRound == old(reachedLastRound)
    {
      var r := 0;
      while r < |data.routes|
        invariant 0 <= r <= |data.routes|
        invariant Valid()
        invariant round == old(round) && reachedPreviousRounds == old(reachedPreviousRounds)
        invariant reachedLastRound == old(reachedLastRound)
        invariant reachedCurrentRound == old(reachedCurrentRound)
          + TransitReached(data.routes[..r], reachedLastRound, reachedPreviousRounds)
      {
        assert data.routes[..r + 1][..r] == data.routes[..r];
        RideRoute(data.routes[r]);
        r := r + 1;
      }
      assert data.routes[..r] == data.routes;
    }

    /** The inner loop of findTransitForRound, along one route. */
    method RideRoute(pattern: Pattern)
      requires Valid() && PatternOk(pattern, numStops)
      modifies this, reachedStopsByRound
      ensures Valid()
      ensures reachedCurrentRound == old(reachedCurrentRound)
        + Alighted(pattern, reachedLastRound, reachedPreviousRounds, |pattern.stops|)
      ensures round == old(round) && reachedPreviousRounds == old(reachedPreviousRounds)
      ensures reachedLastRound == old(reachedLastRound)
    {
      var boarded := false;
      var pos := 0;
      while pos < |pattern.stops|
        invariant 0 <= pos <= |pattern.stops|
        invariant Valid()
        invariant round == old(round) && reachedPreviousRounds == old(reachedPreviousRounds)
        invariant reachedLastRound == old(reachedLastRound)
        invariant boarded == BoardedBefore(pattern, reachedLastRound, pos)
        invariant reachedCurrentRound == old(reachedCurrentRound)
          + Alighted(pattern, reachedLastRound, reachedPreviousRounds, pos)
      {
        var stopIndex := pattern.stops[pos];
        AlightedStep(pattern, reachedLastRound, reachedPreviousRounds, pos);
        if pattern.alightingPossible[pos] {
          if boarded && stopIndex !in reachedPreviousRounds {
            Reach(stopIndex);
          }
        }
        if pattern.boardingPossible[pos] {
          if stopIndex in reachedLastRound {
            boarded := true;
          }
        }
        BoardedStep(pattern, reachedLastRound, pos);
        pos := pos + 1;
      }
    }

    /**
     * findTransfersForRound: the transfers from a snapshot of the current
     * round, taken in stop order; stops reached by them add no transfers
     * this round.
     */
    method FindTransfersForRound()
      requires Valid()
      modifies this, reachedStopsByRound
      ensures Valid()
      ensures reachedCurrentRound == old(reachedCurrentRound)
        + TransferReached(old(reachedCurrentRound), data.transfersFrom, reachedPreviousRounds, numStops)
      ensures round == old(round) && reachedPreviousRounds == old(reachedPreviousRounds)
      ensures reachedLastRound == old(reachedLastRound)
    {
      var snapshot := reachedCurrentRound;
      var fromStop := 0;
      while fromStop < numStops
        invariant 0 <= fromStop <= numStops
        invariant Valid()
        invariant round == old(round) && reachedPreviousRounds == old(reachedPreviousRounds)
        invariant reachedLastRound == old(reachedLastRound)
        invariant reachedCurrentRound == snapshot
          + TransferReached(snapshot, data.transfersFrom, reachedPreviousRounds, fromStop)
      {
        if fromStop in snapshot {
          var transfers := data.transfersFrom[fromStop];
          var k := 0;
          while k < |transfers|
            invariant 0 <= k <= |transfers|
            invariant Valid()
            invariant round == old(round) && reachedPreviousRounds == old(reachedPreviousRounds)
            invariant reachedLastRound == old(reachedLastRound)
            invariant reachedCurrentRound == snapshot
              + TransferReached(snapshot, data.transfersFrom, reachedPreviousRounds, fromStop)
              + TargetsFrom(transfers, reachedPreviousRounds, k)
          {
            var stop := transfers[k];
            if stop !in reachedPreviousRounds {
              Reach(stop);
            }
            assert TargetsFrom(transfers, reachedPreviousRounds, k + 1)
                   == TargetsFrom(transfers, reachedPreviousRounds, k) + (if stop !in reachedPreviousRounds then {stop} else {});
            k := k + 1;
          }
        }
        fromStop := fromStop + 1;
      }
    }

    /** isDestinationReachedInCurrentRound: some egress stop is in the current round. */
    method IsDestinationReachedInCurrentRound() returns (r: bool)
      ensures r <==> exists j :: 0 <= j < |egressStops| && egressStops[j] in reachedCurrentRound
    {
      var j := 0;
      while j < |egressStops|
        invariant 0 <= j <= |egressStops|
        invariant forall k :: 0 <= k < j ==> egressStops[k] !in reachedCurrentRound
      {
        if egressStops[j] in reachedCurrentRound {
          return true;
        }
        j := j + 1;
      }
      return false;
    }

    /**
     * The round tracker's nextRound followed by prepareForNextRound: the
     * current round becomes the last, joins the previous rounds, and a new
     * empty current round takes the next slot.
     */
    method NextRound()
      requires Valid() && round < nRounds
      modifies this, reachedStopsByRound
      ensures Valid()
      ensures round == old(round) + 1
      ensures reachedLastRound == old(reachedCurrentRound)
      ensures reachedPreviousRounds == old(reachedPreviousRounds) + old(reachedCurrentRound)
      ensures reachedCurrentRound == {}
    {
      var before := reachedStopsByRound[..];
      round := round + 1;
      reachedLastRound := reachedCurrentRound;
      reachedPreviousRounds := reachedPreviousRounds + reachedLastRound;
      reachedCurrentRound := {};
      reachedStopsByRound[round] := Some(reachedCurrentRound);
      var after := reachedStopsByRound[..];
      UnionBeforeSame(before, after, round);
    }

    /**
     * route: the street access of round zero, then rounds while rounds are
     * left and the last one reached a stop: transit, on-board access,
     * transfers, street access. Slots of rounds never run stay null.
     */
    method Route()
      requires Valid() && round == 0
      modifies this, reachedStopsByRound
      ensures Valid()
      ensures round == nRounds || reachedCurrentRound == {}
      ensures forall i :: round < i <= nRounds ==> reachedStopsByRound[i] == None
    {
      FindAccessOnStreetForRound();
      while round < nRounds && reachedCurrentRound != {}
        invariant Valid()
        decreases nRounds - round
      {
        NextRound();
        FindTransitForRound();
        var destinationReachedInCurrentRound := IsDestinationReachedInCurrentRound();
        FindAccessOnBoardForRound();
        FindTransfersForRound();
        FindAccessOnStreetForRound();
      }
    }

    /**
     * heuristics: the round slots are handed over as they are, so the slots
     * of rounds never run stay null (see Filled for the intended hand-over).
     */
    method Heuristics() returns (h: RoundOnlyHeuristics.Heuristics)
      requires Valid()
      ensures h.Valid()
      ensures h.reachedStopsByRound == reachedStopsByRound[..]
      ensures h.egressStops == egressStops && h.numStops == numStops
    {
      h := new RoundOnlyHeuristics.Heuristics(reachedStopsByRound[..], egressStops, numStops);
    }
  }

  lemma AlightedStep(p: Pattern, last: set<nat>, previous: set<nat>, pos: nat)
    requires |p.boardingPossible| == |p.stops| == |p.alightingPossible| && pos < |p.stops|
    ensures Alighted(p, last, previous, pos + 1) == Alighted(p, last, previous, pos)
      + if p.alightingPossible[pos] && BoardedBefore(p, last, pos) && p.stops[pos] !in previous then {p.stops[pos]} else {}
  {
  }

  lemma BoardedStep(p: Pattern, last: set<nat>, pos: nat)
    requires |p.boardingPossible| == |p.stops| && pos < |p.stops|
    ensures BoardedBefore(p, last, pos + 1) <==>
      BoardedBefore(p, last, pos) || (p.boardingPossible[pos] && p.stops[pos] in last)
  {
    if p.boardingPossible[pos] && p.stops[pos] in last {
      assert 0 <= pos < pos + 1 && p.boardingPossible[pos] && p.stops[pos] in last;
    }
  }

  /**
   * As written, a search that ends before its last round leaves the
   * following slots null, and the heuristics over them meet the null
   * slot of the round after the last one run.
   */
  lemma EarlyStopLeavesNullSlot(slots: seq<Option<set<nat>>>, round: nat, nRounds: nat)
    requires |slots| == nRounds + 1 && round < nRounds
    requires forall i :: 0 <= i <= round ==> slots[i].Some?
    requires forall i :: round < i <= nRounds ==> slots[i].None?
    ensures RoundOnlyHeuristics.FirstNullSlot(slots) == Some(round + 1)
  {
    var r := RoundOnlyHeuristics.FirstNullSlot(slots);
    assert slots[round + 1].None?;
  }

  /** Filling the null slots with empty rounds leaves no null slot and changes no round that ran. */
  lemma FilledHasNoNullSlot(slots: seq<Option<set<nat>>>)
    ensures RoundOnlyHeuristics.FirstNullSlot(Filled(slots)).None?
    ensures forall i :: 0 <= i < |slots| && slots[i].Some? ==> Filled(slots)[i] == slots[i]
  {
  }
}
