/**
 * HeuristicWorkerState: the state of a heuristic Raptor search that keeps
 * only the best generalized cost per stop, overall and on arrival by
 * transit, with the stops touched in the current and the last round.
 */
module HeuristicWorkerState {
  import opened JavaInt

  class WorkerState {
    /** Best cost of arriving at each stop, by transit or transfer. */
    const overallGeneralizedCosts: array<int>
    /** Best cost of arriving at each stop by transit. */
    const transitGeneralizedCosts: array<int>
    var reachedByTransitCurrentRound: set<nat>
    var reachedCurrentRound: set<nat>
    var reachedLastRound: set<nat>

    /** The two cost arrays are distinct, of one length, and no overall cost exceeds the transit cost. */
    predicate Valid()
      reads this, overallGeneralizedCosts, transitGeneralizedCosts
    {
      overallGeneralizedCosts != transitGeneralizedCosts
      && overallGeneralizedCosts.Length == transitGeneralizedCosts.Length
      && forall s :: 0 <= s < overallGeneralizedCosts.Length ==>
           overallGeneralizedCosts[s] <= transitGeneralizedCosts[s]
    }

    function Size(): int
      reads this
    {
      overallGeneralizedCosts.Length
    }

    /** Both cost arrays start at Integer.MAX_VALUE for every stop; no stop is touched. */
    constructor(nStops: nat)
      ensures Valid() && Size() == nStops
      ensures fresh(overallGeneralizedCosts) && fresh(transitGeneralizedCosts)
      ensures forall s :: 0 <= s < nStops ==>
        overallGeneralizedCosts[s] == MAX_INT && transitGeneralizedCosts[s] == MAX_INT
      ensures reachedCurrentRound == {} && reachedLastRound == {} && reachedByTransitCurrentRound == {}
    {
      overallGeneralizedCosts := new int[nStops](_ => MAX_INT);
      transitGeneralizedCosts := new int[nStops](_ => MAX_INT);
      reachedCurrentRound := {};
      reachedLastRound := {};
      reachedByTransitCurrentRound := {};
    }

    predicate IsNewRoundAvailable()
      reads this
    {
      reachedCurrentRound != {}
    }

    /** The heuristic search never reports the destination reached. */
    function IsDestinationReachedInCurrentRound(): (r: bool)
      ensures !r
    {
      false
    }

    function BestOverallCost(stop: int): int
      requires 0 <= stop < Size()
      reads this, overallGeneralizedCosts
    {
      overallGeneralizedCosts[stop]
    }

    /**
     * newBestTransitGeneralizedCost: a strictly lower cost replaces the
     * transit cost and marks the stop reached by transit this round.
     */
    method NewBestTransitGeneralizedCost(stop: nat, generalizedCost: int) returns (improved: bool)
      requires stop < transitGeneralizedCosts.Length
      modifies this, transitGeneralizedCosts
      ensures improved <==> old(transitGeneralizedCosts[stop]) > generalizedCost
      ensures transitGeneralizedCosts[..] == old(transitGeneralizedCosts[..])[stop := Min(old(transitGeneralizedCosts[stop]), generalizedCost)]
      ensures reachedByTransitCurrentRound == if improved then old(reachedByTransitCurrentRound) + {stop}
                                              else old(reachedByTransitCurrentRound)
      ensures reachedCurrentRound == old(reachedCurrentRound) && reachedLastRound == old(reachedLastRound)
    {
      if transitGeneralizedCosts[stop] > generalizedCost {
        transitGeneralizedCosts[stop] := generalizedCost;
        reachedByTransitCurrentRound := reachedByTransitCurrentRound + {stop};
        return true;
      }
      return false;
    }

    /**
     * newOverallBestGeneralizedCost: a strictly lower cost replaces the
     * overall cost and marks the stop reached this round.
     */
    method NewOverallBestGeneralizedCost(stop: nat, generalizedCost: int) returns (improved: bool)
      requires stop < overallGeneralizedCosts.Length
      modifies this, overallGeneralizedCosts
      ensures improved <==> old(overallGeneralizedCosts[stop]) > generalizedCost
      ensures overallGeneralizedCosts[..] == old(overallGeneralizedCosts[..])[stop := Min(old(overallGeneralizedCosts[stop]), generalizedCost)]
      ensures reachedCurrentRound == if improved then old(reachedCurrentRound) + {stop} else old(reachedCurrentRound)
      ensures reachedByTransitCurrentRound == old(reachedByTransitCurrentRound) && reachedLastRound == old(reachedLastRound)
    {
      if overallGeneralizedCosts[stop] > generalizedCost {
        overallGeneralizedCosts[stop] := generalizedCost;
        reachedCurrentRound := reachedCurrentRound + {stop};
        return true;
      }
      return false;
    }

    /**
     * setAccessToStop: an access arriving on board counts as arriving by
     * transit too; either way the overall cost takes the lower value.
     */
    method SetAccessToStop(stop: nat, generalizedCost: int, stopReachedOnBoard: bool)
      requires Valid() && stop < Size()
      modifies this, overallGeneralizedCosts, transitGeneralizedCosts
      ensures Valid()
      ensures overallGeneralizedCosts[..] == old(overallGeneralizedCosts[..])[stop := Min(old(overallGeneralizedCosts[stop]), generalizedCost)]
      ensures transitGeneralizedCosts[..] ==
        if stopReachedOnBoard then old(transitGeneralizedCosts[..])[stop := Min(old(transitGeneralizedCosts[stop]), generalizedCost)]
        else old(transitGeneralizedCosts[..])
      ensures reachedCurrentRound == old(reachedCurrentRound) + (if old(overallGeneralizedCosts[stop]) > generalizedCost then {stop} else {})
      ensures reachedByTransitCurrentRound == old(reachedByTransitCurrentRound)
        + (if stopReachedOnBoard && old(transitGeneralizedCosts[stop]) > generalizedCost then {stop} else {})
      ensures reachedLastRound == old(reachedLastRound)
    {
      if stopReachedOnBoard {
        var _ := NewBestTransitGeneralizedCost(stop, generalizedCost);
      }
      var _ := NewOverallBestGeneralizedCost(stop, generalizedCost);
    }

    /** transitToStop: the overall cost is offered the cost only when the transit cost improved. */
    method TransitToStop(stop: nat, cost: int)
      requires Valid() && stop < Size()
      modifies this, overallGeneralizedCosts, transitGeneralizedCosts
      ensures Valid()
      ensures transitGeneralizedCosts[..] == old(transitGeneralizedCosts[..])[stop := Min(old(transitGeneralizedCosts[stop]), cost)]
      ensures overallGeneralizedCosts[..] ==
        if old(transitGeneralizedCosts[stop]) > cost
        then old(overallGeneralizedCosts[..])[stop := Min(old(overallGeneralizedCosts[stop]), cost)]
        else old(overallGeneralizedCosts[..])
      ensures reachedByTransitCurrentRound == old(reachedByTransitCurrentRound) + (if old(transitGeneralizedCosts[stop]) > cost then {stop} else {})
      ensures reachedCurrentRound == old(reachedCurrentRound)
        + (if old(transitGeneralizedCosts[stop]) > cost && old(overallGeneralizedCosts[stop]) > cost then {stop} else {})
      ensures reachedLastRound == old(reachedLastRound)
    {
      var improved := NewBestTransitGeneralizedCost(stop, cost);
      if improved {
        var _ := NewOverallBestGeneralizedCost(stop, cost);
      }
    }

    /** transferToStops: the heuristic ignores transfers; nothing changes. */
    method TransferToStops(fromStop: int, transfers: seq<nat>)
      ensures reachedCurrentRound == old(reachedCurrentRound)
    {
    }

    /** setupIteration: the touched sets of the current round are cleared. */
    method SetupIteration()
      modifies this
      ensures reachedCurrentRound == {} && reachedByTransitCurrentRound == {}
      ensures reachedLastRound == old(reachedLastRound)
    {
      reachedCurrentRound := {};
      reachedByTransitCurrentRound := {};
    }

    /** prepareForNextRound: the current round becomes the last; the new current round and the by-transit set start empty. */
    method PrepareForNextRound()
      modifies this
      ensures reachedLastRound == old(reachedCurrentRound)
      ensures reachedCurrentRound == {} && reachedByTransitCurrentRound == {}
    {
      var tmp := reachedLastRound;
      reachedLastRound := reachedCurrentRound;
      reachedCurrentRound := tmp;
      reachedCurrentRound := {};
      reachedByTransitCurrentRound := {};
    }
  }

  function Min(a: int, b: int): (m: int)
    ensures m <= a && m <= b && (m == a || m == b)
  {
    if a < b then a else b
  }

  /**
   * A cost update never raises a cost: after any sequence of offers at a
   * stop its cost is the least of the initial value and the offers.
   */
  lemma {:induction false} CostsNeverIncrease(initial: int, offers: seq<int>)
    ensures MinOf(initial, offers) <= initial
    ensures forall k :: 0 <= k < |offers| ==> MinOf(initial, offers) <= offers[k]
  {
    if offers != [] {
      CostsNeverIncrease(initial, offers[..|offers| - 1]);
    }
  }

  /** The cost after offering each of offers in turn. */
  function MinOf(initial: int, offers: seq<int>): int {
    if offers == [] then initial else Min(MinOf(initial, offers[..|offers| - 1]), offers[|offers| - 1])
  }
}
