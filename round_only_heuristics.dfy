/**
 * RoundOnlyHeuristics: what a round-only heuristic search leaves behind,
 * the stops first reached in each round; it answers the number of
 * transfers to each stop and whether an egress stop was reached.
 */
module RoundOnlyHeuristics {
  import opened Wrappers
  import opened JavaInt

  /**
   * The exceptions the heuristics throw: a null round slot, an array index
   * out of bounds, or a query they do not support.
   */
  datatype HeuristicsError = NullSlotThrows(round: nat) | IndexOutOfBounds(index: int) | UnsupportedOperation

  /**
   * The rounds the byte counter of bestNumOfTransfersToIntArray can index:
   * 0 to 127. Incremented past 127 it wraps to -128.
   */
  const BYTE_ROUNDS: nat := 128

  /** The index of the first null slot, if any. */
  function FirstNullSlot(rounds: seq<Option<set<nat>>>): (r: Option<nat>)
    ensures r.Some? ==> r.value < |rounds| && rounds[r.value].None?
                        && forall i :: 0 <= i < r.value ==> rounds[i].Some?
    ensures r.None? ==> forall i :: 0 <= i < |rounds| ==> rounds[i].Some?
  {
    if rounds == [] then None
    else if rounds[0].None? then Some(0)
    else
      var rest := FirstNullSlot(rounds[1..]);
      if rest.None? then None else Some(rest.value + 1)
  }

  /**
   * The index of the last of the first k rounds that reached stop, or
   * unreached when none did.
   */
  function LastRoundReaching(rounds: seq<Option<set<nat>>>, stop: nat, unreached: int, k: nat): (r: int)
    requires k <= |rounds| && forall i :: 0 <= i < k ==> rounds[i].Some?
    ensures (forall i :: 0 <= i < k ==> stop !in rounds[i].value) ==> r == unreached
    ensures !(forall i :: 0 <= i < k ==> stop !in rounds[i].value) ==>
      0 <= r < k && stop in rounds[r].value && forall i :: r < i < k ==> stop !in rounds[i].value
  {
    if k == 0 then unreached
    else if stop in rounds[k - 1].value then k - 1
    else LastRoundReaching(rounds, stop, unreached, k - 1)
  }

  class Heuristics {
    const reachedStopsByRound: seq<Option<set<nat>>>
    const egressStops: seq<nat>
    const numStops: nat

    /** Every stop a round reached has an index below numStops. */
    predicate Valid() {
      forall i, s ::
           0 <= i < |reachedStopsByRound| && reachedStopsByRound[i].Some? && s in reachedStopsByRound[i].value
           ==> s < numStops
    }

    constructor(reachedStopsByRound: seq<Option<set<nat>>>, egressStops: seq<nat>, numStops: nat)
      ensures this.reachedStopsByRound == reachedStopsByRound && this.egressStops == egressStops
      ensures this.numStops == numStops
    {
      this.reachedStopsByRound := reachedStopsByRound;
      this.egressStops := egressStops;
      this.numStops := numStops;
    }

    /** size: the number of stops. */
    function Size(): (r: nat)
      ensures r == numStops
    {
      numStops
    }

    /** createHeuristicAtStop and the other cost and duration queries are not supported. */
    function Unsupported(): (r: Result<int, HeuristicsError>)
      ensures r == Err(UnsupportedOperation)
    {
      Err(UnsupportedOperation)
    }

    /**
     * bestNumOfTransfersToIntArray: every stop starts unreached; each round
     * in turn writes its index at the stops it reached, so a stop holds the
     * last round that reached it. A null slot throws when its turn comes.
     * The loop counter is a byte: after round 127 it wraps to -128, which
     * still passes the length test, so with 128 or more rounds the lookup
     * of round -128 throws.
     */
    method BestNumOfTransfersToIntArray(unreached: int) returns (r: Result<array<int>, HeuristicsError>)
      requires Valid()
      ensures FirstNullSlot(reachedStopsByRound).Some? && FirstNullSlot(reachedStopsByRound).value < BYTE_ROUNDS ==>
        r == Err(NullSlotThrows(FirstNullSlot(reachedStopsByRound).value))
      ensures (FirstNullSlot(reachedStopsByRound).None? || FirstNullSlot(reachedStopsByRound).value >= BYTE_ROUNDS)
              && |reachedStopsByRound| >= BYTE_ROUNDS ==>
        r == Err(IndexOutOfBounds(-128))
      ensures FirstNullSlot(reachedStopsByRound).None? && |reachedStopsByRound| < BYTE_ROUNDS ==>
        r.Ok? && fresh(r.value) && r.value.Length == numStops
        && forall s :: 0 <= s < numStops ==>
             r.value[s] == LastRoundReaching(reachedStopsByRound, s, unreached, |reachedStopsByRound|)
    {
      var numTransfers := new int[numStops](_ => unreached);
      var i: nat := 0;
      while ToByte(i) < |reachedStopsByRound|
        invariant 0 <= i <= BYTE_ROUNDS && i <= |reachedStopsByRound|
        invariant forall j :: 0 <= j < i ==> reachedStopsByRound[j].Some?
        invariant forall s :: 0 <= s < numStops ==>
          numTransfers[s] == LastRoundReaching(reachedStopsByRound, s, unreached, i)
        decreases BYTE_ROUNDS - i
      {
        var round := ToByte(i);
        if round < 0 {
          assert i == BYTE_ROUNDS && round == -128;
          return Err(IndexOutOfBounds(round));
        }
        if reachedStopsByRound[i].None? {
          return Err(NullSlotThrows(i));
        }
        var reached := reachedStopsByRound[i].value;
        var remaining := reached;
        while remaining != {}
          invariant remaining <= reached
          invariant forall s :: 0 <= s < numStops ==>
            numTransfers[s] == if s in reached - remaining then i
                               else LastRoundReaching(reachedStopsByRound, s, unreached, i)
        {
          var stop :| stop in remaining;
          numTransfers[stop] := round;
          remaining := remaining - {stop};
        }
        i := i + 1;
      }
      return Ok(numTransfers);
    }

    /**
     * destinationReached: the rounds in turn, each checked at every egress
     * stop; a null slot throws when an egress stop is looked up in it.
     */
    method DestinationReached() returns (r: Result<bool, HeuristicsError>)
      ensures r == DestinationScan(reachedStopsByRound, egressStops, 0)
    {
      var i := 0;
      while i < |reachedStopsByRound|
        invariant 0 <= i <= |reachedStopsByRound|
        invariant DestinationScan(reachedStopsByRound, egressStops, i) == DestinationScan(reachedStopsByRound, egressStops, 0)
      {
        var reached := reachedStopsByRound[i];
        var j := 0;
        while j < |egressStops|
          invariant 0 <= j <= |egressStops|
          invariant j > 0 ==> reached.Some?
          invariant forall k :: 0 <= k < j ==> egressStops[k] !in reached.value
        {
          if reached.None? {
            return Err(NullSlotThrows(i));
          }
          if egressStops[j] in reached.value {
            return Ok(true);
          }
          j := j + 1;
        }
        i := i + 1;
      }
      return Ok(false);
    }
  }

  /** The scan of destinationReached from round k on. */
  function DestinationScan(rounds: seq<Option<set<nat>>>, egressStops: seq<nat>, k: nat): Result<bool, HeuristicsError>
    requires k <= |rounds|
    decreases |rounds| - k
  {
    if k == |rounds| then Ok(false)
    else if egressStops == [] then DestinationScan(rounds, egressStops, k + 1)
    else if rounds[k].None? then Err(NullSlotThrows(k))
    else if exists j :: 0 <= j < |egressStops| && egressStops[j] in rounds[k].value then Ok(true)
    else DestinationScan(rounds, egressStops, k + 1)
  }

  /** Without null slots, the destination is reached exactly when some round reached some egress stop. */
  lemma {:induction false} DestinationScanIff(rounds: seq<Option<set<nat>>>, egressStops: seq<nat>, k: nat)
    requires k <= |rounds| && FirstNullSlot(rounds).None?
    ensures DestinationScan(rounds, egressStops, k) ==
      Ok(exists i, j :: k <= i < |rounds| && 0 <= j < |egressStops| && egressStops[j] in rounds[i].value)
    decreases |rounds| - k
  {
    if k < |rounds| {
      DestinationScanIff(rounds, egressStops, k + 1);
    }
  }

  /** With a null slot and some egress stop, the scan throws unless an earlier round reached an egress stop. */
  lemma {:induction false} DestinationScanThrows(rounds: seq<Option<set<nat>>>, egressStops: seq<nat>, k: nat)
    requires k <= |rounds| && FirstNullSlot(rounds).Some? && k <= FirstNullSlot(rounds).value && egressStops != []
    requires forall i, j :: k <= i < FirstNullSlot(rounds).value && 0 <= j < |egressStops| ==>
      egressStops[j] !in rounds[i].value
    ensures DestinationScan(rounds, egressStops, k) == Err(NullSlotThrows(FirstNullSlot(rounds).value))
    decreases |rounds| - k
  {
    if k < FirstNullSlot(rounds).value {
      DestinationScanThrows(rounds, egressStops, k + 1);
    }
  }

  /**
   * A search that ran all of 128 rounds, as a worker with 127 rounds does,
   * even when no round reached a stop: as written, the transfer array
   * throws at index -128.
   */
  method ByteRoundsThrow() returns (r: Result<array<int>, HeuristicsError>)
    ensures r == Err(IndexOutOfBounds(-128))
  {
    var rounds: seq<Option<set<nat>>> := seq(BYTE_ROUNDS, _ => Some({}));
    var h := new Heuristics(rounds, [], 0);
    assert forall i :: 0 <= i < |rounds| ==> rounds[i].Some?;
    r := h.BestNumOfTransfersToIntArray(-1);
  }

  /**
   * The intended transfer array, counted with an int: a null slot still
   * throws, and otherwise every round is indexed, however many there are.
   */
  function NumTransfersFixed(rounds: seq<Option<set<nat>>>, unreached: int, numStops: nat): (r: Result<seq<int>, HeuristicsError>)
    ensures FirstNullSlot(rounds).Some? ==> r == Err(NullSlotThrows(FirstNullSlot(rounds).value))
    ensures FirstNullSlot(rounds).None? ==>
      r.Ok? && |r.value| == numStops
      && forall s :: 0 <= s < numStops ==> r.value[s] == LastRoundReaching(rounds, s, unreached, |rounds|)
  {
    match FirstNullSlot(rounds)
    case Some(k) => Err(NullSlotThrows(k))
    case None => Ok(seq(numStops, s requires 0 <= s => LastRoundReaching(rounds, s, unreached, |rounds|)))
  }

  /**
   * The intended array agrees with the written one below 128 rounds, and
   * unlike it gives a result at 128 rounds.
   */
  lemma FixedHandlesByteRounds(rounds: seq<Option<set<nat>>>, unreached: int, numStops: nat)
    requires FirstNullSlot(rounds).None?
    ensures NumTransfersFixed(rounds, unreached, numStops).Ok?
    ensures var r := NumTransfersFixed(rounds, unreached, numStops).value;
      forall s :: 0 <= s < numStops ==> 0 <= r[s] < |rounds| || r[s] == unreached
  {
    var r := NumTransfersFixed(rounds, unreached, numStops).value;
    forall s | 0 <= s < numStops
      ensures 0 <= r[s] < |rounds| || r[s] == unreached
    {
      assert r[s] == LastRoundReaching(rounds, s, unreached, |rounds|);
    }
  }
}
