/**
 * RaptorTransferIndex: the transfers Raptor may take from each stop
 * (forward) and into each stop (reversed). From each stop only the
 * cheapest transfer to each target stop is kept.
 */
module RaptorTransferIndex {

  /** A transfer to stop, with its cost and duration; a reversed transfer's stop is where it came from. */
  datatype RaptorTransfer = RaptorTransfer(stop: int, generalizedCost: int, durationInSeconds: int)

  /** The forward and reversed transfers of each stop. */
  datatype TransferIndex = TransferIndex(
    forwardTransfers: seq<seq<RaptorTransfer>>,
    reversedTransfers: seq<seq<RaptorTransfer>>)

  /** ReversedRaptorTransfer: the same transfer seen from its target, pointing back to fromStop. */
  function Reversed(fromStop: int, t: RaptorTransfer): RaptorTransfer {
    RaptorTransfer(fromStop, t.generalizedCost, t.durationInSeconds)
  }

  /** The merge of two transfers to the same stop: the first only if strictly cheaper. */
  function Cheaper(a: RaptorTransfer, b: RaptorTransfer): RaptorTransfer {
    if a.generalizedCost < b.generalizedCost then a else b
  }

  /** The index of the kept transfer to stop, if any. */
  function IndexOfStop(kept: seq<RaptorTransfer>, stop: int): (r: int)
    ensures -1 <= r < |kept|
    ensures r >= 0 ==> kept[r].stop == stop
    ensures r < 0 ==> forall i :: 0 <= i < |kept| ==> kept[i].stop != stop
  {
    if kept == [] then -1
    else if kept[|kept| - 1].stop == stop then |kept| - 1
    else IndexOfStop(kept[..|kept| - 1], stop)
  }

  /** One step of the collection into a map keyed by target stop. */
  function MergeIn(kept: seq<RaptorTransfer>, t: RaptorTransfer): seq<RaptorTransfer> {
    var i := IndexOfStop(kept, t.stop);
    if i < 0 then kept + [t] else kept[i := Cheaper(kept[i], t)]
  }

  /**
   * The transfers of one stop collected by target stop, merging as they
   * come; the map's iteration order is taken to be first appearance.
   */
  function CheapestPerStop(ts: seq<RaptorTransfer>): seq<RaptorTransfer> {
    if ts == [] then [] else MergeIn(CheapestPerStop(ts[..|ts| - 1]), ts[|ts| - 1])
  }

  predicate DistinctStops(kept: seq<RaptorTransfer>) {
    forall i, j :: 0 <= i < j < |kept| ==> kept[i].stop != kept[j].stop
  }

  /** Every transfer of ts has a kept transfer to its stop that costs no more. */
  ghost predicate Covers(ts: seq<RaptorTransfer>, kept: seq<RaptorTransfer>) {
    forall k :: 0 <= k < |ts| ==> CoveredBy(ts[k], kept)
  }

  ghost predicate CoveredBy(t: RaptorTransfer, kept: seq<RaptorTransfer>) {
    exists i :: 0 <= i < |kept| && kept[i].stop == t.stop && kept[i].generalizedCost <= t.generalizedCost
  }

  /** No later transfer to the same stop than the one kept costs the same or less. */
  predicate LastCheapestAt(ts: seq<RaptorTransfer>, t: RaptorTransfer, k: int) {
    0 <= k < |ts| && ts[k] == t
    && forall j :: k < j < |ts| && ts[j].stop == t.stop ==> ts[j].generalizedCost > t.generalizedCost
  }

  /** Every kept transfer is one of ts, the last of the cheapest to its stop. */
  ghost predicate KeptAreLastCheapest(ts: seq<RaptorTransfer>, kept: seq<RaptorTransfer>) {
    forall i :: 0 <= i < |kept| ==> IsLastCheapest(ts, kept[i])
  }

  ghost predicate IsLastCheapest(ts: seq<RaptorTransfer>, t: RaptorTransfer) {
    exists k :: LastCheapestAt(ts, t, k)
  }

  /**
   * The collection keeps one transfer per target stop, of minimal cost,
   * and on a tie the later one.
   */
  lemma {:induction false} CheapestPerStopIsCheapest(ts: seq<RaptorTransfer>)
    ensures DistinctStops(CheapestPerStop(ts))
    ensures Covers(ts, CheapestPerStop(ts))
    ensures KeptAreLastCheapest(ts, CheapestPerStop(ts))
  {
    if ts != [] {
      var init := ts[..|ts| - 1];
      var t := ts[|ts| - 1];
      CheapestPerStopIsCheapest(init);
      MergeInKeepsCheapest(init, CheapestPerStop(init), t);
      assert init + [t] == ts;
    }
  }

  lemma MergeInKeepsCheapest(ts: seq<RaptorTransfer>, kept: seq<RaptorTransfer>, t: RaptorTransfer)
    requires DistinctStops(kept) && Covers(ts, kept) && KeptAreLastCheapest(ts, kept)
    ensures DistinctStops(MergeIn(kept, t))
    ensures Covers(ts + [t], MergeIn(kept, t))
    ensures KeptAreLastCheapest(ts + [t], MergeIn(kept, t))
  {
    MergeInDistinct(kept, t);
    MergeInCovers(ts, kept, t);
    MergeInKeepsLastCheapest(ts, kept, t);
  }

  lemma MergeInDistinct(kept: seq<RaptorTransfer>, t: RaptorTransfer)
    requires DistinctStops(kept)
    ensures DistinctStops(MergeIn(kept, t))
  {
    var i0 := IndexOfStop(kept, t.stop);
    if i0 >= 0 {
      assert forall i :: 0 <= i < |kept| ==> MergeIn(kept, t)[i].stop == kept[i].stop;
    }
  }

  lemma MergeInCovers(ts: seq<RaptorTransfer>, kept: seq<RaptorTransfer>, t: RaptorTransfer)
    requires Covers(ts, kept)
    ensures Covers(ts + [t], MergeIn(kept, t))
  {
    var ts' := ts + [t];
    var kept' := MergeIn(kept, t);
    var i0 := IndexOfStop(kept, t.stop);
    forall k | 0 <= k < |ts'|
      ensures CoveredBy(ts'[k], kept')
    {
      if k == |ts| {
        if i0 < 0 {
          assert kept'[|kept|] == t;
        } else {
          assert kept'[i0].stop == t.stop;
        }
      } else {
        var i :| 0 <= i < |kept| && kept[i].stop == ts[k].stop && kept[i].generalizedCost <= ts[k].generalizedCost;
        assert ts'[k] == ts[k];
        assert kept'[i].stop == ts'[k].stop && kept'[i].generalizedCost <= ts'[k].generalizedCost;
      }
    }
  }

  lemma MergeInKeepsLastCheapest(ts: seq<RaptorTransfer>, kept: seq<RaptorTransfer>, t: RaptorTransfer)
    requires DistinctStops(kept) && KeptAreLastCheapest(ts, kept)
    ensures KeptAreLastCheapest(ts + [t], MergeIn(kept, t))
  {
    var ts' := ts + [t];
    var kept' := MergeIn(kept, t);
    var i0 := IndexOfStop(kept, t.stop);
    forall i | 0 <= i < |kept'|
      ensures IsLastCheapest(ts', kept'[i])
    {
      if i == |kept| {
        assert LastCheapestAt(ts', kept'[i], |ts|);
      } else if i == i0 && !(kept[i0].generalizedCost < t.generalizedCost) {
        assert LastCheapestAt(ts', kept'[i], |ts|);
      } else {
        var k :| LastCheapestAt(ts, kept[i], k);
        assert kept'[i] == kept[i];
        LastCheapestExtends(ts, kept[i], k, t);
      }
    }
  }

  /** A transfer to another stop, or a dearer one, keeps a kept transfer the last cheapest. */
  lemma LastCheapestExtends(ts: seq<RaptorTransfer>, kept: RaptorTransfer, k: int, t: RaptorTransfer)
    requires LastCheapestAt(ts, kept, k)
    requires t.stop != kept.stop || t.generalizedCost > kept.generalizedCost
    ensures LastCheapestAt(ts + [t], kept, k)
  {
  }

  /** The reversed transfers of fromStop's transfers ts added, in order, to the target stops' lists. */
  function AddReversed(rev: seq<seq<RaptorTransfer>>, fromStop: int, ts: seq<RaptorTransfer>): (r: seq<seq<RaptorTransfer>>)
    requires forall k :: 0 <= k < |ts| ==> 0 <= ts[k].stop < |rev|
    ensures |r| == |rev|
  {
    if ts == [] then rev
    else
      var r0 := AddReversed(rev, fromStop, ts[..|ts| - 1]);
      var t := ts[|ts| - 1];
      r0[t.stop := r0[t.stop] + [Reversed(fromStop, t)]]
  }

  /** Every transfer in every list of forward targets a stop of the index. */
  predicate TargetsInRange(forward: seq<seq<RaptorTransfer>>, n: int) {
    forall f, k :: 0 <= f < |forward| && 0 <= k < |forward[f]| ==> 0 <= forward[f][k].stop < n
  }

  /** The reversed lists after the first count stops' forward transfers are added to n empty lists. */
  function ReversedUpTo(forward: seq<seq<RaptorTransfer>>, n: nat, count: nat): (r: seq<seq<RaptorTransfer>>)
    requires count <= |forward| && TargetsInRange(forward, n)
    ensures |r| == n
  {
    if count == 0 then seq(n, _ => [])
    else AddReversed(ReversedUpTo(forward, n, count - 1), count - 1, forward[count - 1])
  }

  /** A reversed list holds exactly what it held, plus the reversal of each transfer of ts to its stop. */
  lemma {:induction false} AddReversedMembers(
    rev: seq<seq<RaptorTransfer>>, fromStop: int, ts: seq<RaptorTransfer>, s: int, x: RaptorTransfer)
    requires forall k :: 0 <= k < |ts| ==> 0 <= ts[k].stop < |rev|
    requires 0 <= s < |rev|
    ensures x in AddReversed(rev, fromStop, ts)[s] <==>
      x in rev[s] || exists k :: 0 <= k < |ts| && ts[k].stop == s && x == Reversed(fromStop, ts[k])
  {
    if ts != [] {
      var init := ts[..|ts| - 1];
      AddReversedMembers(rev, fromStop, init, s, x);
      assert forall k :: 0 <= k < |init| ==> init[k] == ts[k];
    }
  }

  /**
   * A transfer is in the reversed list of stop s exactly when it is the
   * reversal of a forward transfer to s from one of the first count stops.
   */
  lemma {:induction false} ReversedUpToMembers(
    forward: seq<seq<RaptorTransfer>>, n: nat, count: nat, s: int, x: RaptorTransfer)
    requires count <= |forward| && TargetsInRange(forward, n) && 0 <= s < n
    ensures x in ReversedUpTo(forward, n, count)[s] <==>
      exists f, k :: 0 <= f < count && 0 <= k < |forward[f]| && forward[f][k].stop == s
                     && x == Reversed(f, forward[f][k])
  {
    if count > 0 {
      ReversedUpToMembers(forward, n, count - 1, s, x);
      AddReversedMembers(ReversedUpTo(forward, n, count - 1), count - 1, forward[count - 1], s, x);
    }
  }

  /**
   * create: for each stop its candidate transfers (the transfers of the
   * stop that street routing could use) collected by target stop, then
   * each kept transfer added, reversed, to its target's list.
   */
  method Create(candidatesByStop: seq<seq<RaptorTransfer>>) returns (index: TransferIndex)
    requires forall f, k :: 0 <= f < |candidatesByStop| && 0 <= k < |candidatesByStop[f]| ==>
      0 <= candidatesByStop[f][k].stop < |candidatesByStop|
    ensures |index.forwardTransfers| == |index.reversedTransfers| == |candidatesByStop|
    ensures forall f :: 0 <= f < |candidatesByStop| ==>
      index.forwardTransfers[f] == CheapestPerStop(candidatesByStop[f])
    ensures TargetsInRange(index.forwardTransfers, |candidatesByStop|)
    ensures index.reversedTransfers
            == ReversedUpTo(index.forwardTransfers, |candidatesByStop|, |candidatesByStop|)
  {
    var n := |candidatesByStop|;
    var forward := EmptyLists(n);
    var reversed := EmptyLists(n);
    var fromStop := 0;
    while fromStop < n
      invariant 0 <= fromStop <= n
      invariant BuiltUpTo(candidatesByStop, forward, reversed, fromStop)
    {
      forward, reversed := AddStop(candidatesByStop, forward, reversed, fromStop);
      fromStop := fromStop + 1;
    }
    index := TransferIndex(forward, reversed);
  }

  /** The state of create after the first count stops are indexed. */
  predicate BuiltUpTo(candidatesByStop: seq<seq<RaptorTransfer>>, forward: seq<seq<RaptorTransfer>>,
                      reversed: seq<seq<RaptorTransfer>>, count: nat)
  {
    var n := |candidatesByStop|;
    && count <= n && |forward| == |reversed| == n
    && (forall f :: 0 <= f < count ==> forward[f] == CheapestPerStop(candidatesByStop[f]))
    && (forall f :: count <= f < n ==> forward[f] == [])
    && TargetsInRange(forward, n)
    && reversed == ReversedUpTo(forward, n, count)
  }

  /** One iteration of create's outer loop: stop fromStop's kept transfers indexed both ways. */
  method AddStop(candidatesByStop: seq<seq<RaptorTransfer>>, forward: seq<seq<RaptorTransfer>>,
                 reversed: seq<seq<RaptorTransfer>>, fromStop: nat)
    returns (forward': seq<seq<RaptorTransfer>>, reversed': seq<seq<RaptorTransfer>>)
    requires forall f, k :: 0 <= f < |candidatesByStop| && 0 <= k < |candidatesByStop[f]| ==>
      0 <= candidatesByStop[f][k].stop < |candidatesByStop|
    requires fromStop < |candidatesByStop|
    requires BuiltUpTo(candidatesByStop, forward, reversed, fromStop)
    ensures BuiltUpTo(candidatesByStop, forward', reversed', fromStop + 1)
  {
    var n := |candidatesByStop|;
    var transfers := CheapestPerStop(candidatesByStop[fromStop]);
    KeptTargetsInRange(candidatesByStop[fromStop], n);
    forward' := forward[fromStop := forward[fromStop] + transfers];
    CreateStep(forward, forward', n, fromStop, transfers);
    reversed' := AddReversedTransfers(reversed, fromStop, transfers);
  }

  /** n empty lists, one per stop. */
  method EmptyLists(n: nat) returns (r: seq<seq<RaptorTransfer>>)
    ensures r == seq(n, _ => [])
  {
    r := [];
    var i := 0;
    while i < n
      invariant 0 <= i <= n
      invariant r == seq(i, _ => [])
    {
      r := r + [[]];
      i := i + 1;
    }
  }

  /** One step of create: the stop's list set to ts keeps every target in range and extends the reversed lists by ts. */
  lemma CreateStep(before: seq<seq<RaptorTransfer>>, after: seq<seq<RaptorTransfer>>, n: nat, f: nat, ts: seq<RaptorTransfer>)
    requires TargetsInRange(before, n) && f < |before| && before[f] == []
    requires forall i :: 0 <= i < |ts| ==> 0 <= ts[i].stop < n
    requires after == before[f := before[f] + ts]
    ensures TargetsInRange(after, n) && after[f] == ts
    ensures ReversedUpTo(after, n, f + 1) == AddReversed(ReversedUpTo(before, n, f), f, ts)
  {
    assert after[f] == ts;
    TargetsInRangeUpdate(before, n, f, ts);
    ReversedUpToUnchanged(before, after, n, f);
  }

  /** The inner loop of create: each transfer of fromStop added, reversed, to its target's list. */
  method AddReversedTransfers(reversed: seq<seq<RaptorTransfer>>, fromStop: int, transfers: seq<RaptorTransfer>)
    returns (r: seq<seq<RaptorTransfer>>)
    requires forall k :: 0 <= k < |transfers| ==> 0 <= transfers[k].stop < |reversed|
    ensures r == AddReversed(reversed, fromStop, transfers)
  {
    r := reversed;
    var j := 0;
    while j < |transfers|
      invariant 0 <= j <= |transfers|
      invariant r == AddReversed(reversed, fromStop, transfers[..j])
    {
      assert transfers[..j + 1][..j] == transfers[..j];
      var t := transfers[j];
      r := r[t.stop := r[t.stop] + [Reversed(fromStop, t)]];
      j := j + 1;
    }
    assert transfers[..j] == transfers;
  }

  /** The kept transfers target only stops the candidates target. */
  lemma KeptTargetsInRange(ts: seq<RaptorTransfer>, n: int)
    requires forall k :: 0 <= k < |ts| ==> 0 <= ts[k].stop < n
    ensures forall i :: 0 <= i < |CheapestPerStop(ts)| ==> 0 <= CheapestPerStop(ts)[i].stop < n
  {
    CheapestPerStopIsCheapest(ts);
    var kept := CheapestPerStop(ts);
    forall i | 0 <= i < |kept|
      ensures 0 <= kept[i].stop < n
    {
      var k :| LastCheapestAt(ts, kept[i], k);
    }
  }

  lemma TargetsInRangeUpdate(forward: seq<seq<RaptorTransfer>>, n: int, f: int, ts: seq<RaptorTransfer>)
    requires TargetsInRange(forward, n) && 0 <= f < |forward|
    requires forall i :: 0 <= i < |ts| ==> 0 <= ts[i].stop < n
    ensures TargetsInRange(forward[f := ts], n)
  {
  }

  /** The reversed lists of the first count stops do not depend on the later stops' lists. */
  lemma {:induction false} ReversedUpToUnchanged(a: seq<seq<RaptorTransfer>>, b: seq<seq<RaptorTransfer>>, n: nat, count: nat)
    requires count <= |a| == |b| && TargetsInRange(a, n) && TargetsInRange(b, n)
    requires forall f :: 0 <= f < count ==> a[f] == b[f]
    ensures ReversedUpTo(a, n, count) == ReversedUpTo(b, n, count)
  {
    if count > 0 {
      ReversedUpToUnchanged(a, b, n, count - 1);
    }
  }

  /**
   * The reversed index mirrors the forward one: a transfer from f to s is
   * kept exactly when its reversal, pointing back to f, is listed under s.
   */
  lemma ReversedMirrorsForward(candidatesByStop: seq<seq<RaptorTransfer>>, index: TransferIndex, s: int, x: RaptorTransfer)
    requires |index.forwardTransfers| == |candidatesByStop|
    requires TargetsInRange(index.forwardTransfers, |candidatesByStop|)
    requires index.reversedTransfers == ReversedUpTo(index.forwardTransfers, |candidatesByStop|, |candidatesByStop|)
    requires 0 <= s < |candidatesByStop|
    ensures x in index.reversedTransfers[s] <==>
      exists f, k :: 0 <= f < |candidatesByStop| && 0 <= k < |index.forwardTransfers[f]|
                     && index.forwardTransfers[f][k].stop == s && x == Reversed(f, index.forwardTransfers[f][k])
  {
    ReversedUpToMembers(index.forwardTransfers, |candidatesByStop|, |candidatesByStop|, s, x);
  }
}
