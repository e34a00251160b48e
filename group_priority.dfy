/**
 * What the three transit-priority group-id encodings share: the empty group
 * id and the range check on a group's sequence number.
 */
module GroupPriority {
  import opened Wrappers

  /** The id of "no group yet", the seed of every merge. */
  const GROUP_ZERO: bv32 := 0

  /** The IllegalArgumentException thrown for a group index out of range. */
  datatype SeqNoError = NegativeGroupIndex(index: int) | GroupIndexAboveMax(index: int, max: int)

  /**
   * assertValidGroupSeqNo: None when the index lies in 0..max, otherwise the
   * error it throws, the negative case being checked first.
   */
  function CheckGroupSeqNo(index: int, max: int): (r: Option<SeqNoError>)
    ensures r.None? <==> 0 <= index <= max
    ensures r.Some? && index < 0 ==> r.value.NegativeGroupIndex?
    ensures r.Some? && index >= 0 ==> r.value == GroupIndexAboveMax(index, max)
  {
    if index < 0 then Some(NegativeGroupIndex(index))
    else if index > max then Some(GroupIndexAboveMax(index, max))
    else None
  }

  /** Bit k (0 = least significant) of a Java int. */
  predicate HasBit(x: bv32, k: bv32)
    requires k < 32
  {
    (x >> k) & 1 == 1
  }
}
