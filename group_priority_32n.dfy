/**
 * TransitPriorityGroup32n: a group id is a bit set of up to 32 groups, one
 * bit per group; merging is set union and two different sets dominate each
 * other.
 */
module TransitPriorityGroup32n {
  import opened Wrappers
  import opened GroupPriority

  const MAX_SEQ_NO: int := 32

  /** groupId: index 0 is the empty set, index i in 1..32 the set holding only bit i-1. */
  function GroupId(index: int): (r: Result<bv32, SeqNoError>)
    ensures r.Ok? <==> 0 <= index <= MAX_SEQ_NO
    ensures r.Err? ==> CheckGroupSeqNo(index, MAX_SEQ_NO) == Some(r.error)
    ensures index == 0 ==> r == Ok(GROUP_ZERO)
  {
    match CheckGroupSeqNo(index, MAX_SEQ_NO)
    case Some(e) => Err(e)
    case None => Ok(if index == 0 then GROUP_ZERO else 1 << ((index - 1) as bv32))
  }

  /** mergeInGroupId: a group is in the merged id iff it is in either input. */
  function MergeInGroupId(currentGroupIds: bv32, newGroupId: bv32): (r: bv32)
    ensures forall k: bv32 :: k < 32 ==> (HasBit(r, k) <==> HasBit(currentGroupIds, k) || HasBit(newGroupId, k))
  {
    OrHasBits(currentGroupIds, newGroupId);
    currentGroupIds | newGroupId
  }

  /** Bitwise or sets exactly the bits set in either operand. */
  lemma OrHasBits(a: bv32, b: bv32)
    ensures forall k: bv32 :: k < 32 ==> (HasBit(a | b, k) <==> HasBit(a, k) || HasBit(b, k))
  {
    forall k: bv32 | k < 32
      ensures HasBit(a | b, k) <==> HasBit(a, k) || HasBit(b, k)
    {
    }
  }

  /** dominate: a set of groups dominates every other set, never itself. */
  predicate Dominate(left: bv32, right: bv32) {
    left != right
  }

  /** Group i (index i + 1) is in the merged id iff it is in either input. */
  lemma MergeHasBit(a: bv32, b: bv32, k: bv32)
    requires k < 32
    ensures HasBit(MergeInGroupId(a, b), k) <==> HasBit(a, k) || HasBit(b, k)
  {
  }

  /** The id of index i in 1..32 holds exactly one group: bit i - 1. */
  lemma GroupIdHasBit(index: int, k: bv32)
    requires 1 <= index <= MAX_SEQ_NO && k < 32
    ensures GroupId(index).Ok? && (HasBit(GroupId(index).value, k) <==> k == (index - 1) as bv32)
  {
  }

  lemma MergeIsSetUnion(a: bv32, b: bv32, c: bv32)
    ensures MergeInGroupId(a, b) == MergeInGroupId(b, a)
    ensures MergeInGroupId(MergeInGroupId(a, b), c) == MergeInGroupId(a, MergeInGroupId(b, c))
    ensures MergeInGroupId(a, a) == a
    ensures MergeInGroupId(a, GROUP_ZERO) == a && MergeInGroupId(GROUP_ZERO, a) == a
  {
  }

  lemma DominanceIsIrreflexive(a: bv32, b: bv32)
    ensures !Dominate(a, a)
    ensures Dominate(a, b) <==> Dominate(b, a)
  {
  }

  /** Merging the groups 0, 1, 2 and 31 one at a time gives their union. */
  lemma MergeExample()
    ensures
      var g0, g1, g2, g31 := GroupId(0).value, GroupId(1).value, GroupId(2).value, GroupId(31).value;
      var m := MergeInGroupId(MergeInGroupId(MergeInGroupId(MergeInGroupId(g0, g0), g1), g2), g31);
      m == g0 | g1 | g2 | g31 && m == 0x4000_0003
      && !Dominate(g0, g0) && !Dominate(g31, g31) && !Dominate(g1 | g2, g1 | g2)
  {
  }
}
