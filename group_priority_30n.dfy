/**
 * TransitPriorityGroup30n: a group id holds up to 30 groups as bits 2..31
 * and, in its two lowest bits, a saturating count of the groups minus one.
 * Fewer groups dominate more; two different sets with the same count
 * dominate each other.
 */
module TransitPriorityGroup30n {
  import opened Wrappers
  import opened GroupPriority
  import TransitPriorityGroup256n

  const COUNT_MASK: bv32 := 0x03
  const COUNT_MASK_INV: bv32 := !COUNT_MASK
  const GROUP_ONE: bv32 := COUNT_MASK + 1
  const MAX_SEQ_NO: int := 30

  /** Integer.bitCount: the number of set bits, counted from the lowest bit up. */
  function PopCount(i: bv32): nat
    decreases i
  {
    if i == 0 then 0 else PopCount(i >> 1) + (if i & 1 == 1 then 1 else 0)
  }

  /** Math.min(k - 1, COUNT_MASK) as an int bit pattern; k == 0 gives -1, all bits set. */
  function CountBits(k: nat): (r: bv32)
    ensures k == 0 ==> r == 0xFFFF_FFFF
    ensures k == 1 ==> r == 0
    ensures k == 2 ==> r == 1
    ensures k == 3 ==> r == 2
    ensures k > 3 ==> r == COUNT_MASK
  {
    if k == 0 then 0xFFFF_FFFF
    else if k == 1 then 0
    else if k == 2 then 1
    else if k == 3 then 2
    else COUNT_MASK
  }

  /** dominateTransitPriorityGroup: GROUP_ZERO takes no part; otherwise the lower count wins. */
  predicate Dominate(left: bv32, right: bv32) {
    if left == GROUP_ZERO || right == GROUP_ZERO then false
    else
      var nLeft, nRight := left & COUNT_MASK, right & COUNT_MASK;
      nLeft < nRight || (nLeft == nRight && left != right)
  }

  /** mergeInGroupId: the union of the group bits, with the count recomputed. */
  function MergeInGroupId(currentGroupIds: bv32, newGroupId: bv32): (r: bv32)
    ensures currentGroupIds == newGroupId || newGroupId == GROUP_ZERO ==> r == currentGroupIds
    ensures currentGroupIds == GROUP_ZERO && newGroupId != GROUP_ZERO ==> r == newGroupId
  {
    if currentGroupIds == newGroupId || newGroupId == GROUP_ZERO then currentGroupIds
    else if currentGroupIds == GROUP_ZERO then newGroupId
    else
      var v := (currentGroupIds | newGroupId) & COUNT_MASK_INV;
      v | CountBits(PopCount(v))
  }

  /** groupId: 0 is GROUP_ZERO, index i in 1..30 the id holding only bit i + 1. */
  function GroupId(index: int): (r: Result<bv32, SeqNoError>)
    ensures r.Ok? <==> 0 <= index <= MAX_SEQ_NO
    ensures r.Err? ==> CheckGroupSeqNo(index, MAX_SEQ_NO) == Some(r.error)
    ensures index == 0 ==> r == Ok(GROUP_ZERO)
  {
    match CheckGroupSeqNo(index, MAX_SEQ_NO)
    case Some(e) => Err(e)
    case None =>
      if index == 0 then Ok(GROUP_ZERO)
      else if index == 1 then Ok(GROUP_ONE)
      else Ok(GROUP_ONE << ((index - 1) as bv32))
  }

  /** groupIdOf: every id of the stream merged in turn into GROUP_ZERO. */
  function GroupIdOf(groupIds: seq<bv32>): bv32 {
    if groupIds == [] then GROUP_ZERO
    else MergeInGroupId(GroupIdOf(groupIds[..|groupIds| - 1]), groupIds[|groupIds| - 1])
  }

  /** The dominance function the calculator hands to Raptor, as written: the one of the 256n encoding. */
  function DominanceFunction(left: bv32, right: bv32): bool {
    TransitPriorityGroup256n.Dominate(left, right)
  }

  /** The dominance function of this encoding. */
  function DominanceFunctionFixed(left: bv32, right: bv32): bool {
    Dominate(left, right)
  }

  /** A group id of index i in 1..30 holds one group, bit i + 1, and a zero count. */
  lemma GroupIdIsSingleGroup(index: int)
    requires 1 <= index <= MAX_SEQ_NO
    ensures GroupId(index).Ok? && GroupId(index).value & COUNT_MASK == 0 && PopCount(GroupId(index).value) == 1
    ensures HasBit(GroupId(index).value, (index - 1) as bv32 + 2)
  {
    var k := (index - 1) as bv32;
    assert GroupId(index) == Ok(GROUP_ONE << k) by {
      if index == 1 {
        assert GROUP_ONE << 0 == GROUP_ONE;
      }
    }
    GroupOneShiftedCounted(k);
    GroupOneShiftedHasBit(k);
  }

  /** GROUP_ONE shifted left by k < 30 holds bit k + 2. */
  lemma GroupOneShiftedHasBit(k: bv32)
    requires k < 30
    ensures HasBit(GROUP_ONE << k, k + 2)
  {
  }

  /** GROUP_ONE shifted left by k < 30 has one set bit. */
  lemma {:induction false} GroupOneShiftedCounted(k: bv32)
    requires k < 30
    ensures PopCount(GROUP_ONE << k) == 1
    decreases k
  {
    var g := GROUP_ONE << k;
    if k > 0 {
      assert g != 0 && g & 1 == 0 && g >> 1 == GROUP_ONE << (k - 1);
      GroupOneShiftedCounted(k - 1);
    } else {
      assert g == 4 && PopCount(1) == 1 && PopCount(2) == 1;
    }
  }

  /** The group bits of a merge are the union of the inputs' group bits, unless neither input holds a group. */
  lemma MergeIsUnion(a: bv32, b: bv32)
    requires (a | b) & COUNT_MASK_INV != 0
    ensures MergeInGroupId(a, b) & COUNT_MASK_INV == (a | b) & COUNT_MASK_INV
  {
    if a != b && b != GROUP_ZERO && a != GROUP_ZERO {
      MergedGroupBits(a, b);
    }
  }

  lemma MergedGroupBits(a: bv32, b: bv32)
    requires a != b && a != GROUP_ZERO && b != GROUP_ZERO && (a | b) & COUNT_MASK_INV != 0
    ensures MergeInGroupId(a, b) & COUNT_MASK_INV == (a | b) & COUNT_MASK_INV
  {
    var v := (a | b) & COUNT_MASK_INV;
    var n := CountBits(PopCount(v));
    MergedIsUnionWithCount(a, b, v, n);
    UnionKeepsGroupBits(v, n);
  }

  /** The merge of two different ids with some group is the union's group bits with their count. */
  lemma MergedIsUnionWithCount(a: bv32, b: bv32, v: bv32, n: bv32)
    requires a != b && a != GROUP_ZERO && b != GROUP_ZERO
    requires v == (a | b) & COUNT_MASK_INV && v != 0 && n == CountBits(PopCount(v))
    ensures v & COUNT_MASK == 0 && n <= COUNT_MASK && MergeInGroupId(a, b) == v | n
  {
    assert n <= COUNT_MASK by {
      SomeBitCounted(v);
    }
    assert v & COUNT_MASK == 0 by {
      CountMaskCleared(a | b);
    }
  }

  lemma CountMaskCleared(x: bv32)
    ensures (x & COUNT_MASK_INV) & COUNT_MASK == 0
  {
  }

  /**
   * The count bits of a merge of two different ids, neither GROUP_ZERO, are
   * min(n - 1, COUNT_MASK) for the number n of groups in the union; with no
   * group in the union the merge is -1.
   */
  lemma MergeCount(a: bv32, b: bv32)
    requires a != b && a != GROUP_ZERO && b != GROUP_ZERO
    ensures (a | b) & COUNT_MASK_INV != 0 ==>
      MergeInGroupId(a, b) & COUNT_MASK == CountBits(PopCount((a | b) & COUNT_MASK_INV))
    ensures (a | b) & COUNT_MASK_INV == 0 ==> MergeInGroupId(a, b) == 0xFFFF_FFFF
  {
    var v := (a | b) & COUNT_MASK_INV;
    if v != 0 {
      var n := CountBits(PopCount(v));
      MergedIsUnionWithCount(a, b, v, n);
      UnionKeepsCount(v, n);
    }
  }

  lemma UnionKeepsCount(v: bv32, n: bv32)
    requires v & COUNT_MASK == 0 && n <= COUNT_MASK
    ensures (v | n) & COUNT_MASK == n
  {
  }

  lemma UnionKeepsGroupBits(v: bv32, n: bv32)
    requires v & COUNT_MASK == 0 && n <= COUNT_MASK
    ensures (v | n) & COUNT_MASK_INV == v
  {
  }

  /** A non-zero pattern has a positive bit count. */
  lemma {:induction false} SomeBitCounted(v: bv32)
    requires v != 0
    ensures PopCount(v) != 0
    decreases v
  {
    if v & 1 == 0 {
      assert v >> 1 != 0;
      SomeBitCounted(v >> 1);
    }
  }

  /** Merging is commutative. */
  lemma MergeCommutes(a: bv32, b: bv32)
    ensures MergeInGroupId(a, b) == MergeInGroupId(b, a)
  {
    assert a | b == b | a;
  }

  /** No id dominates itself, and GROUP_ZERO neither dominates nor is dominated. */
  lemma DominanceIsIrreflexive(a: bv32, b: bv32)
    ensures !Dominate(a, a)
    ensures !Dominate(GROUP_ZERO, b) && !Dominate(b, GROUP_ZERO)
  {
  }

  /** A lower count dominates, one way only. */
  lemma LowerCountDominates(a: bv32, b: bv32)
    requires a != GROUP_ZERO && b != GROUP_ZERO && a & COUNT_MASK < b & COUNT_MASK
    ensures Dominate(a, b) && !Dominate(b, a)
  {
  }

  /** Groups 1, 2 and 3 merged one at a time: two groups count 1, three count 2. */
  lemma MergeExample()
    ensures MergeInGroupId(0x4, 0x8) == 0xD && MergeInGroupId(0xD, 0x10) == 0x1E
  {
    assert PopCount(0x1) == 1 && PopCount(0x3) == 2 && PopCount(0x6) == 2 && PopCount(0xC) == 2;
    assert PopCount(0x7) == 3 && PopCount(0xE) == 3 && PopCount(0x1C) == 3;
  }

  lemma GroupIdOfExample()
    ensures GroupId(1).value == 0x4 && GroupId(2).value == 0x8 && GroupId(3).value == 0x10
    ensures GroupIdOf([0x4, 0x8, 0x10]) == 0x1E
  {
    var s := [0x4, 0x8, 0x10];
    assert s[..2][..1][..0] == [];
    assert GroupIdOf(s[..1]) == 0x4;
    MergeExample();
  }

  /**
   * The calculator's dominance function is the 256n one: for the one-group
   * id of index 9 and the two-group id of indices 1 and 2 the two disagree.
   */
  lemma DominanceFunctionDisagrees()
    ensures GroupId(9).value == 0x400 && MergeInGroupId(0x4, 0x8) == 0xD
    ensures DominanceFunctionFixed(0x400, 0xD) && !DominanceFunction(0x400, 0xD)
    ensures !DominanceFunctionFixed(0xD, 0x400) && DominanceFunction(0xD, 0x400)
  {
    MergeExample();
  }
}
