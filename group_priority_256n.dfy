/**
 * TransitPriorityGroup256n: a group id packs up to four group numbers in
 * 1..255, one per byte, the smallest in the lowest byte. Merging in a fifth
 * group gives GROUP_MANY, and a set with fewer groups dominates a set with
 * more.
 */
module TransitPriorityGroup256n {
  import opened Wrappers
  import opened JavaInt
  import opened GroupPriority

  const GROUP_ONE_MASK: bv32 := 0xFF
  const GROUP_TWO_MASK: bv32 := 0xFF00
  const GROUP_THREE_MASK: bv32 := 0xFF_0000
  const GROUP_FOUR_MASK: bv32 := 0xFF00_0000
  const GROUP_ONE_TWO_MASK: bv32 := 0xFFFF
  const GROUP_THREE_FOUR_MASK: bv32 := 0xFFFF_0000
  const GROUP_MANY: bv32 := 0xFFFF_FFFF
  const MAX_SEQ_NO: int := 0xFF + 1
  const SIZE: bv32 := 4

  /** Byte i (0 = lowest) of a group id. */
  function Byte(x: bv32, i: nat): (r: bv32)
    requires i < 4
    ensures r <= 0xFF
  {
    if i == 0 then x & 0xFF
    else if i == 1 then (x >> 8) & 0xFF
    else if i == 2 then (x >> 16) & 0xFF
    else x >> 24
  }

  /** count: the number of groups, read off the highest non-zero byte (1 for GROUP_ZERO). */
  function Count(value: bv32): (r: bv32)
    ensures 1 <= r <= SIZE
    ensures r == 4 <==> Byte(value, 3) != 0
    ensures r == 3 <==> Byte(value, 3) == 0 && Byte(value, 2) != 0
    ensures r == 2 <==> Byte(value, 3) == 0 && Byte(value, 2) == 0 && Byte(value, 1) != 0
  {
    var v := value >> 16;
    if v == 0 then (if value >> 8 == 0 then 1 else 2)
    else if v >> 8 == 0 then 3 else 4
  }

  /** dominateTransitPriorityGroup: fewer groups dominate; equal counts dominate each other unless equal. */
  predicate Dominate(left: bv32, right: bv32) {
    var nLeft, nRight := Count(left), Count(right);
    nLeft < nRight || (nLeft == nRight && left != right)
  }

  /** groupId as written: the index itself, for any index in 0..256. */
  function GroupId(index: int): (r: Result<bv32, SeqNoError>)
    ensures r.Ok? <==> 0 <= index <= MAX_SEQ_NO
    ensures r.Ok? ==> r.value == index as bv32
    ensures r.Err? ==> CheckGroupSeqNo(index, MAX_SEQ_NO) == Some(r.error)
  {
    match CheckGroupSeqNo(index, MAX_SEQ_NO)
    case Some(e) => Err(e)
    case None => Ok(index as bv32)
  }

  /** groupId with the largest index that still fits one byte. */
  function GroupIdFixed(index: int): (r: Result<bv32, SeqNoError>)
    ensures r.Ok? <==> 0 <= index <= 0xFF
    ensures r.Ok? ==> r.value == index as bv32 && r.value <= 0xFF
    ensures r.Err? ==> CheckGroupSeqNo(index, 0xFF) == Some(r.error)
  {
    match CheckGroupSeqNo(index, 0xFF)
    case Some(e) => Err(e)
    case None => Ok(index as bv32)
  }

  /** mergeInGroupId as written: the two early returns, then one stage per byte. */
  function MergeInGroupId(currentGroupIds: bv32, newGroupId: bv32): (r: bv32)
    ensures currentGroupIds == newGroupId || newGroupId == GROUP_ZERO ==> r == currentGroupIds
    ensures currentGroupIds == GROUP_ZERO && newGroupId != GROUP_ZERO ==> r == newGroupId
  {
    if currentGroupIds == newGroupId || newGroupId == GROUP_ZERO then currentGroupIds
    else if currentGroupIds == GROUP_ZERO then newGroupId
    else Stage1(currentGroupIds, newGroupId)
  }

  /** Compare with the lowest byte; a smaller group is inserted there and the rest shifted up. */
  function Stage1(c: bv32, v: bv32): bv32 {
    var a := c & GROUP_ONE_MASK;
    if v == a then c
    else if SignedLt(v, a) then (if Count(c) == SIZE then GROUP_MANY else (c << 8) | v)
    else Stage2(c, v << 8)
  }

  function Stage2(c: bv32, v: bv32): bv32 {
    var a := c & GROUP_TWO_MASK;
    if v == a then c
    else if SignedLt(v, a) then
      (if Count(c) == SIZE then GROUP_MANY else ((c << 8) & GROUP_THREE_FOUR_MASK) | v | (c & GROUP_ONE_MASK))
    else Stage3(c, v << 8)
  }

  function Stage3(c: bv32, v: bv32): bv32 {
    var a := c & GROUP_THREE_MASK;
    if v == a then c
    else if SignedLt(v, a) then
      (if Count(c) == SIZE then GROUP_MANY else ((c << 8) & GROUP_FOUR_MASK) | v | (c & GROUP_ONE_TWO_MASK))
    else Stage4(c, v << 8)
  }

  function Stage4(c: bv32, v: bv32): bv32 {
    if v == c & GROUP_FOUR_MASK then c else GROUP_MANY
  }

  /**
   * mergeInGroupId with the evidently intended behaviour: from the second
   * byte on, an empty byte takes the new group, so a group larger than every
   * stored one is appended instead of giving GROUP_MANY.
   */
  function MergeInGroupIdFixed(currentGroupIds: bv32, newGroupId: bv32): (r: bv32)
    ensures currentGroupIds == newGroupId || newGroupId == GROUP_ZERO ==> r == currentGroupIds
    ensures currentGroupIds == GROUP_ZERO && newGroupId != GROUP_ZERO ==> r == newGroupId
  {
    if currentGroupIds == newGroupId || newGroupId == GROUP_ZERO then currentGroupIds
    else if currentGroupIds == GROUP_ZERO then newGroupId
    else FixedStage1(currentGroupIds, newGroupId)
  }

  function FixedStage1(c: bv32, v: bv32): bv32 {
    var a := c & GROUP_ONE_MASK;
    if v == a then c
    else if SignedLt(v, a) then (if Count(c) == SIZE then GROUP_MANY else (c << 8) | v)
    else FixedStage2(c, v << 8)
  }

  function FixedStage2(c: bv32, v: bv32): bv32 {
    var a := c & GROUP_TWO_MASK;
    if v == a then c
    else if a == 0 then c | v
    else if SignedLt(v, a) then
      (if Count(c) == SIZE then GROUP_MANY else ((c << 8) & GROUP_THREE_FOUR_MASK) | v | (c & GROUP_ONE_MASK))
    else FixedStage3(c, v << 8)
  }

  function FixedStage3(c: bv32, v: bv32): bv32 {
    var a := c & GROUP_THREE_MASK;
    if v == a then c
    else if a == 0 then c | v
    else if SignedLt(v, a) then
      (if Count(c) == SIZE then GROUP_MANY else ((c << 8) & GROUP_FOUR_MASK) | v | (c & GROUP_ONE_TWO_MASK))
    else FixedStage4(c, v << 8)
  }

  function FixedStage4(c: bv32, v: bv32): bv32 {
    var a := c & GROUP_FOUR_MASK;
    if v == a then c
    else if a == 0 then c | v
    else GROUP_MANY
  }

  /** groupIdOf: every id of the stream merged in turn into GROUP_ZERO. */
  function GroupIdOf(groupIds: seq<bv32>): bv32 {
    if groupIds == [] then GROUP_ZERO
    else MergeInGroupId(GroupIdOf(groupIds[..|groupIds| - 1]), groupIds[|groupIds| - 1])
  }

  // The abstract view of a group id: the group stored in each byte, lowest first.

  /** c holds the groups b0, b1, b2, b3 (0 meaning an empty byte), b0 in the lowest byte. */
  predicate Stores(c: bv32, b0: bv32, b1: bv32, b2: bv32, b3: bv32) {
    b0 <= 0xFF && b1 <= 0xFF && b2 <= 0xFF && b3 <= 0xFF &&
    c & GROUP_ONE_MASK == b0 && c & GROUP_TWO_MASK == b1 << 8 &&
    c & GROUP_THREE_MASK == b2 << 16 && c & GROUP_FOUR_MASK == b3 << 24
  }

  /** The bytes of a merged id: at least one group, occupying the lowest bytes, strictly increasing. */
  predicate Sorted(b0: bv32, b1: bv32, b2: bv32, b3: bv32) {
    b0 != 0 &&
    (b1 == 0 ==> b2 == 0) && (b2 == 0 ==> b3 == 0) &&
    (b1 != 0 ==> b0 < b1) && (b2 != 0 ==> b1 < b2) && (b3 != 0 ==> b2 < b3)
  }

  /** The number of stored groups. */
  function Groups(b0: bv32, b1: bv32, b2: bv32, b3: bv32): bv32 {
    if b3 != 0 then 4 else if b2 != 0 then 3 else if b1 != 0 then 2 else 1
  }

  /** The largest of at most three stored groups. */
  function Largest(b0: bv32, b1: bv32, b2: bv32): bv32 {
    if b2 != 0 then b2 else if b1 != 0 then b1 else b0
  }

  // Byte-level facts, each proved on its own so that the merge proofs below stay small.

  lemma StoredBytes(c: bv32, b0: bv32, b1: bv32, b2: bv32, b3: bv32)
    requires Stores(c, b0, b1, b2, b3)
    ensures Byte(c, 0) == b0 && Byte(c, 1) == b1 && Byte(c, 2) == b2 && Byte(c, 3) == b3
  {
  }

  lemma StoredZero(c: bv32, b0: bv32, b1: bv32, b2: bv32, b3: bv32)
    requires Stores(c, b0, b1, b2, b3)
    ensures c == 0 <==> b0 == 0 && b1 == 0 && b2 == 0 && b3 == 0
  {
  }

  lemma Shift0(x: bv32, b: bv32)
    requires x <= 0xFF && b <= 0xFF
    ensures SignedLt(x, b) == (x < b)
  {
  }

  lemma Shift8(x: bv32, b: bv32)
    requires x <= 0xFF && b <= 0xFF
    ensures (x << 8 == b << 8) == (x == b) && SignedLt(x << 8, b << 8) == (x < b)
    ensures (x << 8) << 8 == x << 16
  {
  }

  lemma Shift16(x: bv32, b: bv32)
    requires x <= 0xFF && b <= 0xFF
    ensures (x << 16 == b << 16) == (x == b) && SignedLt(x << 16, b << 16) == (x < b)
    ensures (x << 16) << 8 == x << 24
  {
  }

  lemma Shift24(x: bv32, b: bv32)
    requires x <= 0xFF && b <= 0xFF
    ensures (x << 24 == b << 24) == (x == b)
  {
  }

  lemma CountBelowFour(c: bv32)
    requires c & GROUP_FOUR_MASK == 0
    ensures Count(c) != SIZE
  {
  }

  lemma CountFour(c: bv32, b3: bv32)
    requires b3 <= 0xFF && b3 != 0 && c & GROUP_FOUR_MASK == b3 << 24
    ensures Count(c) == SIZE
  {
  }

  /** A single group id differs from c when the lowest byte of c is another group. */
  lemma NotSingle(c: bv32, x: bv32, b0: bv32)
    requires x <= 0xFF && c & GROUP_ONE_MASK == b0 && b0 != x
    ensures c != x
  {
  }

  lemma InsertedFirst(c: bv32, b0: bv32, b1: bv32, b2: bv32, x: bv32)
    requires Stores(c, b0, b1, b2, 0) && x <= 0xFF
    ensures Stores((c << 8) | x, x, b0, b1, b2)
  {
  }

  lemma InsertedSecond(c: bv32, b0: bv32, b1: bv32, b2: bv32, x: bv32)
    requires Stores(c, b0, b1, b2, 0) && x <= 0xFF
    ensures Stores(((c << 8) & GROUP_THREE_FOUR_MASK) | (x << 8) | (c & GROUP_ONE_MASK), b0, x, b1, b2)
  {
  }

  lemma InsertedThird(c: bv32, b0: bv32, b1: bv32, b2: bv32, x: bv32)
    requires Stores(c, b0, b1, b2, 0) && x <= 0xFF
    ensures Stores(((c << 8) & GROUP_FOUR_MASK) | (x << 16) | (c & GROUP_ONE_TWO_MASK), b0, b1, x, b2)
  {
  }

  lemma AppendedSecond(c: bv32, b0: bv32, x: bv32)
    requires Stores(c, b0, 0, 0, 0) && x <= 0xFF
    ensures Stores(c | (x << 8), b0, x, 0, 0)
  {
  }

  lemma AppendedThird(c: bv32, b0: bv32, b1: bv32, x: bv32)
    requires Stores(c, b0, b1, 0, 0) && x <= 0xFF
    ensures Stores(c | (x << 16), b0, b1, x, 0)
  {
  }

  lemma AppendedFourth(c: bv32, b0: bv32, b1: bv32, b2: bv32, x: bv32)
    requires Stores(c, b0, b1, b2, 0) && x <= 0xFF
    ensures Stores(c | (x << 24), b0, b1, b2, x)
  {
  }


  // One lemma per stage and outcome: each states a single equality, which keeps the
  // bit-vector proofs below small.


  lemma Stage1Same(c: bv32, x: bv32, b0: bv32)
    requires b0 <= 0xFF && x <= 0xFF
    requires c & GROUP_ONE_MASK == b0
    requires x == b0
    ensures Stage1(c, x) == c
  {
  }

  lemma Stage1Below(c: bv32, x: bv32, b0: bv32)
    requires b0 <= 0xFF && x <= 0xFF
    requires c & GROUP_ONE_MASK == b0
    requires x < b0
    requires c & GROUP_FOUR_MASK == 0
    ensures Stage1(c, x) == (c << 8) | x
  {
    Shift0(x, b0);
    CountBelowFour(c);
  }

  lemma Stage1BelowFull(c: bv32, x: bv32, b0: bv32, b3: bv32)
    requires b0 <= 0xFF && x <= 0xFF
    requires c & GROUP_ONE_MASK == b0
    requires x < b0
    requires b3 <= 0xFF && b3 != 0 && c & GROUP_FOUR_MASK == b3 << 24
    ensures Stage1(c, x) == GROUP_MANY
  {
    Shift0(x, b0);
    CountFour(c, b3);
  }

  lemma Stage1Above(c: bv32, x: bv32, b0: bv32)
    requires b0 <= 0xFF && x <= 0xFF
    requires c & GROUP_ONE_MASK == b0
    requires b0 < x
    ensures Stage1(c, x) == Stage2(c, x << 8)
  {
    Shift0(x, b0);
  }

  lemma Stage2Same(c: bv32, x: bv32, b1: bv32)
    requires b1 <= 0xFF && x <= 0xFF
    requires c & GROUP_TWO_MASK == b1 << 8
    requires x == b1
    ensures Stage2(c, x << 8) == c
  {
  }

  lemma Stage2Below(c: bv32, x: bv32, b1: bv32)
    requires b1 <= 0xFF && x <= 0xFF
    requires c & GROUP_TWO_MASK == b1 << 8
    requires x < b1
    requires c & GROUP_FOUR_MASK == 0
    ensures Stage2(c, x << 8) == ((c << 8) & GROUP_THREE_FOUR_MASK) | (x << 8) | (c & GROUP_ONE_MASK)
  {
    Shift8(x, b1);
    CountBelowFour(c);
  }

  lemma Stage2BelowFull(c: bv32, x: bv32, b1: bv32, b3: bv32)
    requires b1 <= 0xFF && x <= 0xFF
    requires c & GROUP_TWO_MASK == b1 << 8
    requires x < b1
    requires b3 <= 0xFF && b3 != 0 && c & GROUP_FOUR_MASK == b3 << 24
    ensures Stage2(c, x << 8) == GROUP_MANY
  {
    Shift8(x, b1);
    CountFour(c, b3);
  }

  lemma Stage2Above(c: bv32, x: bv32, b1: bv32)
    requires b1 <= 0xFF && x <= 0xFF
    requires c & GROUP_TWO_MASK == b1 << 8
    requires b1 < x
    ensures Stage2(c, x << 8) == Stage3(c, x << 16)
  {
    Shift8(x, b1);
  }

  lemma Stage3Same(c: bv32, x: bv32, b2: bv32)
    requires b2 <= 0xFF && x <= 0xFF
    requires c & GROUP_THREE_MASK == b2 << 16
    requires x == b2
    ensures Stage3(c, x << 16) == c
  {
  }

  lemma Stage3Below(c: bv32, x: bv32, b2: bv32)
    requires b2 <= 0xFF && x <= 0xFF
    requires c & GROUP_THREE_MASK == b2 << 16
    requires x < b2
    requires c & GROUP_FOUR_MASK == 0
    ensures Stage3(c, x << 16) == ((c << 8) & GROUP_FOUR_MASK) | (x << 16) | (c & GROUP_ONE_TWO_MASK)
  {
    Shift16(x, b2);
    CountBelowFour(c);
  }

  lemma Stage3BelowFull(c: bv32, x: bv32, b2: bv32, b3: bv32)
    requires b2 <= 0xFF && x <= 0xFF
    requires c & GROUP_THREE_MASK == b2 << 16
    requires x < b2
    requires b3 <= 0xFF && b3 != 0 && c & GROUP_FOUR_MASK == b3 << 24
    ensures Stage3(c, x << 16) == GROUP_MANY
  {
    Shift16(x, b2);
    CountFour(c, b3);
  }

  lemma Stage3Above(c: bv32, x: bv32, b2: bv32)
    requires b2 <= 0xFF && x <= 0xFF
    requires c & GROUP_THREE_MASK == b2 << 16
    requires b2 < x
    ensures Stage3(c, x << 16) == Stage4(c, x << 24)
  {
    Shift16(x, b2);
  }

  lemma Stage4Same(c: bv32, x: bv32, b3: bv32)
    requires b3 <= 0xFF && x <= 0xFF
    requires c & GROUP_FOUR_MASK == b3 << 24
    requires x == b3
    ensures Stage4(c, x << 24) == c
  {
  }

  lemma Stage4Other(c: bv32, x: bv32, b3: bv32)
    requires b3 <= 0xFF && x <= 0xFF
    requires c & GROUP_FOUR_MASK == b3 << 24
    requires x != b3
    ensures Stage4(c, x << 24) == GROUP_MANY
  {
    Shift24(x, b3);
  }

  lemma FixedStage1Same(c: bv32, x: bv32, b0: bv32)
    requires b0 <= 0xFF && x <= 0xFF
    requires c & GROUP_ONE_MASK == b0
    requires x == b0
    ensures FixedStage1(c, x) == c
  {
  }

  lemma FixedStage1Below(c: bv32, x: bv32, b0: bv32)
    requires b0 <= 0xFF && x <= 0xFF
    requires c & GROUP_ONE_MASK == b0
    requires x < b0
    requires c & GROUP_FOUR_MASK == 0
    ensures FixedStage1(c, x) == (c << 8) | x
  {
    Shift0(x, b0);
    CountBelowFour(c);
  }

  lemma FixedStage1BelowFull(c: bv32, x: bv32, b0: bv32, b3: bv32)
    requires b0 <= 0xFF && x <= 0xFF
    requires c & GROUP_ONE_MASK == b0
    requires x < b0
    requires b3 <= 0xFF && b3 != 0 && c & GROUP_FOUR_MASK == b3 << 24
    ensures FixedStage1(c, x) == GROUP_MANY
  {
    Shift0(x, b0);
    CountFour(c, b3);
  }

  lemma FixedStage1Above(c: bv32, x: bv32, b0: bv32)
    requires b0 <= 0xFF && x <= 0xFF
    requires c & GROUP_ONE_MASK == b0
    requires b0 < x
    ensures FixedStage1(c, x) == FixedStage2(c, x << 8)
  {
    Shift0(x, b0);
  }

  lemma FixedStage2Same(c: bv32, x: bv32, b1: bv32)
    requires b1 <= 0xFF && x <= 0xFF
    requires c & GROUP_TWO_MASK == b1 << 8
    requires x == b1
    ensures FixedStage2(c, x << 8) == c
  {
  }

  lemma FixedStage2Below(c: bv32, x: bv32, b1: bv32)
    requires b1 <= 0xFF && x <= 0xFF
    requires c & GROUP_TWO_MASK == b1 << 8
    requires x < b1
    requires c & GROUP_FOUR_MASK == 0
    ensures FixedStage2(c, x << 8) == ((c << 8) & GROUP_THREE_FOUR_MASK) | (x << 8) | (c & GROUP_ONE_MASK)
  {
    Shift8(x, b1);
    CountBelowFour(c);
  }

  lemma FixedStage2BelowFull(c: bv32, x: bv32, b1: bv32, b3: bv32)
    requires b1 <= 0xFF && x <= 0xFF
    requires c & GROUP_TWO_MASK == b1 << 8
    requires x < b1
    requires b3 <= 0xFF && b3 != 0 && c & GROUP_FOUR_MASK == b3 << 24
    ensures FixedStage2(c, x << 8) == GROUP_MANY
  {
    Shift8(x, b1);
    CountFour(c, b3);
  }

  lemma FixedStage2Empty(c: bv32, x: bv32, b1: bv32)
    requires b1 <= 0xFF && x <= 0xFF
    requires c & GROUP_TWO_MASK == b1 << 8
    requires b1 == 0 && x != 0
    ensures FixedStage2(c, x << 8) == c | (x << 8)
  {
    Shift8(x, b1);
  }

  lemma FixedStage2Above(c: bv32, x: bv32, b1: bv32)
    requires b1 <= 0xFF && x <= 0xFF
    requires c & GROUP_TWO_MASK == b1 << 8
    requires b1 != 0 && b1 < x
    ensures FixedStage2(c, x << 8) == FixedStage3(c, x << 16)
  {
    Shift8(x, b1);
  }

  lemma FixedStage3Same(c: bv32, x: bv32, b2: bv32)
    requires b2 <= 0xFF && x <= 0xFF
    requires c & GROUP_THREE_MASK == b2 << 16
    requires x == b2
    ensures FixedStage3(c, x << 16) == c
  {
  }

  lemma FixedStage3Below(c: bv32, x: bv32, b2: bv32)
    requires b2 <= 0xFF && x <= 0xFF
    requires c & GROUP_THREE_MASK == b2 << 16
    requires x < b2
    requires c & GROUP_FOUR_MASK == 0
    ensures FixedStage3(c, x << 16) == ((c << 8) & GROUP_FOUR_MASK) | (x << 16) | (c & GROUP_ONE_TWO_MASK)
  {
    Shift16(x, b2);
    CountBelowFour(c);
  }

  lemma FixedStage3BelowFull(c: bv32, x: bv32, b2: bv32, b3: bv32)
    requires b2 <= 0xFF && x <= 0xFF
    requires c & GROUP_THREE_MASK == b2 << 16
    requires x < b2
    requires b3 <= 0xFF && b3 != 0 && c & GROUP_FOUR_MASK == b3 << 24
    ensures FixedStage3(c, x << 16) == GROUP_MANY
  {
    Shift16(x, b2);
    CountFour(c, b3);
  }

  lemma FixedStage3Empty(c: bv32, x: bv32, b2: bv32)
    requires b2 <= 0xFF && x <= 0xFF
    requires c & GROUP_THREE_MASK == b2 << 16
    requires b2 == 0 && x != 0
    ensures FixedStage3(c, x << 16) == c | (x << 16)
  {
  }

  lemma FixedStage3Above(c: bv32, x: bv32, b2: bv32)
    requires b2 <= 0xFF && x <= 0xFF
    requires c & GROUP_THREE_MASK == b2 << 16
    requires b2 != 0 && b2 < x
    ensures FixedStage3(c, x << 16) == FixedStage4(c, x << 24)
  {
    Shift16(x, b2);
  }

  lemma FixedStage4Same(c: bv32, x: bv32, b3: bv32)
    requires b3 <= 0xFF && x <= 0xFF
    requires c & GROUP_FOUR_MASK == b3 << 24
    requires x == b3
    ensures FixedStage4(c, x << 24) == c
  {
  }

  lemma FixedStage4Empty(c: bv32, x: bv32, b3: bv32)
    requires b3 <= 0xFF && x <= 0xFF
    requires c & GROUP_FOUR_MASK == b3 << 24
    requires b3 == 0 && x != 0
    ensures FixedStage4(c, x << 24) == c | (x << 24)
  {
    Shift24(x, b3);
  }

  lemma FixedStage4Full(c: bv32, x: bv32, b3: bv32)
    requires b3 <= 0xFF && x <= 0xFF
    requires c & GROUP_FOUR_MASK == b3 << 24
    requires b3 != 0 && x != b3
    ensures FixedStage4(c, x << 24) == GROUP_MANY
  {
    Shift24(x, b3);
  }

  lemma MergeEntersStages(c: bv32, x: bv32)
    requires c != GROUP_ZERO && x != GROUP_ZERO && c != x
    ensures MergeInGroupId(c, x) == Stage1(c, x)
    ensures MergeInGroupIdFixed(c, x) == FixedStage1(c, x)
  {
  }


  // One lemma per position of the new group and outcome, for both versions of the merge.

  lemma KeepsStoredAt0(c: bv32, x: bv32, b0: bv32, b1: bv32, b2: bv32, b3: bv32)
    requires Stores(c, b0, b1, b2, b3) && Sorted(b0, b1, b2, b3) && 0 < x <= 0xFF
    requires x == b0
    ensures MergeInGroupId(c, x) == c && MergeInGroupIdFixed(c, x) == c
  {
    if c != x {
      MergeEntersStages(c, x);
      Stage1Same(c, x, b0);
      FixedStage1Same(c, x, b0);
    }
  }

  lemma KeepsStoredAt1(c: bv32, x: bv32, b0: bv32, b1: bv32, b2: bv32, b3: bv32)
    requires Stores(c, b0, b1, b2, b3) && Sorted(b0, b1, b2, b3) && 0 < x <= 0xFF
    requires x == b1
    ensures MergeInGroupId(c, x) == c && MergeInGroupIdFixed(c, x) == c
  {
    if c != x {
      MergeEntersStages(c, x);
      Stage1Above(c, x, b0);
      FixedStage1Above(c, x, b0);
      Stage2Same(c, x, b1);
      FixedStage2Same(c, x, b1);
    }
  }

  lemma KeepsStoredAt2(c: bv32, x: bv32, b0: bv32, b1: bv32, b2: bv32, b3: bv32)
    requires Stores(c, b0, b1, b2, b3) && Sorted(b0, b1, b2, b3) && 0 < x <= 0xFF
    requires x == b2
    ensures MergeInGroupId(c, x) == c && MergeInGroupIdFixed(c, x) == c
  {
    if c != x {
      MergeEntersStages(c, x);
      Stage1Above(c, x, b0);
      FixedStage1Above(c, x, b0);
      Stage2Above(c, x, b1);
      FixedStage2Above(c, x, b1);
      Stage3Same(c, x, b2);
      FixedStage3Same(c, x, b2);
    }
  }

  lemma KeepsStoredAt3(c: bv32, x: bv32, b0: bv32, b1: bv32, b2: bv32, b3: bv32)
    requires Stores(c, b0, b1, b2, b3) && Sorted(b0, b1, b2, b3) && 0 < x <= 0xFF
    requires x == b3
    ensures MergeInGroupId(c, x) == c && MergeInGroupIdFixed(c, x) == c
  {
    if c != x {
      MergeEntersStages(c, x);
      Stage1Above(c, x, b0);
      FixedStage1Above(c, x, b0);
      Stage2Above(c, x, b1);
      FixedStage2Above(c, x, b1);
      Stage3Above(c, x, b2);
      FixedStage3Above(c, x, b2);
      Stage4Same(c, x, b3);
      FixedStage4Same(c, x, b3);
    }
  }

  lemma InsertsAt0(c: bv32, x: bv32, b0: bv32, b1: bv32, b2: bv32, b3: bv32)
    requires Stores(c, b0, b1, b2, b3) && Sorted(b0, b1, b2, b3) && 0 < x <= 0xFF
    requires b3 == 0 && x < b0
    ensures Stores(MergeInGroupId(c, x), x, b0, b1, b2)
    ensures Stores(MergeInGroupIdFixed(c, x), x, b0, b1, b2)
    ensures MergeInGroupId(c, x) == MergeInGroupIdFixed(c, x)
  {
    NotSingle(c, x, b0);
    MergeEntersStages(c, x);
    Stage1Below(c, x, b0);
    FixedStage1Below(c, x, b0);
    InsertedFirst(c, b0, b1, b2, x);
  }

  lemma InsertsAt1(c: bv32, x: bv32, b0: bv32, b1: bv32, b2: bv32, b3: bv32)
    requires Stores(c, b0, b1, b2, b3) && Sorted(b0, b1, b2, b3) && 0 < x <= 0xFF
    requires b3 == 0 && x < b1 && b0 < x
    ensures Stores(MergeInGroupId(c, x), b0, x, b1, b2)
    ensures Stores(MergeInGroupIdFixed(c, x), b0, x, b1, b2)
    ensures MergeInGroupId(c, x) == MergeInGroupIdFixed(c, x)
  {
    NotSingle(c, x, b0);
    MergeEntersStages(c, x);
    Stage1Above(c, x, b0);
    FixedStage1Above(c, x, b0);
    Stage2Below(c, x, b1);
    FixedStage2Below(c, x, b1);
    InsertedSecond(c, b0, b1, b2, x);
  }

  lemma InsertsAt2(c: bv32, x: bv32, b0: bv32, b1: bv32, b2: bv32, b3: bv32)
    requires Stores(c, b0, b1, b2, b3) && Sorted(b0, b1, b2, b3) && 0 < x <= 0xFF
    requires b3 == 0 && x < b2 && b1 < x
    ensures Stores(MergeInGroupId(c, x), b0, b1, x, b2)
    ensures Stores(MergeInGroupIdFixed(c, x), b0, b1, x, b2)
    ensures MergeInGroupId(c, x) == MergeInGroupIdFixed(c, x)
  {
    NotSingle(c, x, b0);
    MergeEntersStages(c, x);
    Stage1Above(c, x, b0);
    FixedStage1Above(c, x, b0);
    Stage2Above(c, x, b1);
    FixedStage2Above(c, x, b1);
    Stage3Below(c, x, b2);
    FixedStage3Below(c, x, b2);
    InsertedThird(c, b0, b1, b2, x);
  }

  lemma AppendsAt1(c: bv32, x: bv32, b0: bv32, b1: bv32, b2: bv32, b3: bv32)
    requires Stores(c, b0, b1, b2, b3) && Sorted(b0, b1, b2, b3) && 0 < x <= 0xFF
    requires b3 == 0 && b1 == 0 && b0 != 0 && b0 < x
    ensures Stores(MergeInGroupIdFixed(c, x), b0, x, 0, 0)
  {
    NotSingle(c, x, b0);
    MergeEntersStages(c, x);
    FixedStage1Above(c, x, b0);
    FixedStage2Empty(c, x, b1);
    AppendedSecond(c, b0, x);
  }

  lemma AppendsAt2(c: bv32, x: bv32, b0: bv32, b1: bv32, b2: bv32, b3: bv32)
    requires Stores(c, b0, b1, b2, b3) && Sorted(b0, b1, b2, b3) && 0 < x <= 0xFF
    requires b3 == 0 && b2 == 0 && b1 != 0 && b1 < x
    ensures Stores(MergeInGroupIdFixed(c, x), b0, b1, x, 0)
  {
    NotSingle(c, x, b0);
    MergeEntersStages(c, x);
    FixedStage1Above(c, x, b0);
    FixedStage2Above(c, x, b1);
    FixedStage3Empty(c, x, b2);
    AppendedThird(c, b0, b1, x);
  }

  lemma AppendsAt3(c: bv32, x: bv32, b0: bv32, b1: bv32, b2: bv32, b3: bv32)
    requires Stores(c, b0, b1, b2, b3) && Sorted(b0, b1, b2, b3) && 0 < x <= 0xFF
    requires b3 == 0 && b3 == 0 && b2 != 0 && b2 < x
    ensures Stores(MergeInGroupIdFixed(c, x), b0, b1, b2, x)
  {
    NotSingle(c, x, b0);
    MergeEntersStages(c, x);
    FixedStage1Above(c, x, b0);
    FixedStage2Above(c, x, b1);
    FixedStage3Above(c, x, b2);
    FixedStage4Empty(c, x, b3);
    AppendedFourth(c, b0, b1, b2, x);
  }

  lemma BeyondLargest(c: bv32, x: bv32, b0: bv32, b1: bv32, b2: bv32, b3: bv32)
    requires Stores(c, b0, b1, b2, b3) && Sorted(b0, b1, b2, b3) && 0 < x <= 0xFF
    requires b3 == 0 && b0 < x && b1 < x && b2 < x
    ensures MergeInGroupId(c, x) == GROUP_MANY
  {
    NotSingle(c, x, b0);
    MergeEntersStages(c, x);
    Stage1Above(c, x, b0);
    Stage2Above(c, x, b1);
    Stage3Above(c, x, b2);
    Stage4Other(c, x, b3);
  }

  lemma FullAt0(c: bv32, x: bv32, b0: bv32, b1: bv32, b2: bv32, b3: bv32)
    requires Stores(c, b0, b1, b2, b3) && Sorted(b0, b1, b2, b3) && 0 < x <= 0xFF
    requires b3 != 0 && x < b0
    ensures MergeInGroupId(c, x) == GROUP_MANY && MergeInGroupIdFixed(c, x) == GROUP_MANY
  {
    NotSingle(c, x, b0);
    MergeEntersStages(c, x);
    Stage1BelowFull(c, x, b0, b3);
    FixedStage1BelowFull(c, x, b0, b3);
  }

  lemma FullAt1(c: bv32, x: bv32, b0: bv32, b1: bv32, b2: bv32, b3: bv32)
    requires Stores(c, b0, b1, b2, b3) && Sorted(b0, b1, b2, b3) && 0 < x <= 0xFF
    requires b3 != 0 && x < b1 && b0 < x
    ensures MergeInGroupId(c, x) == GROUP_MANY && MergeInGroupIdFixed(c, x) == GROUP_MANY
  {
    NotSingle(c, x, b0);
    MergeEntersStages(c, x);
    Stage1Above(c, x, b0);
    FixedStage1Above(c, x, b0);
    Stage2BelowFull(c, x, b1, b3);
    FixedStage2BelowFull(c, x, b1, b3);
  }

  lemma FullAt2(c: bv32, x: bv32, b0: bv32, b1: bv32, b2: bv32, b3: bv32)
    requires Stores(c, b0, b1, b2, b3) && Sorted(b0, b1, b2, b3) && 0 < x <= 0xFF
    requires b3 != 0 && x < b2 && b1 < x
    ensures MergeInGroupId(c, x) == GROUP_MANY && MergeInGroupIdFixed(c, x) == GROUP_MANY
  {
    NotSingle(c, x, b0);
    MergeEntersStages(c, x);
    Stage1Above(c, x, b0);
    FixedStage1Above(c, x, b0);
    Stage2Above(c, x, b1);
    FixedStage2Above(c, x, b1);
    Stage3BelowFull(c, x, b2, b3);
    FixedStage3BelowFull(c, x, b2, b3);
  }

  lemma FullAt3(c: bv32, x: bv32, b0: bv32, b1: bv32, b2: bv32, b3: bv32)
    requires Stores(c, b0, b1, b2, b3) && Sorted(b0, b1, b2, b3) && 0 < x <= 0xFF
    requires b3 != 0 && b2 < x && x != b3
    ensures MergeInGroupId(c, x) == GROUP_MANY && MergeInGroupIdFixed(c, x) == GROUP_MANY
  {
    NotSingle(c, x, b0);
    MergeEntersStages(c, x);
    Stage1Above(c, x, b0);
    FixedStage1Above(c, x, b0);
    Stage2Above(c, x, b1);
    FixedStage2Above(c, x, b1);
    Stage3Above(c, x, b2);
    FixedStage3Above(c, x, b2);
    Stage4Other(c, x, b3);
    FixedStage4Full(c, x, b3);
  }

  // The merge on a well-formed id: stored groups, sorted insertion, and GROUP_MANY past four.
  // Each case split below has two branches, the second handing on to the next byte.

  /** Merging a group the id already holds returns the id unchanged. */
  lemma MergeKeepsStoredGroup(c: bv32, x: bv32, b0: bv32, b1: bv32, b2: bv32, b3: bv32)
    requires Stores(c, b0, b1, b2, b3) && Sorted(b0, b1, b2, b3) && 0 < x <= 0xFF
    requires x == b0 || x == b1 || x == b2 || x == b3
    ensures MergeInGroupId(c, x) == c && MergeInGroupIdFixed(c, x) == c
  {
    if x == b0 {
      KeepsStoredAt0(c, x, b0, b1, b2, b3);
    } else if x == b1 {
      KeepsStoredAt1(c, x, b0, b1, b2, b3);
    } else if x == b2 {
      KeepsStoredAt2(c, x, b0, b1, b2, b3);
    } else {
      KeepsStoredAt3(c, x, b0, b1, b2, b3);
    }
  }

  // Each place a new group can take keeps the groups sorted and adds one.

  lemma SortedInsertAt0(b0: bv32, b1: bv32, b2: bv32, b3: bv32, x: bv32)
    requires Sorted(b0, b1, b2, b3) && b3 == 0 && x != 0 && x != b0 && x != b1 && x != b2
    requires x < b0
    ensures Sorted(x, b0, b1, b2) && Groups(x, b0, b1, b2) == Groups(b0, b1, b2, b3) + 1
  {
  }

  lemma SortedInsertAt1(b0: bv32, b1: bv32, b2: bv32, b3: bv32, x: bv32)
    requires Sorted(b0, b1, b2, b3) && b3 == 0 && x != 0 && x != b0 && x != b1 && x != b2
    requires b0 < x && (b1 == 0 || x < b1)
    ensures Sorted(b0, x, b1, b2) && Groups(b0, x, b1, b2) == Groups(b0, b1, b2, b3) + 1
  {
  }

  lemma SortedInsertAt2(b0: bv32, b1: bv32, b2: bv32, b3: bv32, x: bv32)
    requires Sorted(b0, b1, b2, b3) && b3 == 0 && x != 0 && x != b0 && x != b1 && x != b2
    requires b1 != 0 && b1 < x && (b2 == 0 || x < b2)
    ensures Sorted(b0, b1, x, b2) && Groups(b0, b1, x, b2) == Groups(b0, b1, b2, b3) + 1
  {
  }

  lemma SortedInsertAt3(b0: bv32, b1: bv32, b2: bv32, b3: bv32, x: bv32)
    requires Sorted(b0, b1, b2, b3) && b3 == 0 && x != 0 && x != b0 && x != b1 && x != b2
    requires b2 != 0 && b2 < x
    ensures Sorted(b0, b1, b2, x) && Groups(b0, b1, b2, x) == Groups(b0, b1, b2, b3) + 1
  {
  }

  /**
   * A new group joins an id with fewer than four groups in sorted position
   * (intended merge): below the first larger group, the larger ones moving
   * up one byte, or after the largest.
   */
  lemma MergeFixedInserts(c: bv32, x: bv32, b0: bv32, b1: bv32, b2: bv32, b3: bv32)
    requires Stores(c, b0, b1, b2, b3) && Sorted(b0, b1, b2, b3) && 0 < x <= 0xFF
    requires x != b0 && x != b1 && x != b2 && b3 == 0
    ensures x < b0 ==> Stores(MergeInGroupIdFixed(c, x), x, b0, b1, b2)
    ensures b0 < x && (b1 == 0 || x < b1) ==> Stores(MergeInGroupIdFixed(c, x), b0, x, b1, b2)
    ensures b1 != 0 && b1 < x && (b2 == 0 || x < b2) ==> Stores(MergeInGroupIdFixed(c, x), b0, b1, x, b2)
    ensures b2 != 0 && b2 < x ==> Stores(MergeInGroupIdFixed(c, x), b0, b1, b2, x)
  {
    if x < b0 {
      InsertsAt0(c, x, b0, b1, b2, b3);
    } else {
      InsertsFrom1(c, x, b0, b1, b2, b3);
    }
  }

  lemma InsertsFrom1(c: bv32, x: bv32, b0: bv32, b1: bv32, b2: bv32, b3: bv32)
    requires Stores(c, b0, b1, b2, b3) && Sorted(b0, b1, b2, b3) && 0 < x <= 0xFF
    requires x != b1 && x != b2 && b3 == 0 && b0 < x
    ensures b0 < x && (b1 == 0 || x < b1) ==> Stores(MergeInGroupIdFixed(c, x), b0, x, b1, b2)
    ensures b1 != 0 && b1 < x && (b2 == 0 || x < b2) ==> Stores(MergeInGroupIdFixed(c, x), b0, b1, x, b2)
    ensures b2 != 0 && b2 < x ==> Stores(MergeInGroupIdFixed(c, x), b0, b1, b2, x)
  {
    if b1 == 0 {
      AppendsAt1(c, x, b0, b1, b2, b3);
    } else {
      InsertsFrom1Occupied(c, x, b0, b1, b2, b3);
    }
  }

  lemma InsertsFrom1Occupied(c: bv32, x: bv32, b0: bv32, b1: bv32, b2: bv32, b3: bv32)
    requires Stores(c, b0, b1, b2, b3) && Sorted(b0, b1, b2, b3) && 0 < x <= 0xFF
    requires x != b1 && x != b2 && b3 == 0 && b0 < x && b1 != 0
    ensures x < b1 ==> Stores(MergeInGroupIdFixed(c, x), b0, x, b1, b2)
    ensures b1 != 0 && b1 < x && (b2 == 0 || x < b2) ==> Stores(MergeInGroupIdFixed(c, x), b0, b1, x, b2)
    ensures b2 != 0 && b2 < x ==> Stores(MergeInGroupIdFixed(c, x), b0, b1, b2, x)
  {
    if x < b1 {
      InsertsAt1(c, x, b0, b1, b2, b3);
    } else {
      InsertsFrom2(c, x, b0, b1, b2, b3);
    }
  }

  lemma InsertsFrom2(c: bv32, x: bv32, b0: bv32, b1: bv32, b2: bv32, b3: bv32)
    requires Stores(c, b0, b1, b2, b3) && Sorted(b0, b1, b2, b3) && 0 < x <= 0xFF
    requires x != b2 && b3 == 0 && b1 != 0 && b1 < x
    ensures b2 == 0 || x < b2 ==> Stores(MergeInGroupIdFixed(c, x), b0, b1, x, b2)
    ensures b2 != 0 && b2 < x ==> Stores(MergeInGroupIdFixed(c, x), b0, b1, b2, x)
  {
    if b2 == 0 {
      AppendsAt2(c, x, b0, b1, b2, b3);
    } else {
      InsertsFrom2Occupied(c, x, b0, b1, b2, b3);
    }
  }

  lemma InsertsFrom2Occupied(c: bv32, x: bv32, b0: bv32, b1: bv32, b2: bv32, b3: bv32)
    requires Stores(c, b0, b1, b2, b3) && Sorted(b0, b1, b2, b3) && 0 < x <= 0xFF
    requires x != b2 && b3 == 0 && b1 < x && b2 != 0
    ensures x < b2 ==> Stores(MergeInGroupIdFixed(c, x), b0, b1, x, b2)
    ensures b2 < x ==> Stores(MergeInGroupIdFixed(c, x), b0, b1, b2, x)
  {
    if x < b2 {
      InsertsAt2(c, x, b0, b1, b2, b3);
    } else {
      AppendsAt3(c, x, b0, b1, b2, b3);
    }
  }

  /** As written, the merge agrees with the intended one except above the largest group, where it gives GROUP_MANY. */
  lemma MergeAsWritten(c: bv32, x: bv32, b0: bv32, b1: bv32, b2: bv32, b3: bv32)
    requires Stores(c, b0, b1, b2, b3) && Sorted(b0, b1, b2, b3) && 0 < x <= 0xFF
    requires x != b0 && x != b1 && x != b2 && b3 == 0
    ensures MergeInGroupId(c, x) == if Largest(b0, b1, b2) < x then GROUP_MANY else MergeInGroupIdFixed(c, x)
  {
    if x < b0 {
      InsertsAt0(c, x, b0, b1, b2, b3);
    } else {
      WrittenFrom1(c, x, b0, b1, b2, b3);
    }
  }

  lemma WrittenFrom1(c: bv32, x: bv32, b0: bv32, b1: bv32, b2: bv32, b3: bv32)
    requires Stores(c, b0, b1, b2, b3) && Sorted(b0, b1, b2, b3) && 0 < x <= 0xFF
    requires x != b1 && x != b2 && b3 == 0 && b0 < x
    ensures MergeInGroupId(c, x) == if Largest(b0, b1, b2) < x then GROUP_MANY else MergeInGroupIdFixed(c, x)
  {
    if b1 != 0 && x < b1 {
      InsertsAt1(c, x, b0, b1, b2, b3);
    } else {
      WrittenFrom2(c, x, b0, b1, b2, b3);
    }
  }

  lemma WrittenFrom2(c: bv32, x: bv32, b0: bv32, b1: bv32, b2: bv32, b3: bv32)
    requires Stores(c, b0, b1, b2, b3) && Sorted(b0, b1, b2, b3) && 0 < x <= 0xFF
    requires x != b2 && b3 == 0 && b0 < x && b1 < x
    ensures MergeInGroupId(c, x) == if Largest(b0, b1, b2) < x then GROUP_MANY else MergeInGroupIdFixed(c, x)
  {
    if b2 == 0 {
      BeyondLargest(c, x, b0, b1, b2, b3);
    } else {
      WrittenAt2(c, x, b0, b1, b2, b3);
    }
  }

  lemma WrittenAt2(c: bv32, x: bv32, b0: bv32, b1: bv32, b2: bv32, b3: bv32)
    requires Stores(c, b0, b1, b2, b3) && Sorted(b0, b1, b2, b3) && 0 < x <= 0xFF
    requires x != b2 && b3 == 0 && b1 < x && b2 != 0
    ensures x < b2 ==> MergeInGroupId(c, x) == MergeInGroupIdFixed(c, x)
    ensures b2 < x ==> MergeInGroupId(c, x) == GROUP_MANY
  {
    if x < b2 {
      InsertsAt2(c, x, b0, b1, b2, b3);
    } else {
      BeyondLargest(c, x, b0, b1, b2, b3);
    }
  }

  /** A fifth group gives GROUP_MANY. */
  lemma MergeIntoFullGivesMany(c: bv32, x: bv32, b0: bv32, b1: bv32, b2: bv32, b3: bv32)
    requires Stores(c, b0, b1, b2, b3) && Sorted(b0, b1, b2, b3) && 0 < x <= 0xFF
    requires x != b0 && x != b1 && x != b2 && x != b3 && b3 != 0
    ensures MergeInGroupId(c, x) == GROUP_MANY && MergeInGroupIdFixed(c, x) == GROUP_MANY
  {
    if x < b0 {
      FullAt0(c, x, b0, b1, b2, b3);
    } else {
      FullFrom1(c, x, b0, b1, b2, b3);
    }
  }

  lemma FullFrom1(c: bv32, x: bv32, b0: bv32, b1: bv32, b2: bv32, b3: bv32)
    requires Stores(c, b0, b1, b2, b3) && Sorted(b0, b1, b2, b3) && 0 < x <= 0xFF
    requires x != b1 && x != b2 && x != b3 && b3 != 0 && b0 < x
    ensures MergeInGroupId(c, x) == GROUP_MANY && MergeInGroupIdFixed(c, x) == GROUP_MANY
  {
    if x < b1 {
      FullAt1(c, x, b0, b1, b2, b3);
    } else {
      FullFrom2(c, x, b0, b1, b2, b3);
    }
  }

  lemma FullFrom2(c: bv32, x: bv32, b0: bv32, b1: bv32, b2: bv32, b3: bv32)
    requires Stores(c, b0, b1, b2, b3) && Sorted(b0, b1, b2, b3) && 0 < x <= 0xFF
    requires x != b2 && x != b3 && b3 != 0 && b1 < x
    ensures MergeInGroupId(c, x) == GROUP_MANY && MergeInGroupIdFixed(c, x) == GROUP_MANY
  {
    if x < b2 {
      FullAt2(c, x, b0, b1, b2, b3);
    } else {
      FullAt3(c, x, b0, b1, b2, b3);
    }
  }

  // Counting and dominance.

  /** count is the number of stored groups. */
  lemma CountOfStores(c: bv32, b0: bv32, b1: bv32, b2: bv32, b3: bv32)
    requires Stores(c, b0, b1, b2, b3) && Sorted(b0, b1, b2, b3)
    ensures Count(c) == Groups(b0, b1, b2, b3)
  {
    StoredBytes(c, b0, b1, b2, b3);
  }

  lemma CountMany()
    ensures Count(GROUP_MANY) == SIZE
  {
  }

  /** GROUP_MANY counts as four groups, so it never dominates an id with fewer. */
  lemma ManyIsDominated(c: bv32, b0: bv32, b1: bv32, b2: bv32, b3: bv32)
    requires Stores(c, b0, b1, b2, b3) && Sorted(b0, b1, b2, b3) && b3 == 0
    ensures Dominate(c, GROUP_MANY) && !Dominate(GROUP_MANY, c)
  {
    CountOfStores(c, b0, b1, b2, b3);
    CountMany();
  }

  /** Dominance between two well-formed ids: fewer groups, or as many groups but a different set. */
  lemma DominateByGroups(l: bv32, l0: bv32, l1: bv32, l2: bv32, l3: bv32,
                         r: bv32, r0: bv32, r1: bv32, r2: bv32, r3: bv32)
    requires Stores(l, l0, l1, l2, l3) && Sorted(l0, l1, l2, l3)
    requires Stores(r, r0, r1, r2, r3) && Sorted(r0, r1, r2, r3)
    ensures Dominate(l, r) <==>
      Groups(l0, l1, l2, l3) < Groups(r0, r1, r2, r3) ||
      (Groups(l0, l1, l2, l3) == Groups(r0, r1, r2, r3) && l != r)
  {
    CountOfStores(l, l0, l1, l2, l3);
    CountOfStores(r, r0, r1, r2, r3);
  }

  // The two discrepancies between the code as written and its evident intent.

  /** As written, merging group 7 into the id holding only group 5 gives GROUP_MANY; intended: 7 joins 5. */
  lemma LargerGroupGivesMany()
    ensures MergeInGroupId(5, 7) == GROUP_MANY && GroupIdOf([5, 7]) == GROUP_MANY
    ensures MergeInGroupIdFixed(5, 7) == 0x0705
  {
  }

  /** groupId accepts index 256, which does not fit one byte: merging it into group 5 drops it. */
  lemma IndexAboveByteIsLost()
    ensures GroupId(MAX_SEQ_NO).Ok? && GroupId(MAX_SEQ_NO).value == 0x100
    ensures MergeInGroupId(5, 0x100) == 5
    ensures GroupIdFixed(MAX_SEQ_NO).Err?
  {
  }
}
