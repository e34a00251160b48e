/**
 * Java `int` semantics that the models below rely on: the 32-bit range,
 * two's-complement wrap-around, signed comparison of bit patterns and
 * division that truncates toward zero (Dafny's own `/` is Euclidean).
 */
module JavaInt {
  const MIN_INT: int := -0x8000_0000
  const MAX_INT: int := 0x7FFF_FFFF

  predicate InRange(x: int) { MIN_INT <= x <= MAX_INT }

  /** Java's `<` on two `int` values given as bit patterns: flipping the sign bit
      turns the signed order into the unsigned one. */
  predicate SignedLt(a: bv32, b: bv32) {
    (a ^ 0x8000_0000) < (b ^ 0x8000_0000)
  }

  /** A Java `int` is negative exactly when its sign bit is set. */
  predicate IsNegative(b: bv32) { b >= 0x8000_0000 }

  /** The Java `int` that an unbounded integer result wraps to. */
  function Wrap(x: int): (r: int)
    ensures InRange(r)
    ensures (r - x) % 0x1_0000_0000 == 0
    ensures InRange(x) ==> r == x
  {
    var m := (x - MIN_INT) % 0x1_0000_0000;
    m + MIN_INT
  }

  /** Java's narrowing of an `int` to a `byte`: the low eight bits, read as signed. */
  function ToByte(x: int): (r: int)
    ensures -128 <= r <= 127
    ensures (r - x) % 0x100 == 0
    ensures -128 <= x <= 127 ==> r == x
  {
    (x + 128) % 0x100 - 128
  }

  function Abs(x: int): nat { if x < 0 then -x else x }

  lemma DivBounds(x: nat, y: nat)
    requires y > 0
    ensures (x / y) * y <= x < (x / y + 1) * y
  {
    var m, k := x / y, x % y;
    assert x == m * y + k && 0 <= k < y;
    assert (m + 1) * y == m * y + y;
  }

  /** Java's `a / b`: the quotient rounded toward zero. */
  function Quot(a: int, b: int): (q: int)
    requires b != 0
    ensures Abs(q) * Abs(b) <= Abs(a) < (Abs(q) + 1) * Abs(b)
    ensures q != 0 ==> ((q < 0) <==> ((a < 0) != (b < 0)))
  {
    var m := Abs(a) / Abs(b);
    DivBounds(Abs(a), Abs(b));
    if (a < 0) != (b < 0) then -m else m
  }
}
