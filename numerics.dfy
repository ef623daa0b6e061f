/** The fixed-width integer arithmetic of C# (unchecked `int`, `short`, `byte`, and `/`). */
module Numerics {

  const TwoTo32: int := 0x1_0000_0000
  const TwoTo16: int := 0x1_0000

  type Int32 = x: int | -0x8000_0000 <= x < 0x8000_0000
  type Int16 = x: int | -0x8000 <= x < 0x8000
  type byte = x: int | 0 <= x < 0x100

  /** An unchecked conversion to `int`: keeps the low 32 bits, read as two's complement. */
  function Wrap32(x: int): (r: Int32)
    ensures (x - r) % TwoTo32 == 0
    ensures -0x8000_0000 <= x < 0x8000_0000 ==> r == x
  {
    (x + 0x8000_0000) % TwoTo32 - 0x8000_0000
  }

  /** An unchecked conversion to `short`: keeps the low 16 bits, read as two's complement. */
  function Wrap16(x: int): (r: Int16)
    ensures (x - r) % TwoTo16 == 0
    ensures -0x8000 <= x < 0x8000 ==> r == x
  {
    (x + 0x8000) % TwoTo16 - 0x8000
  }

  /** C#'s integer `x / 8`, which rounds toward zero (Dafny's `/` rounds toward minus infinity). */
  function DivBy8(x: int): (r: int)
    ensures 0 <= x ==> 0 <= x - 8 * r < 8
    ensures x < 0 ==> -8 < x - 8 * r <= 0
  {
    if x >= 0 then x / 8 else -((-x) / 8)
  }

  /** Two results of an unchecked counter that is bumped fewer than 2^32 times apart never coincide. */
  lemma Wrap32Distinct(x: int, d: int)
    requires 0 < d < TwoTo32
    ensures Wrap32(x) != Wrap32(x + d)
  {
    var a := x + 0x8000_0000;
    assert a == TwoTo32 * (a / TwoTo32) + a % TwoTo32;
    assert a + d == TwoTo32 * ((a + d) / TwoTo32) + (a + d) % TwoTo32;
  }

  /** Truncating to 32 bits and then to 16 bits is truncating to 16 bits. */
  lemma Wrap16OfWrap32(x: int)
    ensures Wrap16(Wrap32(x)) == Wrap16(x)
  {
    var a := x + 0x8000_0000;
    var q := a / TwoTo32;
    assert a == TwoTo32 * q + a % TwoTo32;
    assert Wrap32(x) == x - TwoTo32 * q;
    ShiftByMultiple16(x + 0x8000, -0x1_0000 * q);
  }

  /** Adding a multiple of 2^16 leaves the low 16 bits alone. */
  lemma ShiftByMultiple16(b: int, k: int)
    ensures (b + TwoTo16 * k) % TwoTo16 == b % TwoTo16
  {
    var r := b % TwoTo16;
    assert b == TwoTo16 * (b / TwoTo16) + r;
    assert b + TwoTo16 * k == TwoTo16 * (b / TwoTo16 + k) + r;
  }
}
