/**
 * Little-endian byte layout of 16- and 32-bit integers, as written by .NET's
 * `BinaryWriter.Write(int)` / `Write(short)`, by the shift-and-mask helpers of the
 * bridge test, and as read back by `BitConverter.ToInt32` on a little-endian machine.
 */
module LittleEndian {
  import opened Numerics

  /** The four bytes of `v`, least significant first (two's complement). */
  function Int32Bytes(v: Int32): (b: seq<byte>)
    ensures |b| == 4
  {
    var u := v % TwoTo32;
    [u % 0x100, (u / 0x100) % 0x100, (u / 0x1_0000) % 0x100, (u / 0x100_0000) % 0x100]
  }

  /** The two bytes of `v`, least significant first (two's complement). */
  function Int16Bytes(v: Int16): (b: seq<byte>)
    ensures |b| == 2
  {
    var u := v % TwoTo16;
    [u % 0x100, (u / 0x100) % 0x100]
  }

  function DecodeInt32(b: seq<byte>): Int32
    requires |b| == 4
  {
    var u: int := b[0] as int + 0x100 * (b[1] as int) + 0x1_0000 * (b[2] as int) + 0x100_0000 * (b[3] as int);
    if u < 0x8000_0000 then u else u - TwoTo32
  }

  function DecodeInt16(b: seq<byte>): Int16
    requires |b| == 2
  {
    var u: int := b[0] as int + 0x100 * (b[1] as int);
    if u < 0x8000 then u else u - TwoTo16
  }

  /** `BitConverter.ToInt32(s, offset)`. */
  function ReadInt32(s: seq<byte>, offset: nat): Int32
    requires offset + 4 <= |s|
  {
    DecodeInt32(s[offset..offset + 4])
  }

  function ReadInt16(s: seq<byte>, offset: nat): Int16
    requires offset + 2 <= |s|
  {
    DecodeInt16(s[offset..offset + 2])
  }

  lemma Int32RoundTrip(v: Int32)
    ensures DecodeInt32(Int32Bytes(v)) == v
  {
    var u := v % TwoTo32;
    var q1, q2, q3 := u / 0x100, u / 0x1_0000, u / 0x100_0000;
    assert u == u % 0x100 + 0x100 * q1;
    assert q1 == q1 % 0x100 + 0x100 * q2 by { assert q2 == q1 / 0x100; }
    assert q2 == q2 % 0x100 + 0x100 * q3 by { assert q3 == q2 / 0x100; }
    assert q3 == q3 % 0x100;
    assert u == (if v >= 0 then v else v + TwoTo32);
  }

  lemma Int32Injective(b: seq<byte>)
    requires |b| == 4
    ensures Int32Bytes(DecodeInt32(b)) == b
  {
    var u: int := b[0] as int + 0x100 * (b[1] as int) + 0x1_0000 * (b[2] as int) + 0x100_0000 * (b[3] as int);
    assert DecodeInt32(b) % TwoTo32 == u;
    assert u / 0x100 == b[1] as int + 0x100 * (b[2] as int) + 0x1_0000 * (b[3] as int);
    assert u / 0x1_0000 == b[2] as int + 0x100 * (b[3] as int);
    assert u / 0x100_0000 == b[3];
    assert u % 0x100 == b[0];
    assert (u / 0x100) % 0x100 == b[1];
    assert (u / 0x1_0000) % 0x100 == b[2];
    assert Int32Bytes(DecodeInt32(b)) == [b[0], b[1], b[2], b[3]];
  }

  lemma Int16RoundTrip(v: Int16)
    ensures DecodeInt16(Int16Bytes(v)) == v
  {
    var u := v % TwoTo16;
    assert u == u % 0x100 + 0x100 * (u / 0x100);
    assert u == (if v >= 0 then v else v + TwoTo16);
  }

  lemma Int16Injective(b: seq<byte>)
    requires |b| == 2
    ensures Int16Bytes(DecodeInt16(b)) == b
  {
    var u: int := b[0] as int + 0x100 * (b[1] as int);
    assert DecodeInt16(b) % TwoTo16 == u;
    assert u / 0x100 == b[1];
  }

  /** Reading back any 4-byte window that holds an encoded value yields that value. */
  lemma ReadInt32At(s: seq<byte>, offset: nat, v: Int32)
    requires offset + 4 <= |s| && s[offset..offset + 4] == Int32Bytes(v)
    ensures ReadInt32(s, offset) == v
  {
    Int32RoundTrip(v);
  }

  lemma ReadInt16At(s: seq<byte>, offset: nat, v: Int16)
    requires offset + 2 <= |s| && s[offset..offset + 2] == Int16Bytes(v)
    ensures ReadInt16(s, offset) == v
  {
    Int16RoundTrip(v);
  }
}
