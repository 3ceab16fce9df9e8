/** Bytes and the little-endian layouts the gripper protocol uses on the wire
    (the host byte order of the driver's x86 targets). */
module Bytes {

  type byte = b: int | 0 <= b < 0x100
  type u16 = v: int | 0 <= v < 0x1_0000
  type u32 = v: int | 0 <= v < 0x1_0000_0000

  /** A single-precision float as the four bytes `memcpy` moves in and out of
      a payload.  Their IEEE-754 meaning is not modelled. */
  type Float32 = s: seq<byte> | |s| == 4 witness [0, 0, 0, 0]

  /** The float whose four bytes are all zero (+0.0). */
  const FloatZero: Float32 := [0, 0, 0, 0]

  /** Little-endian bytes of a 16-bit value, as `memcpy` from a `uint16_t`. */
  function U16Bytes(v: u16): (r: seq<byte>)
    ensures |r| == 2 && DecodeU16(r) == v
  {
    [v % 0x100, v / 0x100]
  }

  function DecodeU16(s: seq<byte>): (v: u16)
    requires |s| >= 2
  {
    s[0] as int + 0x100 * s[1] as int
  }

  /** Reading two bytes and writing them back gives the same two bytes. */
  lemma DecodeU16Inverse(s: seq<byte>)
    requires |s| == 2
    ensures U16Bytes(DecodeU16(s)) == s
  {
  }

  /** Little-endian bytes of a 32-bit value, as `memcpy` from a `uint32_t`. */
  function U32Bytes(v: u32): (r: seq<byte>)
    ensures |r| == 4 && DecodeU32(r) == v
  {
    var q1 := v / 0x100;
    var q2 := q1 / 0x100;
    var q3 := q2 / 0x100;
    assert v == v % 0x100 + 0x100 * (q1 % 0x100) + 0x1_0000 * (q2 % 0x100) + 0x100_0000 * q3;
    [v % 0x100, q1 % 0x100, q2 % 0x100, q3]
  }

  /** The `uint32_t` that `memcpy` builds from the first four bytes of `s`. */
  function DecodeU32(s: seq<byte>): (v: u32)
    requires |s| >= 4
  {
    s[0] as int + 0x100 * s[1] as int + 0x1_0000 * s[2] as int + 0x100_0000 * s[3] as int
  }

  /** Reading four bytes and writing them back gives the same four bytes. */
  lemma DecodeU32Inverse(s: seq<byte>)
    requires |s| == 4
    ensures U32Bytes(DecodeU32(s)) == s
  {
    var v := DecodeU32(s);
    assert v / 0x100 == s[1] as int + 0x100 * s[2] as int + 0x1_0000 * s[3] as int;
    assert v / 0x100 / 0x100 == s[2] as int + 0x100 * s[3] as int;
    assert v / 0x100 / 0x100 / 0x100 == s[3] as int;
  }
}
