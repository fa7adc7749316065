/**
 * Unsigned machine integers and their little-endian byte encodings, as Rust's
 * `u16::to_le_bytes`, `u32::to_le_bytes` and `u32::from_le_bytes` produce and read them.
 */
module Bytes {

  type byte = x: int | 0 <= x < 0x100
  type u16 = x: int | 0 <= x < 0x1_0000
  type u32 = x: int | 0 <= x < 0x1_0000_0000

  /** `n` zero bytes, as `[0u8; n]` or `vec![0u8; n]`. */
  function Zeros(n: nat): (r: seq<byte>)
    ensures |r| == n
    ensures forall k :: 0 <= k < n ==> r[k] == 0
  {
    seq(n, _ => 0)
  }

  /** `x.to_le_bytes()` for a `u16`: low byte first. */
  function U16Le(x: u16): (r: seq<byte>)
  {
    [x % 0x100, x / 0x100]
  }

  /** `u16::from_le_bytes` of the first two bytes. */
  function U16FromLe(bs: seq<byte>): (r: u16)
    requires |bs| >= 2
  {
    bs[0] as int + 0x100 * bs[1] as int
  }

  /** `x.to_le_bytes()` for a `u32`: least significant byte first. */
  function U32Le(x: u32): (r: seq<byte>)
  {
    [x % 0x100, x / 0x100 % 0x100, x / 0x1_0000 % 0x100, x / 0x100_0000]
  }

  /** `u32::from_le_bytes([bs[0], bs[1], bs[2], bs[3]])`. */
  function U32FromLe(bs: seq<byte>): (r: u32)
    requires |bs| >= 4
    ensures r % 0x100 == bs[0] && r / 0x100_0000 == bs[3]
  {
    bs[0] as int + 0x100 * bs[1] as int + 0x1_0000 * bs[2] as int + 0x100_0000 * bs[3] as int
  }

  lemma U16RoundTrip(x: u16)
    ensures |U16Le(x)| == 2 && U16FromLe(U16Le(x)) == x
  {
  }

  lemma U16FromLeInverse(bs: seq<byte>)
    requires |bs| >= 2
    ensures U16Le(U16FromLe(bs)) == bs[..2]
  {
  }

  /** Decoding an encoded `u32` gives the value back. */
  lemma U32RoundTrip(x: u32)
    ensures |U32Le(x)| == 4 && U32FromLe(U32Le(x)) == x
  {
    var b0, b1, b2, b3 := x % 0x100, x / 0x100 % 0x100, x / 0x1_0000 % 0x100, x / 0x100_0000;
    assert x / 0x100 == b1 + 0x100 * (x / 0x1_0000);
    assert x / 0x1_0000 == b2 + 0x100 * b3;
  }

  /** The decoder reads exactly the first four bytes, and re-encoding gives them back. */
  lemma U32FromLeInverse(bs: seq<byte>)
    requires |bs| >= 4
    ensures U32Le(U32FromLe(bs)) == bs[..4]
  {
    var x := U32FromLe(bs);
    var b0, b1, b2, b3 := bs[0] as int, bs[1] as int, bs[2] as int, bs[3] as int;
    var u := b2 + 0x100 * b3;
    var t := b1 + 0x100 * u;
    assert x == b0 + 0x100 * t;
    assert x / 0x100 == t;
    assert t % 0x100 == b1;
    assert x == (b0 + 0x100 * b1) + 0x1_0000 * u;
    assert x / 0x1_0000 == u;
    assert u % 0x100 == b2;
    assert x == (b0 + 0x100 * b1 + 0x1_0000 * b2) + 0x100_0000 * b3;
    assert x / 0x100_0000 == b3;
  }

  /** Bytes after the fourth do not influence the decoded value. */
  lemma U32FromLePrefix(bs: seq<byte>, tail: seq<byte>)
    requires |bs| >= 4
    ensures U32FromLe(bs + tail) == U32FromLe(bs)
  {
  }
}
