/**
 * Fixed-width unsigned integers and the two byte orders the kernel's packed
 * structures use: `__le16`/`__le32` fields (least significant byte first,
 * read with `le16_to_cpu`) and `__be16` fields (most significant byte first).
 */
module Bytes {

  type byte = x: int | 0 <= x < 0x100
  type u16 = x: int | 0 <= x < 0x1_0000
  type u32 = x: int | 0 <= x < 0x1_0000_0000

  /** The value of an `__le16` field stored as the bytes `b0, b1`. */
  function Le16(b0: byte, b1: byte): (v: u16)
    ensures v % 0x100 == b0 && v / 0x100 == b1
  {
    b1 as int * 0x100 + b0
  }

  /** The value of an `__be16` field stored as the bytes `b0, b1`. */
  function Be16(b0: byte, b1: byte): (v: u16)
    ensures v / 0x100 == b0 && v % 0x100 == b1
  {
    b0 as int * 0x100 + b1
  }

  /** The two bytes that store `v` in an `__le16` field. */
  function Le16Bytes(v: u16): (s: seq<byte>)
    ensures |s| == 2 && Le16(s[0], s[1]) == v
  {
    [v % 0x100, v / 0x100]
  }

  /** The two bytes that store `v` in an `__be16` field. */
  function Be16Bytes(v: u16): (s: seq<byte>)
    ensures |s| == 2 && Be16(s[0], s[1]) == v
  {
    [v / 0x100, v % 0x100]
  }

  /** The value of an `__le32` field stored as the four bytes of `s`: two `__le16` halves, low half first. */
  function Le32(s: seq<byte>): (v: u32)
    requires |s| == 4
    ensures v % 0x1_0000 == Le16(s[0], s[1])
    ensures v / 0x1_0000 == Le16(s[2], s[3])
  {
    DivModUnique(Le16(s[2], s[3]), Le16(s[0], s[1]));
    Le16(s[2], s[3]) * 0x1_0000 + Le16(s[0], s[1])
  }

  /** The four bytes that store `v` in an `__le32` field. */
  function Le32Bytes(v: u32): (s: seq<byte>)
    ensures |s| == 4 && Le32(s) == v
  {
    var s := Le16Bytes(v % 0x1_0000) + Le16Bytes(v / 0x1_0000);
    DivModUnique(v / 0x1_0000, v % 0x1_0000);
    s
  }

  /** Quotient and remainder of `hi * 2^16 + lo` by `2^16` recover `hi` and `lo`. */
  lemma DivModUnique(hi: nat, lo: nat)
    requires lo < 0x1_0000
    ensures (hi * 0x1_0000 + lo) / 0x1_0000 == hi && (hi * 0x1_0000 + lo) % 0x1_0000 == lo
  {
  }

  /** Reading an `__le16` field back from the bytes it was stored as. */
  lemma Le16RoundTrip(b0: byte, b1: byte)
    ensures Le16Bytes(Le16(b0, b1)) == [b0, b1]
  {
  }

  /** Reading an `__be16` field back from the bytes it was stored as. */
  lemma Be16RoundTrip(b0: byte, b1: byte)
    ensures Be16Bytes(Be16(b0, b1)) == [b0, b1]
  {
  }

  /** Reading an `__le32` field back from the bytes it was stored as. */
  lemma Le32RoundTrip(s: seq<byte>)
    requires |s| == 4
    ensures Le32Bytes(Le32(s)) == s
  {
  }

  /** The two byte orders differ exactly by swapping the bytes. */
  lemma Be16IsSwappedLe16(b0: byte, b1: byte)
    ensures Be16(b0, b1) == Le16(b1, b0)
    ensures b0 != b1 ==> Be16(b0, b1) != Le16(b0, b1)
  {
  }
}
