/** Bytes and the fixed-width integers that `struct.pack` writes in either byte order. */
module Bytes {
  type Byte = b: int | 0 <= b < 256

  datatype Endian = Little | Big

  const U16_END: nat := 0x1_0000
  const U32_END: nat := 0x1_0000_0000
  const U64_END: nat := 0x1_0000_0000_0000_0000

  function Word(hi: int, lo: int): int {
    256 * hi + lo
  }

  function Pack16(e: Endian, n: nat): (r: seq<Byte>)
    requires n < U16_END
    ensures |r| == 2
  {
    if e.Little? then [n % 256, n / 256] else [n / 256, n % 256]
  }

  function Pack32(e: Endian, n: nat): (r: seq<Byte>)
    requires n < U32_END
    ensures |r| == 4
  {
    var b0, b1, b2, b3 := n % 256, n / 256 % 256, n / 0x1_0000 % 256, n / 0x100_0000;
    if e.Little? then [b0, b1, b2, b3] else [b3, b2, b1, b0]
  }

  function Read16(e: Endian, s: seq<Byte>): (n: nat)
    requires |s| == 2
    ensures n < U16_END
  {
    if e.Little? then Word(s[1], s[0]) else Word(s[0], s[1])
  }

  function Read32(e: Endian, s: seq<Byte>): (n: nat)
    requires |s| == 4
    ensures n < U32_END
  {
    if e.Little? then 0x1_0000 * Word(s[3], s[2]) + Word(s[1], s[0])
    else 0x1_0000 * Word(s[0], s[1]) + Word(s[2], s[3])
  }

  lemma Pack16CanBeRead(e: Endian, n: nat)
    requires n < U16_END
    ensures Read16(e, Pack16(e, n)) == n
  {
  }

  lemma Pack32CanBeRead(e: Endian, n: nat)
    requires n < U32_END
    ensures Read32(e, Pack32(e, n)) == n
  {
    assert n / 0x1_0000 == n / 256 / 256;
    assert n / 0x100_0000 == n / 0x1_0000 / 256;
  }

  /** The order of the bytes, lowest first or highest first. */
  lemma ByteOrder16(b0: Byte, b1: Byte)
    ensures Pack16(Little, b0 + 0x100 * b1) == [b0, b1] && Pack16(Big, b0 + 0x100 * b1) == [b1, b0]
  {
  }

  lemma ByteOrder32(b0: Byte, b1: Byte, b2: Byte, b3: Byte)
    ensures Pack32(Little, b0 + 0x100 * b1 + 0x1_0000 * b2 + 0x100_0000 * b3) == [b0, b1, b2, b3]
    ensures Pack32(Big, b0 + 0x100 * b1 + 0x1_0000 * b2 + 0x100_0000 * b3) == [b3, b2, b1, b0]
  {
    var n := b0 + 0x100 * b1 + 0x1_0000 * b2 + 0x100_0000 * b3;
    assert n / 256 == b1 + 0x100 * b2 + 0x1_0000 * b3;
    assert n / 0x1_0000 == b2 + 0x100 * b3;
  }
}
