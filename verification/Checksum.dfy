/** The Internet checksum of the traffic generator and the IPv4 header that carries it. */
module Checksum {
  import opened Bytes
  import opened Options

  /** An odd number of bytes is filled up with a zero byte. */
  function Padded(data: seq<Byte>): (r: seq<Byte>)
    ensures |r| % 2 == 0 && |data| <= |r| <= |data| + 1
  {
    if |data| % 2 == 1 then data + [0] else data
  }

  function LastWord(data: seq<Byte>): (r: nat)
    requires |data| >= 2
    ensures r < U16_END
  {
    Word(data[|data| - 2], data[|data| - 1])
  }

  /** The plain sum of the 16-bit big-endian words. */
  function WordSum(data: seq<Byte>): nat
    requires |data| % 2 == 0
  {
    if data == [] then 0
    else WordSum(data[..|data| - 2]) + LastWord(data)
  }

  /** What is left of a sum when every carry out of 16 bits is added back in. */
  function Folded(total: nat): (r: nat)
    ensures r < U16_END
  {
    if total == 0 then 0 else (total - 1) % 0xFFFF + 1
  }

  function InternetChecksum(data: seq<Byte>): (r: nat)
    ensures r < U16_END
  {
    0xFFFF - Folded(WordSum(Padded(data)))
  }

  /** One step of the carry loop keeps the folded value. */
  lemma CarryKeepsFolded(total: nat)
    requires total >= U16_END
    ensures Folded(total % U16_END + total / U16_END) == Folded(total)
  {
    var h, next := total / U16_END, total % U16_END + total / U16_END;
    assert total == next + 0xFFFF * h;
    assert (next - 1 + 0xFFFF * h) % 0xFFFF == (next - 1) % 0xFFFF;
  }

  /** `checksum`. */
  method Checksum(input: seq<Byte>) returns (sum: nat)
    ensures sum == InternetChecksum(input)
  {
    var data := input;
    if |data| % 2 != 0 {
      data := data + [0];
    }
    var total, index := 0, 0;
    while index < |data|
      invariant 0 <= index <= |data| && index % 2 == 0
      invariant total == WordSum(data[..index])
    {
      assert data[..index + 2][..index] == data[..index];
      total := total + Word(data[index], data[index + 1]);
      index := index + 2;
    }
    assert data[..index] == data;
    while total / U16_END != 0
      invariant 0 <= total && Folded(total) == Folded(WordSum(data))
      decreases total
    {
      CarryKeepsFolded(total);
      total := total % U16_END + total / U16_END;
    }
    sum := 0xFFFF - total;
  }

  // ---- the one's-complement sum of section 1 of RFC 1071

  /** Addition of two 16-bit words with end-around carry. */
  function OnesAdd(a: nat, b: nat): nat {
    if a + b >= U16_END then a + b - 0xFFFF else a + b
  }

  function OnesSum(data: seq<Byte>): nat
    requires |data| % 2 == 0
  {
    if data == [] then 0
    else OnesAdd(OnesSum(data[..|data| - 2]), LastWord(data))
  }

  lemma FoldOneMore(total: nat, word: nat)
    requires word < U16_END
    ensures Folded(total + word) == OnesAdd(Folded(total), word)
  {
    if total > 0 {
      var q := (total - 1) / 0xFFFF;
      assert total == 0xFFFF * q + Folded(total);
      var s := Folded(total) + word;
      assert (s - 1 + 0xFFFF * q) % 0xFFFF == (s - 1) % 0xFFFF;
    }
  }

  /** Adding in plain integers and folding at the end is the sum with a carry after every word. */
  lemma {:induction false} FoldedIsOnesSum(data: seq<Byte>)
    requires |data| % 2 == 0
    ensures Folded(WordSum(data)) == OnesSum(data)
  {
    if data != [] {
      var rest := data[..|data| - 2];
      FoldedIsOnesSum(rest);
      FoldOneMore(WordSum(rest), LastWord(data));
      assert WordSum(data) == WordSum(rest) + LastWord(data);
    }
  }

  lemma ChecksumIsComplement(data: seq<Byte>)
    ensures InternetChecksum(data) + OnesSum(Padded(data)) == 0xFFFF
  {
    FoldedIsOnesSum(Padded(data));
  }

  // ---- a checksum that is written into its field

  /** A 16-bit field at an even offset. */
  predicate ZeroField(data: seq<Byte>, k: nat) {
    k % 2 == 0 && k + 2 <= |data| && data[k] == 0 && data[k + 1] == 0
  }

  function WithField(data: seq<Byte>, k: nat, word: nat): (r: seq<Byte>)
    requires k + 2 <= |data| && word < U16_END
    ensures |r| == |data|
  {
    data[..k] + Pack16(Big, word) + data[k + 2..]
  }

  lemma {:induction false} FieldAddsItsWord(data: seq<Byte>, k: nat, word: nat)
    requires |data| % 2 == 0 && ZeroField(data, k) && word < U16_END
    ensures WordSum(WithField(data, k, word)) == WordSum(data) + word
    decreases |data|
  {
    var n := |data| - 2;
    var whole := WithField(data, k, word);
    if k < n {
      FieldAddsItsWord(data[..n], k, word);
      assert whole[..n] == WithField(data[..n], k, word);
      assert whole[n] == data[n] && whole[n + 1] == data[n + 1];
    } else {
      assert whole[..n] == data[..n];
      assert whole[n] == word / 256 && whole[n + 1] == word % 256;
    }
  }

  lemma FieldInPadded(data: seq<Byte>, k: nat, word: nat)
    requires ZeroField(data, k) && word < U16_END
    ensures ZeroField(Padded(data), k)
    ensures Padded(WithField(data, k, word)) == WithField(Padded(data), k, word)
  {
  }

  lemma FoldedToAllOnes(total: nat, word: nat)
    requires word < U16_END
    ensures
      var sum := 0xFFFF - Folded(total);
      Folded(total + word) == 0xFFFF <==> word == sum || (sum == 0 && word == 0xFFFF)
  {
    FoldOneMore(total, word);
  }

  /**
   * The checksum of data whose zeroed field is given a word is 0 for the checksum itself, and for
   * no other word but the second spelling of zero.
   */
  lemma ChecksumVerifies(data: seq<Byte>, k: nat, word: nat)
    requires ZeroField(data, k) && word < U16_END
    ensures
      var sum := InternetChecksum(data);
      InternetChecksum(WithField(data, k, word)) == 0 <==> word == sum || (sum == 0 && word == 0xFFFF)
  {
    FieldInPadded(data, k, word);
    FieldAddsItsWord(Padded(data), k, word);
    FoldedToAllOnes(WordSum(Padded(data)), word);
  }

  // ---- the IPv4 header

  type Address = a: seq<Byte> | |a| == 4 witness [0, 0, 0, 0]

  function RawHeader(src: Address, dst: Address, protocol: Byte, total: nat, ident: int): (h: seq<Byte>)
    requires total < U16_END
    ensures |h| == 20
  {
    [0x45, 0] + Pack16(Big, total) + Pack16(Big, ident % U16_END) + Pack16(Big, 0x4000) + [64, protocol]
    + Pack16(Big, 0) + src + dst
  }

  /** `ipv4_header`; a total length that does not fit 16 bits makes `struct.pack` raise. */
  function Ipv4Header(src: Address, dst: Address, protocol: Byte, payload: nat, ident: int): Option<seq<Byte>> {
    var total := 20 + payload;
    if total >= U16_END then None
    else
      var header := RawHeader(src, dst, protocol, total, ident);
      Some(WithField(header, 10, InternetChecksum(header)))
  }

  /** The fields of section 3.1 of RFC 791 except the checksum: a header of five words, no fragments. */
  predicate HasFields(h: seq<Byte>, src: Address, dst: Address, protocol: Byte, total: nat, ident: int) {
    && |h| == 20 && h[0] == 0x45 && h[1] == 0 && h[8] == 64 && h[9] == protocol
    && Read16(Big, h[2..4]) == total && Read16(Big, h[4..6]) == ident % U16_END
    && Read16(Big, h[6..8]) == 0x4000 && h[12..16] == src && h[16..20] == dst
  }

  /** The header has its fields, and a checksum that a receiver accepts. */
  lemma HeaderVerifies(src: Address, dst: Address, protocol: Byte, payload: nat, ident: int)
    ensures
      match Ipv4Header(src, dst, protocol, payload, ident)
      case None => payload > 65_515
      case Some(h) => HasFields(h, src, dst, protocol, 20 + payload, ident) && InternetChecksum(h) == 0
  {
    if 20 + payload < U16_END {
      var raw := RawHeader(src, dst, protocol, 20 + payload, ident);
      RawFields(src, dst, protocol, 20 + payload, ident);
      FilledIn(raw, src, dst, protocol, 20 + payload, ident);
    }
  }

  lemma FilledIn(raw: seq<Byte>, src: Address, dst: Address, protocol: Byte, total: nat, ident: int)
    requires HasFields(raw, src, dst, protocol, total, ident) && ZeroField(raw, 10)
    ensures
      var h := WithField(raw, 10, InternetChecksum(raw));
      HasFields(h, src, dst, protocol, total, ident) && InternetChecksum(h) == 0
  {
    ChecksumVerifies(raw, 10, InternetChecksum(raw));
    FieldsStay(raw, InternetChecksum(raw), src, dst, protocol, total, ident);
  }

  lemma FieldsStay(raw: seq<Byte>, word: nat, src: Address, dst: Address, protocol: Byte, total: nat, ident: int)
    requires word < U16_END && HasFields(raw, src, dst, protocol, total, ident)
    ensures HasFields(WithField(raw, 10, word), src, dst, protocol, total, ident)
  {
    var h := WithField(raw, 10, word);
    assert h[2..4] == raw[2..4] && h[4..6] == raw[4..6] && h[6..8] == raw[6..8];
    assert h[12..16] == raw[12..16] && h[16..20] == raw[16..20];
  }

  lemma RawFields(src: Address, dst: Address, protocol: Byte, total: nat, ident: int)
    requires total < U16_END
    ensures
      var h := RawHeader(src, dst, protocol, total, ident);
      HasFields(h, src, dst, protocol, total, ident) && ZeroField(h, 10)
  {
    var h := RawHeader(src, dst, protocol, total, ident);
    assert h[2..4] == Pack16(Big, total);
    assert h[4..6] == Pack16(Big, ident % U16_END);
    assert h[6..8] == Pack16(Big, 0x4000);
    assert h[10..12] == Pack16(Big, 0);
    assert h[10] == h[10..12][0] && h[11] == h[10..12][1];
    Pack16CanBeRead(Big, total);
    Pack16CanBeRead(Big, ident % U16_END);
    Pack16CanBeRead(Big, 0x4000);
    assert h[12..16] == src && h[16..20] == dst;
  }
}
