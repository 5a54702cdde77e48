/** Block framing of PCAPNG files and the capture writer of the traffic generator. */
module Pcapng {
  import opened Bytes
  import opened Options

  datatype Block = Block(kind: nat, body: seq<Byte>)

  // ---- one block

  function Padding(n: nat): (k: nat)
    ensures k < 4 && (n + k) % 4 == 0
  {
    (4 - n % 4) % 4
  }

  function Zeros(k: nat): (s: seq<Byte>)
    ensures |s| == k
  {
    seq(k, i => 0)
  }

  function PaddedTo4(body: seq<Byte>): (r: seq<Byte>)
    ensures |r| % 4 == 0 && body <= r
    ensures |body| % 4 == 0 ==> r == body
  {
    body + Zeros(Padding(|body|))
  }

  function TotalLength(b: Block): nat {
    12 + |PaddedTo4(b.body)|
  }

  /** Both words of the frame have 32 bits; `struct.pack` raises when one does not fit. */
  predicate Packable(b: Block) {
    b.kind < U32_END && TotalLength(b) < U32_END
  }

  /** `pcapng_block`. */
  function PcapngBlock(e: Endian, b: Block): (r: seq<Byte>)
    requires Packable(b)
    ensures |r| == TotalLength(b)
  {
    Pack32(e, b.kind) + Pack32(e, TotalLength(b)) + b.body + Zeros(Padding(|b.body|)) + Pack32(e, TotalLength(b))
  }

  function AsRead(b: Block): Block {
    b.(body := PaddedTo4(b.body))
  }

  /** A block read from bytes that must be exactly one block: both lengths have to agree with it. */
  function ReadBlock(e: Endian, s: seq<Byte>): Option<Block> {
    if |s| < 12 || Read32(e, s[4..8]) != |s| || Read32(e, s[|s| - 4..]) != |s| then None
    else Some(Block(Read32(e, s[..4]), s[8..|s| - 4]))
  }

  lemma BlockCanBeRead(e: Endian, b: Block)
    requires Packable(b)
    ensures ReadBlock(e, PcapngBlock(e, b)) == Some(AsRead(b))
  {
    var s := PcapngBlock(e, b);
    assert s[..4] == Pack32(e, b.kind);
    assert s[4..8] == Pack32(e, |s|);
    assert s[8..|s| - 4] == PaddedTo4(b.body);
    assert s[|s| - 4..] == Pack32(e, |s|);
    Pack32CanBeRead(e, b.kind);
    Pack32CanBeRead(e, |s|);
  }

  // ---- walking a file

  /** From the first byte on, by the length at the head of each block. */
  function Forward(e: Endian, data: seq<Byte>): Option<seq<Block>>
    decreases |data|
  {
    if data == [] then Some([])
    else if |data| < 12 then None
    else
      var n := Read32(e, data[4..8]);
      if n < 12 || n > |data| then None
      else
        var first, rest := ReadBlock(e, data[..n]), Forward(e, data[n..]);
        if first.Some? && rest.Some? then Some([first.value] + rest.value) else None
  }

  /** From the last byte back, by the length at the tail of each block. */
  function Backward(e: Endian, data: seq<Byte>): Option<seq<Block>>
    decreases |data|
  {
    if data == [] then Some([])
    else if |data| < 12 then None
    else
      var n := Read32(e, data[|data| - 4..]);
      if n < 12 || n > |data| then None
      else
        var k := |data| - n;
        var last, rest := ReadBlock(e, data[k..]), Backward(e, data[..k]);
        if last.Some? && rest.Some? then Some(rest.value + [last.value]) else None
  }

  lemma ForwardFirst(e: Endian, s: seq<Byte>, data: seq<Byte>)
    requires ReadBlock(e, s).Some?
    ensures
      var rest := Forward(e, data);
      Forward(e, s + data) == if rest.Some? then Some([ReadBlock(e, s).value] + rest.value) else None
  {
    var all := s + data;
    assert all[4..8] == s[4..8] && all[..|s|] == s && all[|s|..] == data;
  }

  lemma BackwardLast(e: Endian, s: seq<Byte>, data: seq<Byte>)
    requires ReadBlock(e, s).Some?
    ensures
      var rest := Backward(e, data);
      Backward(e, data + s) == if rest.Some? then Some(rest.value + [ReadBlock(e, s).value]) else None
  {
    var all := data + s;
    assert all[|all| - 4..] == s[|s| - 4..] && all[|data|..] == s && all[..|data|] == data;
  }

  /** Byte strings put one after the other. */
  function Flat(pieces: seq<seq<Byte>>): seq<Byte> {
    if pieces == [] then [] else pieces[0] + Flat(pieces[1..])
  }

  /** The same, built at its end. */
  function Chain(pieces: seq<seq<Byte>>): seq<Byte> {
    if pieces == [] then [] else Chain(pieces[..|pieces| - 1]) + pieces[|pieces| - 1]
  }

  lemma {:induction false} FlatLast(pieces: seq<seq<Byte>>, last: seq<Byte>)
    ensures Flat(pieces + [last]) == Flat(pieces) + last
  {
    if pieces == [] {
      assert pieces + [last] == [last];
      assert Flat([last]) == last + Flat([]);
    } else {
      FlatLast(pieces[1..], last);
      assert (pieces + [last])[1..] == pieces[1..] + [last];
    }
  }

  lemma {:induction false} FlatIsChain(pieces: seq<seq<Byte>>)
    ensures Flat(pieces) == Chain(pieces)
    decreases |pieces|
  {
    if pieces != [] {
      var n := |pieces| - 1;
      FlatIsChain(pieces[..n]);
      FlatLast(pieces[..n], pieces[n]);
      assert pieces == pieces[..n] + [pieces[n]];
    }
  }

  predicate AllBlocks(e: Endian, pieces: seq<seq<Byte>>) {
    forall i :: 0 <= i < |pieces| ==> ReadBlock(e, pieces[i]).Some?
  }

  function BlocksOf(e: Endian, pieces: seq<seq<Byte>>): (r: seq<Block>)
    requires AllBlocks(e, pieces)
    ensures |r| == |pieces|
  {
    seq(|pieces|, i requires 0 <= i < |pieces| => ReadBlock(e, pieces[i]).value)
  }

  lemma {:induction false} ForwardFinds(e: Endian, pieces: seq<seq<Byte>>)
    requires AllBlocks(e, pieces)
    ensures Forward(e, Flat(pieces)) == Some(BlocksOf(e, pieces))
  {
    if pieces != [] {
      ForwardFinds(e, pieces[1..]);
      ForwardFirst(e, pieces[0], Flat(pieces[1..]));
      assert BlocksOf(e, pieces) == [ReadBlock(e, pieces[0]).value] + BlocksOf(e, pieces[1..]);
    }
  }

  lemma {:induction false} BackwardFinds(e: Endian, pieces: seq<seq<Byte>>)
    requires AllBlocks(e, pieces)
    ensures Backward(e, Chain(pieces)) == Some(BlocksOf(e, pieces))
    decreases |pieces|
  {
    if pieces != [] {
      var n := |pieces| - 1;
      BackwardFinds(e, pieces[..n]);
      BlocksOfLast(e, pieces);
      BackwardLast(e, pieces[n], Chain(pieces[..n]));
    }
  }

  lemma BlocksOfLast(e: Endian, pieces: seq<seq<Byte>>)
    requires pieces != [] && AllBlocks(e, pieces)
    ensures
      var n := |pieces| - 1;
      BlocksOf(e, pieces) == BlocksOf(e, pieces[..n]) + [ReadBlock(e, pieces[n]).value]
  {
  }

  lemma {:induction false} ForwardPieces(e: Endian, data: seq<Byte>) returns (pieces: seq<seq<Byte>>)
    requires Forward(e, data).Some?
    ensures AllBlocks(e, pieces) && data == Flat(pieces)
    decreases |data|
  {
    if data == [] {
      pieces := [];
    } else {
      var n := Read32(e, data[4..8]);
      var rest := ForwardPieces(e, data[n..]);
      pieces := [data[..n]] + rest;
      assert pieces[1..] == rest;
    }
  }

  lemma SplitBackward(e: Endian, data: seq<Byte>) returns (last: seq<Byte>, front: seq<Byte>)
    requires data != [] && Backward(e, data).Some?
    ensures data == front + last && last != []
    ensures ReadBlock(e, last).Some? && Backward(e, front).Some?
  {
    var k := |data| - Read32(e, data[|data| - 4..]);
    last, front := data[k..], data[..k];
  }

  lemma {:induction false} BackwardPieces(e: Endian, data: seq<Byte>) returns (pieces: seq<seq<Byte>>)
    requires Backward(e, data).Some?
    ensures AllBlocks(e, pieces) && data == Chain(pieces)
    decreases |data|
  {
    if data == [] {
      pieces := [];
    } else {
      var last, front := SplitBackward(e, data);
      var rest := BackwardPieces(e, front);
      pieces := rest + [last];
      assert pieces[..|rest|] == rest;
    }
  }

  /** On every sequence of bytes both walks find the same blocks, or both find a fault. */
  lemma WalksAgree(e: Endian, data: seq<Byte>)
    ensures Forward(e, data) == Backward(e, data)
  {
    if Forward(e, data).Some? {
      var pieces := ForwardPieces(e, data);
      ForwardFinds(e, pieces);
      BackwardFinds(e, pieces);
      FlatIsChain(pieces);
    } else if Backward(e, data).Some? {
      var pieces := BackwardPieces(e, data);
      ForwardFinds(e, pieces);
      FlatIsChain(pieces);
    }
  }

  // ---- a sequence of blocks

  predicate AllPackable(blocks: seq<Block>) {
    forall i :: 0 <= i < |blocks| ==> Packable(blocks[i])
  }

  function Packed(e: Endian, blocks: seq<Block>): (r: seq<seq<Byte>>)
    requires AllPackable(blocks)
    ensures |r| == |blocks|
  {
    seq(|blocks|, i requires 0 <= i < |blocks| => PcapngBlock(e, blocks[i]))
  }

  function AllAsRead(blocks: seq<Block>): (r: seq<Block>)
    ensures |r| == |blocks|
    ensures forall i :: 0 <= i < |blocks| ==> r[i] == AsRead(blocks[i])
  {
    seq(|blocks|, i requires 0 <= i < |blocks| => AsRead(blocks[i]))
  }

  /** Either walk over the written blocks gives back their types and their padded bodies. */
  lemma BlocksCanBeRead(e: Endian, blocks: seq<Block>)
    requires AllPackable(blocks)
    ensures Forward(e, Flat(Packed(e, blocks))) == Some(AllAsRead(blocks))
    ensures Backward(e, Flat(Packed(e, blocks))) == Some(AllAsRead(blocks))
  {
    var pieces := Packed(e, blocks);
    forall i | 0 <= i < |blocks| ensures ReadBlock(e, pieces[i]) == Some(AsRead(blocks[i])) {
      BlockCanBeRead(e, blocks[i]);
    }
    ForwardFinds(e, pieces);
    WalksAgree(e, Flat(pieces));
    assert BlocksOf(e, pieces) == AllAsRead(blocks);
  }
}
