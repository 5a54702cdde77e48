/** The PCAPNG writer of the traffic generator, and what a reader of its files gets back. */
module Capture {
  import opened Bytes
  import Decimal
  import opened Options
  import opened Pcapng

  const SHB: nat := 0x0A0D0D0A
  const IDB: nat := 0x00000001
  const EPB: nat := 0x00000006

  /** The command-line options the writer uses; `exponent` is set for binary time stamps only. */
  datatype Args = Args(interfaces: int, exponent: Option<int>, snaplen: int, gap: int)

  // ---- enhanced packet blocks

  function Split64(ticks: nat): (r: seq<Byte>)
    ensures |r| == 8
  {
    Pack32(Little, ticks / U32_END % U32_END) + Pack32(Little, ticks % U32_END)
  }

  function EpbHead(interface: nat, ticks: nat, length: nat): (r: seq<Byte>)
    requires interface < U32_END && length < U32_END
    ensures |r| == 20
  {
    Pack32(Little, interface) + Split64(ticks) + Pack32(Little, length) + Pack32(Little, length)
  }

  function EpbBody(interface: nat, ticks: nat, frame: seq<Byte>): (r: seq<Byte>)
    requires interface < U32_END && |frame| < U32_END
    ensures |r| == 24 + |PaddedTo4(frame)|
  {
    EpbHead(interface, ticks, |frame|) + PaddedTo4(frame) + [0, 0, 0, 0]
  }

  /** The body of a packet block needs no more padding. */
  lemma AlignedBody(frame: seq<Byte>)
    ensures (24 + |PaddedTo4(frame)|) % 4 == 0
  {
    var n := |PaddedTo4(frame)|;
    assert n % 4 == 0;
  }

  datatype Packet = Packet(interface: nat, ticks: nat, original: nat, frame: seq<Byte>)

  /** Section 4.3 of draft-ietf-opsawg-pcapng: two halves of the time stamp, captured length, original length. */
  function ReadEpb(body: seq<Byte>): Option<Packet> {
    if |body| < 20 then None
    else
      var captured := Read32(Little, body[12..16]);
      if 20 + captured > |body| then None
      else
        var ticks := Read32(Little, body[4..8]) * U32_END + Read32(Little, body[8..12]);
        Some(Packet(Read32(Little, body[..4]), ticks, Read32(Little, body[16..20]), body[20..20 + captured]))
  }

  lemma Halves(ticks: nat)
    ensures ticks / U32_END % U32_END * U32_END + ticks % U32_END == ticks % U64_END
  {
  }

  lemma EpbSlices(interface: nat, ticks: nat, frame: seq<Byte>)
    requires interface < U32_END && |frame| < U32_END
    ensures
      var body := EpbBody(interface, ticks, frame);
      && body[..4] == Pack32(Little, interface)
      && body[4..8] == Pack32(Little, ticks / U32_END % U32_END) && body[8..12] == Pack32(Little, ticks % U32_END)
      && body[12..16] == Pack32(Little, |frame|) && body[16..20] == Pack32(Little, |frame|)
      && body[20..20 + |frame|] == frame
  {
    var head := EpbHead(interface, ticks, |frame|);
    var body := EpbBody(interface, ticks, frame);
    assert body[..20] == head;
    assert body[..4] == head[..4] && body[4..8] == head[4..8] && body[8..12] == head[8..12];
    assert body[12..16] == head[12..16] && body[16..20] == head[16..20];
  }

  /** A packet block gives back its frame and its time stamp of 64 bits. */
  lemma EpbCanBeRead(interface: nat, ticks: nat, frame: seq<Byte>)
    requires interface < U32_END && |frame| < U32_END
    ensures ReadEpb(EpbBody(interface, ticks, frame)) == Some(Packet(interface, ticks % U64_END, |frame|, frame))
  {
    EpbSlices(interface, ticks, frame);
    ReadSlices(EpbBody(interface, ticks, frame), interface, ticks / U32_END % U32_END, ticks % U32_END, frame);
    Halves(ticks);
  }

  lemma ReadSlices(body: seq<Byte>, interface: nat, high: nat, low: nat, frame: seq<Byte>)
    requires interface < U32_END && high < U32_END && low < U32_END && |frame| < U32_END
    requires |body| >= 20 + |frame|
    requires body[..4] == Pack32(Little, interface)
    requires body[4..8] == Pack32(Little, high) && body[8..12] == Pack32(Little, low)
    requires body[12..16] == Pack32(Little, |frame|) && body[16..20] == Pack32(Little, |frame|)
    requires body[20..20 + |frame|] == frame
    ensures ReadEpb(body) == Some(Packet(interface, high * U32_END + low, |frame|, frame))
  {
    Pack32CanBeRead(Little, interface);
    Pack32CanBeRead(Little, high);
    Pack32CanBeRead(Little, low);
    Pack32CanBeRead(Little, |frame|);
  }

  // ---- the file

  function Max(a: int, b: int): int {
    if a >= b then a else b
  }

  function Pow2(k: nat): (p: nat)
    ensures p >= 1
  {
    if k == 0 then 1 else 2 * Pow2(k - 1)
  }

  /** `0x80 | exponent`, unless it does not fit a byte. */
  function Tsresol(args: Args): Option<Byte> {
    if args.exponent.None? then Some(6)
    else
      var k := args.exponent.value;
      if k < 0 || k > 255 then None else Some(if k < 128 then 128 + k else k)
  }

  function Resolution(args: Args): nat
    requires Tsresol(args).Some?
  {
    if args.exponent.None? then 1_000_000 else Pow2(args.exponent.value)
  }

  function Step(args: Args): (r: nat)
    requires Tsresol(args).Some?
    ensures r >= 1
  {
    Max(1, args.gap * Resolution(args) / 1_000_000_000)
  }

  function Start(args: Args): nat
    requires Tsresol(args).Some?
  {
    1_700_000_000 * Resolution(args)
  }

  /** The time stamp of packet i: the start, and one step for every packet up to and with it. */
  function Ticks(args: Args, i: nat): nat
    requires Tsresol(args).Some?
  {
    Start(args) + (i + 1) * Step(args)
  }

  const ShbBody: seq<Byte> :=
    Pack32(Little, 0x1A2B3C4D) + Pack16(Little, 1) + Pack16(Little, 0) + [255, 255, 255, 255, 255, 255, 255, 255]

  predicate HeaderFits(args: Args) {
    0 <= args.snaplen < U32_END && Tsresol(args).Some?
  }

  function IdbBody(args: Args): (r: seq<Byte>)
    requires HeaderFits(args)
    ensures |r| == 20
  {
    Pack16(Little, 1) + Pack16(Little, 0) + Pack32(Little, args.snaplen)
    + Pack16(Little, 9) + Pack16(Little, 1) + [Tsresol(args).value, 0, 0, 0]
    + Pack16(Little, 0) + Pack16(Little, 0)
  }

  function Interface(args: Args, i: nat): (r: nat)
  {
    i % Max(1, args.interfaces)
  }

  /** The numbers of packet i fit the words they are packed into. */
  predicate FrameFits(args: Args, frames: seq<seq<Byte>>, i: nat)
    requires i < |frames|
  {
    Interface(args, i) < U32_END && 36 + |PaddedTo4(frames[i])| < U32_END
  }

  predicate Fits(args: Args, frames: seq<seq<Byte>>) {
    HeaderFits(args) && forall i :: 0 <= i < |frames| ==> FrameFits(args, frames, i)
  }

  function HeaderBlocks(args: Args, n: nat): (r: seq<Block>)
    requires HeaderFits(args)
    ensures |r| == n + 1 && AllPackable(r)
  {
    [Block(SHB, ShbBody)] + seq(n, i => Block(IDB, IdbBody(args)))
  }

  function PacketBlock(args: Args, frames: seq<seq<Byte>>, i: nat): (b: Block)
    requires HeaderFits(args) && i < |frames| && FrameFits(args, frames, i)
    ensures Packable(b)
  {
    AlignedBody(frames[i]);
    Block(EPB, EpbBody(Interface(args, i), Ticks(args, i), frames[i]))
  }

  function PacketBlocks(args: Args, frames: seq<seq<Byte>>): (r: seq<Block>)
    requires Fits(args, frames)
    ensures |r| == |frames| && AllPackable(r)
  {
    seq(|frames|, i requires 0 <= i < |frames| => PacketBlock(args, frames, i))
  }

  function FileBlocks(args: Args, frames: seq<seq<Byte>>): (r: seq<Block>)
    requires Fits(args, frames)
    ensures AllPackable(r)
  {
    HeaderBlocks(args, Max(1, args.interfaces)) + PacketBlocks(args, frames)
  }

  /** The bytes of a list of blocks. */
  function FileOf(blocks: seq<Block>): seq<Byte>
    requires AllPackable(blocks)
  {
    Flat(Packed(Little, blocks))
  }

  lemma WriteOne(blocks: seq<Block>, b: Block)
    requires AllPackable(blocks) && Packable(b)
    ensures AllPackable(blocks + [b])
    ensures FileOf(blocks + [b]) == FileOf(blocks) + PcapngBlock(Little, b)
  {
    FlatLast(Packed(Little, blocks), PcapngBlock(Little, b));
    assert Packed(Little, blocks + [b]) == Packed(Little, blocks) + [PcapngBlock(Little, b)];
  }

  /** `write_pcapng`; not `ok` when `struct.pack` or `bytes` raises because a number does not fit. */
  method WritePcapng(args: Args, frames: seq<seq<Byte>>) returns (ok: bool, file: seq<Byte>)
    ensures ok <==> Fits(args, frames)
    ensures ok ==> file == FileOf(FileBlocks(args, frames))
  {
    file := PcapngBlock(Little, Block(SHB, ShbBody));
    if !HeaderFits(args) {
      return false, file;
    }
    FirstHeader(args);
    var n := Max(1, args.interfaces);
    for k := 0 to n
      invariant file == FileOf(HeaderBlocks(args, k))
    {
      file := file + PcapngBlock(Little, Block(IDB, IdbBody(args)));
      NextHeader(args, k);
    }
    NoPacketYet(args, frames);
    var ticks := Start(args);
    for index := 0 to |frames|
      invariant ticks == Start(args) + index * Step(args)
      invariant Fits(args, frames[..index]) && file == FileOf(FileBlocks(args, frames[..index]))
    {
      ticks := ticks + Step(args);
      var interface := index % n;
      if interface >= U32_END || 36 + |PaddedTo4(frames[index])| >= U32_END {
        assert !FrameFits(args, frames, index);
        return false, file;
      }
      var b := Block(EPB, EpbBody(interface, ticks, frames[index]));
      assert b == PacketBlock(args, frames, index);
      file := file + PcapngBlock(Little, b);
      NextPacket(args, frames, index);
    }
    assert frames[..|frames|] == frames;
    ok := true;
  }

  lemma FirstHeader(args: Args)
    requires HeaderFits(args)
    ensures FileOf(HeaderBlocks(args, 0)) == PcapngBlock(Little, Block(SHB, ShbBody))
  {
    WriteOne([], Block(SHB, ShbBody));
    assert HeaderBlocks(args, 0) == [] + [Block(SHB, ShbBody)];
  }

  lemma NextHeader(args: Args, k: nat)
    requires HeaderFits(args)
    ensures FileOf(HeaderBlocks(args, k + 1))
         == FileOf(HeaderBlocks(args, k)) + PcapngBlock(Little, Block(IDB, IdbBody(args)))
  {
    WriteOne(HeaderBlocks(args, k), Block(IDB, IdbBody(args)));
    assert HeaderBlocks(args, k + 1) == HeaderBlocks(args, k) + [Block(IDB, IdbBody(args))];
  }

  lemma NoPacketYet(args: Args, frames: seq<seq<Byte>>)
    requires HeaderFits(args)
    ensures Fits(args, frames[..0])
    ensures FileBlocks(args, frames[..0]) == HeaderBlocks(args, Max(1, args.interfaces))
  {
    assert PacketBlocks(args, frames[..0]) == [];
  }

  lemma NextPacket(args: Args, frames: seq<seq<Byte>>, i: nat)
    requires i < |frames| && Fits(args, frames[..i]) && FrameFits(args, frames, i)
    ensures Fits(args, frames[..i + 1])
    ensures FileOf(FileBlocks(args, frames[..i + 1]))
         == FileOf(FileBlocks(args, frames[..i])) + PcapngBlock(Little, PacketBlock(args, frames, i))
  {
    var more := frames[..i + 1];
    forall k | 0 <= k < |more| ensures FrameFits(args, more, k) {
      if k < i {
        assert FrameFits(args, frames[..i], k);
      }
    }
    assert PacketBlocks(args, more) == PacketBlocks(args, frames[..i]) + [PacketBlock(args, frames, i)];
    assert FileBlocks(args, more) == FileBlocks(args, frames[..i]) + [PacketBlock(args, frames, i)];
    WriteOne(FileBlocks(args, frames[..i]), PacketBlock(args, frames, i));
  }

  // ---- what a reader finds in the blocks

  /** A packet block with the frame, the interface and the low 64 bits of the time stamp of packet i. */
  predicate HoldsPacket(args: Args, frames: seq<seq<Byte>>, i: nat, b: Block)
    requires HeaderFits(args) && i < |frames|
  {
    && b.kind == 6
    && ReadEpb(b.body) == Some(Packet(i % Max(1, args.interfaces), Ticks(args, i) % U64_END, |frames[i]|, frames[i]))
  }

  /** Section 4.1 of draft-ietf-opsawg-pcapng: the byte-order magic, version 1.0, and no section length. */
  predicate IsSectionHeader(b: Block) {
    && b.kind == 0x0A0D0D0A
    && b.body == [0x4D, 0x3C, 0x2B, 0x1A, 1, 0, 0, 0, 0xFF, 0xFF, 0xFF, 0xFF, 0xFF, 0xFF, 0xFF, 0xFF]
  }

  /** Section 4.2: Ethernet with this snapshot length; the one option is the resolution of the time stamps. */
  predicate DescribesInterface(args: Args, b: Block)
    requires HeaderFits(args)
  {
    && b.kind == 1 && |b.body| == 20
    && Read16(Little, b.body[..2]) == 1 && Read16(Little, b.body[2..4]) == 0
    && Read32(Little, b.body[4..8]) == args.snaplen
    && Read16(Little, b.body[8..10]) == 9 && Read16(Little, b.body[10..12]) == 1
    && b.body[12] == Tsresol(args).value && b.body[13..] == [0, 0, 0, 0, 0, 0, 0]
  }

  /** The section header, the interfaces, and one packet block per frame in order. */
  predicate IsCapture(args: Args, frames: seq<seq<Byte>>, found: seq<Block>)
    requires HeaderFits(args)
  {
    var n := Max(1, args.interfaces);
    && |found| == 1 + n + |frames|
    && IsSectionHeader(found[0])
    && (forall k :: 1 <= k <= n ==> DescribesInterface(args, found[k]))
    && (forall k :: 1 + n <= k < |found| ==> HoldsPacket(args, frames, k - 1 - n, found[k]))
  }

  lemma PacketStays(args: Args, frames: seq<seq<Byte>>, i: nat)
    requires HeaderFits(args) && i < |frames| && FrameFits(args, frames, i)
    ensures HoldsPacket(args, frames, i, AsRead(PacketBlock(args, frames, i)))
  {
    EpbCanBeRead(Interface(args, i), Ticks(args, i), frames[i]);
    AlignedBody(frames[i]);
  }

  lemma SectionHeaderStays()
    ensures IsSectionHeader(AsRead(Block(SHB, ShbBody)))
  {
    assert |ShbBody| == 16;
  }

  lemma IdbSlices(args: Args)
    requires HeaderFits(args)
    ensures
      var body := IdbBody(args);
      && body[..2] == Pack16(Little, 1) && body[2..4] == Pack16(Little, 0)
      && body[4..8] == Pack32(Little, args.snaplen)
      && body[8..10] == Pack16(Little, 9) && body[10..12] == Pack16(Little, 1)
      && body[12] == Tsresol(args).value && body[13..] == [0, 0, 0, 0, 0, 0, 0]
  {
    assert IdbBody(args)[13..] == [0, 0, 0] + Pack16(Little, 0) + Pack16(Little, 0);
  }

  lemma SlicesDescribe(args: Args, body: seq<Byte>)
    requires HeaderFits(args) && |body| == 20
    requires body[..2] == Pack16(Little, 1) && body[2..4] == Pack16(Little, 0)
    requires body[4..8] == Pack32(Little, args.snaplen)
    requires body[8..10] == Pack16(Little, 9) && body[10..12] == Pack16(Little, 1)
    requires body[12] == Tsresol(args).value && body[13..] == [0, 0, 0, 0, 0, 0, 0]
    ensures DescribesInterface(args, Block(IDB, body))
  {
    Pack16CanBeRead(Little, 0);
    Pack16CanBeRead(Little, 1);
    Pack16CanBeRead(Little, 9);
    Pack32CanBeRead(Little, args.snaplen);
  }

  lemma InterfaceStays(args: Args)
    requires HeaderFits(args)
    ensures AsRead(Block(IDB, IdbBody(args))) == Block(IDB, IdbBody(args))
    ensures DescribesInterface(args, Block(IDB, IdbBody(args)))
  {
    IdbSlices(args);
    SlicesDescribe(args, IdbBody(args));
  }

  lemma SectionHeaderFound(args: Args, frames: seq<seq<Byte>>)
    requires Fits(args, frames)
    ensures IsSectionHeader(AsRead(FileBlocks(args, frames)[0]))
  {
    SectionHeaderStays();
    assert FileBlocks(args, frames)[0] == Block(SHB, ShbBody);
  }

  lemma InterfaceFound(args: Args, frames: seq<seq<Byte>>, k: nat)
    requires Fits(args, frames) && 1 <= k <= Max(1, args.interfaces)
    ensures DescribesInterface(args, AsRead(FileBlocks(args, frames)[k]))
  {
    InterfaceStays(args);
    assert FileBlocks(args, frames)[k] == Block(IDB, IdbBody(args));
  }

  lemma PacketFound(args: Args, frames: seq<seq<Byte>>, i: nat)
    requires Fits(args, frames) && i < |frames|
    ensures HoldsPacket(args, frames, i, AsRead(FileBlocks(args, frames)[1 + Max(1, args.interfaces) + i]))
  {
    assert FileBlocks(args, frames)[1 + Max(1, args.interfaces) + i] == PacketBlocks(args, frames)[i];
    PacketStays(args, frames, i);
  }

  lemma CaptureOf(args: Args, frames: seq<seq<Byte>>, blocks: seq<Block>, n: nat)
    requires HeaderFits(args) && n == Max(1, args.interfaces) && |blocks| == 1 + n + |frames|
    requires IsSectionHeader(AsRead(blocks[0]))
    requires forall k :: 1 <= k <= n ==> DescribesInterface(args, AsRead(blocks[k]))
    requires forall k :: 1 + n <= k < 1 + n + |frames| ==> HoldsPacket(args, frames, k - 1 - n, AsRead(blocks[k]))
    ensures IsCapture(args, frames, AllAsRead(blocks))
  {
    var found := AllAsRead(blocks);
    forall k | 1 <= k <= n ensures DescribesInterface(args, found[k]) {
      assert found[k] == AsRead(blocks[k]);
    }
    forall k | 1 + n <= k < |found| ensures HoldsPacket(args, frames, k - 1 - n, found[k]) {
      assert found[k] == AsRead(blocks[k]);
    }
  }

  lemma InterfacesFound(args: Args, frames: seq<seq<Byte>>)
    requires Fits(args, frames)
    ensures forall k :: 1 <= k <= Max(1, args.interfaces) ==> DescribesInterface(args, AsRead(FileBlocks(args, frames)[k]))
  {
    forall k | 1 <= k <= Max(1, args.interfaces) ensures DescribesInterface(args, AsRead(FileBlocks(args, frames)[k])) {
      InterfaceFound(args, frames, k);
    }
  }

  lemma PacketsFound(args: Args, frames: seq<seq<Byte>>, n: nat)
    requires Fits(args, frames) && n == Max(1, args.interfaces)
    ensures forall k :: 1 + n <= k < 1 + n + |frames| ==>
              HoldsPacket(args, frames, k - 1 - n, AsRead(FileBlocks(args, frames)[k]))
  {
    forall k | 1 + n <= k < 1 + n + |frames| ensures HoldsPacket(args, frames, k - 1 - n, AsRead(FileBlocks(args, frames)[k])) {
      PacketFound(args, frames, k - 1 - n);
    }
  }

  /** No body needs padding, so all blocks are read as they were written. */
  lemma BlocksStay(args: Args, frames: seq<seq<Byte>>)
    requires Fits(args, frames)
    ensures IsCapture(args, frames, AllAsRead(FileBlocks(args, frames)))
  {
    SectionHeaderFound(args, frames);
    InterfacesFound(args, frames);
    PacketsFound(args, frames, Max(1, args.interfaces));
    CaptureOf(args, frames, FileBlocks(args, frames), Max(1, args.interfaces));
  }

  /** A reader that walks the written file from either end finds the capture that was written. */
  lemma CaptureReadsBack(args: Args, frames: seq<seq<Byte>>)
    requires Fits(args, frames)
    ensures
      var file := FileOf(FileBlocks(args, frames));
      && Forward(Little, file).Some? && Backward(Little, file) == Forward(Little, file)
      && IsCapture(args, frames, Forward(Little, file).value)
  {
    BlocksCanBeRead(Little, FileBlocks(args, frames));
    BlocksStay(args, frames);
  }

  /** The clock starts at 1,700,000,000 seconds, in the resolution of the file. */
  lemma StartIsMeant(args: Args)
    requires Tsresol(args).Some?
    ensures SameInstant(Instant(Start(args), Resolution(args)), Instant(1_700_000_000, 1))
  {
  }

  /**
   From packet to packet, and up to the first one, the clock goes on by the gap in nanoseconds: by as
   many whole ticks as fit into it, and by one tick if none does.
   */
  lemma GapIsMeant(args: Args, i: nat)
    requires Tsresol(args).Some?
    ensures
      var step := Ticks(args, i) - if i == 0 then Start(args) else Ticks(args, i - 1);
      var gap := args.gap * Resolution(args);
      && step >= 1 && gap < (step + 1) * 1_000_000_000
      && (step > 1 ==> step * 1_000_000_000 <= gap)
  {
    var step, gap := Step(args), args.gap * Resolution(args);
    assert (i + 1) * step == i * step + step;
    WholeTicks(gap);
  }

  lemma WholeTicks(gap: int)
    ensures gap / 1_000_000_000 * 1_000_000_000 <= gap < (gap / 1_000_000_000 + 1) * 1_000_000_000
  {
  }

  lemma TicksGrow(args: Args, i: nat, j: nat)
    requires Tsresol(args).Some? && i < j
    ensures Ticks(args, i) < Ticks(args, j)
  {
    var d := j - i;
    assert (j + 1) * Step(args) == (i + 1) * Step(args) + d * Step(args);
    assert d * Step(args) >= 1;
  }

  // ---- time stamps of more than 64 bits

  /** How many packets can be written before a time stamp needs more than 64 bits. */
  function Capacity(args: Args): nat
    requires Tsresol(args).Some?
  {
    if Start(args) >= U64_END then 0 else Quotient(U64_END - 1 - Start(args), Step(args))
  }

  function Quotient(room: nat, step: nat): nat
    requires step >= 1
  {
    room / step
  }

  lemma QuotientBound(n: nat, room: nat, step: nat)
    requires step >= 1
    ensures n * step <= room <==> n <= Quotient(room, step)
  {
    var q := room / step;
    assert room == q * step + room % step;
    if n <= q {
      assert n * step <= q * step;
    } else {
      assert n * step >= (q + 1) * step;
    }
  }

  /** The time stamp of packet i is read back as it was counted, not cut to its low 64 bits. */
  predicate TimeReadsBack(args: Args, i: nat)
    requires Tsresol(args).Some?
  {
    Ticks(args, i) % U64_END == Ticks(args, i)
  }

  lemma TicksFit(args: Args, i: nat)
    requires Tsresol(args).Some?
    ensures TimeReadsBack(args, i) <==> i < Capacity(args)
  {
    var step := Step(args);
    if Start(args) < U64_END {
      QuotientBound(i + 1, U64_END - 1 - Start(args), step);
    } else {
      assert (i + 1) * step >= 0;
    }
  }

  /** All time stamps of n packets are read back if and only if n is no more than the capacity. */
  lemma TimesReadBack(args: Args, n: nat)
    requires Tsresol(args).Some?
    ensures (forall i :: 0 <= i < n ==> TimeReadsBack(args, i)) <==> n <= Capacity(args)
  {
    forall i | 0 <= i < n
      ensures TimeReadsBack(args, i) <==> i < Capacity(args)
    {
      TicksFit(args, i);
    }
    if n > Capacity(args) {
      assert !TimeReadsBack(args, n - 1);
    }
  }

  lemma {:induction false} Pow2Grows(i: nat, j: nat)
    requires i <= j
    ensures Pow2(i) <= Pow2(j)
  {
    if i < j {
      Pow2Grows(i, j - 1);
    }
  }

  lemma PowerOf33()
    ensures Pow2(33) == 0x2_0000_0000
  {
    assert Pow2(8) == 0x100;
    assert Pow2(16) == 0x1_0000;
    assert Pow2(24) == 0x100_0000;
    assert Pow2(32) == 0x1_0000_0000;
  }

  /** A binary resolution of 2^34 or finer leaves no room for even the start time. */
  lemma StartFits(args: Args)
    requires Tsresol(args).Some?
    ensures Start(args) < U64_END <==> args.exponent.None? || args.exponent.value <= 33
    ensures args.exponent.Some? && args.exponent.value > 33 ==> Capacity(args) == 0
  {
    PowerOf33();
    if args.exponent.Some? {
      var k := args.exponent.value;
      if k <= 33 {
        Pow2Grows(k, 33);
      } else {
        assert Pow2(34) == 2 * Pow2(33);
        Pow2Grows(34, k);
      }
    }
  }

  // ---- the instants a reader finds

  /** Section 4.2 of draft-ietf-opsawg-pcapng: the top bit of the option chooses powers of two or of ten. */
  function TicksPerSecond(option: Byte): nat {
    if option >= 128 then Pow2(option - 128) else Decimal.Pow10(option)
  }

  /** The resolution an interface block declares in its first option; microseconds if that is another one. */
  function ReadResolution(body: seq<Byte>): nat {
    if |body| < 13 || Read16(Little, body[8..10]) != 9 || Read16(Little, body[10..12]) != 1 then 1_000_000
    else TicksPerSecond(body[12])
  }

  lemma ResolutionIsRead(args: Args, b: Block)
    requires HeaderFits(args) && DescribesInterface(args, b)
    ensures ReadResolution(b.body) == TicksPerSecond(Tsresol(args).value)
  {
  }

  lemma OwnResolution(args: Args)
    requires HeaderFits(args)
    ensures ReadResolution(IdbBody(args)) == TicksPerSecond(Tsresol(args).value)
  {
    InterfaceStays(args);
    ResolutionIsRead(args, Block(IDB, IdbBody(args)));
  }

  /**
   A reader takes the resolution that was meant if and only if the binary exponent is below 128; a
   larger one already has the top bit set, and is read without it.
   */
  lemma ResolutionReadsBack(args: Args)
    requires HeaderFits(args)
    ensures ReadResolution(IdbBody(args)) == Resolution(args) <==> args.exponent.None? || args.exponent.value < 128
    ensures args.exponent.Some? && args.exponent.value >= 128 ==>
              ReadResolution(IdbBody(args)) * Pow2(128) == Resolution(args)
  {
    OwnResolution(args);
    if args.exponent.None? {
      assert Decimal.Pow10(6) == 1_000_000;
    } else if args.exponent.value >= 128 {
      Pow2Adds(args.exponent.value - 128, 128);
      PowerOf128();
    }
  }

  lemma {:induction false} Pow2Adds(i: nat, j: nat)
    ensures Pow2(i + j) == Pow2(i) * Pow2(j)
  {
    if j > 0 {
      Pow2Adds(i, j - 1);
    }
  }

  lemma PowerOf128()
    ensures Pow2(128) == U64_END * U64_END
  {
    assert Pow2(32) == 0x1_0000_0000 by {
      PowerOf33();
    }
    Pow2Adds(32, 32);
    Pow2Adds(64, 64);
  }

  /** A number of ticks, so many to the second. */
  datatype Instant = Instant(ticks: nat, perSecond: nat)

  predicate SameInstant(a: Instant, b: Instant) {
    a.ticks * b.perSecond == b.ticks * a.perSecond
  }

  /** When packet i is meant to be. */
  function Meant(args: Args, i: nat): Instant
    requires Tsresol(args).Some?
  {
    Instant(Ticks(args, i), Resolution(args))
  }

  /** The instant of block k, resolved by the interface block it names; those follow the section header. */
  function ReadInstant(blocks: seq<Block>, k: nat): Option<Instant>
    requires k < |blocks|
  {
    var packet := if blocks[k].kind == 6 then ReadEpb(blocks[k].body) else None;
    if packet.None? || 1 + packet.value.interface >= |blocks| then None
    else
      var described := blocks[1 + packet.value.interface];
      if described.kind != 1 then None
      else Some(Instant(packet.value.ticks, ReadResolution(described.body)))
  }

  /** Ticks that were cut, or a resolution read as another one, never make up for each other. */
  lemma InstantSurvives(args: Args, i: nat)
    requires HeaderFits(args)
    ensures SameInstant(Instant(Ticks(args, i) % U64_END, ReadResolution(IdbBody(args))), Meant(args, i))
            <==> i < Capacity(args)
  {
    var ticks, perSecond := Ticks(args, i), Resolution(args);
    TicksFit(args, i);
    ResolutionReadsBack(args);
    if args.exponent.None? || args.exponent.value < 128 {
      OfOneResolution(ticks % U64_END, ticks, perSecond);
    } else {
      StartFits(args);
      PowerOf128();
      OfTwoResolutions(ticks, ReadResolution(IdbBody(args)), perSecond);
    }
  }

  lemma OfOneResolution(a: nat, b: nat, perSecond: nat)
    requires perSecond >= 1
    ensures a * perSecond == b * perSecond <==> a == b
  {
  }

  lemma LowBitsAreTooFew(ticks: nat)
    requires ticks > 0
    ensures ticks % U64_END * (U64_END * U64_END) != ticks
  {
  }

  lemma OfTwoResolutions(ticks: nat, small: nat, large: nat)
    requires ticks > 0 && small >= 1 && large == small * (U64_END * U64_END)
    ensures ticks % U64_END * large != ticks * small
  {
    var low := ticks % U64_END;
    assert low * large == low * (U64_END * U64_END) * small;
    LowBitsAreTooFew(ticks);
    OfOneResolution(low * (U64_END * U64_END), ticks, small);
  }

  /**
   A reader that resolves the time stamps of the file it has read by the interfaces it has read finds
   the instant that was meant for packet i if and only if i is within the capacity.
   */
  lemma InstantsReadBack(args: Args, frames: seq<seq<Byte>>, i: nat)
    requires Fits(args, frames) && i < |frames|
    ensures
      var found, k := Forward(Little, FileOf(FileBlocks(args, frames))), 1 + Max(1, args.interfaces) + i;
      && found.Some? && k < |found.value|
      && var instant := ReadInstant(found.value, k);
         instant.Some? && (SameInstant(instant.value, Meant(args, i)) <==> i < Capacity(args))
  {
    CaptureReadsBack(args, frames);
    var found := Forward(Little, FileOf(FileBlocks(args, frames))).value;
    InstantInCapture(args, frames, found, i);
    InstantSurvives(args, i);
  }

  lemma InstantInCapture(args: Args, frames: seq<seq<Byte>>, found: seq<Block>, i: nat)
    requires HeaderFits(args) && IsCapture(args, frames, found) && i < |frames|
    ensures
      var k := 1 + Max(1, args.interfaces) + i;
      ReadInstant(found, k) == Some(Instant(Ticks(args, i) % U64_END, ReadResolution(IdbBody(args))))
  {
    var n := Max(1, args.interfaces);
    assert HoldsPacket(args, frames, i, found[1 + n + i]);
    ResolutionIsRead(args, found[1 + Interface(args, i)]);
    OwnResolution(args);
  }
}
