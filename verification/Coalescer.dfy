/** Merging streamed pieces into frames, and assembling the message of one streamed round. */
module Coalescer {
  import opened Options

  datatype Channel = Content | Reasoning | ToolArgs

  datatype Head = Head(channel: Channel, tool: Option<string>, index: Option<int>)

  /** A piece that arrives, and also a frame that is sent. */
  datatype Delta = Delta(head: Head, text: string)

  function Text(ds: seq<Delta>): string {
    if ds == [] then "" else Text(ds[..|ds| - 1]) + ds[|ds| - 1].text
  }

  /** One frame made of consecutive pieces of its own kind; only the last may reach the limit. */
  predicate Merges(frame: Delta, pieces: seq<Delta>, limit: int) {
    && pieces != [] && frame.text == Text(pieces)
    && (forall i :: 0 <= i < |pieces| ==> pieces[i].head == frame.head && pieces[i].text != "")
    && (|pieces| > 1 ==> |Text(pieces[..|pieces| - 1])| < limit)
  }

  function Joined(groups: seq<seq<Delta>>): seq<Delta> {
    if groups == [] then [] else Joined(groups[..|groups| - 1]) + groups[|groups| - 1]
  }

  predicate MergesAll(frames: seq<Delta>, groups: seq<seq<Delta>>, limit: int) {
    |frames| == |groups| && forall i :: 0 <= i < |frames| ==> Merges(frames[i], groups[i], limit)
  }

  /** The frames are what consecutive groups of the pieces merge to. */
  ghost predicate Coalesced(frames: seq<Delta>, pieces: seq<Delta>, limit: int) {
    exists groups :: MergesAll(frames, groups, limit) && Joined(groups) == pieces
  }

  /** What a coalescer has sent and what it holds. */
  datatype Buffer = Buffer(sent: seq<Delta>, head: Head, text: string)

  function Flushed(b: Buffer): Buffer {
    if b.text == "" then b else Buffer(b.sent + [Delta(b.head, b.text)], b.head, "")
  }

  /** A piece of another kind first sends what is held; a full or late buffer is sent at once. */
  function Extended(b: Buffer, piece: Delta, late: bool, limit: int): Buffer {
    var before := if piece.head != b.head then Flushed(b) else b;
    var after := Buffer(before.sent, piece.head, before.text + piece.text);
    if |after.text| >= limit || late then Flushed(after) else after
  }

  class DeltaCoalescer {
    const flushChars: int
    var text: string
    var head: Head
    /** What was handed to the `emit` callback so far. */
    var emitted: seq<Delta>
    var frames: nat
    /** All non-empty pieces so far: those in frames, by frame, and those still in the buffer. */
    ghost var added: seq<Delta>
    ghost var groups: seq<seq<Delta>>
    ghost var open: seq<Delta>

    ghost predicate Valid()
      reads this
    {
      && MergesAll(emitted, groups, flushChars) && frames == |emitted|
      && added == Joined(groups) + open
      && (open == [] <==> text == "")
      && (open != [] ==> Merges(Delta(head, text), open, flushChars) && |text| < flushChars)
    }

    constructor (flushChars: int)
      ensures Valid() && this.flushChars == flushChars && added == [] && emitted == []
    {
      this.flushChars := flushChars;
      text, head, emitted, frames := "", Head(Content, None, None), [], 0;
      added, groups, open := [], [], [];
    }

    function State(): Buffer
      reads this
    {
      Buffer(emitted, head, text)
    }

    /** `late` is whether the clock has reached the flush interval. */
    method Add(head: Head, text: string, late: bool)
      requires Valid()
      modifies this
      ensures Valid()
      ensures added == if text == "" then old(added) else old(added) + [Delta(head, text)]
      ensures State() == if text == "" then old(State()) else Extended(old(State()), Delta(head, text), late, flushChars)
    {
      if text == "" {
        return;
      }
      if this.text != "" && head != this.head {
        Flush();
      }
      Append(head, text, late);
    }

    /** The part of `add` after the change of kind. */
    method Append(head: Head, text: string, late: bool)
      requires Valid() && text != "" && (this.text != "" ==> head == this.head)
      modifies this
      ensures Valid() && added == old(added) + [Delta(head, text)]
      ensures
        var held := Buffer(old(emitted), head, old(this.text) + text);
        State() == if |held.text| >= flushChars || late then Flushed(held) else held
    {
      Hold(head, text);
      if |this.text| >= flushChars || late {
        SendBuffer();
      }
    }

    /** Adds a piece to the buffer. */
    method Hold(head: Head, text: string)
      requires Valid() && text != "" && (this.text != "" ==> head == this.head)
      modifies this`head, this`text, this`added, this`open
      ensures added == old(added) + [Delta(head, text)]
      ensures this.head == head && this.text == old(this.text) + text
      ensures added == Joined(groups) + open && Merges(Delta(head, this.text), open, flushChars)
    {
      MergeOneMore(this.head, open, head, text, flushChars);
      this.head := head;
      this.text := this.text + text;
      added, open := added + [Delta(head, text)], open + [Delta(head, text)];
    }

    /** Sends the buffer; an empty buffer sends nothing. */
    method Flush()
      requires Valid()
      modifies this
      ensures Valid() && added == old(added) && State() == Flushed(old(State()))
      ensures Coalesced(emitted, added, flushChars)
    {
      if text != "" {
        SendBuffer();
      }
      assert added == Joined(groups);
    }

    /** The part of `flush` after its guard. */
    method SendBuffer()
      requires MergesAll(emitted, groups, flushChars) && frames == |emitted|
      requires added == Joined(groups) + open
      requires Merges(Delta(head, text), open, flushChars)
      modifies this
      ensures Valid() && open == [] && added == old(added)
      ensures State() == Flushed(old(State()))
    {
      JoinOneMore(groups, open);
      groups, open := groups + [open], [];
      var sent := text;
      text := "";
      frames := frames + 1;
      emitted := emitted + [Delta(head, sent)];
    }
  }

  lemma JoinOneMore(groups: seq<seq<Delta>>, group: seq<Delta>)
    ensures Joined(groups + [group]) == Joined(groups) + group
  {
    assert (groups + [group])[..|groups|] == groups;
  }

  lemma MergeOneMore(head: Head, pieces: seq<Delta>, next: Head, text: string, limit: int)
    requires text != ""
    requires pieces != [] ==> next == head && Merges(Delta(head, Text(pieces)), pieces, limit) && |Text(pieces)| < limit
    ensures Merges(Delta(next, Text(pieces) + text), pieces + [Delta(next, text)], limit)
  {
    var more := pieces + [Delta(next, text)];
    assert more[..|pieces|] == pieces;
  }

  // ---- nothing is lost, and nothing moves to another channel or tool

  /** A part of the stream that a reader of the frames can pick out. */
  datatype Selector = Everything | OfChannel(channel: Channel) | ArgumentsOf(index: int)

  predicate Selects(sel: Selector, h: Head) {
    match sel
    case Everything => true
    case OfChannel(c) => h.channel == c
    case ArgumentsOf(k) => h.channel == ToolArgs && h.index == Some(k)
  }

  function TextOf(sel: Selector, ds: seq<Delta>): string {
    if ds == [] then ""
    else
      var last := ds[|ds| - 1];
      TextOf(sel, ds[..|ds| - 1]) + if Selects(sel, last.head) then last.text else ""
  }

  lemma TextOfLast(sel: Selector, ds: seq<Delta>, d: Delta)
    ensures TextOf(sel, ds + [d]) == TextOf(sel, ds) + if Selects(sel, d.head) then d.text else ""
  {
    assert (ds + [d])[..|ds|] == ds;
  }

  lemma Associative(a: string, b: string, c: string)
    ensures a + (b + c) == a + b + c
  {
  }

  lemma {:induction false} TextOfSplits(sel: Selector, a: seq<Delta>, b: seq<Delta>)
    ensures TextOf(sel, a + b) == TextOf(sel, a) + TextOf(sel, b)
    decreases |b|
  {
    if b == [] {
      assert a + b == a;
    } else {
      var init, last := b[..|b| - 1], b[|b| - 1];
      var t := if Selects(sel, last.head) then last.text else "";
      TextOfSplits(sel, a, init);
      assert a + b == a + init + [last];
      TextOfLast(sel, a + init, last);
      Associative(TextOf(sel, a), TextOf(sel, init), t);
    }
  }

  lemma {:induction false} TextOfMerged(sel: Selector, head: Head, pieces: seq<Delta>)
    requires forall i :: 0 <= i < |pieces| ==> pieces[i].head == head
    ensures TextOf(sel, pieces) == if Selects(sel, head) then Text(pieces) else ""
  {
    if pieces != [] {
      TextOfMerged(sel, head, pieces[..|pieces| - 1]);
    }
  }

  lemma {:induction false} GroupsKeepText(sel: Selector, frames: seq<Delta>, groups: seq<seq<Delta>>, limit: int)
    requires MergesAll(frames, groups, limit)
    ensures TextOf(sel, frames) == TextOf(sel, Joined(groups))
    decreases |frames|
  {
    if frames != [] {
      var n := |frames| - 1;
      GroupsKeepText(sel, frames[..n], groups[..n], limit);
      assert Merges(frames[n], groups[n], limit);
      TextOfMerged(sel, frames[n].head, groups[n]);
      TextOfSplits(sel, Joined(groups[..n]), groups[n]);
    }
  }

  /** What a reader picks out of the frames is what was in the pieces, in order. */
  lemma CoalescingKeepsText(sel: Selector, frames: seq<Delta>, pieces: seq<Delta>, limit: int)
    requires Coalesced(frames, pieces, limit)
    ensures TextOf(sel, frames) == TextOf(sel, pieces)
  {
    var groups :| MergesAll(frames, groups, limit) && Joined(groups) == pieces;
    GroupsKeepText(sel, frames, groups, limit);
  }

  lemma {:induction false} GroupIsInJoined(groups: seq<seq<Delta>>, i: nat, d: Delta)
    requires i < |groups| && d in groups[i]
    ensures d in Joined(groups)
    decreases |groups|
  {
    var n := |groups| - 1;
    if i < n {
      GroupIsInJoined(groups[..n], i, d);
    }
  }

  predicate EndsWith(s: string, t: string) {
    |t| <= |s| && s[|s| - |t|..] == t
  }

  /** The frame is not empty, ends with a piece of its kind, and is no longer than that piece allows. */
  ghost predicate ShortFrame(frame: Delta, pieces: seq<Delta>, limit: int) {
    && frame.text != ""
    && exists p :: p in pieces && p.head == frame.head && EndsWith(frame.text, p.text)
                   && (frame.text == p.text || |frame.text| < limit + |p.text|)
  }

  lemma MergedIsShort(frame: Delta, pieces: seq<Delta>, limit: int)
    requires Merges(frame, pieces, limit)
    ensures
      var p := pieces[|pieces| - 1];
      && frame.text != "" && EndsWith(frame.text, p.text)
      && (frame.text == p.text || |frame.text| < limit + |p.text|)
  {
    var front, p := Text(pieces[..|pieces| - 1]), pieces[|pieces| - 1];
    assert frame.text == front + p.text;
    if |pieces| == 1 {
      assert pieces[..0] == [] && front == "";
    }
  }

  lemma FramesAreShort(frames: seq<Delta>, pieces: seq<Delta>, limit: int)
    requires Coalesced(frames, pieces, limit)
    ensures forall i :: 0 <= i < |frames| ==> ShortFrame(frames[i], pieces, limit)
  {
    var groups :| MergesAll(frames, groups, limit) && Joined(groups) == pieces;
    forall i | 0 <= i < |frames| ensures ShortFrame(frames[i], pieces, limit) {
      assert Merges(frames[i], groups[i], limit);
      var p := groups[i][|groups[i]| - 1];
      GroupIsInJoined(groups, i, p);
      MergedIsShort(frames[i], groups[i], limit);
    }
  }
}
