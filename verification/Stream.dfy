/** Reading one streamed round: the message that is put together and the frames that are sent on. */
module Stream {
  import opened Coalescer
  import opened Options

  const DELTA_FLUSH_CHARS: int := 256

  /** A part of a tool call; an absent field is empty. */
  datatype CallDelta = CallDelta(index: int, id: string, name: string, arguments: string)

  datatype Chunk = Chunk(content: string, reasoning: string, calls: seq<CallDelta>)

  datatype Slot = Slot(id: Option<string>, name: string, arguments: string)

  /** A dictionary of slots and its keys in the order of insertion. */
  datatype Slots = Slots(at: map<int, Slot>, order: seq<int>)

  datatype Call = Call(index: int, slot: Slot)

  datatype Message = Message(content: string, reasoning: string, calls: seq<Call>)

  // ---- what the stream says

  function ContentOf(chunks: seq<Chunk>): string {
    if chunks == [] then "" else ContentOf(chunks[..|chunks| - 1]) + chunks[|chunks| - 1].content
  }

  function ReasoningOf(chunks: seq<Chunk>): string {
    if chunks == [] then "" else ReasoningOf(chunks[..|chunks| - 1]) + chunks[|chunks| - 1].reasoning
  }

  function CallsOf(chunks: seq<Chunk>): seq<CallDelta> {
    if chunks == [] then [] else CallsOf(chunks[..|chunks| - 1]) + chunks[|chunks| - 1].calls
  }

  /** All parts of the arguments of one tool call, in order. */
  function ArgumentsFor(k: int, calls: seq<CallDelta>): string {
    if calls == [] then ""
    else
      var last := calls[|calls| - 1];
      ArgumentsFor(k, calls[..|calls| - 1]) + if last.index == k then last.arguments else ""
  }

  function NameFor(k: int, calls: seq<CallDelta>): string {
    if calls == [] then ""
    else
      var last := calls[|calls| - 1];
      NameFor(k, calls[..|calls| - 1]) + if last.index == k then last.name else ""
  }

  /** The last identifier that was given for a tool call. */
  function IdFor(k: int, calls: seq<CallDelta>): Option<string> {
    if calls == [] then None
    else
      var last := calls[|calls| - 1];
      if last.index == k && last.id != "" then Some(last.id) else IdFor(k, calls[..|calls| - 1])
  }

  predicate Mentioned(k: int, calls: seq<CallDelta>) {
    exists i :: 0 <= i < |calls| && calls[i].index == k
  }

  function SlotFor(k: int, calls: seq<CallDelta>): Slot {
    Slot(IdFor(k, calls), NameFor(k, calls), ArgumentsFor(k, calls))
  }

  /** A piece is handed on unless it is empty. */
  function Piece(head: Head, text: string): seq<Delta> {
    if text == "" then [] else [Delta(head, text)]
  }

  /** The piece of one part of a tool call: under its index, and under the name as far as it has arrived. */
  function CallPiece(before: seq<CallDelta>, call: CallDelta): seq<Delta> {
    var name := NameFor(call.index, before + [call]);
    Piece(Head(ToolArgs, if name == "" then None else Some(name), Some(call.index)), call.arguments)
  }

  function CallPieces(before: seq<CallDelta>, parts: seq<CallDelta>): seq<Delta> {
    if parts == [] then []
    else
      var n := |parts| - 1;
      CallPieces(before, parts[..n]) + CallPiece(before + parts[..n], parts[n])
  }

  /** What is handed to the coalescer: of every chunk its content, its reasoning and its parts of tool calls. */
  function PiecesOf(chunks: seq<Chunk>): seq<Delta> {
    if chunks == [] then []
    else
      var n := |chunks| - 1;
      PiecesOf(chunks[..n]) + Piece(Head(Content, None, None), chunks[n].content)
      + Piece(Head(Reasoning, None, None), chunks[n].reasoning) + CallPieces(CallsOf(chunks[..n]), chunks[n].calls)
  }

  lemma OneMorePart(before: seq<CallDelta>, parts: seq<CallDelta>, i: nat)
    requires i < |parts|
    ensures before + parts[..i + 1] == before + parts[..i] + [parts[i]]
    ensures CallPieces(before, parts[..i + 1]) == CallPieces(before, parts[..i]) + CallPiece(before + parts[..i], parts[i])
  {
    assert parts[..i + 1][..i] == parts[..i];
  }

  // ---- the tool calls put together so far

  predicate NoDuplicates(keys: seq<int>) {
    forall i, j :: 0 <= i < j < |keys| ==> keys[i] != keys[j]
  }

  ghost predicate WellFormed(slots: Slots) {
    NoDuplicates(slots.order) && forall k :: k in slots.order <==> k in slots.at
  }

  ghost predicate Collected(slots: Slots, calls: seq<CallDelta>) {
    && WellFormed(slots)
    && (forall k :: k in slots.at <==> Mentioned(k, calls))
    && (forall k :: k in slots.at ==> slots.at[k] == SlotFor(k, calls))
  }

  function Updated(slots: Slots, call: CallDelta): Slots {
    var slot := if call.index in slots.at then slots.at[call.index] else Slot(None, "", "");
    Slots(slots.at[call.index := Slot(if call.id != "" then Some(call.id) else slot.id,
                                      slot.name + call.name, slot.arguments + call.arguments)],
          if call.index in slots.at then slots.order else slots.order + [call.index])
  }

  lemma {:induction false} NotMentioned(k: int, calls: seq<CallDelta>)
    requires !Mentioned(k, calls)
    ensures SlotFor(k, calls) == Slot(None, "", "")
    decreases |calls|
  {
    if calls != [] {
      var n := |calls| - 1;
      assert calls[n].index != k;
      NotMentioned(k, calls[..n]);
    }
  }

  lemma SlotForLast(k: int, calls: seq<CallDelta>, call: CallDelta)
    ensures
      var slot := SlotFor(k, calls);
      SlotFor(k, calls + [call])
      == if call.index != k then slot
         else Slot(if call.id != "" then Some(call.id) else slot.id, slot.name + call.name, slot.arguments + call.arguments)
  {
    assert (calls + [call])[..|calls|] == calls;
  }

  lemma MentionedLast(k: int, calls: seq<CallDelta>, call: CallDelta)
    ensures Mentioned(k, calls + [call]) <==> Mentioned(k, calls) || call.index == k
  {
    var more := calls + [call];
    if Mentioned(k, calls) {
      var i :| 0 <= i < |calls| && calls[i].index == k;
      assert more[i].index == k;
    } else if call.index == k {
      assert more[|calls|].index == k;
    }
  }

  lemma CollectOneMore(slots: Slots, calls: seq<CallDelta>, call: CallDelta)
    requires Collected(slots, calls)
    ensures Collected(Updated(slots, call), calls + [call])
  {
    var next := Updated(slots, call);
    forall k ensures k in next.at <==> Mentioned(k, calls + [call]) {
      MentionedLast(k, calls, call);
    }
    forall k | k in next.at ensures next.at[k] == SlotFor(k, calls + [call]) {
      SlotForLast(k, calls, call);
      if k !in slots.at {
        NotMentioned(k, calls);
      }
    }
  }

  // ---- what went to the coalescer

  ghost predicate SentOn(pieces: seq<Delta>, content: string, reasoning: string, calls: seq<CallDelta>) {
    && TextOf(OfChannel(Content), pieces) == content
    && TextOf(OfChannel(Reasoning), pieces) == reasoning
    && forall k :: TextOf(ArgumentsOf(k), pieces) == ArgumentsFor(k, calls)
  }

  lemma SendContent(pieces: seq<Delta>, content: string, reasoning: string, calls: seq<CallDelta>, text: string)
    requires SentOn(pieces, content, reasoning, calls)
    ensures SentOn(pieces + Piece(Head(Content, None, None), text), content + text, reasoning, calls)
  {
    TextOfLastOfAll(pieces, Delta(Head(Content, None, None), text));
    NoPiece(pieces, content, text);
  }

  lemma SendReasoning(pieces: seq<Delta>, content: string, reasoning: string, calls: seq<CallDelta>, text: string)
    requires SentOn(pieces, content, reasoning, calls)
    ensures SentOn(pieces + Piece(Head(Reasoning, None, None), text), content, reasoning + text, calls)
  {
    TextOfLastOfAll(pieces, Delta(Head(Reasoning, None, None), text));
    NoPiece(pieces, reasoning, text);
  }

  lemma NoPiece(pieces: seq<Delta>, said: string, text: string)
    ensures pieces + [] == pieces && (text == "" ==> said + text == said)
  {
  }

  lemma SendArguments(pieces: seq<Delta>, content: string, reasoning: string, calls: seq<CallDelta>,
                      call: CallDelta, tool: Option<string>)
    requires SentOn(pieces, content, reasoning, calls)
    ensures SentOn(pieces + Piece(Head(ToolArgs, tool, Some(call.index)), call.arguments),
                   content, reasoning, calls + [call])
  {
    assert pieces + [] == pieces;
    var d := Delta(Head(ToolArgs, tool, Some(call.index)), call.arguments);
    TextOfLast(OfChannel(Content), pieces, d);
    TextOfLast(OfChannel(Reasoning), pieces, d);
    forall k
      ensures TextOf(ArgumentsOf(k), pieces + [d]) == ArgumentsFor(k, calls + [call])
      ensures call.arguments == "" ==> TextOf(ArgumentsOf(k), pieces) == ArgumentsFor(k, calls + [call])
    {
      SendToOne(pieces, calls, call, d, k);
    }
  }

  lemma SendToOne(pieces: seq<Delta>, calls: seq<CallDelta>, call: CallDelta, d: Delta, k: int)
    requires d.head.channel == ToolArgs && d.head.index == Some(call.index) && d.text == call.arguments
    requires TextOf(ArgumentsOf(k), pieces) == ArgumentsFor(k, calls)
    ensures TextOf(ArgumentsOf(k), pieces + [d]) == ArgumentsFor(k, calls + [call])
    ensures call.arguments == "" ==> TextOf(ArgumentsOf(k), pieces) == ArgumentsFor(k, calls + [call])
  {
    TextOfLast(ArgumentsOf(k), pieces, d);
    SlotForLast(k, calls, call);
  }

  lemma TextOfLastOfAll(pieces: seq<Delta>, d: Delta)
    ensures forall sel :: TextOf(sel, pieces + [d]) == TextOf(sel, pieces) + if Selects(sel, d.head) then d.text else ""
  {
    forall sel ensures TextOf(sel, pieces + [d]) == TextOf(sel, pieces) + if Selects(sel, d.head) then d.text else "" {
      TextOfLast(sel, pieces, d);
    }
  }

  // ---- reading

  predicate Ascending(calls: seq<Call>) {
    forall i, j :: 0 <= i < j < |calls| ==> calls[i].index < calls[j].index
  }

  ghost predicate Lists(calls: seq<Call>, slots: Slots, keys: seq<int>) {
    forall c :: c in calls <==> c.index in keys && c.index in slots.at && slots.at[c.index] == c.slot
  }

  /** The tool calls by ascending index. */
  method SortedCalls(slots: Slots) returns (calls: seq<Call>)
    requires WellFormed(slots)
    ensures Ascending(calls) && Lists(calls, slots, slots.order)
  {
    calls := [];
    for i := 0 to |slots.order|
      invariant Ascending(calls) && Lists(calls, slots, slots.order[..i])
    {
      var k := slots.order[i];
      assert slots.order[..i + 1] == slots.order[..i] + [k];
      calls := Insert(calls, Call(k, slots.at[k]));
    }
    assert slots.order[..|slots.order|] == slots.order;
  }

  method Insert(calls: seq<Call>, c: Call) returns (r: seq<Call>)
    requires Ascending(calls) && forall d :: d in calls ==> d.index != c.index
    ensures Ascending(r) && forall d :: d in r <==> d == c || d in calls
  {
    var i := 0;
    while i < |calls| && calls[i].index < c.index
      invariant 0 <= i <= |calls|
      invariant forall j :: 0 <= j < i ==> calls[j].index < c.index
    {
      i := i + 1;
    }
    assert i < |calls| ==> calls[i] in calls && calls[i].index != c.index;
    r := calls[..i] + [c] + calls[i..];
    InsertedInOrder(calls, i, c);
  }

  lemma InsertedInOrder(calls: seq<Call>, i: nat, c: Call)
    requires Ascending(calls) && i <= |calls|
    requires i > 0 ==> calls[i - 1].index < c.index
    requires i < |calls| ==> calls[i].index > c.index
    ensures
      var r := calls[..i] + [c] + calls[i..];
      Ascending(r) && forall d :: d in r <==> d == c || d in calls
  {
    var a, b := calls[..i], calls[i..];
    assert calls == a + b;
    forall j | 0 <= j < |a| ensures a[j].index < c.index {
      assert j < i - 1 ==> calls[j].index < calls[i - 1].index;
    }
    forall j | 0 <= j < |b| ensures c.index < b[j].index {
      assert j > 0 ==> calls[i].index < calls[i + j].index;
    }
    assert Ascending(a) && Ascending(b);
    AscendingSplits(a, c, b);
  }

  lemma AscendingSplits(a: seq<Call>, c: Call, b: seq<Call>)
    requires Ascending(a) && Ascending(b)
    requires forall j :: 0 <= j < |a| ==> a[j].index < c.index
    requires forall j :: 0 <= j < |b| ==> c.index < b[j].index
    ensures Ascending(a + [c] + b)
  {
  }

  /**
   * `_read_stream` between the first and the last line: the chunks are those that have a choice.
   * `pieces` are the pieces that were handed to the coalescer.
   */
  method ReadStream(chunks: seq<Chunk>) returns (message: Message, frames: seq<Delta>, ghost pieces: seq<Delta>)
    ensures message.content == ContentOf(chunks) && message.reasoning == ReasoningOf(chunks)
    ensures Ascending(message.calls)
    ensures forall c :: c in message.calls
                    <==> Mentioned(c.index, CallsOf(chunks)) && c.slot == SlotFor(c.index, CallsOf(chunks))
    ensures pieces == PiecesOf(chunks) && Coalesced(frames, pieces, 256)
    ensures TextOf(OfChannel(Content), frames) == message.content
    ensures TextOf(OfChannel(Reasoning), frames) == message.reasoning
    ensures forall call :: call in message.calls ==> TextOf(ArgumentsOf(call.index), frames) == call.slot.arguments
  {
    var coalescer := new DeltaCoalescer(DELTA_FLUSH_CHARS);
    var content, reasoning, slots := ReadChunks(coalescer, chunks);
    coalescer.Flush();
    frames, pieces := coalescer.emitted, coalescer.added;
    var calls := SortedCalls(slots);
    message := Message(content, reasoning, calls);
    FramesSayAll(frames, pieces, message, CallsOf(chunks));
  }

  /** All chunks, one after the other. */
  method ReadChunks(coalescer: DeltaCoalescer, chunks: seq<Chunk>) returns (content: string, reasoning: string, slots: Slots)
    requires coalescer.Valid() && coalescer.added == []
    modifies coalescer
    ensures coalescer.Valid() && coalescer.added == PiecesOf(chunks)
    ensures content == ContentOf(chunks) && reasoning == ReasoningOf(chunks) && Collected(slots, CallsOf(chunks))
    ensures SentOn(coalescer.added, content, reasoning, CallsOf(chunks))
  {
    content, reasoning := "", "";
    slots := Slots(map[], []);
    for i := 0 to |chunks|
      invariant coalescer.Valid()
      invariant content == ContentOf(chunks[..i]) && reasoning == ReasoningOf(chunks[..i])
      invariant Collected(slots, CallsOf(chunks[..i]))
      invariant SentOn(coalescer.added, content, reasoning, CallsOf(chunks[..i]))
      invariant coalescer.added == PiecesOf(chunks[..i])
    {
      var chunk := chunks[i];
      assert chunks[..i + 1][..i] == chunks[..i];
      slots := ReadChunk(coalescer, slots, chunk, content, reasoning, CallsOf(chunks[..i]));
      content, reasoning := content + chunk.content, reasoning + chunk.reasoning;
    }
    assert chunks[..|chunks|] == chunks;
  }

  /** What was sent on says as much as the message. */
  lemma FramesSayAll(frames: seq<Delta>, pieces: seq<Delta>, message: Message, calls: seq<CallDelta>)
    requires Coalesced(frames, pieces, DELTA_FLUSH_CHARS) && SentOn(pieces, message.content, message.reasoning, calls)
    requires forall c :: c in message.calls ==> c.slot == SlotFor(c.index, calls)
    ensures TextOf(OfChannel(Content), frames) == message.content
    ensures TextOf(OfChannel(Reasoning), frames) == message.reasoning
    ensures forall c :: c in message.calls ==> TextOf(ArgumentsOf(c.index), frames) == c.slot.arguments
  {
    forall sel ensures TextOf(sel, frames) == TextOf(sel, pieces) {
      CoalescingKeepsText(sel, frames, pieces, DELTA_FLUSH_CHARS);
    }
  }

  /** One chunk: its content first, then its reasoning, then its parts of tool calls. */
  method ReadChunk(coalescer: DeltaCoalescer, slots: Slots, chunk: Chunk,
                   ghost content: string, ghost reasoning: string, ghost calls: seq<CallDelta>)
    returns (next: Slots)
    requires coalescer.Valid()
    requires Collected(slots, calls) && SentOn(coalescer.added, content, reasoning, calls)
    modifies coalescer
    ensures coalescer.Valid()
    ensures Collected(next, calls + chunk.calls)
    ensures SentOn(coalescer.added, content + chunk.content, reasoning + chunk.reasoning, calls + chunk.calls)
    ensures coalescer.added == old(coalescer.added) + Piece(Head(Content, None, None), chunk.content)
                               + Piece(Head(Reasoning, None, None), chunk.reasoning) + CallPieces(calls, chunk.calls)
  {
    ReadTexts(coalescer, chunk, content, reasoning, calls);
    next := ReadCalls(coalescer, slots, chunk.calls, content + chunk.content, reasoning + chunk.reasoning, calls);
  }

  /** The content and the reasoning of a chunk. */
  method ReadTexts(coalescer: DeltaCoalescer, chunk: Chunk, ghost content: string, ghost reasoning: string,
                   ghost calls: seq<CallDelta>)
    requires coalescer.Valid() && SentOn(coalescer.added, content, reasoning, calls)
    modifies coalescer
    ensures coalescer.Valid()
    ensures SentOn(coalescer.added, content + chunk.content, reasoning + chunk.reasoning, calls)
    ensures coalescer.added == old(coalescer.added) + Piece(Head(Content, None, None), chunk.content)
                               + Piece(Head(Reasoning, None, None), chunk.reasoning)
  {
    SendContent(coalescer.added, content, reasoning, calls, chunk.content);
    HandOn(coalescer, Head(Content, None, None), chunk.content);
    SendReasoning(coalescer.added, content + chunk.content, reasoning, calls, chunk.reasoning);
    HandOn(coalescer, Head(Reasoning, None, None), chunk.reasoning);
  }

  /** The clock may say anything. */
  method HandOn(coalescer: DeltaCoalescer, head: Head, text: string)
    requires coalescer.Valid()
    modifies coalescer
    ensures coalescer.Valid() && coalescer.added == old(coalescer.added) + Piece(head, text)
  {
    var late: bool := *;
    coalescer.Add(head, text, late);
  }

  method ReadCalls(coalescer: DeltaCoalescer, slots: Slots, parts: seq<CallDelta>,
                   ghost content: string, ghost reasoning: string, ghost calls: seq<CallDelta>)
    returns (next: Slots)
    requires coalescer.Valid()
    requires Collected(slots, calls) && SentOn(coalescer.added, content, reasoning, calls)
    modifies coalescer
    ensures coalescer.Valid()
    ensures Collected(next, calls + parts) && SentOn(coalescer.added, content, reasoning, calls + parts)
    ensures coalescer.added == old(coalescer.added) + CallPieces(calls, parts)
  {
    next := slots;
    ghost var said := calls;
    for i := 0 to |parts|
      invariant coalescer.Valid() && said == calls + parts[..i]
      invariant Collected(next, said) && SentOn(coalescer.added, content, reasoning, said)
      invariant coalescer.added == old(coalescer.added) + CallPieces(calls, parts[..i])
    {
      OneMorePart(calls, parts, i);
      next := ReadCall(coalescer, next, parts[i], content, reasoning, said);
      said := said + [parts[i]];
    }
    assert parts[..|parts|] == parts;
  }

  method ReadCall(coalescer: DeltaCoalescer, slots: Slots, call: CallDelta,
                  ghost content: string, ghost reasoning: string, ghost calls: seq<CallDelta>)
    returns (next: Slots)
    requires coalescer.Valid()
    requires Collected(slots, calls) && SentOn(coalescer.added, content, reasoning, calls)
    modifies coalescer
    ensures coalescer.Valid()
    ensures Collected(next, calls + [call]) && SentOn(coalescer.added, content, reasoning, calls + [call])
    ensures coalescer.added == old(coalescer.added) + CallPiece(calls, call)
  {
    CollectOneMore(slots, calls, call);
    next := Updated(slots, call);
    var name := next.at[call.index].name;
    var tool := if name == "" then None else Some(name);
    SendArguments(coalescer.added, content, reasoning, calls, call, tool);
    HandOn(coalescer, Head(ToolArgs, tool, Some(call.index)), call.arguments);
  }
}
