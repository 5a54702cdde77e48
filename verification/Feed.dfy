/**
 The desktop feed: what the event reducer makes of the events of a run.

 Of every card only what the reducer itself looks at is kept: counters, durations and results
 that it merely copies into a card are left out.
 */
module Feed {
  import opened Options
  import opened AgentEvents

  /** `status` of a tool card is None while the call is pending. */
  datatype FeedItem =
    | StepCard(step: nat, pending: bool)
    | DeltaCard(step: nat, channel: string, toolName: Option<string>, text: string, done: bool)
    | ToolCard(step: nat, tool: string, status: Option<CallStatus>)
    | FindingCard(id: string)
    | RejectedCard(title: string, code: string)

  datatype FeedEvent = RunStarted | FromAgent(event: Event) | ErrorReport | RunFinished | EventsDropped

  // ---- replacing the last card of a kind

  /** Position of the last item satisfying p, or -1. */
  function LastIndex(feed: seq<FeedItem>, p: FeedItem -> bool): (i: int)
    ensures -1 <= i < |feed|
    ensures i >= 0 ==> p(feed[i])
    ensures forall j :: i < j < |feed| ==> !p(feed[j])
  {
    if feed == [] then -1
    else if p(feed[|feed| - 1]) then |feed| - 1
    else LastIndex(feed[..|feed| - 1], p)
  }

  /** The last item satisfying p becomes `item`; without one, `item` is appended. */
  function ReplaceLast(feed: seq<FeedItem>, p: FeedItem -> bool, item: FeedItem): seq<FeedItem> {
    var i := LastIndex(feed, p);
    if i < 0 then feed + [item] else feed[i := item]
  }

  method SettleLast(feed: seq<FeedItem>, p: FeedItem -> bool, item: FeedItem) returns (next: seq<FeedItem>)
    ensures next == ReplaceLast(feed, p, item)
  {
    next := feed;
    var index := |next| - 1;
    while index >= 0
      invariant -1 <= index < |feed| && next == feed
      invariant forall j :: index < j < |feed| ==> !p(feed[j])
    {
      if p(next[index]) {
        next := next[index := item];
        return;
      }
      index := index - 1;
    }
    next := next + [item];
  }

  /** Deltas of a finished round are folded away. */
  function CloseDeltas(feed: seq<FeedItem>): (r: seq<FeedItem>)
    ensures |r| == |feed|
    ensures forall i :: 0 <= i < |feed| ==>
              r[i] == if feed[i].DeltaCard? then feed[i].(done := true) else feed[i]
  {
    seq(|feed|, i requires 0 <= i < |feed| => if feed[i].DeltaCard? then feed[i].(done := true) else feed[i])
  }

  function PendingStep(): FeedItem -> bool {
    (item: FeedItem) => item.StepCard? && item.pending
  }

  function PendingTool(tool: string): FeedItem -> bool {
    (item: FeedItem) => item.ToolCard? && item.status.None? && item.tool == tool
  }

  /** A piece of streamed text joins the last card if that is an open card of the same stream. */
  function AddDelta(feed: seq<FeedItem>, step: nat, channel: string, toolName: Option<string>, text: string): seq<FeedItem> {
    if feed != [] && var last := feed[|feed| - 1];
       last.DeltaCard? && !last.done && last.step == step && last.channel == channel && last.toolName == toolName
    then feed[|feed| - 1 := feed[|feed| - 1].(text := feed[|feed| - 1].text + text)]
    else feed + [DeltaCard(step, channel, toolName, text, false)]
  }

  function OnAgentEvent(feed: seq<FeedItem>, e: Event): seq<FeedItem> {
    match e
    case Delta(step, channel, text, toolName) => AddDelta(feed, step, channel, toolName, text)
    case RoundStarted(step) => feed + [StepCard(step, true)]
    case RoundEnded(step) => ReplaceLast(CloseDeltas(feed), PendingStep(), StepCard(step, false))
    case ToolStarted(step, tool) => feed + [ToolCard(step, tool, None)]
    case ToolFinished(step, tool, status) => ReplaceLast(feed, PendingTool(tool), ToolCard(step, tool, Some(status)))
    case FindingAccepted(id) => feed + [FindingCard(id)]
    case FindingRejected(title, code) => feed + [RejectedCard(title, code)]
  }

  function OnEvent(feed: seq<FeedItem>, e: FeedEvent): seq<FeedItem> {
    match e
    case FromAgent(event) => OnAgentEvent(feed, event)
    case RunFinished => CloseDeltas(feed)
    case _ => feed
  }

  function Replay(events: seq<Event>): seq<FeedItem> {
    if events == [] then [] else OnAgentEvent(Replay(events[..|events| - 1]), events[|events| - 1])
  }

  /** The feed of a run: its start, its events, an error if it raised, and its end if that is reported. */
  function RunFeed(events: seq<Event>, raised: bool, ended: bool): seq<FeedItem> {
    var feed := if raised then OnEvent(Replay(events), ErrorReport) else Replay(events);
    if ended then OnEvent(feed, RunFinished) else feed
  }

  // ---- what the observer hears

  /**
   The observer is dropped at the first event that cannot be sent to it, and hears nothing more:
   how many events it hears when `sendable` says which can be sent.
   */
  function HeardCount(events: seq<Event>, sendable: nat -> bool): (n: nat)
    ensures n <= |events| && forall i :: 0 <= i < n ==> sendable(i)
    ensures n < |events| ==> !sendable(n)
  {
    if events == [] then 0
    else
      var k := |events| - 1;
      var n := HeardCount(events[..k], sendable);
      if n == k && sendable(k) then n + 1 else n
  }

  /** Events after which something waits for a later event exactly if they arrive themselves. */
  predicate Opens(e: Event) {
    e.RoundStarted? || e.ToolStarted? || e.FindingAccepted? || e.FindingRejected?
  }

  lemma {:induction false} BeginningIsWell(events: seq<Event>, n: nat)
    requires !Parse(events).Broken? && n <= |events|
    ensures !Parse(events[..n]).Broken?
    decreases |events|
  {
    var k := |events| - 1;
    if n == |events| {
      assert events[..n] == events;
    } else {
      assert events[..k][..n] == events[..n];
      BeginningIsWell(events[..k], n);
    }
  }

  /** Between two rounds or calls only such events follow that do not belong into one. */
  lemma NextOpens(events: seq<Event>, n: nat)
    requires !Parse(events).Broken? && n < |events|
    ensures !Parse(events[..n]).Broken?
    ensures Opens(events[n]) <==> Parse(events[..n]).Between? || Parse(events[..n]).Closing?
  {
    BeginningIsWell(events, n);
    BeginningIsWell(events, n + 1);
    assert events[..n + 1] == events[..n] + [events[n]];
    Append(events[..n], events[n]);
  }

  // ---- what the feed looks like while a run goes on

  /** Nothing about this card is waiting for a later event. */
  predicate Settled(item: FeedItem) {
    match item
    case StepCard(_, pending) => !pending
    case DeltaCard(_, _, _, _, done) => done
    case ToolCard(_, _, status) => status.Some?
    case _ => true
  }

  predicate AllSettled(feed: seq<FeedItem>) {
    forall i :: 0 <= i < |feed| ==> Settled(feed[i])
  }

  /** Exactly one step card is pending, and only open deltas of its step come after it. */
  predicate RoundOpen(feed: seq<FeedItem>, k: int, step: nat) {
    && 0 <= k < |feed| && feed[k] == StepCard(step, true)
    && AllSettled(feed[..k])
    && forall i :: k < i < |feed| ==> feed[i].DeltaCard? && !feed[i].done && feed[i].step == step
  }

  ghost predicate Shows(feed: seq<FeedItem>, m: Mode) {
    match m
    case Between => AllSettled(feed)
    case Closing => AllSettled(feed)
    case InRound(step) => exists k :: RoundOpen(feed, k, step)
    case InTool(step, tool) =>
      feed != [] && feed[|feed| - 1] == ToolCard(step, tool, None) && AllSettled(feed[..|feed| - 1])
    case Broken => true
  }

  /** Number of tool cards, and of step cards. */
  function ToolCards(feed: seq<FeedItem>): nat {
    if feed == [] then 0 else ToolCards(feed[..|feed| - 1]) + if feed[|feed| - 1].ToolCard? then 1 else 0
  }

  function StepCards(feed: seq<FeedItem>): nat {
    if feed == [] then 0 else StepCards(feed[..|feed| - 1]) + if feed[|feed| - 1].StepCard? then 1 else 0
  }

  /** The cards of two feeds are of the same kinds, position by position. */
  predicate SameKinds(a: seq<FeedItem>, b: seq<FeedItem>) {
    |a| == |b| && forall i :: 0 <= i < |a| ==> (a[i].ToolCard? <==> b[i].ToolCard?) && (a[i].StepCard? <==> b[i].StepCard?)
  }

  lemma {:induction false} SameKindsCountAlike(a: seq<FeedItem>, b: seq<FeedItem>)
    requires SameKinds(a, b)
    ensures ToolCards(a) == ToolCards(b) && StepCards(a) == StepCards(b)
  {
    if a != [] {
      SameKindsCountAlike(a[..|a| - 1], b[..|b| - 1]);
    }
  }

  lemma CardsOfExtension(feed: seq<FeedItem>, item: FeedItem)
    ensures ToolCards(feed + [item]) == ToolCards(feed) + if item.ToolCard? then 1 else 0
    ensures StepCards(feed + [item]) == StepCards(feed) + if item.StepCard? then 1 else 0
  {
    assert (feed + [item])[..|feed|] == feed;
  }

  /** Settling the one card that was waiting settles the feed, and adds no card. */
  lemma SettlesTheRest(feed: seq<FeedItem>, p: FeedItem -> bool, item: FeedItem, k: nat)
    requires k < |feed| && p(feed[k]) && forall j :: k < j < |feed| ==> !p(feed[j])
    requires forall i :: 0 <= i < |feed| && i != k ==> Settled(feed[i])
    requires Settled(item) && SameKinds([feed[k]], [item])
    ensures AllSettled(ReplaceLast(feed, p, item))
    ensures ToolCards(ReplaceLast(feed, p, item)) == ToolCards(feed)
    ensures StepCards(ReplaceLast(feed, p, item)) == StepCards(feed)
  {
    assert LastIndex(feed, p) == k;
    assert [feed[k]][0] == feed[k] && [item][0] == item;
    SameKindsCountAlike(feed, ReplaceLast(feed, p, item));
  }

  /** One event keeps the feed in step with the run and adds a card exactly when a call or a round begins. */
  lemma EventKeepsShowing(feed: seq<FeedItem>, m: Mode, e: Event)
    requires Shows(feed, m) && !Next(m, e).Broken?
    ensures Shows(OnAgentEvent(feed, e), Next(m, e))
    ensures ToolCards(OnAgentEvent(feed, e)) == ToolCards(feed) + if e.ToolStarted? then 1 else 0
    ensures StepCards(OnAgentEvent(feed, e)) == StepCards(feed) + if e.RoundStarted? then 1 else 0
  {
    var next := OnAgentEvent(feed, e);
    match e {
      case RoundStarted(step) =>
        CardsOfExtension(feed, StepCard(step, true));
        assert next[..|feed|] == feed;
        assert RoundOpen(next, |feed|, step);
      case Delta(step, channel, text, toolName) =>
        DeltaKeepsShowing(feed, step, channel, toolName, text);
      case RoundEnded(step) =>
        RoundEndSettles(feed, step);
      case ToolStarted(step, tool) =>
        CardsOfExtension(feed, ToolCard(step, tool, None));
        assert next[..|feed|] == feed;
      case ToolFinished(step, tool, status) =>
        CallEndSettles(feed, step, tool, status);
      case FindingAccepted(id) =>
        CardsOfExtension(feed, FindingCard(id));
      case FindingRejected(title, code) =>
        CardsOfExtension(feed, RejectedCard(title, code));
    }
  }

  lemma RoundEndSettles(feed: seq<FeedItem>, step: nat)
    requires exists k :: RoundOpen(feed, k, step)
    ensures
      var next := OnAgentEvent(feed, RoundEnded(step));
      AllSettled(next) && ToolCards(next) == ToolCards(feed) && StepCards(next) == StepCards(feed)
  {
    var k :| RoundOpen(feed, k, step);
    SameKindsCountAlike(feed, CloseDeltas(feed));
    forall i | 0 <= i < |feed| && i != k
      ensures Settled(CloseDeltas(feed)[i])
    {
      assert i < k ==> feed[i] == feed[..k][i];
    }
    SettlesTheRest(CloseDeltas(feed), PendingStep(), StepCard(step, false), k);
  }

  lemma CallEndSettles(feed: seq<FeedItem>, step: nat, tool: string, status: CallStatus)
    requires Shows(feed, InTool(step, tool))
    ensures
      var next := OnAgentEvent(feed, ToolFinished(step, tool, status));
      AllSettled(next) && ToolCards(next) == ToolCards(feed) && StepCards(next) == StepCards(feed)
  {
    var k := |feed| - 1;
    assert forall i :: 0 <= i < k ==> feed[i] == feed[..k][i];
    SettlesTheRest(feed, PendingTool(tool), ToolCard(step, tool, Some(status)), k);
  }

  lemma DeltaKeepsShowing(feed: seq<FeedItem>, step: nat, channel: string, toolName: Option<string>, text: string)
    requires exists k :: RoundOpen(feed, k, step)
    ensures exists k :: RoundOpen(AddDelta(feed, step, channel, toolName, text), k, step)
    ensures ToolCards(AddDelta(feed, step, channel, toolName, text)) == ToolCards(feed)
    ensures StepCards(AddDelta(feed, step, channel, toolName, text)) == StepCards(feed)
  {
    var k :| RoundOpen(feed, k, step);
    var next := AddDelta(feed, step, channel, toolName, text);
    assert next[..k] == feed[..k];
    assert RoundOpen(next, k, step);
    if |next| == |feed| {
      SameKindsCountAlike(feed, next);
    } else {
      CardsOfExtension(feed, next[|feed|]);
    }
  }

  lemma {:induction false} ReplayShowsTheRun(events: seq<Event>)
    requires !Parse(events).Broken?
    ensures Shows(Replay(events), Parse(events))
    ensures ToolCards(Replay(events)) == Calls(events) && StepCards(Replay(events)) == Rounds(events)
  {
    if events != [] {
      ReplayShowsTheRun(events[..|events| - 1]);
      EventKeepsShowing(Replay(events[..|events| - 1]), Parse(events[..|events| - 1]), events[|events| - 1]);
    }
  }

  /** Folding the deltas away settles a feed if and only if no step and no call was pending in it. */
  lemma ClosingSettles(feed: seq<FeedItem>, m: Mode)
    requires Shows(feed, m) && !m.Broken?
    ensures AllSettled(CloseDeltas(feed)) <==> m.Between? || m.Closing?
  {
    var final := CloseDeltas(feed);
    match m {
      case InRound(step) =>
        var k :| RoundOpen(feed, k, step);
        assert !Settled(final[k]);
      case InTool(_, _) =>
        assert !Settled(final[|feed| - 1]);
      case _ =>
    }
  }

  /**
   The feed of a finished run has one tool card per call begun and one step card per round begun,
   and nothing in it is left waiting if and only if the run did not break off inside a round or a
   call. Without the report of the end a piece of streamed text may stay open, but only in a round.
   */
  lemma FinishedFeed(events: seq<Event>, raised: bool, ended: bool)
    requires !Parse(events).Broken?
    ensures ToolCards(RunFeed(events, raised, ended)) == Calls(events)
    ensures StepCards(RunFeed(events, raised, ended)) == Rounds(events)
    ensures AllSettled(RunFeed(events, raised, ended)) <==> Parse(events).Between? || Parse(events).Closing?
    ensures ended ==> forall item :: item in RunFeed(events, raised, ended) && item.DeltaCard? ==> item.done
  {
    ReplayShowsTheRun(events);
    SameKindsCountAlike(Replay(events), CloseDeltas(Replay(events)));
    ClosingSettles(Replay(events), Parse(events));
    WaitingIsSeen(Replay(events), Parse(events));
  }

  lemma WaitingIsSeen(feed: seq<FeedItem>, m: Mode)
    requires Shows(feed, m) && !m.Broken?
    ensures AllSettled(feed) <==> m.Between? || m.Closing?
  {
    match m {
      case InRound(step) =>
        var k :| RoundOpen(feed, k, step);
        assert !Settled(feed[k]);
      case InTool(_, _) =>
        assert !Settled(feed[|feed| - 1]);
      case _ =>
    }
  }

  /**
   The same for an observer that is dropped on the way: nothing is left waiting if and only if the
   first event it misses opens something new, or it misses none and the run did not break off.
   */
  lemma HeardFeed(events: seq<Event>, n: nat, raised: bool, ended: bool)
    requires !Parse(events).Broken? && n <= |events|
    ensures ToolCards(RunFeed(events[..n], raised, ended)) == Calls(events[..n])
    ensures StepCards(RunFeed(events[..n], raised, ended)) == Rounds(events[..n])
    ensures AllSettled(RunFeed(events[..n], raised, ended)) <==>
            if n < |events| then Opens(events[n]) else Parse(events).Between? || Parse(events).Closing?
  {
    BeginningIsWell(events, n);
    FinishedFeed(events[..n], raised, ended);
    if n < |events| {
      NextOpens(events, n);
    } else {
      assert events[..n] == events;
    }
  }

  /** The events of a run that returns, whose only piece of text cannot be sent: the step card waits for ever. */
  lemma MissedEventLeavesACardWaiting(raised: bool, ended: bool)
    ensures
      var events := [RoundStarted(1), Delta(1, "reasoning", "?", None), RoundEnded(1)];
      var sendable := (i: nat) => i != 1;
      var feed := RunFeed(events[..HeardCount(events, sendable)], raised, ended);
      Parse(events).Between? && feed == [StepCard(1, true)] && !AllSettled(feed)
  {
    var start, piece, end := RoundStarted(1), Delta(1, "reasoning", "?", None), RoundEnded(1);
    var events := [start, piece, end];
    var sendable := (i: nat) => i != 1;
    assert events[..2] == [start, piece] && events[..1] == [start] && events[..0] == [];
    assert [start, piece][..1] == [start] && [start][..0] == [];
    assert Parse([start]) == InRound(1);
    assert Parse([start, piece]) == InRound(1);
    assert HeardCount([start], sendable) == 1;
    assert HeardCount([start, piece], sendable) == 1;
    assert Replay([start]) == [StepCard(1, true)];
    assert !Settled(RunFeed([start], raised, ended)[0]);
  }

  // ---- no streamed text is lost

  predicate Shown(item: FeedItem, choice: Choice) {
    item.DeltaCard? && choice(item.step, item.channel, item.toolName)
  }

  /** The text on the cards of the chosen streams, from top to bottom. */
  function TextOfFeed(feed: seq<FeedItem>, choice: Choice): string {
    if feed == [] then ""
    else TextOfFeed(feed[..|feed| - 1], choice) + if Shown(feed[|feed| - 1], choice) then feed[|feed| - 1].text else ""
  }

  lemma TextOfExtension(feed: seq<FeedItem>, item: FeedItem, choice: Choice)
    ensures TextOfFeed(feed + [item], choice) == TextOfFeed(feed, choice) + if Shown(item, choice) then item.text else ""
  {
    assert (feed + [item])[..|feed|] == feed;
  }

  predicate SameText(a: FeedItem, b: FeedItem) {
    && (a.DeltaCard? <==> b.DeltaCard?)
    && (a.DeltaCard? ==> a.step == b.step && a.channel == b.channel && a.toolName == b.toolName && a.text == b.text)
  }

  /** Feeds whose delta cards carry the same texts at the same places. */
  predicate SameTexts(a: seq<FeedItem>, b: seq<FeedItem>) {
    |a| == |b| && forall i :: 0 <= i < |a| ==> SameText(a[i], b[i])
  }

  lemma {:induction false} SameTextsReadAlike(a: seq<FeedItem>, b: seq<FeedItem>, choice: Choice)
    requires SameTexts(a, b)
    ensures TextOfFeed(a, choice) == TextOfFeed(b, choice)
  {
    if a != [] {
      SameTextsReadAlike(a[..|a| - 1], b[..|b| - 1], choice);
    }
  }

  lemma EventKeepsText(feed: seq<FeedItem>, e: Event, choice: Choice)
    ensures TextOfFeed(OnAgentEvent(feed, e), choice) == TextOfFeed(feed, choice) + if Chosen(e, choice) then e.text else ""
  {
    var next := OnAgentEvent(feed, e);
    if |next| == |feed| + 1 {
      TextOfNew(feed, e, choice);
    } else if e.Delta? {
      var init, last := feed[..|feed| - 1], feed[|feed| - 1];
      assert next[..|feed| - 1] == init;
      assert TextOfFeed(init, choice) + (last.text + e.text) == TextOfFeed(init, choice) + last.text + e.text;
    } else {
      assert SameTexts(feed, next);
      SameTextsReadAlike(feed, next, choice);
    }
  }

  lemma TextOfNew(feed: seq<FeedItem>, e: Event, choice: Choice)
    requires |OnAgentEvent(feed, e)| == |feed| + 1
    ensures TextOfFeed(OnAgentEvent(feed, e), choice) == TextOfFeed(feed, choice) + if Chosen(e, choice) then e.text else ""
  {
    var next := OnAgentEvent(feed, e);
    if e.RoundEnded? {
      SameTextsReadAlike(feed, CloseDeltas(feed), choice);
      TextOfExtension(CloseDeltas(feed), next[|feed|], choice);
    } else {
      assert next == feed + [next[|feed|]];
      TextOfExtension(feed, next[|feed|], choice);
    }
  }

  /**
   For every trace and any choice of streams, by step, channel and tool, the text on their cards is the
   text streamed in them: nothing is lost, and nothing gets under another step, channel or tool.
   */
  lemma {:induction false} NoTextIsLost(events: seq<Event>, choice: Choice)
    ensures TextOfFeed(Replay(events), choice) == Speech(Streamed(events), choice)
  {
    if events != [] {
      var init, last := events[..|events| - 1], events[|events| - 1];
      NoTextIsLost(init, choice);
      EventKeepsText(Replay(init), last, choice);
      SpeechOfMore(Streamed(init), last, choice);
    }
  }

  lemma {:induction false} BeginningStreamsLess(events: seq<Event>, n: nat)
    requires n <= |events|
    ensures Streamed(events[..n]) <= Streamed(events)
    decreases |events|
  {
    if n == |events| {
      assert events[..n] == events;
    } else {
      assert events[..|events| - 1][..n] == events[..n];
      BeginningStreamsLess(events[..|events| - 1], n);
    }
  }

  // ---- the other cards

  /** The cards that are not about streamed text. */
  function Cards(feed: seq<FeedItem>): seq<FeedItem> {
    if feed == [] then []
    else Cards(feed[..|feed| - 1]) + if feed[|feed| - 1].DeltaCard? then [] else [feed[|feed| - 1]]
  }

  /** The card opened last, closed. */
  function ClosedLast(cards: seq<FeedItem>, outcome: Option<CallStatus>): seq<FeedItem> {
    if cards == [] then []
    else
      var k := |cards| - 1;
      match cards[k]
      case StepCard(step, _) => cards[k := StepCard(step, false)]
      case ToolCard(step, tool, _) => cards[k := ToolCard(step, tool, outcome)]
      case _ => cards
  }

  /** One card for each thing begun or found; whatever ends was begun last. */
  function Expected(events: seq<Event>): seq<FeedItem> {
    if events == [] then []
    else
      var before := Expected(events[..|events| - 1]);
      match events[|events| - 1]
      case RoundStarted(step) => before + [StepCard(step, true)]
      case ToolStarted(step, tool) => before + [ToolCard(step, tool, None)]
      case RoundEnded(_) => ClosedLast(before, None)
      case ToolFinished(_, _, status) => ClosedLast(before, Some(status))
      case FindingAccepted(id) => before + [FindingCard(id)]
      case FindingRejected(title, code) => before + [RejectedCard(title, code)]
      case Delta(_, _, _, _) => before
  }

  lemma CardsOfMore(feed: seq<FeedItem>, item: FeedItem)
    ensures Cards(feed + [item]) == Cards(feed) + if item.DeltaCard? then [] else [item]
  {
    assert (feed + [item])[..|feed|] == feed;
  }

  /** The same cards at the same places, texts and foldings aside. */
  predicate SameCards(a: seq<FeedItem>, b: seq<FeedItem>) {
    |a| == |b| && forall i :: 0 <= i < |a| ==> if a[i].DeltaCard? then b[i].DeltaCard? else a[i] == b[i]
  }

  lemma {:induction false} SameCardsAlike(a: seq<FeedItem>, b: seq<FeedItem>)
    requires SameCards(a, b)
    ensures Cards(a) == Cards(b)
  {
    if a != [] {
      SameCardsAlike(a[..|a| - 1], b[..|b| - 1]);
    }
  }

  /** When only streamed text follows it, the last other card stands in front of that text. */
  lemma {:induction false} LastCard(feed: seq<FeedItem>, k: nat, item: FeedItem)
    requires k < |feed| && !feed[k].DeltaCard? && !item.DeltaCard? && forall i :: k < i < |feed| ==> feed[i].DeltaCard?
    ensures Cards(feed) == Cards(feed[..k]) + [feed[k]]
    ensures Cards(feed[k := item]) == Cards(feed[..k]) + [item]
    decreases |feed|
  {
    var n := |feed| - 1;
    if k < n {
      LastCard(feed[..n], k, item);
      assert feed[..n][..k] == feed[..k];
      assert feed[k := item][..n] == feed[..n][k := item];
    } else {
      assert feed[k := item][..n] == feed[..n];
    }
  }

  lemma EventKeepsCards(feed: seq<FeedItem>, m: Mode, e: Event, cards: seq<FeedItem>)
    requires Shows(feed, m) && !Next(m, e).Broken? && Cards(feed) == cards
    ensures Cards(OnAgentEvent(feed, e)) ==
            match e
            case RoundStarted(step) => cards + [StepCard(step, true)]
            case ToolStarted(step, tool) => cards + [ToolCard(step, tool, None)]
            case RoundEnded(_) => ClosedLast(cards, None)
            case ToolFinished(_, _, status) => ClosedLast(cards, Some(status))
            case FindingAccepted(id) => cards + [FindingCard(id)]
            case FindingRejected(title, code) => cards + [RejectedCard(title, code)]
            case Delta(_, _, _, _) => cards
  {
    var next := OnAgentEvent(feed, e);
    match e {
      case RoundEnded(step) =>
        RoundEndsCard(feed, step);
      case ToolFinished(step, tool, status) =>
        CallEndsCard(feed, step, tool, status);
      case Delta(step, channel, text, toolName) =>
        if |next| == |feed| {
          SameCardsAlike(feed, next);
        } else {
          CardsOfMore(feed, next[|feed|]);
        }
      case _ =>
        CardsOfMore(feed, next[|feed|]);
    }
  }

  lemma RoundEndsCard(feed: seq<FeedItem>, step: nat)
    requires exists k :: RoundOpen(feed, k, step)
    ensures Cards(OnAgentEvent(feed, RoundEnded(step))) == ClosedLast(Cards(feed), None)
  {
    var k :| RoundOpen(feed, k, step);
    var folded := CloseDeltas(feed);
    SameCardsAlike(feed, folded);
    LastCard(folded, k, StepCard(step, false));
    assert LastIndex(folded, PendingStep()) == k;
  }

  lemma CallEndsCard(feed: seq<FeedItem>, step: nat, tool: string, status: CallStatus)
    requires Shows(feed, InTool(step, tool))
    ensures Cards(OnAgentEvent(feed, ToolFinished(step, tool, status))) == ClosedLast(Cards(feed), Some(status))
  {
    var k := |feed| - 1;
    LastCard(feed, k, ToolCard(step, tool, Some(status)));
    assert LastIndex(feed, PendingTool(tool)) == k;
  }

  predicate Waits(item: FeedItem, tool: string) {
    item.ToolCard? && item.tool == tool && item.status == None
  }

  /** In any feed, the end of a call goes to the last waiting card of its tool, or else gets a card of its own. */
  lemma CallEndFindsItsCard(feed: seq<FeedItem>, step: nat, tool: string, status: CallStatus)
    ensures
      var next, card := OnAgentEvent(feed, ToolFinished(step, tool, status)), ToolCard(step, tool, Some(status));
      if forall i :: 0 <= i < |feed| ==> !Waits(feed[i], tool) then next == feed + [card]
      else exists i :: 0 <= i < |feed| && Waits(feed[i], tool) && (forall j :: i < j < |feed| ==> !Waits(feed[j], tool))
                       && next == feed[i := card]
  {
    var i := LastIndex(feed, PendingTool(tool));
    if i < 0 {
      forall j | 0 <= j < |feed| ensures !Waits(feed[j], tool) {
        assert !PendingTool(tool)(feed[j]);
      }
    } else {
      assert Waits(feed[i], tool);
      forall j | i < j < |feed| ensures !Waits(feed[j], tool) {
        assert !PendingTool(tool)(feed[j]);
      }
    }
  }

  /**
   For every well-formed trace the cards are those expected: each call and each round has its card, with
   the outcome of its own end, and each finding has its own, in the order of the events.
   */
  lemma {:induction false} CardsAreExpected(events: seq<Event>)
    requires !Parse(events).Broken?
    ensures Cards(Replay(events)) == Expected(events)
  {
    if events != [] {
      var init, last := events[..|events| - 1], events[|events| - 1];
      CardsAreExpected(init);
      ReplayShowsTheRun(init);
      EventKeepsCards(Replay(init), Parse(init), last, Expected(init));
    }
  }

  /** The same of what the desktop shows of a run, whatever of it was heard. */
  lemma CardsOfHeard(events: seq<Event>, n: nat, raised: bool, ended: bool)
    requires !Parse(events).Broken? && n <= |events|
    ensures Cards(RunFeed(events[..n], raised, ended)) == Expected(events[..n])
  {
    BeginningIsWell(events, n);
    CardsAreExpected(events[..n]);
    SameCardsAlike(Replay(events[..n]), CloseDeltas(Replay(events[..n])));
  }
}
