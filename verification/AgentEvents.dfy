/** What an agent run tells its observer, and the grammar those events follow. */
module AgentEvents {
  import opened Options

  datatype CallStatus = Ok | Failed | InvalidArgs | Preloaded

  datatype Event =
    | RoundStarted(step: nat)
    | Delta(step: nat, channel: string, text: string, toolName: Option<string>)
    | RoundEnded(step: nat)
    | ToolStarted(step: nat, tool: string)
    | ToolFinished(step: nat, tool: string, status: CallStatus)
    | FindingAccepted(id: string)
    | FindingRejected(title: string, code: string)

  /** Where a run stands after the events so far. */
  datatype Mode =
    | Between
    | InRound(step: nat)
    | InTool(step: nat, tool: string)
    | Closing
    | Broken

  function Next(m: Mode, e: Event): Mode {
    match (m, e)
    case (Between, RoundStarted(n)) => InRound(n)
    case (Between, ToolStarted(n, tool)) => InTool(n, tool)
    case (InRound(n), Delta(k, _, _, _)) => if k == n then m else Broken
    case (InRound(n), RoundEnded(k)) => if k == n then Between else Broken
    case (InTool(n, tool), ToolFinished(k, done, _)) => if k == n && done == tool then Between else Broken
    case (Between, FindingAccepted(_)) => Closing
    case (Between, FindingRejected(_, _)) => Closing
    case (Closing, FindingAccepted(_)) => Closing
    case (Closing, FindingRejected(_, _)) => Closing
    case _ => Broken
  }

  /** `Broken` unless the events are well bracketed so far. */
  function Parse(events: seq<Event>): Mode {
    if events == [] then Between else Next(Parse(events[..|events| - 1]), events[|events| - 1])
  }

  /** Model rounds begun. */
  function Rounds(events: seq<Event>): nat {
    if events == [] then 0
    else Rounds(events[..|events| - 1]) + if events[|events| - 1].RoundStarted? then 1 else 0
  }

  /** Tool calls begun. */
  function Calls(events: seq<Event>): nat {
    if events == [] then 0
    else Calls(events[..|events| - 1]) + if events[|events| - 1].ToolStarted? then 1 else 0
  }

  /** The pieces streamed by the model, in order. */
  function Streamed(events: seq<Event>): seq<Event> {
    if events == [] then []
    else
      var n := |events| - 1;
      if events[n].Delta? then Streamed(events[..n]) + [events[n]] else Streamed(events[..n])
  }

  predicate Says(events: seq<Event>, pieces: seq<Event>) {
    Streamed(events) == pieces
  }

  /** Whatever the one streams, the other streams. */
  ghost predicate SayAlike(a: seq<Event>, b: seq<Event>) {
    forall pieces :: Says(a, pieces) <==> Says(b, pieces)
  }

  /** A choice among the streams of a run: by step, channel and tool. */
  type Choice = (nat, string, Option<string>) -> bool

  predicate Chosen(e: Event, choice: Choice) {
    e.Delta? && choice(e.step, e.channel, e.toolName)
  }

  /** The text of those streamed pieces that belong to the chosen streams. */
  function Speech(pieces: seq<Event>, choice: Choice): string {
    if pieces == [] then ""
    else
      var last := pieces[|pieces| - 1];
      Speech(pieces[..|pieces| - 1], choice) + if Chosen(last, choice) then last.text else ""
  }

  lemma SpeechOfMore(pieces: seq<Event>, e: Event, choice: Choice)
    ensures Speech(pieces + [e], choice) == Speech(pieces, choice) + if Chosen(e, choice) then e.text else ""
  {
    assert (pieces + [e])[..|pieces|] == pieces;
  }

  lemma {:induction false} SpeechOfBeginning(pieces: seq<Event>, n: nat, choice: Choice)
    requires n <= |pieces|
    ensures Speech(pieces[..n], choice) <= Speech(pieces, choice)
    decreases |pieces|
  {
    if n == |pieces| {
      assert pieces[..n] == pieces;
    } else {
      assert pieces[..|pieces| - 1][..n] == pieces[..n];
      SpeechOfBeginning(pieces[..|pieces| - 1], n, choice);
    }
  }

  /** The ends of the tool calls, in order. */
  function Finished(events: seq<Event>): seq<Event> {
    if events == [] then []
    else
      var n := |events| - 1;
      if events[n].ToolFinished? then Finished(events[..n]) + [events[n]] else Finished(events[..n])
  }

  predicate Ends(events: seq<Event>, ends: seq<Event>) {
    Finished(events) == ends
  }

  /** Whatever calls the one ends, the other ends. */
  ghost predicate EndAlike(a: seq<Event>, b: seq<Event>) {
    forall ends :: Ends(a, ends) <==> Ends(b, ends)
  }

  lemma Append(events: seq<Event>, e: Event)
    ensures Parse(events + [e]) == Next(Parse(events), e)
    ensures Rounds(events + [e]) == Rounds(events) + if e.RoundStarted? then 1 else 0
    ensures Calls(events + [e]) == Calls(events) + if e.ToolStarted? then 1 else 0
    ensures if e.Delta? then Streamed(events + [e]) == Streamed(events) + [e] else SayAlike(events, events + [e])
    ensures if e.ToolFinished? then Finished(events + [e]) == Finished(events) + [e] else EndAlike(events, events + [e])
  {
    assert (events + [e])[..|events|] == events;
  }

  predicate AboutFindings(events: seq<Event>) {
    forall i :: 0 <= i < |events| ==> events[i].FindingAccepted? || events[i].FindingRejected?
  }

  /** Reports about findings close a run that stood between rounds; they start nothing. */
  lemma {:induction false} AppendFindings(events: seq<Event>, more: seq<Event>)
    requires Parse(events).Between? && AboutFindings(more)
    ensures Parse(events + more) == if more == [] then Between else Closing
    ensures Rounds(events + more) == Rounds(events) && Calls(events + more) == Calls(events)
    ensures SayAlike(events, events + more) && EndAlike(events, events + more)
  {
    if more == [] {
      assert events + more == events;
    } else {
      var init, last := more[..|more| - 1], more[|more| - 1];
      AppendFindings(events, init);
      Append(events + init, last);
      assert events + more == events + init + [last];
    }
  }

  /** What was said about findings. */
  function Reports(events: seq<Event>): seq<Event> {
    if events == [] then []
    else
      var n := |events| - 1;
      Reports(events[..n]) + if events[n].FindingAccepted? || events[n].FindingRejected? then [events[n]] else []
  }

  /** Until the run is closing nothing is said about findings. */
  lemma {:induction false} NothingReported(events: seq<Event>)
    requires !Parse(events).Broken? && !Parse(events).Closing?
    ensures Reports(events) == []
  {
    if events != [] {
      NothingReported(events[..|events| - 1]);
    }
  }

  lemma ReportsOfOne(events: seq<Event>, e: Event)
    requires e.FindingAccepted? || e.FindingRejected?
    ensures Reports(events + [e]) == Reports(events) + [e]
  {
    assert (events + [e])[..|events|] == events;
  }

  lemma Joined(a: seq<Event>, b: seq<Event>, c: seq<Event>)
    ensures a + (b + c) == a + b + c
  {
  }

  lemma {:induction false} ReportsOfMore(events: seq<Event>, more: seq<Event>)
    requires AboutFindings(more)
    ensures Reports(events + more) == Reports(events) + more
    decreases |more|
  {
    if more == [] {
      assert events + more == events;
      assert Reports(events) + more == Reports(events);
    } else {
      var init, last := more[..|more| - 1], more[|more| - 1];
      assert more == init + [last];
      Joined(events, init, [last]);
      Joined(Reports(events), init, [last]);
      ReportsOfMore(events, init);
      ReportsOfOne(events + init, last);
    }
  }
}
