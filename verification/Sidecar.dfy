/**
 The desktop sidecar as an interleaved transition system.

 Two kinds of threads share one `Sidecar`: the command loop and one runner per run.
 Every access to shared state (the output lock, `_active`, `done`) is one step, so an
 execution is any sequence of enabled steps.  Clocks, the engine and the provider appear
 only as the choice of the next step.

 An event takes its number before its payload is measured, and measuring raises when the
 payload has no UTF-8 encoding; then the number is used up and nothing is written.
 */
module Sidecar {
  import opened Options

  const PROTOCOL_VERSION := 1

  /** Run ids are fresh random values; here any integer not used before. */
  type RunId = int

  /** Code points; JSON escapes can bring in lone surrogates, which no encoding has. */
  type Text = seq<int>

  predicate Surrogate(c: int) {
    0xD800 <= c <= 0xDFFF
  }

  predicate Encodable(t: Text) {
    forall i :: 0 <= i < |t| ==> !Surrogate(t[i])
  }

  /** What the output stream makes of a text: it replaces what it cannot encode by question marks. */
  function Shown(t: Text): (r: Text)
    ensures |r| == |t| && (r == t <==> Encodable(t))
  {
    var r := seq(|t|, i requires 0 <= i < |t| => if Surrogate(t[i]) then 0x3F else t[i]);
    assert forall i :: 0 <= i < |t| && Surrogate(t[i]) ==> r[i] != t[i];
    r
  }

  /**
   What an event carries: all strings in it, and whether it can be written otherwise (it is not nested
   too deeply, and the output stream takes it).
   */
  datatype Payload = Payload(text: Text, writable: bool)

  predicate Sendable(p: Payload) {
    Encodable(p.text) && p.writable
  }

  /** What one line of stdin turns out to be. */
  datatype Frame =
    | Oversized
    | NotJson
    | NotObject
    /** Nested so deeply that the parser raises something other than `ValueError`. */
    | TooDeep
    | Request(id: Text, isCmd: bool, command: Command)
  {
    /** The id an ack for this frame carries; unreadable frames are acked with an empty id. */
    function AckId(): Text {
      if Request? then id else []
    }
  }

  datatype Command =
    | Hello(version: int)
    | Run
    | Chat
    | Report
    | Cancel(target: RunId)
    | Status(answers: bool)
    | Shutdown
    | Unknown

  datatype EventName = Welcome | ReportWritten | RunStarted | Progress(hook: nat) | Error | RunFinished

  /** One line of stdout; an event outside any run has no run id. */
  datatype Line =
    | Ack(id: Text, ok: bool)
    | Event(run: Option<RunId>, name: EventName, number: nat)

  /** How far a run has come; an `Orphan` never got its thread, and the thread of a `Dead` run died in its last words. */
  datatype Phase = Registered | Acked | Announced | Running | Failing | Finished | Cleared | Done | Orphan | Dead

  /** `taken` numbers were handed out, `written` of them to lines that were written. */
  datatype RunState = RunState(taken: nat, written: nat, observed: bool, phase: Phase)

  /** Where the command loop stands inside the frame it is handling. */
  datatype Control =
    | Ready
    | Welcoming(id: Text)
    | Reporting(id: Text)
    | ReportAcked(id: Text)
    | Starting(id: Text)
    | Looked(id: Text, seen: Option<RunId>)
    | Admitted(id: Text)
    | Launching(id: Text, run: RunId)
    | Stopped
    | Crashed

  /** A frame whose handling is over, and the acks written meanwhile. */
  datatype Handled = Handled(id: Text, acks: seq<Text>)

  datatype State = State(
    welcomed: bool,
    fatal: bool,
    active: Option<RunId>,
    runs: map<RunId, RunState>,
    cancelled: set<RunId>,
    pc: Control,
    sessionSeq: nat,
    sessionLost: nat,
    out: seq<Line>,
    acks: seq<Text>,
    handled: seq<Handled>)

  const Init := State(false, false, None, map[], {}, Ready, 0, 0, [], [], [])

  datatype Step =
    // command loop
    | Receive(frame: Frame)
    | EmitWelcome(payload: Payload)
    | Decline
    | AckReport
    | EmitReport(payload: Payload)
    | LookActive
    | TestBusy
    | Register(created: RunId)
    | AckStart
    | EmitStarted(payload: Payload)
    | StartThread
    | ThreadFails
    // runner of one run
    | EmitProgress(run: RunId, hook: nat, payload: Payload)
    | HookRaises(run: RunId)
    | EmitError(run: RunId, payload: Payload)
    | EmitFinished(run: RunId, payload: Payload)
    | RunnerDies(run: RunId)
    | ClearActive(run: RunId)
    | SetDone(run: RunId)

  // ---- the effect of single operations

  function Reply(s: State, id: Text, ok: bool): State {
    s.(out := s.out + [Ack(Shown(id), ok)], acks := s.acks + [Shown(id)])
  }

  /** The handling of a frame is over. */
  function EndFrame(s: State, id: Text, pc: Control): State {
    s.(pc := pc, handled := s.handled + [Handled(id, s.acks)], acks := [])
  }

  /** Ends the handling of a frame with one last ack. */
  function Close(s: State, id: Text, ok: bool): State {
    EndFrame(Reply(s, id, ok), id, Ready)
  }

  /** The last event of a frame; when it raises, the frame is acked once more, as failed. */
  function EmitSession(s: State, name: EventName, id: Text, payload: Payload): State {
    var n := s.sessionSeq + 1;
    if Sendable(payload) then EndFrame(s.(sessionSeq := n, out := s.out + [Event(None, name, n)]), id, Ready)
    else Close(s.(sessionSeq := n, sessionLost := s.sessionLost + 1), id, false)
  }

  /** The run takes a number; the line is written unless the payload cannot be sent. */
  function EmitRun(s: State, r: RunId, name: EventName, payload: Payload, written: Phase, raised: Phase): State
    requires r in s.runs
  {
    var run := s.runs[r];
    var n := run.taken + 1;
    if Sendable(payload)
    then s.(runs := s.runs[r := RunState(n, run.written + 1, run.observed, written)], out := s.out + [Event(Some(r), name, n)])
    else s.(runs := s.runs[r := RunState(n, run.written, false, raised)])
  }

  function SetPhase(s: State, r: RunId, phase: Phase): State
    requires r in s.runs
  {
    s.(runs := s.runs[r := s.runs[r].(phase := phase)])
  }

  /** `active is not None and not active.done.is_set()` for the run read earlier. */
  predicate Busy(s: State, seen: Option<RunId>) {
    seen.Some? && seen.value in s.runs && s.runs[seen.value].phase != Done
  }

  /** The gate in front of the handler table: fatal handshake, unknown command, missing hello. */
  predicate Refused(s: State, f: Frame) {
    || !f.Request?
    || !f.isCmd
    || (s.fatal && !f.command.Hello? && !f.command.Shutdown?)
    || f.command.Unknown?
    || (!s.welcomed && !f.command.Hello? && !f.command.Shutdown?)
  }

  function HandleFrame(s: State, f: Frame): State {
    var id := f.AckId();
    if f.TooDeep? then EndFrame(s, id, Crashed)
    else if Refused(s, f) then Close(s, id, false)
    else Obey(s, id, f.command)
  }

  /** The handler of a command that passed the gate. */
  function Obey(s: State, id: Text, command: Command): State {
    match command
    case Hello(version) =>
      if version != PROTOCOL_VERSION then Close(s.(fatal := true), id, false)
      else Reply(s.(welcomed := true, pc := Welcoming(id)), id, true)
    case Run => s.(pc := Starting(id))
    case Chat => s.(pc := Starting(id))
    case Report => s.(pc := Reporting(id))
    case Cancel(target) =>
      var hit := Busy(s, s.active) && s.active.value == target;
      Close(s.(cancelled := if hit then s.cancelled + {target} else s.cancelled), id, true)
    case Status(answers) => Close(s, id, answers)
    case Shutdown => EndFrame(Reply(s, id, true), id, Stopped)
    case Unknown => Close(s, id, false)
  }

  predicate InPhase(s: State, r: RunId, phase: Phase) {
    r in s.runs && s.runs[r].phase == phase
  }

  predicate LaunchAt(s: State, phase: Phase) {
    s.pc.Launching? && InPhase(s, s.pc.run, phase)
  }

  predicate Enabled(s: State, step: Step) {
    match step
    case Receive(_) => s.pc.Ready?
    case EmitWelcome(_) => s.pc.Welcoming?
    // provider not configured, missing parameters, unknown task, agent not built, report failed
    case Decline => s.pc.Starting? || s.pc.Admitted? || s.pc.Reporting?
    case AckReport => s.pc.Reporting?
    case EmitReport(_) => s.pc.ReportAcked?
    case LookActive => s.pc.Starting?
    case TestBusy => s.pc.Looked?
    case Register(created) => s.pc.Admitted? && created !in s.runs
    case AckStart => LaunchAt(s, Registered)
    case EmitStarted(_) => LaunchAt(s, Acked)
    case StartThread => LaunchAt(s, Announced)
    case ThreadFails => LaunchAt(s, Announced)
    // an observer that raised once is not called again
    case EmitProgress(r, _, _) => InPhase(s, r, Running) && s.runs[r].observed
    case HookRaises(r) => InPhase(s, r, Running) && s.runs[r].observed
    case EmitError(r, _) => InPhase(s, r, Running)
    case EmitFinished(r, _) => InPhase(s, r, Running) || InPhase(s, r, Failing)
    // saving the conversation or building the last payload raises
    case RunnerDies(r) => InPhase(s, r, Running) || InPhase(s, r, Failing)
    case ClearActive(r) => InPhase(s, r, Finished)
    case SetDone(r) => InPhase(s, r, Cleared)
  }

  function Apply(s: State, step: Step): State
    requires Enabled(s, step)
  {
    if step.Receive? then HandleFrame(s, step.frame)
    else if OfRunner(step) then ApplyRunner(s, step)
    else ApplyCommand(s, step)
  }

  /** True for the moves of a runner thread. */
  predicate OfRunner(step: Step) {
    || step.EmitProgress? || step.HookRaises? || step.EmitError? || step.EmitFinished? || step.RunnerDies?
    || step.ClearActive? || step.SetDone?
  }

  /** One move of the command loop inside the frame it is handling. */
  function ApplyCommand(s: State, step: Step): State
    requires Enabled(s, step) && !OfRunner(step) && !step.Receive?
  {
    match step
    case EmitWelcome(payload) => EmitSession(s, Welcome, s.pc.id, payload)
    case Decline => Close(s, s.pc.id, false)
    case AckReport => Reply(s.(pc := ReportAcked(s.pc.id)), s.pc.id, true)
    case EmitReport(payload) => EmitSession(s, ReportWritten, s.pc.id, payload)
    case LookActive => s.(pc := Looked(s.pc.id, s.active))
    case TestBusy =>
      if Busy(s, s.pc.seen) then Close(s, s.pc.id, false) else s.(pc := Admitted(s.pc.id))
    case Register(created) =>
      s.(pc := Launching(s.pc.id, created), active := Some(created),
         runs := s.runs[created := RunState(0, 0, true, Registered)])
    case AckStart => Reply(SetPhase(s, s.pc.run, Acked), s.pc.id, true)
    case EmitStarted(payload) =>
      var t := EmitRun(s, s.pc.run, RunStarted, payload, Announced, Orphan);
      if Sendable(payload) then t else Close(t, s.pc.id, false)
    case StartThread => EndFrame(SetPhase(s, s.pc.run, Running), s.pc.id, Ready)
    case ThreadFails => Close(SetPhase(s, s.pc.run, Orphan), s.pc.id, false)
  }

  /** One move of the runner thread of `step.run`. */
  function ApplyRunner(s: State, step: Step): State
    requires Enabled(s, step) && OfRunner(step)
  {
    match step
    case EmitProgress(r, hook, payload) => EmitRun(s, r, Progress(hook), payload, Running, Running)
    case HookRaises(r) => s.(runs := s.runs[r := s.runs[r].(observed := false)])
    case EmitError(r, payload) => EmitRun(s, r, Error, payload, Failing, Dead)
    case EmitFinished(r, payload) => EmitRun(s, r, RunFinished, payload, Finished, Dead)
    case RunnerDies(r) => SetPhase(s, r, Dead)
    case ClearActive(r) =>
      SetPhase(s, r, Cleared).(active := if s.active == Some(r) then None else s.active)
    case SetDone(r) => SetPhase(s, r, Done)
  }

  /** `to` can be reached from `from` by the given steps, each enabled when it is taken. */
  ghost predicate Execution(from: State, steps: seq<Step>, to: State)
    decreases |steps|
  {
    if steps == [] then from == to
    else Enabled(from, steps[0]) && Execution(Apply(from, steps[0]), steps[1..], to)
  }

  lemma Then(from: State, step: Step, rest: seq<Step>, to: State)
    requires Enabled(from, step) && Execution(Apply(from, step), rest, to)
    ensures Execution(from, [step] + rest, to)
  {
    assert ([step] + rest)[1..] == rest;
  }

  // ---- views of the output

  /** The lines of one run, in output order. */
  function RunLines(out: seq<Line>, r: RunId): seq<Line> {
    if out == [] then []
    else
      var last := out[|out| - 1];
      RunLines(out[..|out| - 1], r) + if last.Event? && last.run == Some(r) then [last] else []
  }

  /** The run ids of all event lines that belong to some run, in output order. */
  function RunIds(out: seq<Line>): seq<RunId> {
    if out == [] then []
    else
      var last := out[|out| - 1];
      RunIds(out[..|out| - 1]) + if last.Event? && last.run.Some? then [last.run.value] else []
  }

  function SessionSeqs(out: seq<Line>): seq<nat> {
    if out == [] then []
    else
      var last := out[|out| - 1];
      SessionSeqs(out[..|out| - 1]) + if last.Event? && last.run.None? then [last.number] else []
  }

  function AckIds(out: seq<Line>): seq<Text> {
    if out == [] then []
    else
      var last := out[|out| - 1];
      AckIds(out[..|out| - 1]) + if last.Ack? then [last.id] else []
  }

  function OkAcks(out: seq<Line>): nat {
    if out == [] then 0
    else
      var last := out[|out| - 1];
      OkAcks(out[..|out| - 1]) + if last.Ack? && last.ok then 1 else 0
  }

  /** All acks of the handled frames, frame by frame. */
  function AcksOf(handled: seq<Handled>): seq<Text> {
    if handled == [] then [] else AcksOf(handled[..|handled| - 1]) + handled[|handled| - 1].acks
  }

  lemma Extend(out: seq<Line>, l: Line)
    ensures forall r :: RunLines(out + [l], r) ==
                        RunLines(out, r) + (if l.Event? && l.run == Some(r) then [l] else [])
    ensures RunIds(out + [l]) == RunIds(out) + (if l.Event? && l.run.Some? then [l.run.value] else [])
    ensures SessionSeqs(out + [l]) == SessionSeqs(out) + (if l.Event? && l.run.None? then [l.number] else [])
    ensures AckIds(out + [l]) == AckIds(out) + (if l.Ack? then [l.id] else [])
    ensures OkAcks(out + [l]) == OkAcks(out) + (if l.Ack? && l.ok then 1 else 0)
  {
    assert (out + [l])[..|out|] == out;
  }

  lemma ExtendAcks(handled: seq<Handled>, h: Handled)
    ensures AcksOf(handled + [h]) == AcksOf(handled) + h.acks
  {
    assert (handled + [h])[..|handled|] == handled;
  }

  // ---- the invariant

  /** A run holds the stage from its registration until its runner cleared `_active`. */
  predicate Live(s: State, r: RunId) {
    r in s.runs && s.runs[r].phase != Cleared && s.runs[r].phase != Done
  }

  ghost predicate MutualExclusion(s: State) {
    && (forall r :: Live(s, r) ==> s.active == Some(r))
    && (s.active.Some? ==> s.active.value in s.runs)
    && (s.pc.Looked? ==> s.active == s.pc.seen || s.active.None?)
    && (s.pc.Looked? && s.pc.seen.Some? ==> s.pc.seen.value in s.runs)
    && (s.pc.Admitted? ==> forall r :: !Live(s, r))
    && (forall r :: r in s.runs && s.runs[r].phase in {Registered, Acked, Announced}
                    ==> s.pc.Launching? && s.pc.run == r)
    && (s.pc.Launching? ==>
          s.pc.run in s.runs && s.runs[s.pc.run].phase in {Registered, Acked, Announced})
  }

  /** Numbers grow from line to line, within 1 and the highest number taken. */
  predicate Ascending(numbers: seq<nat>, top: nat) {
    && (forall i :: 0 <= i < |numbers| ==> 1 <= numbers[i] <= top)
    && (forall i, j :: 0 <= i < j < |numbers| ==> numbers[i] < numbers[j])
  }

  function Numbers(lines: seq<Line>): (r: seq<nat>)
    requires forall i :: 0 <= i < |lines| ==> lines[i].Event?
    ensures |r| == |lines|
  {
    seq(|lines|, i requires 0 <= i < |lines| => lines[i].number)
  }

  predicate Over(phase: Phase) {
    phase in {Finished, Cleared, Done}
  }

  /** Which names the lines of a run have, in which order, when it stands in a phase. */
  predicate Shape(lines: seq<Line>, phase: Phase) {
    && (forall i :: 0 <= i < |lines| ==> lines[i].Event?)
    && (phase in {Registered, Acked} ==> lines == [])
    && (lines == [] ==> phase in {Registered, Acked, Orphan})
    && (phase in {Announced, Orphan} ==> |lines| <= 1)
    && (lines != [] ==> lines[0].name == RunStarted)
    && (forall i :: 1 <= i < |lines| ==> !lines[i].name.RunStarted?)
    && (forall i :: 0 <= i < |lines| - 1 ==> !lines[i].name.RunFinished?)
    && (Over(phase) <==> lines != [] && lines[|lines| - 1].name.RunFinished?)
    && (phase == Failing ==> |lines| > 1 && lines[|lines| - 1].name.Error?)
    && (forall i :: 0 <= i < |lines| && lines[i].name.Error? ==>
          if phase in {Failing, Dead} then i == |lines| - 1 else i == |lines| - 2 && Over(phase))
  }

  predicate Transcript(lines: seq<Line>, r: RunId, run: RunState) {
    && Shape(lines, run.phase)
    && (forall i :: 0 <= i < |lines| ==> lines[i].run == Some(r))
    && |lines| == run.written
    && Ascending(Numbers(lines), run.taken)
    && (Over(run.phase) ==> lines != [] && lines[|lines| - 1].number == run.taken)
  }

  ghost predicate Transcripts(s: State) {
    && (forall r :: r in s.runs ==> Transcript(RunLines(s.out, r), r, s.runs[r]))
    && (forall r :: r !in s.runs ==> RunLines(s.out, r) == [])
  }

  /** No id comes back after another one has appeared. */
  predicate Segmented(ids: seq<RunId>) {
    forall i, j, k :: 0 <= i < j < k < |ids| && ids[i] == ids[k] ==> ids[j] == ids[i]
  }

  ghost predicate Segments(s: State) {
    && Segmented(RunIds(s.out))
    && (forall r :: r in RunIds(s.out) ==> r in s.runs && s.runs[r].written > 0)
    && (forall r :: Live(s, r) && s.runs[r].written > 0 ==>
          RunIds(s.out) != [] && RunIds(s.out)[|RunIds(s.out)| - 1] == r)
  }

  /** The ack the frame in progress has already received, if any. */
  function AcksSoFar(s: State): seq<Text> {
    match s.pc
    case Welcoming(id) => [Shown(id)]
    case ReportAcked(id) => [Shown(id)]
    case Launching(id, r) => if InPhase(s, r, Registered) then [] else [Shown(id)]
    case _ => []
  }

  ghost predicate AckBalance(s: State) {
    s.acks == AcksSoFar(s) && AckIds(s.out) == AcksOf(s.handled) + s.acks
  }

  ghost predicate SessionNumbers(s: State) {
    |SessionSeqs(s.out)| + s.sessionLost == s.sessionSeq && Ascending(SessionSeqs(s.out), s.sessionSeq)
  }

  /** Between two frames, or after the last one. */
  predicate Idle(pc: Control) {
    pc.Ready? || pc.Stopped? || pc.Crashed?
  }

  ghost predicate Handshake(s: State) {
    && (!s.welcomed ==>
          s.runs == map[] && Idle(s.pc) && OkAcks(s.out) == if s.pc.Stopped? then 1 else 0)
    && (s.fatal ==> Idle(s.pc) || s.pc.Welcoming?)
    && s.cancelled <= s.runs.Keys
  }

  ghost predicate Inv(s: State) {
    MutualExclusion(s) && Transcripts(s) && Segments(s) && AckBalance(s) && SessionNumbers(s) && Handshake(s)
  }

  // ---- every step keeps it

  lemma FrameKeepsMutualExclusion(s: State, f: Frame)
    requires s.pc.Ready? && MutualExclusion(s)
    ensures MutualExclusion(HandleFrame(s, f))
  {
    forall r | Live(HandleFrame(s, f), r)
      ensures HandleFrame(s, f).active == Some(r)
    {
      assert Live(s, r);
    }
  }

  lemma ClearKeepsMutualExclusion(s: State, r: RunId)
    requires Enabled(s, ClearActive(r)) && MutualExclusion(s)
    ensures MutualExclusion(ApplyRunner(s, ClearActive(r)))
  {
    assert Live(s, r);
    assert forall q :: Live(s, q) ==> q == r;
  }

  /** A thread that is running moves its own run on and nothing else. */
  predicate MovesOwnRun(s: State, t: State, r: RunId) {
    && t.pc == s.pc && t.active == s.active && t.runs.Keys == s.runs.Keys
    && r in s.runs && s.runs[r].phase !in {Registered, Acked, Announced}
    && t.runs[r].phase !in {Registered, Acked, Announced}
    && (Live(t, r) ==> Live(s, r))
    && forall q :: q in s.runs && q != r ==> t.runs[q] == s.runs[q]
  }

  lemma MoveKeepsMutualExclusion(s: State, t: State, r: RunId)
    requires MutualExclusion(s) && MovesOwnRun(s, t, r)
    ensures MutualExclusion(t)
  {
    assert forall q :: Live(t, q) ==> Live(s, q);
  }

  lemma RunnerKeepsMutualExclusion(s: State, step: Step)
    requires Enabled(s, step) && OfRunner(step) && !step.ClearActive? && MutualExclusion(s)
    ensures MutualExclusion(ApplyRunner(s, step))
  {
    assert MovesOwnRun(s, ApplyRunner(s, step), step.run);
    MoveKeepsMutualExclusion(s, ApplyRunner(s, step), step.run);
  }

  /** The moves on a run that is already registered. */
  predicate OfLaunch(step: Step) {
    step.AckStart? || step.EmitStarted? || step.StartThread? || step.ThreadFails?
  }

  lemma LaunchKeepsMutualExclusion(s: State, step: Step)
    requires Enabled(s, step) && OfLaunch(step) && MutualExclusion(s)
    ensures MutualExclusion(ApplyCommand(s, step))
  {
    forall r | Live(ApplyCommand(s, step), r)
      ensures ApplyCommand(s, step).active == Some(r)
    {
      assert Live(s, r);
    }
  }

  lemma CommandKeepsMutualExclusion(s: State, step: Step)
    requires Enabled(s, step) && !OfRunner(step) && !step.Receive? && !OfLaunch(step) && MutualExclusion(s)
    ensures MutualExclusion(ApplyCommand(s, step))
  {
    var t := ApplyCommand(s, step);
    forall r | Live(t, r)
      ensures t.active == Some(r) && !t.pc.Admitted?
    {
      assert Live(s, r) || step == Register(r);
    }
  }

  lemma KeepsMutualExclusion(s: State, step: Step)
    requires Enabled(s, step) && MutualExclusion(s)
    ensures MutualExclusion(Apply(s, step))
  {
    if step.Receive? {
      FrameKeepsMutualExclusion(s, step.frame);
    } else if step.ClearActive? {
      ClearKeepsMutualExclusion(s, step.run);
    } else if OfRunner(step) {
      RunnerKeepsMutualExclusion(s, step);
    } else if OfLaunch(step) {
      LaunchKeepsMutualExclusion(s, step);
    } else {
      CommandKeepsMutualExclusion(s, step);
    }
  }

  /** The phases an event may come from and lead to. */
  predicate Emits(before: Phase, name: EventName, after: Phase) {
    match name
    case RunStarted => before == Acked && after == Announced
    case Progress(_) => before == Running && after == Running
    case Error => before == Running && after == Failing
    case RunFinished => before in {Running, Failing} && after == Finished
    case _ => false
  }

  /** At most one line is written, and only about a run that is known already. */
  predicate OneLine(s: State, t: State) {
    || t.out == s.out
    || (&& |t.out| == |s.out| + 1 && t.out == s.out + [t.out[|s.out|]]
        && var l := t.out[|s.out|]; l.Event? && l.run.Some? ==> l.run.value in s.runs)
  }

  lemma FrameWritesOneLine(s: State, f: Frame)
    ensures OneLine(s, HandleFrame(s, f))
  {
  }

  lemma CommandWritesOneLine(s: State, step: Step)
    requires Enabled(s, step) && !OfRunner(step) && !step.Receive?
    ensures OneLine(s, ApplyCommand(s, step))
  {
  }

  lemma RunnerWritesOneLine(s: State, step: Step)
    requires Enabled(s, step) && OfRunner(step)
    ensures OneLine(s, ApplyRunner(s, step))
  {
  }

  lemma WritesOneLine(s: State, step: Step)
    requires Enabled(s, step)
    ensures OneLine(s, Apply(s, step))
  {
    if step.Receive? {
      FrameWritesOneLine(s, step.frame);
    } else if OfRunner(step) {
      RunnerWritesOneLine(s, step);
    } else {
      CommandWritesOneLine(s, step);
    }
  }

  /** What is seen of a longer output. */
  ghost predicate Longer(s: State, t: State) {
    t.out != s.out ==>
      && |t.out| == |s.out| + 1
      && var l := t.out[|s.out|];
         && RunIds(t.out) == RunIds(s.out) + (if l.Event? && l.run.Some? then [l.run.value] else [])
         && SessionSeqs(t.out) == SessionSeqs(s.out) + (if l.Event? && l.run.None? then [l.number] else [])
         && AckIds(t.out) == AckIds(s.out) + (if l.Ack? then [l.id] else [])
         && OkAcks(t.out) == OkAcks(s.out) + (if l.Ack? && l.ok then 1 else 0)
  }

  lemma OneLineLonger(s: State, t: State)
    requires OneLine(s, t)
    ensures Longer(s, t)
  {
    if t.out != s.out {
      Extend(s.out, t.out[|s.out|]);
    }
  }

  /** A number that is used up without a line, and what it does to the run. */
  predicate Loses(before: Phase, after: Phase) {
    (before, after) in {(Acked, Orphan), (Running, Running), (Running, Dead), (Failing, Dead)}
  }

  lemma EmissionExtendsTranscript(lines: seq<Line>, r: RunId, run: RunState, name: EventName, after: Phase)
    requires Transcript(lines, r, run) && Emits(run.phase, name, after)
    ensures Transcript(lines + [Event(Some(r), name, run.taken + 1)], r,
                       RunState(run.taken + 1, run.written + 1, run.observed, after))
  {
    var l := Event(Some(r), name, run.taken + 1);
    assert Numbers(lines + [l]) == Numbers(lines) + [l.number];
  }

  lemma LossKeepsTranscript(lines: seq<Line>, r: RunId, run: RunState, after: RunState)
    requires Transcript(lines, r, run) && Loses(run.phase, after.phase)
    requires after.taken == run.taken + 1 && after.written == run.written
    ensures Transcript(lines, r, after)
  {
  }

  /** A run whose lines do not change may only move between phases that look alike from outside. */
  predicate Silent(before: Phase, after: Phase) {
    || before == after
    || (before, after) in {(Registered, Acked), (Announced, Running), (Announced, Orphan),
                           (Running, Dead), (Failing, Dead), (Finished, Cleared), (Cleared, Done)}
  }

  lemma SilenceKeepsTranscript(lines: seq<Line>, r: RunId, run: RunState, after: RunState)
    requires Transcript(lines, r, run) && Silent(run.phase, after.phase)
    requires after.taken == run.taken && after.written == run.written
    ensures Transcript(lines, r, after)
  {
  }

  /** How a step may treat one run: by one line that counts it up, by a lost number, or silently. */
  ghost predicate Treats(s: State, t: State, r: RunId)
    requires r in s.runs
  {
    && r in t.runs
    && var before, after := s.runs[r], t.runs[r];
       if |t.out| == |s.out| + 1 && t.out[|s.out|].Event? && t.out[|s.out|].run == Some(r) then
         && var l := t.out[|s.out|];
         && l == Event(Some(r), l.name, before.taken + 1)
         && Emits(before.phase, l.name, after.phase)
         && after == RunState(l.number, before.written + 1, before.observed, after.phase)
       else if after.taken != before.taken then
         after.taken == before.taken + 1 && after.written == before.written && Loses(before.phase, after.phase)
       else after.written == before.written && Silent(before.phase, after.phase)
  }

  lemma FrameTreats(s: State, f: Frame, r: RunId)
    requires r in s.runs
    ensures Treats(s, HandleFrame(s, f), r)
  {
  }

  lemma CommandTreats(s: State, step: Step, r: RunId)
    requires Enabled(s, step) && !OfRunner(step) && !step.Receive? && r in s.runs
    ensures Treats(s, ApplyCommand(s, step), r)
  {
  }

  lemma RunnerTreats(s: State, step: Step, r: RunId)
    requires Enabled(s, step) && OfRunner(step) && r in s.runs
    ensures Treats(s, ApplyRunner(s, step), r)
  {
  }

  lemma TranscriptCarriesOver(s: State, t: State, r: RunId)
    requires r in s.runs && Transcript(RunLines(s.out, r), r, s.runs[r]) && Treats(s, t, r)
    requires t.out == s.out || (|t.out| == |s.out| + 1 && t.out == s.out + [t.out[|s.out|]])
    ensures Transcript(RunLines(t.out, r), r, t.runs[r])
  {
    if t.out != s.out {
      var l := t.out[|s.out|];
      Extend(s.out, l);
      if l.Event? && l.run == Some(r) {
        EmissionExtendsTranscript(RunLines(s.out, r), r, s.runs[r], l.name, t.runs[r].phase);
        return;
      }
      assert RunLines(t.out, r) == RunLines(s.out, r);
    }
    if t.runs[r].taken != s.runs[r].taken {
      LossKeepsTranscript(RunLines(s.out, r), r, s.runs[r], t.runs[r]);
    } else {
      SilenceKeepsTranscript(RunLines(s.out, r), r, s.runs[r], t.runs[r]);
    }
  }

  lemma StepTreats(s: State, step: Step, r: RunId)
    requires Enabled(s, step) && r in s.runs
    ensures Treats(s, Apply(s, step), r)
  {
    if step.Receive? {
      FrameTreats(s, step.frame, r);
    } else if OfRunner(step) {
      RunnerTreats(s, step, r);
    } else {
      CommandTreats(s, step, r);
    }
  }

  ghost predicate OnlyFreshRuns(s: State, t: State) {
    forall r :: r in t.runs && r !in s.runs ==> t.runs[r] == RunState(0, 0, true, Registered)
  }

  lemma TranscriptsCarryOver(s: State, t: State)
    requires Transcripts(s) && OneLine(s, t) && OnlyFreshRuns(s, t)
    requires forall r :: r in s.runs ==> Treats(s, t, r)
    ensures Transcripts(t)
  {
    forall r | r in s.runs
      ensures r in t.runs && Transcript(RunLines(t.out, r), r, t.runs[r])
    {
      TranscriptCarriesOver(s, t, r);
    }
    StrangersStaySilent(s, t.out);
  }

  lemma KeepsTranscripts(s: State, step: Step)
    requires Enabled(s, step) && Transcripts(s)
    ensures Transcripts(Apply(s, step))
  {
    WritesOneLine(s, step);
    NewRunsAreRegistered(s, step);
    forall r | r in s.runs
      ensures Treats(s, Apply(s, step), r)
    {
      StepTreats(s, step, r);
    }
    TranscriptsCarryOver(s, Apply(s, step));
  }

  lemma NewRunsAreRegistered(s: State, step: Step)
    requires Enabled(s, step)
    ensures OnlyFreshRuns(s, Apply(s, step))
  {
  }

  lemma StrangersStaySilent(s: State, out: seq<Line>)
    requires Transcripts(s)
    requires OneLine(s, s.(out := out))
    ensures forall r :: r !in s.runs ==> RunLines(out, r) == []
  {
    if out != s.out {
      Extend(s.out, out[|s.out|]);
    }
  }

  lemma AppendKeepsSegments(ids: seq<RunId>, r: RunId)
    requires Segmented(ids) && (r in ids ==> ids[|ids| - 1] == r)
    ensures Segmented(ids + [r])
  {
    var all := ids + [r];
    forall i, j, k | 0 <= i < j < k < |all| && all[i] == all[k]
      ensures all[j] == all[i]
    {
      if k == |ids| {
        assert ids[i] == r;
        assert j == |ids| - 1 || ids[j] == ids[i];
      }
    }
  }

  lemma KeepsSegments(s: State, step: Step)
    requires Enabled(s, step) && MutualExclusion(s) && Segments(s)
    ensures Segments(Apply(s, step))
  {
    WritesOneLine(s, step);
    StepCounts(s, step);
    SegmentsCarryOver(s, Apply(s, step));
  }

  predicate WritesAboutRun(s: State, t: State) {
    |t.out| == |s.out| + 1 && t.out[|s.out|].Event? && t.out[|s.out|].run.Some?
  }

  lemma SegmentsCarryOver(s: State, t: State)
    requires MutualExclusion(s) && Segments(s)
    requires SameStage(s, t) && CountsWriter(s, t) && OneLine(s, t)
    ensures Segments(t)
  {
    OneLineLonger(s, t);
    if WritesAboutRun(s, t) {
      AppendKeepsSegments(RunIds(s.out), t.out[|s.out|].run.value);
    }
  }

  /** Only the runs that were on stage before, or the one just registered, are on stage after a step. */
  ghost predicate SameStage(s: State, t: State) {
    forall r :: Live(t, r) ==> Live(s, r) || t.runs[r].written == 0
  }

  /** A line about a run is written while that run is on stage; it counts that run up and no other. */
  ghost predicate CountsWriter(s: State, t: State) {
    && (WritesAboutRun(s, t) ==> Live(s, t.out[|s.out|].run.value))
    && forall r :: r in s.runs ==>
         r in t.runs
         && t.runs[r].written == s.runs[r].written + if WritesAboutRun(s, t) && t.out[|s.out|].run.value == r then 1 else 0
  }

  lemma CommandCounts(s: State, step: Step)
    requires Enabled(s, step) && !OfRunner(step) && !step.Receive?
    ensures SameStage(s, ApplyCommand(s, step)) && CountsWriter(s, ApplyCommand(s, step))
  {
  }

  lemma RunnerCounts(s: State, step: Step)
    requires Enabled(s, step) && OfRunner(step)
    ensures SameStage(s, ApplyRunner(s, step)) && CountsWriter(s, ApplyRunner(s, step))
  {
  }

  lemma FrameCounts(s: State, f: Frame)
    ensures SameStage(s, HandleFrame(s, f)) && CountsWriter(s, HandleFrame(s, f))
  {
  }

  lemma StepCounts(s: State, step: Step)
    requires Enabled(s, step)
    ensures SameStage(s, Apply(s, step)) && CountsWriter(s, Apply(s, step))
  {
    if step.Receive? {
      FrameCounts(s, step.frame);
    } else if OfRunner(step) {
      RunnerCounts(s, step);
    } else {
      CommandCounts(s, step);
    }
  }

  /** A step acks what the frame in hand then has, or ends the frame with the acks it had. */
  ghost predicate AcksFlow(s: State, t: State) {
    && (t.out == s.out || |t.out| == |s.out| + 1)
    && t.acks == AcksSoFar(t)
    && var acked := if t.out != s.out && t.out[|s.out|].Ack? then [t.out[|s.out|].id] else [];
       if t.handled == s.handled then t.acks == s.acks + acked
       else
         && |t.handled| == |s.handled| + 1
         && t.handled == s.handled + [t.handled[|s.handled|]]
         && t.handled[|s.handled|].acks == s.acks + acked
         && t.acks == []
  }

  lemma AcksOfAnOrder(s: State, id: Text, command: Command)
    requires s.pc.Ready? && s.acks == []
    ensures AcksFlow(s, Obey(s, id, command))
  {
  }

  lemma AcksOfAFrame(s: State, f: Frame)
    requires s.pc.Ready? && s.acks == []
    ensures AcksFlow(s, HandleFrame(s, f))
  {
    if !f.TooDeep? && !Refused(s, f) {
      AcksOfAnOrder(s, f.AckId(), f.command);
    }
  }

  lemma AcksOfALaunch(s: State, step: Step)
    requires Enabled(s, step) && OfLaunch(step) && s.acks == AcksSoFar(s)
    ensures AcksFlow(s, ApplyCommand(s, step))
  {
  }

  lemma AcksOfACommand(s: State, step: Step)
    requires Enabled(s, step) && !OfRunner(step) && !step.Receive? && !OfLaunch(step) && s.acks == AcksSoFar(s)
    ensures AcksFlow(s, ApplyCommand(s, step))
  {
  }

  lemma AcksOfARunner(s: State, step: Step)
    requires Enabled(s, step) && OfRunner(step) && MutualExclusion(s) && s.acks == AcksSoFar(s)
    ensures AcksFlow(s, ApplyRunner(s, step))
  {
  }

  lemma StepAcks(s: State, step: Step)
    requires Enabled(s, step) && MutualExclusion(s) && s.acks == AcksSoFar(s)
    ensures AcksFlow(s, Apply(s, step))
  {
    if step.Receive? {
      AcksOfAFrame(s, step.frame);
    } else if OfRunner(step) {
      AcksOfARunner(s, step);
    } else if OfLaunch(step) {
      AcksOfALaunch(s, step);
    } else {
      AcksOfACommand(s, step);
    }
  }

  lemma KeepsAcks(s: State, step: Step)
    requires Enabled(s, step) && MutualExclusion(s) && AckBalance(s)
    ensures AckBalance(Apply(s, step))
  {
    WritesOneLine(s, step);
    StepAcks(s, step);
    AcksCarryOver(s, Apply(s, step));
  }

  lemma AcksCarryOver(s: State, t: State)
    requires AckBalance(s) && AcksFlow(s, t) && OneLine(s, t)
    ensures AckBalance(t)
  {
    OneLineLonger(s, t);
    if t.handled != s.handled {
      ExtendAcks(s.handled, t.handled[|s.handled|]);
    }
  }

  /** A session event takes a number; it is written with that number or not at all. */
  predicate CountsSession(s: State, t: State) {
    if |t.out| == |s.out| + 1 && t.out[|s.out|].Event? && t.out[|s.out|].run.None?
    then t.sessionSeq == s.sessionSeq + 1 == t.out[|s.out|].number && t.sessionLost == s.sessionLost
    else t.sessionSeq - t.sessionLost == s.sessionSeq - s.sessionLost && t.sessionSeq >= s.sessionSeq
  }

  lemma FrameCountsSession(s: State, f: Frame)
    ensures CountsSession(s, HandleFrame(s, f))
  {
  }

  lemma CommandCountsSession(s: State, step: Step)
    requires Enabled(s, step) && !OfRunner(step) && !step.Receive?
    ensures CountsSession(s, ApplyCommand(s, step))
  {
  }

  lemma RunnerCountsSession(s: State, step: Step)
    requires Enabled(s, step) && OfRunner(step)
    ensures CountsSession(s, ApplyRunner(s, step))
  {
  }

  lemma KeepsCounters(s: State, step: Step)
    requires Enabled(s, step) && SessionNumbers(s)
    ensures SessionNumbers(Apply(s, step))
  {
    WritesOneLine(s, step);
    StepCountsSession(s, step);
    CountersCarryOver(s, Apply(s, step));
  }

  lemma StepCountsSession(s: State, step: Step)
    requires Enabled(s, step)
    ensures CountsSession(s, Apply(s, step))
  {
    if step.Receive? {
      FrameCountsSession(s, step.frame);
    } else if OfRunner(step) {
      RunnerCountsSession(s, step);
    } else {
      CommandCountsSession(s, step);
    }
  }

  lemma CountersCarryOver(s: State, t: State)
    requires SessionNumbers(s) && OneLine(s, t) && CountsSession(s, t)
    ensures SessionNumbers(t)
  {
    OneLineLonger(s, t);
    NumbersCarryOver(s, t);
  }

  lemma NumbersCarryOver(s: State, t: State)
    requires SessionNumbers(s)
    requires t.sessionSeq >= s.sessionSeq
    requires
      || (SessionSeqs(t.out) == SessionSeqs(s.out) + [s.sessionSeq + 1]
          && t.sessionSeq == s.sessionSeq + 1 && t.sessionLost == s.sessionLost)
      || (SessionSeqs(t.out) == SessionSeqs(s.out)
          && t.sessionSeq - t.sessionLost == s.sessionSeq - s.sessionLost)
    ensures SessionNumbers(t)
  {
  }

  lemma HelloKeepsHandshake(s: State, id: Text, version: int)
    requires s.pc.Ready? && Handshake(s) && Longer(s, Obey(s, id, Hello(version)))
    ensures Handshake(Obey(s, id, Hello(version)))
  {
  }

  lemma ShutdownKeepsHandshake(s: State, id: Text)
    requires s.pc.Ready? && Handshake(s) && Longer(s, Obey(s, id, Shutdown))
    ensures Handshake(Obey(s, id, Shutdown))
  {
  }

  lemma OrderKeepsHandshake(s: State, id: Text, command: Command)
    requires s.pc.Ready? && MutualExclusion(s) && Handshake(s) && s.welcomed && !s.fatal
    requires !command.Hello? && !command.Shutdown?
    ensures Handshake(Obey(s, id, command))
  {
  }

  lemma FrameKeepsHandshake(s: State, f: Frame)
    requires s.pc.Ready? && MutualExclusion(s) && Handshake(s)
    ensures Handshake(HandleFrame(s, f))
  {
    FrameWritesOneLine(s, f);
    OneLineLonger(s, HandleFrame(s, f));
    if !f.TooDeep? && !Refused(s, f) {
      if f.command.Hello? {
        HelloKeepsHandshake(s, f.AckId(), f.command.version);
      } else if f.command.Shutdown? {
        ShutdownKeepsHandshake(s, f.AckId());
      } else {
        OrderKeepsHandshake(s, f.AckId(), f.command);
      }
    }
  }

  lemma CommandKeepsHandshake(s: State, step: Step)
    requires Enabled(s, step) && !OfRunner(step) && !step.Receive? && MutualExclusion(s) && Handshake(s)
    ensures Handshake(ApplyCommand(s, step))
  {
  }

  lemma RunnerKeepsHandshake(s: State, step: Step)
    requires Enabled(s, step) && OfRunner(step) && Handshake(s)
    ensures Handshake(ApplyRunner(s, step))
  {
  }

  lemma KeepsHandshake(s: State, step: Step)
    requires Enabled(s, step) && MutualExclusion(s) && Handshake(s)
    ensures Handshake(Apply(s, step))
  {
    if step.Receive? {
      FrameKeepsHandshake(s, step.frame);
    } else if OfRunner(step) {
      RunnerKeepsHandshake(s, step);
    } else {
      CommandKeepsHandshake(s, step);
    }
  }

  lemma KeepsInv(s: State, step: Step)
    requires Enabled(s, step) && Inv(s)
    ensures Inv(Apply(s, step))
  {
    KeepsMutualExclusion(s, step);
    KeepsTranscripts(s, step);
    KeepsSegments(s, step);
    KeepsAcks(s, step);
    KeepsCounters(s, step);
    KeepsHandshake(s, step);
  }

  lemma {:induction false} ExecutionKeepsInv(from: State, steps: seq<Step>, to: State)
    requires Inv(from) && Execution(from, steps, to)
    ensures Inv(to)
    decreases |steps|
  {
    if steps != [] {
      KeepsInv(from, steps[0]);
      ExecutionKeepsInv(Apply(from, steps[0]), steps[1..], to);
    }
  }

  // ---- what every interleaving guarantees

  /** An event of a run that takes a number and is not written. */
  predicate Unsent(step: Step, to: State, r: RunId) {
    match step
    case EmitStarted(payload) => to.pc.Launching? && to.pc.run == r && !Sendable(payload)
    case EmitProgress(run, _, payload) => run == r && !Sendable(payload)
    case EmitError(run, payload) => run == r && !Sendable(payload)
    case EmitFinished(run, payload) => run == r && !Sendable(payload)
    case _ => false
  }

  /** How many of them there are for one run, along an execution. */
  function UnsentOf(from: State, steps: seq<Step>, r: RunId): nat
    decreases |steps|
  {
    if steps == [] || !Enabled(from, steps[0]) then 0
    else (if Unsent(steps[0], from, r) then 1 else 0) + UnsentOf(Apply(from, steps[0]), steps[1..], r)
  }

  function UnsentSession(steps: seq<Step>): nat {
    if steps == [] then 0
    else
      (match steps[0]
       case EmitWelcome(payload) => if Sendable(payload) then 0 else 1
       case EmitReport(payload) => if Sendable(payload) then 0 else 1
       case _ => 0)
      + UnsentSession(steps[1..])
  }

  function Lost(s: State, r: RunId): int {
    if r in s.runs then s.runs[r].taken - s.runs[r].written else 0
  }

  lemma FrameLoses(s: State, f: Frame, r: RunId)
    ensures Lost(HandleFrame(s, f), r) == Lost(s, r)
  {
  }

  lemma CommandLoses(s: State, step: Step, r: RunId)
    requires Enabled(s, step) && !OfRunner(step) && !step.Receive?
    ensures Lost(ApplyCommand(s, step), r) == Lost(s, r) + if Unsent(step, s, r) then 1 else 0
  {
  }

  lemma RunnerLoses(s: State, step: Step, r: RunId)
    requires Enabled(s, step) && OfRunner(step)
    ensures Lost(ApplyRunner(s, step), r) == Lost(s, r) + if Unsent(step, s, r) then 1 else 0
  {
  }

  lemma {:induction false} LostAreUnsent(from: State, steps: seq<Step>, to: State, r: RunId)
    requires Execution(from, steps, to)
    ensures Lost(to, r) == Lost(from, r) + UnsentOf(from, steps, r)
    decreases |steps|
  {
    if steps != [] {
      var step := steps[0];
      if step.Receive? {
        FrameLoses(from, step.frame, r);
      } else if OfRunner(step) {
        RunnerLoses(from, step, r);
      } else {
        CommandLoses(from, step, r);
      }
      LostAreUnsent(Apply(from, step), steps[1..], to, r);
    }
  }

  predicate SessionUnsent(step: Step) {
    (step.EmitWelcome? || step.EmitReport?) && !Sendable(step.payload)
  }

  lemma SessionLoses(s: State, step: Step)
    requires Enabled(s, step)
    ensures Apply(s, step).sessionLost == s.sessionLost + if SessionUnsent(step) then 1 else 0
  {
    if step.Receive? {
      FrameLosesNoSession(s, step.frame);
    }
  }

  lemma FrameLosesNoSession(s: State, f: Frame)
    ensures HandleFrame(s, f).sessionLost == s.sessionLost
  {
  }

  lemma {:induction false} SessionLostAreUnsent(from: State, steps: seq<Step>, to: State)
    requires Execution(from, steps, to)
    ensures to.sessionLost == from.sessionLost + UnsentSession(steps)
    decreases |steps|
  {
    if steps != [] {
      SessionLoses(from, steps[0]);
      SessionLostAreUnsent(Apply(from, steps[0]), steps[1..], to);
    }
  }

  /** The numbers are 1, 2, 3, ... */
  predicate Gapless(numbers: seq<nat>) {
    forall i :: 0 <= i < |numbers| ==> numbers[i] == i + 1
  }

  lemma {:induction false} AscendingAtLeast(numbers: seq<nat>, top: nat, i: nat)
    requires Ascending(numbers, top) && i < |numbers|
    ensures i + 1 <= numbers[i] <= top - (|numbers| - 1 - i)
    decreases |numbers|
  {
    var n := |numbers| - 1;
    if n > 0 && i < n {
      AscendingAtLeast(numbers[..n], numbers[n] - 1, i);
    } else if n > 0 {
      AscendingAtLeast(numbers[..n], numbers[n] - 1, n - 1);
    }
  }

  lemma NoNumberMissing(numbers: seq<nat>, top: nat)
    requires Ascending(numbers, top)
    ensures |numbers| <= top
    ensures |numbers| == top ==> Gapless(numbers)
    ensures Gapless(numbers) && numbers != [] && numbers[|numbers| - 1] == top ==> |numbers| == top
  {
    if numbers != [] {
      AscendingAtLeast(numbers, top, 0);
    }
    forall i | 0 <= i < |numbers| && |numbers| == top
      ensures numbers[i] == i + 1
    {
      AscendingAtLeast(numbers, top, i);
    }
  }

  /**
   In every interleaving at most one run is on stage, and the lines of two runs never interleave. The
   lines of a run have the names its phase allows, numbered upwards: `run_started`, its events,
   `run_finished`. They carry all the numbers from 1 to the last one taken if and only if every event
   of the run could be sent; for a run that has finished, that is whether there is a gap.
   */
  lemma RunsAreSerialised(steps: seq<Step>, s: State)
    requires Execution(Init, steps, s)
    ensures forall a, b :: Live(s, a) && Live(s, b) ==> a == b
    ensures Segmented(RunIds(s.out))
    ensures forall r :: r in s.runs ==>
      && Transcript(RunLines(s.out, r), r, s.runs[r])
      && |RunLines(s.out, r)| + UnsentOf(Init, steps, r) == s.runs[r].taken
      && (UnsentOf(Init, steps, r) == 0 ==> Gapless(Numbers(RunLines(s.out, r))))
      && (Over(s.runs[r].phase) ==>
            (Gapless(Numbers(RunLines(s.out, r))) <==> UnsentOf(Init, steps, r) == 0))
  {
    InitIsGood();
    ExecutionKeepsInv(Init, steps, s);
    assert MutualExclusion(s);
    forall r | r in s.runs
      ensures
        && |RunLines(s.out, r)| + UnsentOf(Init, steps, r) == s.runs[r].taken
        && (UnsentOf(Init, steps, r) == 0 ==> Gapless(Numbers(RunLines(s.out, r))))
        && (Over(s.runs[r].phase) ==>
              (Gapless(Numbers(RunLines(s.out, r))) <==> UnsentOf(Init, steps, r) == 0))
    {
      LostAreUnsent(Init, steps, s, r);
      NoNumberMissing(Numbers(RunLines(s.out, r)), s.runs[r].taken);
    }
  }

  /** The numbers of session events: all of those taken are written if and only if every payload could be sent. */
  lemma SessionEventsAreNumbered(steps: seq<Step>, s: State)
    requires Execution(Init, steps, s)
    ensures Ascending(SessionSeqs(s.out), s.sessionSeq)
    ensures |SessionSeqs(s.out)| + UnsentSession(steps) == s.sessionSeq
    ensures (|SessionSeqs(s.out)| == s.sessionSeq && Gapless(SessionSeqs(s.out))) <==> UnsentSession(steps) == 0
  {
    InitIsGood();
    ExecutionKeepsInv(Init, steps, s);
    SessionLostAreUnsent(Init, steps, s);
    NoNumberMissing(SessionSeqs(s.out), s.sessionSeq);
  }

  lemma InitIsGood()
    ensures Inv(Init)
  {
  }

  // ---- frames and their acks

  /** The ids of the frames received along the way, in order. */
  function FrameIds(steps: seq<Step>): seq<Text> {
    if steps == [] then []
    else (if steps[0].Receive? then [steps[0].frame.AckId()] else []) + FrameIds(steps[1..])
  }

  /** Something raises after the frame was acked as good; the frame is acked again, as failed. */
  predicate AcksAgain(step: Step) {
    step.ThreadFails? || ((step.EmitWelcome? || step.EmitReport? || step.EmitStarted?) && !Sendable(step.payload))
  }

  function SecondAcks(steps: seq<Step>): nat {
    if steps == [] then 0 else (if AcksAgain(steps[0]) then 1 else 0) + SecondAcks(steps[1..])
  }

  predicate Unacked(step: Step) {
    step.Receive? && step.frame.TooDeep?
  }

  function UnackedFrames(steps: seq<Step>): nat {
    if steps == [] then 0 else (if Unacked(steps[0]) then 1 else 0) + UnackedFrames(steps[1..])
  }

  function HandledIds(handled: seq<Handled>): seq<Text> {
    seq(|handled|, i requires 0 <= i < |handled| => handled[i].id)
  }

  /** Frames with n acks. */
  function AckedTimes(handled: seq<Handled>, n: nat): nat {
    if handled == [] then 0
    else AckedTimes(handled[..|handled| - 1], n) + if |handled[|handled| - 1].acks| == n then 1 else 0
  }

  function InHand(pc: Control): seq<Text> {
    if Idle(pc) then [] else [pc.id]
  }

  /** Acks of one frame carry its id as the stream shows it, and there are none, one or two of them. */
  predicate WellAcked(h: Handled) {
    |h.acks| <= 2 && forall i :: 0 <= i < |h.acks| ==> h.acks[i] == Shown(h.id)
  }

  /** A step takes a frame in hand, or ends the one in hand with the acks it deserves. */
  ghost predicate FramesFlow(s: State, t: State, received: seq<Text>, again: bool, unacked: bool) {
    if t.handled == s.handled then InHand(t.pc) == InHand(s.pc) + received && !again && !unacked
    else
      && |t.handled| == |s.handled| + 1
      && t.handled == s.handled + [t.handled[|s.handled|]]
      && InHand(t.pc) == []
      && var h := t.handled[|s.handled|];
         && InHand(s.pc) + received == [h.id]
         && WellAcked(h)
         && (|h.acks| == 2 <==> again) && (|h.acks| == 0 <==> unacked)
  }

  lemma FramesOfAnOrder(s: State, id: Text, command: Command)
    requires s.pc.Ready? && s.acks == []
    ensures FramesFlow(s, Obey(s, id, command), [id], false, false)
  {
  }

  lemma FramesOfAFrame(s: State, f: Frame)
    requires s.pc.Ready? && s.acks == []
    ensures FramesFlow(s, HandleFrame(s, f), [f.AckId()], false, f.TooDeep?)
  {
    if !f.TooDeep? && !Refused(s, f) {
      FramesOfAnOrder(s, f.AckId(), f.command);
    }
  }

  lemma FramesOfACommand(s: State, step: Step)
    requires Enabled(s, step) && !OfRunner(step) && !step.Receive? && s.acks == AcksSoFar(s)
    ensures FramesFlow(s, ApplyCommand(s, step), [], AcksAgain(step), false)
  {
  }

  lemma FramesOfARunner(s: State, step: Step)
    requires Enabled(s, step) && OfRunner(step)
    ensures FramesFlow(s, ApplyRunner(s, step), [], false, false)
  {
  }

  lemma ExtendHandled(handled: seq<Handled>, h: Handled)
    ensures HandledIds(handled + [h]) == HandledIds(handled) + [h.id]
    ensures forall n :: AckedTimes(handled + [h], n) == AckedTimes(handled, n) + if |h.acks| == n then 1 else 0
  {
    assert (handled + [h])[..|handled|] == handled;
  }

  ghost predicate AllWellAcked(handled: seq<Handled>) {
    forall i :: 0 <= i < |handled| ==> WellAcked(handled[i])
  }

  /** What some steps add to the frames handled: their ids, and how many were acked twice or not at all. */
  ghost predicate Tally(s: State, t: State, ids: seq<Text>, again: nat, unacked: nat) {
    && (AllWellAcked(s.handled) ==> AllWellAcked(t.handled))
    && HandledIds(t.handled) + InHand(t.pc) == HandledIds(s.handled) + InHand(s.pc) + ids
    && AckedTimes(t.handled, 2) == AckedTimes(s.handled, 2) + again
    && AckedTimes(t.handled, 0) == AckedTimes(s.handled, 0) + unacked
  }

  lemma FlowTallies(s: State, t: State, received: seq<Text>, again: bool, unacked: bool)
    requires FramesFlow(s, t, received, again, unacked)
    ensures Tally(s, t, received, if again then 1 else 0, if unacked then 1 else 0)
  {
    if t.handled != s.handled {
      ExtendHandled(s.handled, t.handled[|s.handled|]);
    }
  }

  lemma TalliesAddUp(s: State, u: State, t: State, ids: seq<Text>, more: seq<Text>,
                     again: nat, againMore: nat, unacked: nat, unackedMore: nat)
    requires Tally(s, u, ids, again, unacked) && Tally(u, t, more, againMore, unackedMore)
    ensures Tally(s, t, ids + more, again + againMore, unacked + unackedMore)
  {
    var before := HandledIds(s.handled) + InHand(s.pc);
    assert before + ids + more == before + (ids + more);
  }

  lemma FramesOfAStep(s: State, step: Step)
    requires Enabled(s, step) && AckBalance(s)
    ensures Tally(s, Apply(s, step), FrameIds([step]), SecondAcks([step]), UnackedFrames([step]))
  {
    var received := if step.Receive? then [step.frame.AckId()] else [];
    if step.Receive? {
      FramesOfAFrame(s, step.frame);
    } else if OfRunner(step) {
      FramesOfARunner(s, step);
    } else {
      FramesOfACommand(s, step);
    }
    FlowTallies(s, Apply(s, step), received, AcksAgain(step), Unacked(step));
    CountsOfOne(step);
  }

  lemma CountsOfOne(step: Step)
    ensures FrameIds([step]) == if step.Receive? then [step.frame.AckId()] else []
    ensures SecondAcks([step]) == if AcksAgain(step) then 1 else 0
    ensures UnackedFrames([step]) == if Unacked(step) then 1 else 0
  {
    assert [step][1..] == [];
  }

  lemma {:induction false} FramesOfAnExecution(from: State, steps: seq<Step>, to: State)
    requires Inv(from) && Execution(from, steps, to)
    ensures Tally(from, to, FrameIds(steps), SecondAcks(steps), UnackedFrames(steps))
    decreases |steps|
  {
    if steps == [] {
      assert HandledIds(to.handled) + InHand(to.pc) + [] == HandledIds(to.handled) + InHand(to.pc);
    } else {
      var step, rest := steps[0], steps[1..];
      FramesOfAStep(from, step);
      KeepsInv(from, step);
      FramesOfAnExecution(Apply(from, step), rest, to);
      CountsOfOne(step);
      TalliesAddUp(from, Apply(from, step), to, FrameIds([step]), FrameIds(rest),
                   SecondAcks([step]), SecondAcks(rest), UnackedFrames([step]), UnackedFrames(rest));
    }
  }

  lemma {:induction false} OnceUnlessCounted(handled: seq<Handled>)
    requires AllWellAcked(handled)
    ensures AckedTimes(handled, 0) == 0 && AckedTimes(handled, 2) == 0 <==>
            forall i :: 0 <= i < |handled| ==> |handled[i].acks| == 1
    decreases |handled|
  {
    if handled != [] {
      var n := |handled| - 1;
      OnceUnlessCounted(handled[..n]);
      assert WellAcked(handled[n]);
      assert forall i :: 0 <= i < n ==> handled[..n][i] == handled[i];
    }
  }

  /** The frame was acked once, under its id. */
  predicate AckedOnce(h: Handled) {
    h.acks == [h.id]
  }

  /**
   Between two frames, all acks written are those of the frames received, frame by frame. Every frame
   has exactly one, carrying its id, if and only if no frame was nested too deeply for the parser,
   nothing raised after a good ack (a thread that does not start, or an event of the command loop
   that cannot be sent), and every id can be encoded.
   */
  lemma OneAckPerFrame(steps: seq<Step>, s: State)
    requires Execution(Init, steps, s) && Idle(s.pc)
    ensures HandledIds(s.handled) == FrameIds(steps) && AckIds(s.out) == AcksOf(s.handled)
    ensures (forall i :: 0 <= i < |s.handled| ==> |s.handled[i].acks| == 1) <==>
            UnackedFrames(steps) == 0 && SecondAcks(steps) == 0
    ensures (forall i :: 0 <= i < |s.handled| ==> AckedOnce(s.handled[i])) <==>
            && UnackedFrames(steps) == 0 && SecondAcks(steps) == 0
            && forall i :: 0 <= i < |FrameIds(steps)| ==> Encodable(FrameIds(steps)[i])
  {
    InitIsGood();
    ExecutionKeepsInv(Init, steps, s);
    FramesOfAnExecution(Init, steps, s);
    OnceUnlessCounted(s.handled);
    IdleHands(s, FrameIds(steps));
    IdsCarried(s.handled, FrameIds(steps));
  }

  lemma IdleHands(s: State, frames: seq<Text>)
    requires Idle(s.pc) && AckBalance(s)
    requires HandledIds(s.handled) + InHand(s.pc) == HandledIds([]) + [] + frames
    ensures HandledIds(s.handled) == frames && AckIds(s.out) == AcksOf(s.handled)
  {
    assert HandledIds(s.handled) + [] == HandledIds(s.handled);
    assert HandledIds([]) + [] + frames == frames;
    assert AcksOf(s.handled) + [] == AcksOf(s.handled);
  }

  lemma IdsCarried(handled: seq<Handled>, frames: seq<Text>)
    requires AllWellAcked(handled) && HandledIds(handled) == frames
    ensures (forall i :: 0 <= i < |handled| ==> AckedOnce(handled[i])) <==>
            && (forall i :: 0 <= i < |handled| ==> |handled[i].acks| == 1)
            && (forall i :: 0 <= i < |frames| ==> Encodable(frames[i]))
  {
    forall i | 0 <= i < |handled|
      ensures AckedOnce(handled[i]) <==> |handled[i].acks| == 1 && Encodable(frames[i])
    {
      assert frames[i] == handled[i].id;
      OneIsShown(handled[i]);
    }
  }

  lemma OneIsShown(h: Handled)
    requires WellAcked(h)
    ensures AckedOnce(h) <==> |h.acks| == 1 && Encodable(h.id)
  {
    if |h.acks| == 1 {
      assert h.acks == [h.acks[0]];
    }
  }

  /** Until a good `hello`, no run exists and the only command that succeeds is `shutdown`, which ends the loop. */
  lemma NothingBeforeHello(steps: seq<Step>, s: State)
    requires Execution(Init, steps, s) && !s.welcomed
    ensures s.runs == map[]
    ensures OkAcks(s.out) == if s.pc.Stopped? then 1 else 0
  {
    InitIsGood();
    ExecutionKeepsInv(Init, steps, s);
  }

  /** No step taken under a fatal handshake registers a run, and none lifts it. */
  lemma MismatchStays(s: State, step: Step)
    requires Handshake(s) && s.fatal && Enabled(s, step)
    ensures Apply(s, step).fatal && Apply(s, step).runs.Keys == s.runs.Keys
  {
  }

  /**
   After a version mismatch no frame sequence, a later good `hello` included, starts a run:
   the set of runs never grows again.
   */
  lemma {:induction false} MismatchIsForGood(from: State, steps: seq<Step>, to: State)
    requires Inv(from) && from.fatal && Execution(from, steps, to)
    ensures to.fatal && to.runs.Keys == from.runs.Keys
    decreases |steps|
  {
    if steps != [] {
      MismatchStays(from, steps[0]);
      KeepsInv(from, steps[0]);
      MismatchIsForGood(Apply(from, steps[0]), steps[1..], to);
    }
  }

  /** No thread will ever clear this run from the stage. */
  predicate Stuck(s: State, r: RunId) {
    InPhase(s, r, Orphan) || InPhase(s, r, Dead)
  }

  ghost predicate StaysStuck(s: State, t: State, r: RunId) {
    t.runs.Keys == s.runs.Keys && Stuck(t, r)
  }

  lemma FrameLeavesStuck(s: State, r: RunId, f: Frame)
    requires Stuck(s, r)
    ensures StaysStuck(s, HandleFrame(s, f), r)
  {
  }

  lemma CommandLeavesStuck(s: State, r: RunId, step: Step)
    requires MutualExclusion(s) && Stuck(s, r) && Enabled(s, step) && !OfRunner(step) && !step.Receive?
    ensures StaysStuck(s, ApplyCommand(s, step), r)
  {
    assert Live(s, r);
  }

  lemma RunnerLeavesStuck(s: State, r: RunId, step: Step)
    requires Stuck(s, r) && Enabled(s, step) && OfRunner(step)
    ensures StaysStuck(s, ApplyRunner(s, step), r)
  {
  }

  lemma StuckStays(s: State, r: RunId, step: Step)
    requires MutualExclusion(s) && Stuck(s, r) && Enabled(s, step)
    ensures StaysStuck(s, Apply(s, step), r)
  {
    if step.Receive? {
      FrameLeavesStuck(s, r, step.frame);
    } else if OfRunner(step) {
      RunnerLeavesStuck(s, r, step);
    } else {
      CommandLeavesStuck(s, r, step);
    }
  }

  /**
   A run whose thread could not be started, or died in its last words, keeps the sidecar busy: no
   further run is ever registered.
   */
  lemma {:induction false} StuckRunBlocksEveryRun(from: State, r: RunId, steps: seq<Step>, to: State)
    requires Inv(from) && Stuck(from, r) && Execution(from, steps, to)
    ensures to.runs.Keys == from.runs.Keys && Stuck(to, r)
    decreases |steps|
  {
    if steps != [] {
      StuckStays(from, r, steps[0]);
      KeepsInv(from, steps[0]);
      StuckRunBlocksEveryRun(Apply(from, steps[0]), r, steps[1..], to);
    }
  }
}
