/** What the sidecar does get done: how each frame is answered, and that runs start and end. */
module SidecarProgress {
  import opened Options
  import opened Sidecar

  /** Before the ack of a frame none is left over, and a run on stage is one of the runs. */
  lemma ReadyIsClean(earlier: seq<Step>, s: State)
    requires Execution(Init, earlier, s)
    ensures s.pc.Ready? || s.pc.Starting? || s.pc.Admitted? || s.pc.Reporting? ==> s.acks == []
    ensures s.active.Some? ==> s.active.value in s.runs
    ensures forall r :: Live(s, r) ==> s.active == Some(r)
  {
    InitIsGood();
    ExecutionKeepsInv(Init, earlier, s);
  }

  // ---- frames that are answered at once

  /** The handling of the frame is over, with this one ack and nothing else written. */
  predicate AnsweredAtOnce(s: State, t: State, id: Text, ok: bool) {
    t.out == s.out + [Ack(Shown(id), ok)] && t.handled == s.handled + [Handled(id, [Shown(id)])] && t.acks == []
  }

  /** Everything but the output and the frames handled. */
  predicate SameRuns(s: State, t: State) {
    && t.active == s.active && t.runs == s.runs && t.cancelled == s.cancelled
    && t.sessionSeq == s.sessionSeq && t.sessionLost == s.sessionLost
  }

  predicate SameHandshake(s: State, t: State) {
    t.welcomed == s.welcomed && t.fatal == s.fatal
  }

  /** A state between two frames that `earlier` leads to. */
  ghost predicate Waiting(earlier: seq<Step>, s: State) {
    Execution(Init, earlier, s) && s.pc == Ready
  }

  lemma OneAck(s: State, id: Text, ok: bool)
    requires s.acks == []
    ensures s.acks + [Shown(id)] == [Shown(id)]
    ensures AnsweredAtOnce(s, Close(s, id, ok), id, ok)
  {
  }

  /** A frame the gate turns away: no object, no known command, before the hello, or after a mismatch. */
  lemma RefusedFrame(earlier: seq<Step>, s: State, f: Frame)
    requires Waiting(earlier, s)
    requires
      || f == Oversized || f == NotJson || f == NotObject
      || (f.Request? && !f.isCmd)
      || (f.Request? && f.command == Unknown)
      || (f.Request? && (s.fatal || !s.welcomed) && !f.command.Hello? && f.command != Shutdown)
    ensures
      var t := Apply(s, Receive(f));
      AnsweredAtOnce(s, t, if f.Request? then f.id else [], false) && SameRuns(s, t) && SameHandshake(s, t) && t.pc == Ready
  {
    ReadyIsClean(earlier, s);
    OneAck(s, if f.Request? then f.id else [], false);
    assert Apply(s, Receive(f)) == Close(s, f.AckId(), false);
  }

  /** `shutdown` is acked at any time and ends the loop. */
  lemma ShutdownFrame(earlier: seq<Step>, s: State, id: Text)
    requires Waiting(earlier, s)
    ensures
      var t := Apply(s, Receive(Request(id, true, Shutdown)));
      AnsweredAtOnce(s, t, id, true) && SameRuns(s, t) && SameHandshake(s, t) && t.pc == Stopped
  {
    ReadyIsClean(earlier, s);
    OneAck(s, id, true);
  }

  /** `cancel` is acked as good in any case; it reaches the run it names only while that one is on stage. */
  lemma CancelFrame(earlier: seq<Step>, s: State, id: Text, r: RunId)
    requires Waiting(earlier, s) && s.welcomed && !s.fatal
    ensures
      var t := Apply(s, Receive(Request(id, true, Cancel(r))));
      && AnsweredAtOnce(s, t, id, true) && SameHandshake(s, t) && t.pc == Ready
      && t.active == s.active && t.runs == s.runs
      && (forall q :: q in t.cancelled <==>
            q in s.cancelled || (q == r && s.active == Some(r) && !InPhase(s, r, Done)))
  {
    ReadyIsClean(earlier, s);
    OneAck(s, id, true);
  }

  /** `status` is answered by what the engine says. */
  lemma StatusFrame(earlier: seq<Step>, s: State, id: Text, answers: bool)
    requires Waiting(earlier, s) && s.welcomed && !s.fatal
    ensures
      var t := Apply(s, Receive(Request(id, true, Status(answers))));
      AnsweredAtOnce(s, t, id, answers) && SameRuns(s, t) && SameHandshake(s, t) && t.pc == Ready
  {
    ReadyIsClean(earlier, s);
    OneAck(s, id, answers);
  }

  /** Another protocol version is refused, and for good. */
  lemma MismatchFrame(earlier: seq<Step>, s: State, id: Text, version: int)
    requires Waiting(earlier, s) && version != 1
    ensures
      var t := Apply(s, Receive(Request(id, true, Hello(version))));
      AnsweredAtOnce(s, t, id, false) && SameRuns(s, t) && t.welcomed == s.welcomed && t.fatal && t.pc == Ready
  {
    ReadyIsClean(earlier, s);
    OneAck(s, id, false);
  }

  // ---- frames that are answered by an ack and an event

  /** A good `hello`: the ack, then the `welcome` event. */
  lemma HelloIsWelcomed(earlier: seq<Step>, s: State, id: Text, p: Payload) returns (t: State)
    requires Waiting(earlier, s) && Sendable(p)
    ensures Execution(s, [Receive(Request(id, true, Hello(1))), EmitWelcome(p)], t)
    ensures t.out == s.out + [Ack(Shown(id), true)] + [Event(None, Welcome, s.sessionSeq + 1)]
    ensures t.welcomed && t.fatal == s.fatal && t.pc == Ready && t.runs == s.runs && t.active == s.active
    ensures t.handled == s.handled + [Handled(id, [Shown(id)])]
  {
    ReadyIsClean(earlier, s);
    var frame, emit := Receive(Request(id, true, Hello(1))), EmitWelcome(p);
    OneAck(s, id, true);
    var s1 := s.(welcomed := true, pc := Welcoming(id), out := s.out + [Ack(Shown(id), true)], acks := [Shown(id)]);
    assert Apply(s, frame) == s1;
    t := Apply(s1, emit);
    Then(s1, emit, [], t);
    Then(s, frame, [emit], t);
    assert [frame] + [emit] == [frame, emit];
  }

  /** A report that can be written: the ack, then the `report_written` event. */
  lemma ReportIsWritten(earlier: seq<Step>, s: State, id: Text, p: Payload) returns (t: State)
    requires Waiting(earlier, s) && s.welcomed && !s.fatal && Sendable(p)
    ensures Execution(s, [Receive(Request(id, true, Report)), AckReport, EmitReport(p)], t)
    ensures t.out == s.out + [Ack(Shown(id), true)] + [Event(None, ReportWritten, s.sessionSeq + 1)]
    ensures t.pc == Ready && t.runs == s.runs && t.active == s.active
    ensures t.handled == s.handled + [Handled(id, [Shown(id)])]
  {
    ReadyIsClean(earlier, s);
    var frame, emit := Receive(Request(id, true, Report)), EmitReport(p);
    OneAck(s, id, true);
    var s1 := s.(pc := Reporting(id));
    var s2 := s.(pc := ReportAcked(id), out := s.out + [Ack(Shown(id), true)], acks := [Shown(id)]);
    assert Apply(s, frame) == s1;
    assert Apply(s1, AckReport) == s2;
    t := Apply(s2, emit);
    Then(s2, emit, [], t);
    Then(s1, AckReport, [emit], t);
    Then(s, frame, [AckReport] + [emit], t);
    assert [frame] + ([AckReport] + [emit]) == [frame, AckReport, emit];
  }

  // ---- runs

  /** No run is on stage, or the one that was has ended. */
  predicate Free(s: State) {
    s.active.None? || InPhase(s, s.active.value, Done)
  }

  /** A frame that asks for a run. */
  predicate AsksForRun(f: Frame) {
    f.Request? && f.isCmd && (f.command == Run || f.command == Chat)
  }

  function StartSteps(f: Frame, r: RunId, p: Payload): seq<Step> {
    [Receive(f), LookActive, TestBusy, Register(r), AckStart, EmitStarted(p), StartThread]
  }

  /**
   Whenever the stage is free, a welcomed session can start a run, for `run` and for `chat` alike:
   with exactly one ack, which is good, with `run_started` as number 1, and with its thread running.
   */
  lemma RunStarts(earlier: seq<Step>, s: State, f: Frame, r: RunId, p: Payload) returns (t: State)
    requires Waiting(earlier, s) && s.welcomed && !s.fatal && Free(s)
    requires AsksForRun(f) && r !in s.runs && Sendable(p)
    ensures Execution(s, StartSteps(f, r, p), t)
    ensures t.out == s.out + [Ack(Shown(f.id), true)] + [Event(Some(r), RunStarted, 1)]
    ensures t.pc == Ready && t.active == Some(r) && t.runs == s.runs[r := RunState(1, 1, true, Running)]
    ensures t.handled == s.handled + [Handled(f.id, [Shown(f.id)])] && t.acks == []
    ensures t.cancelled == s.cancelled && SameHandshake(s, t)
  {
    ReadyIsClean(earlier, s);
    var s1 := s.(pc := Starting(f.id));
    var rest := [AckStart] + ([EmitStarted(p)] + [StartThread]);
    t := FromStarting(s1, f.id, r, p);
    assert Apply(s, Receive(f)) == s1;
    Then(s, Receive(f), [LookActive] + ([TestBusy] + ([Register(r)] + rest)), t);
    assert StartSteps(f, r, p) == [Receive(f)] + ([LookActive] + ([TestBusy] + ([Register(r)] + rest)));
  }

  /** What the frame that started a run leaves behind. */
  function Started(s: State, id: Text, r: RunId): State {
    s.(pc := Ready, active := Some(r), runs := s.runs[r := RunState(1, 1, true, Running)],
       out := s.out + [Ack(Shown(id), true)] + [Event(Some(r), RunStarted, 1)],
       handled := s.handled + [Handled(id, [Shown(id)])], acks := [])
  }

  lemma FromStarting(s: State, id: Text, r: RunId, p: Payload) returns (t: State)
    requires s.pc == Starting(id) && s.acks == [] && Free(s) && r !in s.runs && Sendable(p)
    ensures t == Started(s, id, r)
    ensures Execution(s, [LookActive] + ([TestBusy] + ([Register(r)] + ([AckStart] + ([EmitStarted(p)] + [StartThread])))), t)
  {
    var rest := [AckStart] + ([EmitStarted(p)] + [StartThread]);
    var s2 := s.(pc := Looked(id, s.active));
    var s3 := s.(pc := Admitted(id));
    t := FromAdmitted(s3, id, r, p);
    assert Apply(s2, TestBusy) == s3;
    Then(s2, TestBusy, [Register(r)] + rest, t);
    assert Apply(s, LookActive) == s2;
    Then(s, LookActive, [TestBusy] + ([Register(r)] + rest), t);
  }

  lemma FromAdmitted(s: State, id: Text, r: RunId, p: Payload) returns (t: State)
    requires s.pc == Admitted(id) && s.acks == [] && r !in s.runs && Sendable(p)
    ensures t == Started(s, id, r)
    ensures Execution(s, [Register(r)] + ([AckStart] + ([EmitStarted(p)] + [StartThread])), t)
  {
    var s4 := s.(pc := Launching(id, r), active := Some(r), runs := s.runs[r := RunState(0, 0, true, Registered)]);
    t := FromRegistered(s4, id, r, p);
    assert Apply(s, Register(r)) == s4;
    Then(s, Register(r), [AckStart] + ([EmitStarted(p)] + [StartThread]), t);
    assert t.runs == s.runs[r := RunState(1, 1, true, Running)];
  }

  lemma FromRegistered(s: State, id: Text, r: RunId, p: Payload) returns (t: State)
    requires s.pc == Launching(id, r) && r in s.runs && s.runs[r] == RunState(0, 0, true, Registered)
    requires s.acks == [] && Sendable(p)
    ensures Execution(s, [AckStart] + ([EmitStarted(p)] + [StartThread]), t)
    ensures t == s.(
      pc := Ready, runs := s.runs[r := RunState(1, 1, true, Running)],
      out := s.out + [Ack(Shown(id), true)] + [Event(Some(r), RunStarted, 1)],
      handled := s.handled + [Handled(id, [Shown(id)])])
  {
    OneAck(s, id, true);
    var s1 := s.(runs := s.runs[r := RunState(0, 0, true, Acked)], out := s.out + [Ack(Shown(id), true)], acks := [Shown(id)]);
    t := FromAcked(s1, id, r, p);
    assert Apply(s, AckStart) == s1;
    Then(s, AckStart, [EmitStarted(p)] + [StartThread], t);
    assert t.runs == s.runs[r := RunState(1, 1, true, Running)];
  }

  lemma FromAcked(s: State, id: Text, r: RunId, p: Payload) returns (t: State)
    requires s.pc == Launching(id, r) && r in s.runs && s.runs[r] == RunState(0, 0, true, Acked) && Sendable(p)
    ensures Execution(s, [EmitStarted(p)] + [StartThread], t)
    ensures t == s.(
      pc := Ready, runs := s.runs[r := RunState(1, 1, true, Running)],
      out := s.out + [Event(Some(r), RunStarted, 1)], handled := s.handled + [Handled(id, s.acks)], acks := [])
  {
    var s2 := s.(runs := s.runs[r := RunState(1, 1, true, Announced)], out := s.out + [Event(Some(r), RunStarted, 1)]);
    assert Apply(s, EmitStarted(p)) == s2;
    t := Apply(s2, StartThread);
    Then(s2, StartThread, [], t);
    Then(s, EmitStarted(p), [StartThread], t);
    assert t.runs == s.runs[r := RunState(1, 1, true, Running)];
  }

  /** While a run is on stage no other starts: the frame is answered by one bad ack. */
  lemma BusyIsRefused(earlier: seq<Step>, s: State, f: Frame) returns (t: State)
    requires Waiting(earlier, s) && s.welcomed && !s.fatal && !Free(s)
    requires AsksForRun(f)
    ensures Execution(s, [Receive(f), LookActive, TestBusy], t)
    ensures AnsweredAtOnce(s, t, f.id, false) && SameRuns(s, t) && t.pc == Ready
  {
    ReadyIsClean(earlier, s);
    OneAck(s, f.id, false);
    var s1 := s.(pc := Starting(f.id));
    var s2 := s.(pc := Looked(f.id, s.active));
    t := Apply(s2, TestBusy);
    assert t == Close(s2, f.id, false);
    Then(s2, TestBusy, [], t);
    assert Apply(s1, LookActive) == s2;
    Then(s1, LookActive, [TestBusy], t);
    assert Apply(s, Receive(f)) == s1;
    Then(s, Receive(f), [LookActive] + [TestBusy], t);
    assert [Receive(f)] + ([LookActive] + [TestBusy]) == [Receive(f), LookActive, TestBusy];
  }

  /** A frame that is declined further on gets its one bad ack as well, and leaves no run. */
  lemma DeclinedFrame(earlier: seq<Step>, s: State, id: Text)
    requires Execution(Init, earlier, s) && (s.pc == Starting(id) || s.pc == Admitted(id) || s.pc == Reporting(id))
    ensures
      var t := Apply(s, Decline);
      AnsweredAtOnce(s, t, id, false) && SameRuns(s, t) && SameHandshake(s, t) && t.pc == Ready
  {
    ReadyIsClean(earlier, s);
    OneAck(s, id, false);
    assert Apply(s, Decline) == Close(s, id, false);
  }

  function EndSteps(r: RunId, p: Payload): seq<Step> {
    [EmitFinished(r, p), ClearActive(r), SetDone(r)]
  }

  /** A run whose last event can be sent leaves the stage free, wherever the command loop stands. */
  lemma RunEnds(earlier: seq<Step>, s: State, r: RunId, p: Payload) returns (t: State)
    requires Execution(Init, earlier, s) && Sendable(p) && (InPhase(s, r, Running) || InPhase(s, r, Failing))
    ensures Execution(s, EndSteps(r, p), t)
    ensures t.out == s.out + [Event(Some(r), RunFinished, s.runs[r].taken + 1)]
    ensures t.active == None && Free(t) && InPhase(t, r, Done) && t.pc == s.pc && t.runs.Keys == s.runs.Keys
    ensures forall q :: q in s.runs && q != r ==> t.runs[q] == s.runs[q]
  {
    ReadyIsClean(earlier, s);
    assert Live(s, r);
    t := FromLast(s, r, p);
  }

  lemma FromLast(s: State, r: RunId, p: Payload) returns (t: State)
    requires s.active == Some(r) && Sendable(p) && (InPhase(s, r, Running) || InPhase(s, r, Failing))
    ensures Execution(s, EndSteps(r, p), t)
    ensures t.out == s.out + [Event(Some(r), RunFinished, s.runs[r].taken + 1)]
    ensures t.active == None && Free(t) && InPhase(t, r, Done) && t.pc == s.pc && t.runs.Keys == s.runs.Keys
    ensures forall q :: q in s.runs && q != r ==> t.runs[q] == s.runs[q]
  {
    var s1 := Apply(s, EmitFinished(r, p));
    var s2 := Apply(s1, ClearActive(r));
    t := Apply(s2, SetDone(r));
    Then(s2, SetDone(r), [], t);
    Then(s1, ClearActive(r), [SetDone(r)], t);
    Then(s, EmitFinished(r, p), [ClearActive(r)] + [SetDone(r)], t);
    assert [EmitFinished(r, p)] + ([ClearActive(r)] + [SetDone(r)]) == EndSteps(r, p);
  }

  /** A run that failed says so before it ends. */
  lemma RunFails(earlier: seq<Step>, s: State, r: RunId, p: Payload) returns (t: State)
    requires Execution(Init, earlier, s) && Sendable(p) && InPhase(s, r, Running)
    ensures Execution(s, [EmitError(r, p)], t)
    ensures t.out == s.out + [Event(Some(r), Error, s.runs[r].taken + 1)]
    ensures InPhase(t, r, Failing) && t.active == s.active && t.pc == s.pc
  {
    t := Apply(s, EmitError(r, p));
    Then(s, EmitError(r, p), [], t);
  }

  /** What a hook of a run on stage reports is written with the next number. */
  lemma ProgressIsWritten(s: State, r: RunId, hook: nat, p: Payload) returns (t: State)
    requires Sendable(p) && InPhase(s, r, Running) && s.runs[r].observed
    ensures Execution(s, [EmitProgress(r, hook, p)], t)
    ensures t.out == s.out + [Event(Some(r), Progress(hook), s.runs[r].taken + 1)]
    ensures t.runs == s.runs[r := s.runs[r].(taken := s.runs[r].taken + 1, written := s.runs[r].written + 1)]
  {
    t := Apply(s, EmitProgress(r, hook, p));
    Then(s, EmitProgress(r, hook, p), [], t);
  }

  /** An observer that raised, by itself or because its event could not be sent. */
  predicate Unobserved(s: State, r: RunId) {
    r in s.runs && !s.runs[r].observed
  }

  /** A run loses its observer when that raises, and when a step of progress cannot be sent. */
  lemma LosesItsObserver(s: State, r: RunId, hook: nat, p: Payload)
    requires InPhase(s, r, Running) && s.runs[r].observed
    ensures Unobserved(Apply(s, HookRaises(r)), r)
    ensures Unobserved(Apply(s, EmitProgress(r, hook, p)), r) <==> !Sendable(p)
  {
  }

  lemma FrameLeavesUnobserved(s: State, r: RunId, f: Frame)
    requires Unobserved(s, r)
    ensures Unobserved(HandleFrame(s, f), r)
  {
  }

  lemma StepLeavesUnobserved(s: State, r: RunId, step: Step)
    requires Unobserved(s, r) && Enabled(s, step) && !step.Receive?
    ensures Unobserved(Apply(s, step), r) && !(step.EmitProgress? && step.run == r)
  {
  }

  /** It is not called again: the run reports no further progress, whatever happens. */
  lemma {:induction false} NoProgressWithoutObserver(from: State, r: RunId, steps: seq<Step>, to: State)
    requires Execution(from, steps, to) && Unobserved(from, r)
    ensures Unobserved(to, r) && forall i :: 0 <= i < |steps| ==> !(steps[i].EmitProgress? && steps[i].run == r)
    decreases |steps|
  {
    if steps != [] {
      if steps[0].Receive? {
        FrameLeavesUnobserved(from, r, steps[0].frame);
      } else {
        StepLeavesUnobserved(from, r, steps[0]);
      }
      NoProgressWithoutObserver(Apply(from, steps[0]), r, steps[1..], to);
      forall i | 0 <= i < |steps|
        ensures !(steps[i].EmitProgress? && steps[i].run == r)
      {
        assert i > 0 ==> steps[i] == steps[1..][i - 1];
      }
    }
  }

  // ---- good acks and registered runs

  /** Whether a frame that asks for a run is in hand after the step. */
  predicate InHandAfter(step: Step, asking: bool) {
    if step.Receive? then AsksForRun(step.frame) else asking
  }

  /** How many good acks are written while a frame that asks for a run is in hand. */
  ghost function GoodStarts(s: State, steps: seq<Step>, to: State, asking: bool): int
    requires Execution(s, steps, to)
    decreases |steps|
  {
    if steps == [] then 0
    else
      var t, now := Apply(s, steps[0]), InHandAfter(steps[0], asking);
      (if now && !OfRunner(steps[0]) then OkAcks(t.out) - OkAcks(s.out) else 0) + GoodStarts(t, steps[1..], to, now)
  }

  /** The frame in hand asks for a run exactly when the command loop stands in the handler for that. */
  predicate KnowsHand(s: State, asking: bool) {
    && (s.pc.Starting? || s.pc.Looked? || s.pc.Admitted? || s.pc.Launching? ==> asking)
    && (s.pc.Welcoming? || s.pc.Reporting? || s.pc.ReportAcked? ==> !asking)
  }

  /** Runs whose good ack has been written. */
  function AckedRuns(s: State): int {
    |s.runs| - if LaunchAt(s, Registered) then 1 else 0
  }

  lemma FrameAcksNoRun(s: State, f: Frame)
    requires s.pc.Ready?
    ensures
      var t := HandleFrame(s, f);
      KnowsHand(t, AsksForRun(f)) && AckedRuns(t) == AckedRuns(s) && (AsksForRun(f) ==> OkAcks(t.out) == OkAcks(s.out))
  {
    if !f.TooDeep? {
      Extend(s.out, Ack(Shown(f.AckId()), false));
    }
  }

  lemma CommandAcksItsRun(s: State, step: Step, asking: bool)
    requires Enabled(s, step) && !OfRunner(step) && !step.Receive? && KnowsHand(s, asking)
    ensures
      var t := ApplyCommand(s, step);
      && KnowsHand(t, asking)
      && AckedRuns(t) == AckedRuns(s) + if asking then OkAcks(t.out) - OkAcks(s.out) else 0
  {
    var t := ApplyCommand(s, step);
    if t.out != s.out {
      LastLines(s.out, t.out);
    }
  }

  /** One further line, and what it says about good acks. */
  lemma LastLines(before: seq<Line>, after: seq<Line>)
    ensures |after| == |before| + 1 && after[..|before|] == before ==>
              OkAcks(after) == OkAcks(before) + if after[|before|].Ack? && after[|before|].ok then 1 else 0
  {
    if |after| == |before| + 1 && after[..|before|] == before {
      assert after == before + [after[|before|]];
      Extend(before, after[|before|]);
    }
  }

  lemma RunnerAcksNothing(s: State, step: Step, asking: bool)
    requires Enabled(s, step) && OfRunner(step) && KnowsHand(s, asking)
    ensures KnowsHand(ApplyRunner(s, step), asking) && AckedRuns(ApplyRunner(s, step)) == AckedRuns(s)
  {
    assert ApplyRunner(s, step).runs.Keys == s.runs.Keys;
    SameSize(s.runs, ApplyRunner(s, step).runs);
  }

  lemma SameSize(a: map<RunId, RunState>, b: map<RunId, RunState>)
    requires a.Keys == b.Keys
    ensures |a| == |b|
  {
    assert |a| == |a.Keys| && |b| == |b.Keys|;
  }

  lemma {:induction false} EachGoodAckIsARun(from: State, steps: seq<Step>, to: State, asking: bool)
    requires Execution(from, steps, to) && KnowsHand(from, asking)
    ensures AckedRuns(to) == AckedRuns(from) + GoodStarts(from, steps, to, asking)
    decreases |steps|
  {
    if steps != [] {
      var step := steps[0];
      if step.Receive? {
        FrameAcksNoRun(from, step.frame);
      } else if OfRunner(step) {
        RunnerAcksNothing(from, step, asking);
      } else {
        CommandAcksItsRun(from, step, asking);
      }
      EachGoodAckIsARun(Apply(from, step), steps[1..], to, InHandAfter(step, asking));
    }
  }

  /** Between two frames there are as many runs as frames asking for one were acked as good. */
  lemma GoodAcksAreRuns(steps: seq<Step>, s: State)
    requires Execution(Init, steps, s) && Idle(s.pc)
    ensures |s.runs| == GoodStarts(Init, steps, s, false)
  {
    EachGoodAckIsARun(Init, steps, s, false);
  }
}
