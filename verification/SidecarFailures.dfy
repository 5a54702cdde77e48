/** Runs of the sidecar in which something raises where nobody catches it. */
module SidecarFailures {
  import opened Options
  import opened Sidecar

  /** A frame of a hundred thousand opening brackets ends the process without an ack. */
  lemma TooDeepGetsNoAck(s: State)
    requires s == Apply(Init, Receive(TooDeep))
    ensures Execution(Init, [Receive(TooDeep)], s)
    ensures s.pc.Crashed? && AckIds(s.out) == [] && s.handled == [Handled([], [])]
  {
    assert [Receive(TooDeep)][1..] == [];
  }

  // ---- a run that is about to get its thread

  const HELLO := Request([1], true, Hello(PROTOCOL_VERSION))
  const RUN := Request([2], true, Run)
  const RUN_ID: RunId := 7

  /** What a stream leaves of a character cut in two by the model's tokens. */
  const LONE_SURROGATE := 0xD83D

  const PLAIN := Payload([], true)
  const CUT := Payload([LONE_SURROGATE], true)

  const Greeted := State(true, false, None, map[], {}, Ready, 1, 0,
                         [Ack([1], true), Event(None, Welcome, 1)], [], [Handled([1], [[1]])])

  function ByGreeting(rest: seq<Step>): seq<Step> {
    [Receive(HELLO)] + ([EmitWelcome(PLAIN)] + rest)
  }

  lemma Greeting(rest: seq<Step>, to: State)
    requires Execution(Greeted, rest, to)
    ensures Execution(Init, ByGreeting(rest), to)
  {
    assert Shown([1]) == [1];
    var s1 := Apply(Init, Receive(HELLO));
    assert s1 == State(true, false, None, map[], {}, Welcoming([1]), 0, 0, [Ack([1], true)], [[1]], []);
    assert Apply(s1, EmitWelcome(PLAIN)) == Greeted;
    Then(s1, EmitWelcome(PLAIN), rest, to);
    Then(Init, Receive(HELLO), [EmitWelcome(PLAIN)] + rest, to);
  }

  /** The run is registered and acked; its first event comes next. */
  const Accepted := Greeted.(
    active := Some(RUN_ID), runs := map[RUN_ID := RunState(0, 0, true, Acked)], pc := Launching([2], RUN_ID),
    out := [Ack([1], true), Event(None, Welcome, 1), Ack([2], true)], acks := [[2]])

  const Admitting := Greeted.(pc := Admitted([2]))

  function ByAdmitting(rest: seq<Step>): seq<Step> {
    ByGreeting([Receive(RUN)] + ([LookActive] + ([TestBusy] + rest)))
  }

  lemma ToAdmission(rest: seq<Step>, to: State)
    requires Execution(Admitting, rest, to)
    ensures Execution(Init, ByAdmitting(rest), to)
  {
    var s1 := Greeted.(pc := Starting([2]));
    var s2 := Greeted.(pc := Looked([2], None));
    assert Apply(Greeted, Receive(RUN)) == s1;
    assert Apply(s1, LookActive) == s2;
    assert Apply(s2, TestBusy) == Admitting;
    Then(s2, TestBusy, rest, to);
    Then(s1, LookActive, [TestBusy] + rest, to);
    Then(Greeted, Receive(RUN), [LookActive] + ([TestBusy] + rest), to);
    Greeting([Receive(RUN)] + ([LookActive] + ([TestBusy] + rest)), to);
  }

  function ByAccepting(rest: seq<Step>): seq<Step> {
    ByAdmitting([Register(RUN_ID)] + ([AckStart] + rest))
  }

  lemma Accepting(rest: seq<Step>, to: State)
    requires Execution(Accepted, rest, to)
    ensures Execution(Init, ByAccepting(rest), to)
  {
    var s4 := Greeted.(active := Some(RUN_ID), runs := map[RUN_ID := RunState(0, 0, true, Registered)],
                       pc := Launching([2], RUN_ID));
    assert Shown([2]) == [2];
    assert Apply(Admitting, Register(RUN_ID)) == s4;
    assert Apply(s4, AckStart) == Accepted;
    Then(s4, AckStart, rest, to);
    Then(Admitting, Register(RUN_ID), [AckStart] + rest, to);
    ToAdmission([Register(RUN_ID)] + ([AckStart] + rest), to);
  }

  /** The run is announced; its thread comes next. */
  const Announced := Accepted.(
    runs := map[RUN_ID := RunState(1, 1, true, Phase.Announced)],
    out := [Ack([1], true), Event(None, Welcome, 1), Ack([2], true), Event(Some(RUN_ID), RunStarted, 1)])

  function ByAnnouncing(rest: seq<Step>): seq<Step> {
    ByAccepting([EmitStarted(PLAIN)] + rest)
  }

  lemma Announcing(rest: seq<Step>, to: State)
    requires Execution(Announced, rest, to)
    ensures Execution(Init, ByAnnouncing(rest), to)
  {
    assert Apply(Accepted, EmitStarted(PLAIN)) == Announced;
    Then(Accepted, EmitStarted(PLAIN), rest, to);
    Accepting([EmitStarted(PLAIN)] + rest, to);
  }

  lemma Twice(id: Text)
    requires Encodable(id)
    ensures Shown(id) == id && [id] + [Shown(id)] == [id, id]
  {
  }

  lemma CannotBeEncoded()
    ensures !Sendable(CUT) && Sendable(PLAIN)
  {
    assert Surrogate([LONE_SURROGATE][0]);
  }

  lemma AcksOfTwo(a: Handled, b: Handled)
    ensures AcksOf([a, b]) == a.acks + b.acks && HandledIds([a, b]) == [a.id, b.id]
  {
    assert [a, b][..1] == [a];
    assert [a][..0] == [];
    assert AcksOf([a]) == AcksOf([]) + a.acks;
  }

  /** The state after a thread that could not be started. */
  const Orphaned := Announced.(
    runs := map[RUN_ID := RunState(1, 1, true, Orphan)], pc := Ready, acks := [],
    out := Announced.out + [Ack([2], false)],
    handled := [Handled([1], [[1]]), Handled([2], [[2], [2]])])

  lemma OrphanIsReached()
    ensures Execution(Init, ByAnnouncing([ThreadFails]), Orphaned)
  {
    Twice([2]);
    assert Apply(Announced, ThreadFails) == Orphaned;
    Then(Announced, ThreadFails, [], Orphaned);
    Announcing([ThreadFails], Orphaned);
  }

  /** A thread that cannot be started: one frame with two acks, and a run that keeps the sidecar busy. */
  lemma ThreadFailureAcksTwice() returns (steps: seq<Step>, s: State)
    ensures Execution(Init, steps, s) && s.pc.Ready?
    ensures FrameIds(steps) == [[1], [2]] && AckIds(s.out) == [[1], [2], [2]]
    ensures Stuck(s, RUN_ID)
  {
    steps, s := ByAnnouncing([ThreadFails]), Orphaned;
    OrphanIsReached();
    AcksOfTwo(s.handled[0], s.handled[1]);
    OneAckPerFrame(steps, s);
  }

  /** The state after a `run_started` that could not be encoded, say for its model name. */
  const Stillborn := Greeted.(
    active := Some(RUN_ID), runs := map[RUN_ID := RunState(1, 0, false, Orphan)],
    out := [Ack([1], true), Event(None, Welcome, 1), Ack([2], true), Ack([2], false)],
    handled := [Handled([1], [[1]]), Handled([2], [[2], [2]])])

  /** It is acked twice, and the run keeps the sidecar busy without a single line. */
  lemma UnsentStartAcksTwice()
    ensures Execution(Init, ByAccepting([EmitStarted(CUT)]), Stillborn)
    ensures RunLines(Stillborn.out, RUN_ID) == [] && Stuck(Stillborn, RUN_ID)
  {
    Twice([2]);
    CannotBeEncoded();
    assert Apply(Accepted, EmitStarted(CUT)) == Stillborn;
    Then(Accepted, EmitStarted(CUT), [], Stillborn);
    Accepting([EmitStarted(CUT)], Stillborn);
    LinesOfStillborn();
  }

  lemma LinesOfStillborn()
    ensures RunLines(Stillborn.out, RUN_ID) == []
  {
    var o := Stillborn.out;
    assert o == [] + [o[0]] + [o[1]] + [o[2]] + [o[3]];
    Extend([], o[0]);
    Extend([] + [o[0]], o[1]);
    Extend([] + [o[0]] + [o[1]], o[2]);
    Extend([] + [o[0]] + [o[1]] + [o[2]], o[3]);
  }

  // ---- a run whose thread works

  const Working := Announced.(
    runs := map[RUN_ID := RunState(1, 1, true, Running)], pc := Ready,
    acks := [], handled := [Handled([1], [[1]]), Handled([2], [[2]])])

  function ByStarting(rest: seq<Step>): seq<Step> {
    ByAnnouncing([StartThread] + rest)
  }

  lemma GetToWork(rest: seq<Step>, to: State)
    requires Execution(Working, rest, to)
    ensures Execution(Init, ByStarting(rest), to)
  {
    assert Apply(Announced, StartThread) == Working;
    Then(Announced, StartThread, rest, to);
    Announcing([StartThread] + rest, to);
  }

  lemma LinesOfWorking()
    ensures RunLines(Working.out, RUN_ID) == [Event(Some(RUN_ID), RunStarted, 1)]
  {
    var o := Working.out;
    assert o == [] + [o[0]] + [o[1]] + [o[2]] + [o[3]];
    Extend([], o[0]);
    Extend([] + [o[0]], o[1]);
    Extend([] + [o[0]] + [o[1]], o[2]);
    Extend([] + [o[0]] + [o[1]] + [o[2]], o[3]);
  }

  /** One streamed piece that cannot be encoded: the run finishes, and a number is missing. */
  lemma UnsentPieceLeavesAGap() returns (steps: seq<Step>, s: State)
    ensures Execution(Init, steps, s) && InPhase(s, RUN_ID, Finished)
    ensures RunLines(s.out, RUN_ID) == [Event(Some(RUN_ID), RunStarted, 1), Event(Some(RUN_ID), RunFinished, 3)]
  {
    var piece, finish := EmitProgress(RUN_ID, 0, CUT), EmitFinished(RUN_ID, PLAIN);
    steps := ByStarting([piece] + [finish]);
    var s1 := Working.(runs := map[RUN_ID := RunState(2, 1, false, Running)]);
    CannotBeEncoded();
    assert Apply(Working, piece) == s1;
    s := Apply(s1, finish);
    assert s == s1.(runs := map[RUN_ID := RunState(3, 2, false, Finished)],
                    out := Working.out + [Event(Some(RUN_ID), RunFinished, 3)]);
    Then(s1, finish, [], s);
    Then(Working, piece, [finish], s);
    GetToWork([piece] + [finish], s);
    LinesOfWorking();
    Extend(Working.out, Event(Some(RUN_ID), RunFinished, 3));
  }

  /** A summary that cannot be encoded: the run never finishes, and no other run will start. */
  lemma UnsentSummaryStopsEverything(more: seq<Step>, to: State) returns (steps: seq<Step>, s: State)
    ensures Execution(Init, steps, s) && InPhase(s, RUN_ID, Dead)
    ensures RunLines(s.out, RUN_ID) == [Event(Some(RUN_ID), RunStarted, 1)]
    ensures Execution(s, more, to) ==> to.runs.Keys == {RUN_ID} && Stuck(to, RUN_ID)
  {
    var finish := EmitFinished(RUN_ID, CUT);
    steps := ByStarting([finish]);
    s := Apply(Working, finish);
    CannotBeEncoded();
    assert s == Working.(runs := map[RUN_ID := RunState(2, 1, false, Dead)]);
    Then(Working, finish, [], s);
    GetToWork([finish], s);
    LinesOfWorking();
    if Execution(s, more, to) {
      InitIsGood();
      ExecutionKeepsInv(Init, steps, s);
      StuckRunBlocksEveryRun(s, RUN_ID, more, to);
    }
  }

  // ---- events of the command loop

  /** The state after a `welcome` that could not be encoded. */
  const Stammering := State(true, false, None, map[], {}, Ready, 1, 1, [Ack([1], true), Ack([1], false)], [],
                            [Handled([1], [[1], [1]])])

  /** It is acked twice, and its number is missing ever after. */
  lemma UnsentWelcomeAcksTwice()
    ensures Execution(Init, [Receive(HELLO)] + [EmitWelcome(CUT)], Stammering)
    ensures SessionSeqs(Stammering.out) == [] && AckIds(Stammering.out) == [[1], [1]]
  {
    var s1 := State(true, false, None, map[], {}, Welcoming([1]), 0, 0, [Ack([1], true)], [[1]], []);
    Twice([1]);
    CannotBeEncoded();
    assert Apply(Init, Receive(HELLO)) == s1;
    assert Apply(s1, EmitWelcome(CUT)) == Stammering;
    Then(s1, EmitWelcome(CUT), [], Stammering);
    Then(Init, Receive(HELLO), [EmitWelcome(CUT)], Stammering);
    TwoLines(Ack([1], true), Ack([1], false));
  }

  lemma TwoLines(a: Line, b: Line)
    requires a.Ack? && b.Ack?
    ensures SessionSeqs([a, b]) == [] && AckIds([a, b]) == [a.id, b.id]
  {
    assert [] + [a] == [a] && [a] + [b] == [a, b];
    Extend([], a);
    Extend([a], b);
  }

  /** An id that cannot be encoded comes back changed. */
  lemma UnsentIdComesBackChanged(id: Text)
    requires !Encodable(id)
    ensures
      var frame := Receive(Request(id, true, Hello(0)));
      var s := Apply(Init, frame);
      && Execution(Init, [frame], s)
      && s.handled == [Handled(id, [Shown(id)])] && !AckedOnce(s.handled[0])
  {
    var frame := Receive(Request(id, true, Hello(0)));
    var s := Apply(Init, frame);
    Then(Init, frame, [], s);
    assert Shown(id) != id;
    assert s.handled[0].acks == [Shown(id)];
    assert [Shown(id)][0] != [id][0];
  }
}
