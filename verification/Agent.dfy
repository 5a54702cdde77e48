/**
 One agent run: observe, ask the model, call tools, finalize.

 The model, the engine, the validator and the interrupt flag are arbitrary: a `World` fixes an
 answer for every question a run can ask, and everything below holds for every `World`.
 Wall-clock times and free-text notes are not modelled.
 */
module Agent {
  import opened Options
  import opened AgentEvents
  import opened Messages
  import opened Policy

  const MAX_INVALID_ARG_ROUNDS: nat := 3

  // ---- what a run is told

  datatype Call = Call(tool: string, args: string)

  datatype Draft = Draft(title: string, body: string)

  /** A finding as the model wrote it: it parses, it does not, or parsing raises past the run. */
  datatype Payload = Parses(draft: Draft) | Unparsable | Unforeseen

  datatype Kind = ToolKind | FinalKind | GiveUpKind | OtherKind

  /** A tool call as the model wrote it; `args` is the text of the parsed value, None when it is no JSON. */
  datatype RawCall = RawCall(id: string, name: string, args: Option<string>)

  datatype RawMessage = RawMessage(text: string, calls: seq<RawCall>) {
    /** The ids of the calls the message asks for. */
    function Ids(): seq<string> {
      seq(|calls|, i requires 0 <= i < |calls| => calls[i].id)
    }
  }

  datatype Usage = Usage(tokensIn: int, tokensOut: int, cacheHits: int, cacheMisses: int)

  datatype Decision = Decision(
    kind: Kind,
    tool: string,
    args: Option<string>,
    calls: seq<Call>,
    callIds: seq<string>,
    findings: seq<Payload>,
    malformed: bool,
    summary: string,
    usage: Usage,
    message: Option<RawMessage>)
  {
    /** All tool calls of this round, in the model's order. */
    function IterCalls(): (r: seq<Call>)
      ensures calls != [] ==> r == calls
      ensures calls == [] && tool != "" ==> |r| == 1 && r[0].tool == tool && (args.Some? ==> r[0].args == args.value)
      ensures calls == [] && tool == "" ==> r == []
    {
      if calls != [] then calls
      else if tool != "" then [Call(tool, if args.Some? then args.value else "{}")]
      else []
    }

    /** Nothing is done with such a decision; it costs a retry. */
    predicate Void() {
      malformed || (kind.ToolKind? && args.None?)
    }

    /** The ids the model's message asked for. */
    function Requests(): seq<string> {
      if message.Some? then message.value.Ids() else []
    }

    /** The decision carries the model's message, and its calls are those the message asks for. */
    predicate Coherent() {
      && message.Some?
      && if message.value.calls == [] then IterCalls() == []
         else kind.ToolKind? && (Void() || (|IterCalls()| == |callIds| && callIds == Requests()))
    }
  }

  /** What the final text parses to, when there is one. */
  datatype FinalBody = FinalBody(findings: seq<Payload>, summary: string)

  /** JSON `null` is parsed into nothing. */
  function NotNull(json: string): Option<string> {
    if json == "null" then None else Some(json)
  }

  /** How a chat provider turns the model's message into a decision. */
  function DecisionFromMessage(m: RawMessage, body: FinalBody, usage: Usage): (d: Decision)
    ensures d.Coherent() && d.message == Some(m)
    ensures m.calls == [] ==> d.kind.FinalKind? && d.IterCalls() == []
    ensures m.calls == [] && m.text != "" ==> d.findings == body.findings && d.summary == body.summary
    ensures m.calls != [] || m.text == "" ==> d.findings == [] && d.summary == ""
    ensures d.usage == usage
    ensures d.malformed <==>
            if m.calls == [] then m.text == "" else exists i :: 0 <= i < |m.calls| && m.calls[i].args.None?
    ensures !d.malformed && m.calls != [] ==>
              |d.IterCalls()| == |m.calls| == |d.callIds|
              && (forall i :: 0 <= i < |m.calls| ==>
                    m.calls[i].args == Some(d.IterCalls()[i].args) && m.calls[i].name == d.IterCalls()[i].tool)
              && (d.Void() <==> m.calls[0].args == Some("null"))
  {
    if m.calls != [] then
      var bad := FirstUnparsable(m.calls);
      if bad < |m.calls| then
        Decision(ToolKind, m.calls[bad].name, None, [], [], [], true, "", usage, Some(m))
      else
        var calls := seq(|m.calls|, i requires 0 <= i < |m.calls| => Call(m.calls[i].name, m.calls[i].args.value));
        Decision(ToolKind, calls[0].tool, NotNull(calls[0].args), calls, m.Ids(), [], false, "", usage, Some(m))
    else if m.text == "" then
      Decision(FinalKind, "", None, [], [], [], true, "", usage, Some(m))
    else
      Decision(FinalKind, "", None, [], [], body.findings, false, body.summary, usage, Some(m))
  }

  function FirstUnparsable(calls: seq<RawCall>): (n: nat)
    ensures n <= |calls| && (n < |calls| ==> calls[n].args.None?)
    ensures forall i :: 0 <= i < n ==> calls[i].args.Some?
  {
    if calls == [] || calls[0].args.None? then 0 else 1 + FirstUnparsable(calls[1..])
  }

  datatype Piece = Piece(channel: string, text: string, toolName: Option<string>)

  /** The pieces of the answer of a step, as they are passed on. */
  function Deltas(step: nat, pieces: seq<Piece>): seq<Event> {
    seq(|pieces|, i requires 0 <= i < |pieces| => Delta(step, pieces[i].channel, pieces[i].text, pieces[i].toolName))
  }

  lemma DeltasOfMore(step: nat, pieces: seq<Piece>, i: nat, before: seq<Event>)
    requires i < |pieces|
    ensures before + Deltas(step, pieces[..i + 1])
            == before + Deltas(step, pieces[..i]) + [Delta(step, pieces[i].channel, pieces[i].text, pieces[i].toolName)]
  {
  }

  /** An answer is `Uncountable` when a token count in it is no number. */
  datatype ProviderReply =
    | Reply(pieces: seq<Piece>, decision: Decision)
    | Uncountable(pieces: seq<Piece>, decision: Decision)
    | ProviderRaises(pieces: seq<Piece>)
  {
    function Requests(): seq<string> {
      if ProviderRaises? then [] else decision.Requests()
    }

    predicate Calm() {
      Reply? && Unforeseen !in decision.findings
    }
  }

  /** Counting a finished call either works, or raises before or after the counter went up. */
  datatype Note = Noted | NoteRaises(counted: bool)

  datatype ToolReply =
    | Answer(ok: bool, args: string, summary: string, envelope: string, note: Note)
    | IllegalArgs(reason: string, note: Note)
    | EngineRaises
  {
    predicate Calm() {
      !EngineRaises? && note.Noted?
    }
  }

  datatype Verdict =
    | ValidateFails(error: string)
    | Rejects(code: string)
    | Downgrades(code: string)
    | Accepts
    | ValidateRaises

  /** A garbled answer raises once `shown` of the outcomes in it have been reported. */
  datatype SubmitReply =
    | SubmitFails
    | Stored(ids: seq<string>, refused: seq<string>, unknown: nat)
    | Garbled(ids: seq<string>, refused: seq<string>, unknown: nat, shown: nat)

  datatype PreloadedFact = PreloadedFact(tool: string, args: string, summary: string)

  /** Fetching the facts may raise, and so may taking in the one after `facts`. */
  datatype PreloadReply =
    | Facts(facts: seq<PreloadedFact>)
    | FetchRaises
    | FactRaises(facts: seq<PreloadedFact>, broken: PreloadedFact)

  datatype World = World(
    preload: PreloadReply,
    decide: nat -> ProviderReply,
    engine: nat -> ToolReply,
    verdict: nat -> Verdict,
    submit: SubmitReply,
    interrupted: nat -> bool,
    fallback: string,
    system: Message,
    question: Message,
    feedback: string)
  {
    predicate WellFormed() {
      system.role.System? && question.role.User?
    }

    ghost predicate Coherent() {
      forall k :: !decide(k).ProviderRaises? ==> decide(k).decision.Coherent()
    }

    /** Nothing in this world raises. */
    ghost predicate Calm() {
      && preload.Facts?
      && (forall k :: decide(k).Calm())
      && (forall k :: engine(k).Calm())
      && (forall k :: !verdict(k).ValidateRaises?)
      && !submit.Garbled?
    }

    /** How many tool calls the model asks for in its first `rounds` answers. */
    function Asked(rounds: nat): nat {
      if rounds == 0 then 0 else Asked(rounds - 1) + |decide(rounds - 1).Requests()|
    }

    /** The pieces streamed in the first `rounds` answers. */
    function Said(rounds: nat): seq<Event> {
      if rounds == 0 then [] else Said(rounds - 1) + Deltas(rounds, decide(rounds - 1).pieces)
    }

    /** What the first `rounds` answers leave of a run. */
    function Minutes(rounds: nat): Minutes {
      if rounds == 0 then NothingYet
      else
        var m, reply := Minutes(rounds - 1), decide(rounds - 1);
        if reply.Reply? then Heard(m, reply.decision, feedback, engine) else m
    }

    /** How many of those stand in answers that nothing is done with. */
    function Dropped(rounds: nat): nat {
      if rounds == 0 then 0
      else
        var reply := decide(rounds - 1);
        Dropped(rounds - 1) + if !reply.ProviderRaises? && reply.decision.Void() then |reply.Requests()| else 0
    }
  }

  // ---- what a run produces

  datatype Status = StatusOk | Degraded | StatusFailed

  datatype Record = Record(step: nat, tool: string, args: string, summary: string, status: CallStatus)

  datatype Complaint = Complaint(title: string, code: string, downgraded: bool)

  datatype RunResult = RunResult(
    status: Status,
    findings: seq<Draft>,
    trace: seq<Record>,
    stopReason: Option<StopReason>,
    malformedOutput: bool,
    summary: string,
    submitRejects: nat,
    stored: seq<string>)

  const FreshResult := RunResult(StatusOk, [], [], None, false, "", 0, [])

  /** A run returns, or one of its calls raises and the exception leaves the run. */
  datatype Outcome =
    | Completed
    | PreloadRaised
    | DecideRaised
    | CountRaised
    | ToolRaised
    | NoteRaised
    | FinalizeRaised
    | SubmitRaised

  /** What becomes of the loop after one answer. */
  datatype Flow = GoOn | Leave | Raised(how: Outcome)

  // ---- what the answers heard so far leave of a run

  /**
   The last findings and the last summary of a final answer, the last words of any answer, the calls
   to carry out and the messages exchanged about them. `forgiven` answers were void or not readable,
   `finals` final answers were taken, and the last answer may end the run if it is `closing`.
   */
  datatype Minutes = Minutes(
    findings: seq<Draft>,
    summary: string,
    lastWords: string,
    garbled: bool,
    forgiven: nat,
    finals: nat,
    gaveUp: bool,
    closing: bool,
    orders: seq<Call>,
    talk: seq<Message>)

  const NothingYet := Minutes([], "", "", false, 0, 0, false, false, [], [])

  /** Nothing can be done with such an answer. */
  predicate Wasted(d: Decision) {
    d.malformed || (d.kind == ToolKind && d.args == None)
  }

  /** The model's own message, asking for its calls. */
  function Spoken(d: Decision): seq<Message> {
    if d.message.Some? then [Message(Assistant, d.message.value.text, d.message.value.Ids(), None)] else []
  }

  /** An empty note is not passed on. */
  function NoteOf(text: string): seq<Message> {
    if text == "" then [] else [Message(User, text, [], None)]
  }

  /** The results of the calls of one answer, when its first call gets answer t of the engine. */
  function Results(calls: seq<Call>, callIds: seq<string>, engine: nat -> ToolReply, t: nat): seq<Message> {
    seq(|calls|, i requires 0 <= i < |calls| => ResultMessage(if i < |callIds| then Some(callIds[i]) else None, engine(t + i)))
  }

  function Heard(m: Minutes, d: Decision, feedback: string, engine: nat -> ToolReply): Minutes {
    var n := m.(lastWords := if d.summary != "" then d.summary else m.lastWords, closing := false, talk := m.talk + Spoken(d));
    if Wasted(d) then
      n.(forgiven := m.forgiven + 1, garbled := m.garbled || m.forgiven > 0, closing := m.forgiven > 0)
    else match d.kind
      case FinalKind =>
        var broken := exists i :: 0 <= i < |d.findings| && !d.findings[i].Parses?;
        if broken && m.forgiven == 0 then n.(summary := d.summary, forgiven := 1)
        else n.(summary := d.summary, findings := ParsedDrafts(d.findings), garbled := m.garbled || broken,
                finals := m.finals + 1, closing := true, talk := n.talk + NoteOf(feedback))
      case GiveUpKind =>
        n.(gaveUp := true, closing := true)
      case _ =>
        n.(orders := m.orders + d.IterCalls(), talk := n.talk + Results(d.IterCalls(), d.callIds, engine, |m.orders|))
  }

  /** The part of an agent's state that the answers determine. */
  datatype View = View(result: RunResult, messages: Option<seq<Message>>, repairs: nat)

  predicate Views(v: View, u: View) {
    v == u
  }

  predicate Same(d: Decision, e: Decision) {
    d == e
  }

  ghost predicate Becomes(m: Minutes, d: Decision, w: World, next: Minutes) {
    forall e :: Same(d, e) ==> next == Heard(m, e, w.feedback, w.engine)
  }

  /** The table after this talk, if one is kept. */
  function Talked(start: Option<seq<Message>>, talk: seq<Message>): Option<seq<Message>> {
    if start.Some? then Some(start.value + talk) else None
  }

  predicate Keeps(r: RunResult, m: Minutes) {
    && r.findings == m.findings && r.summary == m.summary && r.malformedOutput == m.garbled
    && r.status == (if m.garbled then Degraded else StatusOk)
    && r.stopReason == None && r.submitRejects == 0 && r.stored == []
  }

  /** A run that goes on: it was forgiven at most once, and every final answer so far was sent back for repair. */
  ghost predicate Minuted(v: View, m: Minutes, retries: nat, talk: seq<Message>, start: Option<seq<Message>>, w: World) {
    forall u :: Views(v, u) ==>
      && Keeps(u.result, m) && retries == m.forgiven <= 1 && u.repairs == m.finals && !m.gaveUp
      && |u.result.trace| == |m.orders| && Performed(u.result.trace, m.orders, w.engine)
      && u.messages == Talked(start, talk)
  }

  /** What the table lacks: the results of the calls that were not run, or the note about a repair. */
  predicate Lacks(rest: seq<Message>, unrun: int) {
    || (|rest| == unrun && forall i :: 0 <= i < |rest| ==> rest[i].role.Tool?)
    || (unrun == 0 && |rest| <= 1 && forall i :: 0 <= i < |rest| ==> rest[i].role.User?)
  }

  /** Why a run without a reason to stop was over, or what the reason is about. */
  predicate HasCause(r: RunResult, m: Minutes, w: World, steps: nat) {
    match r.stopReason
    case None => m.closing
    case Some(Interrupted) => w.interrupted(steps) && r.trace != []
    case Some(reason) => |r.trace| < |m.orders| ==> reason.OfCall()
  }

  predicate EndsWith(r: RunResult, m: Minutes, w: World, steps: nat) {
    && r.findings == m.findings && r.summary == m.summary && r.malformedOutput == m.garbled
    && (r.status == if m.garbled || m.gaveUp || r.stopReason == Some(InvalidArguments) || r.stopReason == Some(Interrupted)
                    then Degraded else StatusOk)
    && HasCause(r, m, w, steps)
    && (|r.trace| < |m.orders| ==> r.stopReason.Some? && r.stopReason.value.OfCall())
    && r.submitRejects == 0 && r.stored == []
  }

  /** A run whose loop is over. */
  ghost predicate Left(v: View, m: Minutes, start: Option<seq<Message>>, w: World, steps: nat) {
    forall u :: Views(v, u) ==>
      LeftWith(u.result, m, w, steps) && TableLeft(u.messages, start, m, |m.orders| - |u.result.trace|, [])
  }

  /** The table holds the talk as far as it went, and these last words. */
  ghost predicate TableLeft(messages: Option<seq<Message>>, start: Option<seq<Message>>, m: Minutes, unrun: int, last: seq<Message>) {
    exists n: nat :: n <= |m.talk| && messages == Talked(start, m.talk[..n] + last) && Lacks(m.talk[n..], unrun)
  }

  ghost predicate LeftWith(r: RunResult, m: Minutes, w: World, steps: nat) {
    EndsWith(r, m, w, steps) && Performed(r.trace, m.orders, w.engine)
  }

  lemma OpenLeft(v: View, m: Minutes, start: Option<seq<Message>>, w: World, steps: nat)
    requires Left(v, m, start, w, steps)
    ensures LeftWith(v.result, m, w, steps) && TableLeft(v.messages, start, m, |m.orders| - |v.result.trace|, [])
  {
    assert Views(v, v);
  }

  lemma NothingStored(v: View, m: Minutes, start: Option<seq<Message>>, w: World, steps: nat)
    requires Left(v, m, start, w, steps)
    ensures v.result.stored == [] && v.result.summary == m.summary && v.result.findings == m.findings
  {
    assert Views(v, v);
  }

  lemma LeaveNow(v: View, m: Minutes, talk: seq<Message>, rest: seq<Message>, start: Option<seq<Message>>, w: World, steps: nat)
    requires LeftWith(v.result, m, w, steps) && m.talk == talk + rest && v.messages == Talked(start, talk)
    requires Lacks(rest, |m.orders| - |v.result.trace|)
    ensures Left(v, m, start, w, steps)
  {
    assert m.talk[..|talk|] == talk && m.talk[|talk|..] == rest;
    assert m.talk[..|talk|] + [] == talk;
  }

  /** The head of the loop: the run ends between two rounds. */
  lemma EndsBetween(v: View, stopReason: StopReason, m: Minutes, retries: nat, start: Option<seq<Message>>, w: World, steps: nat)
    requires Minuted(v, m, retries, m.talk, start, w) && stopReason != InvalidArguments
    requires stopReason == Interrupted ==> w.interrupted(steps) && v.result.trace != []
    ensures
      var status := if stopReason == Interrupted then Degraded else v.result.status;
      Left(v.(result := v.result.(status := status, stopReason := Some(stopReason))), m, start, w, steps)
  {
    assert Views(v, v);
    var status := if stopReason == Interrupted then Degraded else v.result.status;
    assert m.talk == m.talk + [];
    LeaveNow(v.(result := v.result.(status := status, stopReason := Some(stopReason))), m, m.talk, [], start, w, steps);
  }

  lemma AfterWasted(v: View, m: Minutes, d: Decision, next: Minutes, retries: nat, start: Option<seq<Message>>, w: World, steps: nat)
    requires Minuted(v, m, retries, m.talk + Spoken(d), start, w) && Becomes(m, d, w, next) && Wasted(d)
    ensures retries == 0 ==> Minuted(v, next, 1, next.talk, start, w)
    ensures retries > 0 ==> Left(v.(result := v.result.(status := Degraded, malformedOutput := true)), next, start, w, steps)
  {
    assert Views(v, v) && Same(d, d);
    if retries > 0 {
      assert next.talk == next.talk + [];
      LeaveNow(v.(result := v.result.(status := Degraded, malformedOutput := true)), next, next.talk, [], start, w, steps);
    }
  }

  lemma AfterGivingUp(v: View, m: Minutes, d: Decision, next: Minutes, retries: nat, start: Option<seq<Message>>, w: World, steps: nat)
    requires Minuted(v, m, retries, m.talk + Spoken(d), start, w) && Becomes(m, d, w, next) && !Wasted(d) && d.kind.GiveUpKind?
    ensures Left(v.(result := v.result.(status := Degraded)), next, start, w, steps)
  {
    assert Views(v, v) && Same(d, d);
    assert next.talk == next.talk + [];
    LeaveNow(v.(result := v.result.(status := Degraded)), next, next.talk, [], start, w, steps);
  }

  /** A final answer whose findings cannot all be read is forgiven once. */
  lemma AfterForgiving(v: View, m: Minutes, d: Decision, next: Minutes, start: Option<seq<Message>>, w: World)
    requires Minuted(v, m, 0, m.talk + Spoken(d), start, w) && Becomes(m, d, w, next) && !Wasted(d) && d.kind.FinalKind?
    requires |ParsedDrafts(d.findings)| < |d.findings|
    ensures Minuted(v.(result := v.result.(summary := d.summary)), next, 1, next.talk, start, w)
  {
    assert Views(v, v) && Same(d, d);
  }

  /** The result with these findings, some of which could perhaps not be read. */
  function Given(r: RunResult, drafts: seq<Draft>, malformed: bool): RunResult {
    r.(findings := drafts, malformedOutput := r.malformedOutput || malformed, status := if malformed then Degraded else r.status)
  }

  /** What a final answer that was taken makes of the result. */
  function Taken(r: RunResult, d: Decision): RunResult {
    Given(r.(summary := d.summary), ParsedDrafts(d.findings), |ParsedDrafts(d.findings)| < |d.findings|)
  }

  /** What a run says in the end: its last summary, else the last words of the model, else one more answer. */
  predicate Speaks(summary: string, m: Minutes, fallback: string) {
    && (m.summary != "" ==> summary == m.summary)
    && (m.summary == "" && m.lastWords != "" ==> summary == m.lastWords)
    && (m.summary == "" && m.lastWords == "" ==> summary == fallback)
  }

  /** That one more answer stands in the table, if there is one. */
  function OneMoreAnswer(m: Minutes, fallback: string): seq<Message> {
    if m.summary == "" && m.lastWords == "" && fallback != "" then [Message(Assistant, fallback, [], None)] else []
  }

  lemma LastAnswer(messages: Option<seq<Message>>, start: Option<seq<Message>>, m: Minutes, unrun: int, last: seq<Message>)
    requires TableLeft(messages, start, m, unrun, [])
    ensures TableLeft(if messages.Some? then Some(messages.value + last) else None, start, m, unrun, last)
  {
    var n: nat :| n <= |m.talk| && messages == Talked(start, m.talk[..n] + []) && Lacks(m.talk[n..], unrun);
    assert m.talk[..n] + [] == m.talk[..n];
    assert start.Some? ==> start.value + m.talk[..n] + last == start.value + (m.talk[..n] + last);
  }

  lemma LastWords(m: Minutes, d: Decision, w: World, next: Minutes)
    requires Becomes(m, d, w, next)
    ensures next.lastWords == if d.summary != "" then d.summary else m.lastWords
  {
    assert Same(d, d);
  }

  /** The decision in an answer; none is needed when the model raises. */
  function AnswerOf(reply: ProviderReply): Decision {
    if reply.ProviderRaises? then Decision(GiveUpKind, "", None, [], [], [], false, "", Usage(0, 0, 0, 0), None)
    else reply.decision
  }

  /** What raises when this answer comes in. */
  function FaultOf(reply: ProviderReply): Option<Outcome> {
    match reply
    case Reply(_, _) => None
    case Uncountable(_, _) => Some(CountRaised)
    case ProviderRaises(_) => Some(DecideRaised)
  }

  predicate SameCount(i: nat, j: nat) {
    i == j
  }

  /** What the first `rounds` answers amount to, out of the verifier's sight; `TheMinutes` looks. */
  ghost predicate AreMinutes(w: World, rounds: nat, m: Minutes) {
    forall n :: SameCount(rounds, n) ==> w.Minutes(n) == m
  }

  lemma TheMinutes(w: World, rounds: nat, m: Minutes)
    requires AreMinutes(w, rounds, m)
    ensures m == w.Minutes(rounds)
  {
    assert SameCount(rounds, rounds);
  }

  lemma NextMinutes(w: World, rounds: nat, m: Minutes, next: Minutes)
    requires AreMinutes(w, rounds, m) && w.decide(rounds).Reply? && Becomes(m, w.decide(rounds).decision, w, next)
    ensures AreMinutes(w, rounds + 1, next)
  {
    assert SameCount(rounds, rounds) && Same(w.decide(rounds).decision, w.decide(rounds).decision);
  }

  lemma AfterTaking(v: View, m: Minutes, d: Decision, next: Minutes, retries: nat, start: Option<seq<Message>>, w: World,
                    steps: nat, stopReason: Option<StopReason>)
    requires Minuted(v, m, retries, m.talk + Spoken(d), start, w) && Becomes(m, d, w, next) && !Wasted(d) && d.kind.FinalKind?
    requires |ParsedDrafts(d.findings)| < |d.findings| ==> retries > 0
    requires stopReason != Some(InvalidArguments) && stopReason != Some(Interrupted)
    ensures Minuted(
      View(Taken(v.result, d), if v.messages.Some? then Some(v.messages.value + NoteOf(w.feedback)) else None, v.repairs + 1),
      next, retries, next.talk, start, w)
    ensures Left(v.(result := Taken(v.result, d).(stopReason := stopReason)), next, start, w, steps)
  {
    assert Views(v, v) && Same(d, d);
    var talk, note := m.talk + Spoken(d), NoteOf(w.feedback);
    assert start.Some? ==> start.value + talk + note == start.value + (talk + note);
    LeaveNow(v.(result := Taken(v.result, d).(stopReason := stopReason)), next, talk, note, start, w, steps);
  }

  /** What tool calls add to the minutes. */
  lemma HeardCalls(m: Minutes, d: Decision, next: Minutes, w: World)
    requires Becomes(m, d, w, next) && !Wasted(d) && (d.kind.ToolKind? || d.kind.OtherKind?)
    ensures next == m.(
      lastWords := next.lastWords, closing := false, orders := m.orders + d.IterCalls(),
      talk := m.talk + Spoken(d) + Results(d.IterCalls(), d.callIds, w.engine, |m.orders|))
  {
    assert Same(d, d);
  }

  lemma ResultsAreOfTools(calls: seq<Call>, callIds: seq<string>, engine: nat -> ToolReply, t: nat, ran: nat)
    requires ran <= |calls|
    ensures
      var results := Results(calls, callIds, engine, t);
      results == results[..ran] + results[ran..] && Lacks(results[ran..], |calls| - ran)
  {
    var results := Results(calls, callIds, engine, t);
    forall i | 0 <= i < |results[ran..]|
      ensures results[ran..][i].role.Tool?
    {
      var k := ran + i;
      assert results[k] == ResultMessage(if k < |callIds| then Some(callIds[k]) else None, engine(t + k));
    }
  }

  /** The calls of one answer were carried out, or the first of them until one gave a reason to stop. */
  ghost predicate CarriedOut(v: View, after: View, calls: seq<Call>, callIds: seq<string>, w: World, ran: nat)
    requires ran <= |calls|
  {
    && Ran(calls, ran, w.engine, v.result.trace, after.result.trace)
    && FilledUp(after.messages, v.messages, calls, callIds, w.engine, |v.result.trace|, ran)
    && after.repairs == v.repairs
    && after.result == v.result.(trace := after.result.trace, stopReason := after.result.stopReason,
      status := if after.result.stopReason == Some(InvalidArguments) then Degraded else v.result.status)
    && (after.result.stopReason.Some? ==> after.result.stopReason.value.OfCall())
    && (after.result.stopReason.None? ==> ran == |calls|)
  }

  lemma AfterCalls(v: View, after: View, m: Minutes, d: Decision, next: Minutes, retries: nat, start: Option<seq<Message>>,
                   w: World, steps: nat, ran: nat)
    requires Minuted(v, m, retries, m.talk + Spoken(d), start, w) && Becomes(m, d, w, next)
    requires !Wasted(d) && (d.kind.ToolKind? || d.kind.OtherKind?)
    requires ran <= |d.IterCalls()|
    requires CarriedOut(v, after, d.IterCalls(), d.callIds, w, ran)
    ensures after.result.stopReason.None? ==> Minuted(after, next, retries, next.talk, start, w)
    ensures after.result.stopReason.Some? ==> Left(after, next, start, w, steps)
  {
    HeardCalls(m, d, next, w);
    assert Views(v, v) && Tables(after.messages, after.messages);
    CallsTalked(v, m, d.IterCalls(), d.callIds, m.talk + Spoken(d), start, w, ran);
    PerformedMore(m.orders, d.IterCalls(), ran, w.engine, v.result.trace, after.result.trace);
    var results := Results(d.IterCalls(), d.callIds, w.engine, |m.orders|);
    if after.result.stopReason.None? {
      assert results[..ran] == results;
    } else {
      ResultsAreOfTools(d.IterCalls(), d.callIds, w.engine, |m.orders|, ran);
      assert m.talk + Spoken(d) + results[..ran] + results[ran..] == next.talk;
      LeaveNow(after, next, m.talk + Spoken(d) + results[..ran], results[ran..], start, w, steps);
    }
  }

  lemma CallsTalked(v: View, m: Minutes, calls: seq<Call>, callIds: seq<string>, talk: seq<Message>,
                    start: Option<seq<Message>>, w: World, ran: nat)
    requires v.messages == Talked(start, talk) && |v.result.trace| == |m.orders| && ran <= |calls|
    ensures Filled(v.messages, calls, callIds, w.engine, |v.result.trace|, ran)
            == Talked(start, talk + Results(calls, callIds, w.engine, |m.orders|)[..ran])
  {
    var results := Results(calls, callIds, w.engine, |m.orders|);
    assert start.Some? ==> start.value + talk + results[..ran] == start.value + (talk + results[..ran]);
  }

  lemma NothingNoted(v: View, start: Option<seq<Message>>, w: World)
    requires v == View(FreshResult, start, 0)
    ensures Minuted(v, NothingYet, 0, NothingYet.talk, start, w) && AreMinutes(w, 0, NothingYet)
  {
    assert start.Some? ==> start.value + [] == start.value;
  }

  lemma NextHeard(m: Minutes, d: Decision, w: World) returns (next: Minutes)
    ensures Becomes(m, d, w, next)
  {
    next := Heard(m, d, w.feedback, w.engine);
  }

  lemma NowHeeded(v: View, u: View, m: Minutes, retries: nat, d: Decision, start: Option<seq<Message>>, w: World)
    requires Minuted(v, m, retries, m.talk, start, w) && u.result == v.result && u.repairs == v.repairs
    requires u.messages == if v.messages.Some? then Some(v.messages.value + Spoken(d)) else None
    ensures Minuted(u, m, retries, m.talk + Spoken(d), start, w)
  {
    assert Views(v, v);
    assert start.Some? ==> start.value + m.talk + Spoken(d) == start.value + (m.talk + Spoken(d));
  }

  /** What a predicate says below is out of the verifier's sight until it is told to look. */
  predicate Look(i: int) {
    true
  }

  // ---- what is kept of every tool call

  /** The agent's own traces are the facts fetched ahead and then the trace of the result, numbered from 1. */
  predicate Diary(preloaded: nat, traces: seq<Record>, trace: seq<Record>) {
    && preloaded <= |traces| && traces[preloaded..] == trace
    && forall i :: 0 <= i < |traces| ==> traces[i].step == i + 1
  }

  lemma DiaryOfMore(preloaded: nat, traces: seq<Record>, trace: seq<Record>, record: Record)
    requires Diary(preloaded, traces, trace) && record.step == |traces| + 1
    ensures Diary(preloaded, traces + [record], trace + [record])
  {
    assert (traces + [record])[preloaded..] == traces[preloaded..] + [record];
  }

  /** The observer heard of the end of each of these calls, with its outcome. */
  predicate Announced(ends: seq<Event>, traces: seq<Record>) {
    && |ends| == |traces|
    && forall i :: 0 <= i < |ends| ==> ends[i] == ToolFinished(traces[i].step, traces[i].tool, traces[i].status)
  }

  ghost predicate Voiced(events: seq<Event>, traces: seq<Record>) {
    forall ends :: Ends(events, ends) ==> Announced(ends, traces)
  }

  lemma VoicedOfMore(events: seq<Event>, more: seq<Event>, traces: seq<Record>, record: Record)
    requires Voiced(events, traces)
    requires Finished(more) == Finished(events) + [ToolFinished(record.step, record.tool, record.status)]
    ensures Voiced(more, traces + [record])
  {
    assert Ends(events, Finished(events));
  }

  /** The signatures the policy compares are those of the traced calls. */
  predicate Signed(signatures: seq<Signature>, trace: seq<Record>) {
    && |signatures| <= |trace|
    && forall i :: 0 <= i < |signatures| ==> signatures[i] == Signature(trace[i].tool, trace[i].args, trace[i].summary)
  }

  predicate Holds(traces: seq<Record>, held: seq<Record>) {
    traces == held
  }

  /** These calls were carried out in order, the j-th with answer j of the engine, perhaps not all of them. */
  ghost predicate Performed(trace: seq<Record>, orders: seq<Call>, engine: nat -> ToolReply) {
    && |trace| <= |orders|
    && forall held, j :: Holds(trace, held) && 0 <= j < |held| ==> Recorded(held[j], orders[j], engine(j))
  }

  /** The trace grew by the first i of these calls. */
  ghost predicate Ran(calls: seq<Call>, i: nat, engine: nat -> ToolReply, before: seq<Record>, trace: seq<Record>)
    requires i <= |calls|
  {
    && |trace| == |before| + i && trace[..|before|] == before
    && forall held, j :: Holds(trace, held) && 0 <= j < i ==> Recorded(held[|before| + j], calls[j], engine(|before| + j))
  }

  lemma RanMore(calls: seq<Call>, i: nat, engine: nat -> ToolReply, before: seq<Record>, trace: seq<Record>, more: seq<Record>)
    requires i < |calls| && Ran(calls, i, engine, before, trace)
    requires |more| == |trace| + 1 && more[..|trace|] == trace && Recorded(more[|trace|], calls[i], engine(|trace|))
    ensures Ran(calls, i + 1, engine, before, more)
  {
    assert Holds(trace, trace);
    assert more[..|before|] == more[..|trace|][..|before|];
    forall held, j | Holds(more, held) && 0 <= j < i + 1
      ensures Recorded(held[|before| + j], calls[j], engine(|before| + j))
    {
      if j < i {
        assert more[|before| + j] == more[..|trace|][|before| + j];
        assert Recorded(trace[|before| + j], calls[j], engine(|before| + j));
      } else {
        assert |before| + j == |trace|;
      }
    }
  }

  lemma PerformedMore(orders: seq<Call>, calls: seq<Call>, i: nat, engine: nat -> ToolReply, before: seq<Record>, trace: seq<Record>)
    requires Performed(before, orders, engine) && |before| == |orders|
    requires i <= |calls| && Ran(calls, i, engine, before, trace)
    ensures Performed(trace, orders + calls, engine)
  {
    assert Holds(before, before) && Holds(trace, trace);
    forall held, j | Holds(trace, held) && 0 <= j < |held|
      ensures Recorded(held[j], (orders + calls)[j], engine(j))
    {
      if j < |before| {
        assert trace[..|before|][j] == trace[j];
        assert Recorded(before[j], orders[j], engine(j));
      } else {
        assert Recorded(trace[|before| + (j - |before|)], calls[j - |before|], engine(|before| + (j - |before|)));
      }
    }
  }

  /** The table after the first i of these calls. */
  function Filled(was: Option<seq<Message>>, calls: seq<Call>, callIds: seq<string>, engine: nat -> ToolReply, t: nat, i: nat)
    : Option<seq<Message>>
    requires i <= |calls|
  {
    if was.Some? then Some(was.value + Results(calls, callIds, engine, t)[..i]) else None
  }

  predicate Tables(x: Option<seq<Message>>, y: Option<seq<Message>>) {
    x == y
  }

  ghost predicate FilledUp(now: Option<seq<Message>>, was: Option<seq<Message>>, calls: seq<Call>, callIds: seq<string>,
                           engine: nat -> ToolReply, t: nat, i: nat)
    requires i <= |calls|
  {
    forall x :: Tables(now, x) ==> x == Filled(was, calls, callIds, engine, t, i)
  }

  lemma FilledMore(was: Option<seq<Message>>, now: Option<seq<Message>>, next: Option<seq<Message>>,
                   calls: seq<Call>, callIds: seq<string>, engine: nat -> ToolReply, t: nat, i: nat)
    requires i < |calls| && FilledUp(now, was, calls, callIds, engine, t, i)
    requires
      var m := ResultMessage(if i < |callIds| then Some(callIds[i]) else None, engine(t + i));
      next == if now.Some? then Some(now.value + [m]) else None
    ensures FilledUp(next, was, calls, callIds, engine, t, i + 1)
  {
    assert Tables(now, now);
    var all := Results(calls, callIds, engine, t);
    assert all[..i + 1] == all[..i] + [all[i]];
    assert was.Some? ==> was.value + (all[..i] + [all[i]]) == was.value + all[..i] + [all[i]];
  }

  /** The three together. */
  ghost predicate Logs(preloaded: nat, signatures: seq<Signature>, events: seq<Event>, traces: seq<Record>, trace: seq<Record>) {
    forall held :: Holds(traces, held) ==>
      Diary(preloaded, held, trace) && Signed(signatures, trace) && Voiced(events, held)
  }

  lemma LogsAlike(preloaded: nat, signatures: seq<Signature>, events: seq<Event>, more: seq<Event>,
                  traces: seq<Record>, trace: seq<Record>)
    requires Logs(preloaded, signatures, events, traces, trace) && EndAlike(events, more)
    ensures Logs(preloaded, signatures, more, traces, trace)
  {
    assert Holds(traces, traces);
  }

  lemma LogsMore(preloaded: nat, signatures: seq<Signature>, events: seq<Event>, more: seq<Event>,
                 traces: seq<Record>, trace: seq<Record>, after: seq<Record>, traceAfter: seq<Record>, record: Record)
    requires Logs(preloaded, signatures, events, traces, trace) && record.step == |traces| + 1
    requires after == traces + [record] && traceAfter == trace + [record]
    requires Finished(more) == Finished(events) + [ToolFinished(record.step, record.tool, record.status)]
    ensures Logs(preloaded, signatures, more, after, traceAfter)
  {
    assert Holds(traces, traces);
    DiaryOfMore(preloaded, traces, trace, record);
    VoicedOfMore(events, more, traces, record);
  }

  lemma LogsFact(preloaded: nat, next: nat, signatures: seq<Signature>, events: seq<Event>, more: seq<Event>,
                 traces: seq<Record>, after: seq<Record>, trace: seq<Record>, record: Record)
    requires Logs(preloaded, signatures, events, traces, trace) && trace == [] && record.step == |traces| + 1
    requires after == traces + [record]
    requires Finished(more) == Finished(events) + [ToolFinished(record.step, record.tool, record.status)]
    requires next == preloaded + 1
    ensures Logs(next, signatures, more, after, trace)
  {
    assert Holds(traces, traces);
    VoicedOfMore(events, more, traces, record);
    assert preloaded == |traces|;
  }

  lemma LogsSigned(preloaded: nat, signatures: seq<Signature>, events: seq<Event>, traces: seq<Record>, trace: seq<Record>)
    requires Logs(preloaded, signatures, events, traces, trace) && |signatures| < |trace|
    ensures
      var record := trace[|signatures|];
      Logs(preloaded, signatures + [Signature(record.tool, record.args, record.summary)], events, traces, trace)
  {
    assert Holds(traces, traces);
  }

  /** The call was made with these arguments, and the record says what came of it. */
  predicate Recorded(record: Record, call: Call, reply: ToolReply) {
    && record.tool == call.tool
    && match reply
       case Answer(ok, args, summary, _, _) =>
         record.args == args && record.summary == summary && record.status == if ok then Ok else Failed
       case IllegalArgs(reason, _) =>
         record.args == call.args && record.summary == reason && record.status == InvalidArgs
       case EngineRaises => false
  }

  function FactRecord(step: nat, fact: PreloadedFact): Record {
    Record(step, fact.tool, fact.args, fact.summary, Preloaded)
  }

  /** The traces begin with the facts fetched ahead. */
  predicate Fetched(facts: seq<PreloadedFact>, traces: seq<Record>) {
    |facts| <= |traces| && forall i :: 0 <= i < |facts| ==> traces[i] == FactRecord(i + 1, facts[i])
  }

  /** What the model gets to see of a call. */
  function ResultMessage(callId: Option<string>, reply: ToolReply): (m: Message)
  {
    Message(Tool, if reply.Answer? then reply.envelope else if reply.IllegalArgs? then reply.reason else "", [], Named(callId))
  }

  // ---- validation of drafts

  function ParsedDrafts(findings: seq<Payload>): (r: seq<Draft>)
    ensures |r| <= |findings|
    ensures |r| == |findings| <==> forall i :: 0 <= i < |findings| ==> findings[i].Parses?
  {
    if findings == [] then []
    else (if findings[0].Parses? then [findings[0].draft] else []) + ParsedDrafts(findings[1..])
  }

  /** The findings that can be read stay in their order: each comes after those before it. */
  lemma {:induction false} ParsedInOrder(findings: seq<Payload>, i: nat)
    requires i < |findings| && findings[i].Parses?
    ensures |ParsedDrafts(findings[..i])| < |ParsedDrafts(findings)|
    ensures ParsedDrafts(findings)[|ParsedDrafts(findings[..i])|] == findings[i].draft
    decreases |findings|
  {
    if i > 0 {
      ParsedInOrder(findings[1..], i - 1);
      assert findings[..i][1..] == findings[1..][..i - 1];
    }
  }

  /** How many of `count` drafts are validated, starting with verdict n, before validation raises. */
  function Validated(count: nat, verdict: nat -> Verdict, n: nat): (r: nat)
    ensures r <= count
    ensures r == count <==> forall k :: n <= k < n + count ==> !verdict(k).ValidateRaises?
  {
    if count == 0 || verdict(n).ValidateRaises? then 0 else 1 + Validated(count - 1, verdict, n + 1)
  }

  predicate Passes(v: Verdict) {
    v.Accepts? || v.Downgrades?
  }

  /** The drafts the validator lets through when draft i gets verdict n + i. */
  function AcceptedOf(drafts: seq<Draft>, verdict: nat -> Verdict, n: nat): seq<Draft> {
    if drafts == [] then []
    else
      var k := |drafts| - 1;
      AcceptedOf(drafts[..k], verdict, n) + if Passes(verdict(n + k)) then [drafts[k]] else []
  }

  /** At most one complaint per draft. */
  function ComplaintOf(draft: Draft, v: Verdict): seq<Complaint> {
    match v
    case ValidateFails(_) => [Complaint(draft.title, "VALIDATE_ERROR", false)]
    case Rejects(code) => [Complaint(draft.title, if code == "" then "V1_V4" else code, false)]
    case Downgrades(code) => [Complaint(draft.title, if code == "" then "V4" else code, true)]
    case _ => []
  }

  function ComplaintsOf(drafts: seq<Draft>, verdict: nat -> Verdict, n: nat): seq<Complaint> {
    if drafts == [] then []
    else
      var k := |drafts| - 1;
      ComplaintsOf(drafts[..k], verdict, n) + ComplaintOf(drafts[k], verdict(n + k))
  }

  /** The complaints that are real rejections. */
  function Rejections(complaints: seq<Complaint>): seq<Complaint> {
    if complaints == [] then []
    else
      var last := complaints[|complaints| - 1];
      Rejections(complaints[..|complaints| - 1]) + if last.downgraded then [] else [last]
  }

  /** The elements at the marked places, or at the others, in order. */
  function Pick<T>(s: seq<T>, marks: seq<bool>, marked: bool): seq<T>
    requires |marks| == |s|
  {
    if s == [] then []
    else
      var k := |s| - 1;
      Pick(s[..k], marks[..k], marked) + if marks[k] == marked then [s[k]] else []
  }

  /** The complaints are about these drafts, one each and in this order. */
  predicate About(complaints: seq<Complaint>, drafts: seq<Draft>) {
    |complaints| == |drafts| && forall i :: 0 <= i < |drafts| ==> complaints[i].title == drafts[i].title
  }

  predicate MarkedBy(mark: bool, v: Verdict) {
    mark == Passes(v) && !v.ValidateRaises?
  }

  /** The i-th mark says whether verdict n + i lets a draft through. */
  predicate Marks(marks: seq<bool>, verdict: nat -> Verdict, n: nat) {
    forall i :: 0 <= i < |marks| ==> MarkedBy(marks[i], verdict(n + i))
  }

  lemma {:induction false} AcceptedAreMarked(drafts: seq<Draft>, verdict: nat -> Verdict, n: nat, marks: seq<bool>)
    requires |marks| == |drafts| && Marks(marks, verdict, n)
    ensures AcceptedOf(drafts, verdict, n) == Pick(drafts, marks, true)
  {
    if drafts != [] {
      var k := |drafts| - 1;
      assert MarkedBy(marks[k], verdict(n + k));
      AcceptedAreMarked(drafts[..k], verdict, n, marks[..k]);
    }
  }

  lemma AboutMore(complaints: seq<Complaint>, barred: seq<Draft>, draft: Draft, v: Verdict)
    requires About(Rejections(complaints), barred) && !v.ValidateRaises?
    ensures About(Rejections(complaints + ComplaintOf(draft, v)), barred + if Passes(v) then [] else [draft])
  {
    var all := complaints + ComplaintOf(draft, v);
    if |all| > |complaints| {
      assert all[..|all| - 1] == complaints;
    } else {
      assert all == complaints;
    }
  }

  lemma {:induction false} RejectedAreUnmarked(drafts: seq<Draft>, verdict: nat -> Verdict, n: nat, marks: seq<bool>)
    requires |marks| == |drafts| && Marks(marks, verdict, n)
    ensures About(Rejections(ComplaintsOf(drafts, verdict, n)), Pick(drafts, marks, false))
  {
    if drafts != [] {
      var k := |drafts| - 1;
      assert MarkedBy(marks[k], verdict(n + k));
      RejectedAreUnmarked(drafts[..k], verdict, n, marks[..k]);
      AboutMore(ComplaintsOf(drafts[..k], verdict, n), Pick(drafts[..k], marks[..k], false), drafts[k], verdict(n + k));
    }
  }

  lemma {:induction false} PickedAddUp<T>(s: seq<T>, marks: seq<bool>)
    requires |marks| == |s|
    ensures |Pick(s, marks, true)| + |Pick(s, marks, false)| == |s|
  {
    if s != [] {
      var k := |s| - 1;
      PickedAddUp(s[..k], marks[..k]);
    }
  }

  /**
   Every draft that is validated is either accepted or rejected, as its verdict says, and both the
   accepted drafts and the rejections stand in the order of the drafts.
   */
  lemma AcceptedOrRejected(drafts: seq<Draft>, verdict: nat -> Verdict, n: nat) returns (marks: seq<bool>)
    requires Validated(|drafts|, verdict, n) == |drafts|
    ensures |marks| == |drafts| && Marks(marks, verdict, n)
    ensures AcceptedOf(drafts, verdict, n) == Pick(drafts, marks, true)
    ensures About(Rejections(ComplaintsOf(drafts, verdict, n)), Pick(drafts, marks, false))
    ensures |AcceptedOf(drafts, verdict, n)| + |Rejections(ComplaintsOf(drafts, verdict, n))| == |drafts|
  {
    marks := seq(|drafts|, i requires 0 <= i < |drafts| => Passes(verdict(n + i)));
    AcceptedAreMarked(drafts, verdict, n, marks);
    RejectedAreUnmarked(drafts, verdict, n, marks);
    PickedAddUp(drafts, marks);
  }

  lemma {:induction false} NonePicked<T>(s: seq<T>, marks: seq<bool>)
    requires |marks| == |s|
    ensures Pick(s, marks, true) == [] <==> true !in marks
  {
    if s != [] {
      var k := |s| - 1;
      NonePicked(s[..k], marks[..k]);
      assert marks == marks[..k] + [marks[k]];
    }
  }

  /** What is said against a draft that does not pass. */
  function Objection(v: Verdict): string {
    match v
    case Rejects(code) => if code == "" then "V1_V4" else code
    case _ => "VALIDATE_ERROR"
  }

  /** The i-th draft, if it does not pass, is reported as rejected, with its title and what is said against it. */
  predicate Objected(events: seq<Event>, drafts: seq<Draft>, marks: seq<bool>, verdict: nat -> Verdict, n: nat, i: nat)
    requires |marks| == |drafts| && i < |drafts|
  {
    !marks[i] ==>
      var j := |Pick(drafts[..i], marks[..i], false)|;
      j < |events| && events[j] == FindingRejected(drafts[i].title, Objection(verdict(n + i)))
  }

  /** The drafts that do not pass are reported, one by one and in their order. */
  ghost predicate Objections(events: seq<Event>, drafts: seq<Draft>, marks: seq<bool>, verdict: nat -> Verdict, n: nat)
    requires |marks| == |drafts|
  {
    && |events| == |Pick(drafts, marks, false)|
    && forall i :: 0 <= i < |drafts| ==> Objected(events, drafts, marks, verdict, n, i)
  }

  lemma ObjectedStays(events: seq<Event>, more: seq<Event>, drafts: seq<Draft>, marks: seq<bool>,
                      verdict: nat -> Verdict, n: nat, i: nat)
    requires |marks| == |drafts| && i < |drafts| - 1 && events <= more
    requires Objected(events, drafts[..|drafts| - 1], marks[..|drafts| - 1], verdict, n, i)
    ensures Objected(more, drafts, marks, verdict, n, i)
  {
    assert drafts[..|drafts| - 1][..i] == drafts[..i] && marks[..|drafts| - 1][..i] == marks[..i];
  }

  lemma {:induction false} RejectionsAreReported(drafts: seq<Draft>, verdict: nat -> Verdict, n: nat, marks: seq<bool>)
    requires |marks| == |drafts| && Marks(marks, verdict, n)
    ensures Objections(RejectionEvents(ComplaintsOf(drafts, verdict, n)), drafts, marks, verdict, n)
  {
    if drafts != [] {
      var k := |drafts| - 1;
      assert MarkedBy(marks[k], verdict(n + k));
      var before := RejectionEvents(ComplaintsOf(drafts[..k], verdict, n));
      RejectionsAreReported(drafts[..k], verdict, n, marks[..k]);
      RejectionsOfMore(ComplaintsOf(drafts[..k], verdict, n), drafts[k], verdict(n + k));
      OneMoreObjection(before, drafts, marks, verdict, n);
    }
  }

  lemma OneMoreObjection(before: seq<Event>, drafts: seq<Draft>, marks: seq<bool>, verdict: nat -> Verdict, n: nat)
    requires |marks| == |drafts| > 0
    requires Objections(before, drafts[..|drafts| - 1], marks[..|drafts| - 1], verdict, n)
    ensures
      var k := |drafts| - 1;
      Objections(before + if marks[k] then [] else [FindingRejected(drafts[k].title, Objection(verdict(n + k)))],
                 drafts, marks, verdict, n)
  {
    var k := |drafts| - 1;
    var after := before + if marks[k] then [] else [FindingRejected(drafts[k].title, Objection(verdict(n + k)))];
    forall i | 0 <= i < |drafts|
      ensures Objected(after, drafts, marks, verdict, n, i)
    {
      if i < k {
        ObjectedStays(before, after, drafts, marks, verdict, n, i);
      }
    }
  }

  lemma RejectionsOfMore(before: seq<Complaint>, draft: Draft, v: Verdict)
    requires !v.ValidateRaises?
    ensures RejectionEvents(before + ComplaintOf(draft, v))
            == RejectionEvents(before) + if Passes(v) then [] else [FindingRejected(draft.title, Objection(v))]
  {
    var all := before + ComplaintOf(draft, v);
    if |all| > |before| {
      assert all[..|all| - 1] == before;
    } else {
      assert all == before;
    }
  }

  function RejectionEvents(complaints: seq<Complaint>): (events: seq<Event>)
    ensures AboutFindings(events) && |events| == |Rejections(complaints)|
  {
    if complaints == [] then []
    else
      var last := complaints[|complaints| - 1];
      RejectionEvents(complaints[..|complaints| - 1])
      + if last.downgraded then [] else [FindingRejected(last.title, last.code)]
  }

  function RefusalEvents(titles: seq<string>): (events: seq<Event>)
    ensures AboutFindings(events) && |events| == |titles|
  {
    seq(|titles|, i requires 0 <= i < |titles| => FindingRejected(titles[i], "SUBMIT_REJECTED"))
  }

  function StoredEvents(ids: seq<string>): (events: seq<Event>)
    ensures AboutFindings(events) && |events| == |ids|
  {
    seq(|ids|, i requires 0 <= i < |ids| => FindingAccepted(ids[i]))
  }

  /** What is reported once the drafts were submitted. */
  function SubmitEvents(submit: SubmitReply): (events: seq<Event>)
    ensures AboutFindings(events)
  {
    match submit
    case SubmitFails => []
    case Stored(ids, refused, unknown) => OutcomeEvents(ids, refused, unknown)
    case Garbled(ids, refused, unknown, shown) =>
      var all := OutcomeEvents(ids, refused, unknown);
      if shown < |all| then all[..shown] else all
  }

  function OutcomeEvents(ids: seq<string>, refused: seq<string>, unknown: nat): (events: seq<Event>)
    ensures AboutFindings(events) && |events| == |refused| + (if unknown > 0 then 1 else 0) + |ids|
    ensures forall i :: 0 <= i < |refused| ==> events[i] == FindingRejected(refused[i], "SUBMIT_REJECTED")
    ensures unknown > 0 ==> events[|refused|] == FindingRejected("", "UNKNOWN_TC_ID")
    ensures forall i :: 0 <= i < |ids| ==> events[|events| - |ids| + i] == FindingAccepted(ids[i])
  {
    RefusalEvents(refused)
    + (if unknown > 0 then [FindingRejected("", "UNKNOWN_TC_ID")] else [])
    + StoredEvents(ids)
  }

  class PacketSageAgent {
    const policy: AgentPolicy
    const table: MessageTable
    /** The provider keeps a message table; a scripted provider does not. */
    const keepsTable: bool
    /** Facts are fetched ahead unless this turn continues a conversation. */
    const preloads: bool
    var events: seq<Event>
    var traces: seq<Record>
    var result: RunResult
    var invalidArgs: nat
    /** Calls of `validate_finding` made so far. */
    var validations: nat
    /** Rounds spent on letting the model repair rejected findings. */
    var repairRounds: nat

    constructor (budget: Budget, history: seq<Message>, keepsTable: bool, preload: bool)
      requires budget.Positive() && Paired(history)
      ensures fresh(policy) && fresh(table) && policy.budget == budget && table.seed == history
      ensures this.keepsTable == keepsTable && preloads == (preload && history == [])
      ensures Fresh()
    {
      policy := new AgentPolicy(budget);
      table := new MessageTable(history);
      this.keepsTable := keepsTable;
      preloads := preload && history == [];
      events, traces, result := [], [], FreshResult;
      invalidArgs, validations, repairRounds := 0, 0, 0;
    }

    /** An agent that has not run yet; every run is given its own agent. */
    ghost predicate Fresh()
      reads this, policy, table
    {
      && policy.Valid() && policy.WithinBudget() && policy.stopReason.None?
      && policy.steps == policy.llmCalls == policy.toolCalls == policy.preloaded == 0
      && policy.tokensIn == policy.tokensOut == policy.costCents == 0 && policy.budget.Positive()
      && table.Valid() && table.messages.None?
      && events == [] && traces == [] && result == FreshResult
      && invalidArgs == 0 && validations == 0 && repairRounds == 0
    }

    /** Only a provider that keeps a table has messages in it, and that from the first round on. */
    ghost predicate TableInUse()
      reads policy, table
    {
      && (!keepsTable ==> table.messages.None?)
      && (keepsTable && policy.steps > 0 ==> table.messages.Some?)
    }

    /** Every tool call is traced, announced and, if counted, signed. */
    ghost predicate Logged()
      reads this, policy
    {
      Logs(policy.preloaded, policy.signatures, events, traces, result.trace)
    }

    /** What holds whenever the run is not inside one of its own operations. */
    ghost predicate Consistent()
      reads this, policy, table
    {
      && policy.Valid() && policy.WithinBudget() && table.Valid() && TableInUse()
      && |traces| == policy.preloaded + |result.trace|
      && Rounds(events) == policy.steps
      && Calls(events) == |traces|
      && Logged()
      && repairRounds <= 1
    }

    /** Consistent, between two rounds, and no call was left uncounted. */
    ghost predicate Settled()
      reads this, policy, table
    {
      && Consistent()
      && Parse(events).Between?
      && policy.steps == policy.llmCalls
      && |result.trace| == policy.toolCalls
      && invalidArgs < MAX_INVALID_ARG_ROUNDS
    }

    method Notify(e: Event)
      modifies this`events
      ensures events == old(events) + [e]
      ensures Parse(events) == Next(Parse(old(events)), e)
      ensures Rounds(events) == Rounds(old(events)) + if e.RoundStarted? then 1 else 0
      ensures Calls(events) == Calls(old(events)) + if e.ToolStarted? then 1 else 0
      ensures if e.Delta? then Streamed(events) == Streamed(old(events)) + [e] else SayAlike(old(events), events)
      ensures e.ToolFinished? ==> Finished(events) == Finished(old(events)) + [e]
      ensures !e.ToolFinished? && old(Logged()) ==> Logged()
    {
      Append(events, e);
      if Logged() && !e.ToolFinished? {
        LogsAlike(policy.preloaded, policy.signatures, events, events + [e], traces, result.trace);
      }
      events := events + [e];
    }

    /** Takes in one fact fetched before the first round: announced and traced, but not charged to the model. */
    method TakeFact(fact: PreloadedFact)
      requires Settled() && policy.stopReason.None? && result.trace == []
      modifies this`events, this`traces, policy`preloaded
      ensures Settled() && policy.preloaded == old(policy.preloaded) + 1
      ensures traces == old(traces) + [FactRecord(|old(traces)| + 1, fact)]
      ensures SayAlike(old(events), events)
    {
      Announce(fact.tool);
      EnterFact(Record(|traces| + 1, fact.tool, fact.args, fact.summary, Preloaded));
    }

    method EnterFact(record: Record)
      requires InCall(record.tool) && record.step == |traces| + 1 && result.trace == []
      modifies this`events, this`traces, policy`preloaded
      ensures Settled() && policy.preloaded == old(policy.preloaded) + 1
      ensures traces == old(traces) + [record]
      ensures SayAlike(old(events), events)
    {
      traces := traces + [record];
      policy.NotePreloaded();
      Notify(ToolFinished(|traces|, record.tool, record.status));
      LogsFact(old(policy.preloaded), policy.preloaded, policy.signatures, old(events), events, old(traces), traces,
               result.trace, record);
    }

    method TakeFacts(facts: seq<PreloadedFact>)
      requires Settled() && policy.stopReason.None? && result.trace == [] && traces == []
      modifies this`events, this`traces, policy`preloaded
      ensures Settled() && policy.preloaded == old(policy.preloaded) + |facts| && Fetched(facts, traces)
      ensures SayAlike(old(events), events)
    {
      for i := 0 to |facts|
        invariant Settled() && policy.preloaded == old(policy.preloaded) + i
        invariant |traces| == i && Fetched(facts[..i], traces)
        invariant SayAlike(old(events), events)
      {
        TakeFact(facts[i]);
      }
      assert facts[..|facts|] == facts;
    }

    method Preload(reply: PreloadReply) returns (raised: bool)
      requires Settled() && policy.stopReason.None? && result.trace == [] && traces == []
      modifies this`events, this`traces, policy`preloaded
      ensures raised <==> !reply.Facts?
      ensures !raised ==> Settled() && policy.preloaded == old(policy.preloaded) + |reply.facts| && Fetched(reply.facts, traces)
      ensures SayAlike(old(events), events)
      ensures Sound() && policy.Valid()
      ensures reply.FetchRaises? ==> events == old(events)
      ensures reply.FactRaises? ==> Parse(events).InTool?
    {
      if reply.FetchRaises? {
        return true;
      }
      TakeFacts(reply.facts);
      if reply.FactRaises? {
        var fact := reply.broken;
        Notify(ToolStarted(|traces| + 1, fact.tool));
        traces := traces + [Record(|traces| + 1, fact.tool, fact.args, fact.summary, Preloaded)];
        return true;
      }
      return false;
    }

    /** What no exception can break: every budget, the repeat counter and the message table. */
    ghost predicate Sound()
      reads this, policy, table
    {
      && policy.steps <= policy.budget.maxSteps
      && policy.llmCalls <= policy.budget.maxLlmCalls
      && policy.toolCalls <= policy.budget.maxToolCalls
      && policy.repeated == ConstantSuffix(policy.signatures) <= policy.budget.maxSameToolCalls
      && repairRounds <= 1
      && table.Valid()
    }

    /** Enters a finished call into the run's trace, the observer, the model's table and the agent's traces. */
    method Book(record: Record, callId: Option<string>, content: string)
      requires table.Valid() && (table.messages.Some? ==> table.Awaits())
      requires Parse(events) == InTool(record.step, record.tool) && record.step == |traces| + 1
      modifies this`events, this`traces, this`result, table
      ensures events == old(events) + [ToolFinished(record.step, record.tool, record.status)]
      ensures old(Logged()) ==> Logged()
      ensures table.messages == if old(table.messages).Some?
                                then Some(old(table.messages).value + [Message(Tool, content, [], Named(callId))]) else None
      ensures Parse(events).Between? && Rounds(events) == Rounds(old(events)) && Calls(events) == Calls(old(events))
      ensures SayAlike(old(events), events)
      ensures traces == old(traces) + [record]
      ensures result == old(result).(trace := old(result.trace) + [record])
      ensures table.Valid() && (table.messages.Some? <==> old(table.messages).Some?)
      ensures table.messages.Some? ==> table.Awaits() && Settles(old(DebtOf(table.History())), callId)
    {
      ghost var begun, before, trace := events, traces, result.trace;
      result := result.(trace := result.trace + [record]);
      Notify(ToolFinished(record.step, record.tool, record.status));
      table.RecordToolResult(callId, content);
      traces := traces + [record];
      if old(Logged()) {
        LogsMore(policy.preloaded, policy.signatures, begun, events, before, trace, traces, result.trace, record);
      }
    }

    /** The oldest open request was settled by a result under this id. */
    ghost predicate Settles(before: Debt, callId: Option<string>)
      reads table
    {
      DebtOf(table.History()) == Paid(before, Named(callId))
    }

    /**
     Runs one tool call and records it. A stop reason ends the run; the third call with illegal
     arguments is recorded but not counted.
     */
    method RunTool(call: Call, callId: Option<string>, reply: ToolReply)
      returns (stop: Option<StopReason>, fault: Option<Outcome>)
      requires Settled() && policy.stopReason.None?
      requires table.messages.Some? ==> table.Awaits()
      modifies this`events, this`traces, this`result, this`invalidArgs, table
      modifies policy`toolCalls, policy`repeated, policy`lastSignature, policy`stopReason, policy`signatures
      ensures fault == Some(ToolRaised) <==> reply.EngineRaises?
      ensures reply.Calm() ==> fault.None?
      ensures fault.Some? ==> Broke(fault.value)
      ensures fault.None? ==> Stopped(stop) && Entered(call, callId, reply, old(result.trace), old(table.messages))
      ensures SayAlike(old(events), events) && old(traces) <= traces
      ensures table.messages.Some? <==> old(table.messages).Some?
      ensures result == old(result).(trace := result.trace,
                status := if stop == Some(InvalidArguments) then Degraded else old(result.status))
      ensures invalidArgs == old(invalidArgs) + if reply.IllegalArgs? then 1 else 0
      ensures stop == Some(InvalidArguments) <==> invalidArgs == 3
      ensures fault.None? && table.messages.Some? ==> table.Awaits() && Settles(old(DebtOf(table.History())), callId)
    {
      Announce(call.tool);
      match reply {
        case EngineRaises =>
          return None, Some(ToolRaised);
        case IllegalArgs(reason, note) =>
          stop, fault := FinishIllegal(call, callId, reason, note);
        case Answer(ok, args, summary, envelope, note) =>
          var record := Record(|traces| + 1, call.tool, args, summary, if ok then Ok else Failed);
          stop, fault := FinishAnswered(record, callId, envelope, note);
      }
    }

    method Announce(tool: string)
      requires Settled() && policy.stopReason.None?
      modifies this`events
      ensures InCall(tool) && SayAlike(old(events), events)
    {
      Notify(ToolStarted(|traces| + 1, tool));
    }

    /** A call that is booked and not counted stops the run. */
    method StopUncounted()
      requires policy.Valid() && policy.WithinBudget() && table.Valid() && TableInUse() && Logged()
      requires Parse(events).Between? && Rounds(events) == policy.steps == policy.llmCalls
      requires Calls(events) == |traces| == policy.preloaded + |result.trace|
      requires |result.trace| == policy.toolCalls + 1 && policy.stopReason.None? && repairRounds <= 1
      modifies this`result
      ensures Stopped(Some(InvalidArguments)) && result == old(result).(status := Degraded)
    {
      result := result.(status := Degraded);
    }

    method FinishIllegal(call: Call, callId: Option<string>, reason: string, note: Note)
      returns (stop: Option<StopReason>, fault: Option<Outcome>)
      requires InCall(call.tool) && (table.messages.Some? ==> table.Awaits())
      modifies this`events, this`traces, this`result, this`invalidArgs, table
      modifies policy`toolCalls, policy`repeated, policy`lastSignature, policy`stopReason, policy`signatures
      ensures fault.Some? ==> fault == Some(NoteRaised) && note.NoteRaises? && Unnoted()
      ensures SayAlike(old(events), events) && old(traces) <= traces
      ensures fault.None? ==> Stopped(stop)
      ensures Entered(call, callId, IllegalArgs(reason, note), old(result.trace), old(table.messages))
      ensures invalidArgs == old(invalidArgs) + 1
      ensures stop == Some(InvalidArguments) <==> invalidArgs == MAX_INVALID_ARG_ROUNDS
      ensures table.messages.Some? <==> old(table.messages).Some?
      ensures table.messages.Some? ==> table.Awaits() && Settles(old(DebtOf(table.History())), callId)
      ensures result == old(result).(trace := result.trace,
                status := if stop == Some(InvalidArguments) then Degraded else old(result.status))
    {
      Book(Record(|traces| + 1, call.tool, call.args, reason, InvalidArgs), callId, reason);
      assert Entered(call, callId, IllegalArgs(reason, note), old(result.trace), old(table.messages));
      invalidArgs := invalidArgs + 1;
      if invalidArgs >= MAX_INVALID_ARG_ROUNDS {
        StopUncounted();
        return Some(InvalidArguments), None;
      }
      LogsSigned(policy.preloaded, policy.signatures, events, traces, result.trace);
      stop, fault := CountCall(call.tool, call.args, reason, note);
      if fault.Some? {
        NowUnnoted();
      }
    }

    method FinishAnswered(record: Record, callId: Option<string>, envelope: string, note: Note)
      returns (stop: Option<StopReason>, fault: Option<Outcome>)
      requires InCall(record.tool) && record.step == |traces| + 1 && (table.messages.Some? ==> table.Awaits())
      modifies this`events, this`traces, this`result, table
      modifies policy`toolCalls, policy`repeated, policy`lastSignature, policy`stopReason, policy`signatures
      ensures fault.Some? ==> fault == Some(NoteRaised) && note.NoteRaises? && Unnoted()
      ensures SayAlike(old(events), events) && old(traces) <= traces
      ensures fault.None? ==> Stopped(stop)
      ensures result.trace == old(result.trace) + [record]
      ensures table.messages == if old(table.messages).Some?
                                then Some(old(table.messages).value + [Message(Tool, envelope, [], Named(callId))]) else None
      ensures stop != Some(InvalidArguments)
      ensures result == old(result).(trace := result.trace)
      ensures table.messages.Some? <==> old(table.messages).Some?
      ensures table.messages.Some? ==> table.Awaits() && Settles(old(DebtOf(table.History())), callId)
    {
      Book(record, callId, envelope);
      LogsSigned(policy.preloaded, policy.signatures, events, traces, result.trace);
      stop, fault := CountCall(record.tool, record.args, record.summary, note);
    }

    method CountCall(tool: string, args: string, summary: string, note: Note)
      returns (stop: Option<StopReason>, fault: Option<Outcome>)
      requires policy.Valid() && policy.WithinBudget() && policy.stopReason.None?
      modifies policy`toolCalls, policy`repeated, policy`lastSignature, policy`stopReason, policy`signatures
      ensures fault == if note.Noted? then None else Some(NoteRaised)
      ensures fault.None? ==> policy.Valid() && policy.WithinBudget() && policy.toolCalls == old(policy.toolCalls) + 1
      ensures fault.Some? ==> policy.repeated == old(policy.repeated) && policy.signatures == old(policy.signatures)
      ensures policy.toolCalls <= old(policy.toolCalls) + 1 && policy.toolCalls >= old(policy.toolCalls)
      ensures fault.None? ==> policy.signatures == old(policy.signatures) + [Signature(tool, args, summary)]
      ensures fault.None? ==> policy.stopReason == stop
      ensures stop.Some? ==> fault.None? && (stop.value.Homogenisation? || stop.value.ToolCallBudget?)
    {
      match note {
        case Noted =>
          var goOn := policy.NoteToolCall(tool, args, summary);
          stop, fault := policy.stopReason, None;
        case NoteRaises(counted) =>
          if counted {
            policy.NoteUnhashable();
          }
          stop, fault := None, Some(NoteRaised);
      }
    }

    /** One more call stands in the trace, and its result in the table. */
    ghost predicate Entered(call: Call, callId: Option<string>, reply: ToolReply, before: seq<Record>, was: Option<seq<Message>>)
      reads this`result, table
    {
      && |result.trace| == |before| + 1 && result.trace[..|before|] == before
      && Recorded(result.trace[|before|], call, reply)
      && table.messages == if was.Some? then Some(was.value + [ResultMessage(callId, reply)]) else None
    }

    /** Inside a call that has been announced and nothing else. */
    ghost predicate InCall(tool: string)
      reads this, policy, table
    {
      && policy.Valid() && policy.WithinBudget() && table.Valid() && TableInUse()
      && Parse(events) == InTool(|traces| + 1, tool)
      && Rounds(events) == policy.steps == policy.llmCalls
      && Calls(events) == |traces| + 1
      && policy.stopReason.None? && invalidArgs < MAX_INVALID_ARG_ROUNDS && repairRounds <= 1
      && |traces| == policy.preloaded + |result.trace|
      && |result.trace| == policy.toolCalls && Logged()
    }

    ghost predicate InSomeCall()
      reads this, policy, table
    {
      Parse(events).InTool? && InCall(Parse(events).tool)
    }

    /** Behind a call that is finished and traced, but has no signature. */
    ghost predicate Unnoted()
      reads this, policy, table
    {
      && Sound()
      && Parse(events).Between?
      && Rounds(events) == policy.steps == policy.llmCalls
      && Calls(events) == |traces| == policy.preloaded + |result.trace|
      && |result.trace| == |policy.signatures| + 1
      && |policy.signatures| <= policy.toolCalls <= |policy.signatures| + 1
    }

    /** After a call: go on, or stop for a reason; only a stop for illegal arguments leaves a call uncounted. */
    ghost predicate Stopped(stop: Option<StopReason>)
      reads this, policy, table
    {
      && Consistent() && Parse(events).Between? && policy.steps == policy.llmCalls
      && match stop
         case None => Settled() && policy.stopReason.None?
         case Some(InvalidArguments) =>
           |result.trace| == policy.toolCalls + 1 && policy.stopReason.None? && result.status.Degraded?
         case Some(reason) =>
           |result.trace| == policy.toolCalls && policy.stopReason == stop && reason.OfCall()
    }

    lemma NowUnnoted()
      requires Sound() && Parse(events).Between? && Rounds(events) == policy.steps == policy.llmCalls
      requires Calls(events) == |traces| == policy.preloaded + |result.trace|
      requires |result.trace| == |policy.signatures| + 1
      requires |policy.signatures| <= policy.toolCalls <= |policy.signatures| + 1
      ensures Unnoted()
    {
    }

    /** Where an exception leaves the loop. */
    ghost predicate Broke(how: Outcome)
      reads this, policy, table
    {
      match how
      case DecideRaised => Asking()
      case CountRaised => Counting()
      case ToolRaised => InSomeCall()
      case NoteRaised => Unnoted()
      case FinalizeRaised => Settled()
      case _ => false
    }

    /** The table waits for the results of these calls. */
    ghost predicate Open(ids: seq<string>)
      reads table
    {
      forall now :: Pending(table.History(), now) ==> now == ids
    }

    /** The table waits for the results of the calls from the i-th on. */
    ghost predicate Serving(calls: seq<Call>, callIds: seq<string>, i: nat)
      reads table
    {
      table.messages.Some? ==>
        && table.Awaits()
        && i <= |calls| == |callIds|
        && Open(callIds[i..])
    }

    /** As many ids are unanswered or answered by a traced call as there were. */
    ghost predicate Balance(total: nat)
      reads this`result, table
    {
      table.messages.Some? ==> table.Unpaid() + |result.trace| == total
    }

    /** Only the trace has changed, and the status perhaps to degraded. */
    ghost predicate Extends(before: RunResult)
      reads this`result
    {
      && result == before.(trace := result.trace, status := result.status)
      && (result.status == before.status || result.status.Degraded?)
    }

    /** The first i calls of a round have been run, and the last of them said whether to stop. */
    ghost predicate Underway(calls: seq<Call>, callIds: seq<string>, i: nat, stop: Option<StopReason>,
                             total: nat, before: RunResult)
      reads this, policy, table
    {
      && i <= |calls|
      && Stopped(stop)
      && Balance(total)
      && (i < |calls| ==> Serving(calls, callIds, i))
      && |result.trace| == |before.trace| + i
      && Extends(before)
      && result.status == if stop == Some(InvalidArguments) then Degraded else before.status
    }

    /** What those calls left in the trace and in the table. */
    ghost predicate Entries(calls: seq<Call>, callIds: seq<string>, i: nat, engine: nat -> ToolReply,
                            before: seq<Record>, was: Option<seq<Message>>)
      requires i <= |calls|
      reads this`result, table
    {
      && Ran(calls, i, engine, before, result.trace)
      && FilledUp(table.messages, was, calls, callIds, engine, |before|, i)
    }

    method RunNext(calls: seq<Call>, callIds: seq<string>, i: nat, engine: nat -> ToolReply,
                   ghost total: nat, ghost before: RunResult, ghost was: Option<seq<Message>>)
      returns (stop: Option<StopReason>, fault: Option<Outcome>)
      requires i < |calls| && Underway(calls, callIds, i, None, total, before)
      requires Entries(calls, callIds, i, engine, before.trace, was)
      modifies this`events, this`traces, this`result, this`invalidArgs, table
      modifies policy`toolCalls, policy`repeated, policy`lastSignature, policy`stopReason, policy`signatures
      ensures fault.Some? ==> Broke(fault.value) && Extends(before) && !engine(old(|result.trace|)).Calm()
      ensures fault.None? ==> Underway(calls, callIds, i + 1, stop, total, before)
      ensures fault.None? ==> Entries(calls, callIds, i + 1, engine, before.trace, was)
      ensures SayAlike(old(events), events) && old(traces) <= traces
      ensures table.messages.Some? <==> old(table.messages).Some?
    {
      ghost var owed := DebtOf(table.History());
      assert Pending(table.History(), owed.open);
      var callId := if i < |callIds| then Some(callIds[i]) else None;
      stop, fault := RunTool(calls[i], callId, engine(|result.trace|));
      if fault.None? {
        RanMore(calls, i, engine, before.trace, old(result.trace), result.trace);
        FilledMore(was, old(table.messages), table.messages, calls, callIds, engine, |before.trace|, i);
      }
      if fault.None? && table.messages.Some? {
        PayingInOrder(owed, callIds, i);
      }
    }

    lemma NoneRan(calls: seq<Call>, callIds: seq<string>, engine: nat -> ToolReply, total: nat, was: Option<seq<Message>>)
      requires was == table.messages && Settled() && policy.stopReason.None? && Balance(total)
      requires calls != [] ==> Serving(calls, callIds, 0)
      ensures Underway(calls, callIds, 0, None, total, result)
      ensures Entries(calls, callIds, 0, engine, result.trace, was)
    {
      assert was.Some? ==> was.value + [] == was.value;
    }

    /**
     Runs the calls of one round in order, until one of them stops the run or raises. Every call
     that was run is answered under its id.
     */
    method RunCalls(calls: seq<Call>, callIds: seq<string>, engine: nat -> ToolReply, ghost total: nat)
      returns (stop: Option<StopReason>, fault: Option<Outcome>, ghost ran: nat)
      requires Settled() && policy.stopReason.None? && Balance(total)
      requires calls != [] ==> Serving(calls, callIds, 0)
      modifies this`events, this`traces, this`result, this`invalidArgs, table
      modifies policy`toolCalls, policy`repeated, policy`lastSignature, policy`stopReason, policy`signatures
      ensures fault.Some? ==> Broke(fault.value)
      ensures (forall k :: engine(k).Calm()) ==> fault.None?
      ensures fault.None? ==> Underway(calls, callIds, ran, stop, total, old(result))
      ensures fault.None? ==> Entries(calls, callIds, ran, engine, old(result.trace), old(table.messages))
      ensures old(traces) <= traces
      ensures ran <= |calls| && (fault.None? && stop.None? ==> ran == |calls|)
      ensures SayAlike(old(events), events)
      ensures table.messages.Some? <==> old(table.messages).Some?
    {
      stop, fault, ran := None, None, 0;
      ghost var before, was := result, table.messages;
      var i := 0;
      NoneRan(calls, callIds, engine, total, was);
      while i < |calls| && stop.None?
        invariant i <= |calls| && fault.None? && Underway(calls, callIds, i, stop, total, before)
        invariant Entries(calls, callIds, i, engine, before.trace, was)
        invariant SayAlike(old(events), events) && old(traces) <= traces
        invariant table.messages.Some? <==> old(table.messages).Some?
        decreases |calls| - i
      {
        stop, fault := RunNext(calls, callIds, i, engine, total, before, was);
        if fault.Some? {
          return;
        }
        i := i + 1;
      }
      ran := i;
    }

    /** Inside a round that has been announced and not yet answered. */
    ghost predicate Asking()
      reads this, policy, table
    {
      && policy.Valid() && policy.WithinBudget() && policy.stopReason.None? && table.Valid()
      && (!keepsTable ==> table.messages.None?)
      && Parse(events) == InRound(policy.steps)
      && Rounds(events) == policy.steps == policy.llmCalls + 1
      && policy.llmCalls < policy.budget.maxLlmCalls
      && Calls(events) == |traces| == policy.preloaded + |result.trace|
      && |result.trace| == policy.toolCalls
      && invalidArgs < MAX_INVALID_ARG_ROUNDS && repairRounds <= 1 && Logged()
    }

    /** The same once the answer was counted. */
    ghost predicate Counting()
      reads this, policy, table
    {
      && Sound() && policy.Valid()
      && Parse(events) == InRound(policy.steps)
      && Rounds(events) == policy.steps == policy.llmCalls
      && Calls(events) == |traces| == policy.preloaded + |result.trace|
      && |result.trace| == policy.toolCalls
    }

    /** Pieces of the answer are passed on as they come. */
    method Stream(pieces: seq<Piece>)
      requires Asking()
      modifies this`events
      ensures Asking() && Streamed(events) == old(Streamed(events)) + Deltas(policy.steps, pieces)
    {
      for i := 0 to |pieces|
        invariant Asking() && Streamed(events) == old(Streamed(events)) + Deltas(policy.steps, pieces[..i])
      {
        DeltasOfMore(policy.steps, pieces, i, Streamed(old(events)));
        Notify(Delta(policy.steps, pieces[i].channel, pieces[i].text, pieces[i].toolName));
      }
      assert pieces[..|pieces|] == pieces;
    }

    method BeginRound()
      requires Settled() && policy.stopReason.None? && policy.HasRoom()
      modifies this`events, policy`steps
      ensures SayAlike(old(events), events)
      ensures Asking() && policy.steps == old(policy.steps) + 1
    {
      policy.NoteStep();
      Notify(RoundStarted(policy.steps));
    }

    /** The answer is counted, and its tokens are if they can be. */
    method Account(reply: ProviderReply)
      requires Asking() && TableInUse() && !reply.ProviderRaises?
      modifies this`events
      modifies policy`llmCalls, policy`tokensIn, policy`tokensOut, policy`costCents, policy`cacheHitTokens, policy`cacheMissTokens
      ensures SayAlike(old(events), events)
      ensures reply.Uncountable? ==> Counting()
      ensures reply.Reply? ==> Settled() && policy.stopReason.None?
      ensures policy.steps == old(policy.steps) && policy.preloaded == old(policy.preloaded)
      ensures reply.Reply? ==> policy.tokensIn == old(policy.tokensIn) + reply.decision.usage.tokensIn
                               && policy.tokensOut == old(policy.tokensOut) + reply.decision.usage.tokensOut
    {
      if reply.Uncountable? {
        policy.NoteUncountable();
        return;
      }
      var usage := reply.decision.usage;
      policy.NoteLlmCall(usage.tokensIn, usage.tokensOut, 0, usage.cacheHits, usage.cacheMisses);
      Notify(RoundEnded(policy.steps));
    }

    /** Every id asked for in the first rounds, or left by the turns before, is answered by a traced call or still open. */
    ghost predicate Ledger(w: World, rounds: nat)
      reads this`result, table
    {
      keepsTable ==> table.Unpaid() + |result.trace| == Unanswered(table.seed) + w.Asked(rounds)
    }

    /** Of the calls asked for in the first rounds only those in void answers were not run. */
    ghost predicate AllRun(w: World, rounds: nat)
      reads this`result
    {
      keepsTable ==> w.Dropped(rounds) + |result.trace| == w.Asked(rounds)
    }

    /** Whatever the model has streamed was passed on. */
    ghost predicate Passed(w: World)
      reads this`events, policy`steps
    {
      forall pieces :: Says(events, pieces) ==> pieces == w.Said(policy.steps)
    }

    static lemma SaidMore(w: World, rounds: nat)
      ensures w.Said(rounds + 1) == w.Said(rounds) + Deltas(rounds + 1, w.decide(rounds).pieces)
    {
    }

    /** At the head of the loop, and whenever the loop goes on. */
    ghost predicate Looping(w: World)
      reads this, policy, table
    {
      forall i :: Look(i) ==> Loops(w)
    }

    ghost predicate Loops(w: World)
      reads this, policy, table
    {
      Steady() && Passed(w) && Ledger(w, policy.steps) && AllRun(w, policy.steps)
    }

    /** Between two rounds, with no reason to stop and nothing concluded. */
    ghost predicate Steady()
      reads this, policy, table
    {
      Settled() && policy.stopReason.None? && Unconcluded()
    }

    ghost predicate Unconcluded()
      reads this`result
    {
      && result.stopReason.None? && result.stored == [] && result.submitRejects == 0
      && (result.malformedOutput ==> result.status.Degraded?)
      && !result.status.StatusFailed?
    }

    /** What the answers heard so far determine. */
    ghost function Now(): View
      reads this`result, this`repairRounds, table
    {
      View(result, table.messages, repairRounds)
    }

    /** The same at the head of the loop, where the table may still have to be begun. */
    ghost function Seen(w: World): View
      reads this`result, this`repairRounds, policy`steps, table
    {
      if policy.steps == 0 then Now().(messages := Start(w)) else Now()
    }

    /** The table when the first question is asked. */
    function Start(w: World): Option<seq<Message>> {
      if keepsTable then Some([w.system] + Seed(table.seed) + [w.question]) else None
    }

    lemma SeeLooping(w: World)
      requires Looping(w)
      ensures Loops(w)
    {
      assert Look(0);
    }

    lemma StillLooping(w: World)
      requires Loops(w)
      ensures Looping(w)
    {
    }

    /** An answer of the model is in, and nothing has been done with it. */
    ghost predicate Told(w: World, decision: Decision)
      reads this, policy, table
    {
      forall i :: Look(i) ==> Tells(w, decision)
    }

    ghost predicate Tells(w: World, decision: Decision)
      reads this, policy, table
    {
      && Steady() && Passed(w) && Ledger(w, policy.steps)
      && policy.steps > 0 && AllRun(w, policy.steps - 1)
      && w.decide(policy.steps - 1).Reply? && w.decide(policy.steps - 1).decision == decision
      && (keepsTable ==> Opened(decision))
    }

    lemma SeeTold(w: World, decision: Decision)
      requires Told(w, decision)
      ensures Tells(w, decision)
    {
      assert Look(0);
    }

    /** The table waits for the results of the calls of this answer. */
    ghost predicate Opened(decision: Decision)
      reads table
    {
      && decision.Coherent()
      && table.messages.Some?
      && Open(decision.Requests())
      && (decision.Requests() != [] ==> table.Awaits())
    }

    /** The model's message goes into the table; what it asks for is open from now on. */
    method Admit(decision: Decision)
      requires Asking() && (keepsTable ==> decision.Coherent() && table.messages.Some?)
      modifies table
      ensures Asking()
      ensures keepsTable ==> Opened(decision) && table.Unpaid() == old(table.Unpaid()) + |decision.Requests()|
      ensures table.messages == if keepsTable then Some(old(table.messages).value + Spoken(decision)) else old(table.messages)
    {
      if keepsTable {
        table.AppendAssistant(decision.message.value.text, decision.Requests());
      }
    }

    /** A round begins: the model is asked, and what it streams is passed on. */
    method Pose(w: World)
      requires Looping(w) && policy.HasRoom() && w.WellFormed()
      modifies this`events, policy`steps, table
      ensures old(policy.steps) > 0 || old(table.messages).None? ==> Now() == old(Seen(w))
      ensures policy.steps == old(policy.steps) + 1
      ensures Asking() && Passed(w) && Ledger(w, policy.steps - 1)
      ensures keepsTable ==> table.messages.Some?
    {
      SeeLooping(w);
      SaidMore(w, policy.steps);
      assert Says(events, Streamed(events));
      var pieces := w.decide(policy.steps).pieces;
      BeginRound();
      Continue(w);
      Stream(pieces);
    }

    method Continue(w: World)
      requires Asking() && w.WellFormed()
      modifies table
      ensures Asking() && table.Unpaid() == old(table.Unpaid())
      ensures keepsTable ==> table.messages.Some?
      ensures table.messages == if old(table.messages).Some? then old(table.messages) else Start(w)
    {
      if keepsTable {
        table.ContinueConversation(w.system, w.question);
      }
    }

    /** The answer is taken into the table and counted, which may raise. */
    method Hear(w: World, reply: ProviderReply)
      requires Asking() && Unconcluded() && AllRun(w, policy.steps - 1)
      requires reply == w.decide(policy.steps - 1) && !reply.ProviderRaises?
      requires keepsTable ==> reply.decision.Coherent() && table.messages.Some?
      requires Ledger(w, policy.steps - 1) && Passed(w)
      modifies this`events, table
      modifies policy`llmCalls, policy`tokensIn, policy`tokensOut, policy`costCents, policy`cacheHitTokens, policy`cacheMissTokens
      ensures Passed(w)
      ensures reply.Uncountable? ==> Counting()
      ensures reply.Reply? ==> Told(w, reply.decision)
      ensures table.messages == if keepsTable then Some(old(table.messages).value + Spoken(reply.decision)) else old(table.messages)
    {
      Admit(reply.decision);
      Account(reply);
      if reply.Reply? {
        NowTold(w, reply.decision);
      }
    }

    lemma NowTold(w: World, decision: Decision)
      requires Steady() && Passed(w) && policy.steps > 0 && AllRun(w, policy.steps - 1)
      requires w.decide(policy.steps - 1).Reply? && w.decide(policy.steps - 1).decision == decision
      requires keepsTable ==> Opened(decision)
      requires keepsTable ==> table.Unpaid() + |result.trace| ==
                              Unanswered(table.seed) + w.Asked(policy.steps - 1) + |decision.Requests()|
      ensures Told(w, decision)
    {
    }

    /** Asks the validator about each draft, until it raises; nothing is stored and nothing is reported. */
    method ValidateDrafts(drafts: seq<Draft>, verdict: nat -> Verdict)
      returns (accepted: seq<Draft>, complaints: seq<Complaint>, raised: bool)
      modifies this`validations
      ensures raised <==> Validated(|drafts|, verdict, old(validations)) < |drafts|
      ensures !raised ==> validations == old(validations) + |drafts|
      ensures !raised ==> accepted == AcceptedOf(drafts, verdict, old(validations))
      ensures !raised ==> complaints == ComplaintsOf(drafts, verdict, old(validations))
    {
      accepted, complaints := [], [];
      for i := 0 to |drafts|
        invariant validations == old(validations) + i
        invariant forall k :: old(validations) <= k < validations ==> !verdict(k).ValidateRaises?
        invariant accepted == AcceptedOf(drafts[..i], verdict, old(validations))
        invariant complaints == ComplaintsOf(drafts[..i], verdict, old(validations))
      {
        var draft := drafts[i];
        assert drafts[..i + 1][..i] == drafts[..i];
        match verdict(validations) {
          case ValidateRaises =>
            return [], [], true;
          case ValidateFails(_) =>
            complaints := complaints + [Complaint(draft.title, "VALIDATE_ERROR", false)];
          case Rejects(code) =>
            complaints := complaints + [Complaint(draft.title, if code == "" then "V1_V4" else code, false)];
          case Downgrades(code) =>
            accepted := accepted + [draft];
            complaints := complaints + [Complaint(draft.title, if code == "" then "V4" else code, true)];
          case Accepts =>
            accepted := accepted + [draft];
        }
        validations := validations + 1;
      }
      assert drafts[..|drafts|] == drafts;
      raised := false;
    }

    /**
     The loop: rounds until the model finalizes or gives up, a call stops the run, the run is
     interrupted, or the policy has no room left.
     */
    method Investigate(w: World) returns (outcome: Outcome, lastText: string, ghost m: Minutes)
      requires Looping(w) && Passed(w) && w.WellFormed() && (keepsTable ==> w.Coherent())
      requires policy.HasRoom() && result == FreshResult && policy.steps == repairRounds == 0 && table.messages.None?
      modifies this, policy, table
      ensures outcome.Completed? ==> Ended(w)
      ensures outcome.Completed? ==> AreMinutes(w, policy.steps, m) && Left(Now(), m, Start(w), w, policy.steps)
      ensures outcome.Completed? ==> lastText == m.lastWords
      ensures !outcome.Completed? ==> Broke(outcome)
      ensures w.Calm() ==> outcome.Completed?
      ensures Passed(w) && policy.steps >= 1
      ensures policy.preloaded == old(policy.preloaded) && old(traces) <= traces
    {
      var retries := 0;
      lastText := "";
      m := NothingYet;
      NothingNoted(Seen(w), Start(w), w);
      while true
        invariant Looping(w) && Passed(w)
        invariant Minuted(Seen(w), m, retries, m.talk, Start(w), w) && AreMinutes(w, policy.steps, m) && lastText == m.lastWords
        invariant policy.steps >= 1 || (policy.HasRoom() && result.trace == [] && table.messages.None?)
        invariant policy.preloaded == old(policy.preloaded) && old(traces) <= traces
        decreases policy.budget.maxSteps - policy.steps
      {
        var goOn := MayGoOn(w, m, retries);
        if !goOn {
          return Completed, lastText, m;
        }
        var flow, said;
        flow, retries, said, m := Round(w, retries, m);
        if said != "" {
          lastText := said;
        }
        if flow.Raised? {
          return flow.how, lastText, m;
        }
        if flow.Leave? {
          return Completed, lastText, m;
        }
      }
    }

    /** One round: ask the model, take in its answer, and act on it. */
    method Round(w: World, retries: nat, ghost m: Minutes) returns (flow: Flow, tries: nat, said: string, ghost next: Minutes)
      requires Looping(w) && policy.HasRoom() && w.WellFormed() && (keepsTable ==> w.Coherent())
      requires Minuted(Seen(w), m, retries, m.talk, Start(w), w) && (policy.steps == 0 ==> table.messages.None?)
      requires AreMinutes(w, policy.steps, m)
      modifies this, policy, table
      ensures flow.GoOn? ==> Looping(w) && Minuted(Now(), next, tries, next.talk, Start(w), w)
      ensures flow.Leave? ==> Ended(w) && Left(Now(), next, Start(w), w, policy.steps)
      ensures flow.Raised? ==> !flow.how.Completed? && Broke(flow.how) && !w.Calm()
      ensures !flow.Raised? ==> AreMinutes(w, policy.steps, next) && next.lastWords == if said != "" then said else m.lastWords
      ensures policy.steps == old(policy.steps) + 1 && policy.preloaded == old(policy.preloaded) && Passed(w)
      ensures old(traces) <= traces
    {
      var reply := w.decide(policy.steps);
      next := NextHeard(m, AnswerOf(reply), w);
      var fault := Listen(w);
      if fault.Some? {
        return Raised(fault.value), retries, "", next;
      }
      ghost var posed := old(Seen(w));
      said := reply.decision.summary;
      NowHeeded(posed, Now(), m, retries, reply.decision, Start(w), w);
      NextMinutes(w, policy.steps - 1, m, next);
      LastWords(m, reply.decision, w, next);
      flow, tries := Act(reply.decision, retries, w, m, next);
    }

    /** Asks the model and takes in its answer, which may raise. */
    method Listen(w: World) returns (fault: Option<Outcome>)
      requires Looping(w) && policy.HasRoom() && w.WellFormed() && (keepsTable ==> w.Coherent())
      requires policy.steps == 0 ==> table.messages.None?
      modifies this`events, table, policy`steps
      modifies policy`llmCalls, policy`tokensIn, policy`tokensOut, policy`costCents, policy`cacheHitTokens, policy`cacheMissTokens
      ensures policy.steps == old(policy.steps) + 1 && Passed(w)
      ensures fault == FaultOf(w.decide(old(policy.steps)))
      ensures fault.Some? ==> Broke(fault.value)
      ensures fault.None? ==> Told(w, w.decide(old(policy.steps)).decision)
      ensures fault.None? ==> table.messages == Talked(old(Seen(w)).messages, Spoken(w.decide(old(policy.steps)).decision))
    {
      var reply := w.decide(policy.steps);
      SeeLooping(w);
      Pose(w);
      if reply.ProviderRaises? {
        return Some(DecideRaised);
      }
      Hear(w, reply);
      return if reply.Uncountable? then Some(CountRaised) else None;
    }

    /** The head of the loop: a limit is reached, or an interrupted run keeps what it has. */
    method MayGoOn(w: World, ghost m: Minutes, ghost retries: nat) returns (goOn: bool)
      requires Looping(w) && if policy.steps > 0 then Minuted(Now(), m, retries, m.talk, Start(w), w)
                             else policy.HasRoom() && result.trace == []
      modifies this`result, policy`stopReason
      ensures goOn ==> Looping(w) && policy.HasRoom() && result == old(result)
      ensures !goOn ==> Ended(w) && Left(Now(), m, Start(w), w, policy.steps)
      ensures goOn <==> policy.HasRoom() && !(w.interrupted(policy.steps) && result.trace != [])
      ensures !goOn ==> if old(policy.HasRoom()) then result.stopReason == Some(Interrupted)
                        else policy.stopReason == result.stopReason
    {
      SeeLooping(w);
      ghost var v := Now();
      goOn := policy.CanContinue();
      if !goOn {
        result := result.(stopReason := policy.stopReason);
        EndsBetween(v, policy.stopReason.value, m, retries, Start(w), w, policy.steps);
        NowEnded(w);
      } else if w.interrupted(policy.steps) && result.trace != [] {
        result := result.(status := Degraded, stopReason := Some(Interrupted));
        EndsBetween(v, Interrupted, m, retries, Start(w), w, policy.steps);
        NowEnded(w);
        goOn := false;
      } else {
        StillLooping(w);
      }
    }

    /** What the run does with one answer of the model; a malformed one is forgiven once. */
    method Act(decision: Decision, retries: nat, w: World, ghost m: Minutes, ghost next: Minutes)
      returns (flow: Flow, tries: nat)
      requires Told(w, decision) && Passed(w)
      requires Minuted(Now(), m, retries, m.talk + Spoken(decision), Start(w), w) && Becomes(m, decision, w, next)
      modifies this`events, this`traces, this`result, this`invalidArgs, this`validations, this`repairRounds, table
      modifies policy`toolCalls, policy`repeated, policy`lastSignature, policy`stopReason, policy`signatures
      ensures Passed(w) && old(traces) <= traces
      ensures flow.GoOn? ==> Looping(w) && Minuted(Now(), next, tries, next.talk, Start(w), w)
      ensures flow.Leave? ==> Ended(w) && Left(Now(), next, Start(w), w, policy.steps)
      ensures flow.Raised? ==> !flow.how.Completed? && Broke(flow.how) && !w.Calm()
    {
      if decision.Void() {
        flow, tries := Forgive(decision, retries, w, m, next);
        return;
      }
      match decision.kind {
        case FinalKind =>
          NothingToRun(w, decision);
          flow, tries := Finalize(decision, retries, w, m, next);
        case GiveUpKind =>
          GiveUp(decision, retries, w, m, next);
          return Leave, retries;
        case _ =>
          flow := CarryOut(decision, w, retries, m, next);
          tries := retries;
      }
    }

    /** A void answer: the first one is forgiven, another one ends the run. */
    method Forgive(decision: Decision, retries: nat, w: World, ghost m: Minutes, ghost next: Minutes)
      returns (flow: Flow, tries: nat)
      requires Told(w, decision) && Wasted(decision)
      requires Minuted(Now(), m, retries, m.talk + Spoken(decision), Start(w), w) && Becomes(m, decision, w, next)
      modifies this`result
      ensures if retries > 0 then flow == Leave else flow == GoOn
      ensures flow.GoOn? ==> Looping(w) && Minuted(Now(), next, tries, next.talk, Start(w), w)
      ensures flow.Leave? ==> Ended(w) && Left(Now(), next, Start(w), w, policy.steps)
    {
      NothingToRun(w, decision);
      AfterWasted(Now(), m, decision, next, retries, Start(w), w, policy.steps);
      if retries > 0 {
        SeeLooping(w);
        result := result.(status := Degraded, malformedOutput := true);
        NowEnded(w);
        return Leave, retries + 1;
      }
      return GoOn, retries + 1;
    }

    method GiveUp(decision: Decision, retries: nat, w: World, ghost m: Minutes, ghost next: Minutes)
      requires Told(w, decision) && !Wasted(decision) && decision.kind.GiveUpKind?
      requires Minuted(Now(), m, retries, m.talk + Spoken(decision), Start(w), w) && Becomes(m, decision, w, next)
      modifies this`result
      ensures Ended(w) && Left(Now(), next, Start(w), w, policy.steps)
    {
      NothingToRun(w, decision);
      AfterGivingUp(Now(), m, decision, next, retries, Start(w), w, policy.steps);
      SeeLooping(w);
      result := result.(status := Degraded);
      NowEnded(w);
    }

    /** The tool calls of one answer. */
    method CarryOut(decision: Decision, w: World, ghost retries: nat, ghost m: Minutes, ghost next: Minutes) returns (flow: Flow)
      requires Told(w, decision) && Passed(w) && !Wasted(decision) && (decision.kind.ToolKind? || decision.kind.OtherKind?)
      requires Minuted(Now(), m, retries, m.talk + Spoken(decision), Start(w), w) && Becomes(m, decision, w, next)
      modifies this`events, this`traces, this`result, this`invalidArgs, table
      modifies policy`toolCalls, policy`repeated, policy`lastSignature, policy`stopReason, policy`signatures
      ensures Passed(w) && old(traces) <= traces
      ensures flow.GoOn? ==> Looping(w) && Minuted(Now(), next, retries, next.talk, Start(w), w)
      ensures flow.Leave? ==> Ended(w) && Left(Now(), next, Start(w), w, policy.steps)
      ensures flow.Raised? ==> !flow.how.Completed? && Broke(flow.how) && !w.Calm()
    {
      ghost var v := Now();
      var stop, fault, ran := Serve(decision, w);
      if fault.Some? {
        return Raised(fault.value);
      }
      AfterCalls(v, Now(), m, decision, next, retries, Start(w), w, policy.steps, ran);
      return if stop.Some? then Leave else GoOn;
    }

    method Serve(decision: Decision, w: World) returns (stop: Option<StopReason>, fault: Option<Outcome>, ghost ran: nat)
      requires Told(w, decision) && Passed(w) && !Wasted(decision) && (decision.kind.ToolKind? || decision.kind.OtherKind?)
      modifies this`events, this`traces, this`result, this`invalidArgs, table
      modifies policy`toolCalls, policy`repeated, policy`lastSignature, policy`stopReason, policy`signatures
      ensures Passed(w) && old(traces) <= traces
      ensures fault.None? ==> result.stopReason == stop && if stop.Some? then Ended(w) else Looping(w)
      ensures fault.Some? ==> !fault.value.Completed? && Broke(fault.value) && !w.Calm()
      ensures fault.None? ==>
                && ran <= |decision.IterCalls()|
                && CarriedOut(old(Now()), Now(), decision.IterCalls(), decision.callIds, w, ran)
    {
      SeeTold(w, decision);
      RoundAdds(w, decision);
      ghost var total := Unanswered(table.seed) + w.Asked(policy.steps);
      stop, fault, ran := RunCalls(decision.IterCalls(), decision.callIds, w.engine, total);
      if fault.Some? {
        return;
      }
      Wind(w, decision, ran, stop, total, old(result));
    }

    /** The calls of the round are over; the reason to stop, if there is one, is the result's. */
    method Wind(w: World, ghost decision: Decision, ghost ran: nat, stop: Option<StopReason>, ghost total: nat, ghost before: RunResult)
      requires Underway(decision.IterCalls(), decision.callIds, ran, stop, total, before)
               && (stop.None? ==> ran == |decision.IterCalls()|)
      requires BeforeCalls(w, decision, total, before) && Passed(w) && (keepsTable ==> table.messages.Some?)
      modifies this`result
      ensures result == old(result).(stopReason := stop) && if stop.Some? then Ended(w) else Looping(w)
      ensures stop.Some? ==> stop.value.OfCall()
    {
      result := result.(stopReason := stop);
      if stop.Some? {
        NowEnded(w);
      } else {
        StillLooping(w);
      }
    }

    /** How the books stood when the calls of an answer were about to be run. */
    ghost predicate BeforeCalls(w: World, decision: Decision, total: nat, before: RunResult)
      reads policy`steps
    {
      && policy.steps > 0 && !decision.Void() && before.stopReason.None?
      && total == Unanswered(table.seed) + w.Asked(policy.steps)
      && before.stored == [] && before.submitRejects == 0 && (before.malformedOutput ==> before.status.Degraded?)
      && !before.status.StatusFailed?
      && (keepsTable ==> decision.Coherent())
      && (keepsTable ==> w.Dropped(policy.steps) + |before.trace| + |decision.Requests()| == w.Asked(policy.steps))
    }

    /** What the last answer adds to the calls asked for, and to those dropped. */
    lemma RoundAdds(w: World, decision: Decision)
      requires Tells(w, decision)
      ensures w.Asked(policy.steps) == w.Asked(policy.steps - 1) + |decision.Requests()|
      ensures w.Dropped(policy.steps) ==
              w.Dropped(policy.steps - 1) + if decision.Void() then |decision.Requests()| else 0
    {
    }

    /** A void answer, and one that is not about tools, leave no call to run. */
    lemma NothingToRun(w: World, decision: Decision)
      requires Told(w, decision) && (decision.Void() || decision.kind.FinalKind? || decision.kind.GiveUpKind?)
      ensures Looping(w) && Passed(w)
      ensures policy.steps > 0 && w.decide(policy.steps - 1).Reply? && w.decide(policy.steps - 1).decision == decision
    {
      SeeTold(w, decision);
      RoundAdds(w, decision);
      StillLooping(w);
    }

    /** A final answer: unparsable findings are forgiven once, rejected ones may be repaired once. */
    method Finalize(decision: Decision, retries: nat, w: World, ghost m: Minutes, ghost next: Minutes)
      returns (flow: Flow, tries: nat)
      requires Looping(w) && !Wasted(decision) && decision.kind.FinalKind?
      requires Minuted(Now(), m, retries, m.talk + Spoken(decision), Start(w), w) && Becomes(m, decision, w, next)
      modifies this`result, this`validations, this`repairRounds, policy`stopReason, table
      ensures flow.GoOn? ==> Looping(w) && Minuted(Now(), next, tries, next.talk, Start(w), w)
      ensures flow.Leave? ==> Ended(w) && Left(Now(), next, Start(w), w, policy.steps)
      ensures flow.Raised? ==> flow.how.FinalizeRaised? && Settled()
      ensures flow.Raised? ==> Unforeseen in decision.findings || exists k :: w.verdict(k).ValidateRaises?
    {
      ghost var v := Now();
      Summarise(decision.summary, w);
      if Unforeseen in decision.findings {
        SeeLooping(w);
        return Raised(FinalizeRaised), retries;
      }
      var drafts := ParsedDrafts(decision.findings);
      var malformed := |drafts| < |decision.findings|;
      if malformed && retries == 0 {
        AfterForgiving(v, m, decision, next, Start(w), w);
        return GoOn, 1;
      }
      flow := Deliver(drafts, malformed, w);
      tries := retries;
      if flow.GoOn? || flow.Leave? {
        AfterTaking(v, m, decision, next, retries, Start(w), w, policy.steps, if flow.Leave? then policy.stopReason else None);
      }
    }

    method Summarise(summary: string, w: World)
      requires Looping(w)
      modifies this`result
      ensures Looping(w) && result == old(result).(summary := summary)
    {
      SeeLooping(w);
      result := result.(summary := summary);
      StillLooping(w);
    }

    method Present(drafts: seq<Draft>, malformed: bool, w: World)
      requires Looping(w)
      modifies this`result
      ensures Looping(w) && result == Given(old(result), drafts, malformed)
    {
      SeeLooping(w);
      result := result.(findings := drafts);
      if malformed {
        result := result.(status := Degraded, malformedOutput := true);
      }
      StillLooping(w);
    }

    /**
     The parsed findings are the result, unless the model gets a chance to repair them: it does when
     the validator rejects one of them, for the first time and while the budget has room.
     */
    method Deliver(drafts: seq<Draft>, malformed: bool, w: World) returns (flow: Flow)
      requires Looping(w)
      modifies this`result, this`validations, this`repairRounds, policy`stopReason, table
      ensures flow.GoOn? ==> Looping(w)
      ensures flow.Leave? ==> Ended(w) && policy.stopReason == result.stopReason && (policy.stopReason.Some? ==> policy.stopReason.value.OfPolicy())
      ensures flow.Raised? ==> flow.how.FinalizeRaised? && Settled() && exists k :: w.verdict(k).ValidateRaises?
      ensures flow.GoOn? ==> Now() == View(
        Given(old(result), drafts, malformed),
        if old(table.messages).Some? then Some(old(table.messages).value + NoteOf(w.feedback)) else None, old(repairRounds) + 1)
      ensures flow.Leave? ==> Now() == View(
        Given(old(result), drafts, malformed).(stopReason := policy.stopReason), old(table.messages), old(repairRounds))
      ensures flow.GoOn? ==> drafts != [] && old(repairRounds) == 0 && policy.HasRoom()
      ensures flow.Leave? && drafts != [] && old(repairRounds) == 0 && policy.HasRoom() ==>
                Rejections(ComplaintsOf(drafts, w.verdict, old(validations))) == []
    {
      Present(drafts, malformed, w);
      SeeLooping(w);
      var again, raised := OfferRepair(drafts, w);
      if raised {
        return Raised(FinalizeRaised);
      }
      if again {
        StillLooping(w);
        return GoOn;
      }
      result := result.(stopReason := policy.stopReason);
      MayBeLeft();
      NowEnded(w);
      return Leave;
    }

    /**
     Before finalizing, the drafts are validated once without storing them; when some are rejected
     and the budget has room, the model gets the complaints and exactly one more chance.
     */
    method OfferRepair(drafts: seq<Draft>, w: World) returns (again: bool, raised: bool)
      requires Settled() && policy.stopReason.None?
      modifies this`validations, this`repairRounds, policy`stopReason, table
      ensures Settled() && policy.steps == old(policy.steps) && table.Unpaid() == old(table.Unpaid())
      ensures table.messages == if again && old(table.messages).Some? then Some(old(table.messages).value + NoteOf(w.feedback))
                                else old(table.messages)
      ensures again ==> policy.stopReason.None? && old(repairRounds) == 0 && repairRounds == 1
      ensures !again ==> repairRounds == old(repairRounds)
      ensures raised <==> drafts != [] && old(repairRounds) == 0 && policy.HasRoom()
                          && Validated(|drafts|, w.verdict, old(validations)) < |drafts|
      ensures again <==> !raised && drafts != [] && old(repairRounds) == 0 && policy.HasRoom()
                         && Rejections(ComplaintsOf(drafts, w.verdict, old(validations))) != []
    {
      if drafts == [] || repairRounds > 0 {
        return false, false;
      }
      var goOn := policy.CanContinue();
      if !goOn {
        return false, false;
      }
      var _, complaints, broken := ValidateDrafts(drafts, w.verdict);
      if broken || Rejections(complaints) == [] {
        return false, broken;
      }
      repairRounds := 1;
      assert table.messages.Some? ==> table.messages.value + [] == table.messages.value;
      table.RecordNote(w.feedback);
      return true, false;
    }

    /** The loop is over; only a stop for illegal arguments leaves one traced call uncounted. */
    ghost predicate Over()
      reads this, policy, table
    {
      && Consistent()
      && Parse(events).Between?
      && policy.steps == policy.llmCalls
      && |result.trace| == policy.toolCalls + (if result.stopReason == Some(InvalidArguments) then 1 else 0)
      && (result.stopReason.Some? && result.stopReason.value.OfPolicy() ==> policy.stopReason == result.stopReason)
      && (policy.stopReason.Some? ==> result.stopReason == policy.stopReason)
      && (result.malformedOutput ==> result.status.Degraded?)
      && !result.status.StatusFailed?
    }

    /** A loop that stands between two rounds may be left for the policy's reason. */
    lemma MayBeLeft()
      requires Settled() && result.stopReason == policy.stopReason
      requires (result.malformedOutput ==> result.status.Degraded?) && !result.status.StatusFailed?
      ensures Over()
    {
    }

    /** Only a stop by a call leaves calls unrun that were asked for in a proper answer. */
    ghost predicate Served(w: World)
      reads this`result, policy`steps
    {
      keepsTable ==>
        && |result.trace| + w.Dropped(policy.steps) <= w.Asked(policy.steps)
        && (|result.trace| + w.Dropped(policy.steps) < w.Asked(policy.steps) ==>
              result.stopReason.Some? && result.stopReason.value.OfCall())
    }

    ghost predicate Ended(w: World)
      reads this, policy, table
    {
      forall i :: Look(i) ==> IsOver(w)
    }

    ghost predicate IsOver(w: World)
      reads this, policy, table
    {
      Over() && Passed(w) && Ledger(w, policy.steps) && Served(w)
    }

    lemma SeeEnded(w: World)
      requires Ended(w)
      ensures IsOver(w)
    {
      assert Look(0);
    }

    /** A loop that is over has kept its books. */
    lemma Accounts(w: World)
      requires Ended(w)
      ensures policy.steps == policy.llmCalls && Ledger(w, policy.steps) && Served(w)
      ensures |result.trace| == policy.toolCalls + (if result.stopReason == Some(InvalidArguments) then 1 else 0)
      ensures policy.stopReason.Some? ==> result.stopReason == policy.stopReason
    {
      SeeEnded(w);
    }

    lemma NowEnded(w: World)
      requires IsOver(w)
      ensures Ended(w)
    {
    }

    method NotifyAll(more: seq<Event>)
      requires AboutFindings(more)
      modifies this`events
      ensures events == old(events) + more
    {
      for i := 0 to |more|
        invariant events == old(events) + more[..i]
      {
        Notify(more[i]);
      }
    }

    method ReportAll(more: seq<Event>)
      requires AboutFindings(more) && Consistent() && Parse(events).Between?
      modifies this`events
      ensures events == old(events) + more && Consistent() && (Parse(events).Between? || Parse(events).Closing?)
      ensures SayAlike(old(events), events)
    {
      AppendFindings(events, more);
      LogsAlike(policy.preloaded, policy.signatures, events, events + more, traces, result.trace);
      NotifyAll(more);
    }

    /** Validates the findings of the result, submits the accepted ones once, and reports every outcome. */
    method Submit(w: World) returns (raised: bool, ghost said: seq<Event>)
      requires Consistent() && Parse(events).Between? && result.stored == []
      modifies this`events, this`result, this`validations
      ensures raised <==> SubmitBreaks(old(result.findings), w, old(validations))
      ensures events == old(events) + said && IsReport(said, old(result.findings), w, old(validations))
      ensures SayAlike(old(events), events)
      ensures if raised then result == old(result) else Handed(old(result.findings), result, w, old(validations))
      ensures !raised ==> validations == old(validations) + |old(result.findings)|
      ensures result.findings == [] <==> old(result).findings == []
      ensures result == old(result).(
                findings := result.findings, stored := result.stored, submitRejects := result.submitRejects)
      ensures Consistent() && (Parse(events).Between? || Parse(events).Closing?)
    {
      var accepted, complaints, broken := ValidateDrafts(result.findings, w.verdict);
      if broken {
        return true, [];
      }
      ReportAll(Outcomes(accepted, complaints, w.submit));
      said := Outcomes(accepted, complaints, w.submit);
      if accepted != [] && w.submit.Garbled? {
        return true, said;
      }
      AfterHandingIn(result, w, old(validations));
      result := AfterSubmit(result, accepted, complaints, w.submit);
      raised := false;
    }

    /**
     One whole run. Whatever the model and the engine do it ends, within every budget, with the
     counters, the trace and the reported events in step with each other.
     */
    method Run(w: World) returns (outcome: Outcome)
      requires Fresh() && w.WellFormed() && (keepsTable ==> w.Coherent())
      modifies this, policy, table
      // budgets
      ensures policy.steps <= policy.budget.maxSteps && policy.llmCalls <= policy.budget.maxLlmCalls
      ensures policy.toolCalls <= policy.budget.maxToolCalls
      ensures policy.repeated == ConstantSuffix(policy.signatures) <= policy.budget.maxSameToolCalls
      ensures if outcome.NoteRaised? then |policy.signatures| <= policy.toolCalls <= |policy.signatures| + 1
              else policy.toolCalls == |policy.signatures|
      ensures repairRounds <= 1
      // a run in which nothing raises returns
      ensures w.Calm() ==> outcome.Completed?
      // accounting of a run that returns
      ensures outcome.Completed? ==>
                && policy.steps == policy.llmCalls == Rounds(events)
                && |traces| == policy.preloaded + |result.trace| == Calls(events)
                && policy.preloaded == (if preloads && w.preload.Facts? then |w.preload.facts| else 0)
                && |result.trace| == policy.toolCalls + (if result.stopReason == Some(InvalidArguments) then 1 else 0)
                && (policy.stopReason.Some? ==> result.stopReason == policy.stopReason)
                && (result.status.StatusFailed? <==> result.trace == [] && result.summary == "" && result.findings == [])
                && (result.malformedOutput ==> !result.status.StatusOk?)
      // what a run that returns says, by the answers it heard, and its findings by the verdicts of the validator
      ensures outcome.Completed? ==> exists m :: AreMinutes(w, policy.steps, m) && Concluded(w, m) && Reported(w, m.findings)
      // every call is traced, announced and signed, and the traces begin with the facts fetched ahead
      ensures outcome.Completed? ==> Logged() && (preloads && w.preload.Facts? ==> Fetched(w.preload.facts, traces))
      // requested calls of a run that returns: each is answered, or stands in a void answer, or behind a stop
      ensures outcome.Completed? ==> Ledger(w, policy.steps) && Served(w)
      ensures outcome.Completed? && keepsTable ==>
                (table.Unpaid() == 0 <==>
                   && Unanswered(table.seed) == 0
                   && w.Dropped(policy.steps) == 0
                   && |result.trace| + w.Dropped(policy.steps) == w.Asked(policy.steps))
      // the events of a run that returns are complete; otherwise they break off where it raised
      ensures match outcome
              case Completed => Parse(events).Between? || Parse(events).Closing?
              case PreloadRaised => events == [] || Parse(events).InTool?
              case DecideRaised => Parse(events) == InRound(policy.steps) && policy.steps == policy.llmCalls + 1
              case CountRaised => Parse(events) == InRound(policy.steps) && policy.steps == policy.llmCalls
              case ToolRaised => Parse(events).InTool? && |result.trace| == policy.toolCalls
              case NoteRaised => Parse(events).Between? && |result.trace| == |policy.signatures| + 1
              case FinalizeRaised => Parse(events).Between? && |result.trace| == policy.toolCalls
              case SubmitRaised => Parse(events).Between? || Parse(events).Closing?
      // all that the model streamed was passed on
      ensures if outcome.PreloadRaised? then Streamed(events) == [] else policy.steps >= 1 && Passed(w)
      // the table stays acceptable to the chat protocol
      ensures table.Valid() && (outcome.Completed? && keepsTable ==> table.messages.Some?)
    {
      var unready := GetReady(w);
      if unready {
        return PreloadRaised;
      }
      var lastText;
      ghost var m;
      outcome, lastText, m := Investigate(w);
      if outcome.Completed? {
        Accounts(w);
        var raised := Finish(lastText, w, m);
        if raised {
          outcome := SubmitRaised;
        }
      }
    }

    /** Before the first round; true if that raises. */
    method GetReady(w: World) returns (raised: bool)
      requires Fresh()
      modifies this`events, this`traces, policy`preloaded
      ensures raised <==> preloads && !w.preload.Facts?
      ensures !raised ==> Looping(w) && Passed(w) && policy.HasRoom()
      ensures !raised ==> policy.preloaded == if preloads then |w.preload.facts| else 0
      ensures !raised && preloads ==> Fetched(w.preload.facts, traces)
      ensures raised ==> Sound() && policy.Valid() && Says(events, []) && (events == [] || Parse(events).InTool?)
    {
      raised := false;
      assert Says(events, []);
      if preloads {
        raised := Preload(w.preload);
      }
    }

    /** The model's last words stand in for a missing summary; failing that, one more question is asked. */
    method Speak(lastText: string, fallback: string)
      requires table.Valid()
      modifies this`result, table
      ensures table.Valid() && (old(table.messages).None? <==> table.messages.None?)
      ensures table.Unpaid() == old(table.Unpaid())
      ensures table.messages == if old(table.messages).Some? && old(result.summary) == "" && lastText == "" && fallback != ""
                                then Some(old(table.messages).value + [Plain(Assistant, fallback)]) else old(table.messages)
      ensures result == old(result).(summary := if old(result.summary) != "" then old(result.summary)
                                                else if lastText != "" then lastText else fallback)
    {
      if result.summary == "" && lastText != "" {
        result := result.(summary := lastText);
      }
      if result.summary == "" {
        result := result.(summary := fallback);
        table.RecordAnswer(result.summary);
      }
    }

    /** Settles what the run says, and whether it failed. */
    method Settle(lastText: string, w: World)
      requires Ended(w)
      modifies this`result, table
      ensures Consistent() && Parse(events).Between?
      ensures !old(result.status).StatusFailed? && (result.malformedOutput ==> !result.status.StatusOk?)
      ensures result == old(result).(
        summary := if old(result.summary) != "" then old(result.summary) else if lastText != "" then lastText else w.fallback,
        status := if result.trace == [] && result.summary == "" && result.findings == [] then StatusFailed else old(result.status))
      ensures table.messages == if old(table.messages).Some? && old(result.summary) == "" && lastText == "" && w.fallback != ""
                                then Some(old(table.messages).value + [Plain(Assistant, w.fallback)]) else old(table.messages)
      ensures table.Unpaid() == old(table.Unpaid())
    {
      SeeEnded(w);
      Speak(lastText, w.fallback);
      if result.trace == [] && result.summary == "" && result.findings == [] {
        result := result.(status := StatusFailed);
      }
    }

    /** Says what there is to say, and submits the findings. */
    method Conclude(lastText: string, w: World, ghost m: Minutes) returns (raised: bool)
      requires Ended(w) && Left(Now(), m, Start(w), w, policy.steps) && lastText == m.lastWords
      modifies this`events, this`result, this`validations, table
      ensures SayAlike(old(events), events)
      ensures Consistent() && (Parse(events).Between? || Parse(events).Closing?)
      ensures result.trace == old(result.trace) && result.stopReason == old(result.stopReason)
      ensures raised <==> SubmitBreaks(m.findings, w, old(validations))
      ensures !raised ==> Concluded(w, m) && Reported(w, m.findings)
      ensures !raised ==> validations == old(validations) + |m.findings|
      ensures table.Unpaid() == old(table.Unpaid())
    {
      ghost var before, was := result, table.messages;
      NothingStored(Now(), m, Start(w), w, policy.steps);
      assert table.messages.Some? ==> table.messages.value + [] == table.messages.value;
      Settle(lastText, w);
      ghost var events0 := events;
      ghost var said;
      raised, said := Submit(w);
      if !raised {
        NowReported(events0, said, m.findings, w, old(validations));
        Concluding(before, result, old(validations), validations, was, table.messages, repairRounds, m, Start(w), w, policy.steps);
        NowConcluded(w, m);
      }
      // Degrading an ok result with malformed output is never needed here: `Ended` has excluded it.
    }

    method Finish(lastText: string, w: World, ghost m: Minutes) returns (raised: bool)
      requires Ended(w) && Left(Now(), m, Start(w), w, policy.steps) && lastText == m.lastWords
      modifies this`events, this`result, this`validations, table
      ensures SayAlike(old(events), events)
      ensures Consistent() && (Parse(events).Between? || Parse(events).Closing?)
      ensures result.trace == old(result.trace) && result.stopReason == old(result.stopReason)
      ensures raised ==> !w.Calm()
      ensures !raised ==> Concluded(w, m) && Reported(w, m.findings)
      ensures !raised ==> (result.status.StatusFailed? <==> result.trace == [] && result.summary == "" && result.findings == [])
      ensures !raised ==> (result.malformedOutput ==> !result.status.StatusOk?)
      ensures table.Unpaid() == old(table.Unpaid())
    {
      raised := Conclude(lastText, w, m);
      if raised {
        BreaksWhenNotCalm(m.findings, w, old(validations));
      } else {
        StatusOfConcluded(result, old(validations), validations, table.messages, m, Start(w), w, policy.steps);
      }
    }

    lemma NowConcluded(w: World, m: Minutes)
      requires Concludes(result, validations, table.messages, m, Start(w), w, policy.steps)
      ensures Concluded(w, m)
    {
    }

    lemma NowReported(before: seq<Event>, said: seq<Event>, drafts: seq<Draft>, w: World, n: nat)
      requires Parse(before).Between? && IsReport(said, drafts, w, n)
      requires events == before + said && validations == n + |drafts|
      ensures Reported(w, drafts)
    {
      ReportsInTheEnd(before, said, drafts, w, n);
    }

    /** What was said about findings is about these, by the last verdicts of the validator. */
    ghost predicate Reported(w: World, drafts: seq<Draft>)
      reads this`events, this`validations
    {
      exists n: nat :: IsReport(Reports(events), drafts, w, n) && n + |drafts| == validations
    }

    /** What a run that returned has to say, by the answers of the model and the verdicts of the validator. */
    ghost predicate Concluded(w: World, m: Minutes)
      reads this`result, this`validations, policy`steps, table
    {
      Concludes(result, validations, table.messages, m, Start(w), w, policy.steps)
    }
  }

  /**
   What the result keeps of these drafts when the marked ones passed: those and no others, as soon as
   one passed, and with them what the engine stored; every draft that did not pass or that the
   submission refused is counted.
   */
  predicate HandedIn(drafts: seq<Draft>, r: RunResult, marks: seq<bool>, submit: SubmitReply)
    requires |marks| == |drafts|
  {
    var passed, barred := Pick(drafts, marks, true), |Pick(drafts, marks, false)|;
    if true !in marks then r.findings == drafts && r.stored == [] && r.submitRejects == barred
    else
      && r.findings == passed
      && match submit
         case SubmitFails => r.stored == [] && r.submitRejects == barred + |passed|
         case Stored(ids, refused, unknown) => r.stored == ids && r.submitRejects == barred + |refused| + unknown
         case Garbled(_, _, _, _) => false
  }

  ghost predicate Handed(drafts: seq<Draft>, r: RunResult, w: World, n: nat) {
    forall marks :: |marks| == |drafts| && Marks(marks, w.verdict, n) ==> HandedIn(drafts, r, marks, w.submit)
  }

  lemma AfterHandingIn(before: RunResult, w: World, n: nat)
    requires !SubmitBreaks(before.findings, w, n) && before.stored == []
    ensures Handed(before.findings, Submitted(before, w, n), w, n)
  {
    var drafts := before.findings;
    forall marks | |marks| == |drafts| && Marks(marks, w.verdict, n)
      ensures HandedIn(drafts, Submitted(before, w, n), marks, w.submit)
    {
      AcceptedAreMarked(drafts, w.verdict, n, marks);
      RejectedAreUnmarked(drafts, w.verdict, n, marks);
      NonePicked(drafts, marks);
    }
  }

  ghost predicate Concludes(r: RunResult, validations: nat, messages: Option<seq<Message>>,
                            m: Minutes, start: Option<seq<Message>>, w: World, steps: nat) {
    forall i :: Look(i) ==>
      && |m.findings| <= validations && Handed(m.findings, r, w, validations - |m.findings|)
      && Speaks(r.summary, m, w.fallback) && r.malformedOutput == m.garbled
      && (r.status == if r.trace == [] && r.summary == "" && m.findings == [] then StatusFailed
                      else if m.garbled || m.gaveUp || r.stopReason == Some(InvalidArguments) || r.stopReason == Some(Interrupted)
                      then Degraded else StatusOk)
      && Performed(r.trace, m.orders, w.engine) && HasCause(r, m, w, steps)
      && (|r.trace| < |m.orders| ==> r.stopReason.Some? && r.stopReason.value.OfCall())
      && TableLeft(messages, start, m, |m.orders| - |r.trace|, OneMoreAnswer(m, w.fallback))
  }

  lemma Concluding(before: RunResult, after: RunResult, n: nat, validations: nat, was: Option<seq<Message>>, messages: Option<seq<Message>>, repairs: nat,
                   m: Minutes, start: Option<seq<Message>>, w: World, steps: nat)
    requires Left(View(before, was, repairs), m, start, w, steps) && Handed(before.findings, after, w, n)
    requires after == before.(
      findings := after.findings, stored := after.stored, submitRejects := after.submitRejects, summary := after.summary,
      status := if before.trace == [] && after.summary == "" && before.findings == [] then StatusFailed else before.status)
    requires after.summary == if before.summary != "" then before.summary else if m.lastWords != "" then m.lastWords else w.fallback
    requires messages == if was.Some? then Some(was.value + OneMoreAnswer(m, w.fallback)) else None
    requires validations == n + |before.findings|
    ensures Concludes(after, validations, messages, m, start, w, steps)
  {
    OpenLeft(View(before, was, repairs), m, start, w, steps);
    LastAnswer(was, start, m, |m.orders| - |before.trace|, OneMoreAnswer(m, w.fallback));
  }

  lemma BreaksWhenNotCalm(drafts: seq<Draft>, w: World, n: nat)
    requires SubmitBreaks(drafts, w, n)
    ensures !w.Calm()
  {
  }

  lemma MarksExist(drafts: seq<Draft>, w: World, n: nat) returns (marks: seq<bool>)
    requires !SubmitBreaks(drafts, w, n)
    ensures |marks| == |drafts| && Marks(marks, w.verdict, n)
  {
    marks := seq(|drafts|, i requires 0 <= i < |drafts| => Passes(w.verdict(n + i)));
  }

  lemma StatusOfConcluded(r: RunResult, n: nat, validations: nat, messages: Option<seq<Message>>,
                          m: Minutes, start: Option<seq<Message>>, w: World, steps: nat)
    requires Concludes(r, validations, messages, m, start, w, steps)
    requires validations == n + |m.findings| && !SubmitBreaks(m.findings, w, n)
    ensures r.status.StatusFailed? <==> r.trace == [] && r.summary == "" && r.findings == []
    ensures r.malformedOutput ==> !r.status.StatusOk?
  {
    assert Look(0);
    var marks := MarksExist(m.findings, w, n);
    assert HandedIn(m.findings, r, marks, w.submit);
    NonePicked(m.findings, marks);
  }

  /** Validating the drafts raises, or reading the answer to their submission does. */
  predicate SubmitBreaks(drafts: seq<Draft>, w: World, n: nat) {
    || Validated(|drafts|, w.verdict, n) < |drafts|
    || (AcceptedOf(drafts, w.verdict, n) != [] && w.submit.Garbled?)
  }

  /** What is reported when drafts are validated, starting with verdict n, and submitted. */
  function Report(drafts: seq<Draft>, w: World, n: nat): (events: seq<Event>)
    ensures AboutFindings(events)
  {
    if Validated(|drafts|, w.verdict, n) < |drafts| then []
    else Outcomes(AcceptedOf(drafts, w.verdict, n), ComplaintsOf(drafts, w.verdict, n), w.submit)
  }

  function Outcomes(accepted: seq<Draft>, complaints: seq<Complaint>, submit: SubmitReply): (events: seq<Event>)
    ensures AboutFindings(events)
  {
    RejectionEvents(complaints) + if accepted == [] then [] else SubmitEvents(submit)
  }

  ghost predicate IsReport(said: seq<Event>, drafts: seq<Draft>, w: World, n: nat) {
    forall i :: Look(i) ==> said == Report(drafts, w, n)
  }

  lemma ReportsInTheEnd(events: seq<Event>, said: seq<Event>, drafts: seq<Draft>, w: World, n: nat)
    requires Parse(events).Between? && IsReport(said, drafts, w, n)
    ensures IsReport(Reports(events + said), drafts, w, n)
  {
    assert Look(0);
    NothingReported(events);
    ReportsOfMore(events, said);
  }

  /** In terms of the marks: first the drafts that did not pass, then what became of those that did. */
  lemma ReportByMarks(said: seq<Event>, drafts: seq<Draft>, w: World, n: nat, marks: seq<bool>)
    returns (rejected: seq<Event>, rest: seq<Event>)
    requires IsReport(said, drafts, w, n)
    requires |marks| == |drafts| && Marks(marks, w.verdict, n) && Validated(|drafts|, w.verdict, n) == |drafts|
    ensures said == rejected + rest
    ensures Objections(rejected, drafts, marks, w.verdict, n)
    ensures true !in marks || w.submit.SubmitFails? ==> rest == []
    ensures true in marks && w.submit.Stored? ==> rest == OutcomeEvents(w.submit.ids, w.submit.refused, w.submit.unknown)
    ensures true in marks && w.submit.Garbled? ==> rest <= OutcomeEvents(w.submit.ids, w.submit.refused, w.submit.unknown)
  {
    assert Look(0);
    rejected := RejectionEvents(ComplaintsOf(drafts, w.verdict, n));
    rest := if AcceptedOf(drafts, w.verdict, n) == [] then [] else SubmitEvents(w.submit);
    RejectionsAreReported(drafts, w.verdict, n, marks);
    AcceptedAreMarked(drafts, w.verdict, n, marks);
    NonePicked(drafts, marks);
  }

  function AfterSubmit(r: RunResult, accepted: seq<Draft>, complaints: seq<Complaint>, submit: SubmitReply): RunResult {
    var rejected := |Rejections(complaints)|;
    if accepted == [] then r.(submitRejects := rejected)
    else if submit.SubmitFails? then r.(submitRejects := rejected + |accepted|, findings := accepted)
    else r.(submitRejects := rejected + |submit.refused| + submit.unknown, stored := submit.ids, findings := accepted)
  }

  function Submitted(r: RunResult, w: World, n: nat): RunResult {
    AfterSubmit(r, AcceptedOf(r.findings, w.verdict, n), ComplaintsOf(r.findings, w.verdict, n), w.submit)
  }
}
