# PacketSage: a verified model of its state machines, tables and text machinery

PacketSage analyses network captures with an engine written in Rust, an agent written in Python that
lets a language model drive the engine, and a desktop that shows a run while it goes on. This project
models the parts of it whose correctness is not visible in one function body and proves what they
promise, for all inputs, all interleavings and all runs. Everything it does not see (the model, the
engine, the clock, the network, the database) is a parameter that may answer anything.

| file | what it models |
|---|---|
| `Sidecar.dfy`, `SidecarProgress.dfy`, `SidecarFailures.dfy` | the desktop sidecar: command loop and runner threads as interleaved steps over shared state, how every frame is answered and every run starts and ends, and executions in which something raises |
| `Policy.dfy`, `Agent.dfy`, `AgentEvents.dfy` | one agent run: budgets, rounds, tool calls, the repair round, reported events |
| `Messages.dfy`, `Turns.dfy` | the chat message table, its trimming, and the memory from turn to turn |
| `Feed.dfy`, `Timeline.dfy` | the desktop's event reducer and the order of its timeline |
| `Conversation.dfy`, `Query.dfy`, `Ranking.dfy` | the session table and the rankings asked of it |
| `Findings.dfy`, `TaskCache.dfy`, `Decimal.dfy` | stored findings, the bounded cache of the RPC worker and cold recovery |
| `Scanner.dfy`, `Coalescer.dfy`, `Stream.dfy` | escaping raw control characters, merging streamed pieces, assembling a streamed message |
| `Envelope.dfy`, `FieldFinder.dfy`, `Json.dfy`, `TopLevel.dfy`, `HumanDraft.dfy` | the draft a person reads while the JSON answer is still arriving |
| `Civil.dfy`, `Checksum.dfy`, `Bytes.dfy`, `Pcapng.dfy`, `Capture.dfy` | build time stamps, Internet checksum, PCAPNG files |

Where the code is a class or a loop, the model is a class or a method, proved against functions and
reference definitions; lemmas about those carry the properties. The sidecar is the exception: its
properties are about interleavings, so it is a transition system whose executions are all sequences
of enabled steps.

## What the proofs found

- An event takes its number before its payload is measured, and measuring raises on text that UTF-8 cannot
  hold, such as half of a character cut in two by the model's tokens. A streamed piece that does so leaves
  a gap in the numbers of a run that finishes (`UnsentPieceLeavesAGap`) and a card that waits for ever
  (`MissedEventLeavesACardWaiting`), because the observer is dropped without a word. A summary that does so
  kills the runner: there is no `run_finished`, and no later frame starts a run (`UnsentSummaryStopsEverything`).
  Numbers have no gap exactly when every event can be sent. A card waits exactly when the first event that is
  missed is none that opens something new, or none is missed and the run broke off (`HeardFeed`).
- A frame is acked exactly once if and only if it is not nested too deeply for the parser, which ends the loop
  without an ack, and nothing raises after its good ack: a thread that cannot be started, or a welcome,
  run_started or report event that cannot be sent, adds a second one (`OneAckPerFrame`, `SidecarFailures.dfy`).
  A run whose thread was not started keeps the sidecar busy for ever (`StuckRunBlocksEveryRun`).
- The chat protocol wants every requested call answered. A run stopped by a call leaves the other calls of its
  round without a result, a malformed answer leaves all of its calls without one, and both are remembered and
  sent again in the next turn (`Agent.Run`, `Turns.RunTurn`, `StopLeavesCallsUnanswered`).
- Saving a conversation empties its file first; a save that fails later leaves an unreadable file, and one that
  fails on the encoding also ends the runner.
- `findings.id` is the primary key of the whole database, but ids `F-001`, `F-002`, ... start anew in each
  capture task, and the upsert keeps the owner and title of an existing row. So a recovered task has
  all its findings if and only if no other task has findings and there are at most 200
  (`PersistThenRecover`, `SecondTaskLosesItsFinding`, `Worker.Submit`); for a whole run that is a condition on its
  requests alone (`Serve`, `TwoSubmittersLose`).
- When the findings of a cold task cannot be read, the task comes back without any and numbers from `F-001`
  again, over its own rows: they keep the old titles and get the new bodies (`NumberedAnew`).
- A draft is the answer exactly when the first key of the object is the answer's name, or starts like a name of
  an envelope without being taken for one (`AnswerIsFound`); a key such as `summary: x` is read from its inside,
  and an object whose first key is none of these is shown as raw JSON (`DraftOfObject`).
- `trim_history` keeps its bound if and only if nothing had to be cut or the limit is at least two.
- The counter behind `invalid_arguments` is never reset, although the documentation speaks of consecutive
  calls; the third such call is traced but not counted. The last branch of `run`, which would degrade an
  ok result with malformed output, can never be taken.
- A run that raises inside a round or a call leaves a card waiting in the feed for ever; one that raises elsewhere does not.
- The header of the RPC worker says LRU; the code evicts in order of insertion, and so does the model.
- A packet block holds the low 64 bits of its ticks; with a binary resolution of 2^34 or finer even the start
  time no longer fits (`StartFits`), and otherwise the number of packets decides (`TimesReadBack`). An exponent of 128
  or more already has the top bit of the resolution option set and is read without it (`ResolutionReadsBack`); the
  instants come out right exactly within the capacity (`InstantsReadBack`).

## Model

| member | source | states |
|---|---|---|
| Sidecar.RunsAreSerialised | agent/packetsage_agent/serve.py:334-371 | in every interleaving at most one run is live and the lines of two runs never interleave; each run's lines are run_started, its events, run_finished with rising numbers; a finished run's numbers are 1, 2, 3, ... without a gap if and only if each of its events could be sent |
| Sidecar.SessionEventsAreNumbered | agent/packetsage_agent/serve.py:334-371 | the numbers of session events rise; none is missing if and only if each of these events could be sent |
| Sidecar.LostAreUnsent | agent/packetsage_agent/serve.py:334-371 | numbers taken by a run minus lines written are exactly its events that could not be sent |
| Sidecar.ExecutionKeepsInv | agent/packetsage_agent/serve.py:408-490 | the conjunction of all invariants below survives every enabled step of both threads, those in which something raises included, so it holds after every execution |
| Sidecar.KeepsMutualExclusion | agent/packetsage_agent/serve.py:525-590 | a run is registered only when no other is on stage, although the busy check, the registration and the runner's clearing are separate steps |
| Sidecar.KeepsTranscripts | agent/packetsage_agent/serve.py:631-647 | every step, one that takes a number without writing a line included, leaves every run's transcript in the shape its phase demands, with rising numbers |
| Sidecar.KeepsSegments | agent/packetsage_agent/serve.py:631-647 | every step keeps the lines of each run in one segment of the output |
| Sidecar.KeepsAcks | agent/packetsage_agent/serve.py:319-332 | every step keeps the acks written equal to the acks of the frames handled and in hand |
| Sidecar.KeepsHandshake | agent/packetsage_agent/serve.py:500-516 | without a good hello no run exists and nothing but shutdown was acked as good |
| Sidecar.OneAckPerFrame | agent/packetsage_agent/serve.py:408-490 | between two frames the acks written are those of the frames received, frame by frame; each frame has exactly one if and only if no frame was nested too deeply for the parser and nothing raised after a good ack; each carries its frame's id if and only if besides every id can be encoded |
| Sidecar.NothingBeforeHello | agent/packetsage_agent/serve.py:447-483 | until a good hello the only command that succeeds is shutdown, which ends the loop, and no run exists |
| Sidecar.MismatchIsForGood | agent/packetsage_agent/serve.py:500-516 | after a version mismatch no continuation, a good hello included, ever registers a run |
| Sidecar.StuckRunBlocksEveryRun | agent/packetsage_agent/serve.py:568-647 | after a thread that could not be started, or that died while reporting its end, no continuation ever registers a run |
| SidecarProgress.RunStarts | agent/packetsage_agent/serve.py:519-590 | from every reachable state between two frames that is welcomed, not fatal and without a live run, a run frame and a chat frame alike lead through the steps of the handler to a running thread, with exactly one ack, a good one under the id of the frame, and run_started as number 1 |
| SidecarProgress.GoodAcksAreRuns | agent/packetsage_agent/serve.py:525-590 | between two frames, in every execution, as many good acks were given to run and chat frames as runs were registered |
| SidecarProgress.BusyIsRefused | agent/packetsage_agent/serve.py:529-539 | while a run is on stage a run or chat frame gets one bad ack and changes nothing |
| SidecarProgress.DeclinedFrame | agent/packetsage_agent/serve.py:525-556 | so does a frame that is declined for its parameters, the provider or the engine |
| SidecarProgress.RunEnds | agent/packetsage_agent/serve.py:631-647 | a run whose last event can be sent ends with run_finished under the next number and frees the stage, wherever the command loop stands, and touches no other run |
| SidecarProgress.RunFails | agent/packetsage_agent/serve.py:631-640 | a run that raises says so first, under the next number |
| SidecarProgress.ProgressIsWritten | agent/packetsage_agent/serve.py:334-371 | what a hook of a running run reports is written with the next number |
| SidecarProgress.LosesItsObserver | agent/packetsage_agent/agent.py:139-150 | a run loses its observer when that raises, and exactly when a step of progress cannot be sent |
| SidecarProgress.NoProgressWithoutObserver | agent/packetsage_agent/agent.py:139-150 | an observer that raised is never called again, in any continuation |
| SidecarProgress.RefusedFrame | agent/packetsage_agent/serve.py:412-478 | lines that are no commands, unknown commands, and all but hello and shutdown before the hello or after a mismatch: one bad ack, with an empty id if there is none, and nothing else changes |
| SidecarProgress.HelloIsWelcomed | agent/packetsage_agent/serve.py:500-516 | a good hello gets one good ack and then the welcome event under the next session number |
| SidecarProgress.MismatchFrame | agent/packetsage_agent/serve.py:500-512 | another protocol version gets one bad ack and makes the session fatal |
| SidecarProgress.ReportIsWritten | agent/packetsage_agent/serve.py:715-758 | a report that succeeds gets one good ack and then report_written under the next session number |
| SidecarProgress.CancelFrame | agent/packetsage_agent/serve.py:650-661 | cancel is acked as good in any case, and marks exactly the run it names, if that one is on stage |
| SidecarProgress.StatusFrame | agent/packetsage_agent/serve.py:669-700 | status is acked as the engine answers and changes nothing |
| SidecarProgress.ShutdownFrame | agent/packetsage_agent/serve.py:663-666 | shutdown is acked as good at any time and ends the loop |
| SidecarFailures.TooDeepGetsNoAck | agent/packetsage_agent/serve.py:408-421 | one frame on which the parser raises something other than a value error: the loop ends and the frame has no ack |
| SidecarFailures.ThreadFailureAcksTwice | agent/packetsage_agent/serve.py:568-590 | an execution from the start in which one frame gets two acks and the run stays busy for ever |
| SidecarFailures.UnsentStartAcksTwice | agent/packetsage_agent/serve.py:525-590 | the same by a run_started that cannot be encoded |
| SidecarFailures.UnsentPieceLeavesAGap | agent/packetsage_agent/serve.py:334-371 | an execution in which one streamed piece cannot be encoded and the finished run's lines are numbered 1 and 3 |
| SidecarFailures.UnsentSummaryStopsEverything | agent/packetsage_agent/serve.py:631-647 | an execution in which the summary cannot be encoded: no run_finished, and no continuation registers another run |
| SidecarFailures.UnsentWelcomeAcksTwice | agent/packetsage_agent/serve.py:500-516 | a welcome that cannot be encoded: two acks for one frame and a session number that is missing |
| SidecarFailures.UnsentIdComesBackChanged | agent/packetsage_agent/cli.py:153-172 | the ack of an id that cannot be encoded does not carry that id |
| Policy.ConstantSuffixIsMaximal | agent/packetsage_agent/policy.py:104-119 | the specification of `repeated`: the longest suffix of equal call signatures |
| Policy.AgentPolicy.NoteToolCall | agent/packetsage_agent/policy.py:104-119 | appends the signature, keeps `repeated` equal to the constant suffix, says stop exactly when a limit is reached and with which reason |
| Policy.AgentPolicy.CanContinue | agent/packetsage_agent/policy.py:121-137 | true exactly without a reason to stop and with room in every budget; otherwise records the first exhausted budget and keeps an earlier reason |
| Policy.AgentPolicy.NoteLlmCall | agent/packetsage_agent/policy.py:72-86 | counts one call with its tokens, its cost and its cache hits and misses, and nothing else |
| Agent.DecisionFromMessage | agent/packetsage_agent/provider.py:1005-1104 | what a message of the model becomes: calls with the identifiers they are answered under, a final answer with its findings and its summary, or a malformed decision; nothing is done with a decision whose first arguments are `null` |
| Agent.ParsedInOrder | agent/packetsage_agent/agent.py:263-269 | the findings that can be read stay in the order in which the model wrote them |
| Agent.AcceptedOrRejected | agent/packetsage_agent/agent.py:581-633 | whenever validation comes to its end, the accepted drafts are those with a passing verdict and the rejections are about the others, both in the order of the drafts |
| Agent.RejectionsAreReported | agent/packetsage_agent/agent.py:635-660 | every draft that does not pass is reported once, in its order, with its title and the code of its own verdict |
| Agent.ReportByMarks | agent/packetsage_agent/agent.py:635-697 | for marks that say which verdicts pass: what is reported is first those objections and then, if a draft passed, the refused, unknown and stored ones of the answer, as far as it can be read |
| Agent.PacketSageAgent.RunTool | agent/packetsage_agent/agent.py:473-579 | one call adds exactly one record, with the call's tool and the engine's own arguments, summary and status, and one result message under the call's id with the engine's answer; it keeps events, traces, counters and table in step and settles the oldest open id; it stops for invalid arguments exactly at the third illegal call, which is traced but not counted; it raises inside the call or behind the finished one |
| Agent.PacketSageAgent.RunCalls | agent/packetsage_agent/agent.py:421-441 | the calls of one round in order, each with its own answer of the engine, until one stops the run or raises; every call that was run is answered under its id |
| Agent.PacketSageAgent.OfferRepair | agent/packetsage_agent/agent.py:399-415 | the model gets one more round exactly when there are drafts, no repair yet, room in the budget, a validation that does not raise and a rejected draft |
| Agent.PacketSageAgent.Finalize | agent/packetsage_agent/agent.py:379-416 | unparsable findings are forgiven once, and the summary is taken all the same; the run ends with the parsed drafts and the reason recorded by the policy, or an exception of the parser or the validator leaves it between two rounds |
| Agent.PacketSageAgent.Act | agent/packetsage_agent/agent.py:368-441 | each kind of decision does to the result, the table and the repair counter what the minutes of the answers heard so far say, and either goes on or ends the run for a cause |
| Agent.PacketSageAgent.Round | agent/packetsage_agent/agent.py:327-441 | one round raises the step counter by one, passes on what is streamed, and goes on, ends or raises in a state that is fully described by the minutes with the new answer |
| Agent.PacketSageAgent.Investigate | agent/packetsage_agent/agent.py:327-444 | the loop ends for every model, by the step budget, after at least one round, with the findings, the summary, the last words, the trace and the table that the minutes of all answers say |
| Agent.PacketSageAgent.Submit | agent/packetsage_agent/agent.py:635-697 | for marks that say which verdicts pass: if none does the findings stay, else they become exactly the marked drafts in order and `stored` is what the engine returned; `submitRejects` counts the unmarked drafts and what the submission refused, or all that passed when it fails; every rejected, refused and stored finding is reported once, after the last round; it raises exactly when a validation does or the answer cannot be read to its end, and then the result stays and the reports break off there |
| Agent.PacketSageAgent.Conclude | agent/packetsage_agent/agent.py:444-470 | which words end up as the summary, when the run counts as failed, what is submitted and kept of the findings by the verdicts of the validator, and what is reported last |
| Agent.PacketSageAgent.Run | agent/packetsage_agent/agent.py:272-470 | one run against any model and engine: budgets, steps = LLM calls = rounds, traces = preloaded + trace = calls begun, trace minus counted calls = 1 exactly for invalid arguments, where the events and counters stand after each kind of exception, a run without exceptions returns, every streamed piece is passed on under its step, channel and tool, a paired message table; every id asked for is answered if and only if none was left by earlier turns, none stands in an answer nothing is done with, and no call stopped the run before the others of its round. A run that returns has the findings of the last final answer that was taken, those of them that passed and no others once one passes, its summary (or the last words, or one more answer), the trace of the calls asked for in order, each with its own answer of the engine, its degraded status exactly for its causes, and a table with exactly the messages exchanged |
| AgentEvents.AppendFindings | agent/packetsage_agent/agent.py:635-697 | events about findings keep a closed trace closed and add no round and no call |
| Messages.AppendKeepsPaired | agent/packetsage_agent/provider.py:672-701 | a tool message may be appended only while the nearest non-tool message asks for tools; anything else always |
| Messages.SeedKeepsPaired | agent/packetsage_agent/provider.py:657-670 | dropping system messages from the seed leaves every tool message behind the assistant message that asked |
| Messages.SeedKeepsDebt | agent/packetsage_agent/provider.py:657-670 | dropping system messages from the seed leaves exactly the same requested ids unanswered |
| Messages.TrimHistory | agent/packetsage_agent/serve.py:899-909 | the loop computes the trimmed table, with Python's slice rules: the head and the last messages, less the tool messages those begin with |
| Messages.TrimKeepsPaired | agent/packetsage_agent/serve.py:899-909 | for a limit of at least two: same head, at most `limit` messages, still paired |
| Messages.TrimKeepsDebt | agent/packetsage_agent/serve.py:899-909 | trimming leaves no further requested id unanswered |
| Messages.TrimBoundNeedsTwo | agent/packetsage_agent/serve.py:899-909 | the bound holds exactly when nothing had to be cut or the limit is at least two |
| Messages.MessageTable.ContinueConversation | agent/packetsage_agent/provider.py:657-670 | the first round builds system, seed without its system messages, question; later rounds change nothing; the ids left unanswered stay the same |
| Messages.MessageTable.RecordToolResult | agent/packetsage_agent/provider.py:682-689 | appends the result under its call id, which is left out when empty, keeps the table paired and settles the oldest open id |
| Messages.ConversationStore.Conversation | agent/packetsage_agent/serve.py:593-609 | memory first, then disk, and what disk had is kept in memory |
| Messages.ConversationStore.Remember | agent/packetsage_agent/serve.py:611-629 | an empty table changes nothing; otherwise the table trimmed to 24 messages is kept, and the file of the task, and no other, holds it, stays as it was, or is torn and unreadable; it raises exactly when a torn write fails for another reason than the file system |
| Turns.RunSeeded | agent/packetsage_agent/agent.py:272-470 | of a run that returned: all that Agent.Run says, on a table that starts from the given history; ids left unanswered + calls traced = ids left before + ids asked for, and what is not answered stands in a void answer or behind a stop |
| Turns.StopLeavesCallsUnanswered | agent/packetsage_agent/agent.py:421-441 | a concrete run, stopped by its tool budget inside a round of three calls, whose table keeps requests without a result |
| Turns.RunTurn | agent/packetsage_agent/serve.py:593-647 | a turn seeds its run with what was remembered, runs, and remembers the end of the run's own table; a run that raises leaves the disk as it was; what is remembered leaves no more ids unanswered than the run did; the end is not reported when saving raises |
| Turns.RunTurns | agent/packetsage_agent/serve.py:593-629 | after any history of turns on any tasks, saves of any outcome and restarts, every remembered table is paired, starts with a system message and has at most 24 messages; right after a restart nothing is in memory |
| Turns.RunOnDesktop | desktop/src/App.tsx:429-631 | a whole run as the desktop shows it, whichever events can be sent: the cards are those expected of the events heard and the text of any choice of streams is the text heard of them; when all can be sent, one tool card per traced call, one step card per LLM call, the model's text in full, and nothing waiting exactly unless the run broke off inside a round or call; otherwise the events before the first that cannot, and nothing waiting exactly if that one opens something |
| Feed.SettleLast | desktop/src/App.tsx:535-573 | the backward loop replaces the last waiting card of its kind and no other |
| Feed.ReplayShowsTheRun | desktop/src/App.tsx:429-631 | after every beginning of a well-formed trace the feed shows exactly the open round or call |
| Feed.FinishedFeed | desktop/src/App.tsx:429-631 | at the end: a tool card per start, a step card per round, no open delta once the end is reported; nothing waits if and only if the trace did not break off inside a round or call |
| Feed.HeardFeed | agent/packetsage_agent/agent.py:139-150 | for an observer dropped after any number of events: nothing waits if and only if the first event it misses opens something new, or it misses none and the run did not break off |
| Feed.MissedEventLeavesACardWaiting | agent/packetsage_agent/agent.py:139-150 | the trace of a run that returns and whose one streamed piece cannot be sent: the feed is one step card that waits for ever |
| Feed.NoTextIsLost | desktop/src/App.tsx:437-468 | for any choice of streams by step, channel and tool, the text on their cards is the text streamed in them, in order: nothing is lost and nothing gets under another step, channel or tool |
| Feed.CardsAreExpected | desktop/src/App.tsx:473-590 | for every well-formed trace the other cards are one for each round, call, accepted and rejected finding in order, with its own step, tool, outcome, id or title, although the reducer searches for the card to settle |
| Feed.CardsOfHeard | desktop/src/App.tsx:429-631 | the same at the end of what was heard of a run |
| Feed.CallEndFindsItsCard | desktop/src/App.tsx:556-575 | in any feed the end of a call settles the last waiting card of its own tool, and gets a new card if there is none |
| Timeline.OrderTimeline | desktop/src/session.ts:118-145 | the two loops, with the flag `hasBody`, compute the sorted blocks one after the other |
| Timeline.RankIsLane | desktop/src/session.ts:86-113 | the order of the lanes: calls and what is streamed for them, thoughts, other text, findings, rejections, with the heading above and unknown kinds below |
| Timeline.BlocksAreWellCut | desktop/src/session.ts:118-132 | steps only at the start of a block; every later block starts with a step that follows something else |
| Timeline.CutIsUnique | desktop/src/session.ts:118-132 | there is only one such way to cut a timeline |
| Timeline.OrderedIsPermutation | desktop/src/session.ts:118-145 | every entry is shown exactly once |
| Timeline.BlocksOfOrdered | desktop/src/session.ts:118-145 | the output's blocks are the input's blocks in order, each with steps first, then lane after lane from calls to rejections, each lane in order of arrival |
| Timeline.LanesDetermine | desktop/src/session.ts:134-143 | that determines the order of a block completely |
| Timeline.OrderedIsIdempotent | desktop/src/session.ts:118-145 | ordering an ordered timeline changes nothing |
| Conversation.Canonicalize | crates/packetsage-core/src/model.rs:70-85 | the key holds the two endpoints, smaller first |
| Conversation.SmallerFirst | crates/packetsage-core/src/model.rs:65-85 | smaller means IPv4 before IPv6, then the address, then the port, and both directions give one key |
| Conversation.KeysIgnoreDirection | crates/packetsage-core/src/model.rs:65-85 | two packets share a key exactly when they use one protocol between the same two endpoints, in either direction |
| Conversation.OtherEndpointSwaps | crates/packetsage-core/src/model.rs:94-101 | from one endpoint of a key to the other and back |
| Conversation.KeyIsBetween | crates/packetsage-core/src/model.rs:204-219 | by a packet's own fields: it has a key exactly with a transport, both addresses and TCP or UDP; the key is that of its protocol, source address and port and destination address and port (a missing port is 0), and it was sent by the side its source fields name |
| Conversation.SharedSession | crates/packetsage-core/src/model.rs:204-219 | two packets belong to one session exactly when they have the same protocol and the same unordered pair of source and destination address with port |
| Conversation.ReplyComesFromTheOtherSide | crates/packetsage-core/src/model.rs:204-219 | a packet and its reply share the key and have opposite senders, unless a host talks to itself on one port |
| Conversation.SeenIsKnown | crates/packetsage-core/src/conversation.rs:169-206 | a key is known exactly when an earlier packet went between the same two ends by the same protocol |
| Conversation.ConversationAggregator.Observe | crates/packetsage-core/src/conversation.rs:169-253 | a packet with both addresses, a transport and TCP or UDP goes to the session between its two ends, which is new exactly when no earlier packet belongs to it, in either direction; other packets change nothing; the table stays equal to the reference: per key a function of that key's packets (saturated counts and bytes with their split by sender, times, client, first known protocol), dense ids in first-seen order |
| Conversation.ConversationAggregator.NoteVerdict | crates/packetsage-core/src/conversation.rs:256-272 | counts retransmissions and buffered segments of known sessions, saturated; unknown keys change nothing |
| Conversation.ConversationAggregator.NoteState | crates/packetsage-core/src/conversation.rs:275-280 | sets the state of known sessions only |
| Conversation.ConversationAggregator.Sessions | crates/packetsage-core/src/conversation.rs:147-153 | the sessions in first-seen order, numbered 1, 2, 3, ..., each as the reference has it |
| Conversation.ConversationAggregator.Get | crates/packetsage-core/src/conversation.rs:156-159 | the search by id finds the session with that number, and none for any other id |
| Conversation.EntryFollows | crates/packetsage-core/src/conversation.rs:210-253 | updating an entry by one packet is the summary of the longer history |
| Conversation.FirstEntry | crates/packetsage-core/src/conversation.rs:177-206 | a new entry after its first packet is the summary of that packet |
| Conversation.TimesAreExtremes | crates/packetsage-core/src/conversation.rs:230-231 | first and last time stamp are the minimum and maximum of the session's packets |
| Conversation.LastBareSynIsLast | crates/packetsage-core/src/conversation.rs:210-218 | the packet that decides the client is the last bare SYN |
| Conversation.OrderIsExact | crates/packetsage-core/src/conversation.rs:177-182 | the order has no duplicates and holds exactly the keys with packets |
| Conversation.SessionsPartitionThePackets | crates/packetsage-core/src/conversation.rs:169-253 | every packet with a key is counted in exactly one session |
| Conversation.ShownPacketsAddUp | crates/packetsage-core/src/conversation.rs:169-253 | the shown counts add up to the packets with a key, while a u64 can hold that number |
| Query.ProtocolStats.Add | crates/packetsage-core/src/query.rs:78-86 | every bucket keeps the saturated numbers of what was added to it |
| Query.ProtocolStats.Count | crates/packetsage-core/src/query.rs:134-139 | the saturated number of adds, zero for an unknown bucket |
| Query.ProtocolStats.Top | crates/packetsage-core/src/query.rs:89-109 | the first `top` rows of the ranking of the layer: by packets descending, then by name |
| Query.ProtocolStats.All | crates/packetsage-core/src/query.rs:112-131 | the overview by layer, then packets descending, then name |
| Query.LayersInOrder | crates/packetsage-core/src/query.rs:112-131 | layers are ordered from the link up to the applications |
| Query.RankingsAreUnique | crates/packetsage-core/src/query.rs:89-109 | there is only one ranking of a layer, so every prefix is determined |
| Query.OverviewContainsEveryRanking | crates/packetsage-core/src/query.rs:112-131 | the overview restricted to a layer is that layer's ranking without a cap |
| Query.ConversationsAreTheLargest | crates/packetsage-core/src/query.rs:602-632 | by bytes, packets or duration in seconds, whatever the rounding of seconds, and by the text of the padded id where these are equal: only sessions with the protocol, one of the addresses and at least the bytes and packets asked for, in strict order, at most the limit (20 for 0); such a session is missing only behind a full answer of larger ones |
| Query.SessionIdsDiffer | crates/packetsage-core/src/query.rs:602-632 | different numbers give different id texts, so ties are broken completely |
| Query.FilterPackets | crates/packetsage-core/src/query.rs:635-650 | the first `limit` matching positions (one for 0) |
| Query.MatchingIsExact | crates/packetsage-core/src/query.rs:635-650 | matching positions are exactly those that match, ascending |
| Findings.FindingIdReads | crates/packetsage-protocol/src/ids.rs:89-93 | an id is `F-` and the number in decimal, with three digits unless it needs more |
| Findings.FindingIdsDiffer | crates/packetsage-protocol/src/ids.rs:89-93 | different numbers have different ids, beyond 999 too |
| Findings.IdsSortByNumber | crates/packetsage-storage/src/sqlite.rs:643-655 | below a thousand, ids sort as text the way they are numbered |
| Findings.ListFindings | crates/packetsage-storage/src/sqlite.rs:643-655 | the first 200 rows of the owner by id |
| Findings.PersistThenRecover | crates/packetsage-cli/src/persist.rs:111-128 | writing through and reading back gives the same findings if and only if there are at most 200 and no new id is taken in the table |
| Findings.MirroredIsRecovered | crates/packetsage-cli/src/serve.rs:1385-1408 | a task whose rows are exactly its findings is read back completely and in order |
| Findings.TakenIdIsLost | crates/packetsage-storage/src/sqlite.rs:412-437 | a new id that another owner's row already has is lost |
| Findings.SecondTaskLosesItsFinding | migrations/0001_init.sql:105-115 | two tasks with one finding each suffice |
| Findings.NumberedAnew | crates/packetsage-cli/src/persist.rs:111-128 | findings numbered anew over the task's own rows, no further id being taken: the rows are then the old titles with the new bodies, and the longer list's remainder |
| TaskCache.Worker.InsertTask | crates/packetsage-cli/src/serve.rs:292-300 | drops the tasks inserted longest ago until there is room, appends, and keeps all others |
| TaskCache.Worker.PrimeColdTask | crates/packetsage-cli/src/serve.rs:122-182 | brings a task back, at the end of the queue and by its own source file, exactly when it is known, its source is readable and the replay succeeds; its findings are the first 200 of its listing if they can be read, else it has none, and then memory and database agree only if it never had any |
| TaskCache.SubmitAfterFailedRead | crates/packetsage-cli/src/serve.rs:1385-1408 | while no other task has findings, a submission after a failed read is written over the task's own rows, and everything accepted stays recoverable if and only if nothing is accepted now, or the task had nothing before and keeps at most 200 |
| TaskCache.Worker.Analyze | crates/packetsage-cli/src/serve.rs:212-271 | a new task without findings at the end of the queue, and its source file in the database if that takes it |
| TaskCache.AcceptCarries | crates/packetsage-core/src/store.rs:234-262 | each accepted draft becomes one finding behind those before, under the next number, with its own title and its own body |
| TaskCache.Worker.AcceptDrafts | crates/packetsage-cli/src/serve.rs:1131-1170 | the loop over the drafts does that: the finding for the i-th draft stands behind those of the accepted drafts before it, with the title and the body of the i-th draft |
| TaskCache.Worker.StoreDrafts | crates/packetsage-cli/src/serve.rs:1115-1204 | the whole new state of memory and database after a submission; each new finding has the number, the title and the body of its draft |
| TaskCache.Worker.Submit | crates/packetsage-cli/src/serve.rs:1115-1204 | each new finding has the number, the title and the body of its draft; with writes that succeed nothing becomes unrecoverable if and only if nothing was accepted, or no other task has findings and this one keeps at most 200 |
| TaskCache.Worker.Dispatch | crates/packetsage-cli/src/serve.rs:104-120 | what each kind of request, and a new process over the same database, does to memory, queue, database and recoverability; no source file is ever forgotten or exchanged |
| TaskCache.OnlyOneTaskHasFindings | migrations/0001_init.sql:105-115 | when everything is recoverable at most one task has findings |
| TaskCache.SubmitKeepsMirror | crates/packetsage-cli/src/serve.rs:1115-1204 | recoverability after a submission, both directions |
| TaskCache.BoundedAfterSubmit | crates/packetsage-cli/src/serve.rs:1115-1204 | a submission keeps those bounds exactly under the condition under which the worker loses nothing by it |
| TaskCache.Serve | crates/packetsage-cli/src/serve.rs:45-76 | any sequence of requests and restarts, with fresh task ids, keeps the queue duplicate-free, equal to the cached tasks and at most 8; while sources and findings stay readable and writes succeed, everything accepted is still recoverable if and only if, by the requests alone, at most one task was given findings and no more than 200 |
| TaskCache.EverySubmissionStands | crates/packetsage-cli/src/serve.rs:1115-1204 | by the requests alone: whatever comes later, each accepted draft of a submission to a known task is in the end a finding of that task, under the number it was given then, with its own title and body; in runs that lose nothing that is what the worker has (Serve) and what a recovery brings back (PrimeColdTask) |
| TaskCache.TwoSubmittersLose | migrations/0001_init.sql:105-115 | the shortest run that loses something: two files and one accepted draft for each are out of those bounds |
| Scanner.EscapeLiteralControlChars | agent/packetsage_agent/provider.py:153-182 | the loop with its two flags computes the escaped text |
| Scanner.ScannerStaysInStep | agent/packetsage_agent/provider.py:153-182 | after any text the scanner is in the mode it would have after the output |
| Scanner.NoRawControlIsLeft | agent/packetsage_agent/provider.py:153-182 | no raw newline, CR or tab is left inside a literal, except directly after a backslash |
| Scanner.CleanEverywhere | agent/packetsage_agent/provider.py:153-182 | what that means at every place of the text |
| Scanner.UnchangedIffClean | agent/packetsage_agent/provider.py:153-182 | exactly the clean texts are left alone |
| Scanner.Idempotent | agent/packetsage_agent/provider.py:153-182 | a second pass changes nothing |
| Scanner.MeaningIsKept | agent/packetsage_agent/provider.py:153-182 | nothing outside literals changes and every literal stands for the same characters |
| Scanner.LiteralIsFixed | agent/packetsage_agent/provider.py:153-182 | a whole literal, given piece by piece: exactly its raw line feeds, carriage returns and tabs become the escapes n, r and t |
| Scanner.OutsideStays | agent/packetsage_agent/provider.py:153-182 | nothing is replaced outside literals |
| Coalescer.DeltaCoalescer.Add | agent/packetsage_agent/provider.py:255-276 | the whole new state for every piece and every clock; frames stay merges of consecutive pieces of one kind |
| Coalescer.DeltaCoalescer.Flush | agent/packetsage_agent/provider.py:278-285 | sends what is held; then the frames are a coalescing of everything added |
| Coalescer.CoalescingKeepsText | agent/packetsage_agent/provider.py:224-285 | the whole stream, each channel and the arguments of each tool index concatenate to what was added |
| Coalescer.FramesAreShort | agent/packetsage_agent/provider.py:224-285 | no frame is empty; each ends with a piece of its own kind and is that piece or shorter than the limit plus it |
| Stream.ReadStream | agent/packetsage_agent/provider.py:908-1003 | content, reasoning and tool calls (by ascending index, last id, joined name and arguments) of the assembled message; what is handed to the coalescer is of every chunk its content, its reasoning and its parts of arguments, under their index and the name as far as it has arrived; the frames, coalesced at 256 characters, concatenate per channel and call to the message |
| Stream.SortedCalls | agent/packetsage_agent/provider.py:984-995 | exactly the collected calls, by ascending index |
| Envelope.DecodeEscapes | desktop/src/envelope.ts:35-74 | the index loop computes the decoded text, unfinished and unknown escapes kept as they are |
| Envelope.NothingElseIsDecoded | desktop/src/envelope.ts:35-74 | where none of the escapes of section 7 of RFC 8259 starts, the unit stands as it is, a lone backslash included |
| Envelope.EscapeSpells | desktop/src/envelope.ts:35-74 | whatever is decoded as an escape is one of those, and stands for the unit it gives |
| Envelope.ReadString | desktop/src/envelope.ts:77-95 | the index loop reads to the closing quote, or all there is |
| Envelope.StringComesBack | desktop/src/envelope.ts:35-95 | every string comes back from every escaping of it by section 7 of RFC 8259, written out independently: the eight letters with their units, four hexadecimal digits of either case with their places; whatever follows the closing quote |
| Envelope.CutAnywhere | desktop/src/envelope.ts:35-95 | after every cut: the string up to the last whole escape, then the arrived part of the next one as it stands |
| Envelope.TrimmedIsPrefix | desktop/src/envelope.ts:170-170 | a trimmed beginning is a beginning of the trimmed whole |
| Envelope.TrimIsExact | desktop/src/envelope.ts:170-170 | trimming takes the white space from both ends, all of it and nothing else |
| Envelope.SpacesAreListed | desktop/src/envelope.ts:23-30 | the white space of ECMAScript, unit by unit |
| Envelope.DraftGrows | desktop/src/envelope.ts:152-180 | cut between escapes, the trimmed draft is a beginning of the final one |
| FieldFinder.TopLevelFieldEnd | desktop/src/envelope.ts:117-145 | the loop with depth, inString and escaped computes the recursive search |
| FieldFinder.WordsAndSigns | desktop/src/envelope.ts:23-32 | the field names and the signs of JSON, against their spelling |
| FieldFinder.LowerIsSmall | desktop/src/envelope.ts:23-28 | capital letters match small ones and nothing else does |
| FieldFinder.ColonIsFound | desktop/src/envelope.ts:23-28 | a colon of either width with white space on both sides |
| FieldFinder.BareFieldIsFound | desktop/src/envelope.ts:136-139 | a name without quotes, in letters of either case, is found at the top level up to its value |
| Json.SkipValue | desktop/src/envelope.ts:117-145 | the search runs over every well-formed value inside an object, strings and nested keys included, and is then at the same depth |
| Json.QuotedString | desktop/src/envelope.ts:25-25 | the expression for a quoted field matches a string exactly when it is a field name before a colon |
| TopLevel.FieldIsFound | desktop/src/envelope.ts:117-145 | for every well-formed object with such a top-level key, whatever follows, and every cut: nothing until its colon, then the place behind colon and white space of the first such key |
| TopLevel.NoFieldIsFound | desktop/src/envelope.ts:117-145 | without such a key at the top level nothing is found, however deep the name occurs |
| TopLevel.ValueStartsThere | desktop/src/envelope.ts:117-145 | the value of the first such key starts where the search ends |
| HumanDraft.DraftAfterCut | desktop/src/envelope.ts:152-180 | after every cut of an envelope (exactly the objects of AnswerIsFound) with a string answer: nothing before the string starts, then the trimmed text read so far |
| HumanDraft.DraftOfEnvelope | desktop/src/envelope.ts:152-180 | the finished envelope shows the trimmed string, however escaped and whatever follows |
| HumanDraft.DraftOfPart | desktop/src/envelope.ts:152-180 | inside the string: the trimmed beginning and the arrived part of an escape; at an escape boundary a beginning of the final draft |
| HumanDraft.SummaryAgrees | desktop/src/envelope.ts:23-23 | the expression for the first field and the search never disagree on an envelope or a part of one |
| HumanDraft.SummaryOfKey | desktop/src/envelope.ts:23-23 | what the expression for the first field finds in an object, by its first key |
| HumanDraft.FirstFieldIsFound | desktop/src/envelope.ts:23-23 | the expression for the first field matches behind brackets and one more quote or bracket, in letters of either case, with white space everywhere and a quote or bracket behind the name |
| HumanDraft.EnvelopeIsRecognised | desktop/src/envelope.ts:103-107 | every part of an object whose first key starts like a name of an envelope, behind brackets, quotes and white space, is recognised as one |
| HumanDraft.ProseByKey | desktop/src/envelope.ts:103-107 | an object, whatever follows it, is shown as it is if and only if it is empty or its first key does not start like such a name |
| HumanDraft.AnswerIsFound | desktop/src/envelope.ts:152-167 | the draft is read from the first field of the right name if and only if the first key is that name, or starts like a name of an envelope and is neither a name with white space around it nor one with a colon of its own |
| HumanDraft.DraftOfObject | desktop/src/envelope.ts:152-180 | the draft of every well-formed object, by its first key: the text as it is, the value of the first key, a text inside that key, the first field of the right name, or nothing |
| HumanDraft.SpacedAnswerAfterCut | desktop/src/envelope.ts:152-180 | white space around a field name in the first key: after every cut the draft is the trimmed text of that key's value read so far |
| HumanDraft.FrontDoesNotMatter | desktop/src/envelope.ts:152-155 | a fence line and white space in front are removed |
| HumanDraft.NothingToSay | desktop/src/envelope.ts:163-167 | an envelope without an answer gives an empty draft |
| HumanDraft.DraftInCorners | desktop/src/envelope.ts:171-174 | a value in corner brackets is shown trimmed, as far as it has arrived |
| HumanDraft.DraftWithoutQuotes | desktop/src/envelope.ts:176-179 | a value without quotes ends before the findings and without the commas, closing brackets and white space behind it |
| HumanDraft.FindingsAreRecognised | desktop/src/envelope.ts:28-28 | the field with the findings is recognised as JSON writes it |
| HumanDraft.SignsAroundText | desktop/src/envelope.ts:28-32 | the letters, digits and signs of a fence line, and the signs that are taken off in front of a field name, against their spelling |
| Civil.TheRightInstant | crates/packetsage-cli/build.rs:95-114 | for every number of seconds the fields are a valid Gregorian date and time whose day count by the leap-year rules gives that number back |
| Civil.InstantIsUnique | crates/packetsage-cli/build.rs:95-114 | a valid date and time comes from its own instant and from no other number |
| Civil.FormatCanBeRead | crates/packetsage-cli/build.rs:108-113 | the fields can be read back from the text, whatever the width of the year |
| Civil.TimestampIsRight | crates/packetsage-cli/build.rs:94-114 | below the year 10000, and only there, a 20-character date-time of sections 5.6 and 5.7 of RFC 3339 |
| Decimal.PadCanBeRead | crates/packetsage-protocol/src/ids.rs:89-93 | zero-padded numerals can be read back |
| Bytes.ByteOrder32 | scripts/gen_traffic.py:355-397 | words of 32 bits are written lowest byte first in PCAPNG files, and highest first in the other order |
| Bytes.ByteOrder16 | scripts/gen_traffic.py:54-72 | words of 16 bits in either order |
| Checksum.Checksum | scripts/gen_traffic.py:37-46 | both loops end and compute the complement of the folded word sum |
| Checksum.CarryKeepsFolded | scripts/gen_traffic.py:44-45 | one turn of the carry loop keeps the sum modulo 65535, and zero apart from its multiples |
| Checksum.ChecksumIsComplement | scripts/gen_traffic.py:37-46 | adding in plain integers and folding at the end is the one's-complement sum of section 1 of RFC 1071 |
| Checksum.ChecksumVerifies | scripts/gen_traffic.py:54-72 | a word written into a zeroed even-aligned field makes the checksum 0 exactly when it is the checksum (or the second spelling of zero) |
| Checksum.HeaderVerifies | scripts/gen_traffic.py:54-72 | every IPv4 header has the fields of section 3.1 of RFC 791 and checksum 0; it fails exactly when the total length does not fit 16 bits |
| Pcapng.BlockCanBeRead | scripts/gen_traffic.py:355-365 | a block gives back its type and padded body, in either byte order |
| Pcapng.WalksAgree | scripts/gen_traffic.py:355-365 | on every byte string the forward walk by leading length and the backward walk by trailing length find the same blocks, or both a fault |
| Pcapng.BlocksCanBeRead | scripts/gen_traffic.py:355-365 | both walks over written blocks give back their types and padded bodies |
| Capture.EpbCanBeRead | scripts/gen_traffic.py:387-396 | a packet block gives back its frame, its lengths, its interface and the low 64 bits of its ticks |
| Capture.WritePcapng | scripts/gen_traffic.py:368-397 | the loops write exactly the header blocks and one packet block per frame, and fail exactly when a number does not fit its word |
| Capture.CaptureReadsBack | scripts/gen_traffic.py:368-397 | a reader from either end finds the section header byte by byte, the interfaces with link type, snapshot length and resolution, and every frame with its interface and time stamp |
| Capture.TicksGrow | scripts/gen_traffic.py:380-384 | time stamps grow from packet to packet, for negative gaps too |
| Capture.StartIsMeant | scripts/gen_traffic.py:380-381 | the clock starts at 1,700,000,000 seconds in every resolution |
| Capture.GapIsMeant | scripts/gen_traffic.py:382-384 | from packet to packet it goes on by the whole ticks that fit into the gap, and by one if none does |
| Capture.TimesReadBack | scripts/gen_traffic.py:380-396 | the time stamps of n packets are all read back as counted if and only if n is at most the capacity computed from start, resolution and gap |
| Capture.StartFits | scripts/gen_traffic.py:380-384 | the start time fits 64 bits if and only if the binary exponent is at most 33; beyond that no packet's time stamp does |
| Capture.ResolutionReadsBack | scripts/gen_traffic.py:374-380 | the resolution option of an interface block is read as the resolution that was meant if and only if the binary exponent is below 128; beyond that it is read as one too coarse by 2^128 |
| Capture.InstantsReadBack | scripts/gen_traffic.py:368-397 | a reader that resolves the time stamps it has read by the interface blocks it has read finds the instant meant for a packet if and only if the packet is within the capacity |

## Left out

- Sidecar: an interleaved transition system over values instead of an object under locks; JSON syntax, the 8 KiB limit of an event, status payloads, the warning stream, an output stream that is closed, and what a cancelled run does with its flag are not part of it. A request that is declined for its parameters, the provider or the engine is one step.
- Agent: costs, times, the note about missing token usage, and the wording of prompts and notes; signatures are triples instead of SHA-256 digests; numbers where Python would accept booleans. A result is recorded after the trace and the report of a call, while the code records it before or after them; no other step sees the difference.
- Messages: what `str.strip` removes; texts arrive stripped. A conversation file that exists but cannot be read counts as absent. A call that the model requests without an id counts as answered by a result without one.
- Conversation: interface and VLAN are carried but their meaning is not; addresses are numbers of their family; `next_id` is not a u64.
- Query.ConversationsAreTheLargest: the conversion of nanoseconds to seconds in floating point is a parameter; time windows and the cursor of a listing are not part of it.
- Query.FilterPackets: takes any predicate instead of the filter fields.
- Findings: severity, basis, summary, evidence and validator status travel together as one body; the listing's order of equal ids does not arise because ids are keys.
- TaskCache: the ledger, alerts, sessions and report metadata of a store, partial writes inside one submission, and single findings rows that do not parse.
- TaskCache.Serve: task ids are assumed to be fresh, as ULIDs are.
- Stream: HTTP errors, the wall-clock limit of a round, heartbeats and lines that are not JSON; a chunk is what is left after those.
- HumanDraft: `toLowerCase` is modelled on ASCII letters, which is all the field names have; a fence line that has itself arrived only in part.
- Civil: `SOURCE_DATE_EPOCH` and the clock are the parameter `seconds`; a day count that would be negative cannot occur.
- Checksum: splitting dotted addresses; TCP and UDP headers of the generator, whose checksums stay zero.
- Capture: the legacy PCAP writer and the random choice of packets. The reader of an interface block looks at its first option only, which is where the writer puts the resolution.
- Timeline: `isRealTurn`, `normalizeTurn` and `sanitizeTurns`, which check shapes of stored JSON.
- Feed: rendering, clocks, banners and the hero card; history that is restored from disk. Which events can be sent is a parameter by position.
- Reassembly, the capture reader, the decoder, the rule engine, SQL, SSE transport, configuration, the report linter and the command-line surfaces are not part of this model.
