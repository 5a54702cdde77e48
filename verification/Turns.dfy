/** Turn after turn on one task: every run is seeded with what the previous ones left. */
module Turns {
  import opened Options
  import opened Agent
  import opened Messages
  import Policy
  import AgentEvents
  import Feed

  /** A run of its own agent, with what it leaves in the message table. */
  method RunSeeded(history: seq<Message>, budget: Policy.Budget, preload: bool, w: World)
    returns (outcome: Outcome, agent: PacketSageAgent)
    requires Paired(history) && budget.Positive() && w.WellFormed() && w.Coherent()
    ensures fresh(agent) && fresh(agent.table) && agent.table.Valid()
    ensures w.Calm() ==> outcome.Completed?
    ensures !outcome.PreloadRaised? ==> agent.policy.steps >= 1
    ensures agent.policy.budget == budget && agent.policy.toolCalls <= budget.maxToolCalls
    ensures outcome.Completed? ==> |agent.result.trace| <= agent.policy.toolCalls + 1
    ensures agent.table.seed == history && agent.keepsTable
    ensures outcome.Completed? ==> exists m :: AreMinutes(w, agent.policy.steps, m) && agent.Concluded(w, m)
    ensures outcome.Completed? ==> agent.table.History() != [] && Books(agent, history, w, Unanswered(agent.table.History()))
  {
    agent := new PacketSageAgent(budget, history, true, preload);
    outcome := agent.Run(w);
  }

  /**
   The requested calls of a run that returned: those its table leaves unanswered, `left` in number,
   and those answered are what was left before and what was asked for. Apart from calls in void
   answers, a call stays unanswered only when the run was stopped by a call before it.
   */
  ghost predicate Books(agent: PacketSageAgent, history: seq<Message>, w: World, left: nat)
    reads agent, agent.policy
  {
    var asked, dropped := w.Asked(agent.policy.steps), w.Dropped(agent.policy.steps);
    && left + |agent.result.trace| == Unanswered(history) + asked
    && |agent.result.trace| + dropped <= asked
    && (|agent.result.trace| + dropped < asked ==>
          agent.result.stopReason.Some? && agent.result.stopReason.value.OfCall())
  }

  /** A model that asks for three calls at once, every time. */
  const THREE_AT_ONCE: World :=
    var calls := [RawCall("a", "t", Some("{}")), RawCall("b", "t", Some("{}")), RawCall("c", "t", Some("{}"))];
    World(
      Facts([]),
      _ => Reply([], DecisionFromMessage(RawMessage("", calls), FinalBody([], ""), Usage(0, 0, 0, 0))),
      _ => Answer(true, "{}", "", "{}", Noted),
      _ => Accepts,
      SubmitFails,
      _ => false,
      "",
      Plain(System, ""),
      Plain(User, ""),
      "")

  lemma {:induction false} ThreeEachRound(rounds: nat)
    ensures THREE_AT_ONCE.Asked(rounds) == 3 * rounds
  {
    if rounds > 0 {
      ThreeEachRound(rounds - 1);
    }
  }

  /** With room for one tool call its run returns with requests in the table that have no result. */
  method StopLeavesCallsUnanswered() returns (outcome: Outcome, agent: PacketSageAgent)
    ensures outcome.Completed? && Unanswered(agent.table.History()) > 0
  {
    outcome, agent := RunSeeded([], Policy.Budget(8, 8, 1, 8, 8, 8), false, THREE_AT_ONCE);
    ThreeEachRound(agent.policy.steps);
  }

  lemma Overwritten(memory: map<string, seq<Message>>, task: string, first: seq<Message>, last: seq<Message>)
    ensures memory[task := first][task := last] == memory[task := last]
  {
  }

  /**
   One turn: seed an agent from memory, run it, and remember its table if the run returned. It is
   `stuck` when saving raises: the run was over, but its end is never reported. No call that was
   answered is forgotten to have been: what is remembered leaves no more ids unanswered than the run.
   */
  method RunTurn(store: ConversationStore, task: string, budget: Policy.Budget, preload: bool, w: World, save: Save)
    returns (outcome: Outcome, agent: PacketSageAgent, stuck: bool)
    requires store.Valid() && budget.Positive() && w.WellFormed() && w.Coherent()
    modifies store
    ensures store.Valid() && fresh(agent)
    ensures !outcome.Completed? ==> !stuck && store.disk == old(store.disk)
    ensures outcome.Completed? ==>
              && task in store.memory
              && (stuck <==> save == Torn(true))
              && (save == Saved ==> task in store.disk && store.disk[task] == store.memory[task])
              && (save.Torn? ==> task !in store.disk)
    // what is remembered is the end of the table that the run left, which began with what was remembered before
    ensures outcome.Completed? ==>
              && agent.table.seed == old(store.Kept(task)) && agent.keepsTable
              && store.memory == old(store.memory)[task := Trim(agent.table.History(), 24)]
    ensures outcome.Completed? ==> exists m :: AreMinutes(w, agent.policy.steps, m) && agent.Concluded(w, m)
    ensures outcome.Completed? ==>
              exists left :: Books(agent, old(store.Kept(task)), w, left) && Unanswered(store.memory[task]) <= left
  {
    ghost var before := store.memory;
    var history := store.Conversation(task);
    outcome, agent := RunSeeded(history, budget, preload, w);
    stuck := false;
    if outcome.Completed? {
      ghost var left := Unanswered(agent.table.History());
      ghost var trimmed := Trim(agent.table.History(), 24);
      stuck := store.Remember(task, agent.table, save);
      Overwritten(before, task, history, trimmed);
      assert Books(agent, history, w, left);
    }
  }

  /** What happens to the memory between two moments: a turn on some task, or a restart of the process. */
  datatype Episode = Turn(task: string, preload: bool, world: World, save: Save) | Restart

  /** After any history of turns and restarts, everything remembered is paired and within the bound. */
  method RunTurns(store: ConversationStore, budget: Policy.Budget, episodes: seq<Episode>)
    requires store.Valid() && budget.Positive()
    requires forall e :: e in episodes && e.Turn? ==> e.world.WellFormed() && e.world.Coherent()
    modifies store
    ensures forall t :: t in store.memory ==>
              store.memory[t] != [] && Paired(store.memory[t]) && store.memory[t][0].role.System? && |store.memory[t]| <= 24
    ensures forall t :: t in store.disk ==>
              store.disk[t] != [] && Paired(store.disk[t]) && store.disk[t][0].role.System? && |store.disk[t]| <= 24
    ensures episodes != [] && episodes[|episodes| - 1].Restart? ==> store.memory == map[]
  {
    for i := 0 to |episodes|
      invariant store.Valid()
      invariant i > 0 && episodes[i - 1].Restart? ==> store.memory == map[]
    {
      match episodes[i] {
        case Turn(task, preload, world, save) =>
          assert episodes[i] in episodes;
          var _, _, _ := RunTurn(store, task, budget, preload, world, save);
        case Restart =>
          store.Restart();
      }
    }
  }

  /**
   A run as the desktop shows it, whatever events can be sent. While all of them can: one tool card
   per traced call, one step card per round, the model's text in full, stream by stream, and no card left waiting
   unless the run broke off in the middle of a round or a call. Otherwise the desktop sees the events
   before the first one that cannot be sent, and a card waits if and only if that one closes something.
   */
  method RunOnDesktop(budget: Policy.Budget, history: seq<Message>, keepsTable: bool, preload: bool, w: World,
                      sendable: nat -> bool, ended: bool)
    returns (outcome: Outcome, agent: PacketSageAgent, feed: seq<Feed.FeedItem>, heard: nat)
    requires budget.Positive() && Paired(history) && w.WellFormed() && (keepsTable ==> w.Coherent())
    ensures fresh(agent) && heard <= |agent.events|
    ensures (forall i :: 0 <= i < heard ==> sendable(i)) && (heard < |agent.events| ==> !sendable(heard))
    ensures feed == Feed.RunFeed(agent.events[..heard], !outcome.Completed?, ended)
    ensures Feed.AllSettled(feed) <==>
            if heard < |agent.events| then Feed.Opens(agent.events[heard])
            else !outcome.DecideRaised? && !outcome.CountRaised? && !outcome.ToolRaised?
                 && (outcome.PreloadRaised? ==> agent.events == [])
    ensures Feed.Cards(feed) == Feed.Expected(agent.events[..heard])
    ensures forall choice :: Feed.TextOfFeed(feed, choice) == AgentEvents.Speech(AgentEvents.Streamed(agent.events[..heard]), choice)
    ensures !outcome.PreloadRaised? ==>
              forall choice :: Feed.TextOfFeed(feed, choice) <= AgentEvents.Speech(w.Said(agent.policy.steps), choice)
    ensures outcome.Completed? && heard == |agent.events| ==>
              && Feed.ToolCards(feed) == agent.policy.preloaded + |agent.result.trace|
              && Feed.StepCards(feed) == agent.policy.llmCalls
              && forall choice :: Feed.TextOfFeed(feed, choice) == AgentEvents.Speech(w.Said(agent.policy.steps), choice)
  {
    agent := new PacketSageAgent(budget, history, keepsTable, preload);
    outcome := agent.Run(w);
    heard := Feed.HeardCount(agent.events, sendable);
    ghost var events := agent.events;
    feed := Feed.RunFeed(agent.events[..heard], !outcome.Completed?, ended);
    Feed.HeardFeed(events, heard, !outcome.Completed?, ended);
    Feed.CardsOfHeard(events, heard, !outcome.Completed?, ended);
    ReadsAsStreamed(events, heard, feed);
    assert AgentEvents.Says(events, AgentEvents.Streamed(events));
    assert events[..|events|] == events;
  }

  /** Whatever streams are chosen, the feed reads as what was heard of them, a beginning of what was streamed. */
  lemma ReadsAsStreamed(events: seq<AgentEvents.Event>, heard: nat, feed: seq<Feed.FeedItem>)
    requires heard <= |events| && Feed.SameTexts(Feed.Replay(events[..heard]), feed)
    ensures forall choice ::
              Feed.TextOfFeed(feed, choice) == AgentEvents.Speech(AgentEvents.Streamed(events[..heard]), choice)
    ensures forall choice ::
              Feed.TextOfFeed(feed, choice) <= AgentEvents.Speech(AgentEvents.Streamed(events), choice)
  {
    var said, all := AgentEvents.Streamed(events[..heard]), AgentEvents.Streamed(events);
    Feed.BeginningStreamsLess(events, heard);
    forall choice
      ensures Feed.TextOfFeed(feed, choice) == AgentEvents.Speech(said, choice) <= AgentEvents.Speech(all, choice)
    {
      Feed.NoTextIsLost(events[..heard], choice);
      Feed.SameTextsReadAlike(Feed.Replay(events[..heard]), feed, choice);
      AgentEvents.SpeechOfBeginning(all, |said|, choice);
      assert all[..|said|] == said;
    }
  }
}
