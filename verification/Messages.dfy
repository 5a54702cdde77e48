/**
 The message table a chat provider keeps, and what of it survives from one turn to the next.

 The chat protocol accepts a `tool` message only as an answer: the nearest message before it
 that is not itself a tool message must be an assistant message that requested tools.
 */
module Messages {
  import opened Options

  datatype Role = System | User | Assistant | Tool

  /** `requests` are the ids of the tool calls an assistant message asks for. */
  datatype Message = Message(role: Role, content: string, requests: seq<string>, callId: Option<string>)

  function Plain(role: Role, content: string): Message {
    Message(role, content, [], None)
  }

  predicate Asks(m: Message) {
    m.role.Assistant? && m.requests != []
  }

  /** Position of the nearest message before `i` that is not a tool message. */
  function Asker(ms: seq<Message>, i: nat): (r: Option<nat>)
    requires i <= |ms|
    ensures r.Some? ==> r.value < i && !ms[r.value].role.Tool?
                        && forall j :: r.value < j < i ==> ms[j].role.Tool?
    ensures r.None? ==> forall j :: 0 <= j < i ==> ms[j].role.Tool?
  {
    if i == 0 then None
    else if !ms[i - 1].role.Tool? then Some(i - 1)
    else Asker(ms, i - 1)
  }

  predicate Answered(ms: seq<Message>, i: nat)
    requires i <= |ms|
  {
    var asker := Asker(ms, i);
    asker.Some? && Asks(ms[asker.value])
  }

  /** Every tool message answers an assistant message that requested tools. */
  predicate Paired(ms: seq<Message>) {
    forall i {:trigger Answered(ms, i)} :: 0 <= i < |ms| && ms[i].role.Tool? ==> Answered(ms, i)
  }

  /** A tool message may come next. */
  predicate AwaitsTool(ms: seq<Message>) {
    Answered(ms, |ms|)
  }

  // ---- how the pairing behaves under the operations on tables

  lemma {:induction false} AskerOfExtension(ms: seq<Message>, more: seq<Message>, i: nat)
    requires i <= |ms|
    ensures Asker(ms + more, i) == Asker(ms, i)
  {
    if i > 0 {
      AskerOfExtension(ms, more, i - 1);
    }
  }

  lemma AppendKeepsPaired(ms: seq<Message>, m: Message)
    requires Paired(ms) && (m.role.Tool? ==> AwaitsTool(ms))
    ensures Paired(ms + [m])
    ensures AwaitsTool(ms + [m]) <==> Asks(m) || m.role.Tool?
  {
    forall i | 0 <= i < |ms + [m]| && (ms + [m])[i].role.Tool?
      ensures Answered(ms + [m], i)
    {
      assert Answered(ms, i);
      AskerOfExtension(ms, [m], i);
    }
    AskerOfExtension(ms, [m], |ms|);
  }

  /** A paired table stays paired behind a head that is not a tool message. */
  lemma {:induction false} AskerBehind(head: Message, ms: seq<Message>, i: nat)
    requires i <= |ms| && !head.role.Tool?
    ensures Asker([head] + ms, i + 1) == match Asker(ms, i) case None => Some(0) case Some(j) => Some(j + 1)
  {
    if i > 0 {
      AskerBehind(head, ms, i - 1);
    }
  }

  lemma BehindKeepsPaired(head: Message, ms: seq<Message>)
    requires Paired(ms) && !head.role.Tool?
    ensures Paired([head] + ms)
  {
    forall i | 0 <= i < |[head] + ms| && ([head] + ms)[i].role.Tool?
      ensures Answered([head] + ms, i)
    {
      assert Answered(ms, i - 1);
      AskerBehind(head, ms, i - 1);
    }
  }

  lemma {:induction false} AskerOfSuffix(ms: seq<Message>, k: nat, i: nat)
    requires k < i <= |ms| && !ms[k].role.Tool?
    ensures Asker(ms, i).Some? && Asker(ms, i).value >= k
    ensures Asker(ms[k..], i - k) == Some(Asker(ms, i).value - k)
  {
    if ms[i - 1].role.Tool? {
      AskerOfSuffix(ms, k, i - 1);
    }
  }

  /** A suffix that does not begin with a tool message stays paired. */
  lemma SuffixKeepsPaired(ms: seq<Message>, k: nat)
    requires Paired(ms) && k <= |ms| && (k < |ms| ==> !ms[k].role.Tool?)
    ensures Paired(ms[k..])
  {
    var tail := ms[k..];
    forall i | 0 <= i < |tail| && tail[i].role.Tool?
      ensures Answered(tail, i)
    {
      assert Answered(ms, k + i);
      AskerOfSuffix(ms, k, k + i);
    }
  }

  /** Drops the system messages: the seed of the next turn. */
  function Seed(ms: seq<Message>): seq<Message> {
    if ms == [] then []
    else Seed(ms[..|ms| - 1]) + if ms[|ms| - 1].role.System? then [] else [ms[|ms| - 1]]
  }

  lemma {:induction false} SeedKeepsPaired(ms: seq<Message>)
    requires Paired(ms)
    ensures Paired(Seed(ms)) && (AwaitsTool(ms) ==> AwaitsTool(Seed(ms)))
    ensures forall i :: 0 <= i < |Seed(ms)| ==> !Seed(ms)[i].role.System?
  {
    if ms != [] {
      var init, last := ms[..|ms| - 1], ms[|ms| - 1];
      assert ms == init + [last];
      InitIsPaired(init, last);
      SeedKeepsPaired(init);
      AppendKeepsPaired(init, last);
      if last.role.System? {
        assert Seed(ms) == Seed(init);
      } else {
        AppendKeepsPaired(Seed(init), last);
      }
    }
  }

  // ---- which requested calls are answered

  /** The ids requested last that still wait for their result, and how many earlier ones never got one. */
  datatype Debt = Debt(open: seq<string>, lost: nat) {
    function Total(): nat {
      |open| + lost
    }
  }

  /** The id a result is sent back under: an empty one is left out. */
  function Named(callId: Option<string>): Option<string> {
    if callId == Some("") then None else callId
  }

  /** A result settles the oldest open id if it is sent back under it. */
  function Paid(d: Debt, callId: Option<string>): Debt {
    if d.open != [] && callId == Named(Some(d.open[0])) then d.(open := d.open[1..]) else d
  }

  /** Any message other than a result gives up what is open. */
  function Owe(d: Debt, m: Message): Debt {
    if m.role.Tool? then Paid(d, m.callId) else Debt(if m.role.Assistant? then m.requests else [], d.Total())
  }

  function DebtOf(ms: seq<Message>): Debt {
    if ms == [] then Debt([], 0) else Owe(DebtOf(ms[..|ms| - 1]), ms[|ms| - 1])
  }

  /** These ids were requested last and still wait for their result. */
  predicate Pending(ms: seq<Message>, ids: seq<string>) {
    DebtOf(ms).open == ids
  }

  /** Requested ids without a result. */
  function Unanswered(ms: seq<Message>): nat {
    DebtOf(ms).Total()
  }

  lemma DebtOfMore(ms: seq<Message>, m: Message)
    ensures DebtOf(ms + [m]) == Owe(DebtOf(ms), m)
  {
    assert (ms + [m])[..|ms|] == ms;
  }

  lemma PayingInOrder(d: Debt, ids: seq<string>, i: nat)
    requires i < |ids| && d.open == ids[i..]
    ensures Paid(d, Named(Some(ids[i]))) == Debt(ids[i + 1..], d.lost)
  {
    assert ids[i..][1..] == ids[i + 1..];
  }

  /** Where a table starts does not matter for a part that begins with no result. */
  lemma {:induction false} DebtOfSuffix(ms: seq<Message>, k: nat)
    requires k <= |ms| && (k < |ms| ==> !ms[k].role.Tool?)
    ensures k < |ms| ==> DebtOf(ms[k..]).open == DebtOf(ms).open
    ensures Unanswered(ms[k..]) <= Unanswered(ms)
    decreases |ms|
  {
    if k < |ms| {
      var n := |ms| - 1;
      assert ms[k..] == ms[k..n] + [ms[n]];
      DebtOfMore(ms[k..n], ms[n]);
      if k < n {
        assert ms[..n][k..] == ms[k..n];
        DebtOfSuffix(ms[..n], k);
      } else {
        assert ms[k..n] == [];
      }
    }
  }

  /** A head that asks for nothing owes nothing. */
  lemma {:induction false} DebtBehind(head: Message, ms: seq<Message>)
    requires head.role.System? || head.role.User?
    ensures DebtOf([head] + ms) == DebtOf(ms)
  {
    if ms == [] {
      assert [head][..0] == [] && [head] + ms == [head];
    } else {
      var n := |ms| - 1;
      DebtBehind(head, ms[..n]);
      assert ([head] + ms)[..n + 1] == [head] + ms[..n];
    }
  }

  /** Seeding the next turn leaves exactly the same ids unanswered. */
  lemma {:induction false} SeedKeepsDebt(ms: seq<Message>)
    requires Paired(ms)
    ensures Unanswered(Seed(ms)) == Unanswered(ms)
    ensures AwaitsTool(ms) ==> DebtOf(Seed(ms)) == DebtOf(ms)
  {
    if ms != [] {
      var init, last := ms[..|ms| - 1], ms[|ms| - 1];
      assert ms == init + [last];
      InitIsPaired(init, last);
      SeedKeepsDebt(init);
      AppendKeepsPaired(init, last);
      DebtOfMore(init, last);
      if last.role.System? {
        assert Seed(ms) == Seed(init);
      } else {
        DebtOfMore(Seed(init), last);
      }
    }
  }

  lemma InitIsPaired(init: seq<Message>, last: Message)
    requires Paired(init + [last])
    ensures Paired(init) && (last.role.Tool? ==> AwaitsTool(init))
  {
    var ms := init + [last];
    forall i | 0 <= i <= |init| && ms[i].role.Tool?
      ensures Answered(init, i)
    {
      assert Answered(ms, i);
      AskerOfExtension(init, [last], i);
    }
    assert forall i :: 0 <= i < |init| ==> ms[i] == init[i];
  }

  // ---- trimming

  const MAX_HISTORY_MESSAGES: nat := 24

  /** `messages[start:]` with Python's rules for a negative or too large start. */
  function SliceFrom<T>(s: seq<T>, start: int): seq<T> {
    if start >= |s| then []
    else if start >= 0 then s[start..]
    else if |s| + start >= 0 then s[|s| + start..]
    else s
  }

  /** How many tool messages a table begins with. */
  function LeadingTools(ms: seq<Message>): (k: nat)
    ensures k <= |ms| && (k < |ms| ==> !ms[k].role.Tool?)
    ensures forall j :: 0 <= j < k ==> ms[j].role.Tool?
  {
    if ms != [] && ms[0].role.Tool? then 1 + LeadingTools(ms[1..]) else 0
  }

  function DropLeadingTools(ms: seq<Message>): seq<Message> {
    ms[LeadingTools(ms)..]
  }

  function Trim(ms: seq<Message>, limit: nat): seq<Message> {
    if |ms| <= limit then ms
    else [ms[0]] + DropLeadingTools(SliceFrom(ms, -(limit - 1)))
  }

  method TrimHistory(ms: seq<Message>, limit: nat) returns (r: seq<Message>)
    ensures r == Trim(ms, limit)
  {
    if |ms| <= limit {
      return ms;
    }
    var head := ms[0];
    var tail := SliceFrom(ms, -(limit - 1));
    while tail != [] && tail[0].role.Tool?
      invariant DropLeadingTools(tail) == DropLeadingTools(SliceFrom(ms, -(limit - 1)))
      decreases |tail|
    {
      assert DropLeadingTools(tail) == DropLeadingTools(tail[1..]);
      tail := tail[1..];
    }
    r := [head] + tail;
  }

  /**
   What is cut lies between the head and a suffix that does not begin with a tool message, and is no
   more than it has to be.
   */
  lemma TrimShape(ms: seq<Message>, limit: nat) returns (k: nat)
    requires |ms| > limit >= 2
    ensures |ms| - (limit - 1) <= k <= |ms| && (k < |ms| ==> !ms[k].role.Tool?)
    ensures forall j :: |ms| - (limit - 1) <= j < k ==> ms[j].role.Tool?
    ensures Trim(ms, limit) == [ms[0]] + ms[k..]
  {
    var start := |ms| - (limit - 1);
    assert SliceFrom(ms, -(limit - 1)) == ms[start..];
    k := start + LeadingTools(ms[start..]);
    assert DropLeadingTools(ms[start..]) == ms[k..];
  }

  /** For a limit of at least two: the same head, at most `limit` messages, and still paired. */
  lemma TrimKeepsPaired(ms: seq<Message>, limit: nat)
    requires Paired(ms) && limit >= 2
    ensures Paired(Trim(ms, limit)) && |Trim(ms, limit)| <= limit
    ensures ms != [] ==> Trim(ms, limit) != [] && Trim(ms, limit)[0] == ms[0]
  {
    if |ms| > limit {
      var k := TrimShape(ms, limit);
      HeadIsNoTool(ms);
      SuffixKeepsPaired(ms, k);
      BehindKeepsPaired(ms[0], ms[k..]);
    }
  }

  lemma HeadIsNoTool(ms: seq<Message>)
    requires Paired(ms) && ms != []
    ensures !ms[0].role.Tool?
  {
    assert !Answered(ms, 0);
  }

  /** Trimming a table with a system head leaves no further id unanswered. */
  lemma TrimKeepsDebt(ms: seq<Message>, limit: nat)
    requires limit >= 2 && (ms != [] ==> ms[0].role.System?)
    ensures Unanswered(Trim(ms, limit)) <= Unanswered(ms)
  {
    if |ms| > limit {
      var k := TrimShape(ms, limit);
      DebtOfSuffix(ms, k);
      DebtBehind(ms[0], ms[k..]);
    }
  }

  /** The bound holds for a table exactly when nothing had to be cut or the limit is at least two. */
  lemma TrimBoundNeedsTwo(ms: seq<Message>, limit: nat)
    requires Paired(ms)
    ensures |Trim(ms, limit)| <= limit <==> |ms| <= limit || limit >= 2
  {
    if |ms| > limit {
      HeadIsNoTool(ms);
      if limit >= 2 {
        TrimKeepsPaired(ms, limit);
      } else if limit == 1 {
        assert SliceFrom(ms, 0) == ms;
      }
    }
  }

  // ---- the provider's table during one run

  class MessageTable {
    /** None until the first round of a run builds the table. */
    var messages: Option<seq<Message>>
    /** What the previous turn left. */
    const seed: seq<Message>

    constructor (seed: seq<Message>)
      ensures this.seed == seed && messages == None
    {
      this.seed := seed;
      messages := None;
    }

    ghost predicate Valid()
      reads this
    {
      && Paired(seed)
      && (messages.Some? ==> messages.value != [] && messages.value[0].role.System? && Paired(messages.value))
    }

    /** The table may take tool results now. */
    ghost predicate Awaits()
      reads this
    {
      messages.Some? && AwaitsTool(messages.value)
    }

    function History(): seq<Message>
      reads this
    {
      if messages.Some? then messages.value else []
    }

    /** Requested ids without a result, counting those the previous turn left. */
    ghost function Unpaid(): nat
      reads this
    {
      Unanswered(if messages.Some? then messages.value else seed)
    }

    method ContinueConversation(system: Message, question: Message)
      requires Valid() && system.role.System? && question.role.User?
      modifies this
      ensures Valid() && messages.Some?
      ensures messages == if old(messages).Some? then old(messages) else Some([system] + Seed(seed) + [question])
      ensures Unpaid() == old(Unpaid())
    {
      if messages.None? {
        SeedKeepsPaired(seed);
        BehindKeepsPaired(system, Seed(seed));
        AppendKeepsPaired([system] + Seed(seed), question);
        SeedKeepsDebt(seed);
        DebtBehind(system, Seed(seed));
        DebtOfMore([system] + Seed(seed), question);
        messages := Some([system] + Seed(seed) + [question]);
      }
    }

    method Append(m: Message)
      requires Valid() && (m.role.Tool? && messages.Some? ==> Awaits())
      modifies this
      ensures Valid()
      ensures messages == if old(messages).Some? then Some(old(messages).value + [m]) else None
      ensures messages.Some? ==> (Awaits() <==> Asks(m) || m.role.Tool?)
      ensures messages.Some? ==> DebtOf(History()) == Owe(old(DebtOf(History())), m)
    {
      if messages.Some? {
        AppendKeepsPaired(messages.value, m);
        DebtOfMore(messages.value, m);
        messages := Some(messages.value + [m]);
      }
    }

    method AppendAssistant(content: string, requests: seq<string>)
      requires Valid()
      modifies this
      ensures Valid()
      ensures messages == if old(messages).Some?
                          then Some(old(messages).value + [Message(Assistant, content, requests, None)]) else None
      ensures messages.Some? ==> (Awaits() <==> requests != [])
      ensures messages.Some? ==> DebtOf(History()) == Debt(requests, old(Unpaid()))
    {
      Append(Message(Assistant, content, requests, None));
    }

    /** The result goes into the table under the id of its call; the oldest open request is settled by it. */
    method RecordToolResult(callId: Option<string>, content: string)
      requires Valid() && (messages.Some? ==> Awaits())
      modifies this
      ensures Valid() && (messages.Some? ==> Awaits())
      ensures messages == if old(messages).Some?
                          then Some(old(messages).value + [Message(Tool, content, [], Named(callId))]) else None
      // an id that is missing or empty is left out
      ensures messages.Some? ==>
                Named(callId) == match callId case None => None case Some(id) => if |id| > 0 then Some(id) else None
      ensures messages.Some? ==> DebtOf(History()) == Paid(old(DebtOf(History())), Named(callId))
    {
      Append(Message(Tool, content, [], Named(callId)));
    }

    /** A fallback answer, already stripped; an empty one is not recorded. */
    method RecordAnswer(text: string)
      requires Valid()
      modifies this
      ensures Valid() && Unpaid() == old(Unpaid())
      ensures messages == if old(messages).Some? && text != ""
                          then Some(old(messages).value + [Plain(Assistant, text)]) else old(messages)
    {
      if text != "" {
        Append(Plain(Assistant, text));
      }
    }

    /** Validation feedback for the model, already stripped; an empty note is not recorded. */
    method RecordNote(text: string)
      requires Valid()
      modifies this
      ensures Valid() && Unpaid() == old(Unpaid())
      ensures messages == if old(messages).Some? && text != ""
                          then Some(old(messages).value + [Plain(User, text)]) else old(messages)
    {
      if text != "" {
        Append(Plain(User, text));
      }
    }
  }

  // ---- the memory between turns

  /**
   How saving a table to its file ends. Opening the file empties it, so a save that fails after
   that leaves nothing readable; of such failures only those of the file system are caught.
   */
  datatype Save = Saved | Skipped | Torn(raises: bool)

  function AfterSave(disk: map<string, seq<Message>>, task: string, ms: seq<Message>, save: Save)
    : map<string, seq<Message>>
  {
    match save
    case Saved => disk[task := ms]
    case Skipped => disk
    case Torn(_) => disk - {task}
  }

  /** Per task: what the sidecar remembers in memory and, as far as it can be read, on disk. */
  class ConversationStore {
    var memory: map<string, seq<Message>>
    var disk: map<string, seq<Message>>

    constructor ()
      ensures Valid()
    {
      memory, disk := map[], map[];
    }

    ghost predicate Storable(ms: seq<Message>) {
      ms != [] && ms[0].role.System? && Paired(ms) && |ms| <= MAX_HISTORY_MESSAGES
    }

    ghost predicate Valid()
      reads this
    {
      && (forall t :: t in memory ==> Storable(memory[t]))
      && (forall t :: t in disk ==> Storable(disk[t]))
    }

    /** What a turn on the task starts from, and how many requested ids in it have no result. */
    function Kept(task: string): seq<Message>
      reads this
    {
      if task in memory then memory[task] else if task in disk then disk[task] else []
    }

    function Left(task: string): nat
      reads this
    {
      Unanswered(Kept(task))
    }

    /** Memory first, then disk; what comes from disk is kept in memory. */
    method Conversation(task: string) returns (seed: seq<Message>)
      requires Valid()
      modifies this`memory
      ensures Valid() && Paired(seed) && |seed| <= 24
      ensures seed == old(Kept(task)) == Kept(task)
      ensures memory == if task !in old(memory) && task in disk then old(memory)[task := disk[task]] else old(memory)
    {
      if task in memory {
        return memory[task];
      }
      if task in disk {
        memory := memory[task := disk[task]];
        return disk[task];
      }
      return [];
    }

    /** After a run that did not fail; true if saving raises past the caller. */
    method Remember(task: string, table: MessageTable, save: Save) returns (raised: bool)
      requires Valid() && table.Valid()
      modifies this
      ensures Valid()
      ensures table.History() == [] ==> memory == old(memory) && disk == old(disk) && !raised
      ensures table.History() != [] ==>
                memory == old(memory)[task := Trim(table.History(), 24)]
                && Unanswered(memory[task]) <= Unanswered(table.History())
                && disk == AfterSave(old(disk), task, memory[task], save)
                && (save == Saved ==> task in disk && disk[task] == memory[task])
                && (save == Skipped ==> disk == old(disk))
                && (save.Torn? ==> task !in disk)
                && (forall t :: t != task ==> (t in disk <==> t in old(disk)) && (t in disk ==> disk[t] == old(disk)[t]))
                && raised == (save == Torn(true))
    {
      var messages := table.History();
      if messages == [] {
        return false;
      }
      TrimKeepsPaired(messages, MAX_HISTORY_MESSAGES);
      TrimKeepsDebt(messages, MAX_HISTORY_MESSAGES);
      var trimmed := TrimHistory(messages, MAX_HISTORY_MESSAGES);
      memory := memory[task := trimmed];
      disk := AfterSave(disk, task, trimmed, save);
      raised := save == Torn(true);
    }

    /** The process restarts: only the disk survives. */
    method Restart()
      requires Valid()
      modifies this`memory
      ensures Valid() && memory == map[]
    {
      memory := map[];
    }
  }
}
