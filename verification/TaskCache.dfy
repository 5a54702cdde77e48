/**
 The RPC worker's tasks: a bounded cache in memory over a durable database.

 The capture analysis and the validator are parameters; the tool-call ledger, sessions and alerts
 of a store are left out.
 */
module TaskCache {
  import opened Options
  import opened Findings

  const MAX_TASKS: nat := 8

  type Path = string

  datatype Store = Store(source: Path, findings: seq<Finding>)

  /** A submitted draft; `accepted` is the verdict of the anchor check and the validator together. */
  datatype Draft = Draft(title: string, body: string, accepted: bool)

  /** A request, or the start of a new worker process over the same database. */
  datatype Request =
    | AnalyzeFile(path: Path)
    | SubmitFinding(task: TaskId, drafts: seq<Draft>)
    | Inspect(task: TaskId)
    | Restart

  /**
   The world at one request: a fresh id, whether analyses succeed, which source files are gone,
   whether the findings of a task can be read back, and whether writes succeed.
   */
  datatype Circumstances =
    Circumstances(created: TaskId, replays: bool, gone: set<Path>, readable: bool, written: bool)
  {
    predicate Benign() {
      replays && gone == {} && readable && written
    }
  }

  predicate Distinct(order: seq<TaskId>) {
    forall i, j :: 0 <= i < j < |order| ==> order[i] != order[j]
  }

  /** What an insertion leaves of the queue: the oldest go until there is room among eight. */
  function Room(order: seq<TaskId>): seq<TaskId> {
    if |order| < 8 then order else order[|order| - 7..]
  }

  /** The drafts become findings under the next free numbers of their task. */
  function Accept(fs: seq<Finding>, drafts: seq<Draft>): seq<Finding> {
    if drafts == [] then fs
    else
      var before := Accept(fs, drafts[..|drafts| - 1]);
      var d := drafts[|drafts| - 1];
      if d.accepted then before + [Finding(FindingId(|before| + 1), d.title, d.body)] else before
  }

  lemma {:induction false} AcceptExtends(fs: seq<Finding>, drafts: seq<Draft>)
    ensures fs <= Accept(fs, drafts) && (Numbered(fs) ==> Numbered(Accept(fs, drafts)))
    ensures |Accept(fs, drafts)| == |fs| + Accepted(drafts)
  {
    if drafts != [] {
      AcceptExtends(fs, drafts[..|drafts| - 1]);
    }
  }

  function Accepted(drafts: seq<Draft>): (n: nat)
    ensures n <= |drafts|
    ensures n == 0 <==> forall i :: 0 <= i < |drafts| ==> !drafts[i].accepted
  {
    if drafts == [] then 0
    else
      assert forall i :: 0 <= i < |drafts| - 1 ==> drafts[..|drafts| - 1][i] == drafts[i];
      Accepted(drafts[..|drafts| - 1]) + if drafts[|drafts| - 1].accepted then 1 else 0
  }

  /** The i-th draft, if accepted, became this finding: numbered on, with its own title and body. */
  predicate Landed(before: seq<Finding>, drafts: seq<Draft>, after: seq<Finding>, i: nat)
    requires i < |drafts|
  {
    drafts[i].accepted ==>
      var k := |before| + Accepted(drafts[..i]);
      && k < |after|
      && after[k].id == FindingId(k + 1) && after[k].title == drafts[i].title && after[k].body == drafts[i].body
  }

  /** The findings are the ones before, then one for each accepted draft, in order. */
  predicate Carries(before: seq<Finding>, drafts: seq<Draft>, after: seq<Finding>) {
    && before <= after && |after| == |before| + Accepted(drafts)
    && forall i :: 0 <= i < |drafts| ==> Landed(before, drafts, after, i)
  }

  lemma LandedStays(before: seq<Finding>, drafts: seq<Draft>, after: seq<Finding>, more: seq<Finding>, i: nat)
    requires i < |drafts| - 1 && after <= more && Landed(before, drafts[..|drafts| - 1], after, i)
    ensures Landed(before, drafts, more, i)
  {
    assert drafts[..|drafts| - 1][..i] == drafts[..i];
  }

  lemma {:induction false} AcceptCarries(fs: seq<Finding>, drafts: seq<Draft>)
    ensures Carries(fs, drafts, Accept(fs, drafts))
  {
    if drafts != [] {
      var n := |drafts| - 1;
      var before, after := Accept(fs, drafts[..n]), Accept(fs, drafts);
      AcceptCarries(fs, drafts[..n]);
      forall i | 0 <= i < |drafts|
        ensures Landed(fs, drafts, after, i)
      {
        if i < n {
          LandedStays(fs, drafts, before, after, i);
        }
      }
    }
  }

  /** Every known task can be evicted now and recovered later without losing a finding. */
  ghost predicate AllMirrored(sources: map<TaskId, Path>, rows: Rows, submitted: map<TaskId, seq<Finding>>) {
    && submitted.Keys == sources.Keys
    && (forall t :: t in submitted ==> |submitted[t]| <= LISTING_LIMIT && Mirrors(rows, t, submitted[t]))
    && (forall id :: id in rows ==> rows[id].task in sources)
  }

  /** All numbering starts at one and ids are shared, so only one task can have findings then. */
  lemma OnlyOneTaskHasFindings(sources: map<TaskId, Path>, rows: Rows, submitted: map<TaskId, seq<Finding>>, a: TaskId, b: TaskId)
    requires AllMirrored(sources, rows, submitted)
    requires a in submitted && b in submitted && submitted[a] != [] && submitted[b] != []
    ensures a == b
  {
    var x, y := submitted[a][0], submitted[b][0];
    assert x in submitted[a] && y in submitted[b];
    assert Owns(rows, a, x) && Owns(rows, b, y);
  }

  predicate NoOtherFindings(submitted: map<TaskId, seq<Finding>>, task: TaskId) {
    forall t :: t in submitted && t != task ==> submitted[t] == []
  }

  /** What submitting does to the mirror: it holds on exactly when no second task gets findings and at most 200 are kept. */
  lemma SubmitKeepsMirror(
    sources: map<TaskId, Path>, rows: Rows, submitted: map<TaskId, seq<Finding>>, task: TaskId, fs: seq<Finding>)
    requires AllMirrored(sources, rows, submitted) && task in submitted
    requires Numbered(fs) && submitted[task] <= fs
    ensures AllMirrored(sources, UpsertAll(rows, task, fs), submitted[task := fs]) <==>
            |fs| == |submitted[task]| || (|fs| <= LISTING_LIMIT && NoOtherFindings(submitted, task))
  {
    var before := submitted[task];
    if |fs| == |before| {
      assert fs == before;
      MirrorOfTask(sources, rows, submitted, task, fs);
    } else if |fs| > LISTING_LIMIT {
      assert submitted[task := fs][task] == fs;
    } else if NoOtherFindings(submitted, task) {
      forall i | |before| <= i < |fs|
        ensures fs[i].id !in rows
      {
        if fs[i].id in rows {
          RowIsSubmitted(sources, rows, submitted, fs[i].id);
          FindingIdsNewer(before, fs, i);
        }
      }
      MirrorOfTask(sources, rows, submitted, task, fs);
    } else {
      SecondTaskBreaksMirror(sources, rows, submitted, task, fs);
    }
  }

  lemma FindingIdsNewer(before: seq<Finding>, fs: seq<Finding>, i: nat)
    requires Numbered(fs) && before <= fs && |before| <= i < |fs|
    ensures forall f :: f in before ==> f.id != fs[i].id
  {
    forall f | f in before
      ensures f.id != fs[i].id
    {
      var j :| 0 <= j < |before| && before[j] == f;
      FindingIdsDiffer(j + 1, i + 1);
    }
  }

  lemma RowIsSubmitted(sources: map<TaskId, Path>, rows: Rows, submitted: map<TaskId, seq<Finding>>, id: string)
    requires AllMirrored(sources, rows, submitted) && id in rows
    ensures rows[id].task in submitted
    ensures Finding(id, rows[id].title, rows[id].body) in submitted[rows[id].task]
  {
    assert Owns(rows, rows[id].task, Finding(id, rows[id].title, rows[id].body));
  }

  lemma MirrorOfTask(
    sources: map<TaskId, Path>, rows: Rows, submitted: map<TaskId, seq<Finding>>, task: TaskId, fs: seq<Finding>)
    requires AllMirrored(sources, rows, submitted) && task in submitted
    requires Numbered(fs) && submitted[task] <= fs && |fs| <= LISTING_LIMIT
    requires forall i :: |submitted[task]| <= i < |fs| ==> fs[i].id !in rows
    ensures AllMirrored(sources, UpsertAll(rows, task, fs), submitted[task := fs])
  {
    var after, given := UpsertAll(rows, task, fs), submitted[task := fs];
    PersistMirrors(rows, task, submitted[task], fs);
    forall t | t in submitted && t != task
      ensures Mirrors(after, t, submitted[t])
    {
      OthersStayMirrored(rows, task, submitted[task], fs, t, submitted[t]);
    }
    forall id | id in after
      ensures after[id].task in sources
    {
      UpsertAllLeavesOthers(rows, task, fs, id);
      if HasId(fs, id) {
        var i :| 0 <= i < |fs| && fs[i].id == id;
        UpsertAllWrites(rows, task, fs, i);
      }
    }
  }

  lemma OthersStayMirrored(rows: Rows, task: TaskId, before: seq<Finding>, fs: seq<Finding>, other: TaskId, theirs: seq<Finding>)
    requires Mirrors(rows, task, before) && Mirrors(rows, other, theirs) && other != task
    requires Numbered(fs) && before <= fs && forall i :: |before| <= i < |fs| ==> fs[i].id !in rows
    ensures Mirrors(UpsertAll(rows, task, fs), other, theirs)
  {
    var after := UpsertAll(rows, task, fs);
    forall f
      ensures f in theirs <==> Owns(after, other, f)
    {
      UpsertAllLeavesOthers(rows, task, fs, f.id);
      if HasId(fs, f.id) {
        var i :| 0 <= i < |fs| && fs[i].id == f.id;
        UpsertAllWrites(rows, task, fs, i);
        if i < |before| {
          assert before[i] == fs[i] && Owns(rows, task, before[i]);
        }
      }
    }
  }

  lemma SecondTaskBreaksMirror(
    sources: map<TaskId, Path>, rows: Rows, submitted: map<TaskId, seq<Finding>>, task: TaskId, fs: seq<Finding>)
    requires AllMirrored(sources, rows, submitted) && task in submitted
    requires Numbered(fs) && submitted[task] < fs && !NoOtherFindings(submitted, task)
    ensures !AllMirrored(sources, UpsertAll(rows, task, fs), submitted[task := fs])
  {
    var other :| other in submitted && other != task && submitted[other] != [];
    var theirs := submitted[other][0];
    assert theirs in submitted[other];
    assert Owns(rows, other, theirs) && theirs.id == fs[0].id;
    UpsertAllWrites(rows, task, fs, 0);
    assert fs[0] in fs && !Owns(UpsertAll(rows, task, fs), task, fs[0]);
    assert submitted[task := fs][task] == fs;
  }

  lemma AfterSubmit(
    sources: map<TaskId, Path>, rows: Rows, submitted: map<TaskId, seq<Finding>>, task: TaskId, source: Path,
    drafts: seq<Draft>)
    requires AllMirrored(sources, rows, submitted) && task in submitted
    ensures
      var fs := Accept(submitted[task], drafts);
      AllMirrored(sources[task := source], UpsertAll(rows, task, fs), submitted[task := fs]) <==>
      || Accepted(drafts) == 0
      || (|fs| <= LISTING_LIMIT && NoOtherFindings(submitted, task))
  {
    AcceptExtends(submitted[task], drafts);
    SubmitKeepsMirror(sources, rows, submitted, task, Accept(submitted[task], drafts));
    assert sources[task := source].Keys == sources.Keys;
  }

  /** What a task was given so far. */
  ghost function GivenTo(submitted: map<TaskId, seq<Finding>>, task: TaskId): seq<Finding> {
    if task in submitted then submitted[task] else []
  }

  /**
   A task whose findings could not be read back starts numbering anew. Whatever is accepted then is
   written over its own rows: they keep the old titles, get the new bodies, and are too few.
   */
  lemma SubmitAfterFailedRead(
    sources: map<TaskId, Path>, rows: Rows, submitted: map<TaskId, seq<Finding>>, task: TaskId, drafts: seq<Draft>)
    requires AllMirrored(sources, rows, submitted) && task in submitted && NoOtherFindings(submitted, task)
    ensures
      var before, fs := submitted[task], Accept([], drafts);
      var after := UpsertAll(rows, task, fs);
      && Mirrors(after, task, Overlay(before, fs))
      && (AllMirrored(sources, after, submitted[task := before + fs]) <==>
          Accepted(drafts) == 0 || (before == [] && |fs| <= LISTING_LIMIT))
  {
    var before, fs := submitted[task], Accept([], drafts);
    AcceptExtends([], drafts);
    forall n | |before| < n <= |fs|
      ensures FindingId(n) !in rows
    {
      if FindingId(n) in rows {
        RowIsSubmitted(sources, rows, submitted, FindingId(n));
        FreshIdIsNew(before, n);
      }
    }
    NumberedAnew(rows, task, before, fs);
    if before == [] {
      assert before + fs == fs;
      SubmitKeepsMirror(sources, rows, submitted, task, fs);
    } else if fs != [] {
      var all := before + fs;
      assert all[|before|] == fs[0] && all[0] == before[0];
      FindingIdsDiffer(1, |before| + 1);
      assert submitted[task := all][task] == all;
    } else {
      assert before + fs == before;
      assert submitted[task := before] == submitted;
    }
  }

  lemma FreshIdIsNew(before: seq<Finding>, n: nat)
    requires Numbered(before) && n > |before|
    ensures forall f :: f in before ==> f.id != FindingId(n)
  {
    forall f | f in before
      ensures f.id != FindingId(n)
    {
      var j :| 0 <= j < |before| && before[j] == f;
      FindingIdsDiffer(j + 1, n);
    }
  }

  /** No task is forgotten, and none loses findings. */
  ghost predicate Grows(before: map<TaskId, seq<Finding>>, after: map<TaskId, seq<Finding>>) {
    forall t :: t in before ==> t in after && |before[t]| <= |after[t]|
  }

  /** No task has more than 200 findings, and at most one has any. */
  ghost predicate Bounded(given: map<TaskId, seq<Finding>>) {
    && (forall t :: t in given ==> |given[t]| <= 200)
    && (forall a, b :: a in given && b in given && given[a] != [] && given[b] != [] ==> a == b)
  }

  lemma MirroredIsBounded(sources: map<TaskId, Path>, rows: Rows, submitted: map<TaskId, seq<Finding>>)
    requires AllMirrored(sources, rows, submitted)
    ensures Bounded(submitted)
  {
    forall a, b | a in submitted && b in submitted && submitted[a] != [] && submitted[b] != []
      ensures a == b
    {
      OnlyOneTaskHasFindings(sources, rows, submitted, a, b);
    }
  }

  /** What broke the bounds once stays. */
  lemma UnboundedStays(before: map<TaskId, seq<Finding>>, after: map<TaskId, seq<Finding>>)
    requires Grows(before, after) && Bounded(after)
    ensures Bounded(before)
  {
    forall a, b | a in before && b in before && before[a] != [] && before[b] != []
      ensures a == b
    {
      assert after[a] != [] && after[b] != [];
    }
  }

  /** No source file is forgotten or exchanged. */
  ghost predicate SourcesStay(before: map<TaskId, Path>, after: map<TaskId, Path>) {
    forall t :: t in before ==> t in after && after[t] == before[t]
  }

  /** The first 200 of the listing of the task. */
  ghost predicate ReadBack(rows: Rows, task: TaskId, findings: seq<Finding>) {
    exists full :: IsListing(full, rows, task) && findings == Capped(full)
  }

  class Worker {
    var tasks: map<TaskId, Store>
    /** Oldest insertion first. */
    var order: seq<TaskId>
    /** The database: the analysed tasks and the findings table. */
    var sources: map<TaskId, Path>
    var rows: Rows
    /** The findings ever accepted, per analysed task. */
    ghost var submitted: map<TaskId, seq<Finding>>

    constructor ()
      ensures Intact() && order == [] && tasks == map[] && sources == map[] && submitted == map[]
    {
      tasks, order, sources, rows, submitted := map[], [], map[], map[], map[];
    }

    /** The queue holds the cached tasks, each once and by its source file, and never more than eight. */
    ghost predicate Valid()
      reads this
    {
      && Distinct(order)
      && (forall t :: t in tasks <==> t in order)
      && |order| <= MAX_TASKS
      && forall t :: t in tasks && t in sources ==> tasks[t].source == sources[t]
    }

    /** Nothing accepted is missing, neither from memory nor from what a recovery would bring back. */
    ghost predicate Intact()
      reads this
    {
      && Valid()
      && AllMirrored(sources, rows, submitted)
      && CacheAgrees()
    }

    /** What is in memory is what was submitted. */
    ghost predicate CacheAgrees()
      reads this
    {
      forall t :: t in tasks ==> t in submitted && tasks[t].findings == submitted[t]
    }

    /** Makes room by dropping the tasks inserted longest ago, then appends. */
    method InsertTask(id: TaskId, store: Store)
      requires Valid() && id !in tasks && (id in sources ==> store.source == sources[id])
      modifies this`tasks, this`order
      ensures Valid()
      ensures order == Room(old(order)) + [id]
      ensures tasks.Keys == (set t | t in Room(old(order))) + {id}
      ensures tasks[id] == store && forall t :: t in Room(old(order)) ==> tasks[t] == old(tasks)[t]
      ensures old(CacheAgrees()) && id in submitted && store.findings == submitted[id] ==> CacheAgrees()
    {
      ghost var dropped := 0;
      while |order| >= MAX_TASKS
        invariant dropped <= |old(order)| && order == old(order)[dropped..]
        invariant dropped > 0 ==> |order| >= MAX_TASKS - 1
        invariant Valid() && id !in tasks
        invariant forall t :: t in tasks ==> t in old(tasks) && tasks[t] == old(tasks)[t]
        decreases |order|
      {
        var oldest := order[0];
        assert forall t :: t in order[1..] <==> t in order && t != oldest by {
          TailOfDistinct(order);
        }
        tasks := map t | t in tasks && t != oldest :: tasks[t];
        order := order[1..];
        dropped := dropped + 1;
      }
      order := order + [id];
      tasks := tasks[id := store];
    }

    /**
     Rebuilds a task that left memory from its persisted source and findings. A source that is gone
     or a replay that fails leaves the task cold; findings that cannot be read leave it without any.
     */
    method PrimeColdTask(task: TaskId, gone: set<Path>, replays: bool, readable: bool)
      requires Valid()
      modifies this`tasks, this`order
      ensures Valid()
      ensures old(Intact()) ==>
                (Intact() <==> task in old(tasks) || task !in tasks || readable || GivenTo(submitted, task) == [])
      ensures task in old(tasks) || task !in tasks ==> tasks == old(tasks) && order == old(order)
      ensures task !in old(tasks) && task in tasks ==>
                && order == Room(old(order)) + [task]
                && if readable then ReadBack(rows, task, tasks[task].findings) else tasks[task].findings == []
      ensures tasks.Keys <= old(tasks.Keys) + sources.Keys
      ensures task in tasks <==> task in old(tasks) || (task in sources && sources[task] !in gone && replays)
      ensures old(Intact()) && task in tasks ==>
                tasks[task].findings == if task in old(tasks) || readable then GivenTo(submitted, task) else []
    {
      if task in tasks || task !in sources || sources[task] in gone || !replays {
        return;
      }
      var findings := [];
      if readable {
        findings := Recall(task);
      }
      InsertTask(task, Store(sources[task], findings));
    }

    /** The findings of a task as the database has them. */
    method Recall(task: TaskId) returns (findings: seq<Finding>)
      requires task in sources
      ensures ReadBack(rows, task, findings)
      ensures AllMirrored(sources, rows, submitted) ==> findings == submitted[task]
    {
      findings := ListFindings(rows, task);
      if AllMirrored(sources, rows, submitted) {
        MirroredIsRecovered(rows, task, submitted[task]);
      }
    }

    /** A new process: the memory is empty, the database is as it was. */
    method StartAnew()
      modifies this`tasks, this`order
      ensures Valid() && tasks == map[] && order == []
      ensures Intact() <==> AllMirrored(sources, rows, submitted)
    {
      tasks, order := map[], [];
    }

    /** Analyses a file under a fresh task id; `written` says whether the database took the new task. */
    method Analyze(created: TaskId, path: Path, written: bool)
      requires Valid() && created !in tasks && created !in sources && created !in submitted
      modifies this`tasks, this`order, this`sources, this`submitted
      ensures Valid() && created in tasks && tasks[created] == Store(path, [])
      ensures order == Room(old(order)) + [created] && tasks.Keys <= old(tasks.Keys) + {created}
      ensures sources == (if written then old(sources)[created := path] else old(sources))
              && submitted == old(submitted)[created := []]
      ensures old(Intact()) && written ==> Intact()
    {
      if written {
        sources := sources[created := path];
      }
      submitted := submitted[created := []];
      InsertTask(created, Store(path, []));
    }

    /** Numbers the accepted drafts one after the other. */
    method AcceptDrafts(before: seq<Finding>, drafts: seq<Draft>) returns (findings: seq<Finding>)
      ensures findings == Accept(before, drafts) && Carries(before, drafts, findings)
    {
      AcceptCarries(before, drafts);
      findings := before;
      for i := 0 to |drafts|
        invariant findings == Accept(before, drafts[..i])
      {
        assert drafts[..i + 1][..i] == drafts[..i];
        if drafts[i].accepted {
          findings := findings + [Finding(FindingId(|findings| + 1), drafts[i].title, drafts[i].body)];
        }
      }
      assert drafts[..|drafts|] == drafts;
    }

    /** What a cached task has beyond these findings. */
    ghost function NewOf(task: TaskId, before: seq<Finding>): seq<Finding>
      reads this`tasks
      requires task in tasks && before <= tasks[task].findings
    {
      tasks[task].findings[|before|..]
    }

    /** Stores the accepted drafts in memory and writes the whole task through to the database. */
    method StoreDrafts(task: TaskId, drafts: seq<Draft>, written: bool)
      requires Valid() && task in tasks
      modifies this
      ensures Valid() && order == old(order) && (old(CacheAgrees()) ==> CacheAgrees())
      ensures tasks == old(tasks)[task := old(tasks)[task].(findings := Accept(old(tasks)[task].findings, drafts))]
      ensures Carries(old(tasks)[task].findings, drafts, tasks[task].findings)
      ensures submitted == old(submitted)[task := GivenTo(old(submitted), task) + NewOf(task, old(tasks)[task].findings)]
      ensures sources == if written then old(sources)[task := tasks[task].source] else old(sources)
      ensures rows == if written then UpsertAll(old(rows), task, tasks[task].findings) else old(rows)
    {
      var store := tasks[task];
      var findings := AcceptDrafts(store.findings, drafts);
      AcceptExtends(store.findings, drafts);
      ghost var given := GivenTo(submitted, task) + findings[|store.findings|..];
      assert CacheAgrees() ==> given == findings;
      tasks := tasks[task := store.(findings := findings)];
      submitted := submitted[task := given];
      if written {
        sources := sources[task := store.source];
        rows := UpsertAll(rows, task, findings);
      }
    }

    /**
     Submits drafts to a cached task. Nothing becomes unrecoverable if and only if nothing was
     accepted, or no other task has findings and this one keeps at most 200.
     */
    method Submit(task: TaskId, drafts: seq<Draft>, written: bool)
      requires Valid() && task in tasks
      modifies this
      ensures Valid() && order == old(order) && tasks.Keys == old(tasks.Keys)
      ensures sources.Keys == old(sources.Keys) + (if written then {task} else {}) && SourcesStay(old(sources), sources)
      ensures tasks[task].findings == Accept(old(tasks)[task].findings, drafts)
      ensures Carries(old(tasks)[task].findings, drafts, tasks[task].findings)
      ensures submitted == old(submitted)[task := GivenTo(old(submitted), task) + NewOf(task, old(tasks)[task].findings)]
      ensures old(Intact()) ==> submitted == old(submitted)[task := tasks[task].findings]
      ensures rows == if written then UpsertAll(old(rows), task, tasks[task].findings) else old(rows)
      ensures old(Intact()) && written ==>
                (Intact() <==>
                 || Accepted(drafts) == 0
                 || (|tasks[task].findings| <= LISTING_LIMIT && NoOtherFindings(old(submitted), task)))
    {
      ghost var before := tasks[task].findings;
      StoreDrafts(task, drafts, written);
      assert before + tasks[task].findings[|before|..] == tasks[task].findings;
      if old(Intact()) && written {
        AfterSubmit(old(sources), old(rows), old(submitted), task, tasks[task].source, drafts);
      }
    }

    /** One request: the task it names is recovered first if it left memory, then the request is handled. */
    method Dispatch(call: Request, w: Circumstances)
      requires Valid() && w.created !in tasks && w.created !in sources && w.created !in submitted
      modifies this
      ensures Valid()
      ensures tasks.Keys <= old(tasks.Keys) + old(sources.Keys) + {w.created}
      ensures sources.Keys <= old(tasks.Keys) + old(sources.Keys) + {w.created}
      ensures submitted.Keys <= old(tasks.Keys) + old(sources.Keys) + old(submitted.Keys) + {w.created}
      ensures Grows(old(submitted), submitted) && SourcesStay(old(sources), sources)
      ensures call.Restart? ==> tasks == map[] && order == []
      ensures !call.SubmitFinding? ==> rows == old(rows)
      ensures call.Restart? || call.Inspect? ==> sources == old(sources) && submitted == old(submitted)
      ensures call.AnalyzeFile? ==>
                if w.replays then
                  && w.created in tasks && tasks[w.created] == Store(call.path, [])
                  && order == Room(old(order)) + [w.created]
                  && sources == if w.written then old(sources)[w.created := call.path] else old(sources)
                else tasks == old(tasks) && order == old(order) && sources == old(sources)
      ensures call.SubmitFinding? ==>
                if call.task in tasks && w.written then rows == UpsertAll(old(rows), call.task, tasks[call.task].findings)
                else rows == old(rows)
      ensures w.Benign() && old(Intact()) ==>
                match call
                case AnalyzeFile(_) => Intact() && submitted == old(submitted)[w.created := []]
                case Restart => Intact() && submitted == old(submitted)
                case Inspect(task) =>
                  && Intact() && submitted == old(submitted)
                  && (task in submitted ==> task in tasks && tasks[task].findings == submitted[task])
                case SubmitFinding(task, drafts) =>
                  && (task !in old(submitted) ==> Intact() && submitted == old(submitted))
                  && (task in old(submitted) ==>
                        && submitted == old(submitted)[task := Accept(old(submitted)[task], drafts)]
                        && Carries(old(submitted)[task], drafts, submitted[task])
                        && (Intact() <==>
                            || Accepted(drafts) == 0
                            || (|submitted[task]| <= LISTING_LIMIT && NoOtherFindings(old(submitted), task))))
    {
      match call {
        case AnalyzeFile(path) =>
          if w.replays {
            Analyze(w.created, path, w.written);
          }
        case Restart =>
          StartAnew();
        case Inspect(task) =>
          PrimeColdTask(task, w.gone, w.replays, w.readable);
        case SubmitFinding(task, drafts) =>
          PrimeColdTask(task, w.gone, w.replays, w.readable);
          if task in tasks {
            Submit(task, drafts, w.written);
          }
      }
    }
  }

  lemma TailOfDistinct(order: seq<TaskId>)
    requires Distinct(order) && order != []
    ensures forall t :: t in order[1..] <==> t in order && t != order[0]
  {
    forall t | t in order && t != order[0]
      ensures t in order[1..]
    {
      var i :| 0 <= i < |order| && order[i] == t;
      assert order[1..][i - 1] == t;
    }
  }

  // ---- whole runs

  type Call = (Request, Circumstances)

  predicate AllBenign(calls: seq<Call>) {
    forall c :: c in calls ==> c.1.Benign()
  }

  /** What the requests alone say about the findings each task was given. */
  function AfterCall(given: map<TaskId, seq<Finding>>, call: Call): map<TaskId, seq<Finding>> {
    match call.0
    case AnalyzeFile(_) => given[call.1.created := []]
    case SubmitFinding(task, drafts) => if task in given then given[task := Accept(given[task], drafts)] else given
    case _ => given
  }

  function Told(calls: seq<Call>): map<TaskId, seq<Finding>> {
    if calls == [] then map[] else AfterCall(Told(calls[..|calls| - 1]), calls[|calls| - 1])
  }

  lemma AfterCallGrows(given: map<TaskId, seq<Finding>>, call: Call)
    requires call.1.created !in given
    ensures Grows(given, AfterCall(given, call))
    ensures AfterCall(given, call).Keys <= given.Keys + {call.1.created}
  {
    if call.0.SubmitFinding? && call.0.task in given {
      AcceptExtends(given[call.0.task], call.0.drafts);
    }
  }

  /** The bounds after a submission, by what one step of the worker looks at. */
  lemma BoundedAfterSubmit(given: map<TaskId, seq<Finding>>, task: TaskId, drafts: seq<Draft>)
    requires Bounded(given) && task in given
    ensures
      var fs := Accept(given[task], drafts);
      Bounded(given[task := fs]) <==>
      || Accepted(drafts) == 0
      || (|fs| <= LISTING_LIMIT && NoOtherFindings(given, task))
  {
    var fs := Accept(given[task], drafts);
    var after := given[task := fs];
    AcceptExtends(given[task], drafts);
    if Accepted(drafts) == 0 {
      assert fs == given[task] && after == given;
    } else if Bounded(after) {
      assert after[task] == fs;
      forall t | t in given && t != task
        ensures given[t] == []
      {
        assert after[t] == given[t];
      }
    }
  }

  /**
   While nothing was lost the worker has given each task what the requests say, within the bounds;
   once something is lost, both are out of bounds.
   */
  ghost predicate Follows(worker: Worker, told: map<TaskId, seq<Finding>>)
    reads worker
  {
    if worker.Intact() then worker.submitted == told && Bounded(told)
    else !Bounded(worker.submitted) && !Bounded(told)
  }

  /** One request, whatever was lost before. */
  method ServeOne(worker: Worker, call: Call, ghost told: map<TaskId, seq<Finding>>)
    requires worker.Valid() && call.1.created !in told
    requires call.1.created !in worker.tasks && call.1.created !in worker.sources && call.1.created !in worker.submitted
    modifies worker
    ensures worker.Valid()
    ensures worker.tasks.Keys + worker.sources.Keys + worker.submitted.Keys
            <= old(worker.tasks.Keys + worker.sources.Keys + worker.submitted.Keys) + {call.1.created}
    ensures call.1.Benign() && old(Follows(worker, told)) ==> Follows(worker, AfterCall(told, call))
  {
    if call.0.SubmitFinding? && call.0.task in told && Bounded(told) {
      BoundedAfterSubmit(told, call.0.task, call.0.drafts);
    }
    AfterCallGrows(told, call);
    ghost var before := worker.submitted;
    worker.Dispatch(call.0, call.1);
    StaysFollowed(before, worker.submitted, told, AfterCall(told, call));
    if worker.Intact() {
      MirroredIsBounded(worker.sources, worker.rows, worker.submitted);
    }
  }

  lemma StaysFollowed(before: map<TaskId, seq<Finding>>, after: map<TaskId, seq<Finding>>,
                      told: map<TaskId, seq<Finding>>, toldAfter: map<TaskId, seq<Finding>>)
    requires Grows(before, after) && Grows(told, toldAfter)
    ensures Bounded(after) ==> Bounded(before)
    ensures Bounded(toldAfter) ==> Bounded(told)
  {
    if Bounded(after) {
      UnboundedStays(before, after);
    }
    if Bounded(toldAfter) {
      UnboundedStays(told, toldAfter);
    }
  }

  /**
   Any sequence of requests and restarts keeps the queue sound. As long as sources and findings stay
   readable and writes succeed, everything accepted is still recoverable if and only if, by the
   requests alone, at most one task was given findings, and no more than 200.
   */
  method Serve(calls: seq<Call>) returns (worker: Worker)
    requires forall i, j :: 0 <= i < j < |calls| ==> calls[i].1.created != calls[j].1.created
    ensures fresh(worker) && worker.Valid()
    ensures AllBenign(calls) ==> (worker.Intact() <==> Bounded(Told(calls)))
    ensures AllBenign(calls) && worker.Intact() ==> worker.submitted == Told(calls)
  {
    worker := new Worker();
    ghost var used: set<TaskId> := {};
    for i := 0 to |calls|
      invariant worker.Valid() && fresh(worker)
      invariant worker.tasks.Keys + worker.sources.Keys + worker.submitted.Keys + Told(calls[..i]).Keys <= used
      invariant forall j :: i <= j < |calls| ==> calls[j].1.created !in used
      invariant AllBenign(calls) ==> Follows(worker, Told(calls[..i]))
    {
      assert calls[..i + 1][..i] == calls[..i];
      assert calls[i] in calls;
      AfterCallGrows(Told(calls[..i]), calls[i]);
      ServeOne(worker, calls[i], Told(calls[..i]));
      used := used + {calls[i].1.created};
    }
    assert calls[..|calls|] == calls;
  }

  lemma {:induction false} ToldIsKept(calls: seq<Call>, i: nat, task: TaskId)
    requires i <= |calls| && task in Told(calls[..i])
    requires forall j :: i <= j < |calls| ==> calls[j].1.created != task
    ensures task in Told(calls) && Told(calls[..i])[task] <= Told(calls)[task]
  {
    if i < |calls| {
      var init, last := calls[..|calls| - 1], calls[|calls| - 1];
      assert init[..i] == calls[..i];
      ToldIsKept(init, i, task);
      if last.0.SubmitFinding? && last.0.task == task {
        AcceptExtends(Told(init)[task], last.0.drafts);
      }
    } else {
      assert calls[..i] == calls;
    }
  }

  /**
   Whatever came later, each accepted draft of a submission to a known task is a finding of it in the
   end, under the number it was given then, with its own title and its own body.
   */
  lemma EverySubmissionStands(calls: seq<Call>, i: nat)
    requires i < |calls| && calls[i].0.SubmitFinding? && calls[i].0.task in Told(calls[..i])
    requires forall j :: i <= j < |calls| ==> calls[j].1.created != calls[i].0.task
    ensures calls[i].0.task in Told(calls)
    ensures forall n :: 0 <= n < |calls[i].0.drafts| ==>
              Landed(Told(calls[..i])[calls[i].0.task], calls[i].0.drafts, Told(calls)[calls[i].0.task], n)
  {
    var task, drafts := calls[i].0.task, calls[i].0.drafts;
    var before := Told(calls[..i])[task];
    assert calls[..i + 1][..i] == calls[..i];
    var after := Told(calls[..i + 1])[task];
    AcceptCarries(before, drafts);
    ToldIsKept(calls, i + 1, task);
    forall n | 0 <= n < |drafts|
      ensures Landed(before, drafts, Told(calls)[task], n)
    {
      assert Landed(before, drafts, after, n);
    }
  }

  /** The shortest run that loses something: two files, and for each of them a draft that is accepted. */
  lemma TwoSubmittersLose(p: Path, q: Path, x: seq<Draft>, y: seq<Draft>, wa: Circumstances, wb: Circumstances,
                          wx: Circumstances, wy: Circumstances)
    requires wa.created != wb.created && Accepted(x) > 0 && Accepted(y) > 0
    ensures !Bounded(Told([(AnalyzeFile(p), wa), (AnalyzeFile(q), wb),
                           (SubmitFinding(wa.created, x), wx), (SubmitFinding(wb.created, y), wy)]))
  {
    var a, b, c, d := (AnalyzeFile(p), wa), (AnalyzeFile(q), wb),
                      (SubmitFinding(wa.created, x), wx), (SubmitFinding(wb.created, y), wy);
    ToldMore([], a);
    ToldMore([] + [a], b);
    ToldMore([] + [a] + [b], c);
    ToldMore([] + [a] + [b] + [c], d);
    AcceptExtends([], x);
    AcceptExtends([], y);
    assert [] + [a] + [b] + [c] + [d] == [a, b, c, d];
    var told := Told([a, b, c, d]);
    assert |told[wa.created]| == Accepted(x) && |told[wb.created]| == Accepted(y);
  }

  lemma ToldMore(calls: seq<Call>, call: Call)
    ensures Told(calls + [call]) == AfterCall(Told(calls), call)
  {
    assert (calls + [call])[..|calls|] == calls;
  }
}
