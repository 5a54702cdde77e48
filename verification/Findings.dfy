/**
 Stored findings: what an upsert writes, what a listing reads back, and when the two agree.

 A finding is numbered inside its task (`F-001`, `F-002`, ...), but the table's key is the number
 alone, whichever task it belongs to.
 */
module Findings {
  import opened Options
  import Decimal
  import R = Ranking

  type TaskId = string

  const LISTING_LIMIT: nat := 200

  /** `body` stands for severity, basis, summary, evidence and validator status together. */
  datatype Finding = Finding(id: string, title: string, body: string)

  datatype Row = Row(task: TaskId, title: string, body: string)

  type Rows = map<string, Row>

  /** `F-{n:03}`. */
  function FindingId(n: nat): string {
    "F-" + Decimal.Pad(n, 3)
  }

  lemma FindingIdsDiffer(m: nat, n: nat)
    ensures FindingId(m) == FindingId(n) ==> m == n
  {
    Decimal.PadCanBeRead(m, 3);
    Decimal.PadCanBeRead(n, 3);
    if FindingId(m) == FindingId(n) {
      assert FindingId(m)[2..] == Decimal.Pad(m, 3) && FindingId(n)[2..] == Decimal.Pad(n, 3);
    }
  }

  /** An id is `F-` and a numeral, of three digits unless the number needs more. */
  lemma FindingIdReads(n: nat)
    ensures FindingId(n)[..2] == "F-" && Decimal.Value(FindingId(n)[2..]) == n
    ensures |FindingId(n)| >= 5 && (n < 1000 ==> |FindingId(n)| == 5)
  {
    Decimal.PadCanBeRead(n, 3);
    Decimal.DigitsFit(n, 3);
    assert Decimal.Pow10(3) == 1000 by {
      assert Decimal.Pow10(1) == 10;
    }
    assert FindingId(n)[2..] == Decimal.Pad(n, 3);
  }

  /** Insert, or on a conflict of ids keep the old task and title and overwrite the rest. */
  function Upsert(rows: Rows, task: TaskId, f: Finding): Rows {
    rows[f.id := if f.id in rows then rows[f.id].(body := f.body) else Row(task, f.title, f.body)]
  }

  function UpsertAll(rows: Rows, task: TaskId, fs: seq<Finding>): Rows {
    if fs == [] then rows else Upsert(UpsertAll(rows, task, fs[..|fs| - 1]), task, fs[|fs| - 1])
  }

  predicate Numbered(fs: seq<Finding>) {
    forall i :: 0 <= i < |fs| ==> fs[i].id == FindingId(i + 1)
  }

  lemma NumbersAreUnique(fs: seq<Finding>, i: nat, j: nat)
    requires Numbered(fs) && i < |fs| && j < |fs| && fs[i].id == fs[j].id
    ensures i == j
  {
    FindingIdsDiffer(i + 1, j + 1);
  }

  predicate HasId(fs: seq<Finding>, id: string) {
    exists i :: 0 <= i < |fs| && fs[i].id == id
  }

  lemma {:induction false} UpsertAllLeavesOthers(rows: Rows, task: TaskId, fs: seq<Finding>, id: string)
    ensures id in UpsertAll(rows, task, fs) <==> id in rows || HasId(fs, id)
    ensures id in rows && !HasId(fs, id) ==> UpsertAll(rows, task, fs)[id] == rows[id]
  {
    if fs != [] {
      UpsertAllLeavesOthers(rows, task, fs[..|fs| - 1], id);
      assert fs[|fs| - 1].id == id ==> HasId(fs, id);
    }
  }

  lemma {:induction false} UpsertAllWrites(rows: Rows, task: TaskId, fs: seq<Finding>, i: nat)
    requires Numbered(fs) && i < |fs|
    ensures fs[i].id in UpsertAll(rows, task, fs)
    ensures UpsertAll(rows, task, fs)[fs[i].id] ==
            if fs[i].id in rows then rows[fs[i].id].(body := fs[i].body) else Row(task, fs[i].title, fs[i].body)
  {
    var init := fs[..|fs| - 1];
    if i < |fs| - 1 {
      UpsertAllWrites(rows, task, init, i);
      FindingIdsDiffer(i + 1, |fs|);
    } else {
      UpsertAllLeavesOthers(rows, task, init, fs[i].id);
      if HasId(init, fs[i].id) {
        var j :| 0 <= j < |init| && init[j].id == fs[i].id;
        NumbersAreUnique(fs, i, j);
      }
    }
  }

  // ---- listing

  predicate IdLess(x: Finding, y: Finding) {
    R.TextLess(x.id, y.id)
  }

  predicate Owns(rows: Rows, task: TaskId, f: Finding) {
    f.id in rows && rows[f.id] == Row(task, f.title, f.body)
  }

  /** The findings of a task in the order of their ids as text. */
  ghost predicate IsListing(full: seq<Finding>, rows: Rows, task: TaskId) {
    && R.Ascending(IdLess, full)
    && forall f :: f in full <==> Owns(rows, task, f)
  }

  function Capped(full: seq<Finding>): seq<Finding> {
    if |full| <= LISTING_LIMIT then full else full[..LISTING_LIMIT]
  }

  lemma IdLessIsStrict()
    ensures R.StrictOrder(IdLess)
  {
    forall x: Finding
      ensures !IdLess(x, x)
    {
      R.TextLessIsStrict(x.id);
    }
    forall x: Finding, y: Finding, z: Finding | IdLess(x, y) && IdLess(y, z)
      ensures IdLess(x, z)
    {
      R.TextLessIsTransitive(x.id, y.id, z.id);
    }
  }

  method ListFindings(rows: Rows, task: TaskId) returns (r: seq<Finding>)
    ensures exists full :: IsListing(full, rows, task) && r == if |full| <= 200 then full else full[..200]
  {
    var found: seq<Finding> := [];
    var keys := rows.Keys;
    while keys != {}
      invariant keys <= rows.Keys
      invariant forall f :: f in found <==> Owns(rows, task, f) && f.id !in keys
      invariant forall i, j :: 0 <= i < j < |found| ==> found[i].id != found[j].id
      decreases |keys|
    {
      var id :| id in keys;
      keys := keys - {id};
      if rows[id].task == task {
        assert forall i :: 0 <= i < |found| ==> found[i] in found;
        found := found + [Finding(id, rows[id].title, rows[id].body)];
      }
    }
    IdLessIsStrict();
    forall i, j | 0 <= i < j < |found|
      ensures IdLess(found[i], found[j]) || IdLess(found[j], found[i])
    {
      R.TextLessIsTotal(found[i].id, found[j].id);
    }
    R.SortSorts(IdLess, found);
    R.SortKeepsMembers(IdLess, found);
    var sorted := R.Sort(IdLess, found);
    assert IsListing(sorted, rows, task);
    r := Capped(sorted);
  }

  // ---- when the table mirrors what a task was given

  /** The rows of a task are exactly these findings. */
  ghost predicate Mirrors(rows: Rows, task: TaskId, fs: seq<Finding>) {
    Numbered(fs) && forall f :: f in fs <==> Owns(rows, task, f)
  }

  /** Reading the task back from the table gives these findings, whatever computes the listing. */
  ghost predicate Recovers(rows: Rows, task: TaskId, fs: seq<Finding>) {
    forall full :: IsListing(full, rows, task) ==> Capped(full) == fs
  }

  /** Below a thousand, ids sort as text the way they are numbered. */
  lemma IdsSortByNumber(m: nat, n: nat)
    requires m < n < 1000
    ensures R.TextLess(FindingId(m), FindingId(n))
  {
    Decimal.PadToThree(m);
    Decimal.PadToThree(n);
    DigitsCompare(m, n);
    ThreeCharactersCompare(Decimal.Pad(m, 3), Decimal.Pad(n, 3));
    AfterThePrefix(Decimal.Pad(m, 3), Decimal.Pad(n, 3));
  }

  lemma DigitsCompare(m: nat, n: nat)
    requires m < n < 1000
    ensures m / 100 < n / 100
            || (m / 100 == n / 100
                && (m / 10 % 10 < n / 10 % 10 || (m / 10 % 10 == n / 10 % 10 && m % 10 < n % 10)))
  {
  }

  lemma ThreeCharactersCompare(a: string, b: string)
    requires |a| == |b| == 3
    requires a[0] < b[0] || (a[0] == b[0] && (a[1] < b[1] || (a[1] == b[1] && a[2] < b[2])))
    ensures R.TextLess(a, b)
  {
    if a[0] == b[0] && a[1] == b[1] {
      assert R.TextLess(a[1..][1..], b[1..][1..]);
    }
  }

  lemma AfterThePrefix(a: string, b: string)
    requires R.TextLess(a, b)
    ensures R.TextLess("F-" + a, "F-" + b)
  {
    assert ("F-" + a)[1..] == "-" + a && ("F-" + b)[1..] == "-" + b;
    assert ("-" + a)[1..] == a && ("-" + b)[1..] == b;
  }

  /** A mirrored task is read back completely, in order, exactly when it has at most 200 findings. */
  lemma MirroredIsRecovered(rows: Rows, task: TaskId, fs: seq<Finding>)
    requires Mirrors(rows, task, fs) && |fs| <= LISTING_LIMIT
    ensures Recovers(rows, task, fs)
  {
    IdLessIsStrict();
    forall i, j | 0 <= i < j < |fs|
      ensures IdLess(fs[i], fs[j])
    {
      IdsSortByNumber(i + 1, j + 1);
    }
    forall full | IsListing(full, rows, task)
      ensures Capped(full) == fs
    {
      R.AscendingIsUnique(IdLess, full, fs);
    }
  }

  /** A table has a listing for every task. */
  lemma ListingExists(rows: Rows, task: TaskId) returns (full: seq<Finding>)
    ensures IsListing(full, rows, task)
  {
    var found := Owned(rows, task, rows.Keys);
    IdLessIsStrict();
    forall i, j | 0 <= i < j < |found|
      ensures IdLess(found[i], found[j]) || IdLess(found[j], found[i])
    {
      R.TextLessIsTotal(found[i].id, found[j].id);
    }
    R.SortSorts(IdLess, found);
    R.SortKeepsMembers(IdLess, found);
    full := R.Sort(IdLess, found);
  }

  lemma {:induction false} Owned(rows: Rows, task: TaskId, keys: set<string>) returns (found: seq<Finding>)
    requires keys <= rows.Keys
    ensures forall f :: f in found <==> f.id in keys && Owns(rows, task, f)
    ensures forall i, j :: 0 <= i < j < |found| ==> found[i].id != found[j].id
    decreases keys
  {
    if keys == {} {
      return [];
    }
    var id :| id in keys;
    found := Owned(rows, task, keys - {id});
    if rows[id].task == task {
      assert forall i :: 0 <= i < |found| ==> found[i] in found;
      found := found + [Finding(id, rows[id].title, rows[id].body)];
    }
  }

  /** Writing more findings of a mirrored task leaves it mirrored exactly when no new id is taken. */
  lemma PersistMirrors(rows: Rows, task: TaskId, before: seq<Finding>, fs: seq<Finding>)
    requires Mirrors(rows, task, before) && Numbered(fs) && before <= fs
    requires forall i :: |before| <= i < |fs| ==> fs[i].id !in rows
    ensures Mirrors(UpsertAll(rows, task, fs), task, fs)
  {
    var after := UpsertAll(rows, task, fs);
    forall f
      ensures f in fs <==> Owns(after, task, f)
    {
      UpsertAllLeavesOthers(rows, task, fs, f.id);
      if f in fs || HasId(fs, f.id) {
        var i :| 0 <= i < |fs| && fs[i].id == f.id && (f in fs ==> fs[i] == f);
        UpsertAllWrites(rows, task, fs, i);
        if i < |before| {
          assert before[i] == fs[i] && before[i] in before;
        }
      } else {
        assert Owns(after, task, f) ==> f in before;
        assert forall i :: 0 <= i < |before| ==> before[i] == fs[i];
      }
    }
  }

  /** A new id that another task's row already has is lost: its finding is not read back. */
  lemma TakenIdIsLost(rows: Rows, task: TaskId, fs: seq<Finding>, i: nat)
    requires Numbered(fs) && i < |fs| && fs[i].id in rows && rows[fs[i].id].task != task
    ensures !Recovers(UpsertAll(rows, task, fs), task, fs)
  {
    var after := UpsertAll(rows, task, fs);
    UpsertAllWrites(rows, task, fs, i);
    var full := ListingExists(after, task);
    assert !Owns(after, task, fs[i]);
    assert fs[i] in fs;
    assert forall f :: f in Capped(full) ==> f in full;
  }

  lemma TooManyAreCut(rows: Rows, task: TaskId, fs: seq<Finding>)
    requires |fs| > LISTING_LIMIT
    ensures !Recovers(rows, task, fs)
  {
    var full := ListingExists(rows, task);
    assert |Capped(full)| <= LISTING_LIMIT;
  }

  /**
   Evicting a task and reading its findings back loses nothing if and only if it has at most 200 of
   them and none of the ids about to be written is taken in the table.
   */
  lemma PersistThenRecover(rows: Rows, task: TaskId, before: seq<Finding>, fs: seq<Finding>)
    requires Mirrors(rows, task, before) && Numbered(fs) && before <= fs
    ensures Recovers(UpsertAll(rows, task, fs), task, fs) <==>
            |fs| <= 200 && forall n :: |before| < n <= |fs| ==> FindingId(n) !in rows
  {
    if |fs| > LISTING_LIMIT {
      TooManyAreCut(UpsertAll(rows, task, fs), task, fs);
    } else if n :| |before| < n <= |fs| && FindingId(n) in rows {
      NewIdIsNotOwn(rows, task, before, n);
      TakenIdIsLost(rows, task, fs, n - 1);
    } else {
      forall i | |before| <= i < |fs|
        ensures fs[i].id !in rows
      {
        assert FindingId(i + 1) !in rows;
      }
      PersistMirrors(rows, task, before, fs);
      MirroredIsRecovered(UpsertAll(rows, task, fs), task, fs);
    }
  }

  lemma NewIdIsNotOwn(rows: Rows, task: TaskId, before: seq<Finding>, n: nat)
    requires Mirrors(rows, task, before) && n > |before| && FindingId(n) in rows
    ensures rows[FindingId(n)].task != task
  {
    var row := rows[FindingId(n)];
    var f := Finding(FindingId(n), row.title, row.body);
    if row.task == task {
      assert Owns(rows, task, f);
      var j :| 0 <= j < |before| && before[j] == f;
      FindingIdsDiffer(j + 1, n);
      assert false;
    }
  }

  /** Two tasks with one finding each are enough: the second task's finding is gone after recovery. */
  lemma SecondTaskLosesItsFinding(a: TaskId, b: TaskId, x: Finding, y: Finding)
    requires a != b && x.id == FindingId(1) && y.id == FindingId(1)
    ensures !Recovers(UpsertAll(UpsertAll(map[], a, [x]), b, [y]), b, [y])
  {
    UpsertAllWrites(map[], a, [x], 0);
    TakenIdIsLost(UpsertAll(map[], a, [x]), b, [y], 0);
  }

  // ---- numbering a task anew over its own rows

  /** Where both have a finding, the old title with the new body. */
  function Overlay(before: seq<Finding>, fs: seq<Finding>): (r: seq<Finding>)
    ensures |r| == if |before| >= |fs| then |before| else |fs|
  {
    seq(if |before| >= |fs| then |before| else |fs|, i requires 0 <= i < |before| || 0 <= i < |fs| =>
      if i >= |fs| then before[i]
      else if i >= |before| then fs[i]
      else Finding(fs[i].id, before[i].title, fs[i].body))
  }

  /**
   A task whose findings were not read back and which then is given others: they take the numbers
   of the old ones, and what the table has after that is neither the old nor the new.
   */
  lemma NumberedAnew(rows: Rows, task: TaskId, before: seq<Finding>, fs: seq<Finding>)
    requires Mirrors(rows, task, before) && Numbered(fs)
    requires forall n :: |before| < n <= |fs| ==> FindingId(n) !in rows
    ensures Mirrors(UpsertAll(rows, task, fs), task, Overlay(before, fs))
  {
    var after, all := UpsertAll(rows, task, fs), Overlay(before, fs);
    forall i | 0 <= i < |all|
      ensures all[i].id == FindingId(i + 1) && Owns(after, task, all[i])
    {
      OverlayIsWritten(rows, task, before, fs, i);
    }
    forall f
      ensures f in all <==> Owns(after, task, f)
    {
      if Owns(after, task, f) {
        UpsertAllLeavesOthers(rows, task, fs, f.id);
        var i := PlaceOfId(rows, task, before, fs, f.id);
        assert all[i].id == f.id && Owns(after, task, all[i]);
      }
    }
  }

  lemma OverlayIsWritten(rows: Rows, task: TaskId, before: seq<Finding>, fs: seq<Finding>, i: nat)
    requires Mirrors(rows, task, before) && Numbered(fs) && i < |Overlay(before, fs)|
    requires forall n :: |before| < n <= |fs| ==> FindingId(n) !in rows
    ensures
      var f := Overlay(before, fs)[i];
      f.id == FindingId(i + 1) && Owns(UpsertAll(rows, task, fs), task, f)
  {
    if i < |before| {
      assert before[i] in before && Owns(rows, task, before[i]);
    }
    if i < |fs| {
      UpsertAllWrites(rows, task, fs, i);
    } else {
      UpsertAllLeavesOthers(rows, task, fs, before[i].id);
      if HasId(fs, before[i].id) {
        var j :| 0 <= j < |fs| && fs[j].id == before[i].id;
        FindingIdsDiffer(i + 1, j + 1);
      }
    }
  }

  /** Every row of the task stands at a place of one of the two lists. */
  lemma PlaceOfId(rows: Rows, task: TaskId, before: seq<Finding>, fs: seq<Finding>, id: string) returns (i: nat)
    requires Mirrors(rows, task, before) && Numbered(fs)
    requires id in UpsertAll(rows, task, fs) && UpsertAll(rows, task, fs)[id].task == task
    ensures i < |Overlay(before, fs)| && FindingId(i + 1) == id
  {
    UpsertAllLeavesOthers(rows, task, fs, id);
    if HasId(fs, id) {
      i :| 0 <= i < |fs| && fs[i].id == id;
    } else {
      var f := Finding(id, rows[id].title, rows[id].body);
      assert Owns(rows, task, f);
      i :| 0 <= i < |before| && before[i] == f;
    }
  }
}
