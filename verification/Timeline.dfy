/** The order in which the desktop shows the steps of a run: block by block, lane by lane. */
module Timeline {
  import R = Ranking

  /** A delta without a channel counts as content. */
  datatype Kind = Step | Tool | Delta(channel: string) | Finding | Rejected | Other(name: string)

  datatype Entry = Entry(kind: Kind, id: nat)

  /** The heading of a block comes before all lanes; an unknown kind comes after them. */
  function Rank(e: Entry): int {
    match e.kind
    case Step => -1
    case Tool => 0
    case Delta(channel) => if channel == "tool_args" then 0 else if channel == "reasoning" then 1 else 2
    case Finding => 3
    case Rejected => 4
    case Other(_) => 99
  }

  predicate IsStep(e: Entry) {
    e.kind.Step?
  }

  /**
   The lanes from top to bottom, below the heading: calls and what is streamed for them, thoughts, all
   other streamed text, findings, rejections; what is none of these comes last.
   */
  predicate InLane(e: Entry, lane: int) {
    match lane
    case -1 => e.kind == Step
    case 0 => e.kind == Tool || e.kind == Delta("tool_args")
    case 1 => e.kind == Delta("reasoning")
    case 2 => e.kind.Delta? && e.kind.channel !in {"tool_args", "reasoning"}
    case 3 => e.kind == Finding
    case 4 => e.kind == Rejected
    case 99 => e.kind.Other?
    case _ => false
  }

  lemma RankIsLane(e: Entry, lane: int)
    ensures Rank(e) == lane <==> InLane(e, lane)
  {
  }

  // ---- blocks

  function Join(blocks: seq<seq<Entry>>): seq<Entry> {
    if blocks == [] then [] else Join(blocks[..|blocks| - 1]) + blocks[|blocks| - 1]
  }

  /** A block starts at the first entry and at every step that follows something else. */
  predicate StartsBlock(items: seq<Entry>, i: nat)
    requires i < |items|
  {
    i == 0 || (IsStep(items[i]) && !IsStep(items[i - 1]))
  }

  function WithLast(blocks: seq<seq<Entry>>, e: Entry): (r: seq<seq<Entry>>)
    requires blocks != []
    ensures |r| == |blocks|
  {
    var n := |blocks| - 1;
    blocks[..n] + [blocks[n] + [e]]
  }

  function Blocks(items: seq<Entry>): (r: seq<seq<Entry>>)
    ensures r == [] <==> items == []
  {
    if items == [] then []
    else
      var n := |items| - 1;
      if StartsBlock(items, n) then Blocks(items[..n]) + [[items[n]]]
      else WithLast(Blocks(items[..n]), items[n])
  }

  function Last<T>(s: seq<T>): T
    requires s != []
  {
    s[|s| - 1]
  }

  predicate StepsFirst(block: seq<Entry>) {
    forall j :: 0 < j < |block| && IsStep(block[j]) ==> IsStep(block[j - 1])
  }

  /** Steps only at the start of a block; a later block starts with one, after something else. */
  predicate Follows(front: seq<seq<Entry>>, b: seq<Entry>) {
    && b != [] && StepsFirst(b)
    && (front != [] ==> IsStep(b[0]) && Last(front) != [] && !IsStep(Last(Last(front))))
  }

  predicate WellCut(blocks: seq<seq<Entry>>) {
    blocks != [] ==> WellCut(blocks[..|blocks| - 1]) && Follows(blocks[..|blocks| - 1], Last(blocks))
  }

  lemma WellCutLast(front: seq<seq<Entry>>, b: seq<Entry>)
    ensures WellCut(front + [b]) <==> WellCut(front) && Follows(front, b)
  {
    assert (front + [b])[..|front|] == front;
  }

  lemma JoinLast(blocks: seq<seq<Entry>>, b: seq<Entry>)
    ensures Join(blocks + [b]) == Join(blocks) + b
  {
    assert (blocks + [b])[..|blocks|] == blocks;
  }

  lemma JoinWithLast(blocks: seq<seq<Entry>>, e: Entry)
    requires blocks != []
    ensures Join(WithLast(blocks, e)) == Join(blocks) + [e]
  {
    var n := |blocks| - 1;
    JoinLast(blocks[..n], blocks[n] + [e]);
    assert Join(blocks[..n]) + (blocks[n] + [e]) == Join(blocks[..n]) + blocks[n] + [e];
  }

  lemma {:induction false} BlocksHoldTheItems(items: seq<Entry>)
    ensures Join(Blocks(items)) == items
    decreases |items|
  {
    if items != [] {
      var n := |items| - 1;
      BlocksHoldTheItems(items[..n]);
      assert items == items[..n] + [items[n]];
      if StartsBlock(items, n) {
        JoinLast(Blocks(items[..n]), [items[n]]);
      } else {
        JoinWithLast(Blocks(items[..n]), items[n]);
      }
    }
  }

  lemma LastOfJoin(blocks: seq<seq<Entry>>)
    requires blocks != [] && WellCut(blocks)
    ensures Join(blocks) != [] && Last(Join(blocks)) == Last(Last(blocks))
  {
  }

  lemma {:induction false} BlocksAreWellCut(items: seq<Entry>)
    ensures WellCut(Blocks(items))
    decreases |items|
  {
    if items != [] {
      var n := |items| - 1;
      var front := Blocks(items[..n]);
      BlocksAreWellCut(items[..n]);
      BlocksHoldTheItems(items[..n]);
      if front != [] {
        LastOfJoin(front);
        assert Last(items[..n]) == items[n - 1];
      }
      if StartsBlock(items, n) {
        WellCutLast(front, [items[n]]);
      } else {
        WellCutWithLast(front, items[n]);
      }
    }
  }

  lemma WellCutWithLast(blocks: seq<seq<Entry>>, e: Entry)
    requires blocks != [] && WellCut(blocks)
    requires IsStep(e) ==> IsStep(Last(Last(blocks)))
    ensures WellCut(WithLast(blocks, e))
  {
    var n := |blocks| - 1;
    assert Follows(blocks[..n], blocks[n] + [e]);
    WellCutLast(blocks[..n], blocks[n] + [e]);
  }

  /** There is only one way to cut. */
  lemma {:induction false} CutIsUnique(blocks: seq<seq<Entry>>)
    requires WellCut(blocks)
    ensures Blocks(Join(blocks)) == blocks
    decreases |Join(blocks)|
  {
    if blocks != [] {
      var front, b := blocks[..|blocks| - 1], Last(blocks);
      assert blocks == front + [b];
      if |b| == 1 {
        CutIsUnique(front);
        CutAtNewBlock(front, b[0]);
        assert b == [b[0]];
      } else {
        var shorter, x := front + [b[..|b| - 1]], Last(b);
        assert b == b[..|b| - 1] + [x];
        assert WithLast(shorter, x) == blocks;
        JoinWithLast(shorter, x);
        WellCutLast(front, b[..|b| - 1]);
        CutIsUnique(shorter);
        CutInsideBlock(shorter, x);
      }
    }
  }

  lemma CutAtNewBlock(front: seq<seq<Entry>>, x: Entry)
    requires WellCut(front) && Follows(front, [x]) && Blocks(Join(front)) == front
    ensures Blocks(Join(front + [[x]])) == front + [[x]]
  {
    var items := Join(front) + [x];
    JoinLast(front, [x]);
    if front != [] {
      LastOfJoin(front);
    } else {
      assert Join(front) == [];
    }
    assert items[..|items| - 1] == Join(front);
    assert StartsBlock(items, |items| - 1);
  }

  lemma CutInsideBlock(blocks: seq<seq<Entry>>, x: Entry)
    requires blocks != [] && WellCut(blocks) && Blocks(Join(blocks)) == blocks
    requires IsStep(x) ==> IsStep(Last(Last(blocks)))
    ensures Blocks(Join(blocks) + [x]) == WithLast(blocks, x)
  {
    var items := Join(blocks) + [x];
    LastOfJoin(blocks);
    assert items[..|items| - 1] == Join(blocks);
    assert !StartsBlock(items, |items| - 1);
  }

  // ---- one block

  datatype Row = Row(item: Entry, index: nat, rank: int)

  /** The comparison handed to the sort of the standard library. */
  predicate RowLess(left: Row, right: Row) {
    left.rank < right.rank || (left.rank == right.rank && left.index < right.index)
  }

  function Rows(block: seq<Entry>): (r: seq<Row>)
    ensures |r| == |block|
  {
    seq(|block|, i requires 0 <= i < |block| => Row(block[i], i, Rank(block[i])))
  }

  function Items(rows: seq<Row>): (r: seq<Entry>)
    ensures |r| == |rows|
  {
    seq(|rows|, i requires 0 <= i < |rows| => rows[i].item)
  }

  function SortBlock(block: seq<Entry>): seq<Entry> {
    Items(R.Sort(RowLess, Rows(block)))
  }

  /** The entries of one lane, in order. */
  function Lane(lane: int, items: seq<Entry>): seq<Entry> {
    if items == [] then []
    else (if InLane(items[0], lane) then [items[0]] else []) + Lane(lane, items[1..])
  }

  /** Nothing stands above an entry of a higher lane. */
  ghost predicate LanesAscend(items: seq<Entry>) {
    forall i, j, k, l :: 0 <= i < j < |items| && InLane(items[i], k) && InLane(items[j], l) ==> k <= l
  }

  predicate RanksAscend(items: seq<Entry>) {
    forall i, j :: 0 <= i < j < |items| ==> Rank(items[i]) <= Rank(items[j])
  }

  lemma AscendByRank(items: seq<Entry>)
    ensures LanesAscend(items) <==> RanksAscend(items)
  {
    forall e, k: int
      ensures InLane(e, k) <==> Rank(e) == k
    {
      RankIsLane(e, k);
    }
    if LanesAscend(items) {
      forall i, j | 0 <= i < j < |items|
        ensures Rank(items[i]) <= Rank(items[j])
      {
        assert InLane(items[i], Rank(items[i])) && InLane(items[j], Rank(items[j]));
      }
    }
  }

  /** Rows of a part of a block, in the order of their numbers. */
  predicate Numbered(rows: seq<Row>) {
    && (forall i :: 0 <= i < |rows| ==> rows[i].rank == Rank(rows[i].item))
    && (forall i, j :: 0 <= i < j < |rows| ==> rows[i].index < rows[j].index)
  }

  lemma ItemsOfCons(x: Row, rows: seq<Row>)
    ensures Items([x] + rows) == [x.item] + Items(rows)
  {
  }

  lemma LaneOfCons(rank: int, e: Entry, items: seq<Entry>)
    ensures Lane(rank, [e] + items) == (if Rank(e) == rank then [e] else []) + Lane(rank, items)
  {
    RankIsLane(e, rank);
    assert ([e] + items)[1..] == items;
  }

  /** Putting a row with a smaller number into its place puts its entry first in its lane. */
  lemma {:induction false} InsertKeepsLanes(rank: int, x: Row, rows: seq<Row>)
    requires x.rank == Rank(x.item)
    requires forall i :: 0 <= i < |rows| ==> rows[i].rank == Rank(rows[i].item) && x.index < rows[i].index
    ensures Lane(rank, Items(R.Insert(RowLess, x, rows)))
         == (if x.rank == rank then [x.item] else []) + Lane(rank, Items(rows))
    decreases |rows|
  {
    if rows == [] || RowLess(x, rows[0]) {
      assert R.Insert(RowLess, x, rows) == [x] + rows;
      ItemsOfCons(x, rows);
      LaneOfCons(rank, x.item, Items(rows));
    } else {
      var rest := R.Insert(RowLess, x, rows[1..]);
      InsertKeepsLanes(rank, x, rows[1..]);
      ItemsOfCons(rows[0], rest);
      LaneOfCons(rank, rows[0].item, Items(rest));
      assert rows == [rows[0]] + rows[1..];
      ItemsOfCons(rows[0], rows[1..]);
      LaneOfCons(rank, rows[0].item, Items(rows[1..]));
    }
  }

  lemma {:induction false} InsertKeepsItems(x: Row, rows: seq<Row>)
    ensures multiset(Items(R.Insert(RowLess, x, rows))) == multiset(Items(rows)) + multiset{x.item}
    decreases |rows|
  {
    if rows == [] || RowLess(x, rows[0]) {
      ItemsOfCons(x, rows);
    } else {
      InsertKeepsItems(x, rows[1..]);
      ItemsOfCons(rows[0], R.Insert(RowLess, x, rows[1..]));
      assert rows == [rows[0]] + rows[1..];
      ItemsOfCons(rows[0], rows[1..]);
    }
  }

  lemma {:induction false} SortKeepsItems(rows: seq<Row>)
    ensures multiset(Items(R.Sort(RowLess, rows))) == multiset(Items(rows))
    decreases |rows|
  {
    if rows != [] {
      SortKeepsItems(rows[1..]);
      InsertKeepsItems(rows[0], R.Sort(RowLess, rows[1..]));
      assert rows == [rows[0]] + rows[1..];
      ItemsOfCons(rows[0], rows[1..]);
    }
  }

  lemma {:induction false} SortKeepsLanes(rank: int, rows: seq<Row>)
    requires Numbered(rows)
    ensures Lane(rank, Items(R.Sort(RowLess, rows))) == Lane(rank, Items(rows))
    decreases |rows|
  {
    if rows != [] {
      var sorted := R.Sort(RowLess, rows[1..]);
      SortKeepsLanes(rank, rows[1..]);
      SortedRows(rows[1..]);
      forall i | 0 <= i < |sorted|
        ensures sorted[i].rank == Rank(sorted[i].item) && rows[0].index < sorted[i].index
      {
        assert sorted[i] in sorted;
        assert sorted[i] in rows[1..];
      }
      InsertKeepsLanes(rank, rows[0], sorted);
      assert rows == [rows[0]] + rows[1..];
      ItemsOfCons(rows[0], rows[1..]);
      LaneOfCons(rank, rows[0].item, Items(rows[1..]));
    }
  }

  /** The rows are sorted, and they are the same rows. */
  lemma SortedRows(rows: seq<Row>)
    requires Numbered(rows)
    ensures R.StrictOrder(RowLess) && R.Ascending(RowLess, R.Sort(RowLess, rows))
    ensures forall x :: x in R.Sort(RowLess, rows) <==> x in rows
  {
    assert R.Linear(RowLess, rows);
    R.SortSorts(RowLess, rows);
    R.SortKeepsMembers(RowLess, rows);
  }

  /** A sorted block has the same entries, lane after lane, and each lane in order of arrival. */
  lemma SortedBlock(block: seq<Entry>)
    ensures RanksAscend(SortBlock(block)) && LanesAscend(SortBlock(block))
    ensures multiset(SortBlock(block)) == multiset(block)
    ensures forall rank :: Lane(rank, SortBlock(block)) == Lane(rank, block)
  {
    var rows := Rows(block);
    assert Items(rows) == block;
    forall rank
      ensures Lane(rank, SortBlock(block)) == Lane(rank, block)
    {
      SortKeepsLanes(rank, rows);
    }
    SortKeepsItems(rows);
    SortedRows(rows);
    var sorted := R.Sort(RowLess, rows);
    forall i | 0 <= i < |sorted| ensures sorted[i].rank == Rank(sorted[i].item) {
      assert sorted[i] in sorted;
    }
    AscendByRank(SortBlock(block));
  }

  lemma SortedBlockStays(block: seq<Entry>)
    requires RanksAscend(block)
    ensures SortBlock(block) == block
  {
    var rows := Rows(block);
    SortedRows(rows);
    R.AscendingIsUnique(RowLess, R.Sort(RowLess, rows), rows);
  }

  /** Entries in these lanes are in only one order. */
  lemma {:induction false} LanesDetermine(a: seq<Entry>, b: seq<Entry>)
    requires LanesAscend(a) && LanesAscend(b)
    requires forall rank :: Lane(rank, a) == Lane(rank, b)
    ensures a == b
    decreases |a|
  {
    AscendByRank(a);
    AscendByRank(b);
    if a == [] && b == [] {
    } else if a == [] || Rank(a[0]) > (if b == [] then Rank(a[0]) else Rank(b[0])) {
      HeadOfLane(b, a);
    } else if b == [] || Rank(b[0]) > Rank(a[0]) {
      HeadOfLane(a, b);
    } else {
      var k := Rank(a[0]);
      RankIsLane(a[0], k);
      RankIsLane(b[0], k);
      assert Lane(k, a)[0] == a[0] && Lane(k, b)[0] == b[0];
      forall rank ensures Lane(rank, a[1..]) == Lane(rank, b[1..]) {
        assert Lane(rank, a) == Lane(rank, b);
        LaneOfTail(rank, a);
        LaneOfTail(rank, b);
      }
      LanesDetermine(a[1..], b[1..]);
    }
  }

  lemma LaneOfTail(rank: int, a: seq<Entry>)
    requires a != []
    ensures Lane(rank, a[1..]) == if Rank(a[0]) == rank then Lane(rank, a)[1..] else Lane(rank, a)
  {
    RankIsLane(a[0], rank);
  }

  lemma HeadOfLane(a: seq<Entry>, b: seq<Entry>)
    requires a != [] && RanksAscend(b) && (b != [] ==> Rank(a[0]) < Rank(b[0]))
    ensures Lane(Rank(a[0]), a) != Lane(Rank(a[0]), b)
  {
    RankIsLane(a[0], Rank(a[0]));
    EmptyLane(Rank(a[0]), b);
  }

  lemma {:induction false} EmptyLane(rank: int, b: seq<Entry>)
    requires forall i :: 0 <= i < |b| ==> Rank(b[i]) > rank
    ensures Lane(rank, b) == []
    decreases |b|
  {
    if b != [] {
      RankIsLane(b[0], rank);
      EmptyLane(rank, b[1..]);
    }
  }

  // ---- the whole timeline

  function SortAll(blocks: seq<seq<Entry>>): (r: seq<seq<Entry>>)
    ensures |r| == |blocks|
  {
    seq(|blocks|, i requires 0 <= i < |blocks| => SortBlock(blocks[i]))
  }

  function Ordered(items: seq<Entry>): seq<Entry> {
    Join(SortAll(Blocks(items)))
  }

  lemma SortAllLast(front: seq<seq<Entry>>, b: seq<Entry>)
    ensures SortAll(front + [b]) == SortAll(front) + [SortBlock(b)]
  {
  }

  lemma OneMoreEntry(items: seq<Entry>, i: nat)
    requires i < |items|
    ensures i > 0 ==> Blocks(items[..i]) != []
    ensures
      Blocks(items[..i + 1])
      == if StartsBlock(items, i) then Blocks(items[..i]) + [[items[i]]] else WithLast(Blocks(items[..i]), items[i])
  {
    assert items[..i + 1][..i] == items[..i];
  }

  lemma OneMoreBlock(blocks: seq<seq<Entry>>, k: nat)
    requires k < |blocks|
    ensures Join(SortAll(blocks[..k + 1])) == Join(SortAll(blocks[..k])) + SortBlock(blocks[k])
  {
    assert blocks[..k + 1] == blocks[..k] + [blocks[k]];
    SortAllLast(blocks[..k], blocks[k]);
    JoinLast(SortAll(blocks[..k]), SortBlock(blocks[k]));
  }

  /** `orderTimeline`. */
  method OrderTimeline(items: seq<Entry>) returns (ordered: seq<Entry>)
    ensures ordered == Ordered(items)
  {
    var blocks: seq<seq<Entry>> := [];
    var hasBody := true;
    for i := 0 to |items|
      invariant blocks == Blocks(items[..i])
      invariant i > 0 ==> hasBody == !IsStep(items[i - 1])
    {
      var item := items[i];
      OneMoreEntry(items, i);
      var startsRound := IsStep(item);
      if blocks == [] || (startsRound && hasBody) {
        blocks := blocks + [[item]];
        hasBody := !startsRound;
        continue;
      }
      blocks := WithLast(blocks, item);
      if !startsRound {
        hasBody := true;
      }
    }
    assert items[..|items|] == items;
    ordered := [];
    for k := 0 to |blocks|
      invariant ordered == Join(SortAll(blocks[..k]))
    {
      OneMoreBlock(blocks, k);
      ordered := ordered + Items(R.Sort(RowLess, Rows(blocks[k])));
    }
    assert blocks[..|blocks|] == blocks;
  }

  lemma {:induction false} JoinKeepsItems(blocks: seq<seq<Entry>>)
    ensures multiset(Join(SortAll(blocks))) == multiset(Join(blocks))
    decreases |blocks|
  {
    if blocks != [] {
      var front, b := blocks[..|blocks| - 1], Last(blocks);
      assert blocks == front + [b];
      JoinKeepsItems(front);
      SortAllLast(front, b);
      JoinLast(SortAll(front), SortBlock(b));
      SortedBlock(b);
    }
  }

  /** The timeline shows every entry exactly once. */
  lemma OrderedIsPermutation(items: seq<Entry>)
    ensures multiset(Ordered(items)) == multiset(items)
  {
    JoinKeepsItems(Blocks(items));
    BlocksHoldTheItems(items);
  }

  lemma SortedFollows(front: seq<seq<Entry>>, b: seq<Entry>)
    requires Follows(front, b)
    requires front != [] ==> Last(front) != []
    ensures Follows(SortAll(front), SortBlock(b))
  {
    SortedBlock(b);
    SameSize(SortBlock(b), b);
    var s := SortBlock(b);
    forall j | 0 < j < |s| && IsStep(s[j]) ensures IsStep(s[j - 1]) {
      LowestIsStep(s[j - 1]);
      assert Rank(s[j - 1]) <= Rank(s[j]);
    }
    if front != [] {
      FirstStaysStep(b);
      LastStaysBody(Last(front));
      assert Last(SortAll(front)) == SortBlock(Last(front));
    }
  }

  lemma SameSize(s: seq<Entry>, t: seq<Entry>)
    requires multiset(s) == multiset(t)
    ensures |s| == |t|
  {
    assert |multiset(s)| == |multiset(t)|;
  }

  lemma LowestIsStep(e: Entry)
    ensures Rank(e) >= -1 && (IsStep(e) <==> Rank(e) == -1)
  {
  }

  lemma FirstStaysStep(b: seq<Entry>)
    requires b != [] && IsStep(b[0])
    ensures SortBlock(b) != [] && IsStep(SortBlock(b)[0])
  {
    var s := SortBlock(b);
    SortedBlock(b);
    SameSize(s, b);
    assert b[0] in multiset(s);
    var i :| 0 <= i < |s| && s[i] == b[0];
    LowestIsStep(s[0]);
    assert i > 0 ==> Rank(s[0]) <= Rank(s[i]);
  }

  lemma LastStaysBody(b: seq<Entry>)
    requires b != [] && !IsStep(Last(b))
    ensures SortBlock(b) != [] && !IsStep(Last(SortBlock(b)))
  {
    var s := SortBlock(b);
    SortedBlock(b);
    SameSize(s, b);
    assert Last(b) in multiset(s);
    var i :| 0 <= i < |s| && s[i] == Last(b);
    LowestIsStep(s[i]);
    assert i < |s| - 1 ==> Rank(s[i]) <= Rank(Last(s));
  }

  lemma {:induction false} SortedIsWellCut(blocks: seq<seq<Entry>>)
    requires WellCut(blocks)
    ensures WellCut(SortAll(blocks))
    decreases |blocks|
  {
    if blocks != [] {
      var front, b := blocks[..|blocks| - 1], Last(blocks);
      assert blocks == front + [b];
      SortedIsWellCut(front);
      SortedFollows(front, b);
      SortAllLast(front, b);
      WellCutLast(SortAll(front), SortBlock(b));
    }
  }

  /**
   * The blocks of the timeline are the sorted blocks of its input, in the same order; in each the
   * steps come first, then lane after lane, and each lane is in order of arrival.
   */
  lemma BlocksOfOrdered(items: seq<Entry>)
    ensures Blocks(Ordered(items)) == SortAll(Blocks(items))
    ensures |Blocks(Ordered(items))| == |Blocks(items)|
    ensures forall i :: 0 <= i < |Blocks(items)| ==>
      && multiset(Blocks(Ordered(items))[i]) == multiset(Blocks(items)[i])
      && LanesAscend(Blocks(Ordered(items))[i])
      && forall rank :: Lane(rank, Blocks(Ordered(items))[i]) == Lane(rank, Blocks(items)[i])
  {
    BlocksAreWellCut(items);
    SortedIsWellCut(Blocks(items));
    CutIsUnique(SortAll(Blocks(items)));
    forall i | 0 <= i < |Blocks(items)|
      ensures
        && multiset(SortAll(Blocks(items))[i]) == multiset(Blocks(items)[i])
        && LanesAscend(SortAll(Blocks(items))[i])
        && forall rank :: Lane(rank, SortAll(Blocks(items))[i]) == Lane(rank, Blocks(items)[i])
    {
      SortedBlock(Blocks(items)[i]);
    }
  }

  lemma OrderedIsIdempotent(items: seq<Entry>)
    ensures Ordered(Ordered(items)) == Ordered(items)
  {
    BlocksOfOrdered(items);
    var blocks := Blocks(items);
    forall i | 0 <= i < |blocks| ensures SortBlock(SortAll(blocks)[i]) == SortAll(blocks)[i] {
      SortedBlock(blocks[i]);
      SortedBlockStays(SortBlock(blocks[i]));
    }
    assert SortAll(SortAll(blocks)) == SortAll(blocks);
  }
}
