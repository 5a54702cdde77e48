/** Protocol counters and the queries over an analysed capture: every answer is a sorted prefix. */
module Query {
  import opened Options
  import opened Conversation
  import Decimal
  import R = Ranking

  datatype Layer = LLink | LVlan | LArp | LIpv4 | LIpv6 | LTcp | LUdp | LIcmp | LIcmpv6 | LDns | LHttp | LTls | LDhcp {
    /** Position in the declaration, which is how layers compare. */
    function Rank(): nat {
      match this
      case LLink => 0 case LVlan => 1 case LArp => 2 case LIpv4 => 3 case LIpv6 => 4 case LTcp => 5 case LUdp => 6
      case LIcmp => 7 case LIcmpv6 => 8 case LDns => 9 case LHttp => 10 case LTls => 11 case LDhcp => 12
    }
  }

  /** From the link up to the applications. */
  const LAYERS := [LLink, LVlan, LArp, LIpv4, LIpv6, LTcp, LUdp, LIcmp, LIcmpv6, LDns, LHttp, LTls, LDhcp]

  ghost predicate Before(x: Layer, y: Layer) {
    exists i, j :: 0 <= i < j < |LAYERS| && LAYERS[i] == x && LAYERS[j] == y
  }

  lemma LayersInOrder(x: Layer, y: Layer)
    ensures x.Rank() < y.Rank() ==> Before(x, y)
  {
    assert LAYERS[x.Rank()] == x && LAYERS[y.Rank()] == y;
  }

  datatype Bucket = Bucket(layer: Layer, protocol: string)
  datatype Tally = Tally(packets: nat, bytes: nat)
  datatype ProtocolCount = ProtocolCount(layer: Layer, protocol: string, packets: nat, bytes: nat)

  type Rows = map<Bucket, Tally>

  /** The first n elements, or all of them when there are fewer. */
  function Take<T>(s: seq<T>, n: nat): seq<T> {
    if n <= |s| then s[..n] else s
  }

  // ---- the two orders

  /** Most frequent first; equal counts by name. */
  predicate MoreFrequent(x: ProtocolCount, y: ProtocolCount) {
    x.packets > y.packets || (x.packets == y.packets && R.TextLess(x.protocol, y.protocol))
  }

  /** By layer, and inside a layer the most frequent first. */
  predicate LayerThenFrequent(x: ProtocolCount, y: ProtocolCount) {
    x.layer.Rank() < y.layer.Rank() || (x.layer == y.layer && MoreFrequent(x, y))
  }

  lemma OrdersAreStrict()
    ensures R.StrictOrder(MoreFrequent) && R.StrictOrder(LayerThenFrequent)
  {
    forall x: ProtocolCount
      ensures !MoreFrequent(x, x)
    {
      R.TextLessIsStrict(x.protocol);
    }
    forall x: ProtocolCount, y: ProtocolCount, z: ProtocolCount | MoreFrequent(x, y) && MoreFrequent(y, z)
      ensures MoreFrequent(x, z)
    {
      if x.packets == y.packets == z.packets {
        R.TextLessIsTransitive(x.protocol, y.protocol, z.protocol);
      }
    }
  }

  predicate InTable(rows: Rows, x: ProtocolCount) {
    Bucket(x.layer, x.protocol) in rows && rows[Bucket(x.layer, x.protocol)] == Tally(x.packets, x.bytes)
  }

  /** All rows of one layer, most frequent first. */
  ghost predicate IsRanking(full: seq<ProtocolCount>, rows: Rows, layer: Layer) {
    && R.Ascending(MoreFrequent, full)
    && forall x :: x in full <==> x.layer == layer && InTable(rows, x)
  }

  /** All rows, by layer and then most frequent first. */
  ghost predicate IsOverview(all: seq<ProtocolCount>, rows: Rows) {
    && R.Ascending(LayerThenFrequent, all)
    && forall x :: x in all <==> InTable(rows, x)
  }

  /** There is only one ranking and only one overview of a table. */
  lemma RankingsAreUnique(rows: Rows, layer: Layer, s: seq<ProtocolCount>, t: seq<ProtocolCount>)
    ensures IsRanking(s, rows, layer) && IsRanking(t, rows, layer) ==> s == t
    ensures IsOverview(s, rows) && IsOverview(t, rows) ==> s == t
  {
    OrdersAreStrict();
    if IsRanking(s, rows, layer) && IsRanking(t, rows, layer) {
      R.AscendingIsUnique(MoreFrequent, s, t);
    }
    if IsOverview(s, rows) && IsOverview(t, rows) {
      R.AscendingIsUnique(LayerThenFrequent, s, t);
    }
  }

  /** The overview restricted to one layer is that layer's ranking. */
  lemma OverviewContainsEveryRanking(all: seq<ProtocolCount>, rows: Rows, layer: Layer)
    requires IsOverview(all, rows)
    ensures IsRanking(R.Filter(all, (x: ProtocolCount) => x.layer == layer), rows, layer)
  {
    var ofLayer := (x: ProtocolCount) => x.layer == layer;
    var part := R.Filter(all, ofLayer);
    R.FilterKeepsAscending(LayerThenFrequent, all, ofLayer);
    forall i, j | 0 <= i < j < |part|
      ensures MoreFrequent(part[i], part[j])
    {
      assert part[i] in part && part[j] in part;
      assert LayerThenFrequent(part[i], part[j]);
    }
  }

  // ---- the counters

  datatype Added = Added(bucket: Bucket, bytes: nat)

  function Adds(log: seq<Added>, b: Bucket): nat {
    if log == [] then 0 else Adds(log[..|log| - 1], b) + if log[|log| - 1].bucket == b then 1 else 0
  }

  function AddedBytes(log: seq<Added>, b: Bucket): nat {
    if log == [] then 0
    else AddedBytes(log[..|log| - 1], b) + if log[|log| - 1].bucket == b then log[|log| - 1].bytes else 0
  }

  class ProtocolStats {
    var rows: Rows
    ghost var log: seq<Added>

    constructor ()
      ensures Valid() && log == []
    {
      rows, log := map[], [];
    }

    /** Every bucket shows the saturated numbers of what was added to it. */
    ghost predicate Valid()
      reads this
    {
      && (forall b :: b in rows <==> Adds(log, b) > 0)
      && (forall b :: b in rows ==>
            rows[b] == Tally(Saturate(Adds(log, b), U64_MAX), Saturate(AddedBytes(log, b), U64_MAX)))
    }

    method Add(layer: Layer, protocol: string, bytes: nat)
      requires Valid()
      modifies this
      ensures Valid() && log == old(log) + [Added(Bucket(layer, protocol), bytes)]
    {
      var b := Bucket(layer, protocol);
      log := log + [Added(b, bytes)];
      assert log[..|log| - 1] == old(log);
      var entry := if b in rows then rows[b] else Tally(0, 0);
      NothingAddedYet(old(log), b);
      rows := rows[b := Tally(Saturate(entry.packets + 1, U64_MAX), Saturate(entry.bytes + bytes, U64_MAX))];
    }

    method Count(layer: Layer, protocol: string) returns (n: nat)
      requires Valid()
      ensures n == Saturate(Adds(log, Bucket(layer, protocol)), U64_MAX)
    {
      var b := Bucket(layer, protocol);
      n := if b in rows then rows[b].packets else 0;
    }

    /** The rows whose bucket is wanted, in no particular order. */
    method Collect(wanted: Bucket -> bool) returns (r: seq<ProtocolCount>)
      ensures forall x :: x in r <==> wanted(Bucket(x.layer, x.protocol)) && InTable(rows, x)
      ensures forall i, j :: 0 <= i < j < |r| ==> Bucket(r[i].layer, r[i].protocol) != Bucket(r[j].layer, r[j].protocol)
    {
      r := [];
      var keys := rows.Keys;
      while keys != {}
        invariant keys <= rows.Keys
        invariant forall x :: x in r <==>
                    wanted(Bucket(x.layer, x.protocol)) && InTable(rows, x) && Bucket(x.layer, x.protocol) !in keys
        invariant forall i, j :: 0 <= i < j < |r| ==> Bucket(r[i].layer, r[i].protocol) != Bucket(r[j].layer, r[j].protocol)
        decreases |keys|
      {
        var b :| b in keys;
        keys := keys - {b};
        if wanted(b) {
          var row := ProtocolCount(b.layer, b.protocol, rows[b].packets, rows[b].bytes);
          forall i | 0 <= i < |r|
            ensures Bucket(r[i].layer, r[i].protocol) != b
          {
            assert r[i] in r;
          }
          r := r + [row];
        }
      }
    }

    /** The first `top` rows of the one ranking of a layer. */
    method Top(layer: Layer, top: nat) returns (r: seq<ProtocolCount>)
      ensures exists full :: IsRanking(full, rows, layer) && r == Take(full, top)
      ensures forall i, j :: 0 <= i < j < |r| ==>
                r[i].packets > r[j].packets || (r[i].packets == r[j].packets && R.TextLess(r[i].protocol, r[j].protocol))
    {
      var collected := Collect((b: Bucket) => b.layer == layer);
      OrdersAreStrict();
      forall i, j | 0 <= i < j < |collected|
        ensures MoreFrequent(collected[i], collected[j]) || MoreFrequent(collected[j], collected[i])
      {
        assert collected[i] in collected && collected[j] in collected;
        R.TextLessIsTotal(collected[i].protocol, collected[j].protocol);
      }
      R.SortSorts(MoreFrequent, collected);
      R.SortKeepsMembers(MoreFrequent, collected);
      var sorted := R.Sort(MoreFrequent, collected);
      assert IsRanking(sorted, rows, layer);
      r := Take(sorted, top);
    }

    /** The one overview of all rows. */
    method All() returns (r: seq<ProtocolCount>)
      ensures IsOverview(r, rows)
      ensures forall i, j :: 0 <= i < j < |r| ==>
                || Before(r[i].layer, r[j].layer)
                || (r[i].layer == r[j].layer
                    && (r[i].packets > r[j].packets
                        || (r[i].packets == r[j].packets && R.TextLess(r[i].protocol, r[j].protocol))))
    {
      var collected := Collect((b: Bucket) => true);
      OrdersAreStrict();
      forall i, j | 0 <= i < j < |collected|
        ensures LayerThenFrequent(collected[i], collected[j]) || LayerThenFrequent(collected[j], collected[i])
      {
        assert collected[i] in collected && collected[j] in collected;
        R.TextLessIsTotal(collected[i].protocol, collected[j].protocol);
      }
      R.SortSorts(LayerThenFrequent, collected);
      R.SortKeepsMembers(LayerThenFrequent, collected);
      r := R.Sort(LayerThenFrequent, collected);
      forall i, j | 0 <= i < j < |r| && r[i].layer.Rank() < r[j].layer.Rank()
        ensures Before(r[i].layer, r[j].layer)
      {
        LayersInOrder(r[i].layer, r[j].layer);
      }
    }
  }

  lemma {:induction false} NothingAddedYet(log: seq<Added>, b: Bucket)
    ensures Adds(log, b) == 0 ==> AddedBytes(log, b) == 0
  {
    if log != [] {
      NothingAddedYet(log[..|log| - 1], b);
    }
  }

  // ---- sessions

  /**
   A duration is compared as a floating-point number of seconds, which may make durations equal that
   differ: `seconds` says which point of their order a number of nanoseconds is rounded to.
   */
  datatype SessionSort = ByBytes | ByPackets | ByDuration(seconds: int -> int)

  /** A filter text that names no protocol or no address matches nothing: Some(None). */
  datatype SessionFilter = SessionFilter(
    protocol: Option<Option<TransportProto>>,
    ip: Option<Option<IpAddr>>,
    minBytes: Option<nat>,
    minPackets: Option<nat>)
  {
    predicate Matches(e: SessionEntry) {
      && (protocol.Some? ==> protocol.value == Some(e.key.proto))
      && (ip.Some? ==> ip.value.Some? && (e.key.a.ip == ip.value.value || e.key.b.ip == ip.value.value))
      && (minBytes.Some? ==> e.stats.bytes >= minBytes.value)
      && (minPackets.Some? ==> e.stats.packets >= minPackets.value)
    }
  }

  /** `S-{n:06}`. */
  function SessionId(n: nat): string {
    "S-" + Decimal.Pad(n, 6)
  }

  lemma SessionIdsDiffer(m: nat, n: nat)
    ensures SessionId(m) == SessionId(n) ==> m == n
  {
    Decimal.PadCanBeRead(m, 6);
    Decimal.PadCanBeRead(n, 6);
    if SessionId(m) == SessionId(n) {
      assert SessionId(m)[2..] == Decimal.Pad(m, 6) && SessionId(n)[2..] == Decimal.Pad(n, 6);
    }
  }

  function SortKey(sortBy: SessionSort, e: SessionEntry): int {
    match sortBy
    case ByBytes => e.stats.bytes
    case ByPackets => e.stats.packets
    case ByDuration(seconds) => seconds(Nanoseconds(e))
  }

  /** From the first packet to the last. */
  function Nanoseconds(e: SessionEntry): int {
    e.stats.lastTs - e.stats.firstTs
  }

  /** Largest first; equal sizes by the text of the id. */
  predicate Larger(sortBy: SessionSort, x: SessionEntry, y: SessionEntry) {
    var a, b := SortKey(sortBy, x), SortKey(sortBy, y);
    a > b || (a == b && R.TextLess(SessionId(x.id), SessionId(y.id)))
  }

  function LargerBy(sortBy: SessionSort): (SessionEntry, SessionEntry) -> bool {
    (x: SessionEntry, y: SessionEntry) => Larger(sortBy, x, y)
  }

  function Matcher(filter: SessionFilter): SessionEntry -> bool {
    (e: SessionEntry) => filter.Matches(e)
  }

  function Conversations(entries: seq<SessionEntry>, filter: SessionFilter, sortBy: SessionSort, limit: nat): seq<SessionEntry> {
    Take(R.Sort(LargerBy(sortBy), R.Filter(entries, Matcher(filter))), if limit == 0 then 20 else limit)
  }

  lemma LargerIsStrict(sortBy: SessionSort)
    ensures R.StrictOrder(LargerBy(sortBy))
  {
    var less := LargerBy(sortBy);
    forall x: SessionEntry
      ensures !less(x, x)
    {
      R.TextLessIsStrict(SessionId(x.id));
    }
    forall x: SessionEntry, y: SessionEntry, z: SessionEntry | less(x, y) && less(y, z)
      ensures less(x, z)
    {
      if SortKey(sortBy, x) == SortKey(sortBy, y) == SortKey(sortBy, z) {
        R.TextLessIsTransitive(SessionId(x.id), SessionId(y.id), SessionId(z.id));
      }
    }
  }

  /** The session has the protocol and one of the addresses asked for, and is large enough. */
  predicate Wanted(f: SessionFilter, e: SessionEntry) {
    && f.protocol in {None, Some(Some(e.key.proto))}
    && f.ip in {None, Some(Some(e.key.a.ip)), Some(Some(e.key.b.ip))}
    && (f.minBytes == None || f.minBytes.value <= e.stats.bytes)
    && (f.minPackets == None || f.minPackets.value <= e.stats.packets)
  }

  /** By what is asked for, the larger session is ahead; of two equal ones the one with the smaller id text. */
  predicate Ahead(sortBy: SessionSort, x: SessionEntry, y: SessionEntry) {
    var byId := R.TextLess("S-" + Decimal.Pad(x.id, 6), "S-" + Decimal.Pad(y.id, 6));
    match sortBy
    case ByBytes => x.stats.bytes > y.stats.bytes || (x.stats.bytes == y.stats.bytes && byId)
    case ByPackets => x.stats.packets > y.stats.packets || (x.stats.packets == y.stats.packets && byId)
    case ByDuration(seconds) =>
      var a, b := seconds(x.stats.lastTs - x.stats.firstTs), seconds(y.stats.lastTs - y.stats.firstTs);
      a > b || (a == b && byId)
  }

  /**
   The answer holds wanted sessions only, the largest first, at most `limit` (20 when that is 0)
   of them; a wanted session is missing only if the answer is full and everything in it is ahead.
   */
  lemma ConversationsAreTheLargest(entries: seq<SessionEntry>, filter: SessionFilter, sortBy: SessionSort, limit: nat)
    requires forall i, j :: 0 <= i < j < |entries| ==> entries[i].id != entries[j].id
    ensures
      var r := Conversations(entries, filter, sortBy, limit);
      var cap := if limit == 0 then 20 else limit;
      && (forall i, j :: 0 <= i < j < |r| ==> Ahead(sortBy, r[i], r[j]))
      && |r| <= cap
      && (forall e :: e in r ==> e in entries && Wanted(filter, e))
      && (forall e :: e in entries && Wanted(filter, e) && e !in r ==>
            |r| == cap && forall f :: f in r ==> Ahead(sortBy, f, e))
  {
    var less, matches := LargerBy(sortBy), Matcher(filter);
    forall e: SessionEntry
      ensures matches(e) <==> Wanted(filter, e)
    {
    }
    forall x: SessionEntry, y: SessionEntry
      ensures less(x, y) <==> Ahead(sortBy, x, y)
    {
    }
    LargerIsStrict(sortBy);
    DistinctIdsAreLinear(entries, sortBy);
    var found := R.Filter(entries, matches);
    R.FilterKeepsLinear(less, entries, matches);
    R.SortSorts(less, found);
    R.SortKeepsMembers(less, found);
    TakeOfAscending(less, R.Sort(less, found), if limit == 0 then 20 else limit);
  }

  lemma DistinctIdsAreLinear(entries: seq<SessionEntry>, sortBy: SessionSort)
    requires forall i, j :: 0 <= i < j < |entries| ==> entries[i].id != entries[j].id
    ensures R.Linear(LargerBy(sortBy), entries)
  {
    forall i, j | 0 <= i < j < |entries|
      ensures LargerBy(sortBy)(entries[i], entries[j]) || LargerBy(sortBy)(entries[j], entries[i])
    {
      SessionIdsDiffer(entries[i].id, entries[j].id);
      R.TextLessIsTotal(SessionId(entries[i].id), SessionId(entries[j].id));
    }
  }

  /** What a prefix of an ascending sequence leaves out comes after everything it keeps. */
  lemma TakeOfAscending<T(!new)>(less: (T, T) -> bool, s: seq<T>, n: nat)
    requires R.Ascending(less, s)
    ensures R.Ascending(less, Take(s, n)) && |Take(s, n)| <= n
    ensures forall x :: x in Take(s, n) ==> x in s
    ensures forall x :: x in s && x !in Take(s, n) ==> |Take(s, n)| == n && forall y :: y in Take(s, n) ==> less(y, x)
  {
    assert forall i :: 0 <= i < |s| && i < n ==> Take(s, n)[i] == s[i];
    forall x | x in s && x !in Take(s, n)
      ensures |Take(s, n)| == n && forall y :: y in Take(s, n) ==> less(y, x)
    {
      var i :| 0 <= i < |s| && s[i] == x;
    }
  }

  // ---- packets

  /** The positions of the matching packets, in capture order. */
  function Matching<P>(packets: seq<P>, matches: P -> bool): seq<nat> {
    if packets == [] then []
    else
      var n := |packets| - 1;
      Matching(packets[..n], matches) + if matches(packets[n]) then [n] else []
  }

  lemma {:induction false} MatchingIsExact<P>(packets: seq<P>, matches: P -> bool)
    ensures forall i: int :: i in Matching(packets, matches) <==> 0 <= i < |packets| && matches(packets[i])
    ensures forall i, j :: 0 <= i < j < |Matching(packets, matches)| ==>
              Matching(packets, matches)[i] < Matching(packets, matches)[j]
  {
    if packets != [] {
      var n := |packets| - 1;
      var before := Matching(packets[..n], matches);
      MatchingIsExact(packets[..n], matches);
      forall i | 0 <= i < |before|
        ensures before[i] < n
      {
        assert before[i] in before;
      }
    }
  }

  lemma {:induction false} MatchingOfPrefix<P>(packets: seq<P>, matches: P -> bool, n: nat)
    requires n <= |packets|
    ensures Matching(packets[..n], matches) <= Matching(packets, matches)
  {
    if n < |packets| {
      MatchingOfPrefix(packets[..|packets| - 1], matches, n);
      assert packets[..|packets| - 1][..n] == packets[..n];
    } else {
      assert packets[..n] == packets;
    }
  }

  /** The first `limit` matches (one when `limit` is 0); the scan stops once it has them. */
  method FilterPackets<P>(packets: seq<P>, matches: P -> bool, limit: nat) returns (r: seq<nat>)
    ensures r == Take(Matching(packets, matches), if limit == 0 then 1 else limit)
  {
    var cap := if limit == 0 then 1 else limit;
    r := [];
    for i := 0 to |packets|
      invariant r == Matching(packets[..i], matches)
      invariant |r| < cap
    {
      assert packets[..i + 1][..i] == packets[..i];
      if matches(packets[i]) {
        r := r + [i];
        if |r| >= cap {
          MatchingOfPrefix(packets, matches, i + 1);
          return;
        }
      }
    }
    assert packets[..|packets|] == packets;
  }
}
