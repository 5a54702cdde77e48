/** Session aggregation: an incremental table that agrees with a fold over the packets of each session. */
module Conversation {
  import opened Options

  const U64_MAX: nat := 0xFFFF_FFFF_FFFF_FFFF
  const U32_MAX: nat := 0xFFFF_FFFF

  /** What a saturating counter shows for a true value. */
  function Saturate(n: nat, max: nat): nat {
    if n <= max then n else max
  }

  // ---- addresses and keys

  datatype IpAddr = V4(bits: nat) | V6(bits: nat)

  datatype Endpoint = Endpoint(ip: IpAddr, port: nat)

  datatype TransportProto = Tcp | Udp

  /** Every V4 address sorts before every V6 address. */
  predicate IpLess(x: IpAddr, y: IpAddr) {
    (x.V4? && y.V6?) || (x.V4? == y.V4? && x.bits < y.bits)
  }

  /** Address first, then port. */
  predicate AtMost(x: Endpoint, y: Endpoint) {
    IpLess(x.ip, y.ip) || (x.ip == y.ip && x.port <= y.port)
  }

  datatype SessionKey = SessionKey(proto: TransportProto, a: Endpoint, b: Endpoint) {
    function OtherEndpoint(e: Endpoint): Endpoint {
      if e == a then b else a
    }
  }

  function Canonicalize(proto: TransportProto, src: Endpoint, dst: Endpoint): (key: SessionKey)
    ensures AtMost(key.a, key.b) && key.proto == proto
    ensures {key.a, key.b} == {src, dst} && multiset{key.a, key.b} == multiset{src, dst}
  {
    if AtMost(src, dst) then SessionKey(proto, src, dst) else SessionKey(proto, dst, src)
  }

  /** The smaller endpoint comes first: IPv4 before IPv6, then by address, then by port. */
  lemma SmallerFirst(proto: TransportProto, x: Endpoint, y: Endpoint)
    ensures
      var key := Canonicalize(proto, x, y);
      && (x.ip.V4? && y.ip.V6? ==> key.a == x && key.b == y)
      && (x.ip.V4? && y.ip.V4? && x.ip.bits < y.ip.bits ==> key.a == x && key.b == y)
      && (x.ip.V6? && y.ip.V6? && x.ip.bits < y.ip.bits ==> key.a == x && key.b == y)
      && (x.ip == y.ip && x.port < y.port ==> key.a == x && key.b == y)
    ensures Canonicalize(proto, x, y) == Canonicalize(proto, y, x)
  {
    KeysIgnoreDirection(proto, x, y, proto, y, x);
  }

  /** Two packets share a key exactly when they use one protocol between the same two endpoints, in either direction. */
  lemma KeysIgnoreDirection(p: TransportProto, s: Endpoint, d: Endpoint, p': TransportProto, s': Endpoint, d': Endpoint)
    ensures Canonicalize(p, s, d) == Canonicalize(p', s', d') <==>
            p == p' && ((s == s' && d == d') || (s == d' && d == s'))
  {
    if Canonicalize(p, s, d) == Canonicalize(p', s', d') {
      assert (s, d) == (Canonicalize(p, s, d).a, Canonicalize(p, s, d).b)
             || (d, s) == (Canonicalize(p, s, d).a, Canonicalize(p, s, d).b);
    }
  }

  /** From one endpoint of a key one gets to the other and back. */
  lemma OtherEndpointSwaps(p: TransportProto, s: Endpoint, d: Endpoint)
    ensures Canonicalize(p, s, d).OtherEndpoint(s) == d && Canonicalize(p, s, d).OtherEndpoint(d) == s
  {
  }

  // ---- packets

  datatype TcpFlag = Fin | Syn | Rst | Psh | Ack | Urg | Ece | Cwr
  datatype NetProto = NetTcp | NetUdp | NetOther
  datatype AppProto = Dns | Http | Tls | OtherApp | UnknownApp

  /** Addresses are None when their text does not parse. */
  datatype Network = Network(src: Option<IpAddr>, dst: Option<IpAddr>, protocol: NetProto)
  datatype Transport = Transport(srcPort: Option<nat>, dstPort: Option<nat>, flags: set<TcpFlag>)

  datatype Packet = Packet(
    ts: int,
    interfaceId: nat,
    capturedLen: nat,
    vlan: Option<nat>,
    network: Option<Network>,
    transport: Option<Transport>,
    app: Option<AppProto>)
  {
    predicate IsBareSyn() { transport.Some? && Syn in transport.value.flags && Ack !in transport.value.flags }
    predicate IsSynAck() { transport.Some? && Syn in transport.value.flags && Ack in transport.value.flags }
    predicate HasRst() { transport.Some? && Rst in transport.value.flags }
    predicate HasFin() { transport.Some? && Fin in transport.value.flags }

    /** The application protocol when one was recognised. */
    function KnownApp(): Option<AppProto> {
      if app == Some(UnknownApp) then None else app
    }

    function Key(): Option<SessionKey> {
      if network.None? || transport.None? || network.value.src.None? || network.value.dst.None? then None
      else
        var src := Endpoint(network.value.src.value, PortOr0(transport.value.srcPort));
        var dst := Endpoint(network.value.dst.value, PortOr0(transport.value.dstPort));
        match network.value.protocol
        case NetTcp => Some(Canonicalize(Tcp, src, dst))
        case NetUdp => Some(Canonicalize(Udp, src, dst))
        case NetOther => None
    }

    /** Who sent a packet that belongs to a session. */
    function Sender(): (e: Endpoint)
      requires Key().Some?
      ensures e == Key().value.a || e == Key().value.b
    {
      Endpoint(network.value.src.value, PortOr0(transport.value.srcPort))
    }

    predicate FromA() {
      Key().Some? && Sender() == Key().value.a
    }

    predicate FromB() {
      Key().Some? && Sender() != Key().value.a
    }
  }

  function PortOr0(port: Option<nat>): nat {
    if port.Some? then port.value else 0
  }

  // ---- sessions by the fields of a packet

  /** A port that is missing counts as port 0. */
  predicate IsPort(port: Option<nat>, n: nat) {
    port == Some(n) || (port == None && n == 0)
  }

  predicate SamePort(x: Option<nat>, y: Option<nat>) {
    x == y || (x in {None, Some(0)} && y in {None, Some(0)})
  }

  predicate SentFrom(p: Packet, e: Endpoint) {
    p.network.Some? && p.transport.Some? && p.network.value.src == Some(e.ip) && IsPort(p.transport.value.srcPort, e.port)
  }

  predicate SentTo(p: Packet, e: Endpoint) {
    p.network.Some? && p.transport.Some? && p.network.value.dst == Some(e.ip) && IsPort(p.transport.value.dstPort, e.port)
  }

  predicate Speaks(p: Packet, proto: TransportProto) {
    p.network.Some? && p.network.value.protocol == if proto == Tcp then NetTcp else NetUdp
  }

  /** The packet went from one endpoint of the key to the other; the smaller one is `a`. */
  predicate Between(p: Packet, key: SessionKey) {
    && AtMost(key.a, key.b) && Speaks(p, key.proto)
    && ((SentFrom(p, key.a) && SentTo(p, key.b)) || (SentFrom(p, key.b) && SentTo(p, key.a)))
  }

  /** Both addresses are known, and it is TCP or UDP. */
  predicate HasSession(p: Packet) {
    && p.transport.Some? && p.network.Some? && p.network.value.src != None && p.network.value.dst != None
    && (p.network.value.protocol == NetTcp || p.network.value.protocol == NetUdp)
  }

  predicate HasFlag(p: Packet, flag: TcpFlag) {
    p.transport.Some? && flag in p.transport.value.flags
  }

  /** A SYN without an ACK. */
  predicate Opens(p: Packet) {
    HasFlag(p, Syn) && !HasFlag(p, Ack)
  }

  /** The two ends of a packet, whatever they are. */
  predicate Ends(p: Packet, src: Endpoint, dst: Endpoint) {
    SentFrom(p, src) && SentTo(p, dst)
  }

  lemma KeyOfEnds(p: Packet, src: Endpoint, dst: Endpoint, proto: TransportProto)
    requires Ends(p, src, dst) && Speaks(p, proto)
    ensures p.Key() == Some(Canonicalize(proto, src, dst)) && p.Sender() == src
  {
  }

  lemma EndsOfKeyed(p: Packet) returns (src: Endpoint, dst: Endpoint, proto: TransportProto)
    requires HasSession(p)
    ensures Ends(p, src, dst) && Speaks(p, proto)
  {
    src := Endpoint(p.network.value.src.value, PortOr0(p.transport.value.srcPort));
    dst := Endpoint(p.network.value.dst.value, PortOr0(p.transport.value.dstPort));
    proto := if p.network.value.protocol == NetTcp then Tcp else Udp;
  }

  lemma BetweenEnds(p: Packet, key: SessionKey, src: Endpoint, dst: Endpoint, proto: TransportProto)
    requires Ends(p, src, dst) && Speaks(p, proto)
    ensures Between(p, key) <==> key == Canonicalize(proto, src, dst)
    ensures SentFrom(p, key.a) <==> key.a == src
  {
  }

  /** A packet belongs to a session exactly when its fields say so, and it comes from the side they name. */
  lemma KeyIsBetween(p: Packet, key: SessionKey)
    ensures p.Key() == Some(key) <==> Between(p, key)
    ensures p.Key().Some? <==> HasSession(p)
    ensures p.Key() == Some(key) ==> (p.FromA() <==> SentFrom(p, key.a)) && (p.FromB() <==> !SentFrom(p, key.a))
  {
    if HasSession(p) {
      var src, dst, proto := EndsOfKeyed(p);
      KeyOfEnds(p, src, dst, proto);
      BetweenEnds(p, key, src, dst, proto);
    }
  }

  /** The two ends of one packet are those of the other, either way round. */
  predicate SameEnds(p: Packet, q: Packet)
    requires HasSession(p) && HasSession(q)
  {
    var pn, qn, pt, qt := p.network.value, q.network.value, p.transport.value, q.transport.value;
    || (pn.src == qn.src && pn.dst == qn.dst && SamePort(pt.srcPort, qt.srcPort) && SamePort(pt.dstPort, qt.dstPort))
    || (pn.src == qn.dst && pn.dst == qn.src && SamePort(pt.srcPort, qt.dstPort) && SamePort(pt.dstPort, qt.srcPort))
  }

  predicate InOneSession(p: Packet, q: Packet) {
    HasSession(p) && HasSession(q) && p.network.value.protocol == q.network.value.protocol && SameEnds(p, q)
  }

  /** Two packets belong to one session exactly when they use one protocol between the same two ends. */
  lemma SharedSession(p: Packet, q: Packet)
    requires HasSession(p) && HasSession(q)
    ensures p.Key().Some? && q.Key().Some?
    ensures p.Key() == q.Key() <==> InOneSession(p, q)
  {
    var s, d, proto := EndsOfKeyed(p);
    var s', d', proto' := EndsOfKeyed(q);
    KeyOfEnds(p, s, d, proto);
    KeyOfEnds(q, s', d', proto');
    KeysIgnoreDirection(proto, s, d, proto', s', d');
    SameEndsAre(p, q, s, d, s', d');
  }

  lemma SameEndsAre(p: Packet, q: Packet, s: Endpoint, d: Endpoint, s': Endpoint, d': Endpoint)
    requires HasSession(p) && HasSession(q) && Ends(p, s, d) && Ends(q, s', d')
    ensures SameEnds(p, q) <==> (s == s' && d == d') || (s == d' && d == s')
  {
  }

  /** Sent back the other way. */
  predicate Replies(q: Packet, p: Packet)
    requires HasSession(p) && HasSession(q)
  {
    && q.network.value.src == p.network.value.dst && q.network.value.dst == p.network.value.src
    && q.transport.value.srcPort == p.transport.value.dstPort && q.transport.value.dstPort == p.transport.value.srcPort
    && q.network.value.protocol == p.network.value.protocol
  }

  predicate ToItself(p: Packet)
    requires HasSession(p)
  {
    p.network.value.src == p.network.value.dst && SamePort(p.transport.value.srcPort, p.transport.value.dstPort)
  }

  /** A reply belongs to the session of the packet it answers, and comes from its other side. */
  lemma ReplyComesFromTheOtherSide(p: Packet, q: Packet)
    requires HasSession(p) && HasSession(q) && Replies(q, p)
    ensures p.Key() == q.Key() && p.Key().Some?
    ensures ToItself(p) ==> p.FromA() && q.FromA()
    ensures !ToItself(p) ==> (p.FromA() <==> q.FromB()) && (p.FromB() <==> q.FromA())
  {
    SharedSession(p, q);
    KeyIsBetween(p, p.Key().value);
    KeyIsBetween(q, p.Key().value);
  }

  // ---- entries

  datatype StreamState = New | Active | HalfClosed | Closed | Incomplete | BufferOverflow
  datatype SegmentVerdict = InOrder | Buffered | Retransmission | PartialOverlap | Dropped
  datatype ClientSide = A | B
  datatype DirectionBasis = SynFirst | FirstSeen

  datatype Stats = Stats(
    firstTs: int,
    lastTs: int,
    packets: nat,
    bytes: nat,
    srcPackets: nat,
    dstPackets: nat,
    srcBytes: nat,
    dstBytes: nat,
    synCount: nat,
    synAckCount: nat,
    rstCount: nat,
    finCount: nat,
    retransmissions: nat,
    outOfOrder: nat,
    state: StreamState,
    app: Option<AppProto>)

  datatype SessionEntry = SessionEntry(
    id: nat,
    key: SessionKey,
    stats: Stats,
    client: ClientSide,
    basis: DirectionBasis,
    interfaceId: nat,
    vlan: Option<nat>)

  // ---- the reference: what an entry should say about a session's packets

  predicate OfKey(ps: seq<Packet>, key: SessionKey) {
    forall i :: 0 <= i < |ps| ==> ps[i].Key() == Some(key)
  }

  function Count(ps: seq<Packet>, p: Packet -> bool): (n: nat)
    ensures n <= |ps|
  {
    if ps == [] then 0 else Count(ps[..|ps| - 1], p) + if p(ps[|ps| - 1]) then 1 else 0
  }

  function Bytes(ps: seq<Packet>, p: Packet -> bool): nat {
    if ps == [] then 0 else Bytes(ps[..|ps| - 1], p) + if p(ps[|ps| - 1]) then ps[|ps| - 1].capturedLen else 0
  }

  function MinTs(ps: seq<Packet>): int
    requires ps != []
  {
    if |ps| == 1 then ps[0].ts
    else var t := MinTs(ps[..|ps| - 1]); if ps[|ps| - 1].ts < t then ps[|ps| - 1].ts else t
  }

  function MaxTs(ps: seq<Packet>): int
    requires ps != []
  {
    if |ps| == 1 then ps[0].ts
    else var t := MaxTs(ps[..|ps| - 1]); if ps[|ps| - 1].ts > t then ps[|ps| - 1].ts else t
  }

  lemma {:induction false} TimesAreExtremes(ps: seq<Packet>)
    requires ps != []
    ensures forall i :: 0 <= i < |ps| ==> MinTs(ps) <= ps[i].ts <= MaxTs(ps)
    ensures exists i :: 0 <= i < |ps| && ps[i].ts == MinTs(ps)
    ensures exists i :: 0 <= i < |ps| && ps[i].ts == MaxTs(ps)
  {
    var init, last := ps[..|ps| - 1], ps[|ps| - 1];
    assert ps[|ps| - 1].ts == last.ts;
    if init != [] {
      TimesAreExtremes(init);
      var i :| 0 <= i < |init| && init[i].ts == MinTs(init);
      var j :| 0 <= j < |init| && init[j].ts == MaxTs(init);
      assert ps[i] == init[i] && ps[j] == init[j];
    }
  }

  /** Position of the last bare SYN, or -1. */
  function LastBareSyn(ps: seq<Packet>): (i: int)
    ensures -1 <= i < |ps|
  {
    if ps == [] then -1
    else if Opens(ps[|ps| - 1]) then |ps| - 1
    else LastBareSyn(ps[..|ps| - 1])
  }

  lemma {:induction false} LastBareSynIsLast(ps: seq<Packet>)
    ensures LastBareSyn(ps) >= 0 ==> Opens(ps[LastBareSyn(ps)])
    ensures forall j :: LastBareSyn(ps) < j < |ps| ==> !Opens(ps[j])
  {
    if ps != [] {
      LastBareSynIsLast(ps[..|ps| - 1]);
    }
  }

  /** The first recognised application protocol. */
  function FirstApp(ps: seq<Packet>): Option<AppProto> {
    if ps == [] then None
    else if ps[0].app != None && ps[0].app != Some(UnknownApp) then ps[0].app
    else FirstApp(ps[1..])
  }

  function VerdictCount(vs: seq<SegmentVerdict>, v: SegmentVerdict): nat {
    if vs == [] then 0 else VerdictCount(vs[..|vs| - 1], v) + if vs[|vs| - 1] == v then 1 else 0
  }

  /** Everything that happened to one session: its packets, and what the reassembler said once it existed. */
  datatype History = History(packets: seq<Packet>, verdicts: seq<SegmentVerdict>, state: StreamState)

  function AllOf(): Packet -> bool { (p: Packet) => true }
  function SentByA(key: SessionKey): Packet -> bool { (p: Packet) => SentFrom(p, key.a) }
  function SentByB(key: SessionKey): Packet -> bool { (p: Packet) => !SentFrom(p, key.a) }
  function BareSyns(): Packet -> bool { (p: Packet) => Opens(p) }
  function SynAcks(): Packet -> bool { (p: Packet) => HasFlag(p, Syn) && HasFlag(p, Ack) }
  function Rsts(): Packet -> bool { (p: Packet) => HasFlag(p, Rst) }
  function Fins(): Packet -> bool { (p: Packet) => HasFlag(p, Fin) }

  /** The entry a session with this history must have. */
  function Summary(h: History, id: nat, key: SessionKey): SessionEntry
    requires h.packets != []
  {
    var ps := h.packets;
    var syn := LastBareSyn(ps);
    SessionEntry(
      id, key,
      Stats(
        MinTs(ps), MaxTs(ps),
        Saturate(|ps|, U64_MAX), Saturate(Bytes(ps, AllOf()), U64_MAX),
        Saturate(Count(ps, SentByA(key)), U64_MAX), Saturate(Count(ps, SentByB(key)), U64_MAX),
        Saturate(Bytes(ps, SentByA(key)), U64_MAX), Saturate(Bytes(ps, SentByB(key)), U64_MAX),
        Saturate(Count(ps, BareSyns()), U32_MAX), Saturate(Count(ps, SynAcks()), U32_MAX),
        Saturate(Count(ps, Rsts()), U32_MAX), Saturate(Count(ps, Fins()), U32_MAX),
        Saturate(VerdictCount(h.verdicts, Retransmission), U32_MAX),
        Saturate(VerdictCount(h.verdicts, Buffered), U32_MAX),
        h.state, FirstApp(ps)),
      if SentFrom(if syn >= 0 then ps[syn] else ps[0], key.a) then A else B,
      if syn >= 0 then SynFirst else FirstSeen,
      ps[0].interfaceId, ps[0].vlan)
  }

  // ---- what was done to the table, and what that means for one key

  datatype Action = Observed(packet: Packet) | Judged(key: SessionKey, verdict: SegmentVerdict)
                  | Stated(key: SessionKey, state: StreamState)

  /** A remark about a session that does not exist yet is lost. */
  function Continued(h: History, a: Action, key: SessionKey): History {
    match a
    case Observed(p) => if p.Key() == Some(key) then h.(packets := h.packets + [p]) else h
    case Judged(k, v) => if k == key && h.packets != [] then h.(verdicts := h.verdicts + [v]) else h
    case Stated(k, s) => if k == key && h.packets != [] then h.(state := s) else h
  }

  function HistoryOf(log: seq<Action>, key: SessionKey): History {
    if log == [] then History([], [], New) else Continued(HistoryOf(log[..|log| - 1], key), log[|log| - 1], key)
  }

  lemma {:induction false} HistoryIsOfKey(log: seq<Action>, key: SessionKey)
    ensures OfKey(HistoryOf(log, key).packets, key)
  {
    if log != [] {
      HistoryIsOfKey(log[..|log| - 1], key);
    }
  }

  /** The keys of all observed packets, each once, in the order of their first packet. */
  function FirstSeenOrder(log: seq<Action>): seq<SessionKey> {
    if log == [] then []
    else
      var order := FirstSeenOrder(log[..|log| - 1]);
      var last := log[|log| - 1];
      if last.Observed? && last.packet.Key().Some? && last.packet.Key().value !in order
      then order + [last.packet.Key().value] else order
  }

  /** Number of observed packets that belong to some session. */
  function Keyed(log: seq<Action>): nat {
    if log == [] then 0
    else Keyed(log[..|log| - 1]) + if log[|log| - 1].Observed? && log[|log| - 1].packet.Key().Some? then 1 else 0
  }

  predicate Distinct(keys: seq<SessionKey>) {
    forall i, j :: 0 <= i < j < |keys| ==> keys[i] != keys[j]
  }

  lemma {:induction false} OrderIsExact(log: seq<Action>)
    ensures Distinct(FirstSeenOrder(log))
    ensures forall key :: key in FirstSeenOrder(log) <==> HistoryOf(log, key).packets != []
  {
    if log != [] {
      OrderIsExact(log[..|log| - 1]);
    }
  }

  /** An earlier packet belongs to the same session. */
  ghost predicate Seen(log: seq<Action>, p: Packet) {
    exists i :: 0 <= i < |log| && log[i].Observed? && InOneSession(log[i].packet, p)
  }

  lemma {:induction false} SeenIsKnown(log: seq<Action>, p: Packet)
    requires p.Key().Some?
    ensures Seen(log, p) <==> p.Key().value in FirstSeenOrder(log)
  {
    KeyIsBetween(p, p.Key().value);
    if log != [] {
      var init, last := log[..|log| - 1], log[|log| - 1];
      SeenIsKnown(init, p);
      if last.Observed? {
        KeyIsBetween(last.packet, p.Key().value);
        if HasSession(last.packet) {
          SharedSession(last.packet, p);
        }
      }
      SeenBefore(log, p);
    }
  }

  lemma SeenBefore(log: seq<Action>, p: Packet)
    requires log != []
    ensures
      var last := log[|log| - 1];
      Seen(log, p) <==> Seen(log[..|log| - 1], p) || (last.Observed? && InOneSession(last.packet, p))
  {
    var init := log[..|log| - 1];
    if Seen(init, p) {
      var i :| 0 <= i < |init| && init[i].Observed? && InOneSession(init[i].packet, p);
      assert log[i] == init[i];
    }
    if Seen(log, p) {
      var i :| 0 <= i < |log| && log[i].Observed? && InOneSession(log[i].packet, p);
      assert i < |init| ==> init[i] == log[i];
    }
  }

  /** Packets of the sessions in `keys`, added up. */
  function Total(log: seq<Action>, keys: seq<SessionKey>): nat {
    if keys == [] then 0
    else Total(log, keys[..|keys| - 1]) + |HistoryOf(log, keys[|keys| - 1]).packets|
  }

  lemma {:induction false} TotalAfterOneMore(log: seq<Action>, p: Packet, keys: seq<SessionKey>)
    requires Distinct(keys)
    ensures Total(log + [Observed(p)], keys) ==
            Total(log, keys) + if p.Key().Some? && p.Key().value in keys then 1 else 0
  {
    if keys != [] {
      var init, last := keys[..|keys| - 1], keys[|keys| - 1];
      TotalAfterOneMore(log, p, init);
      assert keys == init + [last];
      assert (log + [Observed(p)])[..|log|] == log;
    }
  }

  lemma {:induction false} TotalUnchanged(log: seq<Action>, a: Action, keys: seq<SessionKey>)
    requires !a.Observed?
    ensures Total(log + [a], keys) == Total(log, keys)
  {
    if keys != [] {
      TotalUnchanged(log, a, keys[..|keys| - 1]);
      assert (log + [a])[..|log|] == log;
    }
  }

  /** Every packet that belongs to a session is counted in exactly one session. */
  lemma {:induction false} SessionsPartitionThePackets(log: seq<Action>)
    ensures Total(log, FirstSeenOrder(log)) == Keyed(log)
  {
    if log != [] {
      var init, last := log[..|log| - 1], log[|log| - 1];
      SessionsPartitionThePackets(init);
      OrderIsExact(init);
      assert log == init + [last];
      var order := FirstSeenOrder(init);
      if last.Observed? {
        TotalAfterOneMore(init, last.packet, order);
        if FirstSeenOrder(log) != order {
          var key := last.packet.Key().value;
          assert (order + [key])[..|order|] == order;
          assert HistoryOf(init, key).packets == [];
        }
      } else {
        TotalUnchanged(init, last, order);
      }
    }
  }

  // ---- one more packet, seen from the reference

  lemma {:induction false} FirstAppOfExtension(ps: seq<Packet>, p: Packet)
    ensures FirstApp(ps + [p]) == if FirstApp(ps).Some? then FirstApp(ps) else p.KnownApp()
  {
    if ps == [] {
      assert ps + [p] == [p];
    } else {
      FirstAppOfExtension(ps[1..], p);
      assert (ps + [p])[1..] == ps[1..] + [p];
    }
  }

  lemma ExtremesOfExtension(ps: seq<Packet>, p: Packet)
    ensures LastBareSyn(ps + [p]) == if p.IsBareSyn() then |ps| else LastBareSyn(ps)
    ensures ps != [] ==> MinTs(ps + [p]) == (if p.ts < MinTs(ps) then p.ts else MinTs(ps))
                         && MaxTs(ps + [p]) == (if p.ts > MaxTs(ps) then p.ts else MaxTs(ps))
  {
    assert (ps + [p])[..|ps|] == ps;
  }

  lemma CountsOfExtension(ps: seq<Packet>, p: Packet, f: Packet -> bool)
    ensures Count(ps + [p], f) == Count(ps, f) + if f(p) then 1 else 0
    ensures Bytes(ps + [p], f) == Bytes(ps, f) + if f(p) then p.capturedLen else 0
  {
    assert (ps + [p])[..|ps|] == ps;
  }

  lemma AllCountsOfExtension(ps: seq<Packet>, p: Packet, key: SessionKey)
    requires p.Key() == Some(key)
    ensures
      var qs := ps + [p];
      && Bytes(qs, AllOf()) == Bytes(ps, AllOf()) + p.capturedLen
      && Count(qs, SentByA(key)) == Count(ps, SentByA(key)) + (if p.FromA() then 1 else 0)
      && Count(qs, SentByB(key)) == Count(ps, SentByB(key)) + (if p.FromA() then 0 else 1)
      && Bytes(qs, SentByA(key)) == Bytes(ps, SentByA(key)) + (if p.FromA() then p.capturedLen else 0)
      && Bytes(qs, SentByB(key)) == Bytes(ps, SentByB(key)) + (if p.FromA() then 0 else p.capturedLen)
      && Count(qs, BareSyns()) == Count(ps, BareSyns()) + (if p.IsBareSyn() then 1 else 0)
      && Count(qs, SynAcks()) == Count(ps, SynAcks()) + (if p.IsSynAck() then 1 else 0)
      && Count(qs, Rsts()) == Count(ps, Rsts()) + (if p.HasRst() then 1 else 0)
      && Count(qs, Fins()) == Count(ps, Fins()) + (if p.HasFin() then 1 else 0)
  {
    KeyIsBetween(p, key);
    CountsOfExtension(ps, p, AllOf());
    CountsOfExtension(ps, p, SentByA(key));
    CountsOfExtension(ps, p, SentByB(key));
    CountsOfExtension(ps, p, BareSyns());
    CountsOfExtension(ps, p, SynAcks());
    CountsOfExtension(ps, p, Rsts());
    CountsOfExtension(ps, p, Fins());
  }

  /** How `observe` changes the counters of an entry. */
  function Counted(s: Stats, p: Packet): Stats
    requires p.Key().Some?
  {
    Stats(
      if p.ts < s.firstTs then p.ts else s.firstTs,
      if p.ts > s.lastTs then p.ts else s.lastTs,
      Saturate(s.packets + 1, U64_MAX),
      Saturate(s.bytes + p.capturedLen, U64_MAX),
      if p.FromA() then Saturate(s.srcPackets + 1, U64_MAX) else s.srcPackets,
      if p.FromA() then s.dstPackets else Saturate(s.dstPackets + 1, U64_MAX),
      if p.FromA() then Saturate(s.srcBytes + p.capturedLen, U64_MAX) else s.srcBytes,
      if p.FromA() then s.dstBytes else Saturate(s.dstBytes + p.capturedLen, U64_MAX),
      if p.IsBareSyn() then Saturate(s.synCount + 1, U32_MAX) else s.synCount,
      if p.IsSynAck() then Saturate(s.synAckCount + 1, U32_MAX) else s.synAckCount,
      if p.HasRst() then Saturate(s.rstCount + 1, U32_MAX) else s.rstCount,
      if p.HasFin() then Saturate(s.finCount + 1, U32_MAX) else s.finCount,
      s.retransmissions, s.outOfOrder, s.state,
      if s.app.None? then p.KnownApp() else s.app)
  }

  /** What `observe` makes of an existing entry. */
  function Updated(e: SessionEntry, p: Packet): SessionEntry
    requires p.Key().Some?
  {
    var turned := if p.IsBareSyn() then e.(client := if p.FromA() then A else B, basis := SynFirst) else e;
    turned.(stats := Counted(e.stats, p))
  }

  /** The entry `observe` creates before it counts the first packet. */
  function NewEntry(p: Packet, id: nat, key: SessionKey): SessionEntry {
    SessionEntry(
      id, key, Stats(p.ts, p.ts, 0, 0, 0, 0, 0, 0, 0, 0, 0, 0, 0, 0, New, None),
      if p.FromA() then A else B, if p.IsBareSyn() then SynFirst else FirstSeen,
      p.interfaceId, p.vlan)
  }

  lemma TrafficFollows(h: History, p: Packet, id: nat, key: SessionKey)
    requires h.packets != [] && p.Key() == Some(key)
    ensures
      var s, t := Summary(h.(packets := h.packets + [p]), id, key).stats, Counted(Summary(h, id, key).stats, p);
      && s.packets == t.packets && s.bytes == t.bytes
      && s.srcPackets == t.srcPackets && s.dstPackets == t.dstPackets && s.srcBytes == t.srcBytes && s.dstBytes == t.dstBytes
  {
    AllCountsOfExtension(h.packets, p, key);
  }

  lemma FlagsFollow(h: History, p: Packet, id: nat, key: SessionKey)
    requires h.packets != [] && p.Key() == Some(key)
    ensures
      var s, t := Summary(h.(packets := h.packets + [p]), id, key).stats, Counted(Summary(h, id, key).stats, p);
      && s.synCount == t.synCount && s.synAckCount == t.synAckCount && s.rstCount == t.rstCount && s.finCount == t.finCount
  {
    AllCountsOfExtension(h.packets, p, key);
  }

  lemma StatsFollow(h: History, p: Packet, id: nat, key: SessionKey)
    requires h.packets != [] && p.Key() == Some(key)
    ensures Summary(h.(packets := h.packets + [p]), id, key).stats == Counted(Summary(h, id, key).stats, p)
  {
    ExtremesOfExtension(h.packets, p);
    TrafficFollows(h, p, id, key);
    FlagsFollow(h, p, id, key);
    FirstAppOfExtension(h.packets, p);
  }

  lemma EntryFollows(h: History, p: Packet, id: nat, key: SessionKey)
    requires h.packets != [] && p.Key() == Some(key)
    ensures Summary(h.(packets := h.packets + [p]), id, key) == Updated(Summary(h, id, key), p)
  {
    StatsFollow(h, p, id, key);
    KeyIsBetween(p, key);
    ExtremesOfExtension(h.packets, p);
  }

  lemma FirstStats(p: Packet, id: nat, key: SessionKey)
    requires p.Key() == Some(key)
    ensures Summary(History([p], [], New), id, key).stats == Counted(NewEntry(p, id, key).stats, p)
  {
    assert [] + [p] == [p];
    AllCountsOfExtension([], p, key);
    FirstAppOfExtension([], p);
  }

  lemma FirstEntry(p: Packet, id: nat, key: SessionKey)
    requires p.Key() == Some(key)
    ensures Summary(History([p], [], New), id, key) == Updated(NewEntry(p, id, key), p)
  {
    FirstStats(p, id, key);
    KeyIsBetween(p, key);
    assert [] + [p] == [p];
    ExtremesOfExtension([], p);
  }

  /** What a remark of the reassembler does to an entry. */
  function Remarked(e: SessionEntry, verdict: SegmentVerdict): SessionEntry {
    var stats := e.stats;
    match verdict
    case Retransmission => e.(stats := stats.(retransmissions := Saturate(stats.retransmissions + 1, U32_MAX)))
    case Buffered => e.(stats := stats.(outOfOrder := Saturate(stats.outOfOrder + 1, U32_MAX)))
    case _ => e
  }

  lemma RemarkFollows(h: History, v: SegmentVerdict, id: nat, key: SessionKey)
    requires h.packets != []
    ensures Summary(h.(verdicts := h.verdicts + [v]), id, key) == Remarked(Summary(h, id, key), v)
  {
    assert (h.verdicts + [v])[..|h.verdicts|] == h.verdicts;
  }

  // ---- the table

  type Table = map<SessionKey, SessionEntry>

  /** The i-th session has the entry the reference gives it. */
  ghost predicate AgreesAt(sessions: Table, order: seq<SessionKey>, log: seq<Action>, i: nat)
    requires i < |order|
  {
    && order[i] in sessions
    && HistoryOf(log, order[i]).packets != []
    && sessions[order[i]] == Summary(HistoryOf(log, order[i]), i + 1, order[i])
  }

  lemma HistoryAfter(log: seq<Action>, a: Action, key: SessionKey)
    ensures HistoryOf(log + [a], key) == Continued(HistoryOf(log, key), a, key)
  {
    assert (log + [a])[..|log|] == log;
  }

  lemma OrderAfter(log: seq<Action>, a: Action)
    ensures FirstSeenOrder(log + [a]) ==
            if a.Observed? && a.packet.Key().Some? && a.packet.Key().value !in FirstSeenOrder(log)
            then FirstSeenOrder(log) + [a.packet.Key().value] else FirstSeenOrder(log)
  {
    assert (log + [a])[..|log|] == log;
  }

  /** The table is what the reference makes of the log; ids follow the order of first packets. */
  ghost predicate Faithful(sessions: Table, order: seq<SessionKey>, log: seq<Action>) {
    && order == FirstSeenOrder(log)
    && Distinct(order)
    && (forall key :: key in sessions <==> key in order)
    && (forall i :: 0 <= i < |order| ==> sessions[order[i]].id == i + 1)
    && forall i :: 0 <= i < |order| ==> AgreesAt(sessions, order, log, i)
  }

  lemma AgreesElsewhere(
    sessions: Table, order: seq<SessionKey>, log: seq<Action>, i: nat,
    sessions': Table, order': seq<SessionKey>, a: Action)
    requires i < |order| <= |order'| && order'[i] == order[i] && AgreesAt(sessions, order, log, i)
    requires order[i] in sessions' && sessions'[order[i]] == sessions[order[i]]
    requires match a
             case Observed(p) => p.Key() != Some(order[i])
             case Judged(k, _) => k != order[i]
             case Stated(k, _) => k != order[i]
    ensures AgreesAt(sessions', order', log + [a], i)
  {
    HistoryAfter(log, a, order[i]);
  }

  /** An action that concerns no known session leaves the table as it is. */
  lemma FaithfulWithoutChange(sessions: Table, order: seq<SessionKey>, log: seq<Action>, a: Action)
    requires Faithful(sessions, order, log)
    requires match a
             case Observed(p) => p.Key().None?
             case Judged(k, _) => k !in sessions
             case Stated(k, _) => k !in sessions
    ensures Faithful(sessions, order, log + [a])
  {
    OrderAfter(log, a);
    forall i | 0 <= i < |order|
      ensures AgreesAt(sessions, order, log + [a], i)
    {
      assert order[i] in order;
      AgreesElsewhere(sessions, order, log, i, sessions, order, a);
    }
  }

  /** What an action does to the entry of the session it concerns. */
  function Affected(e: SessionEntry, a: Action): SessionEntry
    requires a.Observed? ==> a.packet.Key().Some?
  {
    match a
    case Observed(p) => Updated(e, p)
    case Judged(_, v) => Remarked(e, v)
    case Stated(_, s) => e.(stats := e.stats.(state := s))
  }

  lemma AgreesAfterwards(sessions: Table, order: seq<SessionKey>, log: seq<Action>, k: nat, a: Action)
    requires k < |order| && AgreesAt(sessions, order, log, k)
    requires match a
             case Observed(p) => p.Key() == Some(order[k])
             case Judged(key, _) => key == order[k]
             case Stated(key, _) => key == order[k]
    ensures AgreesAt(sessions[order[k] := Affected(sessions[order[k]], a)], order, log + [a], k)
  {
    HistoryAfter(log, a, order[k]);
    var h := HistoryOf(log, order[k]);
    match a {
      case Observed(p) => EntryFollows(h, p, k + 1, order[k]);
      case Judged(_, v) => RemarkFollows(h, v, k + 1, order[k]);
      case Stated(_, _) =>
    }
  }

  /** Replacing one entry by one that agrees with the longer log keeps the whole table faithful. */
  lemma FaithfulAfterReplacing(
    sessions: Table, order: seq<SessionKey>, log: seq<Action>, a: Action, k: nat, next: SessionEntry)
    requires Faithful(sessions, order, log) && k < |order|
    requires match a
             case Observed(p) => p.Key() == Some(order[k])
             case Judged(key, _) => key == order[k]
             case Stated(key, _) => key == order[k]
    requires next.id == k + 1 && AgreesAt(sessions[order[k] := next], order, log + [a], k)
    ensures Faithful(sessions[order[k] := next], order, log + [a])
  {
    OrderAfter(log, a);
    var sessions' := sessions[order[k] := next];
    forall i | 0 <= i < |order|
      ensures AgreesAt(sessions', order, log + [a], i)
    {
      if i != k {
        AgreesElsewhere(sessions, order, log, i, sessions', order, a);
      }
    }
  }

  /** An action on a known session changes that session's entry, and only that one. */
  lemma FaithfulAfterChange(sessions: Table, order: seq<SessionKey>, log: seq<Action>, a: Action, key: SessionKey)
    requires Faithful(sessions, order, log) && key in sessions
    requires match a case Observed(p) => p.Key() == Some(key) case Judged(k, _) => k == key case Stated(k, _) => k == key
    ensures Faithful(sessions[key := Affected(sessions[key], a)], order, log + [a])
  {
    var k :| 0 <= k < |order| && order[k] == key;
    AgreesAfterwards(sessions, order, log, k, a);
    KeepsId(sessions[key], a);
    FaithfulAfterReplacing(sessions, order, log, a, k, Affected(sessions[key], a));
  }

  lemma KeepsId(e: SessionEntry, a: Action)
    requires a.Observed? ==> a.packet.Key().Some?
    ensures Affected(e, a).id == e.id
  {
  }

  /** The first packet of a session adds one entry under the next id. */
  lemma FaithfulAfterFirst(sessions: Table, order: seq<SessionKey>, log: seq<Action>, p: Packet, key: SessionKey)
    requires Faithful(sessions, order, log) && p.Key() == Some(key) && key !in sessions
    ensures Faithful(sessions[key := Updated(NewEntry(p, |order| + 1, key), p)], order + [key], log + [Observed(p)])
  {
    var n := |order|;
    OrderAfter(log, Observed(p));
    var sessions', order' := sessions[key := Updated(NewEntry(p, n + 1, key), p)], order + [key];
    forall i | 0 <= i < |order'|
      ensures AgreesAt(sessions', order', log + [Observed(p)], i)
    {
      if i < n {
        assert order[i] in order;
        AgreesElsewhere(sessions, order, log, i, sessions', order', Observed(p));
      } else {
        OrderIsExact(log);
        HistoryStartsEmpty(log, key);
        HistoryAfter(log, Observed(p), key);
        FirstEntry(p, n + 1, key);
      }
    }
  }

  lemma {:induction false} HistoryStartsEmpty(log: seq<Action>, key: SessionKey)
    ensures HistoryOf(log, key).packets == [] ==> HistoryOf(log, key) == History([], [], New)
  {
    if log != [] {
      HistoryStartsEmpty(log[..|log| - 1], key);
    }
  }

  /** Enters one packet into an entry; a bare SYN settles who the client is. */
  method CountPacket(entry: SessionEntry, p: Packet) returns (e: SessionEntry)
    requires p.Key().Some?
    ensures e == Updated(entry, p)
  {
    e := entry;
    if p.IsBareSyn() {
      e := e.(client := if p.FromA() then A else B, basis := SynFirst);
    }
    e := e.(stats := Counted(e.stats, p));
  }

  /** What the table shows as packets of its first n sessions, added up. */
  function Shown(sessions: Table, order: seq<SessionKey>, n: nat): nat
    requires n <= |order| && forall key :: key in order ==> key in sessions
  {
    if n == 0 then 0 else Shown(sessions, order, n - 1) + sessions[order[n - 1]].stats.packets
  }

  lemma {:induction false} ShownIsTotal(sessions: Table, order: seq<SessionKey>, log: seq<Action>, n: nat)
    requires Faithful(sessions, order, log) && n <= |order| && Total(log, order[..n]) <= U64_MAX
    ensures Shown(sessions, order, n) == Total(log, order[..n])
  {
    if n > 0 {
      assert order[..n][..n - 1] == order[..n - 1];
      assert AgreesAt(sessions, order, log, n - 1);
      ShownIsTotal(sessions, order, log, n - 1);
    }
  }

  /** The sessions' packet counts add up to the packets that belong to sessions, as long as a u64 can hold that number. */
  lemma ShownPacketsAddUp(sessions: Table, order: seq<SessionKey>, log: seq<Action>)
    requires Faithful(sessions, order, log) && Keyed(log) <= U64_MAX
    ensures Shown(sessions, order, |order|) == Keyed(log)
  {
    SessionsPartitionThePackets(log);
    assert order[..|order|] == order;
    ShownIsTotal(sessions, order, log, |order|);
  }

  lemma PlaceOf(log: seq<Action>, p: Packet)
    ensures p.Key().Some? <==> HasSession(p)
    ensures p.Key().Some? ==> Between(p, p.Key().value) && (Seen(log, p) <==> p.Key().value in FirstSeenOrder(log))
  {
    if p.Key().Some? {
      SeenIsKnown(log, p);
      KeyIsBetween(p, p.Key().value);
    } else if HasSession(p) {
      var src, dst, proto := EndsOfKeyed(p);
      KeyOfEnds(p, src, dst, proto);
    }
  }

  class ConversationAggregator {
    var sessions: Table
    var order: seq<SessionKey>
    var nextId: nat
    /** Everything ever done to this table. */
    ghost var log: seq<Action>

    constructor ()
      ensures Valid() && log == []
    {
      sessions, order, nextId, log := map[], [], 0, [];
    }

    ghost predicate Valid()
      reads this
    {
      nextId == |order| && Faithful(sessions, order, log)
    }

    /** Observes one packet; the key is returned when the packet belongs to a session. */
    method Observe(p: Packet) returns (key: Option<SessionKey>)
      requires Valid()
      modifies this
      ensures Valid() && log == old(log) + [Observed(p)]
      ensures key == p.Key() && (key.Some? <==> HasSession(p))
      ensures key.Some? ==> Between(p, key.value)
      // a session begins with the first packet between its two ends, whichever of them sent it
      ensures HasSession(p) ==> order == if Seen(old(log), p) then old(order) else old(order) + [key.value]
      ensures !HasSession(p) ==> order == old(order) && sessions == old(sessions)
    {
      key := p.Key();
      PlaceOf(log, p);
      log := log + [Observed(p)];
      if key.None? {
        FaithfulWithoutChange(sessions, order, old(log), Observed(p));
        return;
      }
      var k := key.value;
      if k !in sessions {
        FaithfulAfterFirst(sessions, order, old(log), p, k);
        nextId := nextId + 1;
        order := order + [k];
        var entry := CountPacket(NewEntry(p, nextId, k), p);
        sessions := sessions[k := entry];
      } else {
        FaithfulAfterChange(sessions, order, old(log), Observed(p), k);
        var entry := CountPacket(sessions[k], p);
        sessions := sessions[k := entry];
      }
    }

    method NoteVerdict(key: SessionKey, verdict: SegmentVerdict)
      requires Valid()
      modifies this`sessions, this`log
      ensures Valid() && log == old(log) + [Judged(key, verdict)]
    {
      log := log + [Judged(key, verdict)];
      if key !in sessions {
        FaithfulWithoutChange(sessions, order, old(log), Judged(key, verdict));
        return;
      }
      FaithfulAfterChange(sessions, order, old(log), Judged(key, verdict), key);
      sessions := sessions[key := Remarked(sessions[key], verdict)];
    }

    method NoteState(key: SessionKey, state: StreamState)
      requires Valid()
      modifies this`sessions, this`log
      ensures Valid() && log == old(log) + [Stated(key, state)]
    {
      log := log + [Stated(key, state)];
      if key !in sessions {
        FaithfulWithoutChange(sessions, order, old(log), Stated(key, state));
        return;
      }
      FaithfulAfterChange(sessions, order, old(log), Stated(key, state), key);
      sessions := sessions[key := sessions[key].(stats := sessions[key].stats.(state := state))];
    }

    /** The sessions in first-seen order, numbered 1, 2, 3, ..., each as the reference has it. */
    method Sessions() returns (r: seq<SessionEntry>)
      requires Valid()
      ensures |r| == |FirstSeenOrder(log)|
      ensures forall i :: 0 <= i < |r| ==>
                HistoryOf(log, order[i]).packets != []
                && r[i] == Summary(HistoryOf(log, order[i]), i + 1, FirstSeenOrder(log)[i])
    {
      r := [];
      for i := 0 to |order|
        invariant |r| == i
        invariant forall j :: 0 <= j < i ==> r[j] == sessions[order[j]]
      {
        r := r + [sessions[order[i]]];
      }
      forall i | 0 <= i < |r|
        ensures HistoryOf(log, order[i]).packets != []
                && r[i] == Summary(HistoryOf(log, order[i]), i + 1, FirstSeenOrder(log)[i])
      {
        assert AgreesAt(sessions, order, log, i);
      }
    }

    /** Looks a session up by id. */
    method Get(id: nat) returns (r: Option<SessionEntry>)
      requires Valid()
      ensures r == if 1 <= id <= |order| then Some(sessions[order[id - 1]]) else None
    {
      assert forall i :: 0 <= i < |order| ==> order[i] in sessions && sessions[order[i]].id == i + 1;
      var keys := sessions.Keys;
      while keys != {}
        invariant keys <= sessions.Keys
        invariant forall key :: key in sessions && sessions[key].id == id ==> key in keys
        decreases |keys|
      {
        var key :| key in keys;
        if sessions[key].id == id {
          return Some(sessions[key]);
        }
        keys := keys - {key};
      }
      return None;
    }
  }
}
