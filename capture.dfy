/**
 * The flow table of pkg/capture: which packets are eligible, the adaptive
 * flush window, the per-flow upsert, the maturity flush and the stale
 * reaper. Times are integer nanoseconds.
 */
module Capture {
  import opened Wrappers
  import opened Text
  import opened Net
  import opened Types

  const Second: int := 1_000_000_000
  const Mebibyte: int := 0x10_0000
  /** DefaultConnectionTimeout: five minutes. */
  const DefaultConnectionTimeout: int := 5 * 60 * Second

  // ---- Eligibility --------------------------------------------------------

  /** IsPublicIP: neither loopback, link-local unicast or multicast, nor private. */
  predicate IsPublicIP(ip: IPv4)
  {
    if ip.IsLoopback() || ip.IsLinkLocalUnicast() || ip.IsLinkLocalMulticast() then false
    else if ip.IsPrivate() then false
    else true
  }

  /** An address block `base/prefixLen`, given by its first address and its size. */
  datatype Block = Block(base: IPv4, size: nat)
  {
    predicate Contains(ip: IPv4)
    {
      base.Value() <= ip.Value() < base.Value() + size
    }
  }

  /**
   * The IPv4 blocks that are not public: 127.0.0.0/8 (section 3.2.1.3 of
   * RFC 1122), 169.254.0.0/16 (RFC 3927), 224.0.0.0/24 (section 4 of
   * RFC 5771), and 10.0.0.0/8, 172.16.0.0/12, 192.168.0.0/16 (section 3 of
   * RFC 1918).
   */
  const NonPublicBlocks: seq<Block> := [
    Block(IPv4(127, 0, 0, 0), 0x100_0000),
    Block(IPv4(169, 254, 0, 0), 0x1_0000),
    Block(IPv4(224, 0, 0, 0), 0x100),
    Block(IPv4(10, 0, 0, 0), 0x100_0000),
    Block(IPv4(172, 16, 0, 0), 0x10_0000),
    Block(IPv4(192, 168, 0, 0), 0x1_0000)
  ]

  /** The octet tests of IsPublicIP agree with membership in the RFC blocks, address by address. */
  lemma IsPublicIPMatchesBlocks(ip: IPv4)
    ensures IsPublicIP(ip) <==> forall i :: 0 <= i < |NonPublicBlocks| ==> !NonPublicBlocks[i].Contains(ip)
  {
    var v := ip.Value();
    var low := ip.b * 0x1_0000 + ip.c * 0x100 + ip.d;
    assert 0 <= low < 0x100_0000;
    assert v == ip.a * 0x100_0000 + low;
    assert NonPublicBlocks[0].Contains(ip) <==> ip.a == 127;
    assert NonPublicBlocks[3].Contains(ip) <==> ip.a == 10;
    var low16 := ip.c * 0x100 + ip.d;
    assert 0 <= low16 < 0x1_0000;
    assert v == ip.a * 0x100_0000 + ip.b * 0x1_0000 + low16;
    assert NonPublicBlocks[1].Contains(ip) <==> ip.a == 169 && ip.b == 254;
    assert NonPublicBlocks[5].Contains(ip) <==> ip.a == 192 && ip.b == 168;
    assert NonPublicBlocks[4].Contains(ip) <==> ip.a == 172 && 16 <= ip.b < 32;
    assert v == ip.a * 0x100_0000 + ip.b * 0x1_0000 + ip.c * 0x100 + ip.d;
    assert NonPublicBlocks[2].Contains(ip) <==> ip.a == 224 && ip.b == 0 && ip.c == 0;
  }

  /** The addresses the unit tests pin. */
  lemma IsPublicIPExamples()
    ensures IsPublicIP(IPv4(8, 8, 8, 8))
    ensures !IsPublicIP(IPv4(192, 168, 1, 1))
    ensures !IsPublicIP(IPv4(127, 0, 0, 1))
    ensures !IsPublicIP(IPv4(169, 254, 0, 1))
  {
  }

  // ---- Adaptive window ----------------------------------------------------

  /**
   * Whether bytes / (durNanos / 1e9) / 2^20 exceeds `mibPerSec`, decided
   * exactly. A zero duration makes the float quotient +Inf for positive
   * bytes and NaN (never above anything) for zero; a negative duration
   * flips the comparison.
   */
  predicate RateAbove(bytes: int, durNanos: int, mibPerSec: int)
  {
    if durNanos > 0 then bytes * Second > mibPerSec * Mebibyte * durNanos
    else if durNanos < 0 then bytes * Second < mibPerSec * Mebibyte * durNanos
    else bytes > 0
  }

  /** CalculateWindowSize: 5s above 100 MiB/s, 3s above 10, 2s above 1, else 1s. */
  function CalculateWindowSize(bytes: int, durNanos: int): (w: int)
    ensures w in {Second, 2 * Second, 3 * Second, 5 * Second}
  {
    if RateAbove(bytes, durNanos, 100) then 5 * Second
    else if RateAbove(bytes, durNanos, 10) then 3 * Second
    else if RateAbove(bytes, durNanos, 1) then 2 * Second
    else Second
  }

  /** The rate in MiB per second as the source's division computes it, without rounding. */
  function MiBPerSecond(bytes: int, durNanos: int): real
    requires durNanos != 0
  {
    (bytes as real) / ((durNanos as real) / 1_000_000_000.0) / 1048576.0
  }

  /** The window table of the source, on the rate itself. */
  function WindowForRate(rate: real): int
  {
    if rate > 100.0 then 5 * Second
    else if rate > 10.0 then 3 * Second
    else if rate > 1.0 then 2 * Second
    else Second
  }

  lemma RateAboveIsRealComparison(bytes: int, durNanos: int, t: int)
    requires durNanos != 0
    ensures RateAbove(bytes, durNanos, t) <==> MiBPerSecond(bytes, durNanos) > t as real
  {
    var y := (bytes as real) * 1_000_000_000.0;
    var q := (durNanos as real) * 1048576.0;
    assert MiBPerSecond(bytes, durNanos) == y / q;
    assert (bytes * Second) as real == y;
    assert (t * Mebibyte * durNanos) as real == (t as real) * q;
    if durNanos > 0 {
      assert q > 0.0;
      assert y / q > t as real <==> y > (t as real) * q;
    } else {
      assert q < 0.0;
      assert y / q > t as real <==> y < (t as real) * q;
    }
  }

  /** The integer decision is the source's rate table applied to the exact rate. */
  lemma WindowMatchesRealRate(bytes: int, durNanos: int)
    requires durNanos != 0
    ensures CalculateWindowSize(bytes, durNanos) == WindowForRate(MiBPerSecond(bytes, durNanos))
  {
    RateAboveIsRealComparison(bytes, durNanos, 100);
    RateAboveIsRealComparison(bytes, durNanos, 10);
    RateAboveIsRealComparison(bytes, durNanos, 1);
  }

  /** For a fixed positive duration, more bytes never shorten the window. */
  lemma WindowMonotoneInBytes(b1: int, b2: int, durNanos: int)
    requires durNanos > 0 && b1 <= b2
    ensures CalculateWindowSize(b1, durNanos) <= CalculateWindowSize(b2, durNanos)
  {
  }

  /** The thresholds are strict: exactly 100 MiB per second still gets 3 seconds. */
  lemma WindowThresholdsAreStrict(bytes: int, durNanos: int)
    requires durNanos > 0
    requires bytes * Second == 100 * Mebibyte * durNanos
    ensures CalculateWindowSize(bytes, durNanos) == 3 * Second
  {
  }

  /** The cases the unit tests pin, over one second. */
  lemma WindowExamples()
    ensures CalculateWindowSize(200 * Mebibyte, Second) == 5 * Second
    ensures CalculateWindowSize(100 * Mebibyte, Second) == 3 * Second
    ensures CalculateWindowSize(20 * Mebibyte, Second) == 3 * Second
    ensures CalculateWindowSize(2 * Mebibyte, Second) == 2 * Second
    ensures CalculateWindowSize(100 * 1024, Second) == Second
  {
  }

  // ---- Packets and keys ---------------------------------------------------

  type Port = x: int | 0 <= x < 0x1_0000

  /** The decoded network layer: absent, not IPv4, or IPv4 with its endpoints. */
  datatype Network = NoNetworkLayer | OtherNetworkLayer | IPv4Layer(src: IPv4, dst: IPv4)

  /** The transport layer's type name ("TCP", "UDP", ...) and source port. */
  datatype Transport = Transport(protocol: string, srcPort: Port)

  /** A captured packet: capture timestamp, decoded layers, and length of its data. */
  datatype Packet = Packet(timestamp: int, network: Network, transport: Option<Transport>, length: nat)

  /** The packet reaches the table: IPv4, one public endpoint, and a transport layer. */
  predicate Eligible(p: Packet)
  {
    && p.network.IPv4Layer?
    && (IsPublicIP(p.network.src) || IsPublicIP(p.network.dst))
    && p.transport.Some?
  }

  /** The connection key `src:dst:protocol:srcPort`. */
  function FlowKey(p: Packet): string
    requires Eligible(p)
  {
    Join([p.network.src.String(), p.network.dst.String(), p.transport.value.protocol,
          Decimal(p.transport.value.srcPort)], ':')
  }

  /** The key an aggregate is filed under, from its own fields. */
  function RecordKey(a: AggregatedInfo): string
  {
    Join([a.source, a.destination, a.protocol, a.port], ':')
  }

  /** The key reads back as its four parts. */
  lemma FlowKeyParts(p: Packet)
    requires Eligible(p)
    requires ':' !in p.transport.value.protocol
    ensures Split(FlowKey(p), ':') == [p.network.src.String(), p.network.dst.String(),
                                       p.transport.value.protocol, Decimal(p.transport.value.srcPort)]
  {
    var parts := [p.network.src.String(), p.network.dst.String(), p.transport.value.protocol,
                  Decimal(p.transport.value.srcPort)];
    StringShape(p.network.src, ':');
    StringShape(p.network.dst, ':');
    DigitsLackChar(Decimal(p.transport.value.srcPort), ':');
    assert forall i :: 0 <= i < |parts| ==> ':' !in parts[i];
    SplitJoin(parts, ':');
  }

  /**
   * Two eligible packets share a key exactly when they share source,
   * destination, protocol and source port, provided protocol names hold no ':'.
   */
  lemma FlowKeyInjective(p: Packet, q: Packet)
    requires Eligible(p) && Eligible(q)
    requires ':' !in p.transport.value.protocol && ':' !in q.transport.value.protocol
    ensures FlowKey(p) == FlowKey(q) <==>
      && p.network.src == q.network.src && p.network.dst == q.network.dst
      && p.transport.value.protocol == q.transport.value.protocol
      && p.transport.value.srcPort == q.transport.value.srcPort
  {
    if FlowKey(p) == FlowKey(q) {
      FlowKeyParts(p);
      FlowKeyParts(q);
      StringInjective(p.network.src, q.network.src);
      StringInjective(p.network.dst, q.network.dst);
      DecimalInjective(p.transport.value.srcPort, q.transport.value.srcPort);
    }
  }

  // ---- Upsert -------------------------------------------------------------

  /** The identity and direction fixed when an aggregate is created. */
  datatype Attribution = Attribution(namespace: string, name: string, direction: string)

  /**
   * Attribution at creation: the source's identity ("outbound") if it
   * resolved with a namespace, else the destination's ("inbound"), else
   * nothing.
   */
  function Attribute(rs: Resolution, rd: Resolution): (at: Attribution)
    ensures at.direction == "outbound" <==> Attributed(rs)
    ensures at.direction == "inbound" <==> !Attributed(rs) && Attributed(rd)
    ensures at.direction == "outbound" ==> at.namespace == rs.value.namespace && at.name == rs.value.name
    ensures at.direction == "inbound" ==> at.namespace == rd.value.namespace && at.name == rd.value.name
    ensures at.direction == "" <==> at == Attribution("", "", "")
    ensures at.namespace != "" <==> at.direction != ""
    ensures !Attributed(rs) && !Attributed(rd) ==> at == Attribution("", "", "")
  {
    if Attributed(rs) then Attribution(rs.value.namespace, rs.value.name, "outbound")
    else if Attributed(rd) then Attribution(rd.value.namespace, rd.value.name, "inbound")
    else Attribution("", "", "")
  }

  /** The aggregate created for the first packet of a flow. */
  function NewAggregate(p: Packet, at: Attribution, wallNow: int): AggregatedInfo
    requires Eligible(p)
  {
    AggregatedInfo(
      startTime := p.timestamp, endTime := p.timestamp,
      source := p.network.src.String(), destination := p.network.dst.String(),
      protocol := p.transport.value.protocol, port := Decimal(p.transport.value.srcPort),
      totalBytes := 0, packets := 0,
      namespace := at.namespace, name := at.name, direction := at.direction,
      lastSeen := wallNow)
  }

  /** A later packet of the flow: end time, byte and packet counters, last-seen clock. */
  function Extended(a: AggregatedInfo, p: Packet, wallNow: int): AggregatedInfo
  {
    a.(endTime := p.timestamp, totalBytes := a.totalBytes + p.length,
       packets := a.packets + 1, lastSeen := wallNow)
  }

  /** Whether the packet creates a new aggregate (and so triggers identity lookups). */
  predicate Creates(m: map<string, AggregatedInfo>, p: Packet)
  {
    Eligible(p) && FlowKey(p) !in m
  }

  /** The table after the packet branch of processPackets. */
  function Upserted(m: map<string, AggregatedInfo>, p: Packet, at: Attribution, wallNow: int)
    : map<string, AggregatedInfo>
  {
    if !Eligible(p) then m
    else if FlowKey(p) !in m then m[FlowKey(p) := NewAggregate(p, at, wallNow)]
    else m[FlowKey(p) := Extended(m[FlowKey(p)], p, wallNow)]
  }

  /** Every aggregate is filed under the key made of its own endpoints, protocol and port. */
  ghost predicate KeysMatchRecords(m: map<string, AggregatedInfo>)
  {
    forall k :: k in m ==> k == RecordKey(m[k])
  }

  /** A packet that is not IPv4, has no public endpoint or has no transport layer changes nothing. */
  lemma UpsertIneligible(m: map<string, AggregatedInfo>, p: Packet, at: Attribution, wallNow: int)
    requires !Eligible(p)
    ensures Upserted(m, p, at, wallNow) == m
  {
  }

  /**
   * A packet with a new key adds exactly one entry: start and end at the
   * packet's timestamp, endpoints, protocol and port from the packet,
   * counters at zero (the first packet is not counted), identity fixed now.
   */
  lemma UpsertNewKey(m: map<string, AggregatedInfo>, p: Packet, at: Attribution, wallNow: int)
    requires Creates(m, p)
    ensures var r := Upserted(m, p, at, wallNow);
      && r.Keys == m.Keys + {FlowKey(p)} && |r| == |m| + 1
      && r[FlowKey(p)].startTime == p.timestamp && r[FlowKey(p)].endTime == p.timestamp
      && r[FlowKey(p)].source == p.network.src.String()
      && r[FlowKey(p)].destination == p.network.dst.String()
      && r[FlowKey(p)].protocol == p.transport.value.protocol
      && r[FlowKey(p)].port == Decimal(p.transport.value.srcPort)
      && r[FlowKey(p)].totalBytes == 0 && r[FlowKey(p)].packets == 0
      && r[FlowKey(p)].namespace == at.namespace && r[FlowKey(p)].name == at.name
      && r[FlowKey(p)].direction == at.direction
      && RecordKey(r[FlowKey(p)]) == FlowKey(p)
      && forall k :: k in m ==> r[k] == m[k]
  {
  }

  /**
   * A packet with a known key moves the end time to its own timestamp
   * (not necessarily later), adds its length and one packet, and leaves
   * endpoints, identity and direction, and every other entry, as they were.
   */
  lemma UpsertExistingKey(m: map<string, AggregatedInfo>, p: Packet, at: Attribution, wallNow: int)
    requires Eligible(p) && FlowKey(p) in m
    ensures var r := Upserted(m, p, at, wallNow);
      var a := m[FlowKey(p)];
      && r.Keys == m.Keys
      && r[FlowKey(p)].endTime == p.timestamp
      && r[FlowKey(p)].totalBytes == a.totalBytes + p.length
      && r[FlowKey(p)].packets == a.packets + 1
      && r[FlowKey(p)] == a.(endTime := p.timestamp, totalBytes := a.totalBytes + p.length,
                             packets := a.packets + 1, lastSeen := wallNow)
      && forall k :: k in m && k != FlowKey(p) ==> r[k] == m[k]
  {
  }

  /** The packets' effect in arrival order. */
  function UpsertAll(m: map<string, AggregatedInfo>, ps: seq<Packet>, at: Attribution, wallNow: int)
    : map<string, AggregatedInfo>
  {
    if |ps| == 0 then m else Upserted(UpsertAll(m, ps[..|ps| - 1], at, wallNow), ps[|ps| - 1], at, wallNow)
  }

  function TotalLength(ps: seq<Packet>): nat
  {
    if |ps| == 0 then 0 else TotalLength(ps[..|ps| - 1]) + ps[|ps| - 1].length
  }

  /**
   * After n packets of one new flow the aggregate counts n - 1 packets and
   * the bytes of all but the first; it started at the first packet's
   * timestamp and ends at the last one's.
   */
  lemma {:induction false} CountersLagFirstPacket(m: map<string, AggregatedInfo>, ps: seq<Packet>,
                                                  at: Attribution, wallNow: int)
    requires |ps| > 0
    requires forall i :: 0 <= i < |ps| ==> Eligible(ps[i])
    requires forall i :: 0 <= i < |ps| ==> FlowKey(ps[i]) == FlowKey(ps[0])
    requires FlowKey(ps[0]) !in m
    ensures var r := UpsertAll(m, ps, at, wallNow);
      && FlowKey(ps[0]) in r
      && r[FlowKey(ps[0])].packets == |ps| - 1
      && r[FlowKey(ps[0])].totalBytes == TotalLength(ps[1..])
      && r[FlowKey(ps[0])].startTime == ps[0].timestamp
      && r[FlowKey(ps[0])].endTime == ps[|ps| - 1].timestamp
      && r[FlowKey(ps[0])].namespace == at.namespace
      && r[FlowKey(ps[0])].name == at.name
      && r[FlowKey(ps[0])].direction == at.direction
  {
    var n := |ps|;
    if n == 1 {
      assert ps[..0] == [];
      assert UpsertAll(m, ps, at, wallNow) == Upserted(m, ps[0], at, wallNow);
      UpsertNewKey(m, ps[0], at, wallNow);
      assert ps[1..] == [];
    } else {
      var init := ps[..n - 1];
      assert forall i :: 0 <= i < |init| ==> init[i] == ps[i];
      CountersLagFirstPacket(m, init, at, wallNow);
      CountersLagStep(UpsertAll(m, init, at, wallNow), ps, FlowKey(ps[0]), at, wallNow);
    }
  }

  /** The inductive step of CountersLagFirstPacket: one more packet of the flow. */
  lemma CountersLagStep(before: map<string, AggregatedInfo>, ps: seq<Packet>, key: string,
                        at: Attribution, wallNow: int)
    requires |ps| > 1
    requires Eligible(ps[|ps| - 1]) && FlowKey(ps[|ps| - 1]) == key
    requires key in before
    requires before[key].packets == |ps| - 2
    requires before[key].totalBytes == TotalLength(ps[..|ps| - 1][1..])
    ensures var r := Upserted(before, ps[|ps| - 1], at, wallNow);
      && key in r
      && r[key] == before[key].(endTime := ps[|ps| - 1].timestamp, lastSeen := wallNow,
                                packets := |ps| - 1, totalBytes := TotalLength(ps[1..]))
  {
    var n := |ps|;
    UpsertExistingKey(before, ps[n - 1], at, wallNow);
    assert TotalLength(ps[1..]) == TotalLength(ps[1..][..n - 2]) + ps[n - 1].length;
    assert ps[1..][..n - 2] == ps[..n - 1][1..];
  }

  // ---- Maturity -----------------------------------------------------------

  /** The flush test of the ticker branch: at least a second of data, and at least the window. */
  predicate Matured(a: AggregatedInfo)
  {
    var duration := a.endTime - a.startTime;
    duration >= Second && duration >= CalculateWindowSize(a.totalBytes, duration)
  }

  /** Every window is at least a second, so the one-second guard never decides anything. */
  lemma MaturedIffWindowReached(a: AggregatedInfo)
    ensures Matured(a) <==> a.endTime - a.startTime >= CalculateWindowSize(a.totalBytes, a.endTime - a.startTime)
  {
  }

  /** A flow above 100 MiB/s is held back until it spans five seconds. */
  lemma FastFlowWaitsFiveSeconds(a: AggregatedInfo)
    requires a.endTime - a.startTime > 0
    requires RateAbove(a.totalBytes, a.endTime - a.startTime, 100)
    ensures Matured(a) <==> a.endTime - a.startTime >= 5 * Second
  {
  }

  /** A flow at no more than 1 MiB/s is flushed as soon as it spans one second. */
  lemma SlowFlowFlushesAfterOneSecond(a: AggregatedInfo)
    requires a.endTime - a.startTime >= Second
    requires !RateAbove(a.totalBytes, a.endTime - a.startTime, 1)
    ensures Matured(a)
  {
  }

  /** 50,000,000 bytes: not flushed after 2 seconds (window 3s), flushed from 3 seconds on. */
  lemma FiftyMegabyteFlow(a: AggregatedInfo)
    requires a.totalBytes == 50_000_000
    ensures a.endTime - a.startTime == 2 * Second ==> CalculateWindowSize(a.totalBytes, 2 * Second) == 3 * Second
    ensures a.endTime - a.startTime == 2 * Second ==> !Matured(a)
    ensures a.endTime - a.startTime >= 3 * Second ==> Matured(a)
  {
  }

  /** The entries a flush still holds once the keys outside `pending` have been examined. */
  ghost function FlushRemainder(m: map<string, AggregatedInfo>, pending: set<string>): map<string, AggregatedInfo>
  {
    map k | k in m && (k in pending || !Matured(m[k])) :: m[k]
  }

  lemma FlushRemainderStep(m: map<string, AggregatedInfo>, pending: set<string>, key: string)
    requires key in pending && key in m
    ensures FlushRemainder(m, pending - {key})
         == if Matured(m[key]) then FlushRemainder(m, pending) - {key} else FlushRemainder(m, pending)
  {
  }

  /**
   * What a flush has sent once the keys outside `pending` have been
   * examined: each matured entry among them, once, with the key it came from.
   */
  ghost predicate SentSoFar(m: map<string, AggregatedInfo>, pending: set<string>,
                            order: seq<string>, sent: seq<AggregatedInfo>)
  {
    && |sent| == |order|
    && (forall i :: 0 <= i < |order| ==>
          order[i] in m && order[i] !in pending && sent[i] == m[order[i]] && Matured(sent[i]))
    && (forall k :: k in m && k !in pending && Matured(m[k]) ==> k in order)
    && (forall i, j :: 0 <= i < j < |order| ==> order[i] != order[j])
  }

  lemma SentSoFarStep(m: map<string, AggregatedInfo>, pending: set<string>,
                      order: seq<string>, sent: seq<AggregatedInfo>, key: string)
    requires SentSoFar(m, pending, order, sent)
    requires key in pending && key in m
    ensures Matured(m[key]) ==> SentSoFar(m, pending - {key}, order + [key], sent + [m[key]])
    ensures !Matured(m[key]) ==> SentSoFar(m, pending - {key}, order, sent)
  {
    assert key !in order;
  }

  /** Records taken from distinct keys of a table whose keys match its records are distinct. */
  lemma DistinctKeysDistinctRecords(m: map<string, AggregatedInfo>, keys: seq<string>, records: seq<AggregatedInfo>)
    requires KeysMatchRecords(m)
    requires |keys| == |records|
    requires forall i :: 0 <= i < |keys| ==> keys[i] in m && records[i] == m[keys[i]]
    requires forall i, j :: 0 <= i < j < |keys| ==> keys[i] != keys[j]
    ensures forall i, j :: 0 <= i < j < |records| ==> records[i] != records[j]
  {
    forall i, j | 0 <= i < j < |records|
      ensures records[i] != records[j]
    {
      assert keys[i] == RecordKey(records[i]) && keys[j] == RecordKey(records[j]);
    }
  }

  /** The table after a flush: the entries that have not matured, unchanged. */
  function Unmatured(m: map<string, AggregatedInfo>): map<string, AggregatedInfo>
  {
    map k | k in m && !Matured(m[k]) :: m[k]
  }

  // ---- Reaper -------------------------------------------------------------

  /** cleanup's test: more than DefaultConnectionTimeout since the end time. */
  predicate Expired(a: AggregatedInfo, now: int)
  {
    now - a.endTime > DefaultConnectionTimeout
  }

  /** The table after cleanup: the entries that have not expired, unchanged. */
  function Unexpired(m: map<string, AggregatedInfo>, now: int): map<string, AggregatedInfo>
  {
    map k | k in m && !Expired(m[k], now) :: m[k]
  }

  /** The entries cleanup still holds once the keys outside `pending` have been examined. */
  ghost function CleanupRemainder(m: map<string, AggregatedInfo>, pending: set<string>, now: int)
    : map<string, AggregatedInfo>
  {
    map k | k in m && (k in pending || !Expired(m[k], now)) :: m[k]
  }

  // ---- The table ----------------------------------------------------------

  /**
   * Capture's aggregatedInfo map. Each aggregate is owned by its entry (the
   * flush sends copies), so the map holds values.
   */
  class FlowTable {
    var entries: map<string, AggregatedInfo>

    ghost predicate Valid()
      reads this
    {
      KeysMatchRecords(entries)
    }

    constructor ()
      ensures Valid() && entries == map[]
    {
      entries := map[];
    }

    /**
     * The packet branch of processPackets. A new key looks up the source and
     * then the destination; `at` is the attribution that follows from them.
     */
    method ProcessPacket(p: Packet, wallNow: int, resolver: Resolver) returns (ghost at: Attribution)
      requires Valid()
      modifies this, resolver`cache, resolver`directoryQueries
      ensures Valid()
      ensures entries == Upserted(old(entries), p, at, wallNow)
      ensures Creates(old(entries), p) ==>
        var src := p.network.src.String();
        var dst := p.network.dst.String();
        var mid := CacheAfter(old(resolver.cache), resolver.env, src);
        && at == Attribute(Resolve(old(resolver.cache), resolver.env, src), Resolve(mid, resolver.env, dst))
        && resolver.cache == CacheAfter(mid, resolver.env, dst)
        && resolver.directoryQueries == old(resolver.directoryQueries) + PairQueries(old(resolver.cache), resolver.env, src, dst)
      ensures !Creates(old(entries), p) ==>
        resolver.cache == old(resolver.cache) && resolver.directoryQueries == old(resolver.directoryQueries)
    {
      at := Attribution("", "", "");
      if p.network.NoNetworkLayer? || p.network.OtherNetworkLayer? {
        return;
      }
      var src, dst := p.network.src, p.network.dst;
      if !IsPublicIP(src) && !IsPublicIP(dst) {
        return;
      }
      if p.transport.None? {
        return;
      }
      var key := FlowKey(p);
      if key !in entries {
        var rs := resolver.GetNamespaceAndNameByIPv4(src.String());
        var rd := resolver.GetNamespaceAndNameByIPv4(dst.String());
        var attribution := Attribute(rs, rd);
        at := attribution;
        entries := entries[key := NewAggregate(p, attribution, wallNow)];
      } else {
        entries := entries[key := Extended(entries[key], p, wallNow)];
      }
    }

    /**
     * The ticker branch of processPackets: every matured entry is sent and
     * deleted. Map iteration order is unspecified, so `sent` may come in any
     * order; `order` names the key each record came from.
     */
    method Flush() returns (sent: seq<AggregatedInfo>, ghost order: seq<string>)
      requires Valid()
      modifies this
      ensures Valid()
      ensures entries == Unmatured(old(entries))
      ensures |sent| == |order|
      ensures forall i :: 0 <= i < |order| ==>
        order[i] in old(entries) && sent[i] == old(entries)[order[i]] && Matured(sent[i])
      ensures forall k :: k in old(entries) && Matured(old(entries)[k]) ==> k in order
      ensures forall i, j :: 0 <= i < j < |order| ==> order[i] != order[j]
    {
      ghost var m0 := entries;
      var pending := entries.Keys;
      sent, order := [], [];
      while pending != {}
        invariant pending <= m0.Keys
        invariant entries == FlushRemainder(m0, pending)
        invariant SentSoFar(m0, pending, order, sent)
        decreases pending
      {
        var key :| key in pending;
        FlushRemainderStep(m0, pending, key);
        SentSoFarStep(m0, pending, order, sent, key);
        var agg := entries[key];
        if Matured(agg) {
          sent, order := sent + [agg], order + [key];
          entries := entries - {key};
        }
        pending := pending - {key};
      }
      assert FlushRemainder(m0, {}) == Unmatured(m0);
      assert SentSoFar(m0, {}, order, sent);
    }

    /** cleanup: every entry whose end time is more than the timeout before `now` is deleted. */
    method Cleanup(now: int)
      requires Valid()
      modifies this
      ensures Valid()
      ensures entries == Unexpired(old(entries), now)
    {
      ghost var m0 := entries;
      var pending := entries.Keys;
      while pending != {}
        invariant pending <= m0.Keys
        invariant entries == CleanupRemainder(m0, pending, now)
        decreases pending
      {
        var key :| key in pending;
        if now - entries[key].endTime > DefaultConnectionTimeout {
          entries := entries - {key};
        }
        pending := pending - {key};
      }
    }
  }

  /** Flushing keeps exactly the immature entries, with their values untouched. */
  lemma FlushKeepsImmature(m: map<string, AggregatedInfo>, k: string)
    requires k in m
    ensures k in Unmatured(m) <==> !Matured(m[k])
    ensures k in Unmatured(m) ==> Unmatured(m)[k] == m[k]
  {
  }

  /**
   * The reaper deletes exactly the entries more than five minutes past
   * their end time, matured or not; an entry at exactly five minutes stays.
   */
  lemma CleanupRemovesExactlyExpired(m: map<string, AggregatedInfo>, now: int, k: string)
    requires k in m
    ensures k in Unexpired(m, now) <==> now - m[k].endTime <= 5 * 60 * Second
    ensures k in Unexpired(m, now) ==> Unexpired(m, now)[k] == m[k]
  {
  }
}
