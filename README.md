# netlog flow aggregation, attribution and metric sweeping in Dafny

netlog is a node-local network monitor. It captures IPv4 packets and keeps those with at least one
public endpoint. It aggregates them into per-flow records keyed by source, destination, transport
protocol and source port, and attributes each flow to a workload (a namespace and a name). The
workload comes from a Redis cache or, on a miss, from the Kubernetes directory. When a flow has
accumulated a window of traffic that depends on its rate, netlog emits the flow's record. It also
keeps a table of live Prometheus series and sweeps out series that have gone stale.

This project models that core:

- `wrappers.dfy`: `Option` and `Result`.
- `text.dfy`: the string primitives the Go code relies on. It has `strings.Split`, a join (the
  `%s:%s:...` keys), the split on the first hyphen (`regexp.Split(s, 2)`), and decimal rendering.
  It proves the round trips between them.
- `net.dfy`: IPv4 addresses and the `net.IP` classification predicates.
- `types.dfy` (pkg/types/packet.go):
  - the packet record and its text form;
  - the workload resolver `GetNamespaceAndNameByIPv4`, a class holding the Redis cache as a map;
  - the re-attribution and suppression rules of `AggregatedInfo.String` and `JSONString`.
- `capture.dfy` (pkg/capture/capture.go):
  - `IsPublicIP` and `CalculateWindowSize`;
  - the flow table as a class over a `map<string, AggregatedInfo>`, with three methods: the
    packet upsert, the ticker flush and the reaper.
- `metrics.dfy` (pkg/metrics/metrics.go): the active-series table, with the 7-label key written by
  `UpdateMetrics` and the sweep in `CleanupMetrics`.

Times are integers in nanoseconds. `time.Now()` is a parameter of the methods that read it.

Rate comparisons are exact rational comparisons rather than float64 arithmetic.
`CalculateWindowSize(bytes, d)` compares `bytes * 10^9` against `t * 2^20 * d`, the comparison
`float64(bytes)/seconds/2^20 > t` made exact. `Capture.WindowMatchesRealRate` proves it equal to
the real-valued rate classification. The Go division by a zero duration is also reproduced. It
gives `+Inf` when bytes > 0, so the rate is above every threshold. It gives NaN when bytes = 0, so
the rate is above none. A negative duration flips the comparison.

Some behaviour of the Go code is easy to misread; the model follows the code as written:

- The first packet of a flow creates the record with `TotalBytes` and `Packets` at zero. Only later
  packets are counted (capture.go:229-247). `Capture.CountersLagFirstPacket` states the
  consequence: after n packets the record shows n-1 packets and the bytes of packets 2..n.
- The reaper compares the wall clock with `EndTime`, the capture timestamp of the last packet. It
  does not use `LastSeen` (capture.go:161).
- The stored record is the struct at packet.go:50-61 plus `Direction` and `LastSeen`, which
  capture.go:238-239 sets. Its fields are those of capture.go:27-40, except that the packet
  counter is `Packets` (packet.go:60, incremented at capture.go:245) rather than `PacketCount`.
- The renderers overwrite the stored attribution only on a non-empty lookup. If one lookup fails
  and the other succeeds with an empty namespace, the stored namespace is kept (packet.go:68-80).

## Model

| member | source | states |
|---|---|---|
| Net.IPv4.IsLoopback | pkg/capture/capture.go:97 | `net.IP.IsLoopback` on a 4-byte address: first octet 127; used by `Capture.IsPublicIP`, whose partner is `Capture.IsPublicIPMatchesBlocks` |
| Net.IPv4.IsLinkLocalUnicast | pkg/capture/capture.go:97 | `net.IP.IsLinkLocalUnicast`: 169.254.0.0/16; pinned by `Capture.IsPublicIPMatchesBlocks` |
| Net.IPv4.IsLinkLocalMulticast | pkg/capture/capture.go:97 | `net.IP.IsLinkLocalMulticast`: 224.0.0.0/24; pinned by `Capture.IsPublicIPMatchesBlocks` |
| Net.IPv4.IsPrivate | pkg/capture/capture.go:102 | `net.IP.IsPrivate`: 10/8, 172.16/12 (the `&0xf0 == 16` test on the second octet) and 192.168/16; pinned by `Capture.IsPublicIPMatchesBlocks` |
| Net.IPv4.String | pkg/capture/capture.go:232-233 | `net.IP.String` of a 4-byte address: the four decimal octets joined by dots; its properties are `Net.StringShape` and `Net.StringInjective` |
| Net.StringShape | pkg/capture/capture.go:232-233 | the dotted-quad text of an address is non-empty and holds no character other than digits and dots (so no `:` and no space) |
| Net.StringInjective | pkg/capture/capture.go:207 | different addresses render to different dotted-quad strings, so the flow key separates endpoints |
| Text.IndexOf | pkg/types/packet.go:170 | finds the first occurrence of a character, or reports that there is none |
| Text.Split | pkg/metrics/metrics.go:108 | `strings.Split` gives one more part than there are separators, and no part contains the separator |
| Text.JoinSplit | pkg/metrics/metrics.go:108 | joining the parts of a split with the separator gives back the original string |
| Text.SplitJoin | pkg/metrics/metrics.go:93-109 | splitting a join of separator-free parts gives back exactly those parts |
| Text.OccurrencesInJoin | pkg/metrics/metrics.go:93 | a join of n parts holds at least n-1 separators, and more if some part contains the separator |
| Text.SplitFirst | pkg/types/packet.go:170-173 | the split on the first hyphen fails iff there is no hyphen; otherwise head, hyphen and tail rebuild the input and the head has no hyphen |
| Text.IndexOfAfterPrefix | pkg/types/packet.go:170 | the first separator after a separator-free prefix is found right after that prefix |
| Text.Decimal | pkg/capture/capture.go:235 | the decimal form of a natural number is non-empty, all digits, with no leading zero |
| Text.ParseDecimalOfDecimal | pkg/capture/capture.go:235 | reading back the decimal form of a number gives the number |
| Text.DecimalInjective | pkg/capture/capture.go:207 | different port numbers render to different decimal strings |
| Types.PacketString | pkg/types/packet.go:24-26 | `PacketInfo.String`, the `%s => %s %s %s %s bytes` line; its properties are `Types.PacketStringSpaced`, `Types.PacketStringExample` and `Types.PacketStringReadsBack` |
| Types.PacketStringSpaced | pkg/types/packet.go:25 | the joined fields are exactly the `%s => %s %s %s %s bytes` layout: each field followed by one space, ending in `bytes` |
| Types.PacketStringExample | pkg/types/packet_test.go:20 | the test packet 192.168.1.100 to 8.8.8.8, TCP port 443, 1000 bytes (at any timestamp) renders as `192.168.1.100 => 8.8.8.8 TCP 443 1000 bytes` |
| Types.PacketStringReadsBack | pkg/types/packet.go:24-26 | `PacketInfo.String` is the seven space-separated fields `src => dst proto port bytes bytes`; it splits back into them when the fields have no spaces |
| Types.Resolver.GetNamespaceAndNameByIPv4 | pkg/types/packet.go:149-189 | the answer and the new cache are the cache-aside resolution of the address; the directory is queried exactly when the cache could not answer |
| Types.Resolve | pkg/types/packet.go:149-189 | what `GetNamespaceAndNameByIPv4` returns, branch by branch; its cases are stated by `Types.ResolveEmptyAddress`, `Types.ResolveCacheHit`, `Types.ResolveDirectoryFailure`, `Types.ResolveSplitsOnFirstHyphen` and `Types.ResolveWritesBack` |
| Types.CacheAfter | pkg/types/packet.go:175-183 | the Redis contents after one lookup: written only after a well-formed directory answer whose write succeeds; stated by `Types.ResolveWritesBack` and `Types.SecondLookupHitsCache` |
| Types.ResolveEmptyAddress | pkg/types/packet.go:150-152 | an empty address is an error, and neither the cache nor the directory is touched |
| Types.ResolveCacheHit | pkg/types/packet.go:155-161 | a cached entry with a non-empty namespace is returned as is, without a directory query |
| Types.ResolveDirectoryFailure | pkg/types/packet.go:163-167 | when the cache cannot answer and the directory fails, the lookup fails and the cache is unchanged |
| Types.ResolveSplitsOnFirstHyphen | pkg/types/packet.go:169-173 | the directory identity splits at its first hyphen into namespace and name; with no hyphen the lookup is a malformed-identifier error |
| Types.ResolveWritesBack | pkg/types/packet.go:175-188 | a successful directory answer is written back to the cache unless the write fails, and it is returned either way |
| Types.SecondLookupHitsCache | pkg/types/packet.go:154-188 | after a directory answer is cached, the next lookup of the same address is served from the cache with the same answer |
| Types.PairQueries | pkg/capture/capture.go:214-215 | a source lookup followed by a destination lookup queries the directory at most twice, and only about those two addresses |
| Types.CachedPairQueriesNothing | pkg/types/packet.go:65-66 | when both endpoints are cached with a namespace, the two lookups make no directory query |
| Types.RepeatedAddressQueriedOnce | pkg/types/packet.go:154-188 | looking up the same cold address twice in a row queries the directory once, because the first answer is cached |
| Types.BillingWorkerExample | pkg/types/packet.go:164-188 | the identity `billing-worker` resolves to namespace `billing`, name `worker`, and is cached |
| Types.Reattributed | pkg/types/packet.go:68-80 | both lookups failing clears the attribution; a source hit wins over a destination hit; otherwise the record is kept; only namespace and name change |
| Types.AggregatedText | pkg/types/packet.go:82-89 | the text line of `AggregatedInfo.String` for the re-attributed record, or "" with no namespace; stated by `Types.TextSuppressedIffNoNamespace` and `Types.BothLookupsFailedSuppresses` |
| Types.AggregatedJsonText | pkg/types/packet.go:111-141 | the marshalled object of `AggregatedInfo.JSONString`, or "" with no namespace; stated by `Types.JsonSuppressedIffTextSuppressed` |
| Types.TextSuppressedIffNoNamespace | pkg/types/packet.go:82-89 | `String` renders the empty string exactly when the re-attributed namespace is empty |
| Types.JsonSuppressedIffTextSuppressed | pkg/types/packet.go:93-142 | `JSONString` is empty exactly when `String` is, so the two renderings suppress the same records |
| Types.BothLookupsFailedSuppresses | pkg/types/packet.go:69-71 | a record whose two lookups both fail is never printed |
| Types.AggregatedString | pkg/types/packet.go:64-90 | looks up the source and then the destination, and returns the text rendering of the re-attributed record; the cache and the directory queries are those of the two lookups in that order |
| Types.AggregatedJSONString | pkg/types/packet.go:93-142 | the same two lookups, with the same cache and directory queries, and returns the JSON rendering of the re-attributed record |
| Capture.IsPublicIP | pkg/capture/capture.go:96-107 | false for loopback, link-local unicast, link-local multicast and private addresses, true otherwise; its reference is `Capture.IsPublicIPMatchesBlocks`, its test cases `Capture.IsPublicIPExamples` |
| Capture.IsPublicIPMatchesBlocks | pkg/capture/capture.go:96-107 | an address is public iff it lies in none of the loopback, link-local unicast, link-local multicast and RFC 1918 private blocks |
| Capture.IsPublicIPExamples | pkg/capture/capture_test.go:16-51 | 8.8.8.8 is public; 192.168.1.1, 127.0.0.1 and 169.254.0.1 are not |
| Capture.CalculateWindowSize | pkg/capture/capture.go:110-124 | the window is always one of 1, 2, 3 or 5 seconds |
| Capture.RateAboveIsRealComparison | pkg/capture/capture.go:111-119 | the exact integer comparison agrees with comparing the MiB/s rate against the threshold |
| Capture.WindowMatchesRealRate | pkg/capture/capture.go:110-124 | for a non-zero duration the window equals the rate classification: >100 MiB/s gives 5 s, >10 gives 3 s, >1 gives 2 s, else 1 s |
| Capture.WindowMonotoneInBytes | pkg/capture/capture.go:114-123 | over the same positive duration, more bytes never give a shorter window |
| Capture.WindowThresholdsAreStrict | pkg/capture/capture.go:115 | a rate of exactly 100 MiB/s gets the 3-second window, not the 5-second one |
| Capture.WindowExamples | pkg/capture/capture_test.go:53-92 | 200 MiB in 1 s gives 5 s; 20 MiB gives 3 s; 2 MiB gives 2 s; 100 KiB gives 1 s |
| Capture.Eligible | pkg/capture/capture.go:185-204 | a packet reaches the table iff it has an IPv4 layer, a public source or destination, and a transport layer; stated by `Capture.UpsertIneligible` |
| Capture.FlowKey | pkg/capture/capture.go:207 | the `src:dst:protocol:port` key; stated by `Capture.FlowKeyParts` and `Capture.FlowKeyInjective` |
| Capture.FlowKeyParts | pkg/capture/capture.go:207 | the flow key splits on ':' into source, destination, protocol and port when the protocol name has no ':' |
| Capture.FlowKeyInjective | pkg/capture/capture.go:207 | two eligible packets share a flow key iff they agree on source, destination, protocol and source port |
| Capture.Attribute | pkg/capture/capture.go:213-227 | the direction is outbound iff the source lookup attributes, and inbound iff only the destination does; the namespace is set iff a direction is |
| Capture.NewAggregate | pkg/capture/capture.go:229-240 | the record created for a flow's first packet; stated by `Capture.UpsertNewKey` |
| Capture.Extended | pkg/capture/capture.go:243-246 | a later packet moves the end time, adds its length and one packet, and stamps the wall clock; stated by `Capture.UpsertExistingKey` |
| Capture.Upserted | pkg/capture/capture.go:185-247 | the table after the packet branch; stated by `Capture.UpsertIneligible`, `Capture.UpsertNewKey`, `Capture.UpsertExistingKey` and `Capture.CountersLagFirstPacket` |
| Capture.UpsertIneligible | pkg/capture/capture.go:185-204 | a packet without an IPv4 layer, without a public endpoint or without a transport layer leaves the table unchanged |
| Capture.UpsertNewKey | pkg/capture/capture.go:229-241 | a new flow gets a record with start = end = packet time, zero counters and the attribution, and no other entry changes |
| Capture.UpsertExistingKey | pkg/capture/capture.go:242-247 | a packet of a known flow moves its end time, adds its length and one packet, and keeps the attribution |
| Capture.CountersLagFirstPacket | pkg/capture/capture.go:229-247 | after n packets of one new flow the record counts n-1 packets and the bytes of all but the first, spans first to last timestamp, and keeps the first attribution |
| Capture.Matured | pkg/capture/capture.go:254-257 | the flush test: at least one second of data and at least the rate's window; stated by `Capture.MaturedIffWindowReached` and the three flow lemmas below |
| Capture.Unmatured | pkg/capture/capture.go:252-262 | the table after a flush; stated by `Capture.FlushKeepsImmature` and the ensures of `Capture.FlowTable.Flush` |
| Capture.MaturedIffWindowReached | pkg/capture/capture.go:254-257 | a record is sent iff it spans at least one second and at least its rate's window |
| Capture.FastFlowWaitsFiveSeconds | pkg/capture/capture.go:254-257 | a flow above 100 MiB/s is held until it spans five seconds |
| Capture.SlowFlowFlushesAfterOneSecond | pkg/capture/capture.go:254-257 | a flow at or below 1 MiB/s is sent once it spans one second |
| Capture.FiftyMegabyteFlow | pkg/capture/capture.go:254-257 | 50 MB over 2 s (about 23.8 MiB/s) needs a 3 s window, so it is held at 2 s and sent from 3 s |
| Capture.FlowTable.ProcessPacket | pkg/capture/capture.go:185-248 | the table becomes the upsert of the packet; a new flow triggers two lookups (source first) whose results give its attribution, and the directory sees exactly the queries of those two lookups; otherwise no lookup is made |
| Capture.FlowTable.Flush | pkg/capture/capture.go:250-263 | every matured record is emitted exactly once and removed; the table keeps exactly the unmatured records |
| Capture.DistinctKeysDistinctRecords | pkg/capture/capture.go:253-259 | records emitted for distinct keys are distinct, since each record determines its key |
| Capture.FlushKeepsImmature | pkg/capture/capture.go:252-262 | a flow stays in the table after a tick iff it has not matured, and then it is untouched |
| Capture.Expired | pkg/capture/capture.go:161 | more than `DefaultConnectionTimeout` (5 minutes) between now and the record's `EndTime`; stated by `Capture.CleanupRemovesExactlyExpired` |
| Capture.Unexpired | pkg/capture/capture.go:159-163 | the table after cleanup; stated by `Capture.CleanupRemovesExactlyExpired` and the ensures of `Capture.FlowTable.Cleanup` |
| Capture.FlowTable.Cleanup | pkg/capture/capture.go:155-165 | the table keeps exactly the records whose end time is within the timeout |
| Capture.CleanupRemovesExactlyExpired | pkg/capture/capture.go:159-163 | a flow survives the reaper iff now - EndTime <= 5 minutes, and survivors are unchanged |
| Metrics.MetricKey | pkg/metrics/metrics.go:93 | the seven labels joined with `:`; stated by `Metrics.KeyRoundTrip` and `Metrics.ColonInLabelPinsSeries` |
| Metrics.Removable | pkg/metrics/metrics.go:106-109 | a series is deleted iff it is more than 5 minutes old and its key splits into exactly seven parts; stated by `Metrics.SweepLeavesNoRemovable`, `Metrics.SweepKeepsRecent` and `Metrics.StaleColonFreeSeriesSwept` |
| Metrics.Swept | pkg/metrics/metrics.go:105-137 | the table after `CleanupMetrics`; stated by `Metrics.SweepOnlyDeletes` and the ensures of `Metrics.ActiveMetrics.CleanupMetrics` |
| Metrics.ActiveMetrics.UpdateMetrics | pkg/metrics/metrics.go:93-96 | the series keyed by the seven labels joined with ':' is stamped with the current time |
| Metrics.ActiveMetrics.CleanupMetrics | pkg/metrics/metrics.go:100-140 | the table becomes its sweep: stale keys that split into exactly seven parts are removed |
| Metrics.KeyRoundTrip | pkg/metrics/metrics.go:93-118 | when no label contains ':', the key splits back into the seven labels in order |
| Metrics.SweepOnlyDeletes | pkg/metrics/metrics.go:100-140 | the sweep only removes entries and never changes a timestamp |
| Metrics.SweepLeavesNoRemovable | pkg/metrics/metrics.go:106-136 | after a sweep, no stale seven-part key remains |
| Metrics.SweepKeepsRecent | pkg/metrics/metrics.go:106 | a series updated within five minutes survives the sweep unchanged |
| Metrics.StaleColonFreeSeriesSwept | pkg/metrics/metrics.go:93-136 | a stale series whose labels have no ':' is removed |
| Metrics.ColonInLabelPinsSeries | pkg/metrics/metrics.go:108-109 | a series with ':' inside a label splits into more than seven parts and is never removed, however stale |

## Left out

- Packet capture itself is not modelled: pcap handles, gopacket decoding, BPF filters, `Start`/`Stop`, goroutines, the ticker and the mutex. A packet is given as its decoded layers, and each branch of the `select` loop is a separate method.
- The blocking send on the output channel is modelled by returning the emitted records in order from `Flush`. Back-pressure is not modelled.
- Go map iteration order is random. `Flush` and the two sweeps are proved for every order. `Flush` exposes its order only as a ghost sequence.
- Redis and Kubernetes are reduced to a cache map, a directory map and failure flags. Timeouts, connection errors and a Redis miss all fall into "the cache could not answer". The `fmt.Errorf` message text is reduced to an error kind.
- Whether a cache read, a cache write or the directory fails is fixed per resolver (`Env`), so the source and destination lookups of one flow, or of one rendering, always share it. In Go each `redis.GetIP`, `redis.SetIP` and `k8s.GetOFIPByIPv4` call can fail on its own (redis.go:69-75, k8s.go:55-67). The model does not reach, for example, a source read that times out next to a destination read that hits the cache.
- The warning printed when a cache write fails is not modelled; the failure is only a flag.
- `time.Time` formatting, `%.2f` formatting of the duration and `json.Marshal` are function parameters of the renderers. Only what the rendering does not depend on them for is proved.
- Types.PacketStringReadsBack: `PacketInfo.String` is proved to read back only for fields without spaces. That is the only case in which `Split` can recover them.
- `PacketInfo.JSONString` (packet.go:29-47) is not modelled, because it is only a `json.Marshal` of the fields and it is not on the flow path.
- Capture.CalculateWindowSize: the exact rational comparison ignores float64 rounding of `float64(bytes)` above 2^53 and of `Duration.Seconds()`. A rate within one rounding step of a threshold may classify differently in Go.
- Capture.UpsertExistingKey: `TotalBytes` and `Packets` are unbounded integers. The int64 wrap-around after 2^63 is not modelled.
- Capture.FlowTable.Cleanup: time differences are unbounded integers. The saturation of `time.Time.Sub` at about 292 years is not modelled.
- Capture.FlowKeyInjective: the key is a string, as in the source. Injectivity is proved only when the protocol name has no ':', which holds for gopacket's layer names.
- The unused capture settings are carried by no model: buffer size, promiscuous mode, BPF filter, maximum packet size and maximum connection count (capture.go:43-56, 58-77). The source never enforces the maximum connection count.
- The Prometheus counters, gauges and histograms updated by `UpdateMetrics`, and their `Delete` calls in `CleanupMetrics`, are not modelled. The model covers the key bookkeeping of metrics.go only.
- cmd/netlog/main.go (flags, output mode, the consumer loop) is not part of this model. Neither is the network code of pkg/redis/redis.go and pkg/k8s/k8s.go.
- IPv6: packets whose network layer is not IPv4 are skipped by the source. The model keeps only that fact.
- A directory identity that starts with '-' yields an empty namespace. Such an entry is cached, but a cached entry with an empty namespace does not count as a hit, so the address is sent to the directory again on every lookup. The model reproduces this and proves nothing further about it.
