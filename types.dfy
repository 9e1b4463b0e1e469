/**
 * The record types of pkg/types and the identity resolver
 * GetNamespaceAndNameByIPv4: a cache-aside lookup of an IP in the fast
 * identity cache (Redis) with fallback to the directory of floating-IP
 * records (Kubernetes), writing the parsed identity back to the cache.
 */
module Types {
  import opened Wrappers
  import opened Text

  // ---- PacketInfo -------------------------------------------------------

  /** A single packet as pkg/types renders it; every field is already text. */
  datatype PacketInfo = PacketInfo(
    timestamp: int,
    source: string,
    destination: string,
    protocol: string,
    port: string,
    bytes: string)

  /**
   * PacketInfo.String: `<src> => <dst> <proto> <port> <bytes> bytes`, that
   * is, seven fields separated by single spaces.
   */
  function PacketString(p: PacketInfo): string
  {
    Join([p.source, "=>", p.destination, p.protocol, p.port, p.bytes, "bytes"], ' ')
  }

  /** The Sprintf layout: each field followed by a single space, then `bytes`. */
  lemma PacketStringSpaced(p: PacketInfo)
    ensures PacketString(p)
         == p.source + " " + ("=>" + " " + (p.destination + " " + (p.protocol + " "
            + (p.port + " " + (p.bytes + " " + "bytes")))))
  {
    var parts := [p.source, "=>", p.destination, p.protocol, p.port, p.bytes, "bytes"];
    assert parts[6..] == ["bytes"];
    JoinSpaced(parts[5..], p.bytes, "bytes", p.bytes + " " + "bytes");
    JoinSpaced(parts[4..], p.port, Join(parts[5..], ' '), p.port + " " + Join(parts[5..], ' '));
    JoinSpaced(parts[3..], p.protocol, Join(parts[4..], ' '), p.protocol + " " + Join(parts[4..], ' '));
    JoinSpaced(parts[2..], p.destination, Join(parts[3..], ' '), p.destination + " " + Join(parts[3..], ' '));
    JoinSpaced(parts[1..], "=>", Join(parts[2..], ' '), "=>" + " " + Join(parts[2..], ' '));
    JoinSpaced(parts, p.source, Join(parts[1..], ' '), p.source + " " + Join(parts[1..], ' '));
  }

  /** One step of a space join: the head, a space, then the join of the rest. */
  lemma JoinSpaced(parts: seq<string>, head: string, rest: string, whole: string)
    requires |parts| >= 2 && parts[0] == head && Join(parts[1..], ' ') == rest
    requires whole == head + " " + rest
    ensures Join(parts, ' ') == whole
  {
  }

  /** The case the unit test pins. */
  lemma PacketStringExample(p: PacketInfo)
    requires p.source == "192.168.1.100" && p.destination == "8.8.8.8" && p.protocol == "TCP"
    requires p.port == "443" && p.bytes == "1000"
    ensures PacketString(p) == "192.168.1.100 => 8.8.8.8 TCP 443 1000 bytes"
  {
    PacketStringSpaced(p);
  }

  /** When no field holds a space, the fields can be read back from the text. */
  lemma PacketStringReadsBack(p: PacketInfo)
    requires ' ' !in p.source && ' ' !in p.destination && ' ' !in p.protocol
    requires ' ' !in p.port && ' ' !in p.bytes
    ensures Split(PacketString(p), ' ') == [p.source, "=>", p.destination, p.protocol, p.port, p.bytes, "bytes"]
  {
    var parts := [p.source, "=>", p.destination, p.protocol, p.port, p.bytes, "bytes"];
    assert forall i :: 0 <= i < |parts| ==> ' ' !in parts[i];
    SplitJoin(parts, ' ');
  }

  // ---- AggregatedInfo ---------------------------------------------------

  /**
   * One flow aggregate. It carries the union of the fields of the two
   * declarations in the source (Direction and LastSeen exist only on the
   * capture side). Times are integer nanoseconds.
   */
  datatype AggregatedInfo = AggregatedInfo(
    startTime: int,
    endTime: int,
    source: string,
    destination: string,
    protocol: string,
    port: string,
    totalBytes: int,
    packets: int,
    namespace: string,
    name: string,
    direction: string,
    lastSeen: int)

  // ---- Identity resolution ----------------------------------------------

  /** A workload identity (redis.IPInfo and OFIP have the same two fields). */
  datatype IPInfo = IPInfo(namespace: string, name: string)

  datatype ResolveError =
    | EmptyAddress                      // "ipv4 cannot be empty"
    | DirectoryFailure                  // directory unreachable, or no record for the IP
    | MalformedIdentifier(id: string)   // record name without a '-'

  type Resolution = Result<IPInfo, ResolveError>

  /**
   * What the resolver cannot change: whether cache reads and writes fail,
   * and the directory's IP-to-identifier records and whether it answers.
   * A cache entry that lacks a field, or any cache read error, is a miss.
   */
  datatype Env = Env(
    cacheGetFails: bool,
    cacheSetFails: bool,
    directory: map<string, string>,
    directoryFails: bool)

  /** redis.GetIP succeeds with a non-empty namespace. */
  predicate CacheHit(cache: map<string, IPInfo>, env: Env, ip: string)
  {
    !env.cacheGetFails && ip in cache && cache[ip].namespace != ""
  }

  /** Whether a lookup of `ip` goes on to query the directory. */
  predicate ConsultsDirectory(cache: map<string, IPInfo>, env: Env, ip: string)
  {
    ip != "" && !CacheHit(cache, env, ip)
  }

  /** The directory's answer parsed as `<namespace>-<name>`, when the directory answers. */
  function DirectoryIdentity(env: Env, ip: string): Option<Resolution>
  {
    if env.directoryFails || ip !in env.directory then None
    else
      var id := env.directory[ip];
      match SplitFirst(id, '-')
      case None => Some(Failure(MalformedIdentifier(id)))
      case Some((ns, name)) => Some(Success(IPInfo(ns, name)))
  }

  /** What GetNamespaceAndNameByIPv4 returns. */
  function Resolve(cache: map<string, IPInfo>, env: Env, ip: string): Resolution
  {
    if ip == "" then Failure(EmptyAddress)
    else if CacheHit(cache, env, ip) then Success(cache[ip])
    else match DirectoryIdentity(env, ip)
      case None => Failure(DirectoryFailure)
      case Some(r) => r
  }

  /** The cache after GetNamespaceAndNameByIPv4: written back only after a well-formed directory answer. */
  function CacheAfter(cache: map<string, IPInfo>, env: Env, ip: string): map<string, IPInfo>
  {
    if !ConsultsDirectory(cache, env, ip) || env.cacheSetFails then cache
    else match DirectoryIdentity(env, ip)
      case Some(Success(info)) => cache[ip := info]
      case _ => cache
  }

  /**
   * The addresses sent to the directory when `first` is looked up and then
   * `second`, the second lookup seeing the cache the first one left.
   */
  function PairQueries(cache: map<string, IPInfo>, env: Env, first: string, second: string): (q: seq<string>)
    ensures |q| <= 2
    ensures forall i :: 0 <= i < |q| ==> q[i] == first || q[i] == second
  {
    (if ConsultsDirectory(cache, env, first) then [first] else [])
    + (if ConsultsDirectory(CacheAfter(cache, env, first), env, second) then [second] else [])
  }

  /**
   * The resolver's view of its two backends. The cache is the only state a
   * lookup changes; `directoryQueries` records, for the specification only,
   * each IP the directory was asked about.
   */
  class Resolver {
    var cache: map<string, IPInfo>
    var env: Env
    ghost var directoryQueries: seq<string>

    constructor (cache0: map<string, IPInfo>, env0: Env)
      ensures cache == cache0 && env == env0 && directoryQueries == []
    {
      cache := cache0;
      env := env0;
      directoryQueries := [];
    }

    /** GetNamespaceAndNameByIPv4. */
    method GetNamespaceAndNameByIPv4(ip: string) returns (r: Resolution)
      modifies this`cache, this`directoryQueries
      ensures r == Resolve(old(cache), env, ip)
      ensures cache == CacheAfter(old(cache), env, ip)
      ensures directoryQueries
           == old(directoryQueries) + (if ConsultsDirectory(old(cache), env, ip) then [ip] else [])
    {
      if ip == "" {
        return Failure(EmptyAddress);
      }
      if !env.cacheGetFails && ip in cache && cache[ip].namespace != "" {
        return Success(cache[ip]);
      }
      directoryQueries := directoryQueries + [ip];
      if env.directoryFails || ip !in env.directory {
        return Failure(DirectoryFailure);
      }
      var id := env.directory[ip];
      var parts := SplitFirst(id, '-');
      if parts.None? {
        return Failure(MalformedIdentifier(id));
      }
      var info := IPInfo(parts.value.0, parts.value.1);
      if !env.cacheSetFails {
        cache := cache[ip := info];
      }
      return Success(info);
    }
  }

  /** The empty address is refused before either backend is touched. */
  lemma ResolveEmptyAddress(cache: map<string, IPInfo>, env: Env)
    ensures Resolve(cache, env, "") == Failure(EmptyAddress)
    ensures CacheAfter(cache, env, "") == cache
    ensures !ConsultsDirectory(cache, env, "")
  {
  }

  /** A cached identity with a namespace is returned as is, without the directory and without a write. */
  lemma ResolveCacheHit(cache: map<string, IPInfo>, env: Env, ip: string)
    requires ip != "" && CacheHit(cache, env, ip)
    ensures Resolve(cache, env, ip) == Success(cache[ip])
    ensures CacheAfter(cache, env, ip) == cache
    ensures !ConsultsDirectory(cache, env, ip)
  {
  }

  /** A miss (or an empty cached namespace) followed by a directory failure is an error and writes nothing. */
  lemma ResolveDirectoryFailure(cache: map<string, IPInfo>, env: Env, ip: string)
    requires ip != "" && !CacheHit(cache, env, ip)
    requires env.directoryFails || ip !in env.directory
    ensures Resolve(cache, env, ip) == Failure(DirectoryFailure)
    ensures CacheAfter(cache, env, ip) == cache
    ensures ConsultsDirectory(cache, env, ip)
  {
  }

  /**
   * A directory answer is split on its first '-': the namespace holds no
   * '-' and namespace + "-" + name is the identifier; an identifier
   * without '-' is an error and nothing is cached.
   */
  lemma ResolveSplitsOnFirstHyphen(cache: map<string, IPInfo>, env: Env, ip: string)
    requires ip != "" && !CacheHit(cache, env, ip)
    requires !env.directoryFails && ip in env.directory
    ensures var id := env.directory[ip];
      && ('-' in id ==> Resolve(cache, env, ip).Success?
                        && '-' !in Resolve(cache, env, ip).value.namespace
                        && Resolve(cache, env, ip).value.namespace + "-" + Resolve(cache, env, ip).value.name == id)
      && ('-' !in id ==> Resolve(cache, env, ip) == Failure(MalformedIdentifier(id))
                         && CacheAfter(cache, env, ip) == cache)
  {
  }

  /**
   * After a well-formed directory answer the identity is returned whether
   * or not the cache write succeeds, and a successful write stores exactly
   * that identity under the IP, leaving other entries alone.
   */
  lemma ResolveWritesBack(cache: map<string, IPInfo>, env: Env, ip: string)
    requires ConsultsDirectory(cache, env, ip)
    requires DirectoryIdentity(env, ip).Some? && DirectoryIdentity(env, ip).value.Success?
    ensures Resolve(cache, env, ip) == DirectoryIdentity(env, ip).value
    ensures !env.cacheSetFails ==> CacheAfter(cache, env, ip) == cache[ip := Resolve(cache, env, ip).value]
    ensures env.cacheSetFails ==> CacheAfter(cache, env, ip) == cache
  {
  }

  /**
   * Two lookups of one IP against a cold cache ask the directory once: the
   * first writes the identity back, so the second is a cache hit with the
   * same answer. This needs the parsed namespace to be non-empty; an
   * identifier starting with '-' is re-fetched on every lookup.
   */
  lemma {:induction false} SecondLookupHitsCache(cache: map<string, IPInfo>, env: Env, ip: string)
    requires ip != "" && ip !in cache
    requires !env.cacheGetFails && !env.cacheSetFails
    requires Resolve(cache, env, ip).Success? && Resolve(cache, env, ip).value.namespace != ""
    ensures ConsultsDirectory(cache, env, ip)
    ensures !ConsultsDirectory(CacheAfter(cache, env, ip), env, ip)
    ensures Resolve(CacheAfter(cache, env, ip), env, ip) == Resolve(cache, env, ip)
  {
    assert DirectoryIdentity(env, ip).Some?;
  }

  /** When both endpoints are served from the cache, the two lookups ask the directory nothing. */
  lemma CachedPairQueriesNothing(cache: map<string, IPInfo>, env: Env, first: string, second: string)
    requires CacheHit(cache, env, first) && CacheHit(cache, env, second)
    ensures PairQueries(cache, env, first, second) == []
  {
  }

  /** Two lookups of the same cold address ask the directory once: the first answer is cached. */
  lemma RepeatedAddressQueriedOnce(cache: map<string, IPInfo>, env: Env, ip: string)
    requires ip != "" && ip !in cache
    requires !env.cacheGetFails && !env.cacheSetFails
    requires Resolve(cache, env, ip).Success? && Resolve(cache, env, ip).value.namespace != ""
    ensures PairQueries(cache, env, ip, ip) == [ip]
  {
    SecondLookupHitsCache(cache, env, ip);
  }

  /** The cold-cache scenario for 10.0.0.5 whose directory record is "billing-worker". */
  lemma BillingWorkerExample(cache: map<string, IPInfo>, env: Env)
    requires "10.0.0.5" !in cache
    requires !env.cacheSetFails && !env.directoryFails
    requires "10.0.0.5" in env.directory && env.directory["10.0.0.5"] == "billing-worker"
    ensures Resolve(cache, env, "10.0.0.5") == Success(IPInfo("billing", "worker"))
    ensures CacheAfter(cache, env, "10.0.0.5") == cache["10.0.0.5" := IPInfo("billing", "worker")]
  {
    BillingWorkerSplit(env.directory["10.0.0.5"]);
  }

  lemma BillingWorkerSplit(id: string)
    requires id == "billing-worker"
    ensures SplitFirst(id, '-') == Some(("billing", "worker"))
  {
    assert "billing" + ['-'] + "worker" == id;
    IndexOfAfterPrefix("billing", '-', "worker");
    assert id[..7] == "billing" && id[8..] == "worker";
  }

  // ---- Rendering of aggregates -------------------------------------------

  /** The resolved endpoint carries a namespace. */
  predicate Attributed(r: Resolution)
  {
    r.Success? && r.value.namespace != ""
  }

  /**
   * The re-attribution AggregatedInfo.String and JSONString both perform
   * on their copy of the record, given the lookups of its source (`rs`)
   * and destination (`rd`).
   */
  function Reattributed(a: AggregatedInfo, rs: Resolution, rd: Resolution): (b: AggregatedInfo)
    ensures b == a.(namespace := b.namespace, name := b.name)
    ensures rs.Failure? && rd.Failure? ==> b.namespace == "" && b.name == ""
    ensures Attributed(rs) ==> b.namespace == rs.value.namespace && b.name == rs.value.name
    ensures !Attributed(rs) && Attributed(rd) ==> b.namespace == rd.value.namespace && b.name == rd.value.name
    ensures !(rs.Failure? && rd.Failure?) && !Attributed(rs) && !Attributed(rd) ==> b == a
  {
    if rs.Failure? && rd.Failure? then a.(namespace := "", name := "")
    else if Attributed(rs) then a.(namespace := rs.value.namespace, name := rs.value.name)
    else if Attributed(rd) then a.(namespace := rd.value.namespace, name := rd.value.name)
    else a
  }

  /** The fields of the JSON object AggregatedInfo.JSONString marshals. */
  datatype AggregatedJson = AggregatedJson(
    timestamp: string,
    namespace: string,
    name: string,
    duration: string,
    source: string,
    destination: string,
    protocol: string,
    port: string,
    totalBytes: int,
    packets: int)

  /**
   * AggregatedInfo.String after re-attribution: "" when no namespace is
   * known, otherwise the text line. `showTime` stands for time.Time's String
   * and `showSeconds` for the `%.2f` rendering of a duration in nanoseconds.
   */
  function AggregatedText(a: AggregatedInfo, rs: Resolution, rd: Resolution,
                          showTime: int -> string, showSeconds: int -> string): string
  {
    var b := Reattributed(a, rs, rd);
    if b.namespace == "" then ""
    else
      showTime(b.startTime) + " " + b.namespace + " " + b.name + " " + b.source + " => "
      + b.destination + " " + b.protocol + " " + b.port + " " + SignedDecimal(b.totalBytes)
      + " bytes (" + SignedDecimal(b.packets) + " packets in " + showSeconds(b.endTime - b.startTime) + "s)"
  }

  /**
   * AggregatedInfo.JSONString after re-attribution: "" when no namespace is
   * known, otherwise the marshalled object. `marshal` stands for
   * json.Marshal, `showTime` for the timestamp layout.
   */
  function AggregatedJsonText(a: AggregatedInfo, rs: Resolution, rd: Resolution,
                              showTime: int -> string, showSeconds: int -> string,
                              marshal: AggregatedJson -> string): string
  {
    var b := Reattributed(a, rs, rd);
    if b.namespace == "" then ""
    else marshal(AggregatedJson(showTime(b.startTime), b.namespace, b.name,
                                showSeconds(b.endTime - b.startTime) + "s",
                                b.source, b.destination, b.protocol, b.port, b.totalBytes, b.packets))
  }

  /** The text form is suppressed exactly when the re-attributed namespace is empty. */
  lemma TextSuppressedIffNoNamespace(a: AggregatedInfo, rs: Resolution, rd: Resolution,
                                     showTime: int -> string, showSeconds: int -> string)
    ensures AggregatedText(a, rs, rd, showTime, showSeconds) == "" <==> Reattributed(a, rs, rd).namespace == ""
  {
    var b := Reattributed(a, rs, rd);
    if b.namespace != "" {
      var s := AggregatedText(a, rs, rd, showTime, showSeconds);
      assert |s| >= |showTime(b.startTime) + " "|;
    }
  }

  /**
   * Both renderings take the same decision: with a marshaller that never
   * yields "" (json.Marshal of a struct is at least "{}"), the JSON form is
   * suppressed exactly when the text form is, whichever time layouts the two
   * use (time.Time's String for the text, a fixed layout for the JSON).
   */
  lemma JsonSuppressedIffTextSuppressed(a: AggregatedInfo, rs: Resolution, rd: Resolution,
                                        textTime: int -> string, jsonTime: int -> string,
                                        showSeconds: int -> string, marshal: AggregatedJson -> string)
    requires forall j :: marshal(j) != ""
    ensures AggregatedJsonText(a, rs, rd, jsonTime, showSeconds, marshal) == ""
        <==> AggregatedText(a, rs, rd, textTime, showSeconds) == ""
  {
    TextSuppressedIffNoNamespace(a, rs, rd, textTime, showSeconds);
  }

  /** When both lookups fail the record is suppressed, whatever namespace it carried. */
  lemma BothLookupsFailedSuppresses(a: AggregatedInfo, rs: Resolution, rd: Resolution,
                                    showTime: int -> string, showSeconds: int -> string)
    requires rs.Failure? && rd.Failure?
    ensures AggregatedText(a, rs, rd, showTime, showSeconds) == ""
  {
  }

  /** AggregatedInfo.String: both endpoints are looked up again, source first. */
  method AggregatedString(r: Resolver, a: AggregatedInfo, showTime: int -> string, showSeconds: int -> string)
    returns (s: string)
    modifies r`cache, r`directoryQueries
    ensures var rs := Resolve(old(r.cache), r.env, a.source);
            var mid := CacheAfter(old(r.cache), r.env, a.source);
            var rd := Resolve(mid, r.env, a.destination);
            && s == AggregatedText(a, rs, rd, showTime, showSeconds)
            && r.cache == CacheAfter(mid, r.env, a.destination)
            && r.directoryQueries == old(r.directoryQueries) + PairQueries(old(r.cache), r.env, a.source, a.destination)
  {
    var rs := r.GetNamespaceAndNameByIPv4(a.source);
    var rd := r.GetNamespaceAndNameByIPv4(a.destination);
    s := AggregatedText(a, rs, rd, showTime, showSeconds);
  }

  /** AggregatedInfo.JSONString: the same two lookups, then the JSON form. */
  method AggregatedJSONString(r: Resolver, a: AggregatedInfo, showTime: int -> string, showSeconds: int -> string,
                              marshal: AggregatedJson -> string)
    returns (s: string)
    modifies r`cache, r`directoryQueries
    ensures var rs := Resolve(old(r.cache), r.env, a.source);
            var mid := CacheAfter(old(r.cache), r.env, a.source);
            var rd := Resolve(mid, r.env, a.destination);
            && s == AggregatedJsonText(a, rs, rd, showTime, showSeconds, marshal)
            && r.cache == CacheAfter(mid, r.env, a.destination)
            && r.directoryQueries == old(r.directoryQueries) + PairQueries(old(r.cache), r.env, a.source, a.destination)
  {
    var rs := r.GetNamespaceAndNameByIPv4(a.source);
    var rd := r.GetNamespaceAndNameByIPv4(a.destination);
    s := AggregatedJsonText(a, rs, rd, showTime, showSeconds, marshal);
  }
}
