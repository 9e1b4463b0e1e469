/**
 * The bookkeeping pkg/metrics keeps beside its Prometheus series: the
 * activeMetrics map from a `:`-joined label key to the time the series
 * was last updated, and the sweep that deletes series not updated for
 * five minutes. Times are integer nanoseconds.
 */
module Metrics {
  import opened Text

  /** Five minutes. */
  const StaleAfter: int := 5 * 60 * 1_000_000_000

  /** The seven labels of the byte and packet counters, in key order. */
  datatype Labels = Labels(
    namespace: string,
    name: string,
    source: string,
    destination: string,
    protocol: string,
    port: string,
    direction: string)
  {
    function Values(): seq<string>
    {
      [namespace, name, source, destination, protocol, port, direction]
    }

    predicate ColonFree()
    {
      forall i :: 0 <= i < |Values()| ==> ':' !in Values()[i]
    }
  }

  /** The labels read back from the seven parts of a key. */
  function LabelsOf(parts: seq<string>): Labels
    requires |parts| == 7
  {
    Labels(parts[0], parts[1], parts[2], parts[3], parts[4], parts[5], parts[6])
  }

  /** The key UpdateMetrics files a series under: the labels joined by ':'. */
  function MetricKey(l: Labels): string
  {
    Join(l.Values(), ':')
  }

  /** CleanupMetrics deletes an entry when it is stale and its key splits into exactly seven parts. */
  predicate Removable(key: string, lastUpdate: int, now: int)
  {
    now - lastUpdate > StaleAfter && |Split(key, ':')| == 7
  }

  /** The map after CleanupMetrics: the entries that are not removable, unchanged. */
  function Swept(m: map<string, int>, now: int): map<string, int>
  {
    map k | k in m && !Removable(k, m[k], now) :: m[k]
  }

  ghost function SweepRemainder(m: map<string, int>, pending: set<string>, now: int): map<string, int>
  {
    map k | k in m && (k in pending || !Removable(k, m[k], now)) :: m[k]
  }

  /** The package-level activeMetrics map. */
  class ActiveMetrics {
    var lastUpdate: map<string, int>

    constructor ()
      ensures lastUpdate == map[]
    {
      lastUpdate := map[];
    }

    /** The tracking step of UpdateMetrics: stamp the series' key with `now`. */
    method UpdateMetrics(l: Labels, now: int)
      modifies this
      ensures lastUpdate == old(lastUpdate)[MetricKey(l) := now]
    {
      var key := MetricKey(l);
      lastUpdate := lastUpdate[key := now];
    }

    /** CleanupMetrics: delete every stale entry whose key splits back into seven labels. */
    method CleanupMetrics(now: int)
      modifies this
      ensures lastUpdate == Swept(old(lastUpdate), now)
    {
      ghost var m0 := lastUpdate;
      var pending := lastUpdate.Keys;
      while pending != {}
        invariant pending <= m0.Keys
        invariant lastUpdate == SweepRemainder(m0, pending, now)
        decreases pending
      {
        var key :| key in pending;
        assert SweepRemainder(m0, pending - {key}, now)
            == if Removable(key, m0[key], now) then lastUpdate - {key} else lastUpdate;
        if now - lastUpdate[key] > StaleAfter {
          var parts := Split(key, ':');
          if |parts| == 7 {
            lastUpdate := lastUpdate - {key};
          }
        }
        pending := pending - {key};
      }
      assert SweepRemainder(m0, {}, now) == Swept(m0, now);
    }
  }

  /** Splitting the key of colon-free labels gives the labels back, in order. */
  lemma KeyRoundTrip(l: Labels)
    requires l.ColonFree()
    ensures Split(MetricKey(l), ':') == l.Values()
    ensures LabelsOf(Split(MetricKey(l), ':')) == l
  {
    SplitJoin(l.Values(), ':');
  }

  /** The sweep only deletes: no key appears and no surviving value changes. */
  lemma SweepOnlyDeletes(m: map<string, int>, now: int)
    ensures Swept(m, now).Keys <= m.Keys
    ensures forall k :: k in Swept(m, now) ==> Swept(m, now)[k] == m[k]
  {
  }

  /** No entry survives that is over five minutes old and whose key splits into seven parts. */
  lemma SweepLeavesNoRemovable(m: map<string, int>, now: int)
    ensures forall k :: k in Swept(m, now) ==> !(now - m[k] > StaleAfter && |Split(k, ':')| == 7)
  {
  }

  /** Entries updated no more than five minutes ago survive with their timestamps. */
  lemma SweepKeepsRecent(m: map<string, int>, now: int, k: string)
    requires k in m && now - m[k] <= StaleAfter
    ensures k in Swept(m, now) && Swept(m, now)[k] == m[k]
  {
  }

  /** A stale series whose labels hold no ':' is deleted by the sweep. */
  lemma StaleColonFreeSeriesSwept(m: map<string, int>, now: int, l: Labels)
    requires l.ColonFree()
    requires MetricKey(l) in m && now - m[MetricKey(l)] > StaleAfter
    ensures MetricKey(l) !in Swept(m, now)
  {
    KeyRoundTrip(l);
  }

  /**
   * A series one of whose labels holds a ':' has a key that splits into
   * more than seven parts, so the sweep never deletes it, however stale.
   */
  lemma ColonInLabelPinsSeries(m: map<string, int>, now: int, l: Labels)
    requires !l.ColonFree()
    requires MetricKey(l) in m
    ensures |Split(MetricKey(l), ':')| > 7
    ensures MetricKey(l) in Swept(m, now) && Swept(m, now)[MetricKey(l)] == m[MetricKey(l)]
  {
    OccurrencesInJoin(l.Values(), ':');
  }
}
