/**
 * The TLS poller object: its stream registry, its eviction counter and the
 * shared stream table it registers new streams in. The methods change these
 * fields in place and are proved against the value-level registry machine
 * of module `Registry`.
 */
module Poller {
  import opened Wrappers
  import opened Canonical
  import opened Registry

  /** Average size of one fd-cache entry, and the cache's capacity derived from it. */
  const FdCachedItemAvgSize: nat := 40
  const FdCacheMaxItems: nat := 500000 / FdCachedItemAvgSize

  /** The eviction callback logs once per this many evictions. */
  const EvictionLogInterval: nat := 1000000

  /** The LRU constructor's only argument check. */
  datatype LruError = NonPositiveSize

  /** `simplelru.NewLRU`: a cache of the given capacity, refused when the capacity is not positive. */
  function NewLru(size: int): (r: Result<nat, LruError>)
    ensures r.Success? <==> size > 0
    ensures r.Success? ==> r.value == size
  {
    if size <= 0 then Failure(NonPositiveSize) else Success(size)
  }

  /** The poller's fd cache is built with a capacity of 12500 entries, which the LRU accepts. */
  lemma FdCacheCapacity()
    ensures FdCacheMaxItems == 12500
    ensures NewLru(FdCacheMaxItems) == Success(12500)
  {
  }

  /** The shared stream table: a fresh-id allocator and the streams stored under their ids. */
  class TcpStreamMap {
    var nextId: nat
    var table: map<nat, TlsStream>

    constructor (firstId: nat)
      ensures nextId == firstId && table == map[]
    {
      nextId := firstId;
      table := map[];
    }

    /** Hands out the next id; ids are never reused. */
    method NextId() returns (id: nat)
      modifies this
      ensures id == old(nextId) && nextId == old(nextId) + 1
      ensures table == old(table)
    {
      id := nextId;
      nextId := nextId + 1;
    }

    method Store(id: nat, stream: TlsStream)
      modifies this
      ensures table == old(table)[id := stream]
      ensures nextId == old(nextId)
    {
      table := table[id := stream];
    }
  }

  class TlsPoller {
    /** The registry: one stream per flow key. */
    var streams: map<string, TlsStream>
    /** How many entries the fd cache has evicted. */
    var evictedCounter: nat
    /** Every `reader.newChunk` call made so far, in order. */
    var delivered: seq<Delivery>
    /** The capacity the fd cache was built with. */
    const fdCacheCapacity: nat

    /** The struct `newTlsPoller` fills in: empty registry, counter at zero. */
    constructor (capacity: nat)
      ensures streams == map[] && evictedCounter == 0 && delivered == []
      ensures fdCacheCapacity == capacity
    {
      streams := map[];
      evictedCounter := 0;
      delivered := [];
      fdCacheCapacity := capacity;
    }

    /** The registry machine's view of this poller together with the shared table. */
    ghost function Snapshot(streamsMap: TcpStreamMap): State
      reads this, streamsMap
    {
      State(streams, streamsMap.nextId, streamsMap.table, delivered)
    }

    /** `handleTlsChunk`: find or create the chunk's stream, then hand the chunk to the reader it picks. */
    method HandleTlsChunk(o: Observed, streamsMap: TcpStreamMap)
      modifies this, streamsMap
      ensures Snapshot(streamsMap) == HandleChunk(old(Snapshot(streamsMap)), o)
      ensures evictedCounter == old(evictedCounter)
    {
      var key := BuildTlsKey(o.address, o.isRequest);
      var stream: TlsStream;
      if key in streams {
        stream := streams[key];
      } else {
        var id := streamsMap.NextId();
        stream := NewStream(key, id, o.address);
        streamsMap.Store(stream.id, stream);
        streams := streams[key := stream];
      }
      delivered := delivered + [Delivery(stream.id, o.toClient, o.chunk)];
    }

    /** `poll`: take events until the chunk channel is closed; returns how many were taken. */
    method Poll(events: seq<Event>, streamsMap: TcpStreamMap) returns (taken: nat)
      modifies this, streamsMap
      ensures Snapshot(streamsMap) == Run(old(Snapshot(streamsMap)), events)
      ensures taken == Consumed(events)
      ensures evictedCounter == old(evictedCounter)
    {
      var i := 0;
      while i < |events|
        invariant 0 <= i <= |events|
        invariant Run(old(Snapshot(streamsMap)), events) == Run(Snapshot(streamsMap), events[i..])
        invariant Consumed(events) == i + Consumed(events[i..])
        invariant evictedCounter == old(evictedCounter)
      {
        assert events[i..][0] == events[i] && events[i..][1..] == events[i + 1..];
        match events[i] {
          case ChunksClosed =>
            return i + 1;
          case ChunkArrived(o) =>
            HandleTlsChunk(o, streamsMap);
          case CloseStream(key) =>
            streams := streams - {key};
        }
        i := i + 1;
      }
      taken := |events|;
    }

    /** `fdCacheEvictCallback`: count the eviction; report whether this one is logged. */
    method FdCacheEvictCallback() returns (logged: bool)
      modifies this`evictedCounter
      ensures evictedCounter == old(evictedCounter) + 1
      ensures logged <==> EvictionLogged(evictedCounter)
    {
      evictedCounter := evictedCounter + 1;
      logged := evictedCounter % EvictionLogInterval == 0;
    }
  }

  /** `newTlsPoller` with the fd cache's capacity as a parameter (the poller passes
    * `FdCacheMaxItems`): an empty poller, or the LRU's error. */
  method NewTlsPoller(capacity: int) returns (r: Result<TlsPoller, LruError>)
    ensures r.Success? <==> capacity > 0
    ensures r.Success? ==> fresh(r.value)
    ensures r.Success? ==> r.value.streams == map[] && r.value.evictedCounter == 0 && r.value.delivered == []
    ensures r.Success? ==> r.value.fdCacheCapacity == capacity
  {
    var cache := NewLru(capacity);
    if cache.Failure? {
      return Failure(cache.error);
    }
    var poller := new TlsPoller(cache.value);
    return Success(poller);
  }

  /** Whether the eviction that brings the counter to `counter` is logged. */
  predicate EvictionLogged(counter: nat)
  {
    counter % EvictionLogInterval == 0
  }

  /** The number of log lines the first `n` evictions of a fresh poller emit. */
  function LogsAfter(n: nat): nat
  {
    if n == 0 then 0 else LogsAfter(n - 1) + (if EvictionLogged(n) then 1 else 0)
  }

  /** One line per full million evictions: the log is a throttled count. */
  lemma {:induction false} LogsAfterCount(n: nat)
    ensures LogsAfter(n) == n / EvictionLogInterval
  {
    if n > 0 {
      LogsAfterCount(n - 1);
      var q := (n - 1) / EvictionLogInterval;
      var m := (n - 1) % EvictionLogInterval;
      assert n - 1 == q * EvictionLogInterval + m;
      if m == EvictionLogInterval - 1 {
        assert n == (q + 1) * EvictionLogInterval;
      } else {
        assert n == q * EvictionLogInterval + (m + 1);
      }
    }
  }

  /** `n` successive evictions on one poller: the counter advances by `n`, and the callbacks log
    * once for each multiple of the interval the counter passes; from a fresh poller that is
    * `n / 1000000` lines. */
  method EvictRepeatedly(p: TlsPoller, n: nat) returns (logged: nat)
    modifies p`evictedCounter
    ensures p.evictedCounter == old(p.evictedCounter) + n
    ensures logged == LogsAfter(p.evictedCounter) - LogsAfter(old(p.evictedCounter))
    ensures old(p.evictedCounter) == 0 ==> logged == n / EvictionLogInterval
  {
    logged := 0;
    var k := 0;
    while k < n
      invariant 0 <= k <= n
      invariant p.evictedCounter == old(p.evictedCounter) + k
      invariant logged == LogsAfter(p.evictedCounter) - LogsAfter(old(p.evictedCounter))
    {
      var line := p.FdCacheEvictCallback();
      if line {
        logged := logged + 1;
      }
      k := k + 1;
    }
    LogsAfterCount(n);
  }
}
