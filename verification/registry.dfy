/**
 * The stream demultiplexer of the TLS poller as a state machine on values.
 * The registry maps flow keys to streams; the shared stream table and its
 * id allocator (`TcpStreamMap`) are a counter and a map. The `poll` loop's
 * `select` over the chunk channel and the close-notification channel is a
 * fold over one sequence of events in the order they were taken.
 */
module Registry {
  import opened Canonical
  import opened ChunkRecord

  /** A per-direction reassembly reader: the identity it was built with and its role. */
  datatype TlsReader = TlsReader(tcpId: TcpId, isClient: bool)

  /** One TCP flow: its key, its id in the shared table, and its two readers. */
  datatype TlsStream = TlsStream(key: string, id: nat, client: TlsReader, server: TlsReader)

  /** A chunk as the demultiplexer sees it: the address pair and direction the chunk reports,
    * and whether the chunk's `getReader` picks the client reader (`toClient`) or the server one. */
  datatype Observed = Observed(chunk: TlsChunk, address: AddressPair, isRequest: bool, toClient: bool)

  /** One `reader.newChunk(chunk)` call: the stream, the reader's side and the chunk. */
  datatype Delivery = Delivery(streamId: nat, toClient: bool, chunk: TlsChunk)

  /** What the `select` takes next: a chunk, a close notification, or the closed chunk channel. */
  datatype Event = ChunkArrived(observed: Observed) | CloseStream(key: string) | ChunksClosed

  /** The poller's registry, the shared allocator and table, and the deliveries made so far. */
  datatype State = State(
    streams: map<string, TlsStream>,
    nextId: nat,
    table: map<nat, TlsStream>,
    delivered: seq<Delivery>)

  /** A fresh poller: empty registry, nothing delivered; the shared table as it stands. */
  function Initial(nextId: nat, table: map<nat, TlsStream>): State
  {
    State(map[], nextId, table, [])
  }

  function KeyOf(o: Observed): string
  {
    BuildTlsKey(o.address, o.isRequest)
  }

  /** A new stream: client reader from the quad as observed, server reader from it reversed. */
  function NewStream(key: string, id: nat, address: AddressPair): TlsStream
  {
    TlsStream(key, id, TlsReader(BuildTcpId(address, true), true), TlsReader(BuildTcpId(address, false), false))
  }

  /** `handleTlsChunk`: look the key up, create and register a stream if it is unseen, deliver the chunk. */
  function HandleChunk(s: State, o: Observed): State
  {
    var key := KeyOf(o);
    if key in s.streams then
      s.(delivered := s.delivered + [Delivery(s.streams[key].id, o.toClient, o.chunk)])
    else
      var stream := NewStream(key, s.nextId, o.address);
      State(
        s.streams[key := stream],
        s.nextId + 1,
        s.table[stream.id := stream],
        s.delivered + [Delivery(stream.id, o.toClient, o.chunk)])
  }

  /** The close-notification branch of `poll`: `delete(p.streams, key)`. */
  function Close(s: State, key: string): State
  {
    s.(streams := s.streams - {key})
  }

  function Step(s: State, e: Event): State
  {
    match e
    case ChunkArrived(o) => HandleChunk(s, o)
    case CloseStream(key) => Close(s, key)
    case ChunksClosed => s
  }

  /** The `poll` loop: handle events in order until the chunk channel is closed. */
  function Run(s: State, events: seq<Event>): State
    decreases |events|
  {
    if events == [] || events[0].ChunksClosed? then s else Run(Step(s, events[0]), events[1..])
  }

  /** The number of events the loop takes: up to and including the closed chunk channel. */
  function Consumed(events: seq<Event>): (n: nat)
    ensures n <= |events|
    ensures forall i :: 0 <= i < n - 1 ==> !events[i].ChunksClosed?
    ensures n < |events| ==> 0 < n && events[n - 1].ChunksClosed?
  {
    if events == [] then 0
    else if events[0].ChunksClosed? then 1
    else
      var n := 1 + Consumed(events[1..]);
      assert forall i :: 1 <= i < n - 1 ==> events[i] == events[1..][i - 1];
      n
  }

  // ---------------------------------------------------------------------------
  // The registry invariant

  /** The two readers a stream is created with: client and server roles, mirrored identities. */
  predicate ReadersBound(st: TlsStream)
  {
    st.client.isClient && !st.server.isClient && st.server.tcpId == Swapped(st.client.tcpId)
  }

  ghost predicate Valid(s: State)
  {
    // each stream is filed under its own key
    && (forall k :: k in s.streams ==> s.streams[k].key == k && ReadersBound(s.streams[k]))
    // and stored in the shared table under its id
    && (forall k :: k in s.streams ==> s.streams[k].id in s.table && s.table[s.streams[k].id] == s.streams[k])
    // every id handed out so far is below the allocator's next id
    && (forall id :: id in s.table ==> id < s.nextId)
    // every chunk went to a stream in the table
    && (forall i :: 0 <= i < |s.delivered| ==> s.delivered[i].streamId in s.table)
  }

  lemma InitialValid(nextId: nat, table: map<nat, TlsStream>)
    requires forall id :: id in table ==> id < nextId
    ensures Valid(Initial(nextId, table))
  {
  }

  lemma HandleChunkValid(s: State, o: Observed)
    requires Valid(s)
    ensures Valid(HandleChunk(s, o))
  {
    var t := HandleChunk(s, o);
    var key := KeyOf(o);
    if key !in s.streams {
      TcpIdOrientations(o.address);
      assert s.nextId !in s.table;
      forall i | 0 <= i < |t.delivered| ensures t.delivered[i].streamId in t.table {
        if i < |s.delivered| {
          assert t.delivered[i] == s.delivered[i];
        }
      }
    } else {
      forall i | 0 <= i < |t.delivered| ensures t.delivered[i].streamId in t.table {
        if i < |s.delivered| {
          assert t.delivered[i] == s.delivered[i];
        }
      }
    }
  }

  lemma StepValid(s: State, e: Event)
    requires Valid(s)
    ensures Valid(Step(s, e))
  {
    if e.ChunkArrived? {
      HandleChunkValid(s, e.observed);
    }
  }

  /** The loop keeps the registry invariant, whatever the events. */
  lemma {:induction false} RunValid(s: State, events: seq<Event>)
    requires Valid(s)
    ensures Valid(Run(s, events))
    decreases |events|
  {
    if events != [] && !events[0].ChunksClosed? {
      StepValid(s, events[0]);
      RunValid(Step(s, events[0]), events[1..]);
    }
  }

  /** A key identifies at most one stream: live streams have distinct ids. */
  lemma DistinctIds(s: State, k1: string, k2: string)
    requires Valid(s) && k1 in s.streams && k2 in s.streams && k1 != k2
    ensures s.streams[k1].id != s.streams[k2].id
  {
  }

  // ---------------------------------------------------------------------------
  // One chunk

  /** An unseen key: exactly that key is added, one id is taken, the stream is stored
    * in the table under it, and the chunk goes to the new stream. */
  lemma HandleUnseenKey(s: State, o: Observed)
    requires KeyOf(o) !in s.streams
    ensures var t := HandleChunk(s, o); var st := NewStream(KeyOf(o), s.nextId, o.address);
      && t.streams == s.streams[KeyOf(o) := st]
      && t.streams.Keys == s.streams.Keys + {KeyOf(o)}
      && t.nextId == s.nextId + 1
      && t.table == s.table[s.nextId := st]
      && t.delivered == s.delivered + [Delivery(s.nextId, o.toClient, o.chunk)]
  {
  }

  /** A known key: registry, allocator and table are unchanged; the chunk goes to the existing stream. */
  lemma HandleKnownKey(s: State, o: Observed)
    requires KeyOf(o) in s.streams
    ensures var t := HandleChunk(s, o);
      && t.streams == s.streams && t.nextId == s.nextId && t.table == s.table
      && t.delivered == s.delivered + [Delivery(s.streams[KeyOf(o)].id, o.toClient, o.chunk)]
  {
  }

  /** The new stream's readers are built from the quad as observed, whatever the chunk's direction. */
  lemma NewStreamReaders(s: State, o: Observed)
    requires KeyOf(o) !in s.streams
    ensures var st := HandleChunk(s, o).streams[KeyOf(o)];
      && st.client == TlsReader(BuildTcpId(o.address, true), true)
      && st.server == TlsReader(BuildTcpId(o.address, false), false)
  {
  }

  /** Hence the reader identities of a flow depend on which direction was seen first: a response
    * that opens the flow gives the client reader the identity the request would have given the server. */
  lemma ReaderIdsFollowFirstChunk(s: State, request: Observed, response: Observed)
    requires request.isRequest && !response.isRequest && response.address == Reverse(request.address)
    requires KeyOf(request) !in s.streams
    ensures KeyOf(response) == KeyOf(request)
    ensures HandleChunk(s, response).streams[KeyOf(request)].client.tcpId
      == HandleChunk(s, request).streams[KeyOf(request)].server.tcpId
  {
    KeySymmetric(request.address);
    TcpIdOrientations(request.address);
  }

  /** A close notification removes that key and nothing else; a missing key is a no-op. */
  lemma CloseRemovesOnlyKey(s: State, key: string)
    ensures var t := Close(s, key);
      && t.streams.Keys == s.streams.Keys - {key}
      && (forall k :: k in t.streams ==> t.streams[k] == s.streams[k])
      && t.nextId == s.nextId && t.table == s.table && t.delivered == s.delivered
      && (key !in s.streams ==> t == s)
  {
    var t := Close(s, key);
    if key !in s.streams {
      assert t.streams == s.streams;
    }
  }

  // ---------------------------------------------------------------------------
  // Runs of events

  predicate AllChunksFor(events: seq<Event>, key: string)
  {
    forall i :: 0 <= i < |events| ==> events[i].ChunkArrived? && KeyOf(events[i].observed) == key
  }

  /** Repeated chunks for one key create one stream and take one id; later chunks reuse it. */
  lemma {:induction false} OneStreamPerKey(s: State, events: seq<Event>, key: string)
    requires key !in s.streams
    requires |events| >= 1 && AllChunksFor(events, key)
    ensures var t := Run(s, events);
      && t.streams == s.streams[key := NewStream(key, s.nextId, events[0].observed.address)]
      && t.nextId == s.nextId + 1
      && |t.delivered| == |s.delivered| + |events|
      && forall i :: |s.delivered| <= i < |t.delivered| ==> t.delivered[i].streamId == s.nextId
  {
    var s1 := Step(s, events[0]);
    HandleUnseenKey(s, events[0].observed);
    ReuseStream(s1, events[1..], key);
  }

  /** Chunks for a key already in the registry all go to its stream and change nothing else. */
  lemma {:induction false} ReuseStream(s: State, events: seq<Event>, key: string)
    requires key in s.streams && AllChunksFor(events, key)
    ensures var t := Run(s, events);
      && t.streams == s.streams && t.nextId == s.nextId && t.table == s.table
      && |t.delivered| == |s.delivered| + |events|
      && t.delivered[..|s.delivered|] == s.delivered
      && forall i :: |s.delivered| <= i < |t.delivered| ==> t.delivered[i].streamId == s.streams[key].id
    decreases |events|
  {
    if events != [] {
      var s1 := Step(s, events[0]);
      HandleKnownKey(s, events[0].observed);
      assert AllChunksFor(events[1..], key) by {
        forall i | 0 <= i < |events[1..]| ensures events[1..][i].ChunkArrived? && KeyOf(events[1..][i].observed) == key {
          assert events[1..][i] == events[i + 1];
        }
      }
      ReuseStream(s1, events[1..], key);
      var t := Run(s1, events[1..]);
      assert Run(s, events) == t;
      var n := |s.delivered|;
      assert s1.delivered == s.delivered + [Delivery(s.streams[key].id, events[0].observed.toClient, events[0].observed.chunk)];
      assert t.delivered[..n + 1] == s1.delivered;
      assert t.delivered[..n] == s1.delivered[..n];
      assert t.delivered[n] == s1.delivered[n];
    }
  }

  /** After a close, a chunk for the same key opens a new stream with a new id; the old
    * stream stays in the shared table. */
  lemma ReopenAfterClose(s: State, o: Observed)
    requires Valid(s) && KeyOf(o) in s.streams
    ensures var t := Run(s, [CloseStream(KeyOf(o)), ChunkArrived(o)]);
      && KeyOf(o) in t.streams && s.streams[KeyOf(o)].id in t.table
      && t.streams[KeyOf(o)].id == s.nextId
      && t.streams[KeyOf(o)].id != s.streams[KeyOf(o)].id
      && t.table[s.streams[KeyOf(o)].id] == s.streams[KeyOf(o)]
      && t.nextId == s.nextId + 1
  {
    var key := KeyOf(o);
    var s1 := Close(s, key);
    assert [CloseStream(key), ChunkArrived(o)][1..] == [ChunkArrived(o)];
    assert [ChunkArrived(o)][1..] == [];
    assert Run(s, [CloseStream(key), ChunkArrived(o)]) == Run(s1, [ChunkArrived(o)]);
    assert Run(s1, [ChunkArrived(o)]) == Run(HandleChunk(s1, o), []);
    assert key !in s1.streams;
    assert s.streams[key].id < s.nextId;
  }

  /** Nothing is removed from or overwritten in the shared table, the allocator never goes
    * back, and earlier deliveries stay as they were. */
  lemma {:induction false} TableOnlyGrows(s: State, events: seq<Event>)
    requires Valid(s)
    ensures var t := Run(s, events);
      && s.nextId <= t.nextId
      && (forall id :: id in s.table ==> id in t.table && t.table[id] == s.table[id])
      && |s.delivered| <= |t.delivered|
      && t.delivered[..|s.delivered|] == s.delivered
    decreases |events|
  {
    if events != [] && !events[0].ChunksClosed? {
      var s1 := Step(s, events[0]);
      StepValid(s, events[0]);
      TableOnlyGrows(s1, events[1..]);
      assert s1.delivered[..|s.delivered|] == s.delivered;
    }
  }

  /** Once the chunk channel is closed the loop returns: later events, including pending
    * close notifications, are never handled. */
  lemma {:induction false} RunStopsAtChunksClosed(s: State, before: seq<Event>, after: seq<Event>)
    requires forall i :: 0 <= i < |before| ==> !before[i].ChunksClosed?
    ensures Run(s, before + [ChunksClosed] + after) == Run(s, before)
    ensures Consumed(before + [ChunksClosed] + after) == |before| + 1
    decreases |before|
  {
    var all := before + [ChunksClosed] + after;
    if before == [] {
      assert all[0] == ChunksClosed;
    } else {
      assert all[0] == before[0];
      assert all[1..] == before[1..] + [ChunksClosed] + after;
      RunStopsAtChunksClosed(Step(s, before[0]), before[1..], after);
    }
  }
}
