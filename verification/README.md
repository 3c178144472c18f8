# TLS chunk pipeline of the tracer, in Dafny

This project models the userspace side of the tracer's TLS capture. The kernel
probes write fixed-size TLS chunk records into a perf buffer. One task reads
these records, drops lost or undecodable ones and forwards the others in read
order. The poller then files each chunk under a canonical flow key. It creates
one stream per TCP flow, with a client reader and a server reader, and
registers that stream in the shared stream table under a fresh id. Close
notifications remove streams from the registry. The project also models the
fd cache's eviction counter and the generated close routine for the loaded
eBPF programs and maps.

Modules, one per file:

- `Wrappers` (wrappers.dfy): `Option` and `Result`.
- `Canonical` (canonical.dfy): `buildTlsKey` and `buildTcpId`. Ports are rendered in unpadded base 10.
- `ChunkRecord` (chunk_record.dfy): the `tracerTlsChunk` record and its 4136-byte little-endian wire form. The decoder behaves like `binary.Read`: `io.EOF` on an empty buffer, `io.ErrUnexpectedEOF` on a short one, trailing bytes ignored.
- `Ingest` (ingest.dfy): `pollChunksPerfBuffer` as a loop over the reader's successive results, proved against the function `Ingested`.
- `Registry` (registry.dfy): the demultiplexer as a state machine on values. It covers `handleTlsChunk`, the close branch of `poll`, and the `poll` loop as a fold over events. It has an invariant that every step keeps.
- `Poller` (poller.dfy): the classes `TcpStreamMap` and `TlsPoller`.
  - Their fields are updated in place.
  - `HandleTlsChunk` and `Poll` are proved to move the object state exactly as the registry machine does.
  - The module also holds the eviction callback and the cache capacity.
- `TracerClose` (tracer_close.dfy): `_TracerClose` and `tracerObjects.Close`.

## Model

| member | source | states |
|---|---|---|
| Canonical.Decimal | tls_poller.go:154 | a port is rendered as a non-empty run of digits, with a leading '0' only for 0 and one digit exactly below 10 |
| Canonical.ParseDecimalInverse | tls_poller.go:165-166 | the base-10 rendering of a port reads back as that port |
| Canonical.DecimalInjective | tls_poller.go:154 | two ports render identically if and only if they are equal |
| Canonical.BuildTlsKey | tls_poller.go:152-158 | no contract of its own; KeySymmetric, KeyIdentifiesFlow and ExampleKey state its properties |
| Canonical.BuildTcpId | tls_poller.go:160-176 | no contract of its own; TcpIdOrientations, TcpIdPorts and ExampleTcpId state its properties |
| Canonical.KeySymmetric | tls_poller.go:152-158 | the request view of a quad and the response view of its reverse give the same key, both ways round |
| Canonical.TcpIdOrientations | tls_poller.go:160-176 | the response identity is the request identity with IPs and ports exchanged, and is the request identity of the reversed quad |
| Canonical.TcpIdPorts | tls_poller.go:165-166 | the port fields of an identity are digit strings that denote the quad's ports |
| Canonical.EndpointInjective | tls_poller.go:154 | `ip:port` text determines the IP text and the port |
| Canonical.KeyIdentifiesFlow | tls_poller.go:152-158 | with no '>' in IP text, two chunks get the same key if and only if their quads agree in request orientation |
| Canonical.ExamplePorts | tls_poller.go:154 | ports 5000 and 443 render as "5000" and "443" |
| Canonical.ExampleKey | tls_poller.go:152-158 | 10.0.0.1:5000 to 10.0.0.2:443 is filed under "10.0.0.1:5000>10.0.0.2:443" from either direction |
| Canonical.ExampleTcpId | tls_poller.go:160-176 | that flow's reader identities have the ends as observed for a request and exchanged for a response |
| ChunkRecord.Pow256Widths | tracer_bpfel_x86.go:22-33 | 2 and 4 bytes hold exactly the u16 and u32 ranges |
| ChunkRecord.LeDecode | tracer_bpfel_x86.go:22-33 | a little-endian value fits the width of its bytes |
| ChunkRecord.LeEncode | tracer_bpfel_x86.go:22-33 | an n-byte little-endian encoding has n bytes |
| ChunkRecord.LeDecodeEncode | tracer_bpfel_x86.go:22-33 | little-endian decoding inverts encoding for every value that fits |
| ChunkRecord.LeEncodeDecode | tracer_bpfel_x86.go:22-33 | re-encoding a decoded byte string at its own width gives it back |
| ChunkRecord.U16AtIsLeDecode | tracer_bpfel_x86.go:31-32 | the u16 read at an offset is the little-endian value of the two bytes there |
| ChunkRecord.U32AtIsLeDecode | tracer_bpfel_x86.go:22-30 | the u32 read at an offset is the little-endian value of the four bytes there |
| ChunkRecord.U16Bytes | tracer_bpfel_x86.go:31-32 | a u16 field is 2 bytes on the wire |
| ChunkRecord.U32Bytes | tracer_bpfel_x86.go:22-30 | a u32 field is 4 bytes on the wire |
| ChunkRecord.Encode | tracer_bpfel_x86.go:21-36 | the wire form of a record is 4136 bytes |
| ChunkRecord.Decode | tls_poller.go:117-124 | decoding succeeds if and only if the buffer holds at least 4136 bytes; it reports end-of-input exactly for the empty buffer |
| ChunkRecord.EncodeLayout | tracer_bpfel_x86.go:21-36 | Pid, Tgid, Len, Start, Recorded, Fd, Flags, Saddr, Daddr, Sport, Dport sit at offsets 0, 4, …, 28, 32, 36, 38; Data occupies bytes 40..4135 |
| ChunkRecord.DecodeEncode | tracer_bpfel_x86.go:21-36 | decoding the wire form of any record gives that record back |
| ChunkRecord.EncodeDecode | tls_poller.go:121 | a successful decode reads exactly the first 4136 bytes: re-encoding the record gives them back |
| ChunkRecord.DecodeIgnoresTrailing | tls_poller.go:117-121 | bytes after the first 4136 do not affect the decoded record |
| Ingest.FromRecord | tls_poller.go:117-121 | no contract of its own; IngestedEncodedRecord and IngestedDropsShortSample state what a sample built from raw bytes yields |
| Ingest.Contribution | tls_poller.go:112-126 | one successful read forwards at most one chunk, and one exactly when it lost no samples and decoded |
| Ingest.Ingested | tls_poller.go:98-127 | the output is never longer than the reader results |
| Ingest.IngestedWithinReads | tls_poller.go:98-127 | the task forwards no more chunks than it performs reads |
| Ingest.ReadsPerformed | tls_poller.go:98-110 | the task reads at most all results, and when it stops early the last read it performed failed |
| Ingest.ReadsPerformedPrefix | tls_poller.go:98-110 | every read before the last one performed succeeded, and the last one failed unless all succeeded |
| Ingest.EndingOf | tls_poller.go:101-110 | no contract of its own; ClosesIffReadFails and EndingSkipsSamples state its properties, and PollChunksPerfBuffer ends as it says |
| Ingest.PollChunksPerfBuffer | tls_poller.go:95-128 | the loop forwards exactly `Ingested` of the reader results, ends as `EndingOf` says and performs `ReadsPerformed` reads |
| Ingest.ClosesIffReadFails | tls_poller.go:101-110 | the output is closed if and only if some read fails |
| Ingest.IngestedAppend | tls_poller.go:98-127 | before any read error, forwarding keeps read order: the output for `a + b` is the output for `a` followed by that for `b` |
| Ingest.IngestedStopsAtError | tls_poller.go:101-110 | nothing read after the first read error is forwarded |
| Ingest.IngestedSkipsUnforwarded | tls_poller.go:112-124 | a successful read that is not forwarded leaves output and ending as if it had not been read |
| Ingest.IngestedSkipsLostSamples | tls_poller.go:112-115 | a record with lost samples yields no chunk and does not stop the loop |
| Ingest.IngestedSkipsUndecodable | tls_poller.go:121-124 | a record that fails to decode yields no chunk and does not stop the loop |
| Ingest.IngestedForwards | tls_poller.go:126 | a loss-free record that decodes is forwarded in its place |
| Ingest.EndingSkipsSamples | tls_poller.go:98-115 | successful reads do not change how the task ends |
| Ingest.IngestedSound | tls_poller.go:98-127 | every forwarded chunk is the decoding of some loss-free record read before the first error |
| Ingest.IngestedEncodedRecord | tls_poller.go:117-126 | a loss-free sample holding the wire form of a record forwards exactly that record |
| Ingest.IngestedDropsShortSample | tls_poller.go:121-124 | a sample shorter than 4136 bytes is dropped and the loop goes on |
| Registry.Consumed | tls_poller.go:79-92 | the loop takes events up to and including the closed chunk channel, and none before it is a close of that channel |
| Registry.HandleChunk | tls_poller.go:130-150 | no contract of its own; HandleUnseenKey, HandleKnownKey, NewStreamReaders and HandleChunkValid state its properties |
| Registry.Close | tls_poller.go:89-90 | no contract of its own; CloseRemovesOnlyKey states its properties |
| Registry.Run | tls_poller.go:79-92 | no contract of its own; RunValid, OneStreamPerKey, ReuseStream, ReopenAfterClose, TableOnlyGrows and RunStopsAtChunksClosed state its properties |
| Registry.InitialValid | tls_poller.go:38-45 | a fresh, empty registry satisfies the registry invariant |
| Registry.HandleChunkValid | tls_poller.go:130-150 | handling a chunk keeps the invariant: streams filed under their own key, stored in the table under their id, readers bound with fixed roles, ids below the allocator, deliveries to registered streams |
| Registry.StepValid | tls_poller.go:79-92 | each event the loop handles keeps the invariant |
| Registry.RunValid | tls_poller.go:73-93 | the whole loop keeps the invariant |
| Registry.DistinctIds | tls_poller.go:136-140 | two keys in the registry have streams with different ids |
| Registry.HandleUnseenKey | tls_poller.go:135-147 | an unseen key adds exactly that key, takes exactly one id, stores the new stream in the table under it and delivers the chunk to it; other keys are untouched |
| Registry.HandleKnownKey | tls_poller.go:135-147 | a known key leaves registry, allocator and table unchanged and delivers the chunk to the existing stream |
| Registry.NewStreamReaders | tls_poller.go:142-143 | a new stream's client reader is built from the quad as observed, its server reader from the reversed view, whatever the chunk's direction |
| Registry.ReaderIdsFollowFirstChunk | tls_poller.go:134-143 | a flow opened by its response gets the same key as when opened by its request, but its client reader gets the identity the server reader would otherwise have had |
| Registry.CloseRemovesOnlyKey | tls_poller.go:89-90 | a close notification removes that key and nothing else; a missing key changes nothing |
| Registry.OneStreamPerKey | tls_poller.go:135-147 | repeated chunks for one unseen key create one stream, take one id, and all go to it |
| Registry.ReuseStream | tls_poller.go:135-147 | chunks for a registered key all go to its stream and change no registry, allocator or table entry |
| Registry.ReopenAfterClose | tls_poller.go:136-140 | after a close, a chunk for the same key creates a stream with a new id, and the old stream stays in the shared table |
| Registry.TableOnlyGrows | tls_poller.go:138-139 | no table entry is removed or overwritten, the allocator never goes back, and earlier deliveries stand |
| Registry.RunStopsAtChunksClosed | tls_poller.go:81-84 | once the chunk channel is closed the loop returns; later events are never handled |
| Poller.NewLru | tls_poller.go:47-51 | the cache is refused exactly when its capacity is not positive |
| Poller.FdCacheCapacity | tls_poller.go:17-20 | the fd cache capacity is 500000 / 40 = 12500, which the cache accepts |
| Poller.TcpStreamMap.NextId | tls_poller.go:138 | hands out the current id and advances the allocator by one; the table is unchanged |
| Poller.TcpStreamMap.Store | tls_poller.go:139 | stores the stream under its id and touches nothing else |
| Poller.TlsPoller.constructor | tls_poller.go:38-45 | a new poller has an empty registry, an eviction count of 0 and no deliveries |
| Poller.TlsPoller.HandleTlsChunk | tls_poller.go:130-150 | poller and shared table move exactly as `Registry.HandleChunk` prescribes; the eviction counter is untouched |
| Poller.TlsPoller.Poll | tls_poller.go:73-93 | poller and shared table move exactly as `Registry.Run` prescribes over the events, and the loop takes `Consumed` of them |
| Poller.TlsPoller.FdCacheEvictCallback | tls_poller.go:178-184 | the counter goes up by exactly one, and a line is logged if and only if the new count is a multiple of 1000000 |
| Poller.NewTlsPoller | tls_poller.go:33-55 | a poller is built if and only if the cache capacity is positive, empty and with a zero counter |
| Poller.EvictionLogged | tls_poller.go:181 | no contract of its own; FdCacheEvictCallback, LogsAfterCount and EvictRepeatedly state what it decides |
| Poller.LogsAfterCount | tls_poller.go:178-184 | the first n evictions log exactly n / 1000000 lines |
| Poller.EvictRepeatedly | tls_poller.go:178-184 | n callbacks on one poller advance the counter by n and log once per multiple of 1000000 passed; from a fresh poller that is n / 1000000 lines |
| TracerClose.TracerClose | tracer_bpfel_x86.go:259-266 | the closers called are a prefix of the arguments, in order. The result is nil if and only if every closer was called and returned nil. Otherwise the result is the last called closer's error, and every earlier closer returned nil |
| TracerClose.CloseObjects | tracer_bpfel_x86.go:140-145 | programs are closed before maps, each group in the order tracerPrograms.Close (lines 227-257) and tracerMaps.Close (lines 171-192) pass them. Together the calls are a prefix of all programs then all maps. Every closer called before the last one succeeded, and an error is the last called closer's own. A program failure means no map is closed. The result is nil if and only if every program and map was closed without error |

## Left out

- Loading the eBPF objects, and creating and closing the perf reader (`init`, `close`). These are kernel and foreign-library I/O.
- The goroutine and channels between the ingestion task and `poll`.
  - The task is a loop over the reader's results.
  - `poll` is a fold over one sequence of events in the order the `select` took them.
  - Interleaving and fairness are not modelled.
- The perf reader is a sequence of results. Each result is a read error (clean close or anything else) or a sample. A sample carries its lost-sample count and the decode outcome of its raw bytes. `Ingest.FromRecord` builds the sample from raw bytes via `ChunkRecord.Decode`.
- Ingest.PollChunksPerfBuffer takes the decode outcome with each sample rather than decoding in the loop. `Ingest.IngestedEncodedRecord` and `Ingest.IngestedDropsShortSample` tie the two together.
- `chunk.getAddressPair`, `chunk.isRequest` and `chunk.getReader` are defined in files that are not part of this model. Their results come with each chunk event (`Registry.Observed`).
- `NewTlsStream`, `NewTlsReader` and `reader.newChunk` are also defined outside this model. Streams and readers are values, and each `newChunk` call is recorded as a `Registry.Delivery`.
- Pointer identity is not modelled.
  - The source stores the stream pointer in the shared table before it sets the stream's readers.
  - In the model, the stored value already carries its readers.
- `TcpStreamMap` is a counter and a map. Its real implementation is not part of this model.
- Other users of the shared `TcpStreamMap` are not modelled. Between two events only this poller calls `NextId` and `Store`. Registry.OneStreamPerKey and Registry.ReopenAfterClose state exact ids only under that assumption.
- IP text (`net.IP.String()`) is an abstract string. Canonical.KeyIdentifiesFlow assumes that no IP text contains '>'.
- The internals of the LRU fd cache (recency order, when evictions happen) are not modelled. The cache is never read or written in the modelled code, so only its capacity and the eviction callback are modelled.
- Poller.TlsPoller.FdCacheEvictCallback: the counter is an unbounded `nat`, so the wrap-around of Go's `int` is not modelled. The generated file builds for 386 and amd64 (tracer_bpfel_x86.go:2). On amd64 `int` is 64 bits; on 386 it is 32 bits and wraps after 2^31-1 evictions. After that wrap, Go's truncating `%` no longer agrees with `EvictionLogged`. The modelled code never inserts into the fd cache, which is only assigned at tls_poller.go:53, so no eviction happens there.
- Logging is reduced to the eviction callback's decision to log. The log lines of the ingestion task and `LogError` are left out.
- `handleTlsChunk` always returns nil, so the error branch of `poll` cannot run. Poller.TlsPoller.HandleTlsChunk has no error result.
- The packet sorter and the output packet channel.
- What each program or map `Close()` returns is a function argument. The kernel side of closing is not modelled.
