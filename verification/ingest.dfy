/**
 * The ingestion task (`pollChunksPerfBuffer`): reads records from the
 * kernel's perf buffer one at a time and forwards, in read order, every
 * record that lost no samples and decodes as a chunk. The first read error
 * closes the output and ends the task. The reader's successive results are
 * given as a sequence, each sample with what the record decoder makes of
 * its raw bytes; the blocking channel send becomes appending to the output.
 */
module Ingest {
  import opened Wrappers
  import opened ChunkRecord

  /** The reader's error kinds: closed by `close()` (clean), or anything else (fatal). */
  datatype ReadError = ReaderClosed | ReadFault

  /** One result of the perf reader's `Read()`: an error, or a sample with its lost-sample
    * count and the outcome of decoding its raw bytes. */
  datatype PerfRead = ReadFailed(err: ReadError) | Sample(lostSamples: nat, decoded: Result<TlsChunk, DecodeError>)

  /** The reader result for a record with the given lost-sample count and raw bytes. */
  function FromRecord(lostSamples: nat, rawSample: seq<Byte>): PerfRead
  {
    Sample(lostSamples, Decode(rawSample))
  }

  /** How the task stands once the given reads are consumed. */
  datatype Ending =
    | StillReading     // no read failed: the task is blocked in its next read
    | ClosedCleanly    // the reader was closed: output closed, task returned silently
    | Aborted          // another read error: output closed, error logged, task returned

  /** The record at `r` is forwarded as the chunk it decodes to. */
  predicate Forwarded(r: PerfRead)
  {
    r.Sample? && r.lostSamples == 0 && r.decoded.Success?
  }

  predicate NoReadError(results: seq<PerfRead>)
  {
    forall i :: 0 <= i < |results| ==> results[i].Sample?
  }

  /** What one successful read contributes to the output: its chunk, or nothing. */
  function Contribution(r: PerfRead): (out: seq<TlsChunk>)
    requires r.Sample?
    ensures |out| <= 1
    ensures out != [] <==> Forwarded(r)
  {
    if r.lostSamples == 0 && r.decoded.Success? then [r.decoded.value] else []
  }

  /** The chunks the task forwards, in order, for the given reader results. */
  function Ingested(results: seq<PerfRead>): (out: seq<TlsChunk>)
    ensures |out| <= |results|
  {
    if results == [] || results[0].ReadFailed? then []
    else Contribution(results[0]) + Ingested(results[1..])
  }

  /** The number of reads the task performs: up to and including the first failed one. */
  function ReadsPerformed(results: seq<PerfRead>): (n: nat)
    ensures n <= |results|
    ensures n < |results| ==> 0 < n && results[n - 1].ReadFailed?
  {
    if results == [] then 0
    else if results[0].ReadFailed? then 1
    else 1 + ReadsPerformed(results[1..])
  }

  /** Every read before the last one performed succeeded; the last one failed unless all did. */
  lemma {:induction false} ReadsPerformedPrefix(results: seq<PerfRead>)
    ensures var n := ReadsPerformed(results);
      NoReadError(results[..n]) || (0 < n && NoReadError(results[..n - 1]) && results[n - 1].ReadFailed?)
  {
    if results != [] && results[0].Sample? {
      ReadsPerformedPrefix(results[1..]);
      var n := ReadsPerformed(results);
      assert results[..n][1..] == results[1..][..n - 1];
      assert n > 1 ==> results[..n - 1][1..] == results[1..][..n - 2];
      forall i | 0 <= i < n - 1 ensures results[i].Sample? {
        if i > 0 {
          assert results[i] == results[1..][i - 1];
        }
      }
    }
  }

  /** The task forwards no more chunks than it performs reads. */
  lemma {:induction false} IngestedWithinReads(results: seq<PerfRead>)
    ensures |Ingested(results)| <= ReadsPerformed(results)
  {
    if results != [] && results[0].Sample? {
      IngestedWithinReads(results[1..]);
    }
  }

  /** How the task ends: on the first failed read, clean if the reader was closed. */
  function EndingOf(results: seq<PerfRead>): Ending
  {
    if results == [] then StillReading
    else match results[0]
      case ReadFailed(ReaderClosed) => ClosedCleanly
      case ReadFailed(ReadFault) => Aborted
      case Sample(_, _) => EndingOf(results[1..])
  }

  /** What the read at `i` does to the three specification functions. */
  lemma UnfoldAt(results: seq<PerfRead>, i: nat)
    requires i < |results|
    ensures results[i].ReadFailed? ==>
      && Ingested(results[i..]) == []
      && ReadsPerformed(results[i..]) == 1
      && EndingOf(results[i..]) == (if results[i].err == ReaderClosed then ClosedCleanly else Aborted)
    ensures results[i].Sample? ==>
      && Ingested(results[i..]) == Contribution(results[i]) + Ingested(results[i + 1..])
      && ReadsPerformed(results[i..]) == 1 + ReadsPerformed(results[i + 1..])
      && EndingOf(results[i..]) == EndingOf(results[i + 1..])
  {
    assert results[i..][0] == results[i] && results[i..][1..] == results[i + 1..];
  }

  /** The loop itself: read, stop on error, skip lost samples and undecodable records, forward the rest. */
  method PollChunksPerfBuffer(results: seq<PerfRead>) returns (chunks: seq<TlsChunk>, ending: Ending, readCount: nat)
    ensures chunks == Ingested(results)
    ensures ending == EndingOf(results)
    ensures readCount == ReadsPerformed(results)
  {
    chunks := [];
    var i := 0;
    assert results[0..] == results;
    while i < |results|
      invariant 0 <= i <= |results|
      invariant Ingested(results) == chunks + Ingested(results[i..])
      invariant EndingOf(results) == EndingOf(results[i..])
      invariant ReadsPerformed(results) == i + ReadsPerformed(results[i..])
    {
      var record := results[i];
      UnfoldAt(results, i);
      ghost var rest := Ingested(results[i + 1..]);
      i := i + 1;
      if record.ReadFailed? {
        assert chunks + [] == chunks;
        ending := if record.err == ReaderClosed then ClosedCleanly else Aborted;
        readCount := i;
        return;
      }
      if record.lostSamples != 0 {
        assert [] + rest == rest;
        continue;
      }
      var decoded := record.decoded;
      if decoded.Failure? {
        assert [] + rest == rest;
        continue;
      }
      assert chunks + ([decoded.value] + rest) == (chunks + [decoded.value]) + rest;
      chunks := chunks + [decoded.value];
    }
    ending := StillReading;
    readCount := |results|;
  }

  // ---------------------------------------------------------------------------
  // What the task forwards, record by record

  /** The output closes exactly when some read fails. */
  lemma {:induction false} ClosesIffReadFails(results: seq<PerfRead>)
    ensures EndingOf(results) != StillReading <==> !NoReadError(results)
  {
    if results != [] && results[0].Sample? {
      ClosesIffReadFails(results[1..]);
      if !NoReadError(results[1..]) {
        var i :| 0 <= i < |results[1..]| && !results[1..][i].Sample?;
        assert !results[i + 1].Sample?;
      }
    }
  }

  /** Before any read error, forwarding distributes over concatenation: read order is kept. */
  lemma {:induction false} IngestedAppend(a: seq<PerfRead>, b: seq<PerfRead>)
    requires NoReadError(a)
    ensures Ingested(a + b) == Ingested(a) + Ingested(b)
  {
    if a == [] {
      assert a + b == b;
    } else {
      assert a[0].Sample?;
      assert (a + b)[0] == a[0] && (a + b)[1..] == a[1..] + b;
      NoReadErrorTail(a);
      IngestedAppend(a[1..], b);
      calc {
        Ingested(a + b);
        Contribution(a[0]) + Ingested(a[1..] + b);
        Contribution(a[0]) + (Ingested(a[1..]) + Ingested(b));
        (Contribution(a[0]) + Ingested(a[1..])) + Ingested(b);
        Ingested(a) + Ingested(b);
      }
    }
  }

  lemma NoReadErrorTail(a: seq<PerfRead>)
    requires a != [] && NoReadError(a)
    ensures NoReadError(a[1..])
  {
    forall i | 0 <= i < |a[1..]| ensures a[1..][i].Sample? {
      assert a[1..][i] == a[i + 1];
    }
  }

  /** Nothing read after the first read error is forwarded. */
  lemma {:induction false} IngestedStopsAtError(a: seq<PerfRead>, e: PerfRead, b: seq<PerfRead>)
    requires NoReadError(a) && e.ReadFailed?
    ensures Ingested(a + [e] + b) == Ingested(a)
  {
    IngestedAppend(a, [e] + b);
    assert a + [e] + b == a + ([e] + b);
  }

  /** A successful read that is not forwarded leaves the output and the ending as if it were absent. */
  lemma IngestedSkipsUnforwarded(a: seq<PerfRead>, r: PerfRead, b: seq<PerfRead>)
    requires NoReadError(a) && r.Sample? && !Forwarded(r)
    ensures Ingested(a + [r] + b) == Ingested(a) + Ingested(b)
    ensures EndingOf(a + [r] + b) == EndingOf(a + b)
  {
    assert a + [r] + b == a + ([r] + b);
    assert ([r] + b)[0] == r && ([r] + b)[1..] == b;
    assert Contribution(r) == [];
    assert Ingested([r] + b) == Ingested(b);
    assert EndingOf([r] + b) == EndingOf(b);
    IngestedAppend(a, [r] + b);
    IngestedAppend(a, b);
    EndingSkipsSamples(a, [r] + b);
    EndingSkipsSamples(a, b);
  }

  /** A record that reports lost samples never yields a chunk, and the loop goes on. */
  lemma IngestedSkipsLostSamples(a: seq<PerfRead>, r: PerfRead, b: seq<PerfRead>)
    requires NoReadError(a) && r.Sample? && r.lostSamples != 0
    ensures Ingested(a + [r] + b) == Ingested(a) + Ingested(b)
    ensures EndingOf(a + [r] + b) == EndingOf(a + b)
  {
    IngestedSkipsUnforwarded(a, r, b);
  }

  /** A record that does not decode never yields a chunk, and the loop goes on. */
  lemma IngestedSkipsUndecodable(a: seq<PerfRead>, r: PerfRead, b: seq<PerfRead>)
    requires NoReadError(a) && r.Sample? && r.decoded.Failure?
    ensures Ingested(a + [r] + b) == Ingested(a) + Ingested(b)
    ensures EndingOf(a + [r] + b) == EndingOf(a + b)
  {
    IngestedSkipsUnforwarded(a, r, b);
  }

  /** A record with no lost samples that decodes is forwarded in place. */
  lemma IngestedForwards(a: seq<PerfRead>, r: PerfRead, b: seq<PerfRead>)
    requires NoReadError(a) && Forwarded(r)
    ensures Ingested(a + [r] + b) == Ingested(a) + [r.decoded.value] + Ingested(b)
  {
    var v := r.decoded.value;
    assert a + [r] + b == a + ([r] + b);
    assert ([r] + b)[0] == r && ([r] + b)[1..] == b;
    assert Contribution(r) == [v];
    assert Ingested([r] + b) == [v] + Ingested(b);
    IngestedAppend(a, [r] + b);
    assert Ingested(a) + ([v] + Ingested(b)) == Ingested(a) + [v] + Ingested(b);
  }

  lemma {:induction false} EndingSkipsSamples(a: seq<PerfRead>, b: seq<PerfRead>)
    requires NoReadError(a)
    ensures EndingOf(a + b) == EndingOf(b)
  {
    if a == [] {
      assert a + b == b;
    } else {
      assert a[0].Sample?;
      assert (a + b)[0] == a[0] && (a + b)[1..] == a[1..] + b;
      NoReadErrorTail(a);
      EndingSkipsSamples(a[1..], b);
    }
  }

  /** Every forwarded chunk is the decoding of some loss-free record read before the first error. */
  lemma {:induction false} IngestedSound(results: seq<PerfRead>, k: nat)
    requires k < |Ingested(results)|
    ensures exists i ::
      && 0 <= i < ReadsPerformed(results)
      && Forwarded(results[i])
      && results[i].decoded == Success(Ingested(results)[k])
  {
    var r := results[0];
    var head := Contribution(r);
    assert Ingested(results) == head + Ingested(results[1..]);
    if k < |head| {
      assert Forwarded(results[0]);
    } else {
      IngestedSound(results[1..], k - |head|);
      var i :| && 0 <= i < ReadsPerformed(results[1..])
        && Forwarded(results[1..][i])
        && results[1..][i].decoded == Success(Ingested(results[1..])[k - |head|]);
      assert results[1..][i] == results[i + 1];
    }
  }

  /** A loss-free sample holding the wire form of a record forwards exactly that record. */
  lemma IngestedEncodedRecord(c: TlsChunk)
    ensures Ingested([FromRecord(0, Encode(c))]) == [c]
  {
    DecodeEncode(c);
    assert [FromRecord(0, Encode(c))][1..] == [];
  }

  /** A sample shorter than a record is dropped, and the loop goes on. */
  lemma IngestedDropsShortSample(a: seq<PerfRead>, raw: seq<Byte>, lost: nat, b: seq<PerfRead>)
    requires NoReadError(a) && |raw| < RecordSize
    ensures Ingested(a + [FromRecord(lost, raw)] + b) == Ingested(a) + Ingested(b)
    ensures EndingOf(a + [FromRecord(lost, raw)] + b) == EndingOf(a + b)
  {
    IngestedSkipsUndecodable(a, FromRecord(lost, raw), b);
  }
}
