/**
 * The kernel's TLS chunk record (`tracerTlsChunk`) and its little-endian
 * wire form: seven u32 fields, the address quad (two u32, two u16) and a
 * 4096-byte payload, 4136 bytes in all, with no padding.
 */
module ChunkRecord {
  import opened Wrappers

  type Byte = b: int | 0 <= b < 0x100
  type U16 = x: int | 0 <= x < 0x1_0000
  type U32 = x: int | 0 <= x < 0x1_0000_0000

  // Byte offset of each field in the record.
  const PidOffset: nat := 0
  const TgidOffset: nat := 4
  const LenOffset: nat := 8
  const StartOffset: nat := 12
  const RecordedOffset: nat := 16
  const FdOffset: nat := 20
  const FlagsOffset: nat := 24
  const SaddrOffset: nat := 28
  const DaddrOffset: nat := 32
  const SportOffset: nat := 36
  const DportOffset: nat := 38
  const DataOffset: nat := 40

  const DataSize: nat := 4096
  const RecordSize: nat := DataOffset + DataSize

  /** The fixed-capacity payload; only its first `recorded` bytes are meaningful. */
  type Payload = s: seq<Byte> | |s| == DataSize witness seq(4096, _ => 0)

  datatype AddressInfo = AddressInfo(saddr: U32, daddr: U32, sport: U16, dport: U16)

  datatype TlsChunk = TlsChunk(
    pid: U32, tgid: U32, len: U32, start: U32, recorded: U32, fd: U32, flags: U32,
    addressInfo: AddressInfo,
    data: Payload)

  /** What reading a record out of a too-short buffer reports: `io.EOF` when it is empty, `io.ErrUnexpectedEOF` otherwise. */
  datatype DecodeError = EndOfInput | UnexpectedEndOfInput

  // ---------------------------------------------------------------------------
  // Little-endian integers

  function Pow256(n: nat): (r: nat)
    ensures r > 0
  {
    if n == 0 then 1 else 256 * Pow256(n - 1)
  }

  lemma Pow256Widths()
    ensures Pow256(2) == 0x1_0000 && Pow256(4) == 0x1_0000_0000
  {
  }

  /** The unsigned value of `s`, least significant byte first. */
  function LeDecode(s: seq<Byte>): (r: nat)
    ensures r < Pow256(|s|)
  {
    if s == [] then 0 else s[0] + 256 * LeDecode(s[1..])
  }

  /** The `n` bytes of `x`, least significant first. */
  function LeEncode(x: nat, n: nat): (s: seq<Byte>)
    requires x < Pow256(n)
    ensures |s| == n
  {
    if n == 0 then [] else [x % 256] + LeEncode(x / 256, n - 1)
  }

  lemma {:induction false} LeDecodeEncode(x: nat, n: nat)
    requires x < Pow256(n)
    ensures LeDecode(LeEncode(x, n)) == x
  {
    if n > 0 {
      LeDecodeEncode(x / 256, n - 1);
      assert LeEncode(x, n)[1..] == LeEncode(x / 256, n - 1);
    }
  }

  lemma {:induction false} LeEncodeDecode(s: seq<Byte>)
    ensures LeEncode(LeDecode(s), |s|) == s
  {
    if s != [] {
      LeEncodeDecode(s[1..]);
      var x := LeDecode(s);
      assert x % 256 == s[0] && x / 256 == LeDecode(s[1..]);
    }
  }

  /** The u16 stored little-endian at `off`. */
  function U16At(buf: seq<Byte>, off: nat): U16
    requires off + 2 <= |buf|
  {
    buf[off] as int + 0x100 * buf[off + 1] as int
  }

  /** The u32 stored little-endian at `off`. */
  function U32At(buf: seq<Byte>, off: nat): U32
    requires off + 4 <= |buf|
  {
    buf[off] as int + 0x100 * buf[off + 1] as int + 0x1_0000 * buf[off + 2] as int + 0x100_0000 * buf[off + 3] as int
  }

  lemma U16AtIsLeDecode(buf: seq<Byte>, off: nat)
    requires off + 2 <= |buf|
    ensures U16At(buf, off) == LeDecode(buf[off..off + 2])
  {
    var s := buf[off..off + 2];
    assert s[1..][1..] == [];
    assert LeDecode(s[1..]) == buf[off + 1];
  }

  lemma U32AtIsLeDecode(buf: seq<Byte>, off: nat)
    requires off + 4 <= |buf|
    ensures U32At(buf, off) == LeDecode(buf[off..off + 4])
  {
    var s := buf[off..off + 4];
    var t1, t2, t3 := s[1..], s[1..][1..], s[1..][1..][1..];
    assert t3[1..] == [];
    assert LeDecode(t3) == buf[off + 3];
    assert LeDecode(t2) == buf[off + 2] + 256 * LeDecode(t3);
    assert LeDecode(t1) == buf[off + 1] + 256 * LeDecode(t2);
    assert LeDecode(s) == buf[off] + 256 * LeDecode(t1);
  }

  function U16Bytes(x: U16): (s: seq<Byte>)
    ensures |s| == 2
  {
    Pow256Widths();
    LeEncode(x, 2)
  }

  function U32Bytes(x: U32): (s: seq<Byte>)
    ensures |s| == 4
  {
    Pow256Widths();
    LeEncode(x, 4)
  }

  // ---------------------------------------------------------------------------
  // The record

  /** The wire form of a record, field by field in declaration order. */
  function Encode(c: TlsChunk): (buf: seq<Byte>)
    ensures |buf| == RecordSize
  {
    U32Bytes(c.pid) + (U32Bytes(c.tgid) + (U32Bytes(c.len) + (U32Bytes(c.start)
    + (U32Bytes(c.recorded) + (U32Bytes(c.fd) + (U32Bytes(c.flags)
    + (U32Bytes(c.addressInfo.saddr) + (U32Bytes(c.addressInfo.daddr)
    + (U16Bytes(c.addressInfo.sport) + (U16Bytes(c.addressInfo.dport)
    + c.data))))))))))
  }

  /** Reads one record from the front of `buf`, as `binary.Read` with little-endian order does. */
  function Decode(buf: seq<Byte>): (r: Result<TlsChunk, DecodeError>)
    ensures r.Success? <==> |buf| >= RecordSize
    ensures r == Failure(EndOfInput) <==> buf == []
  {
    if buf == [] then Failure(EndOfInput)
    else if |buf| < RecordSize then Failure(UnexpectedEndOfInput)
    else
      var b := buf[..RecordSize];
      Success(TlsChunk(
        U32At(b, PidOffset), U32At(b, TgidOffset), U32At(b, LenOffset), U32At(b, StartOffset),
        U32At(b, RecordedOffset), U32At(b, FdOffset), U32At(b, FlagsOffset),
        AddressInfo(U32At(b, SaddrOffset), U32At(b, DaddrOffset), U16At(b, SportOffset), U16At(b, DportOffset)),
        b[DataOffset..RecordSize]))
  }

  /** Each field of the wire form sits at its fixed offset. */
  lemma EncodeLayout(c: TlsChunk)
    ensures var buf := Encode(c);
      && buf[PidOffset..PidOffset + 4] == U32Bytes(c.pid)
      && buf[TgidOffset..TgidOffset + 4] == U32Bytes(c.tgid)
      && buf[LenOffset..LenOffset + 4] == U32Bytes(c.len)
      && buf[StartOffset..StartOffset + 4] == U32Bytes(c.start)
      && buf[RecordedOffset..RecordedOffset + 4] == U32Bytes(c.recorded)
      && buf[FdOffset..FdOffset + 4] == U32Bytes(c.fd)
      && buf[FlagsOffset..FlagsOffset + 4] == U32Bytes(c.flags)
      && buf[SaddrOffset..SaddrOffset + 4] == U32Bytes(c.addressInfo.saddr)
      && buf[DaddrOffset..DaddrOffset + 4] == U32Bytes(c.addressInfo.daddr)
      && buf[SportOffset..SportOffset + 2] == U16Bytes(c.addressInfo.sport)
      && buf[DportOffset..DportOffset + 2] == U16Bytes(c.addressInfo.dport)
      && buf[DataOffset..RecordSize] == c.data
  {
  }

  /** Decoding the wire form of a record gives the record back. */
  lemma DecodeEncode(c: TlsChunk)
    ensures Decode(Encode(c)) == Success(c)
  {
    var b := Encode(c);
    Pow256Widths();
    EncodeLayout(c);
    assert b[..RecordSize] == b;
    LeDecodeEncode(c.pid, 4);
    LeDecodeEncode(c.tgid, 4);
    LeDecodeEncode(c.len, 4);
    LeDecodeEncode(c.start, 4);
    LeDecodeEncode(c.recorded, 4);
    LeDecodeEncode(c.fd, 4);
    LeDecodeEncode(c.flags, 4);
    LeDecodeEncode(c.addressInfo.saddr, 4);
    LeDecodeEncode(c.addressInfo.daddr, 4);
    LeDecodeEncode(c.addressInfo.sport, 2);
    LeDecodeEncode(c.addressInfo.dport, 2);
    U32AtIsLeDecode(b, PidOffset);
    U32AtIsLeDecode(b, TgidOffset);
    U32AtIsLeDecode(b, LenOffset);
    U32AtIsLeDecode(b, StartOffset);
    U32AtIsLeDecode(b, RecordedOffset);
    U32AtIsLeDecode(b, FdOffset);
    U32AtIsLeDecode(b, FlagsOffset);
    U32AtIsLeDecode(b, SaddrOffset);
    U32AtIsLeDecode(b, DaddrOffset);
    U16AtIsLeDecode(b, SportOffset);
    U16AtIsLeDecode(b, DportOffset);
  }

  /** `s` cut at `k` into a field of `w` bytes and the rest. */
  lemma Peel(s: seq<Byte>, k: nat, w: nat)
    requires k + w <= |s|
    ensures s[k..] == s[k..k + w] + s[k + w..]
  {
  }

  /** A successful decode reads exactly the first RecordSize bytes: re-encoding gives them back. */
  lemma EncodeDecode(buf: seq<Byte>)
    requires |buf| >= RecordSize
    ensures Decode(buf).Success? && Encode(Decode(buf).value) == buf[..RecordSize]
  {
    var b := buf[..RecordSize];
    var c := Decode(buf).value;
    Pow256Widths();
    LeEncodeDecode(b[0..4]);
    LeEncodeDecode(b[4..8]);
    LeEncodeDecode(b[8..12]);
    LeEncodeDecode(b[12..16]);
    LeEncodeDecode(b[16..20]);
    LeEncodeDecode(b[20..24]);
    LeEncodeDecode(b[24..28]);
    LeEncodeDecode(b[28..32]);
    LeEncodeDecode(b[32..36]);
    LeEncodeDecode(b[36..38]);
    LeEncodeDecode(b[38..40]);
    U32AtIsLeDecode(b, PidOffset);
    U32AtIsLeDecode(b, TgidOffset);
    U32AtIsLeDecode(b, LenOffset);
    U32AtIsLeDecode(b, StartOffset);
    U32AtIsLeDecode(b, RecordedOffset);
    U32AtIsLeDecode(b, FdOffset);
    U32AtIsLeDecode(b, FlagsOffset);
    U32AtIsLeDecode(b, SaddrOffset);
    U32AtIsLeDecode(b, DaddrOffset);
    U16AtIsLeDecode(b, SportOffset);
    U16AtIsLeDecode(b, DportOffset);
    assert b[40..] == c.data;
    Peel(b, 38, 2);
    Peel(b, 36, 2);
    Peel(b, 32, 4);
    Peel(b, 28, 4);
    Peel(b, 24, 4);
    Peel(b, 20, 4);
    Peel(b, 16, 4);
    Peel(b, 12, 4);
    Peel(b, 8, 4);
    Peel(b, 4, 4);
    Peel(b, 0, 4);
    assert b[0..] == b;
  }

  /** Bytes after the first RecordSize do not affect the decoded record. */
  lemma DecodeIgnoresTrailing(buf: seq<Byte>, extra: seq<Byte>)
    requires |buf| >= RecordSize
    ensures Decode(buf + extra) == Decode(buf)
  {
    assert (buf + extra)[..RecordSize] == buf[..RecordSize];
  }
}
