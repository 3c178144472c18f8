/**
 * Flow-key and connection-identity canonicalisation of the TLS poller
 * (`buildTlsKey`, `buildTcpId`). IP addresses are the abstract text that
 * `net.IP.String()` produces; ports are 16-bit values rendered in unpadded
 * base 10, as both `%d` and `strconv.FormatUint(_, 10)` do.
 */
module Canonical {

  /** A TCP port as carried in the address quad. */
  type Port = p: int | 0 <= p < 0x1_0000

  /** Source and destination of one observed chunk. */
  datatype AddressPair = AddressPair(srcIp: string, srcPort: Port, dstIp: string, dstPort: Port)

  /** The textual connection identity handed to a reassembly reader. */
  datatype TcpId = TcpId(srcIp: string, dstIp: string, srcPort: string, dstPort: string)

  /** The same quad seen from the other end. */
  function Reverse(a: AddressPair): AddressPair
  {
    AddressPair(a.dstIp, a.dstPort, a.srcIp, a.srcPort)
  }

  /** The quad in request orientation: as observed for a request, reversed for a response. */
  function Orient(a: AddressPair, isRequest: bool): AddressPair
  {
    if isRequest then a else Reverse(a)
  }

  /** A connection identity with its two ends exchanged. */
  function Swapped(t: TcpId): TcpId
  {
    TcpId(t.dstIp, t.srcIp, t.dstPort, t.srcPort)
  }

  // ---------------------------------------------------------------------------
  // Unpadded base-10 rendering of ports

  predicate IsDigit(c: char)
  {
    '0' <= c <= '9'
  }

  predicate AllDigits(s: string)
  {
    forall i :: 0 <= i < |s| ==> IsDigit(s[i])
  }

  function DigitChar(d: nat): (c: char)
    requires d < 10
    ensures IsDigit(c) && c as int - '0' as int == d
  {
    "0123456789"[d]
  }

  /** The base-10 text of `n`, without padding or sign. */
  function Decimal(n: nat): (s: string)
    ensures 1 <= |s| && AllDigits(s)
    ensures s[0] == '0' <==> n == 0
    ensures n < 10 <==> |s| == 1
    decreases n
  {
    if n < 10 then [DigitChar(n)] else Decimal(n / 10) + [DigitChar(n % 10)]
  }

  /** Reads base-10 text back into a number; the reference inverse of Decimal. */
  function ParseDecimal(s: string): nat
    requires AllDigits(s)
  {
    if s == [] then 0 else 10 * ParseDecimal(s[..|s| - 1]) + (s[|s| - 1] as int - '0' as int)
  }

  lemma {:induction false} ParseDecimalInverse(n: nat)
    ensures ParseDecimal(Decimal(n)) == n
    decreases n
  {
    if n >= 10 {
      var s := Decimal(n);
      assert s[..|s| - 1] == Decimal(n / 10);
      ParseDecimalInverse(n / 10);
    }
  }

  lemma DecimalInjective(m: nat, n: nat)
    ensures Decimal(m) == Decimal(n) <==> m == n
  {
    ParseDecimalInverse(m);
    ParseDecimalInverse(n);
  }

  // ---------------------------------------------------------------------------
  // Flow keys and connection identities (tls_poller.go, buildTlsKey / buildTcpId)

  /** One end of a flow key: `ip:port`. */
  function Endpoint(ip: string, port: Port): string
  {
    ip + ":" + Decimal(port)
  }

  /** The registry key `src:port>dst:port`, in request orientation whatever the direction. */
  function BuildTlsKey(a: AddressPair, isRequest: bool): string
  {
    if isRequest then Endpoint(a.srcIp, a.srcPort) + ">" + Endpoint(a.dstIp, a.dstPort)
    else Endpoint(a.dstIp, a.dstPort) + ">" + Endpoint(a.srcIp, a.srcPort)
  }

  /** The reader identity: observed source as client when `isRequest`, ends swapped otherwise. */
  function BuildTcpId(a: AddressPair, isRequest: bool): TcpId
  {
    if isRequest then TcpId(a.srcIp, a.dstIp, Decimal(a.srcPort), Decimal(a.dstPort))
    else TcpId(a.dstIp, a.srcIp, Decimal(a.dstPort), Decimal(a.srcPort))
  }

  /** A request and the response on the reversed quad share one key. */
  lemma KeySymmetric(a: AddressPair)
    ensures BuildTlsKey(a, true) == BuildTlsKey(Reverse(a), false)
    ensures BuildTlsKey(a, false) == BuildTlsKey(Reverse(a), true)
  {
  }

  /** The response identity is the request identity with both ends exchanged. */
  lemma TcpIdOrientations(a: AddressPair)
    ensures BuildTcpId(a, false) == Swapped(BuildTcpId(a, true))
    ensures BuildTcpId(a, false) == BuildTcpId(Reverse(a), true)
  {
  }

  /** The port fields of an identity are the ports themselves, in base 10. */
  lemma TcpIdPorts(a: AddressPair)
    ensures AllDigits(BuildTcpId(a, true).srcPort) && ParseDecimal(BuildTcpId(a, true).srcPort) == a.srcPort
    ensures AllDigits(BuildTcpId(a, true).dstPort) && ParseDecimal(BuildTcpId(a, true).dstPort) == a.dstPort
  {
    ParseDecimalInverse(a.srcPort);
    ParseDecimalInverse(a.dstPort);
  }

  // ---------------------------------------------------------------------------
  // A key identifies exactly one flow, as long as no IP text contains '>'

  function IndexOf(s: string, c: char): (i: nat)
    ensures i <= |s|
    ensures i < |s| ==> s[i] == c
    ensures forall j :: 0 <= j < i ==> s[j] != c
  {
    if s == [] then 0 else if s[0] == c then 0 else 1 + IndexOf(s[1..], c)
  }

  function LastIndexOf(s: string, c: char): (i: int)
    ensures -1 <= i < |s|
    ensures 0 <= i ==> s[i] == c
    ensures forall j :: i < j < |s| ==> s[j] != c
  {
    if s == [] then -1 else if s[|s| - 1] == c then |s| - 1 else LastIndexOf(s[..|s| - 1], c)
  }

  lemma IndexOfSplit(x: string, y: string, c: char)
    requires c !in x
    ensures IndexOf(x + [c] + y, c) == |x|
  {
    var s := x + [c] + y;
    var i := IndexOf(s, c);
    assert s[|x|] == c;
  }

  lemma LastIndexOfSplit(x: string, y: string, c: char)
    requires c !in y
    ensures LastIndexOf(x + [c] + y, c) == |x|
  {
    var s := x + [c] + y;
    var i := LastIndexOf(s, c);
    assert s[|x|] == c;
  }

  lemma EndpointInjective(ip1: string, p1: Port, ip2: string, p2: Port)
    requires Endpoint(ip1, p1) == Endpoint(ip2, p2)
    ensures ip1 == ip2 && p1 == p2
  {
    var s := Endpoint(ip1, p1);
    var d1, d2 := Decimal(p1), Decimal(p2);
    assert ':' !in d1 && ':' !in d2 by {
      assert forall i :: 0 <= i < |d1| ==> IsDigit(d1[i]);
      assert forall i :: 0 <= i < |d2| ==> IsDigit(d2[i]);
    }
    assert s == ip1 + [':'] + d1 == ip2 + [':'] + d2;
    LastIndexOfSplit(ip1, d1, ':');
    LastIndexOfSplit(ip2, d2, ':');
    assert ip1 == s[..|ip1|] == ip2;
    assert d1 == s[|ip1| + 1..] == d2;
    DecimalInjective(p1, p2);
  }

  /** IP text that cannot be mistaken for the key separator. */
  predicate PlainIps(a: AddressPair)
  {
    '>' !in a.srcIp && '>' !in a.dstIp
  }

  lemma EndpointHasNoSeparator(ip: string, port: Port)
    requires '>' !in ip
    ensures '>' !in Endpoint(ip, port)
  {
    var d := Decimal(port);
    assert forall i :: 0 <= i < |d| ==> IsDigit(d[i]);
  }

  /** Two chunks share a key exactly when their quads agree in request orientation. */
  lemma {:induction false} KeyIdentifiesFlow(a: AddressPair, aIsRequest: bool, b: AddressPair, bIsRequest: bool)
    requires PlainIps(a) && PlainIps(b)
    ensures BuildTlsKey(a, aIsRequest) == BuildTlsKey(b, bIsRequest) <==> Orient(a, aIsRequest) == Orient(b, bIsRequest)
  {
    var oa, ob := Orient(a, aIsRequest), Orient(b, bIsRequest);
    assert BuildTlsKey(a, aIsRequest) == BuildTlsKey(oa, true);
    assert BuildTlsKey(b, bIsRequest) == BuildTlsKey(ob, true);
    if BuildTlsKey(oa, true) == BuildTlsKey(ob, true) {
      var ea, eb := Endpoint(oa.srcIp, oa.srcPort), Endpoint(ob.srcIp, ob.srcPort);
      var fa, fb := Endpoint(oa.dstIp, oa.dstPort), Endpoint(ob.dstIp, ob.dstPort);
      EndpointHasNoSeparator(oa.srcIp, oa.srcPort);
      EndpointHasNoSeparator(ob.srcIp, ob.srcPort);
      var s := BuildTlsKey(oa, true);
      assert s == ea + ['>'] + fa == eb + ['>'] + fb;
      IndexOfSplit(ea, fa, '>');
      IndexOfSplit(eb, fb, '>');
      assert ea == s[..|ea|] == eb;
      assert fa == s[|ea| + 1..] == fb;
      EndpointInjective(oa.srcIp, oa.srcPort, ob.srcIp, ob.srcPort);
      EndpointInjective(oa.dstIp, oa.dstPort, ob.dstIp, ob.dstPort);
    }
  }

  /** Ports 5000 and 443 as they appear in keys and identities. */
  lemma ExamplePorts()
    ensures Decimal(5000) == "5000" && Decimal(443) == "443"
  {
    assert Decimal(500) == "500";
    assert Decimal(44) == "44";
  }

  /** A client at 10.0.0.1:5000 talking to a server at 10.0.0.2:443: request and response are filed under one key. */
  lemma ExampleKey()
    ensures var a := AddressPair("10.0.0.1", 5000, "10.0.0.2", 443);
      && BuildTlsKey(a, true) == "10.0.0.1:5000>10.0.0.2:443"
      && BuildTlsKey(Reverse(a), false) == "10.0.0.1:5000>10.0.0.2:443"
  {
    ExamplePorts();
  }

  /** The reader identities for that client and server: ends as observed for a request, exchanged for a response. */
  lemma ExampleTcpId()
    ensures var a := AddressPair("10.0.0.1", 5000, "10.0.0.2", 443);
      && BuildTcpId(a, true) == TcpId("10.0.0.1", "10.0.0.2", "5000", "443")
      && BuildTcpId(a, false) == TcpId("10.0.0.2", "10.0.0.1", "443", "5000")
  {
    ExamplePorts();
  }
}
