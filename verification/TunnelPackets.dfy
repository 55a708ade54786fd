/** IPv4 packets of the tunnel: discovery requests and responses, and ICMP echo. */
module TunnelPackets {
  import opened Prelude
  import opened Checksum

  const DISCOVERY_PORT: u16 := 4720

  type ip4 = a: bytes | |a| == 4 witness [0, 0, 0, 0]

  type u16 = n: nat | n < 65536

  /** Truncation to 16 bits. */
  function U16(n: nat): u16 {
    n % 65536
  }

  lemma U16Exact(n: nat)
    ensures U16(n) == n <==> n < 65536
    ensures U16(n) <= n
  {}

  function Hi(n: u16): byte {
    n / 256
  }

  function Lo(n: u16): byte {
    n % 256
  }

  /** The header length field, in bytes. */
  function Ihl(p: bytes): nat
    requires |p| >= 1
  {
    4 * (p[0] % 16)
  }

  // ----- Discovery -----

  /** What the parser makes of a packet. A UDP length below 8 makes its slice panic. */
  datatype Parsed = Ignored | Panics | Found(src: ip4, port: u16, payload: bytes)

  function ParseDiscoveryRequest(p: bytes): Parsed {
    if |p| < 28 || p[9] != 17 || |p| < Ihl(p) + 8 then Ignored
    else
      var udp := p[Ihl(p)..];
      if Be16(udp[2], udp[3]) != DISCOVERY_PORT then Ignored
      else
        var length := Be16(udp[4], udp[5]);
        if |udp| < length then Ignored
        else if length < 8 then Panics
        else Found(p[12..16], Be16(udp[0], udp[1]), udp[8..length])
  }

  /** The IPv4 header of a response, with the given checksum. */
  function IpHeader(total: nat, src: ip4, dst: ip4, c: u16): bytes {
    [0x45, 0, Hi(U16(total)), Lo(U16(total)), 0, 0, 0x40, 0, 64, 17, Hi(c), Lo(c)] + src + dst
  }

  function UdpHeader(port: u16, length: nat): bytes {
    [Hi(DISCOVERY_PORT), Lo(DISCOVERY_PORT), Hi(port), Lo(port), Hi(U16(length)), Lo(U16(length)), 0, 0]
  }

  /** The response packet: both length fields are truncated to 16 bits. */
  function Response(src: ip4, dst: ip4, port: u16, payload: bytes): bytes {
    var total := 28 + |payload|;
    Datagram(IpHeader(total, src, dst, ChecksumOf(IpHeader(total, src, dst, 0))), port, payload)
  }

  function Datagram(header: bytes, port: u16, payload: bytes): bytes {
    header + UdpHeader(port, 8 + |payload|) + payload
  }

  /** Copies `data` into the packet. */
  method WriteAt(a: array<byte>, off: nat, data: bytes)
    requires off + |data| <= a.Length
    modifies a
    ensures forall i | 0 <= i < a.Length ::
              a[i] == if off <= i < off + |data| then data[i - off] else old(a[i])
  {
    for n := 0 to |data|
      invariant forall i | 0 <= i < a.Length :: a[i] == if off <= i < off + n then data[i - off] else old(a[i])
    {
      a[off + n] := data[n];
    }
  }

  method WriteIpHeader(a: array<byte>, total: nat, src: ip4, dst: ip4)
    requires a.Length >= 20 && forall i | 0 <= i < 20 :: a[i] == 0
    modifies a
    ensures a[..20] == IpHeader(total, src, dst, ChecksumOf(IpHeader(total, src, dst, 0)))
    ensures forall i | 20 <= i < a.Length :: a[i] == old(a[i])
  {
    a[0] := 0x45;
    a[2], a[3] := Hi(U16(total)), Lo(U16(total));
    a[6] := 0x40;
    a[8], a[9] := 64, 17;
    WriteAt(a, 12, src);
    WriteAt(a, 16, dst);
    assert a[..20] == IpHeader(total, src, dst, 0);
    var c := IpChecksum(a[..20]);
    ClearedHeader(total, src, dst);
    a[10], a[11] := Hi(c), Lo(c);
  }

  lemma ClearedHeader(total: nat, src: ip4, dst: ip4)
    ensures Cleared(IpHeader(total, src, dst, 0)) == IpHeader(total, src, dst, 0)
  {
  }

  method BuildDiscoveryResponse(src: ip4, dst: ip4, port: u16, payload: bytes) returns (packet: bytes)
    ensures packet == Response(src, dst, port, payload)
  {
    var total := 28 + |payload|;
    var a := new byte[total](i => 0);
    WriteIpHeader(a, total, src, dst);
    ghost var header := a[..20];
    WriteAt(a, 20, UdpHeader(port, 8 + |payload|));
    WriteAt(a, 28, payload);
    packet := a[..];
    assert packet[..20] == header;
    assert packet[20..28] == UdpHeader(port, 8 + |payload|);
    assert packet[28..] == payload;
    assert packet == packet[..20] + packet[20..28] + packet[28..];
  }

  /** The 20-byte header of a packet adds up. */
  predicate HeaderSound(p: bytes) {
    |p| >= 20 && Sound(p[..20])
  }

  /** The header checksum of every response is sound. */
  lemma ResponseHeaderSound(src: ip4, dst: ip4, port: u16, payload: bytes)
    ensures HeaderSound(Response(src, dst, port, payload))
  {
    var h: bytes := IpHeader(28 + |payload|, src, dst, 0);
    var c := ChecksumOf(h);
    ChecksumMakesSound(h, 10);
    var filled: bytes := h[10 := Hi(c)][11 := Lo(c)];
    assert filled == IpHeader(28 + |payload|, src, dst, c);
    assert Response(src, dst, port, payload)[..20] == IpHeader(28 + |payload|, src, dst, c);
  }

  lemma DatagramParts(header: bytes, port: u16, payload: bytes)
    requires |header| == 20
    ensures
      var p := Datagram(header, port, payload);
      && |p| == 28 + |payload| && p[..20] == header && p[28..] == payload
      && p[20..28] == UdpHeader(port, 8 + |payload|)
  {}

  lemma UdpHeaderFields(port: u16, length: nat)
    ensures
      var u := UdpHeader(port, length);
      && Be16(u[0], u[1]) == DISCOVERY_PORT && Be16(u[2], u[3]) == port && Be16(u[4], u[5]) == U16(length)
  {
  }

  /** A packet with a 20-byte header, its addresses, ports, length fields and payload. */
  predicate Says(p: bytes, src: ip4, dst: ip4, from: u16, to: u16, ipLength: u16, udpLength: u16, payload: bytes) {
    && |p| == 28 + |payload| && p[0] == 0x45 && p[9] == 17
    && p[12..16] == src && p[16..20] == dst && p[28..] == payload
    && Be16(p[2], p[3]) == ipLength
    && Be16(p[20], p[21]) == from && Be16(p[22], p[23]) == to && Be16(p[24], p[25]) == udpLength
  }

  lemma DatagramFits(header: bytes, src: ip4, dst: ip4, port: u16, payload: bytes)
    requires |header| == 20 && header[0] == 0x45 && header[9] == 17
    requires Be16(header[2], header[3]) == U16(28 + |payload|)
    requires header[12..16] == src && header[16..20] == dst
    ensures Fits(Datagram(header, port, payload), src, dst, port, payload)
  {
    DatagramParts(header, port, payload);
    UdpHeaderFields(port, 8 + |payload|);
    PartsSay(Datagram(header, port, payload), header, UdpHeader(port, 8 + |payload|));
  }

  lemma PartsSay(p: bytes, header: bytes, udp: bytes)
    requires |p| >= 28 && p[..20] == header && p[20..28] == udp
    ensures |header| == 20 && |udp| == 8
    ensures p[0] == header[0] && p[2] == header[2] && p[3] == header[3] && p[9] == header[9]
    ensures p[12..16] == header[12..16] && p[16..20] == header[16..20]
    ensures p[20] == udp[0] && p[21] == udp[1] && p[22] == udp[2] && p[23] == udp[3]
    ensures p[24] == udp[4] && p[25] == udp[5]
  {}

  lemma HeaderFields(total: nat, src: ip4, dst: ip4, c: u16)
    ensures
      var h := IpHeader(total, src, dst, c);
      && |h| == 20 && h[0] == 0x45 && h[9] == 17 && Be16(h[2], h[3]) == U16(total)
      && h[12..16] == src && h[16..20] == dst
  {
  }

  /** A packet that says what a response for this payload says. */
  predicate Fits(p: bytes, src: ip4, dst: ip4, port: u16, payload: bytes) {
    Says(p, src, dst, DISCOVERY_PORT, port, U16(28 + |payload|), U16(8 + |payload|), payload)
  }

  /** Every built response fits: the UDP source port is always 4720. */
  lemma ResponseFits(src: ip4, dst: ip4, port: u16, payload: bytes)
    ensures Fits(Response(src, dst, port, payload), src, dst, port, payload)
  {
    var total := 28 + |payload|;
    var c := ChecksumOf(IpHeader(total, src, dst, 0));
    HeaderFields(total, src, dst, c);
    DatagramFits(IpHeader(total, src, dst, c), src, dst, port, payload);
  }

  /** The IP total length is right exactly for payloads of at most 65,507 bytes, the UDP length up to 65,527. */
  lemma LengthFieldsConsistent(src: ip4, dst: ip4, port: u16, payload: bytes)
    ensures IpLengthRight(Response(src, dst, port, payload)) <==> |payload| <= 65507
    ensures UdpLengthRight(Response(src, dst, port, payload)) <==> |payload| <= 65527
  {
    ResponseFits(src, dst, port, payload);
    U16Exact(28 + |payload|);
    U16Exact(8 + |payload|);
  }

  /** The IP total length is that of the packet. */
  predicate IpLengthRight(p: bytes) {
    |p| >= 28 && Be16(p[2], p[3]) == |p|
  }

  /** The UDP length is that of the packet behind a 20-byte header. */
  predicate UdpLengthRight(p: bytes) {
    |p| >= 28 && Be16(p[24], p[25]) == |p| - 20
  }

  lemma ParseOfSays(p: bytes, src: ip4, dst: ip4, from: u16, to: u16, ipLength: u16, udpLength: u16, payload: bytes)
    requires Says(p, src, dst, from, to, ipLength, udpLength, payload) && udpLength <= 8 + |payload|
    ensures ParseDiscoveryRequest(p) ==
            if to != DISCOVERY_PORT then Ignored
            else if udpLength < 8 then Panics
            else Found(src, from, payload[..udpLength - 8])
  {
    var udp := p[20..];
    assert forall i | 0 <= i < 8 :: udp[i] == p[20 + i];
    if udpLength >= 8 {
      assert udp[8..udpLength] == p[28..][..udpLength - 8];
    }
  }

  /**
   Building then parsing: a response is taken for a request exactly when it goes
   to the discovery port, and then the sender and, up to 65,527 bytes, the payload
   come back unchanged. Beyond that the parser sees a shorter payload or panics.
   */
  lemma BuildThenParse(src: ip4, dst: ip4, port: u16, payload: bytes)
    ensures ParsesBack(ParseDiscoveryRequest(Response(src, dst, port, payload)), src, port, payload)
  {
    ResponseFits(src, dst, port, payload);
    U16Exact(8 + |payload|);
    ParseVerdict(Response(src, dst, port, payload), src, dst, port, U16(28 + |payload|), U16(8 + |payload|), payload);
  }

  /** What parsing a response for this payload gives: each outcome exactly when. */
  predicate ParsesBack(parsed: Parsed, src: ip4, port: u16, payload: bytes) {
    && (parsed.Ignored? <==> port != DISCOVERY_PORT)
    && (parsed == Found(src, DISCOVERY_PORT, payload) <==> port == DISCOVERY_PORT && |payload| <= 65527)
    && (parsed.Panics? <==> port == DISCOVERY_PORT && U16(8 + |payload|) < 8)
  }

  lemma ParseVerdict(p: bytes, src: ip4, dst: ip4, port: u16, ipLength: u16, length: u16, payload: bytes)
    requires Says(p, src, dst, DISCOVERY_PORT, port, ipLength, length, payload) && length <= 8 + |payload|
    ensures
      var parsed := ParseDiscoveryRequest(p);
      && (parsed.Ignored? <==> port != DISCOVERY_PORT)
      && (parsed == Found(src, DISCOVERY_PORT, payload) <==> port == DISCOVERY_PORT && length == 8 + |payload|)
      && (parsed.Panics? <==> port == DISCOVERY_PORT && length < 8)
  {
    ParseOfSays(p, src, dst, DISCOVERY_PORT, port, ipLength, length, payload);
    assert payload[..|payload|] == payload;
  }

  /** The discovery port is where this UDP packet goes. */
  predicate GoesToDiscovery(p: bytes) {
    |p| >= 28 && p[9] == 17 && |p| >= Ihl(p) + 8 && Be16(p[Ihl(p) + 2], p[Ihl(p) + 3]) == DISCOVERY_PORT
  }

  datatype Handled = Unanswered | Crashed | Answered(packet: bytes)

  /** A tunnel packet answered with the device info; `scan` decodes the JSON request. */
  function HandleDiscovery(p: bytes, upstream: ip4, info: bytes, scan: bytes -> bool): Handled {
    match ParseDiscoveryRequest(p)
    case Ignored => Unanswered
    case Panics => Crashed
    case Found(src, port, payload) =>
      if scan(payload) then Answered(Response(upstream, src, port, info)) else Unanswered
  }

  /**
   Among all tunnel packets exactly those to the discovery port with a UDP length
   below 8 crash the handler, however long they are and whatever they hold.
   */
  lemma CrashesExactly(p: bytes, upstream: ip4, info: bytes, scan: bytes -> bool)
    ensures HandleDiscovery(p, upstream, info, scan).Crashed? <==>
            GoesToDiscovery(p) && Be16(p[Ihl(p) + 4], p[Ihl(p) + 5]) < 8
  {
    if |p| >= 28 && |p| >= Ihl(p) + 8 {
      var n := Ihl(p);
      assert forall i | 0 <= i < 8 :: p[n..][i] == p[n + i];
    }
  }

  /** A packet of 28 bytes to port 4720 with a UDP length of zero. */
  function EmptyLength(src: ip4, dst: ip4): bytes {
    [0x45, 0, 0, 28, 0, 0, 0, 0, 64, 17, 0, 0] + src + dst + [0x12, 0x70, 0x12, 0x70, 0, 0, 0, 0]
  }

  lemma EmptyLengthCrashes(src: ip4, dst: ip4, upstream: ip4, info: bytes, scan: bytes -> bool)
    ensures HandleDiscovery(EmptyLength(src, dst), upstream, info, scan) == Crashed
  {
    var p := EmptyLength(src, dst);
    CrashesExactly(p, upstream, info, scan);
    assert p[22] == 0x12 && p[23] == 0x70 && p[24] == 0 && p[25] == 0;
  }

  /**
   The answer goes back to the requester with the whole info. Its length fields are
   right exactly up to 65,507 and 65,527 bytes, and it is no request itself exactly
   if the requester did not ask from port 4720.
   */
  lemma DiscoveryAnswersRequester(p: bytes, upstream: ip4, info: bytes, scan: bytes -> bool) returns (r: bytes)
    requires ParseDiscoveryRequest(p).Found?
    ensures HandleDiscovery(p, upstream, info, scan) ==
            if scan(ParseDiscoveryRequest(p).payload) then Answered(r) else Unanswered
    ensures |r| == 28 + |info| && r[12..16] == upstream && r[16..20] == p[12..16] && r[28..] == info
    ensures Be16(r[22], r[23]) == Be16(p[Ihl(p)], p[Ihl(p) + 1]) && HeaderSound(r)
    ensures (IpLengthRight(r) <==> |info| <= 65507) && (UdpLengthRight(r) <==> |info| <= 65527)
    ensures ParsesBack(ParseDiscoveryRequest(r), upstream, Be16(p[Ihl(p)], p[Ihl(p) + 1]), info)
  {
    var f := ParseDiscoveryRequest(p);
    FoundFields(p);
    r := ResponseAll(upstream, f.src, f.port, info);
    LengthFieldsConsistent(upstream, f.src, f.port, info);
    BuildThenParse(upstream, f.src, f.port, info);
  }

  lemma FoundFields(p: bytes)
    requires ParseDiscoveryRequest(p).Found?
    ensures |p| >= 28 && |p| >= Ihl(p) + 8
    ensures ParseDiscoveryRequest(p).src == p[12..16]
    ensures ParseDiscoveryRequest(p).port == Be16(p[Ihl(p)], p[Ihl(p) + 1])
  {}

  lemma ResponseAll(src: ip4, dst: ip4, port: u16, payload: bytes) returns (r: bytes)
    ensures r == Response(src, dst, port, payload) && Fits(r, src, dst, port, payload) && HeaderSound(r)
  {
    r := Response(src, dst, port, payload);
    ResponseFits(src, dst, port, payload);
    ResponseHeaderSound(src, dst, port, payload);
  }
}
