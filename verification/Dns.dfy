/** The DNS interceptor of the tunnel (sections 3.1 and 4.1 of RFC 1035). */
module Dns {
  import opened Prelude
  import opened Checksum
  import opened TunnelPackets

  const DNS_HEADER_LEN := 12
  const DOT: byte := 46

  // ----- Names -----

  /** The labels from `pos` on and the offset after the terminating zero. */
  function Scan(data: bytes, pos: nat): Option<(seq<bytes>, nat)>
    decreases |data| - pos
  {
    if pos >= |data| then None
    else
      var n := data[pos];
      if n == 0 then Some(([], pos + 1))
      else if pos + 1 + n > |data| then None
      else match Scan(data, pos + 1 + n)
           case None => None
           case Some(rest) => Some(([data[pos + 1..pos + 1 + n]] + rest.0, rest.1))
  }

  /** Length-prefixed labels and a terminating zero. */
  function Encode(labels: seq<bytes>): bytes
    requires forall l | l in labels :: 0 < |l| < 256
  {
    if labels == [] then [0] else [|labels[0]|] + labels[0] + Encode(labels[1..])
  }

  function Dotted(labels: seq<bytes>): bytes {
    if labels == [] then []
    else if |labels| == 1 then labels[0]
    else Dotted(labels[..|labels| - 1]) + [DOT] + labels[|labels| - 1]
  }

  function LowerByte(b: byte): byte {
    if 65 <= b <= 90 then b + 32 else b
  }

  function Lower(s: bytes): bytes {
    seq(|s|, i requires 0 <= i < |s| => LowerByte(s[i]))
  }

  /** The question of a query: its lower-cased dotted name and the offset after type and class. */
  function Question(data: bytes): Option<(bytes, nat)> {
    match Scan(data, DNS_HEADER_LEN)
    case None => None
    case Some(r) => if r.1 + 4 > |data| then None else Some((Lower(Dotted(r.0)), r.1 + 4))
  }

  lemma DottedAppend(labels: seq<bytes>, l: bytes)
    requires forall k | k in labels :: k != []
    ensures Dotted(labels + [l]) == if labels == [] then l else Dotted(labels) + [DOT] + l
    ensures labels != [] ==> Dotted(labels) != []
  {
    assert (labels + [l])[..|labels|] == labels;
    if labels != [] {
      assert labels[0] in labels;
    }
  }

  /** What a scan finds, behind labels found before. */
  function Prepended(labels: seq<bytes>, scan: Option<(seq<bytes>, nat)>): Option<(seq<bytes>, nat)> {
    match scan
    case None => None
    case Some(s) => Some((labels + s.0, s.1))
  }

  lemma PrependedNone(scan: Option<(seq<bytes>, nat)>)
    ensures Prepended([], scan) == scan
  {
    if scan.Some? {
      assert [] + scan.value.0 == scan.value.0;
    }
  }

  /** The loop that walks the labels and collects the name. */
  method ParseQueryName(data: bytes) returns (r: Option<(bytes, nat)>)
    ensures r == Question(data)
  {
    if |data| < DNS_HEADER_LEN + 1 {
      return None;
    }
    var name: bytes, pos := [], DNS_HEADER_LEN;
    ghost var labels: seq<bytes> := [];
    PrependedNone(Scan(data, DNS_HEADER_LEN));
    while true
      invariant DNS_HEADER_LEN <= pos <= |data|
      invariant name == Dotted(labels) && forall k | k in labels :: k != []
      invariant name == [] <==> labels == []
      invariant Scan(data, DNS_HEADER_LEN) == Prepended(labels, Scan(data, pos))
      decreases |data| - pos
    {
      if pos >= |data| {
        return None;
      }
      var n := data[pos];
      if n == 0 {
        assert labels + [] == labels;
        pos := pos + 1;
        break;
      }
      if pos + 1 + n > |data| {
        return None;
      }
      var piece := data[pos + 1..pos + 1 + n];
      DottedAppend(labels, piece);
      if name != [] {
        name := name + [DOT];
      }
      name := name + piece;
      NextLabel(data, pos, labels);
      labels := labels + [piece];
      pos := pos + 1 + n;
    }
    if pos + 4 > |data| {
      return None;
    }
    r := Some((Lower(name), pos + 4));
  }

  lemma NextLabel(data: bytes, pos: nat, labels: seq<bytes>)
    requires pos < |data| && data[pos] != 0 && pos + 1 + data[pos] <= |data|
    ensures
      var n := data[pos];
      var piece := data[pos + 1..pos + 1 + n];
      Prepended(labels, Scan(data, pos)) == Prepended(labels + [piece], Scan(data, pos + 1 + n))
  {
    var n := data[pos];
    var piece := data[pos + 1..pos + 1 + n];
    var rest := Scan(data, pos + 1 + n);
    if rest.Some? {
      Associative(labels, [piece], rest.value.0);
    }
  }

  // ----- Round trip -----

  lemma EncodeFirst(labels: seq<bytes>)
    requires (forall l | l in labels :: 0 < |l| < 256) && labels != []
    ensures forall l | l in labels[1..] :: 0 < |l| < 256
    ensures |Encode(labels)| == 1 + |labels[0]| + |Encode(labels[1..])|
    ensures Encode(labels)[0] == |labels[0]| && Encode(labels)[1..1 + |labels[0]|] == labels[0]
    ensures Encode(labels)[1 + |labels[0]|..] == Encode(labels[1..])
  {}

  /** The parts of a length-prefixed label stand where they should. */
  lemma LabelInFront(data: bytes, pos: nat, n: byte, piece: bytes, rest: bytes)
    requires pos <= |data| && [n] + piece + rest <= data[pos..]
    ensures pos + 1 + |piece| + |rest| <= |data| && data[pos] == n
    ensures data[pos + 1..pos + 1 + |piece|] == piece && rest <= data[pos + 1 + |piece|..]
  {
    var e := [n] + piece + rest;
    assert data[pos..][..|e|] == e;
    assert data[pos] == e[0];
    assert data[pos + 1..pos + 1 + |piece|] == e[1..1 + |piece|];
    assert data[pos + 1 + |piece|..][..|rest|] == e[1 + |piece|..];
  }

  /** Encoded labels are scanned back, from wherever they stand. */
  lemma {:induction false} ScanOfEncode(data: bytes, pos: nat, labels: seq<bytes>)
    requires forall l | l in labels :: 0 < |l| < 256
    requires pos <= |data| && Encode(labels) <= data[pos..]
    ensures Scan(data, pos) == Some((labels, pos + |Encode(labels)|))
    decreases |labels|
  {
    if labels == [] {
      assert data[pos] == data[pos..][0] == 0;
    } else {
      var first, rest := labels[0], labels[1..];
      assert labels == [first] + rest;
      LabelInFront(data, pos, |first|, first, Encode(rest));
      ScanOfEncode(data, pos + 1 + |first|, rest);
    }
  }

  /** What was scanned is what stands there, encoded: the scan invents nothing. */
  lemma {:induction false} EncodeOfScan(data: bytes, pos: nat)
    requires Scan(data, pos).Some?
    ensures var (labels, end) := Scan(data, pos).value;
            && pos < end <= |data|
            && (forall l | l in labels :: 0 < |l| < 256)
            && Encode(labels) == data[pos..end]
    decreases |data| - pos
  {
    var n := data[pos];
    if n != 0 {
      EncodeOfScan(data, pos + 1 + n);
      var (rest, end) := Scan(data, pos + 1 + n).value;
      var piece := data[pos + 1..pos + 1 + n];
      var labels := [piece] + rest;
      EncodeFirst(labels);
      assert labels[0] == piece && labels[1..] == rest;
      assert data[pos..end] == [n] + piece + data[pos + 1 + n..end];
    }
  }

  /**
   Every query for a list of labels, in any header, with any type, class and
   trailing bytes, is parsed to the lower-cased dotted name and the exact end.
   */
  lemma QuestionOfEncode(header: bytes, labels: seq<bytes>, tail: bytes)
    requires |header| == DNS_HEADER_LEN && |tail| >= 4 && forall l | l in labels :: 0 < |l| < 256
    ensures Question(header + Encode(labels) + tail) ==
            Some((Lower(Dotted(labels)), DNS_HEADER_LEN + |Encode(labels)| + 4))
  {
    var data := header + Encode(labels) + tail;
    assert data[DNS_HEADER_LEN..] == Encode(labels) + tail;
    ScanOfEncode(data, DNS_HEADER_LEN, labels);
  }

  // ----- The response -----

  const ANSWER_FLAGS: bytes := [0x81, 0x80, 0, 1, 0, 1, 0, 0, 0, 0]
  const ANSWER_RECORD: bytes := [0xC0, 0x0C, 0, 1, 0, 1, 0, 0, 0, 0x3C, 0, 4]

  function DnsResponse(query: bytes, ip: ip4): Option<bytes> {
    match Question(query)
    case None => None
    case Some(q) =>
      EncodeOfScan(query, DNS_HEADER_LEN);
      Some(query[..2] + ANSWER_FLAGS + query[DNS_HEADER_LEN..q.1] + ANSWER_RECORD + ip)
  }

  method BuildDnsResponse(query: bytes, ip: ip4) returns (r: Option<bytes>)
    ensures r == DnsResponse(query, ip)
  {
    var q := ParseQueryName(query);
    if q.None? {
      return None;
    }
    EncodeOfScan(query, DNS_HEADER_LEN);
    var resp := query[0..2];
    resp := resp + ANSWER_FLAGS;
    resp := resp + query[DNS_HEADER_LEN..q.value.1];
    resp := resp + ANSWER_RECORD;
    resp := resp + ip;
    r := Some(resp);
  }

  /** The scan depends only on the bytes it walks over. */
  lemma ScanIsLocal(data: bytes, other: bytes, pos: nat, labels: seq<bytes>, end: nat)
    requires (forall l | l in labels :: 0 < |l| < 256) && pos <= end <= |data| && Encode(labels) == data[pos..end]
    requires end <= |other| && other[pos..end] == data[pos..end]
    ensures Scan(other, pos) == Some((labels, end))
  {
    assert other[pos..][..end - pos] == other[pos..end];
    ScanOfEncode(other, pos, labels);
  }

  lemma ResponseLayout(query: bytes, ip: ip4)
    requires DnsResponse(query, ip).Some?
    ensures
      var r, end := DnsResponse(query, ip).value, Question(query).value.1;
      && DNS_HEADER_LEN < end - 4 && end <= |query| && |r| == end + 16
      && r[..2] == query[..2] && r[DNS_HEADER_LEN..end] == query[DNS_HEADER_LEN..end]
      && r[end] == 0xC0 && r[end + 1] == 0x0C && r[end + 12..] == ip
  {
    EncodeOfScan(query, DNS_HEADER_LEN);
    var end := Question(query).value.1;
    FiveParts(query[..2], ANSWER_FLAGS, query[DNS_HEADER_LEN..end], ANSWER_RECORD, ip);
    var r := DnsResponse(query, ip).value;
    assert r[end] == r[end..end + 12][0] && r[end + 1] == r[end..end + 12][1];
  }

  lemma FiveParts(id: bytes, flags: bytes, question: bytes, record: bytes, ip: bytes)
    requires |id| == 2 && |flags| == 10 && |record| == 12 && |ip| == 4
    ensures
      var r, end := id + flags + question + record + ip, DNS_HEADER_LEN + |question|;
      && |r| == end + 16 && r[..2] == id && r[DNS_HEADER_LEN..end] == question
      && r[end..end + 12] == record && r[end + 12..] == ip
  {}

  lemma SliceOfSlice(s: bytes, lo: nat, mid: nat, hi: nat)
    requires lo <= mid <= hi <= |s|
    ensures s[lo..mid] == s[lo..hi][..mid - lo]
  {}

  /** Parsing the response gives the question of the query. */
  lemma ResponseKeepsQuestion(query: bytes, ip: ip4)
    requires DnsResponse(query, ip).Some?
    ensures Question(DnsResponse(query, ip).value) == Question(query)
    ensures Scan(DnsResponse(query, ip).value, DNS_HEADER_LEN) == Scan(query, DNS_HEADER_LEN)
  {
    ResponseLayout(query, ip);
    EncodeOfScan(query, DNS_HEADER_LEN);
    var r, scan := DnsResponse(query, ip).value, Scan(query, DNS_HEADER_LEN).value;
    SliceOfSlice(query, DNS_HEADER_LEN, scan.1, scan.1 + 4);
    SliceOfSlice(r, DNS_HEADER_LEN, scan.1, scan.1 + 4);
    ScanIsLocal(query, r, DNS_HEADER_LEN, scan.0, scan.1);
  }

  /** Name decoding with compression, as RFC 1035 defines it; pointers lead strictly backwards. */
  function NameAt(data: bytes, pos: nat, below: nat): Option<seq<bytes>>
    decreases below, |data| - pos
  {
    if pos >= |data| then None
    else
      var n: nat := data[pos];
      if n == 0 then Some([])
      else if n < 64 then
        if pos + 1 + n > |data| then None
        else match NameAt(data, pos + 1 + n, below)
             case None => None
             case Some(rest) => Some([data[pos + 1..pos + 1 + n]] + rest)
      else if n < 192 || pos + 1 >= |data| then None
      else
        var target := 256 * (n - 192) + data[pos + 1];
        if target < below then NameAt(data, target, target) else None
  }

  predicate Standard(labels: seq<bytes>) {
    forall i | 0 <= i < |labels| :: |labels[i]| < 64
  }

  lemma {:induction false} NamesAreStandard(data: bytes, pos: nat, below: nat)
    requires NameAt(data, pos, below).Some?
    ensures Standard(NameAt(data, pos, below).value)
    decreases below, |data| - pos
  {
    var n: nat := data[pos];
    if 0 < n < 64 {
      NamesAreStandard(data, pos + 1 + n, below);
    } else if n >= 192 {
      var target := 256 * (n - 192) + data[pos + 1];
      NamesAreStandard(data, target, target);
    }
  }

  /** The parser, which knows no compression, agrees with the standard exactly on labels below 64 bytes. */
  lemma {:induction false} ScanAgreesWithStandard(data: bytes, pos: nat, below: nat)
    requires Scan(data, pos).Some?
    ensures NameAt(data, pos, below) == Some(Scan(data, pos).value.0) <==> Standard(Scan(data, pos).value.0)
    decreases |data| - pos
  {
    var labels := Scan(data, pos).value.0;
    var n := data[pos];
    if NameAt(data, pos, below).Some? {
      NamesAreStandard(data, pos, below);
    }
    if 0 < n < 64 {
      ScanAgreesWithStandard(data, pos + 1 + n, below);
      var rest := Scan(data, pos + 1 + n).value.0;
      assert Standard(labels) ==> Standard(rest) by {
        assert forall i | 0 <= i < |rest| :: rest[i] == labels[i + 1];
      }
    } else if n >= 64 {
      assert |labels[0]| == n;
    }
  }

  /** The answer's pointer names the host that was asked for, exactly if its labels are standard. */
  lemma AnswerNamesQuestion(query: bytes, ip: ip4)
    requires DnsResponse(query, ip).Some?
    ensures
      var r, end := DnsResponse(query, ip).value, Question(query).value.1;
      var labels := Scan(query, DNS_HEADER_LEN).value.0;
      NameAt(r, end, end) == Some(labels) <==> Standard(labels)
  {
    var r := DnsResponse(query, ip).value;
    ResponseLayout(query, ip);
    ResponseKeepsQuestion(query, ip);
    ScanAgreesWithStandard(r, DNS_HEADER_LEN, DNS_HEADER_LEN);
  }

  // ----- The interceptor -----

  function Ascii(s: string): bytes {
    seq(|s|, i requires 0 <= i < |s| => (s[i] as int) % 256)
  }

  predicate StartsWith(s: bytes, prefix: bytes) {
    prefix <= s
  }

  predicate EndsWith(s: bytes, suffix: bytes) {
    |suffix| <= |s| && s[|s| - |suffix|..] == suffix
  }

  predicate Contains(s: bytes, part: bytes) {
    exists i | 0 <= i <= |s| :: part <= s[i..]
  }

  predicate IsSeestarName(name: bytes) {
    var n := Lower(name);
    && !EndsWith(n, Ascii(".seestar.com")) && n != Ascii("seestar.com")
    && (|| n == Ascii("seestar.local")
        || StartsWith(n, Ascii("s30_")) || StartsWith(n, Ascii("s50_"))
        || StartsWith(n, Ascii("s30-")) || StartsWith(n, Ascii("s50-"))
        || (Contains(n, Ascii("seestar")) && EndsWith(n, Ascii(".local"))))
  }

  /** The DNS query inside a tunnel packet. */
  function DnsPayload(p: bytes): Option<bytes> {
    if |p| < 28 || p[9] != 17 || |p| < Ihl(p) + 8 then None
    else
      var udp := p[Ihl(p)..];
      var length := Be16(udp[4], udp[5]);
      if Be16(udp[2], udp[3]) != 53 || |udp| < length || length < 8 then None
      else Some(udp[8..length])
  }

  function HandleDnsQuery(p: bytes, upstream: ip4): Option<bytes> {
    match DnsPayload(p)
    case None => None
    case Some(query) =>
      match Question(query)
      case None => None
      case Some(q) =>
        if !IsSeestarName(q.0) then None
        else Some(Response(p[16..20], p[12..16], Be16(p[Ihl(p)], p[Ihl(p) + 1]), DnsResponse(query, upstream).value))
  }

  /**
   An intercepted query is answered from the server address it was sent to, to
   the port it came from, with the question kept and the telescope's address. The
   answer leaves from port 4720, not 53.
   */
  lemma DnsAnswersClient(p: bytes, upstream: ip4) returns (r: bytes, query: bytes, answer: bytes)
    requires HandleDnsQuery(p, upstream).Some?
    ensures HandleDnsQuery(p, upstream) == Some(r) && DnsPayload(p) == Some(query)
    ensures DnsResponse(query, upstream) == Some(answer) && r[28..] == answer
    ensures r[12..16] == p[16..20] && r[16..20] == p[12..16]
    ensures Be16(r[20], r[21]) == DISCOVERY_PORT && Be16(r[22], r[23]) == Be16(p[Ihl(p)], p[Ihl(p) + 1])
    ensures Question(answer) == Question(query) && answer[|answer| - 4..] == upstream
    ensures HeaderSound(r)
    ensures |r| == 28 + |answer|
    ensures (IpLengthRight(r) <==> |answer| <= 65507) && (UdpLengthRight(r) <==> |answer| <= 65527)
  {
    query := DnsPayload(p).value;
    answer := DnsResponse(query, upstream).value;
    var port := Be16(p[Ihl(p)], p[Ihl(p) + 1]);
    r := Response(p[16..20], p[12..16], port, answer);
    ResponseFits(p[16..20], p[12..16], port, answer);
    LengthFieldsConsistent(p[16..20], p[12..16], port, answer);
    ResponseHeaderSound(p[16..20], p[12..16], port, answer);
    ResponseLayout(query, upstream);
    ResponseKeepsQuestion(query, upstream);
  }
}
