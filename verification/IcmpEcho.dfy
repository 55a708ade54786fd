/** ICMP echo replies of the tunnel (RFC 791 section 3.1, Echo message of RFC 792). */
module IcmpEcho {
  import opened Prelude
  import opened Checksum
  import opened TunnelPackets

  /** An echo request for the given address. */
  predicate IsEchoRequest(p: bytes, upstream: ip4) {
    |p| >= 28 && p[9] == 1 && p[16..20] == upstream && |p| >= Ihl(p) + 8 && p[Ihl(p)] == 8
  }

  function SetWord(s: bytes, off: nat, hi: byte, lo: byte): bytes
    requires off + 1 < |s|
  {
    s[off := hi][off + 1 := lo]
  }

  /** The request with its addresses exchanged. */
  function Exchanged(p: bytes): bytes
    requires |p| >= 28
  {
    p[..12] + p[16..20] + p[12..16] + p[20..]
  }

  /** Its header checksum cleared as well. */
  function Returned(p: bytes): bytes
    requires |p| >= 28
  {
    SetWord(Exchanged(p), 10, 0, 0)
  }

  /** The header checksum written in. */
  function Addressed(p: bytes): bytes
    requires |p| >= 28 && |p| >= Ihl(p) + 8
  {
    var c := ChecksumOf(Cleared(Returned(p)[..Ihl(p)]));
    SetWord(Returned(p), 10, Hi(c), Lo(c))
  }

  /** Type changed to reply and ICMP checksum cleared. */
  function Typed(p: bytes): bytes
    requires |p| >= 28 && |p| >= Ihl(p) + 8
  {
    SetWord(Addressed(p)[Ihl(p) := 0], Ihl(p) + 2, 0, 0)
  }

  function EchoReply(p: bytes): bytes
    requires |p| >= 28 && |p| >= Ihl(p) + 8
  {
    var c := ChecksumOf(Typed(p)[Ihl(p)..]);
    SetWord(Typed(p), Ihl(p) + 2, Hi(c), Lo(c))
  }

  /** Rewrites a copy of the request in place. */
  method HandleIcmpEcho(p: bytes, upstream: ip4) returns (reply: Option<bytes>)
    ensures reply == if IsEchoRequest(p, upstream) then Some(EchoReply(p)) else None
  {
    if |p| < 28 || p[9] != 1 || p[16..20] != upstream {
      return None;
    }
    var ihl := Ihl(p);
    if |p| < ihl + 8 || p[ihl] != 8 {
      return None;
    }
    var a := new byte[|p|](i requires 0 <= i < |p| => p[i]);
    assert a[..] == p;
    ReturnHeader(a, ihl);
    ReplyInPlace(a, ihl, p);
    reply := Some(a[..]);
  }

  /** Exchanges the addresses and recomputes the header checksum. */
  method ReturnHeader(a: array<byte>, ihl: nat)
    requires a.Length >= 28 && a.Length >= ihl + 8 && ihl == Ihl(a[..])
    modifies a
    ensures a[..] == Addressed(old(a[..]))
  {
    ghost var p := a[..];
    var src, dst := a[12..16], a[16..20];
    WriteAt(a, 12, dst);
    WriteAt(a, 16, src);
    WriteWord(a, 10, 0, 0);
    assert a[..] == Returned(p);
    assert a[..ihl] == a[..][..ihl];
    var c := IpChecksum(a[..ihl]);
    WriteWord(a, 10, Hi(c), Lo(c));
  }

  /** Turns the message behind the header into a reply. */
  method ReplyInPlace(a: array<byte>, ihl: nat, ghost p: bytes)
    requires |p| >= 28 && |p| >= ihl + 8 && ihl == Ihl(p) && a[..] == Addressed(p)
    modifies a
    ensures a[..] == EchoReply(p)
  {
    a[ihl] := 0;
    WriteWord(a, ihl + 2, 0, 0);
    assert a[..] == Typed(p);
    assert a[ihl..] == a[..][ihl..];
    var c := InternetChecksum(a[ihl..]);
    WriteWord(a, ihl + 2, Hi(c), Lo(c));
  }

  method WriteWord(a: array<byte>, off: nat, hi: byte, lo: byte)
    requires off + 1 < a.Length
    modifies a
    ensures a[..] == SetWord(old(a[..]), off, hi, lo)
  {
    a[off], a[off + 1] := hi, lo;
  }

  /** Writing the checksum of a cleared word makes the words sound. */
  lemma FillWord(s: bytes, off: nat)
    requires off % 2 == 0 && off + 1 < |s| <= 131_074 && s[off] == s[off + 1] == 0
    ensures Sound(SetWord(s, off, Hi(ChecksumOf(s)), Lo(ChecksumOf(s))))
  {
    ChecksumMakesSound(s, off);
  }

  lemma ReturnedAt(p: bytes, i: nat)
    requires |p| >= 28 && i < |p|
    ensures Returned(p)[i] ==
            if i == 10 || i == 11 then 0
            else if 12 <= i < 16 then p[i + 4]
            else if 16 <= i < 20 then p[i - 4]
            else p[i]
  {}

  /** The ICMP checksum the reply carries. */
  function MessageChecksum(p: bytes): (c: u16)
    requires |p| >= 28 && |p| >= Ihl(p) + 8
  {
    ChecksumOf(Typed(p)[Ihl(p)..])
  }

  /** The message is written last, over whatever stands there. */
  lemma ReplyAt(p: bytes, i: nat)
    requires |p| >= 28 && |p| >= Ihl(p) + 8 && i < |p|
    ensures EchoReply(p)[i] ==
            var n := Ihl(p);
            if i == n then 0
            else if i == n + 2 then Hi(MessageChecksum(p))
            else if i == n + 3 then Lo(MessageChecksum(p))
            else if i == 10 || i == 11 then Addressed(p)[i]
            else Returned(p)[i]
  {}

  /** The header of the reply: the returned header with its checksum filled in. */
  lemma ReplyHeader(p: bytes)
    requires |p| >= 28 && |p| >= Ihl(p) + 8 && Ihl(p) >= 12
    ensures var h := Returned(p)[..Ihl(p)];
            h[10] == h[11] == 0 && Cleared(h) == h
            && EchoReply(p)[..Ihl(p)] == SetWord(h, 10, Hi(ChecksumOf(h)), Lo(ChecksumOf(h)))
  {
    var n := Ihl(p);
    var h := Returned(p)[..n];
    assert Cleared(h) == h;
    assert EchoReply(p)[..n] == Addressed(p)[..n];
    assert Addressed(p)[..n] == SetWord(h, 10, Hi(ChecksumOf(h)), Lo(ChecksumOf(h)));
  }

  lemma ReplyMessage(p: bytes)
    requires |p| >= 28 && |p| >= Ihl(p) + 8
    ensures var m := Typed(p)[Ihl(p)..];
            m[2] == m[3] == 0
            && EchoReply(p)[Ihl(p)..] == SetWord(m, 2, Hi(ChecksumOf(m)), Lo(ChecksumOf(m)))
  {
  }

  /** Bytes the reply may not touch: all but header checksum, addresses, type and ICMP checksum. */
  predicate Untouched(i: nat, n: nat) {
    !(10 <= i < 20) && i != n && i != n + 2 && i != n + 3
  }

  /** Both checksums sound, addresses exchanged, type reply, every other byte the request's. */
  predicate Correct(p: bytes, upstream: ip4, r: bytes)
    requires IsEchoRequest(p, upstream)
  {
    var n := Ihl(p);
    && |r| == |p|
    && Sound(r[..n]) && Sound(r[n..])
    && r[12..16] == upstream && r[16..20] == p[12..16]
    && r[n] == 0
    && (forall i | 0 <= i < |p| && Untouched(i, n) :: r[i] == p[i])
  }

  /**
   What a request must meet for its reply to be correct. A header of five words
   or more is enough. Below that the header ends before its own checksum, or the
   message overlaps an address, and with the addresses exchanged it must already
   be a reply that carries its own checksum.
   */
  predicate HeaderAllows(p: bytes)
    requires |p| >= 28 && |p| >= Ihl(p) + 8
  {
    var n := Ihl(p);
    if n >= 20 then true
    else if n < 12 then Sound(p[..n])
    else Exchanged(p)[n] == 0 && CarriesChecksum(Exchanged(p)[n..])
  }

  /** The second word is the checksum of the message with that word cleared. */
  predicate CarriesChecksum(m: bytes)
    requires |m| >= 4
  {
    Be16(m[2], m[3]) == ChecksumOf(SetWord(m, 2, 0, 0))
  }

  /** The overlapped address bytes are those the message will be given. */
  predicate Coincides(p: bytes)
    requires |p| >= 28 && |p| >= Ihl(p) + 8
  {
    var n, c := Ihl(p), MessageChecksum(p);
    Returned(p)[n] == 0 && Returned(p)[n + 2] == Hi(c) && Returned(p)[n + 3] == Lo(c)
  }

  lemma WordIs(hi: byte, lo: byte, c: u16)
    ensures Be16(hi, lo) == c <==> hi == Hi(c) && lo == Lo(c)
  {}

  lemma OverlappedMessage(p: bytes)
    requires |p| >= 28 && |p| >= Ihl(p) + 8 && Ihl(p) >= 12 && Exchanged(p)[Ihl(p)] == 0
    ensures Typed(p)[Ihl(p)..] == SetWord(Exchanged(p)[Ihl(p)..], 2, 0, 0)
  {
    var n := Ihl(p);
    assert Typed(p)[n..] == SetWord(Addressed(p)[n..], 2, 0, 0);
    assert Addressed(p)[n..] == Exchanged(p)[n..];
  }

  lemma CoincidesExactly(p: bytes)
    requires |p| >= 28 && |p| >= Ihl(p) + 8 && Ihl(p) >= 12
    ensures Coincides(p) <==> Exchanged(p)[Ihl(p)] == 0 && CarriesChecksum(Exchanged(p)[Ihl(p)..])
  {
    var n := Ihl(p);
    assert Returned(p)[n..] == Exchanged(p)[n..];
    assert forall i | n <= i < n + 4 :: Returned(p)[i] == Returned(p)[n..][i - n] == Exchanged(p)[i];
    if Exchanged(p)[n] == 0 {
      OverlappedMessage(p);
      WordIs(Exchanged(p)[n + 2], Exchanged(p)[n + 3], MessageChecksum(p));
    }
  }

  lemma OtherBytesStay(p: bytes, upstream: ip4)
    requires IsEchoRequest(p, upstream)
    ensures |EchoReply(p)| == |p| && EchoReply(p)[Ihl(p)] == 0
    ensures forall i | 0 <= i < |p| && Untouched(i, Ihl(p)) :: EchoReply(p)[i] == p[i]
  {
    ReplyAt(p, Ihl(p));
    forall i | 0 <= i < |p| && Untouched(i, Ihl(p)) ensures EchoReply(p)[i] == p[i] {
      ReplyAt(p, i);
      ReturnedAt(p, i);
    }
  }

  lemma HeaderSoundExactly(p: bytes, upstream: ip4)
    requires IsEchoRequest(p, upstream)
    ensures Sound(EchoReply(p)[..Ihl(p)]) <==> Ihl(p) >= 12 || Sound(p[..Ihl(p)])
  {
    var n := Ihl(p);
    if n >= 12 {
      ReplyHeader(p);
      FillWord(Returned(p)[..n], 10);
    } else {
      forall i | 0 <= i < n ensures EchoReply(p)[..n][i] == p[..n][i] {
        ReplyAt(p, i);
        ReturnedAt(p, i);
      }
      assert EchoReply(p)[..n] == p[..n];
    }
  }

  lemma AddressByte(p: bytes, i: nat)
    requires |p| >= 28 && |p| >= Ihl(p) + 8 && 12 <= i < 20
    ensures var n, c := Ihl(p), MessageChecksum(p);
            EchoReply(p)[i] == Returned(p)[i] <==>
              (i == n ==> Returned(p)[i] == 0)
              && (i == n + 2 ==> Returned(p)[i] == Hi(c))
              && (i == n + 3 ==> Returned(p)[i] == Lo(c))
  {
    ReplyAt(p, i);
  }

  lemma AddressesExactly(p: bytes, upstream: ip4)
    requires IsEchoRequest(p, upstream)
    ensures EchoReply(p)[12..16] == upstream && EchoReply(p)[16..20] == p[12..16]
            <==> EchoReply(p)[12..20] == Returned(p)[12..20]
  {
    var r, t := EchoReply(p), Returned(p);
    assert t[12..16] == p[16..20] && t[16..20] == p[12..16];
    assert r[12..20] == r[12..16] + r[16..20] && t[12..20] == t[12..16] + t[16..20];
  }

  lemma SameAddresses(r: bytes, t: bytes)
    requires |r| >= 20 && |t| >= 20
    ensures r[12..20] == t[12..20] <==> forall i | 12 <= i < 20 :: r[i] == t[i]
  {
    assert forall i | 12 <= i < 20 :: r[i] == r[12..20][i - 12] && t[i] == t[12..20][i - 12];
  }

  lemma OverlapExactly(p: bytes, upstream: ip4)
    requires IsEchoRequest(p, upstream)
    ensures EchoReply(p)[12..20] == Returned(p)[12..20] <==> (12 <= Ihl(p) < 20 ==> Coincides(p))
  {
    var n, r, t := Ihl(p), EchoReply(p), Returned(p);
    SameAddresses(r, t);
    forall i | 12 <= i < 20
      ensures r[i] == t[i] <==> ((i == n ==> t[i] == 0) && (i == n + 2 ==> t[i] == Hi(MessageChecksum(p)))
                                 && (i == n + 3 ==> t[i] == Lo(MessageChecksum(p))))
    {
      AddressByte(p, i);
    }
    if 12 <= n < 20 {
      assert n == 12 || n == 16;
    }
  }

  /**
   The reply to an accepted request is correct exactly if its header allows it;
   a header of at least five words, with or without options, always does.
   */
  lemma EchoReplyIsCorrect(p: bytes, upstream: ip4)
    requires IsEchoRequest(p, upstream) && |p| <= Ihl(p) + 131_074
    ensures Correct(p, upstream, EchoReply(p)) <==> HeaderAllows(p)
    ensures Ihl(p) >= 20 ==> HeaderAllows(p)
  {
    OtherBytesStay(p, upstream);
    HeaderSoundExactly(p, upstream);
    ReplyMessage(p);
    FillWord(Typed(p)[Ihl(p)..], 2);
    AddressesExactly(p, upstream);
    OverlapExactly(p, upstream);
    if Ihl(p) >= 12 {
      CoincidesExactly(p);
    }
  }

  /** Exchanging the addresses leaves the sum of the header words alone. */
  lemma ReturnedSum(p: bytes, n: nat)
    requires |p| >= 28 && 20 <= n <= |p|
    ensures WordSum(Returned(p)[..n]) + Be16(p[10], p[11]) == WordSum(p[..n])
  {
    var k0: bytes := p[..n];
    var k1 := SetWord(k0, 12, p[16], p[17]);
    var k2 := SetWord(k1, 14, p[18], p[19]);
    var k3 := SetWord(k2, 16, p[12], p[13]);
    var k4 := SetWord(k3, 18, p[14], p[15]);
    var k5 := SetWord(k4, 10, 0, 0);
    SumOfUpdate(k0, 12, p[16], p[17]);
    SumOfUpdate(k1, 14, p[18], p[19]);
    SumOfUpdate(k2, 16, p[12], p[13]);
    SumOfUpdate(k3, 18, p[14], p[15]);
    SumOfUpdate(k4, 10, 0, 0);
    forall i | 0 <= i < n ensures k5[i] == Returned(p)[..n][i] {
      ReturnedAt(p, i);
    }
    assert k5 == Returned(p)[..n];
  }

  /**
   If the request's header checksum was sound, the recomputed one is the same, up
   to the two representations of zero.
   */
  lemma HeaderChecksumSurvives(p: bytes, upstream: ip4)
    requires IsEchoRequest(p, upstream) && Ihl(p) >= 20 && Sound(p[..Ihl(p)])
    ensures
      var was, now := Be16(p[10], p[11]), Be16(EchoReply(p)[10], EchoReply(p)[11]);
      was == now || (was == 0 && now == 65535) || (was == 65535 && now == 0)
  {
    var n := Ihl(p);
    var h := Returned(p)[..n];
    var c := ChecksumOf(h);
    ReplyHeader(p);
    ReturnedSum(p, n);
    ChecksumIsExact(h);
    CompletedFold(WordSum(h));
    assert EchoReply(p)[..n][10] == Hi(c) && EchoReply(p)[..n][11] == Lo(c);
    SoundChecksumsAgree(WordSum(h), Be16(p[10], p[11]), c);
  }

  /** A header of three or four words over an address that does not begin with zero breaks the reply. */
  lemma ShortHeaderBreaksReply(p: bytes, upstream: ip4)
    requires IsEchoRequest(p, upstream) && |p| <= Ihl(p) + 131_074
    requires (Ihl(p) == 12 && upstream[0] != 0) || (Ihl(p) == 16 && p[12] != 0)
    ensures !Correct(p, upstream, EchoReply(p))
  {
    EchoReplyIsCorrect(p, upstream);
    ReturnedAt(p, Ihl(p));
    assert p[16] == p[16..20][0];
  }
}
