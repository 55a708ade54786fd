/** Binary frames: the header, the frames of a byte stream, and the reader over any chunking. */
module Frames {
  import opened Prelude
  import opened LineFraming

  const HEADER_SIZE := 80
  const MAX_FRAME_SIZE := 50_000_000

  datatype FrameHeader = FrameHeader(size: nat, code: byte, id: byte, width: nat, height: nat)

  function ParseHeader(buf: bytes): FrameHeader
    requires |buf| >= HEADER_SIZE
  {
    FrameHeader(65536 * Be16(buf[6], buf[7]) + Be16(buf[8], buf[9]), buf[14], buf[15],
                Be16(buf[16], buf[17]), Be16(buf[18], buf[19]))
  }

  predicate IsImage(h: FrameHeader) {
    h.width > 0 && h.height > 0 && h.size > 1000
  }

  /** The length of the frame that `s` begins with. */
  function FrameLength(s: bytes): nat
    requires |s| >= HEADER_SIZE
  {
    HEADER_SIZE + ParseHeader(s).size
  }

  /** A whole frame of acceptable size stands at the front of `s`. */
  predicate Ready(s: bytes) {
    |s| >= HEADER_SIZE && ParseHeader(s).size <= MAX_FRAME_SIZE && |s| >= FrameLength(s)
  }

  predicate IsFrame(f: bytes) {
    Ready(f) && |f| == FrameLength(f)
  }

  /** The complete frames of a stream, up to the first unreasonable size. */
  function FramesOf(s: bytes): seq<bytes>
    decreases |s|
  {
    if Ready(s) then [s[..FrameLength(s)]] + FramesOf(s[FrameLength(s)..]) else []
  }

  /** Where the reader stands after the last complete frame. */
  function Leftover(s: bytes): bytes
    decreases |s|
  {
    if Ready(s) then Leftover(s[FrameLength(s)..]) else s
  }

  lemma ReadyPrefix(s: bytes, t: bytes)
    requires Ready(s)
    ensures Ready(s + t) && FrameLength(s + t) == FrameLength(s)
    ensures (s + t)[..FrameLength(s)] == s[..FrameLength(s)]
    ensures (s + t)[FrameLength(s)..] == s[FrameLength(s)..] + t
    ensures IsFrame(s[..FrameLength(s)])
  {
  }

  lemma SpellFrame(frame: bytes, frames: seq<bytes>, left: bytes, rest: bytes)
    requires Flatten(frames) + left == rest
    ensures Flatten([frame] + frames) + left == frame + rest
  {
    FlattenFirst(frame, frames);
    Associative(frame, Flatten(frames), left);
  }

  /** One frame cut off. */
  lemma CutFrame(s: bytes) returns (frame: bytes, rest: bytes)
    requires Ready(s)
    ensures s == frame + rest && |rest| < |s|
    ensures FramesOf(s) == [frame] + FramesOf(rest) && Leftover(s) == Leftover(rest)
  {
    frame, rest := s[..FrameLength(s)], s[FrameLength(s)..];
  }

  /** The frames, whole and gapless, and the leftover spell the stream. */
  lemma {:induction false} FramesAreExact(s: bytes)
    ensures Flatten(FramesOf(s)) + Leftover(s) == s
    decreases |s|
  {
    if Ready(s) {
      var frame, rest := CutFrame(s);
      FramesAreExact(rest);
      SpellFrame(frame, FramesOf(rest), Leftover(rest), rest);
    } else {
      NothingCut(s);
    }
  }

  lemma NothingCut(s: bytes)
    requires !Ready(s)
    ensures Flatten(FramesOf(s)) + Leftover(s) == s
  {
    assert FramesOf(s) == [] && Leftover(s) == s;
    assert [] + s == s;
  }

  /** What is cut off is a frame of acceptable size. */
  lemma {:induction false} FramesAreWhole(s: bytes, f: bytes)
    requires f in FramesOf(s)
    ensures IsFrame(f)
    decreases |s|
  {
    var n := FrameLength(s);
    ReadyPrefix(s, []);
    if f != s[..n] {
      FramesAreWhole(s[n..], f);
    }
  }

  /** The leftover does not hold a further frame. */
  lemma {:induction false} LeftoverIsNoFrame(s: bytes)
    ensures !Ready(Leftover(s))
    decreases |s|
  {
    if Ready(s) {
      LeftoverIsNoFrame(s[FrameLength(s)..]);
    }
  }

  lemma FlattenFirst(x: bytes, xs: seq<bytes>)
    ensures Flatten([x] + xs) == x + Flatten(xs)
  {
    assert ([x] + xs)[1..] == xs;
  }

  /** Whole frames in front of a stream come out first, whatever follows them. */
  lemma {:induction false} FramesInFront(frames: seq<bytes>, s: bytes)
    requires forall f | f in frames :: IsFrame(f)
    ensures FramesOf(Flatten(frames) + s) == frames + FramesOf(s)
    decreases |frames|
  {
    if frames == [] {
      assert Flatten(frames) + s == s && frames + FramesOf(s) == FramesOf(s);
    } else {
      var f, rest := frames[0], Flatten(frames[1..]) + s;
      assert f in frames;
      FramesInFront(frames[1..], s);
      Associative(f, Flatten(frames[1..]), s);
      FrameThenRest(f, rest);
      Associative([f], frames[1..], FramesOf(s));
      assert frames == [f] + frames[1..];
    }
  }

  lemma FrameThenRest(f: bytes, rest: bytes)
    requires IsFrame(f)
    ensures FramesOf(f + rest) == [f] + FramesOf(rest)
  {
    ReadyPrefix(f, rest);
    assert f[..|f|] == f && f[|f|..] + rest == rest;
  }

  /** Bytes that arrive later never change the frames already complete. */
  lemma FramesOnlyGrow(s: bytes, t: bytes)
    ensures FramesOf(s) <= FramesOf(s + t)
  {
    FramesAreExact(s);
    forall f | f in FramesOf(s) ensures IsFrame(f) {
      FramesAreWhole(s, f);
    }
    FramesInFront(FramesOf(s), Leftover(s) + t);
    Associative(Flatten(FramesOf(s)), Leftover(s), t);
  }

  /** Fills a buffer of `n` bytes, or fails at the end of the stream. */
  method ReadExact(r: BufferedReader, n: nat, ghost fill: nat) returns (ok: bool, data: bytes)
    requires r.Valid(fill)
    modifies r
    ensures r.Valid(fill) && ok == (|old(r.Unread())| >= n)
    ensures ok ==> data == old(r.Unread())[..n] && r.Unread() == old(r.Unread())[n..]
  {
    data := [];
    ghost var stream := r.Unread();
    while |data| < n
      invariant r.Valid(fill) && |data| <= n && data <= stream && r.Unread() == stream[|data|..]
      decreases n - |data|
    {
      r.FillBuf(fill);
      if r.available == [] {
        ok := false;
        return;
      }
      var part := r.available;
      var take := if |part| <= n - |data| then |part| else n - |data|;
      Extends(stream, data, part);
      data := data + part[..take];
      r.Consume(take, fill);
    }
    ok := true;
  }

  /** The imaging reader over any chunking broadcasts exactly the frames of the byte stream. */
  method ReadImaging(chunks: seq<bytes>, ghost fill: nat) returns (sent: seq<bytes>)
    requires forall i | 0 <= i < |chunks| :: 0 < |chunks[i]| <= fill
    ensures sent == FramesOf(Flatten(chunks))
  {
    var r := new BufferedReader(chunks, fill);
    sent := [];
    while true
      invariant r.Valid(fill) && sent + FramesOf(r.Unread()) == FramesOf(Flatten(chunks))
      decreases |r.Unread()|
    {
      ghost var s := r.Unread();
      var ok, header := ReadExact(r, HEADER_SIZE, fill);
      if !ok || ParseHeader(header).size > MAX_FRAME_SIZE {
        assert FramesOf(s) == [] && sent + [] == sent;
        return;
      }
      var size := ParseHeader(header).size;
      var whole, payload := ReadExact(r, size, fill);
      if !whole {
        assert FramesOf(s) == [] && sent + [] == sent;
        return;
      }
      FrameAtFront(s, size);
      Associative(sent, [header + payload], FramesOf(r.Unread()));
      sent := sent + [header + payload];
    }
  }

  lemma HeaderInFront(s: bytes)
    requires |s| >= HEADER_SIZE
    ensures ParseHeader(s[..HEADER_SIZE]) == ParseHeader(s)
  {}

  lemma CutTwice(s: bytes, m: nat, n: nat)
    requires m + n <= |s|
    ensures s[..m + n] == s[..m] + s[m..][..n] && s[m + n..] == s[m..][n..]
  {}

  lemma FrameAtFront(s: bytes, size: nat)
    requires |s| >= HEADER_SIZE + size && ParseHeader(s[..HEADER_SIZE]).size == size <= MAX_FRAME_SIZE
    ensures FramesOf(s) == [s[..HEADER_SIZE] + s[HEADER_SIZE..][..size]] + FramesOf(s[HEADER_SIZE..][size..])
  {
    HeaderInFront(s);
    CutTwice(s, HEADER_SIZE, size);
    assert Ready(s) && FrameLength(s) == HEADER_SIZE + size;
  }
}
