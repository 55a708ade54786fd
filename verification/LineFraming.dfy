/**
 Line framing over arbitrary chunking: the upstream reader's buffer and the
 limited line reader both refine a split of the whole byte stream.
 */
module LineFraming {
  import opened Prelude

  const NEWLINE: byte := 10
  const MAX_LINE_BYTES := 1_048_576
  const MAX_BUFFER := 1_000_000
  const READ_SIZE := 32 * 1024

  /** Position `p` is that of the first newline, or the length if there is none. */
  ghost predicate IsFirstNewline(s: bytes, p: nat) {
    p <= |s| && (p < |s| ==> s[p] == NEWLINE) && forall i | 0 <= i < p :: s[i] != NEWLINE
  }

  lemma {:induction false} NewlineExists(s: bytes)
    ensures exists p: nat :: IsFirstNewline(s, p)
  {
    if s == [] || s[0] == NEWLINE {
      assert IsFirstNewline(s, 0);
    } else {
      NewlineExists(s[1..]);
      var p: nat :| IsFirstNewline(s[1..], p);
      assert IsFirstNewline(s, p + 1);
    }
  }

  ghost function FirstNewline(s: bytes): (p: nat)
    ensures p <= |s| && (p < |s| ==> s[p] == NEWLINE)
  {
    NewlineExists(s);
    var p: nat :| IsFirstNewline(s, p);
    p
  }

  lemma NoneBefore(s: bytes)
    ensures forall i | 0 <= i < FirstNewline(s) :: s[i] != NEWLINE
  {
    NewlineExists(s);
  }

  lemma FirstNewlineIs(s: bytes, p: nat)
    requires IsFirstNewline(s, p)
    ensures FirstNewline(s) == p
  {
    NoneBefore(s);
    var q := FirstNewline(s);
    assert !(q < p) && !(p < q);
  }

  /** The search for a newline. */
  method Position(s: bytes) returns (p: nat)
    ensures p == FirstNewline(s)
  {
    p := 0;
    while p < |s| && s[p] != NEWLINE
      invariant p <= |s| && forall i | 0 <= i < p :: s[i] != NEWLINE
    {
      p := p + 1;
    }
    FirstNewlineIs(s, p);
  }

  // ----- The upstream side: complete lines and a partial rest -----

  /** The complete lines of a stream, without their newlines. */
  ghost function Lines(s: bytes): seq<bytes>
    decreases |s|
  {
    var p := FirstNewline(s);
    if p == |s| then [] else [s[..p]] + Lines(s[p + 1..])
  }

  /** What follows the last newline. */
  ghost function Rest(s: bytes): bytes
    decreases |s|
  {
    var p := FirstNewline(s);
    if p == |s| then s else Rest(s[p + 1..])
  }

  /** The stream that these lines and this rest spell. */
  function Spell(lines: seq<bytes>, rest: bytes): bytes {
    if lines == [] then rest else lines[0] + ([NEWLINE] + Spell(lines[1..], rest))
  }

  lemma SpellFirst(line: bytes, lines: seq<bytes>, rest: bytes)
    ensures Spell([line] + lines, rest) == line + ([NEWLINE] + Spell(lines, rest))
  {
    assert ([line] + lines)[1..] == lines;
  }

  lemma CutAtNewline(s: bytes, p: nat)
    requires p < |s| && s[p] == NEWLINE
    ensures s[..p] + ([NEWLINE] + s[p + 1..]) == s
  {}

  /** Nothing is lost or invented: the lines and the rest spell the stream. */
  lemma {:induction false} SplitIsExact(s: bytes)
    ensures Spell(Lines(s), Rest(s)) == s
    decreases |s|
  {
    var p := FirstNewline(s);
    if p < |s| {
      SplitIsExact(s[p + 1..]);
      SpellFirst(s[..p], Lines(s[p + 1..]), Rest(s[p + 1..]));
      CutAtNewline(s, p);
    }
  }

  lemma {:induction false} RestHasNoNewline(s: bytes)
    ensures NEWLINE !in Rest(s)
    decreases |s|
  {
    var p := FirstNewline(s);
    if p < |s| {
      RestHasNoNewline(s[p + 1..]);
    } else {
      NoneBefore(s);
    }
  }

  /** Lines hold no newline and are shorter than the stream they came from. */
  lemma {:induction false} LinesFit(s: bytes)
    ensures forall line | line in Lines(s) :: NEWLINE !in line && |line| < |s|
    decreases |s|
  {
    var p := FirstNewline(s);
    if p < |s| {
      NoneBefore(s);
      LinesFit(s[p + 1..]);
    }
  }

  lemma SplitAt(s: bytes, p: nat)
    requires IsFirstNewline(s, p) && p < |s|
    ensures Lines(s) == [s[..p]] + Lines(s[p + 1..]) && Rest(s) == Rest(s[p + 1..])
  {
    FirstNewlineIs(s, p);
  }

  lemma SplitOver(a: bytes, b: bytes, p: nat)
    requires IsFirstNewline(a, p) && p < |a|
    ensures Lines(a + b) == [a[..p]] + Lines(a[p + 1..] + b) && Rest(a + b) == Rest(a[p + 1..] + b)
  {
    assert (a + b)[..p] == a[..p] && (a + b)[p + 1..] == a[p + 1..] + b;
    SplitAt(a + b, p);
  }

  /** A newline split at any point of the stream continues from the rest alone. */
  lemma {:induction false} SplitContinues(a: bytes, b: bytes)
    ensures Lines(a + b) == Lines(a) + Lines(Rest(a) + b)
    ensures Rest(a + b) == Rest(Rest(a) + b)
    decreases |a|
  {
    var p := FirstNewline(a);
    if p == |a| {
      assert Lines(a) == [] && Rest(a) == a;
      assert [] + Lines(a + b) == Lines(a + b);
    } else {
      var rest := a[p + 1..];
      NoneBefore(a);
      SplitAt(a, p);
      SplitOver(a, b, p);
      SplitContinues(rest, b);
      Associative([a[..p]], Lines(rest), Lines(Rest(rest) + b));
    }
  }

  /** The rest of a prefix begins a line of the stream, or its rest. */
  lemma RestGrowsIntoLine(a: bytes, b: bytes)
    ensures Rest(a) <= Rest(a + b) || exists line :: line in Lines(a + b) && Rest(a) <= line
  {
    SplitContinues(a, b);
    RestHasNoNewline(a);
    var s := Rest(a) + b;
    var p := FirstNewline(s);
    if p < |s| {
      LateNewline(s, |Rest(a)|);
      assert Lines(s)[0] == s[..p] && Rest(a) <= s[..p];
      assert s[..p] in Lines(a + b);
    }
  }

  lemma TakeFirst(lines: seq<bytes>, buf: bytes)
    requires FirstNewline(buf) < |buf|
    ensures var p := FirstNewline(buf);
            && (lines + [buf[..p]]) + Lines(buf[p + 1..]) == lines + Lines(buf)
            && Rest(buf[p + 1..]) == Rest(buf)
  {
    Associative(lines, [buf[..FirstNewline(buf)]], Lines(buf[FirstNewline(buf) + 1..]));
  }

  /** The reader's buffer. */
  class LineBuffer {
    var buf: bytes

    constructor ()
      ensures buf == []
    {
      buf := [];
    }

    /** Appends one read and takes out every complete line. */
    method Feed(chunk: bytes) returns (lines: seq<bytes>)
      modifies this
      ensures lines == Lines(old(buf) + chunk) && buf == Rest(old(buf) + chunk)
    {
      buf := buf + chunk;
      lines := [];
      var pos := Position(buf);
      while pos < |buf|
        invariant pos == FirstNewline(buf)
        invariant lines + Lines(buf) == Lines(old(buf) + chunk)
        invariant Rest(buf) == Rest(old(buf) + chunk)
        decreases |buf|
      {
        TakeFirst(lines, buf);
        lines := lines + [buf[..pos]];
        buf := buf[pos + 1..];
        pos := Position(buf);
      }
    }
  }

  /** The partial line left after the first `n` reads. */
  ghost function PartialAfter(chunks: seq<bytes>, n: nat): bytes
    requires n <= |chunks|
  {
    Rest(Flatten(chunks[..n]))
  }

  lemma OneMoreRead(chunks: seq<bytes>, n: nat)
    requires n < |chunks|
    ensures Lines(Flatten(chunks[..n + 1])) == Lines(Flatten(chunks[..n])) + Lines(PartialAfter(chunks, n) + chunks[n])
    ensures PartialAfter(chunks, n + 1) == Rest(PartialAfter(chunks, n) + chunks[n])
  {
    assert chunks[..n + 1] == chunks[..n] + [chunks[n]];
    FlattenAppend(chunks[..n], chunks[n]);
    SplitContinues(Flatten(chunks[..n]), chunks[n]);
  }

  /** Reads never leave a partial line over the maximum before read `n`. */
  ghost predicate WithinMaximum(chunks: seq<bytes>, n: nat)
    requires n <= |chunks|
  {
    forall j | 0 <= j < n :: |PartialAfter(chunks, j)| <= MAX_BUFFER
  }

  /**
   The read loop of one connection over any chunking: the lines are those of the
   bytes read, it stops early exactly when a partial line exceeds the maximum,
   and the buffer never holds more than the maximum and one read.
   */
  method ReadConnection(chunks: seq<bytes>) returns (lines: seq<bytes>, n: nat, overflow: bool, peak: nat)
    requires forall i | 0 <= i < |chunks| :: 0 < |chunks[i]| <= READ_SIZE
    ensures n <= |chunks| && lines == Lines(Flatten(chunks[..n])) && WithinMaximum(chunks, n)
    ensures overflow <==> |PartialAfter(chunks, n)| > MAX_BUFFER
    ensures !overflow ==> n == |chunks|
    ensures peak <= MAX_BUFFER + READ_SIZE
  {
    var b := new LineBuffer();
    lines, n, overflow, peak := [], 0, false, 0;
    while n < |chunks| && !overflow
      invariant n <= |chunks| && lines == Lines(Flatten(chunks[..n])) && b.buf == PartialAfter(chunks, n)
      invariant WithinMaximum(chunks, n)
      invariant overflow <==> |b.buf| > MAX_BUFFER
      invariant peak <= MAX_BUFFER + READ_SIZE
    {
      var size := |b.buf| + |chunks[n]|;
      peak := if size > peak then size else peak;
      OneMoreRead(chunks, n);
      var more := b.Feed(chunks[n]);
      lines := lines + more;
      n := n + 1;
      overflow := |b.buf| > MAX_BUFFER;
    }
  }

  /** No accepted line is longer than the maximum and one read. */
  lemma {:induction false} LinesBounded(chunks: seq<bytes>, n: nat, line: bytes)
    requires forall i | 0 <= i < |chunks| :: 0 < |chunks[i]| <= READ_SIZE
    requires n <= |chunks| && WithinMaximum(chunks, n) && line in Lines(Flatten(chunks[..n]))
    ensures |line| < MAX_BUFFER + READ_SIZE
  {
    if n > 0 {
      OneMoreRead(chunks, n - 1);
      LinesFit(PartialAfter(chunks, n - 1) + chunks[n - 1]);
      if line in Lines(Flatten(chunks[..n - 1])) {
        LinesBounded(chunks, n - 1, line);
      }
    }
  }

  lemma {:induction false} FlattenSplit(xss: seq<bytes>, j: nat)
    requires j <= |xss|
    ensures Flatten(xss) == Flatten(xss[..j]) + Flatten(xss[j..])
  {
    if j > 0 {
      FlattenSplit(xss[1..], j - 1);
      assert xss[1..][..j - 1] == xss[..j][1..] && xss[1..][j - 1..] == xss[j..];
    } else {
      assert xss[..0] == [] && xss[0..] == xss;
    }
  }

  /**
   A stream whose lines and rest all fit the maximum never overflows, whatever
   the chunking; by `ReadConnection` it is then read to its end.
   */
  lemma ShortLinesNeverOverflow(chunks: seq<bytes>, n: nat)
    requires n <= |chunks|
    requires forall line | line in Lines(Flatten(chunks)) :: |line| <= MAX_BUFFER
    requires |Rest(Flatten(chunks))| <= MAX_BUFFER
    ensures |PartialAfter(chunks, n)| <= MAX_BUFFER
  {
    FlattenSplit(chunks, n);
    RestGrowsIntoLine(Flatten(chunks[..n]), Flatten(chunks[n..]));
  }

  // ----- The client side: segments that keep their newline -----

  /** The stream up to and including its first newline, or all of it. */
  ghost function Segment(s: bytes): (seg: bytes)
    ensures seg <= s && (s != [] ==> seg != [])
  {
    var p := FirstNewline(s);
    if p < |s| then s[..p + 1] else s
  }

  ghost function Segments(s: bytes): seq<bytes>
    decreases |s|
  {
    if s == [] then [] else [Segment(s)] + Segments(s[|Segment(s)|..])
  }

  /** The segments before the first one over the limit. */
  ghost function Accepted(s: bytes, limit: nat): seq<bytes>
    decreases |s|
  {
    if s == [] || |Segment(s)| > limit then [] else [Segment(s)] + Accepted(s[|Segment(s)|..], limit)
  }

  lemma {:induction false} SegmentsSpell(s: bytes)
    ensures Flatten(Segments(s)) == s
    decreases |s|
  {
    if s != [] {
      var seg := Segment(s);
      SegmentsSpell(s[|seg|..]);
      assert ([seg] + Segments(s[|seg|..]))[1..] == Segments(s[|seg|..]);
    }
  }

  /** `Accepted` is the longest run of segments within the limit. */
  lemma {:induction false} AcceptedIsLongest(s: bytes, limit: nat)
    ensures Accepted(s, limit) <= Segments(s)
    ensures forall seg | seg in Accepted(s, limit) :: |seg| <= limit
    ensures var n := |Accepted(s, limit)|; n < |Segments(s)| ==> |Segments(s)[n]| > limit
    decreases |s|
  {
    if s != [] {
      AcceptedIsLongest(s[|Segment(s)|..], limit);
    }
  }

  /** A buffered reader: the unconsumed buffer and the fills still to come. */
  class BufferedReader {
    var available: bytes
    var source: seq<bytes>

    ghost predicate Valid(fill: nat)
      reads this
    {
      && |available| <= fill
      && forall i | 0 <= i < |source| :: 0 < |source[i]| <= fill
    }

    ghost function Unread(): bytes
      reads this
    {
      available + Flatten(source)
    }

    constructor (chunks: seq<bytes>, ghost fill: nat)
      requires forall i | 0 <= i < |chunks| :: 0 < |chunks[i]| <= fill
      ensures Valid(fill) && Unread() == Flatten(chunks)
    {
      available, source := [], chunks;
    }

    /** Refills an empty buffer; it stays empty only at the end of the stream. */
    method FillBuf(ghost fill: nat)
      requires Valid(fill)
      modifies this
      ensures Valid(fill) && Unread() == old(Unread()) && available <= Unread()
      ensures available == [] ==> Unread() == []
    {
      if available == [] && source != [] {
        available, source := source[0], source[1..];
      }
    }

    method Consume(n: nat, ghost fill: nat)
      requires Valid(fill) && n <= |available|
      modifies this
      ensures Valid(fill) && Unread() == old(Unread())[n..]
    {
      available := available[n..];
    }
  }

  /** The line is all of `stream` up to its newline, or is known to be over the limit. */
  ghost predicate ReadsLine(stream: bytes, line: bytes, limit: nat) {
    if |Segment(stream)| <= limit then line == Segment(stream)
    else line <= Segment(stream) && |line| > limit
  }

  /** What the next piece says about the segment that the first `n` bytes began. */
  lemma SegmentWithin(stream: bytes, n: nat, part: bytes)
    requires n <= |stream| && part <= stream[n..]
    requires forall i | 0 <= i < n :: stream[i] != NEWLINE
    ensures var p := FirstNewline(part);
            if p < |part| then Segment(stream) == stream[..n + p + 1]
            else (forall i | 0 <= i < n + p :: stream[i] != NEWLINE) && stream[..n + p] <= Segment(stream)
  {
    var p := FirstNewline(part);
    NoneBefore(part);
    assert forall i | n <= i < n + |part| :: stream[i] == stream[n..][i - n] == part[i - n];
    if p < |part| {
      FirstNewlineIs(stream, n + p);
    } else {
      LateNewline(stream, n + p);
    }
  }

  lemma LateNewline(s: bytes, n: nat)
    requires n <= |s| && forall i | 0 <= i < n :: s[i] != NEWLINE
    ensures n <= FirstNewline(s) && s[..n] <= Segment(s)
  {
    var p := FirstNewline(s);
    assert p < |s| ==> s[p] == NEWLINE;
  }

  /** Reads one line in whatever pieces the stream arrives. */
  method ReadLineLimited(r: BufferedReader, limit: nat, ghost fill: nat) returns (line: bytes)
    requires r.Valid(fill)
    modifies r
    ensures r.Valid(fill) && line <= old(r.Unread()) && r.Unread() == old(r.Unread())[|line|..]
    ensures ReadsLine(old(r.Unread()), line, limit)
    ensures |line| <= limit + fill
  {
    line := [];
    ghost var stream := r.Unread();
    while true
      invariant r.Valid(fill) && line <= stream && r.Unread() == stream[|line|..]
      invariant |line| <= limit
      invariant forall i | 0 <= i < |line| :: stream[i] != NEWLINE
      decreases |r.Unread()|
    {
      r.FillBuf(fill);
      if r.available == [] {
        FirstNewlineIs(stream, |stream|);
        return;
      }
      var part := r.available;
      SegmentWithin(stream, |line|, part);
      Extends(stream, line, part);
      var pos := Position(part);
      if pos < |part| {
        line := line + part[..pos + 1];
        r.Consume(pos + 1, fill);
        return;
      }
      line := line + part;
      r.Consume(|part|, fill);
      if |line| > limit {
        return;
      }
    }
  }

  lemma Extends(stream: bytes, line: bytes, part: bytes)
    requires line <= stream && part <= stream[|line|..]
    ensures forall n | 0 <= n <= |part| :: line + part[..n] == stream[..|line| + n]
    ensures line + part == stream[..|line| + |part|]
    ensures forall n | 0 <= n <= |part| :: stream[|line|..][n..] == stream[|line| + n..]
  {
    assert stream == line + stream[|line|..];
    assert stream[|line|..] == part + stream[|line|..][|part|..];
  }

  /** The client's read loop: what it accepts depends on the bytes alone, not on the pieces. */
  method ReadClient(chunks: seq<bytes>, ghost fill: nat)
    returns (lines: seq<bytes>, rejected: bytes, ghost unread: bytes)
    requires forall i | 0 <= i < |chunks| :: 0 < |chunks[i]| <= fill
    ensures lines == Accepted(Flatten(chunks), MAX_LINE_BYTES)
    ensures Flatten(lines) + (rejected + unread) == Flatten(chunks)
    ensures if rejected == [] then unread == [] else MAX_LINE_BYTES < |rejected| <= MAX_LINE_BYTES + fill
  {
    var r := new BufferedReader(chunks, fill);
    lines, rejected := [], [];
    while true
      invariant r.Valid(fill) && Flatten(lines) + r.Unread() == Flatten(chunks)
      invariant lines + Accepted(r.Unread(), MAX_LINE_BYTES) == Accepted(Flatten(chunks), MAX_LINE_BYTES)
      decreases |r.Unread()|
    {
      ghost var before := r.Unread();
      var line := ReadLineLimited(r, MAX_LINE_BYTES, fill);
      assert before == line + r.Unread();
      if line == [] || |line| > MAX_LINE_BYTES {
        rejected, unread := line, r.Unread();
        assert Accepted(before, MAX_LINE_BYTES) == [];
        assert lines + Accepted(before, MAX_LINE_BYTES) == lines;
        return;
      }
      FlattenAppend(lines, line);
      Associative(Flatten(lines), line, r.Unread());
      Associative(lines, [line], Accepted(r.Unread(), MAX_LINE_BYTES));
      lines := lines + [line];
    }
  }
}
