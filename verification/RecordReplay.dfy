/** Recording frames to files and replaying them in the order of the sorted file names. */
module RecordReplay {
  import opened Prelude
  import opened Frames

  // ----- File names -----

  function Digit(d: nat): char
    requires d < 10
  {
    '0' + d as char
  }

  function Decimal(n: nat): string {
    if n < 10 then [Digit(n)] else Decimal(n / 10) + [Digit(n % 10)]
  }

  function Zeros(n: nat): string {
    seq(n, i => '0')
  }

  /** At least four digits, padded with zeros. */
  function Padded(n: nat): string {
    var d := Decimal(n);
    if |d| < 4 then Zeros(4 - |d|) + d else d
  }

  function Kind(stack: bool): string {
    if stack then "stack" else "preview"
  }

  function Name(index: nat, stack: bool): string {
    "frame_" + Padded(index) + "_" + Kind(stack) + ".bin"
  }

  // ----- The order in which names are sorted -----

  predicate Less(a: string, b: string) {
    b != [] && (a == [] || a[0] < b[0] || (a[0] == b[0] && Less(a[1..], b[1..])))
  }

  lemma {:induction false} LessIsTransitive(a: string, b: string, c: string)
    requires Less(a, b) && Less(b, c)
    ensures Less(a, c)
  {
    if a != [] && a[0] == b[0] == c[0] {
      LessIsTransitive(a[1..], b[1..], c[1..]);
    }
  }

  lemma {:induction false} LessIsIrreflexive(a: string)
    ensures !Less(a, a)
  {
    if a != [] {
      LessIsIrreflexive(a[1..]);
    }
  }

  lemma {:induction false} LessAfterPrefix(p: string, a: string, b: string)
    ensures Less(p + a, p + b) == Less(a, b)
  {
    if p == [] {
      assert p + a == a && p + b == b;
    } else {
      assert (p + a)[1..] == p[1..] + a && (p + b)[1..] == p[1..] + b;
      LessAfterPrefix(p[1..], a, b);
    }
  }

  ghost predicate Sorted(paths: seq<string>) {
    forall i, j | 0 <= i < j < |paths| :: Less(paths[i], paths[j])
  }

  /** A set of names has only one sorted enumeration. */
  lemma {:induction false} SortedIsUnique(p: seq<string>, q: seq<string>)
    requires Sorted(p) && Sorted(q) && forall x :: x in p <==> x in q
    ensures p == q
  {
    assert q != [] ==> q[0] in p;
    if p != [] {
      assert p[0] in q;
      var j :| 0 <= j < |q| && q[j] == p[0];
      assert q[0] in p;
      var i :| 0 <= i < |p| && p[i] == q[0];
      if i > 0 && j > 0 {
        LessIsTransitive(p[0], q[0], p[0]);
        LessIsIrreflexive(p[0]);
      }
      assert p[0] == q[0];
      forall x ensures x in p[1..] <==> x in q[1..] {
        LessIsIrreflexive(p[0]);
        assert x in p <==> x == p[0] || x in p[1..];
        assert x in q <==> x == q[0] || x in q[1..];
      }
      SortedIsUnique(p[1..], q[1..]);
      assert p == [p[0]] + p[1..] && q == [q[0]] + q[1..];
    }
  }

  lemma DecimalSplit(n: nat)
    requires n >= 10
    ensures Decimal(n) == Decimal(n / 10) + [Digit(n % 10)]
  {}

  lemma DecimalOfThree(n: nat)
    requires n < 1000
    ensures n < 10 ==> Decimal(n) == [Digit(n)]
    ensures 10 <= n < 100 ==> Decimal(n) == [Digit(n / 10), Digit(n % 10)]
    ensures 100 <= n ==> Decimal(n) == [Digit(n / 100), Digit(n / 10 % 10), Digit(n % 10)]
  {
    if n >= 100 {
      DecimalSplit(n);
      DecimalSplit(n / 10);
      assert n / 10 / 10 == n / 100;
    }
  }

  /** Up to 9,999 the padded number has exactly four digits. */
  lemma PaddedIsFourDigits(n: nat)
    requires n < 10_000
    ensures Padded(n) == FourDigits(n)
  {
    if n < 1000 {
      DecimalOfThree(n);
    } else {
      DecimalSplit(n);
      DecimalOfThree(n / 10);
      assert n / 10 / 100 == n / 1000 && n / 10 / 10 == n / 100;
    }
  }

  lemma {:induction false} FirstDifference(s: string, t: string, k: nat)
    requires k < |s| && k < |t| && s[..k] == t[..k] && s[k] < t[k]
    ensures Less(s, t)
  {
    if k > 0 {
      assert s[0] == s[..k][0] && t[0] == t[..k][0];
      assert s[1..][..k - 1] == s[..k][1..] && t[1..][..k - 1] == t[..k][1..];
      FirstDifference(s[1..], t[1..], k - 1);
    }
  }

  function FourDigits(n: nat): string
    requires n < 10_000
  {
    Spelled(n / 1000, n / 100 % 10, n / 10 % 10, n % 10)
  }

  function Spelled(a: nat, b: nat, c: nat, d: nat): string
    requires a < 10 && b < 10 && c < 10 && d < 10
  {
    [Digit(a), Digit(b), Digit(c), Digit(d)]
  }

  lemma DigitsCompose(n: nat)
    requires n < 10_000
    ensures n == 1000 * (n / 1000) + 100 * (n / 100 % 10) + 10 * (n / 10 % 10) + n % 10
  {
    assert n / 10 == 10 * (n / 10 / 10) + n / 10 % 10;
    assert n / 10 / 10 == n / 100 && n / 100 / 10 == n / 1000;
  }

  /** The first digit in which two spelled numbers differ. */
  lemma SpelledDiffer(a: nat, b: nat, c: nat, d: nat, a': nat, b': nat, c': nat, d': nat) returns (k: nat)
    requires a < 10 && b < 10 && c < 10 && d < 10 && a' < 10 && b' < 10 && c' < 10 && d' < 10
    requires 1000 * a + 100 * b + 10 * c + d < 1000 * a' + 100 * b' + 10 * c' + d'
    ensures
      var s, t := Spelled(a, b, c, d), Spelled(a', b', c', d');
      k < 4 && s[..k] == t[..k] && s[k] < t[k]
  {
    k := if a < a' then 0 else if b < b' then 1 else if c < c' then 2 else 3;
  }

  lemma DigitsDiffer(i: nat, j: nat) returns (k: nat)
    requires i < j < 10_000
    ensures
      var s, t := FourDigits(i), FourDigits(j);
      k < 4 && s[..k] == t[..k] && s[k] < t[k]
  {
    DigitsCompose(i);
    DigitsCompose(j);
    k := SpelledDiffer(i / 1000, i / 100 % 10, i / 10 % 10, i % 10, j / 1000, j / 100 % 10, j / 10 % 10, j % 10);
  }

  lemma NameIsPrefixed(i: nat, stack: bool)
    ensures Name(i, stack) == "frame_" + (Padded(i) + ("_" + Kind(stack) + ".bin"))
  {}

  /** Below 10,000 the name order is the index order. */
  lemma NamesFollowIndices(i: nat, j: nat, k: bool, l: bool)
    requires i < j < 10_000
    ensures Less(Name(i, k), Name(j, l))
  {
    PaddedIsFourDigits(i);
    PaddedIsFourDigits(j);
    var n := DigitsDiffer(i, j);
    DifferAfterPrefix("frame_", Padded(i), Padded(j), n, "_" + Kind(k) + ".bin", "_" + Kind(l) + ".bin");
    NameIsPrefixed(i, k);
    NameIsPrefixed(j, l);
  }

  lemma DifferAfterPrefix(p: string, a: string, b: string, n: nat, x: string, y: string)
    requires n < |a| && n < |b| && a[..n] == b[..n] && a[n] < b[n]
    ensures Less(p + (a + x), p + (b + y))
  {
    assert (a + x)[..n] == a[..n] && (b + y)[..n] == b[..n];
    FirstDifference(a + x, b + y, n);
    LessAfterPrefix(p, a + x, b + y);
  }

  /** The name of frame 10,000 sorts before that of frame 1,000. */
  lemma TenThousandSortsEarly(k: bool, l: bool)
    ensures Less(Name(10_000, k), Name(1_000, l))
  {
    PaddedIsFourDigits(1_000);
    assert Decimal(1_000) == "1000";
    assert Decimal(10_000) == "1000" + "0";
    NameIsPrefixed(10_000, k);
    NameIsPrefixed(1_000, l);
    var x, y := "_" + Kind(k) + ".bin", "_" + Kind(l) + ".bin";
    assert ("1000" + "0") + x == "1000" + ("0" + x);
    assert Less("0" + x, y);
    LessAfterPrefix("1000", "0" + x, y);
    LessAfterPrefix("frame_", "1000" + ("0" + x), "1000" + y);
  }

  // ----- Digits decide -----

  predicate IsDigits(s: string) {
    forall i | 0 <= i < |s| :: '0' <= s[i] <= '9'
  }

  /** The order of digit strings in which the end comes after every digit. */
  predicate DigitBefore(a: string, b: string) {
    a != [] && (b == [] || a[0] < b[0] || (a[0] == b[0] && DigitBefore(a[1..], b[1..])))
  }

  lemma {:induction false} DigitsAreIrreflexive(a: string)
    ensures !DigitBefore(a, a)
  {
    if a != [] {
      DigitsAreIrreflexive(a[1..]);
    }
  }

  lemma {:induction false} DecimalIsDigits(n: nat)
    ensures IsDigits(Decimal(n))
  {
    if n >= 10 {
      DecimalIsDigits(n / 10);
    }
  }

  lemma PaddedIsDigits(n: nat)
    ensures IsDigits(Padded(n))
  {
    DecimalIsDigits(n);
  }

  /** The number a digit string spells. */
  function Value(s: string): int {
    if s == [] then 0 else 10 * Value(s[..|s| - 1]) + (s[|s| - 1] as int - '0' as int)
  }

  lemma {:induction false} ValueOfDecimal(n: nat)
    ensures Value(Decimal(n)) == n
  {
    if n >= 10 {
      ValueOfDecimal(n / 10);
      DecimalSplit(n);
      assert Decimal(n)[..|Decimal(n)| - 1] == Decimal(n / 10);
    }
  }

  lemma {:induction false} ValueOfZeros(k: nat, s: string)
    ensures Value(Zeros(k) + s) == Value(s)
    decreases |s|, k
  {
    if s == [] {
      assert Zeros(k) + s == Zeros(k);
      if k > 0 {
        assert Zeros(k)[..k - 1] == Zeros(k - 1) + s;
        ValueOfZeros(k - 1, s);
      }
    } else {
      var n := |s| - 1;
      assert (Zeros(k) + s)[..k + n] == Zeros(k) + s[..n];
      ValueOfZeros(k, s[..n]);
    }
  }

  lemma ValueOfPadded(n: nat)
    ensures Value(Padded(n)) == n
  {
    ValueOfDecimal(n);
    if |Decimal(n)| < 4 {
      ValueOfZeros(4 - |Decimal(n)|, Decimal(n));
    }
  }

  /** What follows the numbers does not matter: the underscore sorts after every digit. */
  lemma {:induction false} EndSortsLast(a: string, b: string, x: string, y: string)
    requires IsDigits(a) && IsDigits(b) && a != b
    ensures Less(a + ("_" + x), b + ("_" + y)) <==> DigitBefore(a, b)
  {
    var s, t := a + ("_" + x), b + ("_" + y);
    if a != [] && b != [] && a[0] == b[0] {
      assert a == [a[0]] + a[1..] && b == [b[0]] + b[1..];
      EndSortsLast(a[1..], b[1..], x, y);
      assert s[1..] == a[1..] + ("_" + x) && t[1..] == b[1..] + ("_" + y);
    } else {
      assert s[0] == if a == [] then '_' else a[0];
      assert t[0] == if b == [] then '_' else b[0];
    }
  }

  /** Distinct indices have names in the order of their digits, whatever the kinds. */
  lemma NamesFollowDigits(i: nat, j: nat, k: bool, l: bool)
    requires i != j
    ensures Less(Name(i, k), Name(j, l)) <==> DigitBefore(Padded(i), Padded(j))
  {
    ValueOfPadded(i);
    ValueOfPadded(j);
    PaddedIsDigits(i);
    PaddedIsDigits(j);
    NameIsPrefixed(i, k);
    NameIsPrefixed(j, l);
    var x, y := Kind(k) + ".bin", Kind(l) + ".bin";
    assert "_" + Kind(k) + ".bin" == "_" + x && "_" + Kind(l) + ".bin" == "_" + y;
    LessAfterPrefix("frame_", Padded(i) + ("_" + x), Padded(j) + ("_" + y));
    EndSortsLast(Padded(i), Padded(j), x, y);
  }

  lemma {:induction false} DigitsAreTotal(a: string, b: string)
    ensures a == b || DigitBefore(a, b) || DigitBefore(b, a)
  {
    if a != [] && b != [] && a[0] == b[0] {
      DigitsAreTotal(a[1..], b[1..]);
      assert a == [a[0]] + a[1..] && b == [b[0]] + b[1..];
    }
  }

  /** Distinct indices have distinct names. */
  lemma NamesAreDistinct(i: nat, j: nat, k: bool, l: bool)
    requires Name(i, k) == Name(j, l)
    ensures i == j
  {
    if i != j {
      ValueOfPadded(i);
      ValueOfPadded(j);
      DigitsAreTotal(Padded(i), Padded(j));
      NamesFollowDigits(i, j, k, l);
      NamesFollowDigits(j, i, l, k);
      LessIsIrreflexive(Name(i, k));
    }
  }

  // ----- Recording -----

  predicate IsImageFrame(f: bytes) {
    |f| >= HEADER_SIZE && IsImage(ParseHeader(f))
  }

  predicate IsStack(f: bytes) {
    |f| >= HEADER_SIZE && ParseHeader(f).id == 23
  }

  /** The image frames of a live stream, in order. */
  function Images(frames: seq<bytes>): seq<bytes> {
    if frames == [] then []
    else Images(frames[..|frames| - 1])
         + (if IsImageFrame(frames[|frames| - 1]) then [frames[|frames| - 1]] else [])
  }

  /** The files that recording these images leaves. */
  function Files(images: seq<bytes>): map<string, bytes> {
    if images == [] then map[]
    else
      var n := |images| - 1;
      Files(images[..n])[Name(n, IsStack(images[n])) := images[n]]
  }

  lemma ImagesStep(frames: seq<bytes>, n: nat)
    requires n < |frames|
    ensures Images(frames[..n + 1]) ==
            if IsImageFrame(frames[n]) then Images(frames[..n]) + [frames[n]] else Images(frames[..n])
  {
    assert frames[..n + 1][..n] == frames[..n];
  }

  lemma FilesStep(images: seq<bytes>, f: bytes)
    ensures Files(images + [f]) == Files(images)[Name(|images|, IsStack(f)) := f]
  {
    assert (images + [f])[..|images|] == images;
  }

  class Recorder {
    var frameCounter: nat
    var previewCount: nat
    var stackCount: nat
    var files: map<string, bytes>

    ghost predicate Valid()
      reads this
    {
      frameCounter == previewCount + stackCount
    }

    constructor ()
      ensures Valid() && frameCounter == 0 && files == map[]
    {
      frameCounter, previewCount, stackCount, files := 0, 0, 0, map[];
    }

    /** Writes an image frame under the next index and counts it by kind. */
    method RecordFrame(header: bytes, payload: bytes)
      requires Valid() && |header| == HEADER_SIZE
      modifies this
      ensures Valid()
      ensures
        if IsImageFrame(header + payload) then
          && frameCounter == old(frameCounter) + 1
          && files == old(files)[Name(old(frameCounter), IsStack(header + payload)) := header + payload]
          && stackCount == old(stackCount) + (if IsStack(header + payload) then 1 else 0)
        else frameCounter == old(frameCounter) && files == old(files) && stackCount == old(stackCount)
    {
      assert ParseHeader(header + payload) == ParseHeader(header);
      var parsed := ParseHeader(header);
      if !IsImage(parsed) {
        return;
      }
      var idx := frameCounter;
      frameCounter := frameCounter + 1;
      if parsed.id == 23 {
        stackCount := stackCount + 1;
      } else {
        previewCount := previewCount + 1;
      }
      files := files[Name(idx, parsed.id == 23) := header + payload];
    }
  }

  /** Records a whole live stream of frames into an empty directory. */
  method RecordAll(frames: seq<bytes>) returns (r: Recorder)
    requires forall f | f in frames :: |f| >= HEADER_SIZE
    ensures fresh(r) && r.Valid() && r.frameCounter == |Images(frames)| && r.files == Files(Images(frames))
  {
    r := new Recorder();
    for n := 0 to |frames|
      invariant fresh(r) && r.Valid()
      invariant r.frameCounter == |Images(frames[..n])| && r.files == Files(Images(frames[..n]))
    {
      var f := frames[n];
      assert f in frames;
      var header, payload := f[..HEADER_SIZE], f[HEADER_SIZE..];
      assert header + payload == f;
      ImagesStep(frames, n);
      FilesStep(Images(frames[..n]), f);
      r.RecordFrame(header, payload);
    }
    assert frames[..|frames|] == frames;
  }

  // ----- Replay -----

  predicate IsFrameFile(name: string) {
    "frame_" <= name && |name| >= 4 && name[|name| - 4..] == ".bin"
  }

  /** The directory listing after filtering and sorting. */
  ghost predicate Listing(paths: seq<string>, files: map<string, bytes>) {
    Sorted(paths) && forall x :: x in paths <==> x in files && IsFrameFile(x)
  }

  function Played(paths: seq<string>, files: map<string, bytes>): seq<bytes> {
    if paths == [] then []
    else
      var n := |paths| - 1;
      Played(paths[..n], files)
      + (if paths[n] in files && |files[paths[n]]| >= HEADER_SIZE then [files[paths[n]]] else [])
  }

  lemma PlayedStep(paths: seq<string>, n: nat, files: map<string, bytes>)
    requires n < |paths|
    ensures Played(paths[..n + 1], files) ==
            if paths[n] in files && |files[paths[n]]| >= HEADER_SIZE
            then Played(paths[..n], files) + [files[paths[n]]] else Played(paths[..n], files)
  {
    assert paths[..n + 1][..n] == paths[..n];
  }

  /** Broadcasts each readable file that holds at least a header. */
  method ReplayImaging(paths: seq<string>, files: map<string, bytes>) returns (sent: seq<bytes>)
    ensures sent == Played(paths, files)
  {
    sent := [];
    for n := 0 to |paths|
      invariant sent == Played(paths[..n], files)
    {
      PlayedStep(paths, n, files);
      if paths[n] in files && |files[paths[n]]| >= HEADER_SIZE {
        sent := sent + [files[paths[n]]];
      }
    }
    assert paths[..|paths|] == paths;
  }

  function Names(images: seq<bytes>): seq<string> {
    seq(|images|, i requires 0 <= i < |images| => Name(i, IsStack(images[i])))
  }

  lemma {:induction false} ImagesAreImages(frames: seq<bytes>)
    ensures forall f | f in Images(frames) :: IsImageFrame(f)
  {
    if frames != [] {
      ImagesAreImages(frames[..|frames| - 1]);
    }
  }

  /** Index order is sorted exactly up to 10,000 images. */
  lemma NamesSorted(images: seq<bytes>)
    ensures Sorted(Names(images)) <==> |images| <= 10_000
  {
    if |images| <= 10_000 {
      forall i, j | 0 <= i < j < |images| ensures Less(Names(images)[i], Names(images)[j]) {
        NamesFollowIndices(i, j, IsStack(images[i]), IsStack(images[j]));
      }
    } else if Sorted(Names(images)) {
      var a, b := Names(images)[1_000], Names(images)[10_000];
      assert Less(a, b);
      TenThousandSortsEarly(IsStack(images[10_000]), IsStack(images[1_000]));
      LessIsTransitive(a, b, a);
      LessIsIrreflexive(a);
    }
  }

  lemma {:induction false} FilesHoldNames(images: seq<bytes>)
    ensures forall x :: x in Files(images) <==> x in Names(images)
  {
    if images != [] {
      var n := |images| - 1;
      FilesHoldNames(images[..n]);
      assert Names(images) == Names(images[..n]) + [Name(n, IsStack(images[n]))];
    }
  }

  lemma NameIsFrameFile(i: nat, stack: bool)
    ensures IsFrameFile(Name(i, stack))
  {
    NameIsPrefixed(i, stack);
    var name := Name(i, stack);
    assert name[|name| - 4..] == ".bin";
  }

  lemma {:induction false} FileOfName(images: seq<bytes>, i: nat)
    requires i < |images|
    ensures Name(i, IsStack(images[i])) in Files(images)
    ensures Files(images)[Name(i, IsStack(images[i]))] == images[i]
  {
    var n := |images| - 1;
    if i < n {
      FileOfName(images[..n], i);
      assert images[..n][i] == images[i];
      if Name(i, IsStack(images[i])) == Name(n, IsStack(images[n])) {
        NamesAreDistinct(i, n, IsStack(images[i]), IsStack(images[n]));
      }
    }
  }

  /** Files listed in the order of the frames they hold are played in that order. */
  lemma {:induction false} PlayedInOrder(paths: seq<string>, files: map<string, bytes>, images: seq<bytes>, n: nat)
    requires n <= |images| == |paths| && forall i | 0 <= i < |paths| :: Stores(files, paths[i], images[i])
    ensures Played(paths[..n], files) == images[..n]
  {
    if n > 0 {
      PlayedInOrder(paths, files, images, n - 1);
      PlayedStep(paths, n - 1, files);
      assert images[..n] == images[..n - 1] + [images[n - 1]];
    }
  }

  predicate Stores(files: map<string, bytes>, name: string, f: bytes) {
    name in files && files[name] == f && |f| >= HEADER_SIZE
  }

  lemma PlayedAll(paths: seq<string>, files: map<string, bytes>, images: seq<bytes>)
    requires |images| == |paths| && forall i | 0 <= i < |paths| :: Stores(files, paths[i], images[i])
    ensures Played(paths, files) == images
  {
    PlayedInOrder(paths, files, images, |images|);
    assert paths[..|images|] == paths && images[..|images|] == images;
  }

  lemma NameIsListed(images: seq<bytes>, x: string)
    requires x in Names(images)
    ensures IsFrameFile(x)
  {
    var i :| 0 <= i < |images| && Names(images)[i] == x;
    NameIsFrameFile(i, IsStack(images[i]));
  }

  // ----- The order of the replay -----

  function Picked<T>(xs: seq<T>, order: seq<nat>): seq<T>
    requires forall k | 0 <= k < |order| :: order[k] < |xs|
  {
    seq(|order|, k requires 0 <= k < |order| => xs[order[k]])
  }

  /** All indices below `n`, each once, in the order of their digits. */
  ghost predicate IsReplayOrder(order: seq<nat>, n: nat) {
    && (forall k | 0 <= k < |order| :: order[k] < n)
    && (forall i: nat | i < n :: i in order)
    && (forall j, k | 0 <= j < k < |order| :: DigitBefore(Padded(order[j]), Padded(order[k])))
  }

  /** Under one kind of name, the order of the digits is that of the names. */
  lemma OrderIsSorted(order: seq<nat>, n: nat)
    requires IsReplayOrder(order, n)
    ensures Sorted(PlainNames(order))
  {
    forall j, k | 0 <= j < k < |order| ensures Less(PlainNames(order)[j], PlainNames(order)[k]) {
      DigitsAreIrreflexive(Padded(order[j]));
      NamesFollowDigits(order[j], order[k], false, false);
    }
  }

  function PlainNames(order: seq<nat>): seq<string> {
    seq(|order|, k requires 0 <= k < |order| => Name(order[k], false))
  }

  lemma PlainNamesHold(order: seq<nat>, n: nat, x: string)
    requires IsReplayOrder(order, n)
    ensures x in PlainNames(order) <==> exists i: nat :: i < n && Name(i, false) == x
  {
    var names := PlainNames(order);
    if x in names {
      var k :| 0 <= k < |names| && names[k] == x;
      assert order[k] < n && Name(order[k], false) == x;
    }
    if exists i: nat :: i < n && Name(i, false) == x {
      var i: nat :| i < n && Name(i, false) == x;
      assert i in order;
      var k :| 0 <= k < |order| && order[k] == i;
      assert names[k] == x;
    }
  }

  /** There is only one such order. */
  lemma ReplayOrderIsUnique(o: seq<nat>, p: seq<nat>, n: nat)
    requires IsReplayOrder(o, n) && IsReplayOrder(p, n)
    ensures o == p
  {
    OrderIsSorted(o, n);
    OrderIsSorted(p, n);
    forall x ensures x in PlainNames(o) <==> x in PlainNames(p) {
      PlainNamesHold(o, n, x);
      PlainNamesHold(p, n, x);
    }
    SortedIsUnique(PlainNames(o), PlainNames(p));
    assert |o| == |PlainNames(o)| == |p|;
    forall k | 0 <= k < |o| ensures o[k] == p[k] {
      assert PlainNames(o)[k] == PlainNames(p)[k];
      NamesAreDistinct(o[k], p[k], false, false);
    }
  }

  /** The index of a recorded name. */
  ghost function IndexOf(images: seq<bytes>, x: string): (i: nat)
    requires x in Names(images)
    ensures i < |images| && Names(images)[i] == x
  {
    var i: nat :| i < |images| && Names(images)[i] == x;
    i
  }

  lemma ListingHoldsNames(images: seq<bytes>, paths: seq<string>)
    requires Listing(paths, Files(images))
    ensures forall x :: x in paths <==> x in Names(images)
  {
    FilesHoldNames(images);
    forall x ensures x in paths <==> x in Names(images) {
      if x in Names(images) {
        NameIsListed(images, x);
      }
    }
  }

  /** The indices behind the sorted listing are in the order of their digits. */
  lemma ListingOrder(images: seq<bytes>, paths: seq<string>) returns (order: seq<nat>)
    requires Listing(paths, Files(images))
    ensures IsReplayOrder(order, |images|) && paths == Picked(Names(images), order)
  {
    ListingHoldsNames(images, paths);
    assert forall k | 0 <= k < |paths| :: paths[k] in paths;
    order := seq(|paths|, k requires 0 <= k < |paths| => IndexOf(images, paths[k]));
    forall j, k | 0 <= j < k < |order| ensures DigitBefore(Padded(order[j]), Padded(order[k])) {
      IndicesFollowNames(images, order[j], order[k]);
    }
    forall i: nat | i < |images| ensures i in order {
      assert Names(images)[i] in Names(images);
      var k :| 0 <= k < |paths| && paths[k] == Names(images)[i];
      NamesAreDistinct(order[k], i, IsStack(images[order[k]]), IsStack(images[i]));
      assert order[k] == i;
    }
  }

  lemma IndicesFollowNames(images: seq<bytes>, i: nat, j: nat)
    requires i < |images| && j < |images| && Less(Names(images)[i], Names(images)[j])
    ensures DigitBefore(Padded(i), Padded(j))
  {
    if i == j {
      LessIsIrreflexive(Names(images)[i]);
    } else {
      NamesFollowDigits(i, j, IsStack(images[i]), IsStack(images[j]));
    }
  }

  /**
   For every live stream, however long, the replay of the sorted directory
   broadcasts each image once, byte for byte, in the order of the digits of its
   index, the end of a number coming after every digit.
   */
  lemma ReplayFollowsDigits(frames: seq<bytes>, paths: seq<string>) returns (order: seq<nat>)
    requires Listing(paths, Files(Images(frames)))
    ensures IsReplayOrder(order, |Images(frames)|)
    ensures paths == Picked(Names(Images(frames)), order)
    ensures Played(paths, Files(Images(frames))) == Picked(Images(frames), order)
  {
    var images := Images(frames);
    ImagesAreImages(frames);
    order := ListingOrder(images, paths);
    forall k | 0 <= k < |paths| ensures Stores(Files(images), paths[k], Picked(images, order)[k]) {
      FileOfName(images, order[k]);
      assert images[order[k]] in images;
    }
    PlayedAll(paths, Files(images), Picked(images, order));
  }

  function UpTo(n: nat): seq<nat> {
    seq(n, i => i)
  }

  lemma UpToHolds(n: nat, i: nat)
    requires i < n
    ensures i in UpTo(n)
  {
    assert UpTo(n)[i] == i;
  }

  /** Index order is digit order exactly up to 10,000. */
  lemma IndexOrderExactly(n: nat)
    ensures IsReplayOrder(UpTo(n), n) <==> n <= 10_000
  {
    forall i: nat | i < n ensures i in UpTo(n) {
      UpToHolds(n, i);
    }
    if n <= 10_000 {
      forall j, k | 0 <= j < k < n ensures DigitBefore(Padded(UpTo(n)[j]), Padded(UpTo(n)[k])) {
        NamesFollowIndices(j, k, false, false);
        NamesFollowDigits(j, k, false, false);
      }
    } else if IsReplayOrder(UpTo(n), n) {
      assert DigitBefore(Padded(UpTo(n)[1_000]), Padded(UpTo(n)[10_000]));
      TenThousandSortsEarly(false, false);
      NamesFollowDigits(1_000, 10_000, false, false);
      LessIsTransitive(Name(1_000, false), Name(10_000, false), Name(1_000, false));
      LessIsIrreflexive(Name(1_000, false));
    }
  }

  /**
   Record then replay: for every live stream with at most 10,000 image frames the
   replay of the sorted directory broadcasts exactly those frames, byte for byte
   and in order; with more, the file order is never the recording order.
   */
  lemma ReplayRepeatsRecording(frames: seq<bytes>, paths: seq<string>)
    requires Listing(paths, Files(Images(frames)))
    ensures paths == Names(Images(frames)) <==> |Images(frames)| <= 10_000
    ensures |Images(frames)| <= 10_000 ==> Played(paths, Files(Images(frames))) == Images(frames)
  {
    var images := Images(frames);
    NamesSorted(images);
    if |images| <= 10_000 {
      var order := ReplayFollowsDigits(frames, paths);
      IndexOrderExactly(|images|);
      ReplayOrderIsUnique(order, UpTo(|images|), |images|);
      assert Picked(images, order) == images && Picked(Names(images), order) == Names(images);
    }
  }

  // ----- One frame too many -----

  /** The order in which 10,001 frames come back: the last one before frame 1,000. */
  function Jumped<T>(xs: seq<T>): seq<T>
    requires |xs| == 10_001
  {
    xs[..1_000] + [xs[10_000]] + xs[1_000..10_000]
  }

  /** The position in the recording of what is played at `i`. */
  function Source(i: nat): nat {
    if i < 1_000 then i else if i == 1_000 then 10_000 else i - 1
  }

  lemma JumpedAt<T>(xs: seq<T>, i: nat)
    requires |xs| == 10_001 && i < 10_001
    ensures Jumped(xs)[i] == xs[Source(i)]
  {}

  function JumpOrder(): seq<nat> {
    seq(10_001, i requires 0 <= i < 10_001 => Source(i))
  }

  lemma TenThousandBetween(i: nat)
    requires i < 10_000
    ensures if i < 1_000 then DigitBefore(Padded(i), Padded(10_000)) else DigitBefore(Padded(10_000), Padded(i))
  {
    assert Decimal(10) == "10" && Decimal(1_000) == "1000" && Decimal(10_000) == "10000";
    PaddedIsFourDigits(i);
    if i >= 1_000 {
      TenThousandSortsEarly(false, false);
      if i > 1_000 {
        NamesFollowIndices(1_000, i, false, false);
        LessIsTransitive(Name(10_000, false), Name(1_000, false), Name(i, false));
      }
      NamesFollowDigits(10_000, i, false, false);
    }
  }

  lemma JumpOrderIsReplayOrder()
    ensures IsReplayOrder(JumpOrder(), 10_001)
  {
    forall j, k | 0 <= j < k < 10_001 ensures DigitBefore(Padded(JumpOrder()[j]), Padded(JumpOrder()[k])) {
      var a, b := Source(j), Source(k);
      if a == 10_000 {
        TenThousandBetween(b);
      } else if b == 10_000 {
        TenThousandBetween(a);
      } else {
        NamesFollowIndices(a, b, false, false);
        NamesFollowDigits(a, b, false, false);
      }
    }
    forall i: nat | i < 10_001 ensures i in JumpOrder() {
      var k := if i < 1_000 then i else if i == 10_000 then 1_000 else i + 1;
      assert JumpOrder()[k] == i;
    }
  }

  /** With 10,001 images the last one is replayed between frames 999 and 1,000, all others in order. */
  lemma LastFrameJumpsAhead(frames: seq<bytes>, paths: seq<string>)
    requires |Images(frames)| == 10_001 && Listing(paths, Files(Images(frames)))
    ensures Played(paths, Files(Images(frames))) == Jumped(Images(frames))
  {
    var images := Images(frames);
    var order := ReplayFollowsDigits(frames, paths);
    JumpOrderIsReplayOrder();
    ReplayOrderIsUnique(order, JumpOrder(), 10_001);
    forall i | 0 <= i < 10_001 ensures Picked(images, order)[i] == Jumped(images)[i] {
      JumpedAt(images, i);
    }
    assert Picked(images, order) == Jumped(images);
  }
}
