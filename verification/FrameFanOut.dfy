/**
 The imaging proxy's fan-out: connections come and go (a reader can outlive the
 connection that replaced it), each reader broadcasts whole frames on a ring of
 32, and every client takes frames from the ring at its own pace.
 */
module FrameFanOut {
  import opened Prelude
  import opened Frames

  const RING := 32

  /** One upstream connection: the bytes received, the frames cut from them, what is left to parse. */
  datatype Feed = Feed(received: bytes, frames: seq<bytes>, unparsed: bytes, alive: bool)

  /** A broadcast frame and where it came from. */
  datatype Shot = Shot(feed: nat, index: nat, frame: bytes)

  /** A client: the ring positions it took, in order, and the bytes its socket accepted. */
  datatype Viewer = Viewer(start: nat, next: nat, got: seq<nat>, bytes: bytes, live: bool, lagged: bool)

  datatype State = State(feeds: seq<Feed>, sent: seq<Shot>, viewers: seq<Viewer>)

  datatype Action =
    | Open
    | Arrive(k: nat, chunk: bytes)
    | Emit(k: nat)
    | Die(k: nat)
    | Subscribe
    | Take(v: nat)                      // receives a frame and writes all of it
    | TakePart(v: nat, n: nat)          // the write fails after `n` bytes
    | Lag(v: nat)                       // fell behind: skips to the oldest frame kept

  predicate Behind(s: State, v: Viewer) {
    |s.sent| > v.next + RING
  }

  predicate CanTake(s: State, v: nat) {
    v < |s.viewers| && s.viewers[v].live && s.viewers[v].next < |s.sent| && !Behind(s, s.viewers[v])
  }

  predicate Enabled(s: State, a: Action) {
    match a
    case Open => true
    case Arrive(k, _) => k < |s.feeds| && s.feeds[k].alive
    case Emit(k) => k < |s.feeds| && s.feeds[k].alive && Ready(s.feeds[k].unparsed)
    case Die(k) => k < |s.feeds| && s.feeds[k].alive
    case Subscribe => true
    case Take(v) => CanTake(s, v)
    case TakePart(v, n) => CanTake(s, v) && n < |s.sent[s.viewers[v].next].frame|
    case Lag(v) => v < |s.viewers| && s.viewers[v].live && Behind(s, s.viewers[v])
  }

  function Next(s: State, a: Action): State
    requires Enabled(s, a)
  {
    match a
    case Open => s.(feeds := s.feeds + [Feed([], [], [], true)])
    case Arrive(k, chunk) =>
      var f := s.feeds[k];
      s.(feeds := s.feeds[k := f.(received := f.received + chunk, unparsed := f.unparsed + chunk)])
    case Emit(k) =>
      var f := s.feeds[k];
      var n := FrameLength(f.unparsed);
      var frame := f.unparsed[..n];
      s.(feeds := s.feeds[k := f.(frames := f.frames + [frame], unparsed := f.unparsed[n..])],
         sent := s.sent + [Shot(k, |f.frames|, frame)])
    case Die(k) => s.(feeds := s.feeds[k := s.feeds[k].(alive := false)])
    case Subscribe => s.(viewers := s.viewers + [Viewer(|s.sent|, |s.sent|, [], [], true, false)])
    case Take(v) =>
      var w := s.viewers[v];
      s.(viewers := s.viewers[v := w.(next := w.next + 1, got := w.got + [w.next],
                                      bytes := w.bytes + s.sent[w.next].frame)])
    case TakePart(v, n) =>
      var w := s.viewers[v];
      s.(viewers := s.viewers[v := w.(next := w.next + 1, got := w.got + [w.next],
                                      bytes := w.bytes + s.sent[w.next].frame[..n], live := false)])
    case Lag(v) => s.(viewers := s.viewers[v := s.viewers[v].(next := |s.sent| - RING, lagged := true)])
  }

  ghost predicate Run(s: State, acts: seq<Action>, t: State)
    decreases |acts|
  {
    if acts == [] then t == s else Enabled(s, acts[0]) && Run(Next(s, acts[0]), acts[1..], t)
  }

  function Init(): State {
    State([], [], [])
  }

  // ----- Connections -----

  /** The frames cut so far and the unparsed bytes spell what was received. */
  ghost predicate FeedInv(f: Feed) {
    f.received == Flatten(f.frames) + f.unparsed && forall g | g in f.frames :: IsFrame(g)
  }

  lemma ArriveKeeps(f: Feed, chunk: bytes)
    requires FeedInv(f)
    ensures FeedInv(f.(received := f.received + chunk, unparsed := f.unparsed + chunk))
  {
    Associative(Flatten(f.frames), f.unparsed, chunk);
  }

  lemma EmitKeeps(f: Feed)
    requires FeedInv(f) && Ready(f.unparsed)
    ensures var n := FrameLength(f.unparsed);
            FeedInv(f.(frames := f.frames + [f.unparsed[..n]], unparsed := f.unparsed[n..]))
  {
    var n := FrameLength(f.unparsed);
    ReadyPrefix(f.unparsed, []);
    FlattenAppend(f.frames, f.unparsed[..n]);
    Associative(Flatten(f.frames), f.unparsed[..n], f.unparsed[n..]);
    assert f.unparsed[..n] + f.unparsed[n..] == f.unparsed;
  }

  /** Each connection's broadcast frames begin the frames of the bytes it received. */
  lemma FeedFramesArePrefix(f: Feed)
    requires FeedInv(f)
    ensures FramesOf(f.received) == f.frames + FramesOf(f.unparsed)
  {
    FramesInFront(f.frames, f.unparsed);
  }

  // ----- The ring -----

  /** A broadcast frame is one that its connection cut, under its own number. */
  predicate FromFeed(s: State, shot: Shot) {
    && shot.feed < |s.feeds|
    && shot.index < |s.feeds[shot.feed].frames|
    && shot.frame == s.feeds[shot.feed].frames[shot.index]
  }

  /** Frames of one connection are broadcast in order, each once and none left out. */
  ghost predicate RingInv(s: State) {
    && (forall j | 0 <= j < |s.sent| :: FromFeed(s, s.sent[j]))
    && (forall i, j | 0 <= i < j < |s.sent| && s.sent[i].feed == s.sent[j].feed :: s.sent[i].index < s.sent[j].index)
    && (forall k, i | 0 <= k < |s.feeds| && 0 <= i < |s.feeds[k].frames| :: Shot(k, i, s.feeds[k].frames[i]) in s.sent)
  }

  // ----- Clients -----

  function Picked(sent: seq<Shot>, got: seq<nat>): seq<bytes>
    requires forall i | 0 <= i < |got| :: got[i] < |sent|
  {
    seq(|got|, i requires 0 <= i < |got| => sent[got[i]].frame)
  }

  ghost predicate ViewerInv(sent: seq<Shot>, w: Viewer) {
    && w.start <= w.next <= |sent|
    && (forall i | 0 <= i < |w.got| :: w.start <= w.got[i] < w.next)
    && (forall i, j | 0 <= i < j < |w.got| :: w.got[i] < w.got[j])
    && w.bytes <= Flatten(Picked(sent, w.got))
    && (w.live ==> w.bytes == Flatten(Picked(sent, w.got)))
    && (forall p | w.start <= p < w.next :: p in w.got || p + RING < |sent|)
    && (!w.lagged ==> |w.got| == w.next - w.start && forall i | 0 <= i < |w.got| :: w.got[i] == w.start + i)
  }

  lemma RingGrows(sent: seq<Shot>, x: Shot, w: Viewer)
    requires ViewerInv(sent, w)
    ensures ViewerInv(sent + [x], w)
  {
    assert Picked(sent + [x], w.got) == Picked(sent, w.got);
  }

  lemma PickedAppend(sent: seq<Shot>, got: seq<nat>, p: nat)
    requires p < |sent| && forall i | 0 <= i < |got| :: got[i] < |sent|
    ensures Flatten(Picked(sent, got + [p])) == Flatten(Picked(sent, got)) + sent[p].frame
  {
    assert Picked(sent, got + [p]) == Picked(sent, got) + [sent[p].frame];
    FlattenAppend(Picked(sent, got), sent[p].frame);
  }

  /** The new position is after all earlier ones, and nothing becomes missed. */
  lemma TakeKeeps(sent: seq<Shot>, w: Viewer, n: nat, live: bool)
    requires ViewerInv(sent, w) && w.live && w.next < |sent| && n <= |sent[w.next].frame|
    requires live ==> n == |sent[w.next].frame|
    ensures ViewerInv(sent, w.(next := w.next + 1, got := w.got + [w.next],
                               bytes := w.bytes + sent[w.next].frame[..n], live := live))
  {
    PickedAppend(sent, w.got, w.next);
    var got := w.got + [w.next];
    forall p | w.start <= p < w.next + 1 ensures p in got || p + RING < |sent| {
      if p == w.next {
        assert got[|w.got|] == p;
      } else if p in w.got {
        var i :| 0 <= i < |w.got| && w.got[i] == p;
        assert got[i] == p;
      }
    }
  }

  lemma LagKeeps(sent: seq<Shot>, w: Viewer)
    requires ViewerInv(sent, w) && |sent| > w.next + RING
    ensures ViewerInv(sent, w.(next := |sent| - RING, lagged := true))
  {
  }

  lemma EmitKeepsRing(s: State, k: nat)
    requires RingInv(s) && Enabled(s, Emit(k))
    ensures RingInv(Next(s, Emit(k)))
  {
    var t := Next(s, Emit(k));
    var last := t.sent[|s.sent|];
    forall j | 0 <= j < |t.sent| ensures FromFeed(t, t.sent[j]) {
      if j < |s.sent| {
        assert FromFeed(s, s.sent[j]);
      }
    }
    forall i, j | 0 <= i < j < |t.sent| && t.sent[i].feed == t.sent[j].feed ensures t.sent[i].index < t.sent[j].index {
      if j == |s.sent| {
        assert FromFeed(s, s.sent[i]);
      }
    }
    forall c, i | 0 <= c < |t.feeds| && 0 <= i < |t.feeds[c].frames|
      ensures Shot(c, i, t.feeds[c].frames[i]) in t.sent
    {
      if c == k && i == |s.feeds[k].frames| {
        assert t.sent[|s.sent|] == Shot(c, i, t.feeds[c].frames[i]);
      } else {
        assert Shot(c, i, s.feeds[c].frames[i]) in s.sent;
      }
    }
  }

  lemma FeedStepKeepsRing(s: State, a: Action)
    requires RingInv(s) && Enabled(s, a) && !a.Emit?
    ensures RingInv(Next(s, a))
  {
    var t := Next(s, a);
    forall j | 0 <= j < |t.sent| ensures FromFeed(t, t.sent[j]) {
      assert FromFeed(s, s.sent[j]);
    }
  }

  lemma StepKeepsFeed(s: State, a: Action, k: nat)
    requires Enabled(s, a) && k < |Next(s, a).feeds| && (k < |s.feeds| ==> FeedInv(s.feeds[k]))
    ensures FeedInv(Next(s, a).feeds[k])
  {
    if a.Arrive? && a.k == k {
      ArriveKeeps(s.feeds[k], a.chunk);
    } else if a == Emit(k) {
      EmitKeeps(s.feeds[k]);
    }
  }

  lemma StepKeepsViewer(s: State, a: Action, v: nat)
    requires Enabled(s, a) && v < |Next(s, a).viewers| && (v < |s.viewers| ==> ViewerInv(s.sent, s.viewers[v]))
    ensures ViewerInv(Next(s, a).sent, Next(s, a).viewers[v])
  {
    if a.Emit? {
      RingGrows(s.sent, Next(s, a).sent[|s.sent|], s.viewers[v]);
    } else if a == Take(v) {
      var frame := s.sent[s.viewers[v].next].frame;
      TakeKeeps(s.sent, s.viewers[v], |frame|, true);
      assert frame[..|frame|] == frame;
    } else if a.TakePart? && a.v == v {
      TakeKeeps(s.sent, s.viewers[v], a.n, false);
    } else if a == Lag(v) {
      LagKeeps(s.sent, s.viewers[v]);
    }
  }

  ghost predicate Inv(s: State) {
    && (forall k | 0 <= k < |s.feeds| :: FeedInv(s.feeds[k]))
    && RingInv(s)
    && (forall v | 0 <= v < |s.viewers| :: ViewerInv(s.sent, s.viewers[v]))
  }

  lemma StepKeepsInv(s: State, a: Action)
    requires Inv(s) && Enabled(s, a)
    ensures Inv(Next(s, a))
  {
    var t := Next(s, a);
    forall k | 0 <= k < |t.feeds| ensures FeedInv(t.feeds[k]) {
      StepKeepsFeed(s, a, k);
    }
    forall v | 0 <= v < |t.viewers| ensures ViewerInv(t.sent, t.viewers[v]) {
      StepKeepsViewer(s, a, v);
    }
    if a.Emit? {
      EmitKeepsRing(s, a.k);
    } else {
      FeedStepKeepsRing(s, a);
    }
  }

  lemma {:induction false} RunKeepsInv(s: State, acts: seq<Action>, t: State)
    requires Inv(s) && Run(s, acts, t)
    ensures Inv(t)
    decreases |acts|
  {
    if acts != [] {
      StepKeepsInv(s, acts[0]);
      RunKeepsInv(Next(s, acts[0]), acts[1..], t);
    }
  }

  // ----- The theorems -----

  /**
   Over every run a client's bytes begin a concatenation of whole frames, and are
   all of it while its socket works; those frames are broadcast ones in order and
   without repetition, and one is missing only if 32 newer ones were broadcast.
   */
  lemma ClientSeesWholeFrames(acts: seq<Action>, t: State, v: nat)
    requires Run(Init(), acts, t) && v < |t.viewers|
    ensures
      var w := t.viewers[v];
      && (forall i | 0 <= i < |w.got| :: w.start <= w.got[i] < w.next <= |t.sent|)
      && (forall i, j | 0 <= i < j < |w.got| :: w.got[i] < w.got[j])
      && w.bytes <= Flatten(Picked(t.sent, w.got))
      && (w.live ==> w.bytes == Flatten(Picked(t.sent, w.got)))
      && (forall p | w.start <= p < w.next :: p in w.got || p + RING < |t.sent|)
  {
    RunKeepsInv(Init(), acts, t);
  }

  /**
   Over every run the broadcast frames are the complete frames the connections
   received: each connection's are a prefix of the frames of its bytes, broadcast
   in order, each exactly once.
   */
  lemma BroadcastIsFaithful(acts: seq<Action>, t: State, k: nat)
    requires Run(Init(), acts, t) && k < |t.feeds|
    ensures t.feeds[k].frames <= FramesOf(t.feeds[k].received)
    ensures !Ready(t.feeds[k].unparsed) ==> t.feeds[k].frames == FramesOf(t.feeds[k].received)
    ensures RingInv(t)
  {
    RunKeepsInv(Init(), acts, t);
    FeedFramesArePrefix(t.feeds[k]);
  }

  /** A client that was never more than 32 frames behind has every frame since it subscribed. */
  lemma {:induction false} KeepingUpMissesNothing(s: State, acts: seq<Action>, t: State, v: nat)
    requires Inv(s) && Run(s, acts, t) && v < |s.viewers| && !s.viewers[v].lagged
    requires NeverBehind(s, acts, v)
    ensures v < |t.viewers| && !t.viewers[v].lagged
    ensures var w := t.viewers[v]; |w.got| == w.next - w.start && forall i | 0 <= i < |w.got| :: w.got[i] == w.start + i
    decreases |acts|
  {
    if acts != [] {
      StepKeepsInv(s, acts[0]);
      StepKeepsUp(s, acts[0], v);
      KeepingUpMissesNothing(Next(s, acts[0]), acts[1..], t, v);
    }
  }

  lemma StepKeepsUp(s: State, a: Action, v: nat)
    requires Enabled(s, a) && v < |s.viewers| && !s.viewers[v].lagged && !Behind(s, s.viewers[v])
    ensures v < |Next(s, a).viewers| && !Next(s, a).viewers[v].lagged
  {}

  ghost predicate NeverBehind(s: State, acts: seq<Action>, v: nat)
    decreases |acts|
  {
    && (v < |s.viewers| ==> !Behind(s, s.viewers[v]))
    && (acts != [] && Enabled(s, acts[0]) ==> NeverBehind(Next(s, acts[0]), acts[1..], v))
  }
}
