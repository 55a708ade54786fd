/**
 Heartbeats and the handshake. A beat starts only once a telescope line has been
 seen, but it is queued with everything else and outlives its connection, so a
 beat of the last connection can be the first thing written on the next one.
 */
module Heartbeats {
  import opened Json
  import opened Multiplexer
  import opened MultiplexerInvariants
  import opened Conservation
  import opened StaleRequests

  /** A beat sits with the heartbeat task or in the upstream queue. */
  ghost predicate BeatWaits(s: State, rid: nat) {
    Located(s, rid, Heart) && (s.heart == Beating(rid) || Holds(s.upstream, rid))
  }

  /** Some run in which the telescope says nothing, so the handshake stays open, writes a beat. */
  ghost predicate BeatsUnasked(s: State) {
    exists acts, t, rid: nat ::
      Run(s, acts, t) && (forall a | a in acts :: IsQuiet(a)) && Located(t, rid, Heart) && Writes(s, t, rid)
  }

  lemma HandshakeStays(s: State, a: Action)
    requires Enabled(s, a) && !s.handshake && !a.Receive?
    ensures !Next(s, a).handshake && !a.TakeBeat?
  {
    if IsSocketAction(a) {
      assert NextSocket(s, a).handshake == s.handshake;
    } else if IsClientAction(a) {
      assert NextClient(s, a).handshake == s.handshake;
    } else if IsUpstreamAction(a) {
      assert !NextUpstream(s, a).handshake;
    } else {
      assert NextReader(s, a).handshake == s.handshake;
    }
  }

  /** Before the handshake no beat starts, and none ends. */
  lemma {:induction false} QuietRunKeepsBeats(s: State, acts: seq<Action>, t: State, rid: nat, p: Place)
    returns (q: Place)
    requires Located(s, rid, p) && !s.handshake && Run(s, acts, t) && forall a | a in acts :: IsQuiet(a)
    ensures Located(t, rid, q) && !t.handshake && (p.Heart? <==> q.Heart?)
    decreases |acts|
  {
    q := p;
    if acts != [] {
      assert acts[0] in acts;
      HandshakeStays(s, acts[0]);
      StepLocates(s, acts[0], rid, p);
      MoveKeepsHeart(s, acts[0], rid, p);
      q := QuietRunKeepsBeats(Next(s, acts[0]), acts[1..], t, rid, Move(s, acts[0], rid, p));
    }
  }

  lemma MoveKeepsHeart(s: State, a: Action, rid: nat, p: Place)
    requires At(s, rid, p) && Enabled(s, a) && !a.TakeBeat?
    ensures p.Heart? <==> Move(s, a, rid, p).Heart?
  {}

  /** The id of a beat is with the heartbeat task or in the queue, never with a client. */
  lemma BeatIsNoRequest(s: State, rid: nat)
    requires Reachable(s) && Located(s, rid, Heart)
    ensures Stamped(s) && (OnItsWay(s, rid) <==> BeatWaits(s, rid))
  {
    ReachableOrderly(s, rid, Heart);
  }

  /**
   In every reachable state before the handshake: a beat can be written before the
   telescope says anything, if and only if the upstream task runs and a beat started
   under an earlier handshake still waits.
   */
  lemma BeatBeforeHandshakeExactly(s: State)
    requires Reachable(s) && !s.handshake
    ensures BeatsUnasked(s) <==> !s.conn.Closed? && exists rid: nat :: BeatWaits(s, rid)
  {
    if !s.conn.Closed? && exists rid: nat :: BeatWaits(s, rid) {
      var rid: nat :| BeatWaits(s, rid);
      BeatIsNoRequest(s, rid);
      var acts, t := OnItsWayIsWritten(s, rid, Heart);
      var q := QuietRunKeepsBeats(s, acts, t, rid, Heart);
    }
    if BeatsUnasked(s) {
      var acts, t, rid: nat :|
        Run(s, acts, t) && (forall a | a in acts :: IsQuiet(a)) && Located(t, rid, Heart) && Writes(s, t, rid);
      var p := ReachableLocates(s, rid);
      var q := QuietRunKeepsBeats(s, acts, t, rid, p);
      PlaceIsUnique(t, rid, Heart, q);
      BeatIsNoRequest(s, rid);
      if s.conn.Closed? || !OnItsWay(s, rid) {
        NotOnItsWayIsNotWritten(s, acts, t, rid, p);
      }
    }
  }

  // ----- One connection -----

  /** A step of a run that stays with one connection, whose reader `k` hears nothing. */
  predicate WithoutWord(a: Action, k: nat) {
    !Injects(a) && !a.Connect? && !(a.Receive? && a.k == k)
  }

  /** Some such run writes a beat. */
  ghost predicate CanBeat(s: State, k: nat) {
    exists acts, t, rid: nat ::
      Run(s, acts, t) && (forall a | a in acts :: WithoutWord(a, k)) && Located(t, rid, Heart) && Writes(s, t, rid)
  }

  lemma CanBeatLater(s: State, a: Action, k: nat)
    requires Enabled(s, a) && WithoutWord(a, k) && CanBeat(Next(s, a), k)
    ensures CanBeat(s, k)
  {
    var n := Next(s, a);
    var acts, t, rid: nat :|
      Run(n, acts, t) && (forall b | b in acts :: WithoutWord(b, k)) && Located(t, rid, Heart) && Writes(n, t, rid);
    RunCons(s, a, acts, t);
    WritesJoin(s, a, t, rid);
    var all := [a] + acts;
    assert Run(s, all, t) && forall b | b in all :: WithoutWord(b, k);
  }

  lemma WriteStaysUp(s: State)
    requires Enabled(s, Write)
    ensures
      var n := Next(s, Write);
      && n.conn.Up? && n.conn.reader == s.conn.reader && n.upstream == s.upstream[1..] && n.heart == s.heart
      && n.handshake == s.handshake && n.readers == s.readers && n.clients == s.clients
  {
    assert Next(s, Write) == NextUpstream(s, Write);
  }

  /** Writing on, the beat in the queue has its turn. */
  lemma {:induction false} QueuedIsWritten(s: State, k: nat, rid: nat)
    requires s.conn.Up? && Located(s, rid, Heart) && Holds(s.upstream, rid)
    ensures CanBeat(s, k)
    decreases |s.upstream|
  {
    var n, head := Next(s, Write), s.upstream[0];
    WriteStaysUp(s);
    StepLocates(s, Write, rid, Heart);
    assert s.upstream == [head] + n.upstream;
    HoldsJoin([head], n.upstream, rid);
    if Holds([head], rid) {
      assert Run(n, [], n);
      RunCons(s, Write, [], n);
      WritesJoin(s, Write, n, rid);
      assert Run(s, [Write] + [], n) && forall a | a in [Write] + [] :: WithoutWord(a, k);
    } else {
      QueuedIsWritten(n, k, rid);
      CanBeatLater(s, Write, k);
    }
  }

  lemma BeatingIsQueued(s: State, k: nat, rid: nat)
    requires s.conn.Up? && s.heart == Beating(rid) && Located(s, rid, Heart) && |s.upstream| < UPSTREAM_CAPACITY
    ensures CanBeat(s, k)
  {
    var n := NextReader(s, SendBeat);
    StepLocates(s, SendBeat, rid, Heart);
    assert Carries([Heartbeat(rid)][0], rid);
    HoldsJoin(s.upstream, [Heartbeat(rid)], rid);
    QueuedIsWritten(n, k, rid);
    CanBeatLater(s, SendBeat, k);
  }

  lemma BeatingIsWritten(s: State, k: nat, rid: nat)
    requires CapacityInv(s) && s.conn.Up? && s.heart == Beating(rid) && Located(s, rid, Heart)
    ensures CanBeat(s, k)
  {
    if |s.upstream| < UPSTREAM_CAPACITY {
      BeatingIsQueued(s, k, rid);
    } else {
      WriteStaysUp(s);
      StepLocates(s, Write, rid, Heart);
      BeatingIsQueued(Next(s, Write), k, rid);
      CanBeatLater(s, Write, k);
    }
  }

  lemma RestingBeats(s: State, k: nat)
    requires Reachable(s) && s.conn.Up? && s.heart.Resting? && s.handshake
    ensures CanBeat(s, k)
  {
    var rid, n := s.nextId, NextReader(s, TakeBeat);
    var p := ReachableLocates(s, rid);
    StepLocates(s, TakeBeat, rid, p);
    ReachableInv(s);
    BeatingIsWritten(n, k, rid);
    CanBeatLater(s, TakeBeat, k);
  }

  // ----- A reader of an earlier connection completes the handshake -----

  lemma ReachableNext(s: State, a: Action)
    requires Reachable(s) && Enabled(s, a)
    ensures Reachable(Next(s, a))
  {
    var acts :| Run(Init(), acts, s);
    RunAppend(Init(), acts, s, a);
  }

  lemma WaitingBeats(s: State, k: nat, j: nat)
    requires Reachable(s) && s.conn.Up? && s.heart.Resting? && j < |s.readers| && j != k && s.readers[j].Waiting?
    ensures CanBeat(s, k)
  {
    var a := Receive(j, Null, true);
    assert NextReader(s, a) == NextReceive(s, j, Null, true);
    ReachableNext(s, a);
    RestingBeats(Next(s, a), k);
    CanBeatLater(s, a, k);
  }

  lemma HandingBeats(s: State, k: nat, j: nat)
    requires Reachable(s) && s.conn.Up? && s.heart.Resting? && j < |s.readers| && j != k && Enabled(s, Hand(j))
    ensures CanBeat(s, k)
  {
    var n := NextReader(s, Hand(j));
    assert n.conn == s.conn && n.heart == s.heart && n.readers[j].Waiting?;
    ReachableNext(s, Hand(j));
    WaitingBeats(n, k, j);
    CanBeatLater(s, Hand(j), k);
  }

  lemma DeliveringBeats(s: State, k: nat, j: nat)
    requires Reachable(s) && s.conn.Up? && s.heart.Resting? && j < |s.readers| && j != k && s.readers[j].Delivering?
    ensures CanBeat(s, k)
  {
    ReachableInv(s);
    var c := s.readers[j].entry.client;
    if HasRoom(s.clients[c]) {
      HandingBeats(s, k, j);
    } else {
      var n := NextSocket(s, Transmit(c));
      assert n.conn == s.conn && n.heart == s.heart && n.readers == s.readers && HasRoom(n.clients[c]);
      ReachableNext(s, Transmit(c));
      HandingBeats(n, k, j);
      CanBeatLater(s, Transmit(c), k);
    }
  }

  /** The heartbeat task ends only with the upstream task. */
  predicate HeartLives(s: State) {
    s.heart.Stopped? ==> s.conn.Closed?
  }

  lemma StepHeartLives(s: State, a: Action)
    requires HeartLives(s) && Enabled(s, a)
    ensures HeartLives(Next(s, a))
  {
    if s.conn.Closed? {
      ClosedStays(s, a);
    } else if !a.TakeBeat? && !a.SendBeat? {
      HeartChanges(s, a);
    }
  }

  lemma {:induction false} RunHeartLives(s: State, acts: seq<Action>, t: State)
    requires HeartLives(s) && Run(s, acts, t)
    ensures HeartLives(t)
    decreases |acts|
  {
    if acts != [] {
      StepHeartLives(s, acts[0]);
      RunHeartLives(Next(s, acts[0]), acts[1..], t);
    }
  }

  // ----- Otherwise nothing is heard at all -----

  /** The connection of reader `k` has heard nothing, and every other reader is dead. */
  ghost predicate Deaf(s: State, k: nat) {
    && !s.handshake
    && (s.conn.Up? || s.conn.Down? || s.conn.Closed?)
    && forall j | 0 <= j < |s.readers| && j != k :: s.readers[j].Dead?
  }

  lemma ReadersChange(s: State, a: Action)
    requires Enabled(s, a) && !IsReaderAction(a) && !a.EndDrain?
    ensures Next(s, a).readers == s.readers
  {
    if IsSocketAction(a) {
      assert NextSocket(s, a).readers == s.readers;
    } else if IsClientAction(a) {
      assert NextClient(s, a).readers == s.readers;
    } else {
      assert NextUpstream(s, a).readers == s.readers;
    }
  }

  lemma ConnChanges(s: State, a: Action)
    requires Enabled(s, a) && !a.Connect? && (s.conn.Up? || s.conn.Down? || s.conn.Closed?)
    ensures Next(s, a).conn.Up? || Next(s, a).conn.Down? || Next(s, a).conn.Closed?
    ensures !a.EndDrain?
  {
    if IsSocketAction(a) {
      assert NextSocket(s, a).conn == s.conn;
    } else if IsClientAction(a) {
      assert NextClient(s, a).conn == s.conn;
    } else if IsUpstreamAction(a) {
      assert var conn := NextUpstream(s, a).conn; conn.Up? || conn.Down? || conn.Closed?;
    } else {
      assert NextReader(s, a).conn == s.conn;
    }
  }

  lemma StepStaysDeaf(s: State, a: Action, k: nat)
    requires Deaf(s, k) && Enabled(s, a) && WithoutWord(a, k)
    ensures Deaf(Next(s, a), k) && IsQuiet(a)
  {
    ConnChanges(s, a);
    HandshakeStays(s, a);
    if !IsReaderAction(a) {
      ReadersChange(s, a);
    } else {
      assert forall j | 0 <= j < |s.readers| && j != k :: NextReader(s, a).readers[j] == s.readers[j];
    }
  }

  lemma {:induction false} DeafRunIsQuiet(s: State, acts: seq<Action>, t: State, k: nat)
    requires Deaf(s, k) && Run(s, acts, t) && forall a | a in acts :: WithoutWord(a, k)
    ensures forall a | a in acts :: IsQuiet(a)
    decreases |acts|
  {
    if acts != [] {
      assert acts[0] in acts;
      StepStaysDeaf(s, acts[0], k);
      DeafRunIsQuiet(Next(s, acts[0]), acts[1..], t, k);
    }
  }

  lemma DeafBeatsOnlyWaiting(s: State, k: nat)
    requires Reachable(s) && Deaf(s, k) && CanBeat(s, k)
    ensures exists rid: nat :: BeatWaits(s, rid)
  {
    var acts, t, rid: nat :|
      Run(s, acts, t) && (forall a | a in acts :: WithoutWord(a, k)) && Located(t, rid, Heart) && Writes(s, t, rid);
    DeafRunIsQuiet(s, acts, t, k);
    assert BeatsUnasked(s);
    BeatBeforeHandshakeExactly(s);
  }

  /** A reader of an earlier connection lives. */
  ghost predicate OldReaderLives(s: State, k: nat) {
    exists j :: 0 <= j < |s.readers| && j != k && !s.readers[j].Dead?
  }

  /**
   In every reachable state with a live connection: a beat can be written on it
   without a further word from the telescope over it, if and only if the handshake
   flag is set already, or a beat of an earlier handshake waits, or a reader of an
   earlier connection still lives and can set the flag.
   */
  lemma BeatWithoutWordExactly(s: State)
    requires Reachable(s) && s.conn.Up?
    ensures CanBeat(s, s.conn.reader) <==>
            s.handshake || (exists rid: nat :: BeatWaits(s, rid)) || OldReaderLives(s, s.conn.reader)
  {
    var k := s.conn.reader;
    if exists rid: nat :: BeatWaits(s, rid) {
      var rid: nat :| BeatWaits(s, rid);
      WaitingBeatIsWritten(s, k, rid);
    } else if s.handshake || OldReaderLives(s, k) {
      HeartRests(s);
      if s.handshake {
        RestingBeats(s, k);
      } else {
        var j :| 0 <= j < |s.readers| && j != k && !s.readers[j].Dead?;
        if s.readers[j].Waiting? {
          WaitingBeats(s, k, j);
        } else {
          DeliveringBeats(s, k, j);
        }
      }
    } else if CanBeat(s, k) {
      DeafBeatsOnlyWaiting(s, k);
    }
  }

  lemma WaitingBeatIsWritten(s: State, k: nat, rid: nat)
    requires Reachable(s) && s.conn.Up? && BeatWaits(s, rid)
    ensures CanBeat(s, k)
  {
    if Holds(s.upstream, rid) {
      QueuedIsWritten(s, k, rid);
    } else {
      ReachableInv(s);
      BeatingIsWritten(s, k, rid);
    }
  }

  /** With a live connection and no beat waiting, the heartbeat task rests. */
  lemma HeartRests(s: State)
    requires Reachable(s) && s.conn.Up? && !exists rid: nat :: BeatWaits(s, rid)
    ensures s.heart.Resting?
  {
    var acts :| Run(Init(), acts, s);
    RunHeartLives(Init(), acts, s);
    if s.heart.Beating? {
      var p := ReachableLocates(s, s.heart.rid);
      ReachableOrderly(s, s.heart.rid, p);
      assert BeatWaits(s, s.heart.rid);
    }
  }

  // ----- A beat that comes first -----

  /** One idle client, nothing pending or written, and the rest as given. */
  function Snapshot(nextId: nat, upstream: seq<Json>, conn: Conn, readers: seq<Reader>, heart: Heart,
                    handshake: bool, broadcasts: seq<Json>, hist: seq<Event>): State
  {
    State(nextId, map[], if conn.Draining? then HeldByDrain else Free, [Client(Idle, true, [], [])], upstream, conn,
          readers, heart, handshake, broadcasts, [], hist)
  }

  /** Connecting with nothing pending. */
  lemma Connects(n: nat, up: seq<Json>, readers: seq<Reader>, shaken: bool, said: seq<Json>, h: seq<Event>)
    returns (acts: seq<Action>)
    ensures Run(Snapshot(n, up, Down, readers, Resting, shaken, said, h), acts,
                Snapshot(n, up, Up(|readers|, []), readers + [Waiting], Resting, false, said, h))
  {
    var s0 := Snapshot(n, up, Down, readers, Resting, shaken, said, h);
    var s1 := Snapshot(n, up, Connected, readers, Resting, false, said, h);
    var s2 := Snapshot(n, up, Draining, readers, Resting, false, said, h);
    var s3 := Snapshot(n, up, Up(|readers|, []), readers + [Waiting], Resting, false, said, h);
    assert NextUpstream(s0, Connect) == s1;
    assert NextUpstream(s1, BeginDrain) == s2;
    assert NextUpstream(s2, EndDrain) == s3;
    assert Run(s3, [], s3);
    RunCons(s2, EndDrain, [], s3);
    RunCons(s1, BeginDrain, [EndDrain] + [], s3);
    RunCons(s0, Connect, [BeginDrain] + ([EndDrain] + []), s3);
    acts := [Connect] + ([BeginDrain] + ([EndDrain] + []));
  }

  /** The telescope says something, which completes the handshake. */
  lemma Speaks(n: nat)
    ensures
      var s := Snapshot(n, [], Up(0, []), [Waiting], Resting, false, [], []);
      && Enabled(s, Receive(0, Null, true))
      && Next(s, Receive(0, Null, true)) == Snapshot(n, [], Up(0, []), [Waiting], Resting, true, [Null], [])
  {
    var s := Snapshot(n, [], Up(0, []), [Waiting], Resting, false, [], []);
    assert NextReceive(s, 0, Null, true) == s.(handshake := true, broadcasts := [] + [Null]);
  }

  /** A beat starts. */
  lemma Starts(n: nat)
    ensures
      var s := Snapshot(n, [], Up(0, []), [Waiting], Resting, true, [Null], []);
      && Enabled(s, TakeBeat)
      && Next(s, TakeBeat) == Snapshot(n + 1, [], Up(0, []), [Waiting], Beating(n), true, [Null], [Beat(n)])
  {
    var s := Snapshot(n, [], Up(0, []), [Waiting], Resting, true, [Null], []);
    assert NextReader(s, TakeBeat).hist == [Beat(n)];
  }

  /** The beat is queued. */
  lemma Queues(n: nat)
    ensures
      var s := Snapshot(n + 1, [], Up(0, []), [Waiting], Beating(n), true, [Null], [Beat(n)]);
      && Enabled(s, SendBeat)
      && Next(s, SendBeat) == Snapshot(n + 1, [Heartbeat(n)], Up(0, []), [Waiting], Resting, true, [Null], [Beat(n)])
  {
    var s := Snapshot(n + 1, [], Up(0, []), [Waiting], Beating(n), true, [Null], [Beat(n)]);
    assert NextReader(s, SendBeat).upstream == [Heartbeat(n)];
  }

  /** The connection dies. */
  lemma Dies(n: nat, up: seq<Json>, said: seq<Json>, h: seq<Event>) returns (acts: seq<Action>)
    ensures Run(Snapshot(n, up, Up(0, []), [Waiting], Resting, true, said, h), acts,
                Snapshot(n, up, Down, [Dead], Resting, true, said, h))
  {
    var s0 := Snapshot(n, up, Up(0, []), [Waiting], Resting, true, said, h);
    var s1 := Snapshot(n, up, Up(0, []), [Dead], Resting, true, said, h);
    var s2 := Snapshot(n, up, Down, [Dead], Resting, true, said, h);
    assert NextReader(s0, ReaderDies(0)) == s1;
    assert NextUpstream(s1, NoticeDeath) == s2;
    assert Run(s2, [], s2);
    RunCons(s1, NoticeDeath, [], s2);
    RunCons(s0, ReaderDies(0), [NoticeDeath] + [], s2);
    acts := [ReaderDies(0)] + ([NoticeDeath] + []);
  }

  /** The telescope speaks, a beat starts and is queued, and the connection dies. */
  lemma BeatThenDeath(n: nat) returns (acts: seq<Action>)
    ensures Run(Snapshot(n, [], Up(0, []), [Waiting], Resting, false, [], []), acts,
                Snapshot(n + 1, [Heartbeat(n)], Down, [Dead], Resting, true, [Null], [Beat(n)]))
  {
    var t := Snapshot(n + 1, [Heartbeat(n)], Down, [Dead], Resting, true, [Null], [Beat(n)]);
    acts := Dies(n + 1, [Heartbeat(n)], [Null], [Beat(n)]);
    Queues(n);
    RunCons(Snapshot(n + 1, [], Up(0, []), [Waiting], Beating(n), true, [Null], [Beat(n)]), SendBeat, acts, t);
    acts := [SendBeat] + acts;
    Starts(n);
    RunCons(Snapshot(n, [], Up(0, []), [Waiting], Resting, true, [Null], []), TakeBeat, acts, t);
    acts := [TakeBeat] + acts;
    Speaks(n);
    RunCons(Snapshot(n, [], Up(0, []), [Waiting], Resting, false, [], []), Receive(0, Null, true), acts, t);
    acts := [Receive(0, Null, true)] + acts;
  }

  lemma FirstConnection() returns (acts: seq<Action>)
    ensures Run(Init(), acts, Snapshot(FIRST_ID, [], Up(0, []), [Waiting], Resting, false, [], []))
  {
    var s := Snapshot(FIRST_ID, [], Down, [], Resting, false, [], []);
    acts := Connects(FIRST_ID, [], [], false, [], []);
    assert [] + [Waiting] == [Waiting];
    assert NextSocket(Init(), Accept) == s;
    RunCons(Init(), Accept, acts, Snapshot(FIRST_ID, [], Up(0, []), [Waiting], Resting, false, [], []));
    acts := [Accept] + acts;
  }

  lemma SecondConnection(n: nat) returns (acts: seq<Action>, t: State)
    ensures Run(Snapshot(n + 1, [Heartbeat(n)], Down, [Dead], Resting, true, [Null], [Beat(n)]), acts, t)
    ensures !t.handshake && t.conn == Up(1, [Heartbeat(n)])
  {
    var s := Snapshot(n + 1, [Heartbeat(n)], Down, [Dead], Resting, true, [Null], [Beat(n)]);
    var u := Snapshot(n + 1, [Heartbeat(n)], Up(1, []), [Dead] + [Waiting], Resting, false, [Null], [Beat(n)]);
    acts := Connects(n + 1, [Heartbeat(n)], [Dead], true, [Null], [Beat(n)]);
    t := NextUpstream(u, Write);
    RunAppend(s, acts, u, Write);
    acts := acts + [Write];
  }

  /** A run in which a beat is the first and only message of a connection that has said nothing. */
  lemma BeatComesFirst()
    ensures exists acts, t ::
      Run(Init(), acts, t) && !t.handshake && t.conn == Up(1, [Heartbeat(FIRST_ID)])
  {
    var a := FirstConnection();
    var b := BeatThenDeath(FIRST_ID);
    var c, t := SecondConnection(FIRST_ID);
    var s1 := Snapshot(FIRST_ID, [], Up(0, []), [Waiting], Resting, false, [], []);
    var s2 := Snapshot(FIRST_ID + 1, [Heartbeat(FIRST_ID)], Down, [Dead], Resting, true, [Null], [Beat(FIRST_ID)]);
    RunJoin(Init(), a, s1, b, s2);
    RunJoin(Init(), a + b, s2, c, t);
  }

  lemma InjectNull(n: nat)
    ensures
      var s := Snapshot(n, [], Up(0, []), [Waiting], Resting, false, [], []);
      && Enabled(s, Inject(Null))
      && Next(s, Inject(Null)) == Snapshot(n, [Null], Up(0, []), [Waiting], Resting, false, [], [])
  {
    var s := Snapshot(n, [], Up(0, []), [Waiting], Resting, false, [], []);
    assert NextReader(s, Inject(Null)).upstream == [Null];
  }

  lemma FailWrite(n: nat)
    ensures
      var s := Snapshot(n, [Null], Up(0, []), [Waiting], Resting, false, [], []);
      && Enabled(s, WriteFails)
      && Next(s, WriteFails) == Snapshot(n, [], Down, [Waiting], Resting, false, [], [])
  {
    var s := Snapshot(n, [Null], Up(0, []), [Waiting], Resting, false, [], []);
    assert NextUpstream(s, WriteFails).upstream == [];
  }

  /** A write fails while its reader lives on. */
  lemma WriteFailure(n: nat) returns (acts: seq<Action>)
    ensures Run(Snapshot(n, [], Up(0, []), [Waiting], Resting, false, [], []), acts,
                Snapshot(n, [], Down, [Waiting], Resting, false, [], []))
  {
    var t := Snapshot(n, [], Down, [Waiting], Resting, false, [], []);
    assert Run(t, [], t);
    FailWrite(n);
    RunCons(Snapshot(n, [Null], Up(0, []), [Waiting], Resting, false, [], []), WriteFails, [], t);
    InjectNull(n);
    RunCons(Snapshot(n, [], Up(0, []), [Waiting], Resting, false, [], []), Inject(Null), [WriteFails] + [], t);
    acts := [Inject(Null)] + ([WriteFails] + []);
  }

  /** The state in which a second connection is up, has heard nothing, and the first reader still lives. */
  lemma SecondConnectionFirstReader()
    ensures Reachable(Snapshot(FIRST_ID, [], Up(1, []), [Waiting, Waiting], Resting, false, [], []))
  {
    var a := FirstConnection();
    var b := WriteFailure(FIRST_ID);
    var c := Connects(FIRST_ID, [], [Waiting], false, [], []);
    var s1 := Snapshot(FIRST_ID, [], Up(0, []), [Waiting], Resting, false, [], []);
    var s2 := Snapshot(FIRST_ID, [], Down, [Waiting], Resting, false, [], []);
    var s3 := Snapshot(FIRST_ID, [], Up(1, []), [Waiting, Waiting], Resting, false, [], []);
    assert [Waiting] + [Waiting] == [Waiting, Waiting];
    RunJoin(Init(), a, s1, b, s2);
    RunJoin(Init(), a + b, s2, c, s3);
  }

  /** There no beat waits, and one is written all the same before the connection says a word. */
  lemma OldReaderCompletesHandshake()
    ensures
      var s := Snapshot(FIRST_ID, [], Up(1, []), [Waiting, Waiting], Resting, false, [], []);
      Reachable(s) && !s.handshake && (forall rid: nat :: !BeatWaits(s, rid)) && CanBeat(s, 1)
  {
    var s := Snapshot(FIRST_ID, [], Up(1, []), [Waiting, Waiting], Resting, false, [], []);
    SecondConnectionFirstReader();
    assert s.readers[0].Waiting?;
    assert OldReaderLives(s, 1);
    BeatWithoutWordExactly(s);
  }
}
