/**
 No deadlock. The progress steps are those the proxy can take while the clients'
 and the telescope's sockets accept bytes and nothing new arrives. Each of them
 reduces a measure, and one is enabled in every reachable state that is not at
 rest, so every maximal run of them ends with every task unblocked.
 */
module Progress {
  import opened Prelude
  import opened Multiplexer
  import opened MultiplexerInvariants

  predicate IsProgress(a: Action) {
    || IsClientAction(a) || a.Transmit? || a.SendBeat? || a.Hand?
    || a.Connect? || a.BeginDrain? || a.DrainEntry? || a.EndDrain? || a.Write? || a.NoticeDeath?
  }

  /** No task is blocked: the lock is free and every queue has been worked off. */
  predicate AtRest(s: State) {
    && s.lock.Free?
    && (forall c | 0 <= c < |s.clients| ::
          (s.clients[c].pc.Idle? || s.clients[c].pc.Gone?) && s.clients[c].replies == [])
    && (forall k | 0 <= k < |s.readers| :: !s.readers[k].Delivering?)
    && !s.heart.Beating?
    && (s.conn.Closed? || s.clients == [] || (ConnLoad(s) == 0 && s.upstream == []))
  }

  /** Nothing runs before the first client connects. */
  predicate LazyInv(s: State) {
    s.clients == [] ==>
      && s.conn.Down? && s.readers == [] && s.heart.Resting? && !s.handshake
      && s.pending == map[] && s.hist == []
  }

  function PcLoad(pc: Pc): nat {
    match pc
    case Idle => 0
    case Replying(_) => 2
    case Notifying(_) => 2
    case Taken(_, _, _) => 8
    case Refusing(_, _) => 2
    case Enqueueing(_, _) => 2
    case Removing(_) => 1
    case Gone => 0
  }

  function ClientLoad(): Client -> nat {
    (cl: Client) => PcLoad(cl.pc) + |cl.replies|
  }

  function ReaderLoad(): Reader -> nat {
    (r: Reader) => if r.Delivering? then 2 else 0
  }

  function ConnLoad(s: State): nat {
    match s.conn
    case Down => 3
    case Connected => 2
    case Draining => 1
    case Up(k, _) => if k < |s.readers| && s.readers[k].Dead? then 4 else 0
    case Closed => 0
  }

  /** The work outside the client and reader tasks. */
  function SharedLoad(s: State): nat {
    |s.upstream| + 2 * |s.pending| + (if s.heart.Beating? then 2 else 0) + ConnLoad(s)
  }

  function Load(s: State): nat {
    SumBy(s.clients, ClientLoad()) + SumBy(s.readers, ReaderLoad()) + SharedLoad(s)
  }

  lemma ClientRelief(s: State, t: State, c: nat)
    requires c < |s.clients| == |t.clients| && t.clients == s.clients[c := t.clients[c]] && t.readers == s.readers
    requires ClientLoad()(t.clients[c]) + SharedLoad(t) < ClientLoad()(s.clients[c]) + SharedLoad(s)
    ensures Load(t) < Load(s)
  {
    SumUpdate(s.clients, c, t.clients[c], ClientLoad());
  }

  lemma RemoveOne(m: map<nat, Entry>, rid: nat)
    requires rid in m
    ensures |m - {rid}| == |m| - 1
  {
    assert (m - {rid}).Keys == m.Keys - {rid};
  }

  lemma SubmitRelieves(s: State, a: Action)
    requires Enabled(s, a) && (a.Register? || a.Refuse? || a.SendRefusal?)
    ensures Load(NextClient(s, a)) < Load(s)
  {
    var t := NextClient(s, a);
    if a.Register? {
      assert t.pending.Keys == s.pending.Keys + {s.clients[a.c].pc.rid};
      assert |t.pending| <= |s.pending| + 1;
    }
    ClientRelief(s, t, a.c);
  }

  lemma SendRelieves(s: State, a: Action)
    requires Enabled(s, a) && (a.SendReply? || a.SendNotification? || a.Enqueue?)
    ensures Load(NextClient(s, a)) < Load(s)
  {
    ClientRelief(s, NextClient(s, a), a.c);
  }

  lemma WithdrawRelieves(s: State, a: Action)
    requires Enabled(s, a) && a.Withdraw?
    ensures Load(NextClient(s, a)) < Load(s)
  {
    var t, rid := NextClient(s, a), s.clients[a.c].pc.rid;
    WithdrawShrinks(s, a);
    SumUpdate(s.clients, a.c, t.clients[a.c], ClientLoad());
  }

  lemma WithdrawShrinks(s: State, a: Action)
    requires Enabled(s, a) && a.Withdraw?
    ensures SharedLoad(NextClient(s, a)) <= SharedLoad(s)
  {
    if s.clients[a.c].pc.rid in s.pending {
      RemoveOne(s.pending, s.clients[a.c].pc.rid);
    }
  }

  lemma TransmitRelieves(s: State, a: Action)
    requires Enabled(s, a) && a.Transmit?
    ensures Load(NextSocket(s, a)) < Load(s)
  {
    ClientRelief(s, NextSocket(s, a), a.c);
  }

  lemma DrainRelieves(s: State, a: Action)
    requires Enabled(s, a) && a.DrainEntry?
    ensures Load(NextUpstream(s, a)) < Load(s)
  {
    RemoveOne(s.pending, a.rid);
    ClientRelief(s, NextUpstream(s, a), s.pending[a.rid].client);
  }

  lemma UpstreamRelieves(s: State, a: Action)
    requires Enabled(s, a) && IndexInv(s) && (a.Connect? || a.BeginDrain? || a.EndDrain? || a.Write? || a.NoticeDeath?)
    ensures Load(NextUpstream(s, a)) < Load(s)
  {
    if a.EndDrain? {
      SumAppend(s.readers, Waiting, ReaderLoad());
    }
  }

  lemma HandRelieves(s: State, a: Action)
    requires Enabled(s, a) && a.Hand?
    ensures Load(NextReader(s, a)) < Load(s)
  {
    var t, c := NextReader(s, a), s.readers[a.k].entry.client;
    SumUpdate(s.readers, a.k, Waiting, ReaderLoad());
    SumUpdate(s.clients, c, t.clients[c], ClientLoad());
    assert ConnLoad(t) == ConnLoad(s);
  }

  lemma BeatRelieves(s: State, a: Action)
    requires Enabled(s, a) && a.SendBeat?
    ensures Load(NextReader(s, a)) < Load(s)
  {}

  /** Every progress step reduces the load. */
  lemma ProgressRelieves(s: State, a: Action)
    requires Inv(s) && Enabled(s, a) && IsProgress(a)
    ensures Load(Next(s, a)) < Load(s)
  {
    if IsClientAction(a) {
      ClientRelieves(s, a);
    } else if a.Transmit? {
      TransmitRelieves(s, a);
    } else if a.Hand? {
      HandRelieves(s, a);
    } else if a.SendBeat? {
      BeatRelieves(s, a);
    } else if a.DrainEntry? {
      DrainRelieves(s, a);
    } else {
      UpstreamRelieves(s, a);
    }
  }

  lemma ClientRelieves(s: State, a: Action)
    requires Enabled(s, a) && IsClientAction(a)
    ensures Load(NextClient(s, a)) < Load(s)
  {
    if a.Register? || a.Refuse? || a.SendRefusal? {
      SubmitRelieves(s, a);
    } else if a.Withdraw? {
      WithdrawRelieves(s, a);
    } else {
      SendRelieves(s, a);
    }
  }

  /** The upstream task can always move on while it does not wait for the lock. */
  lemma UpstreamMovesOn(s: State) returns (a: Action)
    requires Inv(s) && s.lock.Free? && s.clients != [] && !s.conn.Closed?
    requires s.upstream != [] || ConnLoad(s) != 0
    ensures IsProgress(a) && Enabled(s, a)
  {
    match s.conn
    case Down => a := Connect;
    case Connected => a := BeginDrain;
    case Up(k, _) => a := if s.upstream != [] then Write else NoticeDeath;
    case Draining => assert false;
    case Closed => assert false;
  }

  /** A client whose reply queue is full is waited for by nobody but its own socket. */
  lemma QueueMovesOn(s: State, c: nat, send: Action) returns (a: Action)
    requires c < |s.clients| && IsProgress(send) && (HasRoom(s.clients[c]) ==> Enabled(s, send))
    ensures IsProgress(a) && Enabled(s, a)
  {
    a := if HasRoom(s.clients[c]) then send else Transmit(c);
  }

  lemma ClientMovesOn(s: State, c: nat) returns (a: Action)
    requires Inv(s) && s.lock.Free? && c < |s.clients|
    requires !s.clients[c].pc.Idle? && !s.clients[c].pc.Gone?
    ensures IsProgress(a) && Enabled(s, a)
  {
    match s.clients[c].pc
    case Replying(_) => a := QueueMovesOn(s, c, SendReply(c));
    case Notifying(_) => if UpstreamReady(s) { a := SendNotification(c); } else { a := UpstreamMovesOn(s); }
    case Taken(_, _, _) => a := if |s.pending| < MAX_PENDING then Register(c) else Refuse(c);
    case Refusing(_, _) => a := QueueMovesOn(s, c, SendRefusal(c));
    case Enqueueing(_, _) => if UpstreamReady(s) { a := Enqueue(c); } else { a := UpstreamMovesOn(s); }
    case Removing(_) => a := Withdraw(c);
  }

  /** Whoever holds the lock can move on without it. */
  lemma HolderMovesOn(s: State) returns (a: Action)
    requires Inv(s) && !s.lock.Free?
    ensures IsProgress(a) && Enabled(s, a)
  {
    if s.lock.HeldByClient? {
      a := QueueMovesOn(s, s.lock.client, SendRefusal(s.lock.client));
    } else if s.pending == map[] {
      a := EndDrain;
    } else {
      var rid :| rid in s.pending;
      a := DrainEntry(rid);
    }
  }

  /** In every state that keeps the invariants and is not at rest some progress step is enabled. */
  lemma SomebodyMovesOn(s: State) returns (a: Action)
    requires Inv(s) && LazyInv(s) && !AtRest(s)
    ensures IsProgress(a) && Enabled(s, a)
  {
    if !s.lock.Free? {
      a := HolderMovesOn(s);
    } else if c :| 0 <= c < |s.clients| && !s.clients[c].pc.Idle? && !s.clients[c].pc.Gone? {
      a := ClientMovesOn(s, c);
    } else if c :| 0 <= c < |s.clients| && s.clients[c].replies != [] {
      a := Transmit(c);
    } else if k :| 0 <= k < |s.readers| && s.readers[k].Delivering? {
      a := QueueMovesOn(s, s.readers[k].entry.client, Hand(k));
    } else if s.heart.Beating? && UpstreamReady(s) {
      a := SendBeat;
    } else {
      a := UpstreamMovesOn(s);
    }
  }

  lemma StepStaysLazy(s: State, a: Action)
    requires LazyInv(s) && Enabled(s, a)
    ensures LazyInv(Next(s, a))
  {
    if s.clients == [] {
      assert a.Accept? || a.Inject?;
    } else {
      SomeClientStays(s, a);
    }
  }

  lemma SomeClientStays(s: State, a: Action)
    requires Enabled(s, a) && s.clients != []
    ensures Next(s, a).clients != []
  {
    if IsSocketAction(a) {
      assert NextSocket(s, a).clients != [];
    } else if IsClientAction(a) {
      assert NextClient(s, a).clients != [];
    } else if IsUpstreamAction(a) {
      assert NextUpstream(s, a).clients != [];
    } else {
      assert NextReader(s, a).clients != [];
    }
  }

  /** A run of progress steps. */
  ghost predicate ProgressRun(s: State, acts: seq<Action>, t: State) {
    Run(s, acts, t) && forall i | 0 <= i < |acts| :: IsProgress(acts[i])
  }

  lemma {:induction false} RunKeepsAll(s: State, acts: seq<Action>, t: State)
    requires Inv(s) && LazyInv(s) && Run(s, acts, t)
    ensures Inv(t) && LazyInv(t)
    decreases |acts|
  {
    if acts != [] {
      StepKeepsInv(s, acts[0]);
      StepStaysLazy(s, acts[0]);
      RunKeepsAll(Next(s, acts[0]), acts[1..], t);
    }
  }

  lemma ReachableKeepsAll(s: State)
    requires Reachable(s)
    ensures Inv(s) && LazyInv(s)
  {
    var acts :| Run(Init(), acts, s);
    RunKeepsAll(Init(), acts, s);
  }

  lemma {:induction false} LoadBoundsProgress(s: State, acts: seq<Action>, t: State)
    requires Inv(s) && ProgressRun(s, acts, t)
    ensures |acts| + Load(t) <= Load(s)
    decreases |acts|
  {
    if acts != [] {
      assert IsProgress(acts[0]);
      StepKeepsInv(s, acts[0]);
      ProgressRelieves(s, acts[0]);
      LoadBoundsProgress(Next(s, acts[0]), acts[1..], t);
    }
  }

  /**
   No deadlock: from a reachable state every run of progress steps is at most
   `Load(s)` long, and if none can follow it, no task is blocked any more.
   */
  lemma NoDeadlock(s: State, acts: seq<Action>, t: State)
    requires Reachable(s) && ProgressRun(s, acts, t)
    ensures |acts| <= Load(s)
    ensures AtRest(t) || exists a :: IsProgress(a) && Enabled(t, a)
  {
    ReachableKeepsAll(s);
    LoadBoundsProgress(s, acts, t);
    RunKeepsAll(s, acts, t);
    if !AtRest(t) {
      var a := SomebodyMovesOn(t);
    }
  }
}
