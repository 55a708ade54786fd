/**
 When a request that is already settled is still sent to the telescope. The drain
 empties the pending map and leaves the queue and the clients' tasks alone, so the
 answer lies in what was on its way at that moment.
 */
module StaleRequests {
  import opened Prelude
  import opened Json
  import opened Multiplexer
  import opened MultiplexerInvariants
  import opened Conservation
  import opened Progress

  predicate Carries(msg: Json, rid: nat) {
    JsonRpcId(msg) == Some(rid)
  }

  ghost predicate Holds(q: seq<Json>, rid: nat) {
    exists i :: 0 <= i < |q| && Carries(q[i], rid)
  }

  ghost predicate AboutToEnqueue(s: State, rid: nat) {
    exists c :: 0 <= c < |s.clients| && s.clients[c].pc.Enqueueing? && s.clients[c].pc.rid == rid
  }

  /** A client or the heartbeat task still carries the id to the upstream queue, or it is there. */
  ghost predicate OnItsWay(s: State, rid: nat) {
    AboutToEnqueue(s, rid) || Holds(s.upstream, rid) || s.heart == Beating(rid)
  }

  /** Between the two states a message with this id was written to the telescope. */
  ghost predicate Writes(s: State, t: State, rid: nat) {
    s.delivered <= t.delivered && Holds(t.delivered[|s.delivered|..], rid)
  }

  /** Some continuation, in which hooks inject no id of the proxy's kind, writes the request. */
  ghost predicate CanBeWritten(s: State, rid: nat) {
    exists acts, t :: Run(s, acts, t) && (forall a | a in acts :: !Injects(a)) && Writes(s, t, rid)
  }

  // ----- Who can carry an id -----

  predicate StampedPc(pc: Pc) {
    && (pc.Taken? || pc.Enqueueing? ==> Carries(pc.fwd, pc.rid))
    && (pc.Notifying? ==> JsonRpcId(pc.msg).None?)
  }

  /** A client's message carries the id the client took for it, or none. */
  ghost predicate Stamped(s: State) {
    forall c | 0 <= c < |s.clients| :: StampedPc(s.clients[c].pc)
  }

  lemma RequestStamps(s: State, a: Action)
    requires Stamped(s) && Enabled(s, a) && a.Request?
    ensures Stamped(NextSocket(s, a))
  {
    var t := NextSocket(s, a);
    PcAfterRequest(s, a);
    assert StampedPc(t.clients[a.c].pc);
    forall c | 0 <= c < |t.clients| && c != a.c ensures StampedPc(t.clients[c].pc) {
      assert StampedPc(s.clients[c].pc);
    }
  }

  lemma SocketStamps(s: State, a: Action)
    requires Stamped(s) && Enabled(s, a) && IsSocketAction(a) && !a.Request?
    ensures Stamped(NextSocket(s, a))
  {}

  lemma ClientStamps(s: State, a: Action)
    requires Stamped(s) && Enabled(s, a) && IsClientAction(a)
    ensures Stamped(NextClient(s, a))
  {}

  lemma UpstreamStamps(s: State, a: Action)
    requires Stamped(s) && Enabled(s, a) && IsUpstreamAction(a)
    ensures Stamped(NextUpstream(s, a))
  {}

  lemma ReaderStamps(s: State, a: Action)
    requires Stamped(s) && Enabled(s, a) && IsReaderAction(a)
    ensures Stamped(NextReader(s, a))
  {}

  lemma StepStamps(s: State, a: Action)
    requires Stamped(s) && Enabled(s, a)
    ensures Stamped(Next(s, a))
  {
    if a.Request? {
      RequestStamps(s, a);
    } else if IsSocketAction(a) {
      SocketStamps(s, a);
    } else if IsClientAction(a) {
      ClientStamps(s, a);
    } else if IsUpstreamAction(a) {
      UpstreamStamps(s, a);
    } else {
      ReaderStamps(s, a);
    }
  }

  /** The heartbeat on its way has an id of its own. */
  predicate HeartAgrees(s: State, rid: nat, p: Place) {
    s.heart == Beating(rid) ==> p.Heart?
  }

  lemma HeartChanges(s: State, a: Action)
    requires Enabled(s, a) && !a.TakeBeat? && !a.SendBeat?
    ensures Next(s, a).heart == s.heart
  {
    if IsSocketAction(a) {
      assert NextSocket(s, a).heart == s.heart;
    } else if IsClientAction(a) {
      assert NextClient(s, a).heart == s.heart;
    } else if IsUpstreamAction(a) {
      assert NextUpstream(s, a).heart == s.heart;
    } else {
      assert NextReader(s, a).heart == s.heart;
    }
  }

  lemma StepHeart(s: State, a: Action, rid: nat, p: Place)
    requires At(s, rid, p) && HeartAgrees(s, rid, p) && Enabled(s, a)
    ensures HeartAgrees(Next(s, a), rid, Move(s, a, rid, p))
  {
    if !a.TakeBeat? && !a.SendBeat? {
      HeartChanges(s, a);
    }
  }

  /** Only the client that took an id is about to enqueue it. */
  ghost predicate OwnerAgrees(s: State, rid: nat, p: Place) {
    forall c | 0 <= c < |s.clients| && s.clients[c].pc.Enqueueing? && s.clients[c].pc.rid == rid ::
      IsRequest(p) && p.c == c
  }

  lemma ClientEnqueues(s: State, a: Action, c: nat)
    requires Enabled(s, a) && IsClientAction(a) && c < |s.clients| && NextClient(s, a).clients[c].pc.Enqueueing?
    ensures s.clients[c].pc == NextClient(s, a).clients[c].pc
            || (a == Register(c) && s.clients[c].pc.rid == NextClient(s, a).clients[c].pc.rid)
  {
    if a.c != c {
      assert NextClient(s, a).clients[c] == s.clients[c];
    }
  }

  lemma SocketEnqueues(s: State, a: Action, c: nat)
    requires Enabled(s, a) && IsSocketAction(a) && c < |NextSocket(s, a).clients|
    requires NextSocket(s, a).clients[c].pc.Enqueueing?
    ensures c < |s.clients| && s.clients[c].pc == NextSocket(s, a).clients[c].pc
  {
    if a.Request? {
      PcAfterRequest(s, a);
    }
  }

  /** Only registration leads to the upstream queue. */
  lemma OnlyRegisterEnqueues(s: State, a: Action, c: nat)
    requires Enabled(s, a) && c < |Next(s, a).clients| && Next(s, a).clients[c].pc.Enqueueing?
    ensures c < |s.clients|
    ensures s.clients[c].pc == Next(s, a).clients[c].pc
            || (a == Register(c) && s.clients[c].pc.rid == Next(s, a).clients[c].pc.rid)
  {
    if IsSocketAction(a) {
      SocketEnqueues(s, a, c);
    } else if IsClientAction(a) {
      assert |NextClient(s, a).clients| == |s.clients|;
      ClientEnqueues(s, a, c);
    } else if IsUpstreamAction(a) {
      assert NextUpstream(s, a).clients[c].pc == s.clients[c].pc;
    } else {
      assert NextReader(s, a).clients[c].pc == s.clients[c].pc;
    }
  }

  lemma StepOwner(s: State, a: Action, rid: nat, p: Place)
    requires At(s, rid, p) && OwnerAgrees(s, rid, p) && Enabled(s, a)
    ensures OwnerAgrees(Next(s, a), rid, Move(s, a, rid, p))
  {
    var t := Next(s, a);
    if !p.Unused? {
      MoveKeepsRequest(s, a, rid, p);
    }
    forall c | 0 <= c < |t.clients| && t.clients[c].pc.Enqueueing? && t.clients[c].pc.rid == rid
      ensures IsRequest(Move(s, a, rid, p)) && Move(s, a, rid, p).c == c
    {
      OnlyRegisterEnqueues(s, a, c);
      assert ClientAgrees(s.clients[c], rid, p, c);
    }
  }

  /** What the reachable states say of who carries an id. */
  ghost predicate Orderly(s: State, rid: nat, p: Place) {
    Stamped(s) && HeartAgrees(s, rid, p) && OwnerAgrees(s, rid, p)
  }

  lemma StepOrderly(s: State, a: Action, rid: nat, p: Place)
    requires At(s, rid, p) && Orderly(s, rid, p) && Enabled(s, a)
    ensures Orderly(Next(s, a), rid, Move(s, a, rid, p))
  {
    StepStamps(s, a);
    StepHeart(s, a, rid, p);
    StepOwner(s, a, rid, p);
  }

  lemma {:induction false} RunStamps(s: State, acts: seq<Action>, t: State, rid: nat, p: Place) returns (q: Place)
    requires Located(s, rid, p) && Orderly(s, rid, p) && Run(s, acts, t)
    ensures Located(t, rid, q) && Orderly(t, rid, q)
    decreases |acts|
  {
    q := p;
    if acts != [] {
      StepLocates(s, acts[0], rid, p);
      StepOrderly(s, acts[0], rid, p);
      q := RunStamps(Next(s, acts[0]), acts[1..], t, rid, Move(s, acts[0], rid, p));
    }
  }

  // ----- What is not on its way is never written -----

  predicate SilentPc(pc: Pc, rid: nat) {
    && (pc.Notifying? ==> !Carries(pc.msg, rid))
    && (pc.Taken? || pc.Enqueueing? ==> !Carries(pc.fwd, rid))
  }

  ghost predicate SilentClients(s: State, rid: nat) {
    forall c | 0 <= c < |s.clients| :: SilentPc(s.clients[c].pc, rid)
  }

  ghost predicate SilentMail(s: State, rid: nat) {
    s.heart != Beating(rid) && forall i | 0 <= i < |s.upstream| :: !Carries(s.upstream[i], rid)
  }

  /** An id given out that nothing on its way to the telescope carries. */
  ghost predicate Silent(s: State, rid: nat) {
    FIRST_ID <= rid < s.nextId && SilentClients(s, rid) && SilentMail(s, rid)
  }

  lemma RequestSilent(s: State, a: Action, rid: nat)
    requires Silent(s, rid) && Enabled(s, a) && a.Request?
    ensures Silent(NextSocket(s, a), rid)
  {
    var t := NextSocket(s, a);
    PcAfterRequest(s, a);
    assert SilentPc(t.clients[a.c].pc, rid);
    forall c | 0 <= c < |t.clients| && c != a.c ensures SilentPc(t.clients[c].pc, rid) {
      assert SilentPc(s.clients[c].pc, rid);
    }
  }

  lemma SocketSilent(s: State, a: Action, rid: nat)
    requires Silent(s, rid) && Enabled(s, a) && IsSocketAction(a) && !a.Request?
    ensures Silent(NextSocket(s, a), rid)
  {
    var t := NextSocket(s, a);
    forall c | 0 <= c < |t.clients| ensures SilentPc(t.clients[c].pc, rid) {
      assert c < |s.clients| ==> SilentPc(s.clients[c].pc, rid);
    }
  }

  lemma ClientSilent(s: State, a: Action, rid: nat)
    requires Silent(s, rid) && Enabled(s, a) && IsClientAction(a)
    ensures Silent(NextClient(s, a), rid)
  {
    assert SilentPc(s.clients[a.c].pc, rid);
    ClientMailSilent(s, a, rid);
    ClientPcsSilent(s, a, rid);
  }

  lemma ClientMailSilent(s: State, a: Action, rid: nat)
    requires SilentMail(s, rid) && Enabled(s, a) && IsClientAction(a) && SilentPc(s.clients[a.c].pc, rid)
    ensures SilentMail(NextClient(s, a), rid) && NextClient(s, a).nextId == s.nextId
  {}

  lemma ClientPcsSilent(s: State, a: Action, rid: nat)
    requires SilentClients(s, rid) && Enabled(s, a) && IsClientAction(a)
    ensures SilentClients(NextClient(s, a), rid)
  {
    var t := NextClient(s, a);
    assert SilentPc(s.clients[a.c].pc, rid);
    assert SilentPc(t.clients[a.c].pc, rid);
    forall c | 0 <= c < |t.clients| && c != a.c ensures SilentPc(t.clients[c].pc, rid) {
      assert t.clients[c] == s.clients[c] && SilentPc(s.clients[c].pc, rid);
    }
  }

  lemma UpstreamSilent(s: State, a: Action, rid: nat)
    requires Silent(s, rid) && Enabled(s, a) && IsUpstreamAction(a)
    ensures Silent(NextUpstream(s, a), rid)
  {
    var t := NextUpstream(s, a);
    forall c | 0 <= c < |t.clients| ensures SilentPc(t.clients[c].pc, rid) {
      assert SilentPc(s.clients[c].pc, rid);
    }
  }

  lemma ReaderSilent(s: State, a: Action, rid: nat)
    requires Silent(s, rid) && Enabled(s, a) && IsReaderAction(a) && !Injects(a)
    ensures Silent(NextReader(s, a), rid)
  {
    var t := NextReader(s, a);
    forall c | 0 <= c < |t.clients| ensures SilentPc(t.clients[c].pc, rid) {
      assert SilentPc(s.clients[c].pc, rid);
    }
    ReaderMailSilent(s, a, rid);
  }

  lemma ReaderMailSilent(s: State, a: Action, rid: nat)
    requires SilentMail(s, rid) && FIRST_ID <= rid < s.nextId && Enabled(s, a) && IsReaderAction(a) && !Injects(a)
    ensures SilentMail(NextReader(s, a), rid) && rid < NextReader(s, a).nextId
  {}

  lemma StepSilent(s: State, a: Action, rid: nat)
    requires Silent(s, rid) && Enabled(s, a) && !Injects(a)
    ensures Silent(Next(s, a), rid)
  {
    if a.Request? {
      RequestSilent(s, a, rid);
    } else if IsSocketAction(a) {
      SocketSilent(s, a, rid);
    } else if IsClientAction(a) {
      ClientSilent(s, a, rid);
    } else if IsUpstreamAction(a) {
      UpstreamSilent(s, a, rid);
    } else {
      ReaderSilent(s, a, rid);
    }
  }

  /** What one step writes to the telescope. */
  function WrittenBy(s: State, a: Action): seq<Json>
    requires Enabled(s, a)
  {
    if a.Write? then [s.upstream[0]] else []
  }

  lemma StepDelivers(s: State, a: Action)
    requires Enabled(s, a)
    ensures Next(s, a).delivered == s.delivered + WrittenBy(s, a)
  {
    if IsSocketAction(a) {
      assert NextSocket(s, a).delivered == s.delivered;
    } else if IsClientAction(a) {
      assert NextClient(s, a).delivered == s.delivered;
    } else if IsUpstreamAction(a) {
      assert NextUpstream(s, a).delivered == s.delivered + WrittenBy(s, a);
    } else {
      assert NextReader(s, a).delivered == s.delivered;
    }
  }

  lemma HoldsJoin(q: seq<Json>, r: seq<Json>, rid: nat)
    ensures Holds(q + r, rid) <==> Holds(q, rid) || Holds(r, rid)
  {
    if Holds(q, rid) {
      var i :| 0 <= i < |q| && Carries(q[i], rid);
      assert Carries((q + r)[i], rid);
    }
    if Holds(r, rid) {
      var i :| 0 <= i < |r| && Carries(r[i], rid);
      assert Carries((q + r)[|q| + i], rid);
    }
    if Holds(q + r, rid) {
      var i :| 0 <= i < |q + r| && Carries((q + r)[i], rid);
      assert (q + r)[i] == if i < |q| then q[i] else r[i - |q|];
    }
  }

  /** A run writes what its first step and the rest of it write. */
  lemma WritesJoin(s: State, a: Action, t: State, rid: nat)
    requires Enabled(s, a) && Next(s, a).delivered <= t.delivered
    ensures Writes(s, t, rid) <==> Holds(WrittenBy(s, a), rid) || Writes(Next(s, a), t, rid)
  {
    StepDelivers(s, a);
    var n := Next(s, a);
    assert t.delivered[|s.delivered|..] == WrittenBy(s, a) + t.delivered[|n.delivered|..];
    HoldsJoin(WrittenBy(s, a), t.delivered[|n.delivered|..], rid);
  }

  lemma {:induction false} RunDelivers(s: State, acts: seq<Action>, t: State)
    requires Run(s, acts, t)
    ensures s.delivered <= t.delivered
    decreases |acts|
  {
    if acts != [] {
      StepDelivers(s, acts[0]);
      RunDelivers(Next(s, acts[0]), acts[1..], t);
    }
  }

  lemma {:induction false} SilentIsNeverWritten(s: State, acts: seq<Action>, t: State, rid: nat)
    requires Silent(s, rid) && Run(s, acts, t) && forall a | a in acts :: !Injects(a)
    ensures !Writes(s, t, rid)
    decreases |acts|
  {
    if acts == [] {
      assert t.delivered[|s.delivered|..] == [];
    } else {
      var n := Next(s, acts[0]);
      assert acts[0] in acts;
      StepSilent(s, acts[0], rid);
      SilentIsNeverWritten(n, acts[1..], t, rid);
      RunDelivers(n, acts[1..], t);
      WritesJoin(s, acts[0], t, rid);
    }
  }

  /** A closed upstream task writes nothing more. */
  lemma {:induction false} ClosedIsNeverWritten(s: State, acts: seq<Action>, t: State, rid: nat)
    requires s.conn.Closed? && Run(s, acts, t)
    ensures !Writes(s, t, rid)
    decreases |acts|
  {
    if acts == [] {
      assert t.delivered[|s.delivered|..] == [];
    } else {
      var n := Next(s, acts[0]);
      ClosedStays(s, acts[0]);
      ClosedIsNeverWritten(n, acts[1..], t, rid);
      RunDelivers(n, acts[1..], t);
      WritesJoin(s, acts[0], t, rid);
    }
  }

  lemma ClosedStays(s: State, a: Action)
    requires s.conn.Closed? && Enabled(s, a)
    ensures Next(s, a).conn.Closed? && !a.Write?
  {
    if IsSocketAction(a) {
      assert NextSocket(s, a).conn == s.conn;
    } else if IsClientAction(a) {
      assert NextClient(s, a).conn == s.conn;
    } else {
      assert NextReader(s, a).conn == s.conn;
    }
  }

  lemma SettledIsSilent(s: State, rid: nat, p: Place)
    requires At(s, rid, p) && (IsSettled(p) || p.Heart?) && Stamped(s) && !OnItsWay(s, rid)
    ensures Silent(s, rid)
  {
    forall c | 0 <= c < |s.clients| ensures SilentPc(s.clients[c].pc, rid) {
      assert StampedPc(s.clients[c].pc) && ClientAgrees(s.clients[c], rid, p, c);
    }
  }

  // ----- What is on its way can be written -----

  lemma SocketCarriesOn(s: State, a: Action, rid: nat)
    requires OnItsWay(s, rid) && Enabled(s, a) && IsSocketAction(a)
    ensures OnItsWay(NextSocket(s, a), rid)
  {
    var t := NextSocket(s, a);
    if AboutToEnqueue(s, rid) {
      var c :| 0 <= c < |s.clients| && s.clients[c].pc.Enqueueing? && s.clients[c].pc.rid == rid;
      assert t.clients[c].pc == s.clients[c].pc;
    }
  }

  lemma ClientCarriesOn(s: State, a: Action, rid: nat)
    requires OnItsWay(s, rid) && Stamped(s) && Enabled(s, a) && IsClientAction(a) && !s.conn.Closed?
    ensures OnItsWay(NextClient(s, a), rid)
  {
    var t, pc := NextClient(s, a), s.clients[a.c].pc;
    assert StampedPc(pc);
    if a.Enqueue? {
      HoldsJoin(s.upstream, [pc.fwd], rid);
      assert Carries([pc.fwd][0], pc.rid);
    } else if a.SendNotification? {
      HoldsJoin(s.upstream, [pc.msg], rid);
    }
    if AboutToEnqueue(s, rid) {
      var c :| 0 <= c < |s.clients| && s.clients[c].pc.Enqueueing? && s.clients[c].pc.rid == rid;
      assert c != a.c ==> t.clients[c].pc == s.clients[c].pc;
    }
  }

  lemma UpstreamCarriesOn(s: State, a: Action, rid: nat)
    requires OnItsWay(s, rid) && Enabled(s, a) && IsUpstreamAction(a) && IsProgress(a)
    ensures OnItsWay(NextUpstream(s, a), rid) || Holds(WrittenBy(s, a), rid)
  {
    var t := NextUpstream(s, a);
    if a.Write? {
      assert s.upstream == [s.upstream[0]] + t.upstream;
      HoldsJoin([s.upstream[0]], t.upstream, rid);
    }
    if AboutToEnqueue(s, rid) {
      var c :| 0 <= c < |s.clients| && s.clients[c].pc.Enqueueing? && s.clients[c].pc.rid == rid;
      assert t.clients[c].pc == s.clients[c].pc;
    }
  }

  lemma ReaderCarriesOn(s: State, a: Action, rid: nat)
    requires OnItsWay(s, rid) && Enabled(s, a) && IsReaderAction(a) && !s.conn.Closed?
    ensures OnItsWay(NextReader(s, a), rid)
  {
    var t := NextReader(s, a);
    if a.SendBeat? {
      assert Carries([Heartbeat(s.heart.rid)][0], s.heart.rid);
    }
    if |t.upstream| > |s.upstream| {
      assert t.upstream == s.upstream + [t.upstream[|s.upstream|]];
      HoldsJoin(s.upstream, [t.upstream[|s.upstream|]], rid);
    }
    if AboutToEnqueue(s, rid) {
      var c :| 0 <= c < |s.clients| && s.clients[c].pc.Enqueueing? && s.clients[c].pc.rid == rid;
      assert t.clients[c].pc == s.clients[c].pc;
    }
  }

  lemma ProgressCarriesOn(s: State, a: Action, rid: nat)
    requires OnItsWay(s, rid) && Stamped(s) && !s.conn.Closed? && Enabled(s, a) && IsProgress(a)
    ensures OnItsWay(Next(s, a), rid) || Holds(WrittenBy(s, a), rid)
  {
    if IsSocketAction(a) {
      SocketCarriesOn(s, a, rid);
    } else if IsClientAction(a) {
      ClientCarriesOn(s, a, rid);
    } else if IsUpstreamAction(a) {
      UpstreamCarriesOn(s, a, rid);
    } else {
      ReaderCarriesOn(s, a, rid);
    }
  }

  lemma ProgressStaysOpen(s: State, a: Action)
    requires !s.conn.Closed? && Enabled(s, a) && IsProgress(a)
    ensures !Next(s, a).conn.Closed?
  {
    if IsSocketAction(a) {
      assert NextSocket(s, a).conn == s.conn;
    } else if IsClientAction(a) {
      assert NextClient(s, a).conn == s.conn;
    } else if IsUpstreamAction(a) {
      assert !NextUpstream(s, a).conn.Closed?;
    } else {
      assert NextReader(s, a).conn == s.conn;
    }
  }

  /** What the proxy does by itself writes everything on its way. */
  lemma {:induction false} ProgressWrites(s: State, rid: nat) returns (acts: seq<Action>, t: State)
    requires Inv(s) && LazyInv(s) && Stamped(s) && s.clients != [] && !s.conn.Closed? && OnItsWay(s, rid)
    ensures ProgressRun(s, acts, t) && Writes(s, t, rid)
    decreases Load(s)
  {
    var a := SomebodyMovesOn(s);
    var n := Next(s, a);
    ProgressCarriesOn(s, a, rid);
    if Holds(WrittenBy(s, a), rid) {
      acts, t := [a], n;
      assert acts[1..] == [];
    } else {
      StepKeepsInv(s, a);
      StepStaysLazy(s, a);
      StepStamps(s, a);
      SomeClientStays(s, a);
      ProgressStaysOpen(s, a);
      ProgressRelieves(s, a);
      var more;
      more, t := ProgressWrites(n, rid);
      acts := [a] + more;
      assert acts[1..] == more;
    }
    WritesJoin(s, a, t, rid);
  }

  /** Progress steps neither inject nor receive. */
  predicate IsQuiet(a: Action) {
    !Injects(a) && !a.Receive?
  }

  /** What is on its way can be written without any word from the telescope. */
  lemma OnItsWayIsWritten(s: State, rid: nat, p: Place) returns (acts: seq<Action>, t: State)
    requires Reachable(s) && Located(s, rid, p) && !p.Unused? && Stamped(s) && !s.conn.Closed? && OnItsWay(s, rid)
    ensures Run(s, acts, t) && (forall a | a in acts :: IsQuiet(a)) && Writes(s, t, rid)
  {
    ReachableKeepsAll(s);
    assert s.hist != [];
    acts, t := ProgressWrites(s, rid);
    assert forall a | a in acts :: IsProgress(a);
  }

  lemma NotOnItsWayIsNotWritten(s: State, acts: seq<Action>, t: State, rid: nat, p: Place)
    requires At(s, rid, p) && (IsSettled(p) || p.Heart?) && Stamped(s)
    requires Run(s, acts, t) && (forall a | a in acts :: !Injects(a)) && (s.conn.Closed? || !OnItsWay(s, rid))
    ensures !Writes(s, t, rid)
  {
    if s.conn.Closed? {
      ClosedIsNeverWritten(s, acts, t, rid);
    } else {
      SettledIsSilent(s, rid, p);
      SilentIsNeverWritten(s, acts, t, rid);
    }
  }

  lemma ReachableOrderly(s: State, rid: nat, p: Place)
    requires Reachable(s) && Located(s, rid, p)
    ensures Orderly(s, rid, p)
  {
    var acts :| Run(Init(), acts, s);
    StartsOrderly(rid);
    var q := RunStamps(Init(), acts, s, rid, Unused);
    PlaceIsUnique(s, rid, p, q);
  }

  lemma StartsOrderly(rid: nat)
    ensures Located(Init(), rid, Unused) && Orderly(Init(), rid, Unused)
  {}

  /**
   In every reachable state, a request that is already settled (refused, answered,
   drained or withdrawn) can still be written to the telescope if and only if the
   upstream task runs and a client still carries the request to the upstream queue
   or a message with its id is there.
   */
  lemma SettledIsSentExactly(s: State, rid: nat, p: Place)
    requires Reachable(s) && Located(s, rid, p) && IsSettled(p)
    ensures CanBeWritten(s, rid) <==> !s.conn.Closed? && (AboutToEnqueue(s, rid) || Holds(s.upstream, rid))
  {
    ReachableOrderly(s, rid, p);
    if !s.conn.Closed? && OnItsWay(s, rid) {
      var acts, t := OnItsWayIsWritten(s, rid, p);
    } else {
      forall acts, t | Run(s, acts, t) && (forall a | a in acts :: !Injects(a)) ensures !Writes(s, t, rid) {
        NotOnItsWayIsNotWritten(s, acts, t, rid, p);
      }
    }
  }
}
