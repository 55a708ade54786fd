/** No pending entry is orphaned: whatever happens, something will still settle it. */
module Orphans {
  import opened Prelude
  import opened Json
  import opened Multiplexer
  import opened MultiplexerInvariants
  import opened Conservation

  /** The request as it is forwarded under the id it is registered under. */
  function Forwarded(m: Json, rid: nat): Json {
    WithId(m, Int(rid))
  }

  /** A client is about to put exactly this message on the upstream queue. */
  ghost predicate AboutToSend(s: State, rid: nat, msg: Json) {
    exists c :: 0 <= c < |s.clients| && s.clients[c].pc == Enqueueing(rid, msg)
  }

  /** On a live connection a pending request is on its way to the telescope or was written to it. */
  ghost predicate Traceable(s: State, rid: nat, p: Place) {
    p.Awaiting? && s.conn.Up? ==>
      var msg := Forwarded(p.m, rid);
      AboutToSend(s, rid, msg) || msg in s.upstream || msg in s.conn.written
  }

  /** Only registration makes an id pending, with the message the client is about to send. */
  lemma OnlyRegisterAwaits(s: State, a: Action, rid: nat, p: Place)
    requires At(s, rid, p) && Enabled(s, a) && Move(s, a, rid, p).Awaiting?
    ensures p.Awaiting? ==> Move(s, a, rid, p) == p
    ensures !p.Awaiting? ==>
              && a.Register? && Move(s, a, rid, p).m == p.m
              && s.clients[a.c].pc.rid == rid && s.clients[a.c].pc.fwd == Forwarded(p.m, rid)
  {
    if a.Register? {
      assert ClientAgrees(s.clients[a.c], rid, p, a.c);
    }
  }

  lemma SocketTraces(s: State, a: Action, rid: nat, p: Place)
    requires p.Awaiting? && Traceable(s, rid, p) && Enabled(s, a) && IsSocketAction(a)
    ensures Traceable(NextSocket(s, a), rid, p)
  {
    var t, msg := NextSocket(s, a), Forwarded(p.m, rid);
    if AboutToSend(s, rid, msg) {
      var c :| 0 <= c < |s.clients| && s.clients[c].pc == Enqueueing(rid, msg);
      assert t.clients[c].pc == s.clients[c].pc;
    }
  }

  lemma ClientTraces(s: State, a: Action, rid: nat, p: Place)
    requires p.Awaiting? && Traceable(s, rid, p) && Enabled(s, a) && IsClientAction(a)
    ensures Traceable(NextClient(s, a), rid, p)
  {
    var t, msg := NextClient(s, a), Forwarded(p.m, rid);
    if AboutToSend(s, rid, msg) {
      var c :| 0 <= c < |s.clients| && s.clients[c].pc == Enqueueing(rid, msg);
      assert c != a.c ==> t.clients[c].pc == s.clients[c].pc;
    }
  }

  lemma UpstreamTraces(s: State, a: Action, rid: nat, p: Place)
    requires p.Awaiting? && Traceable(s, rid, p) && Enabled(s, a) && IsUpstreamAction(a) && !a.EndDrain?
    ensures Traceable(NextUpstream(s, a), rid, p)
  {
    if a.Write? {
      assert s.upstream == [s.upstream[0]] + s.upstream[1..];
      var msg := Forwarded(p.m, rid);
      assert AboutToSend(s, rid, msg) ==> AboutToSend(NextUpstream(s, a), rid, msg);
    }
  }

  lemma ReaderTraces(s: State, a: Action, rid: nat, p: Place)
    requires p.Awaiting? && Traceable(s, rid, p) && Enabled(s, a) && IsReaderAction(a)
    ensures Traceable(NextReader(s, a), rid, p)
  {
    var t, msg := NextReader(s, a), Forwarded(p.m, rid);
    if AboutToSend(s, rid, msg) {
      var c :| 0 <= c < |s.clients| && s.clients[c].pc == Enqueueing(rid, msg);
      assert t.clients[c].pc == s.clients[c].pc;
    }
  }

  lemma StepTraces(s: State, a: Action, rid: nat, p: Place)
    requires At(s, rid, p) && Traceable(s, rid, p) && Enabled(s, a)
    ensures Traceable(Next(s, a), rid, Move(s, a, rid, p))
  {
    var q := Move(s, a, rid, p);
    if q.Awaiting? {
      OnlyRegisterAwaits(s, a, rid, p);
      if !p.Awaiting? {
        assert NextClient(s, a).clients[a.c].pc == Enqueueing(rid, Forwarded(p.m, rid));
      } else if IsSocketAction(a) {
        SocketTraces(s, a, rid, p);
      } else if IsClientAction(a) {
        ClientTraces(s, a, rid, p);
      } else if IsUpstreamAction(a) {
        if !a.EndDrain? {
          UpstreamTraces(s, a, rid, p);
        }
      } else {
        ReaderTraces(s, a, rid, p);
      }
    }
  }

  lemma {:induction false} RunTraces(s: State, acts: seq<Action>, t: State, rid: nat, p: Place) returns (q: Place)
    requires Located(s, rid, p) && Traceable(s, rid, p) && Run(s, acts, t)
    ensures Located(t, rid, q) && Traceable(t, rid, q)
    decreases |acts|
  {
    q := p;
    if acts != [] {
      StepLocates(s, acts[0], rid, p);
      StepTraces(s, acts[0], rid, p);
      q := RunTraces(Next(s, acts[0]), acts[1..], t, rid, Move(s, acts[0], rid, p));
    }
  }

  /**
   In every reachable state the request behind a pending id, rewritten and with
   nothing else changed, is held by a client about to enqueue it, or is in the
   upstream queue, or was written on the current connection, unless there is no
   live connection and the next drain will settle it.
   */
  lemma NoOrphan(s: State, rid: nat) returns (p: Place)
    requires Reachable(s) && rid in s.pending
    ensures Located(s, rid, p) && p.Awaiting?
    ensures
      var msg := Forwarded(p.m, rid);
      || AboutToSend(s, rid, msg)
      || msg in s.upstream
      || (s.conn.Up? && msg in s.conn.written)
      || s.conn.Down? || s.conn.Connected? || s.conn.Draining? || s.conn.Closed?
  {
    var acts :| Run(Init(), acts, s);
    assert Located(Init(), rid, Unused);
    p := RunTraces(Init(), acts, s, rid, Unused);
  }

  lemma DrainStep(s: State, a: Action, rid: nat, p: Place)
    requires At(s, rid, p) && LockInv(s) && p.Awaiting? && s.conn.Draining? && Enabled(s, a)
    ensures Move(s, a, rid, p) == (if a == DrainEntry(rid) then WasDrained(p.c, p.m) else p)
    ensures Next(s, a).conn.Draining?
  {
  }

  /**
   Once a drain has begun, a pending entry either waits in it still or got the
   reconnect error: no answer, withdrawal or later drain can settle it instead.
   */
  lemma {:induction false} DrainSettles(s: State, acts: seq<Action>, t: State, rid: nat, p: Place)
    requires Located(s, rid, p) && Inv(s) && p.Awaiting? && s.conn.Draining? && Run(s, acts, t)
    ensures (t.conn.Draining? && rid in t.pending) || Located(t, rid, WasDrained(p.c, p.m))
    decreases |acts|
  {
    if acts != [] {
      var a := acts[0];
      var next := Next(s, a);
      DrainStep(s, a, rid, p);
      StepLocates(s, a, rid, p);
      StepKeepsInv(s, a);
      if a == DrainEntry(rid) {
        FinishedForGood(next, acts[1..], t, rid, WasDrained(p.c, p.m));
      } else {
        DrainSettles(next, acts[1..], t, rid, p);
      }
    }
  }

  /** The drain never waits: a client is told of it exactly if its queue is open and has room. */
  lemma DrainTellsExactly(s: State, rid: nat)
    requires Inv(s) && Enabled(s, DrainEntry(rid))
    ensures
      var c, t := s.pending[rid].client, Next(s, DrainEntry(rid));
      c < |t.clients|
      && (Told(t.clients[c]) == Told(s.clients[c]) + [Item(FromDrain(rid), ReconnectError(s.pending[rid].originalId))]
          <==> s.clients[c].open && |s.clients[c].replies| < REPLY_CAPACITY)
  {
    var c := s.pending[rid].client;
    StepSends(s, DrainEntry(rid), c);
    var item := Item(FromDrain(rid), ReconnectError(s.pending[rid].originalId));
    assert |Told(s.clients[c])| < |Told(s.clients[c]) + [item]|;
  }

  /** A settled request stays settled in the same way whatever happens later. */
  lemma {:induction false} FinishedForGood(s: State, acts: seq<Action>, t: State, rid: nat, p: Place)
    requires Located(s, rid, p) && Run(s, acts, t)
    requires IsSettled(p)
    ensures Located(t, rid, p)
    decreases |acts|
  {
    if acts != [] {
      FinishedStays(s, acts[0], rid, p);
      StepLocates(s, acts[0], rid, p);
      FinishedForGood(Next(s, acts[0]), acts[1..], t, rid, p);
    }
  }

  /** However late it comes, an answer to a settled request reaches no queue and is broadcast. */
  lemma LateAnswerIsBroadcast(
      s: State, acts: seq<Action>, t: State, rid: nat, p: Place, k: nat, msg: Json, forward: bool)
    requires Located(s, rid, p) && Run(s, acts, t)
    requires IsSettled(p)
    requires Enabled(t, Receive(k, msg, forward)) && JsonRpcId(msg) == Some(rid)
    ensures
      var u := Next(t, Receive(k, msg, forward));
      && u.clients == t.clients && u.pending == t.pending && u.readers == t.readers
      && u.broadcasts == (if forward then t.broadcasts + [msg] else t.broadcasts)
  {
    FinishedForGood(s, acts, t, rid, p);
    assert NextReader(t, Receive(k, msg, forward)) == NextReceive(t, k, msg, forward);
  }
}
