/** Lock discipline, index bounds and capacities, kept by every step. */
module MultiplexerInvariants {
  import opened Multiplexer

  ghost predicate LockInv(s: State) {
    && (s.lock.HeldByClient? ==> s.lock.client < |s.clients| && s.clients[s.lock.client].pc.Refusing?)
    && (forall c :: 0 <= c < |s.clients| && s.clients[c].pc.Refusing? ==> s.lock == HeldByClient(c))
    && (s.lock.HeldByDrain? <==> s.conn.Draining?)
  }

  ghost predicate IndexInv(s: State) {
    && (s.conn.Up? ==> s.conn.reader < |s.readers|)
    && (forall rid :: rid in s.pending ==> s.pending[rid].client < |s.clients|)
    && (forall k :: 0 <= k < |s.readers| && s.readers[k].Delivering? ==> s.readers[k].entry.client < |s.clients|)
  }

  ghost predicate CapacityInv(s: State) {
    && |s.pending| <= MAX_PENDING
    && |s.upstream| <= UPSTREAM_CAPACITY
    && (forall c :: 0 <= c < |s.clients| ==>
         |s.clients[c].replies| <= REPLY_CAPACITY && (s.clients[c].open || s.clients[c].replies == []))
  }

  ghost predicate Inv(s: State) {
    LockInv(s) && IndexInv(s) && CapacityInv(s)
  }

  lemma SocketKeepsLock(s: State, a: Action)
    requires LockInv(s) && Enabled(s, a) && IsSocketAction(a)
    ensures LockInv(NextSocket(s, a))
  {}

  lemma SocketKeepsIndices(s: State, a: Action)
    requires IndexInv(s) && Enabled(s, a) && IsSocketAction(a)
    ensures IndexInv(NextSocket(s, a))
  {}

  lemma SocketKeepsCapacities(s: State, a: Action)
    requires CapacityInv(s) && Enabled(s, a) && IsSocketAction(a)
    ensures CapacityInv(NextSocket(s, a))
  {}

  lemma ClientKeepsLock(s: State, a: Action)
    requires LockInv(s) && Enabled(s, a) && IsClientAction(a)
    ensures LockInv(NextClient(s, a))
  {}

  lemma ClientKeepsIndices(s: State, a: Action)
    requires IndexInv(s) && Enabled(s, a) && IsClientAction(a)
    ensures IndexInv(NextClient(s, a))
  {}

  lemma ClientKeepsCapacities(s: State, a: Action)
    requires CapacityInv(s) && Enabled(s, a) && IsClientAction(a)
    ensures CapacityInv(NextClient(s, a))
  {
    if a.Register? {
      assert NextClient(s, a).pending.Keys == s.pending.Keys + {s.clients[a.c].pc.rid};
    } else {
      SmallerKeys(NextClient(s, a).pending, s.pending);
    }
  }

  lemma UpstreamKeepsLockAndIndices(s: State, a: Action)
    requires LockInv(s) && IndexInv(s) && Enabled(s, a) && IsUpstreamAction(a)
    ensures LockInv(NextUpstream(s, a)) && IndexInv(NextUpstream(s, a))
  {}

  lemma UpstreamKeepsCapacities(s: State, a: Action)
    requires CapacityInv(s) && Enabled(s, a) && IsUpstreamAction(a)
    ensures CapacityInv(NextUpstream(s, a))
  {
    SmallerKeys(NextUpstream(s, a).pending, s.pending);
  }

  lemma ReaderKeepsLock(s: State, a: Action)
    requires LockInv(s) && Enabled(s, a) && IsReaderAction(a)
    ensures LockInv(NextReader(s, a))
  {}

  lemma ReaderKeepsIndices(s: State, a: Action)
    requires IndexInv(s) && Enabled(s, a) && IsReaderAction(a)
    ensures IndexInv(NextReader(s, a))
  {}

  lemma ReaderKeepsCapacities(s: State, a: Action)
    requires CapacityInv(s) && Enabled(s, a) && IsReaderAction(a)
    ensures CapacityInv(NextReader(s, a))
  {
    SmallerKeys(NextReader(s, a).pending, s.pending);
  }

  lemma SmallerKeys<A, B>(m: map<A, B>, n: map<A, B>)
    requires m.Keys <= n.Keys
    ensures |m| <= |n|
  {
    SmallerSet(m.Keys, n.Keys);
    assert |m| == |m.Keys| && |n| == |n.Keys|;
  }

  lemma {:induction false} SmallerSet<A>(m: set<A>, n: set<A>)
    requires m <= n
    ensures |m| <= |n|
  {
    if m != {} {
      var x :| x in m;
      SmallerSet(m - {x}, n - {x});
    }
  }

  lemma StepKeepsInv(s: State, a: Action)
    requires Inv(s) && Enabled(s, a)
    ensures Inv(Next(s, a))
  {
    if IsSocketAction(a) {
      SocketKeepsLock(s, a);
      SocketKeepsIndices(s, a);
      SocketKeepsCapacities(s, a);
    } else if IsClientAction(a) {
      ClientKeepsLock(s, a);
      ClientKeepsIndices(s, a);
      ClientKeepsCapacities(s, a);
    } else if IsUpstreamAction(a) {
      UpstreamKeepsLockAndIndices(s, a);
      UpstreamKeepsCapacities(s, a);
    } else {
      ReaderKeepsLock(s, a);
      ReaderKeepsIndices(s, a);
      ReaderKeepsCapacities(s, a);
    }
  }

  /** Every reachable state keeps the lock discipline and the capacities. */
  lemma {:induction false} RunKeepsInv(s: State, acts: seq<Action>, t: State)
    requires Inv(s) && Run(s, acts, t)
    ensures Inv(t)
    decreases |acts|
  {
    if acts != [] {
      StepKeepsInv(s, acts[0]);
      RunKeepsInv(Next(s, acts[0]), acts[1..], t);
    }
  }

  lemma ReachableInv(s: State)
    requires Reachable(s)
    ensures Inv(s)
  {
    var acts :| Run(Init(), acts, s);
    RunKeepsInv(Init(), acts, s);
  }
}
