/**
 Conservation and routing over every run. The events recorded for a remapped id
 form its story; in every reachable state the story is one of a handful, and it
 determines the only place where the request can be.
 */
module Conservation {
  import opened Prelude
  import opened Json
  import opened Multiplexer

  /** The events of a history that concern one id, in order. */
  function Story(h: seq<Event>, rid: nat): seq<Event> {
    if h == [] then []
    else Story(h[..|h| - 1], rid) + (if h[|h| - 1].rid == rid then [h[|h| - 1]] else [])
  }

  lemma StoryRecord(h: seq<Event>, e: Event, rid: nat)
    ensures Story(h + [e], rid) == if e.rid == rid then Story(h, rid) + [e] else Story(h, rid)
  {
    assert (h + [e])[..|h|] == h;
  }

  /** Where an id can be; `c` is the client that sent the request `m`. */
  datatype Place =
    | Unused
    | Heart
    | Held(c: nat, m: Json)                       // taken, not registered
    | Awaiting(c: nat, m: Json)                   // in the pending map
    | Carried(k: nat, c: nat, m: Json)            // with reader k, on its way to the client's queue
    | WasRefused(c: nat, m: Json)
    | WasAnswered(c: nat, m: Json)
    | WasDrained(c: nat, m: Json)
    | WasWithdrawn(c: nat, m: Json)

  predicate IsRequest(p: Place) {
    !p.Unused? && !p.Heart?
  }

  predicate IsSettled(p: Place) {
    p.WasRefused? || p.WasAnswered? || p.WasDrained? || p.WasWithdrawn?
  }

  function IdOf(m: Json): Json {
    match GetId(m)
    case Some(id) => id
    case None => Null
  }

  /** The whole story that leads to a place. */
  function StoryOf(rid: nat, p: Place): seq<Event> {
    match p
    case Unused => []
    case Heart => [Beat(rid)]
    case Held(c, m) => [Requested(rid, c, m)]
    case Awaiting(c, m) => [Requested(rid, c, m), Registered(rid, c, IdOf(m))]
    case Carried(_, c, m) => [Requested(rid, c, m), Registered(rid, c, IdOf(m))]
    case WasRefused(c, m) => [Requested(rid, c, m), Refused(rid)]
    case WasAnswered(c, m) => [Requested(rid, c, m), Registered(rid, c, IdOf(m)), Answered(rid)]
    case WasDrained(c, m) => [Requested(rid, c, m), Registered(rid, c, IdOf(m)), Drained(rid)]
    case WasWithdrawn(c, m) => [Requested(rid, c, m), Registered(rid, c, IdOf(m)), Withdrawn(rid)]
  }

  predicate Holding(cl: Client, rid: nat) {
    (cl.pc.Taken? || cl.pc.Refusing?) && cl.pc.rid == rid
  }

  predicate Carrying(r: Reader, rid: nat) {
    r.Delivering? && r.rid == rid
  }

  /** Client `c` holds the id exactly when that is its place, with the right original id. */
  predicate ClientAgrees(cl: Client, rid: nat, p: Place, c: nat) {
    && (Holding(cl, rid) <==> p.Held? && p.c == c)
    && (Holding(cl, rid) ==> cl.pc.originalId == IdOf(p.m))
    && (cl.pc.Taken? && cl.pc.rid == rid ==> cl.pc.fwd == WithId(p.m, Int(rid)))
  }

  predicate PendingAgrees(s: State, rid: nat, p: Place) {
    && (rid in s.pending <==> p.Awaiting?)
    && (p.Awaiting? ==> s.pending[rid] == Entry(p.c, IdOf(p.m)))
  }

  predicate ReaderAgrees(r: Reader, rid: nat, p: Place, k: nat) {
    && (Carrying(r, rid) <==> p.Carried? && p.k == k)
    && (Carrying(r, rid) ==>
          r.entry == Entry(p.c, IdOf(p.m)) && JsonRpcId(r.answer) == Some(rid) && !IsEvent(r.answer))
  }

  /** The id is at `p` and nowhere else. */
  ghost predicate At(s: State, rid: nat, p: Place) {
    && s.nextId >= FIRST_ID
    && (FIRST_ID <= rid < s.nextId <==> !p.Unused?)
    && PendingAgrees(s, rid, p)
    && (p.Held? ==> p.c < |s.clients|)
    && (p.Carried? ==> p.k < |s.readers|)
    && (p != Unused && p != Heart ==> GetId(p.m).Some?)
    && (forall c | 0 <= c < |s.clients| :: ClientAgrees(s.clients[c], rid, p, c))
    && (forall k | 0 <= k < |s.readers| :: ReaderAgrees(s.readers[k], rid, p, k))
  }

  /** How one step moves an id. */
  function Move(s: State, a: Action, rid: nat, p: Place): Place
    requires Enabled(s, a)
  {
    match a
    case Request(c, msg, hook) =>
      if rid == s.nextId && !hook.Block? && !hook.Reply? && GetId(Hooked(msg, hook)).Some?
      then Held(c, Hooked(msg, hook)) else p
    case Register(c) => if s.clients[c].pc.rid == rid && p.Held? then Awaiting(p.c, p.m) else p
    case SendRefusal(c) => if s.clients[c].pc.rid == rid && p.Held? then WasRefused(p.c, p.m) else p
    case Withdraw(c) => if s.clients[c].pc.rid == rid && p.Awaiting? then WasWithdrawn(p.c, p.m) else p
    case DrainEntry(id) => if id == rid && p.Awaiting? then WasDrained(p.c, p.m) else p
    case Receive(k, msg, _) =>
      if !IsEvent(msg) && JsonRpcId(msg) == Some(rid) && p.Awaiting? then Carried(k, p.c, p.m) else p
    case Hand(k) => if s.readers[k].rid == rid && p.Carried? then WasAnswered(p.c, p.m) else p
    case TakeBeat => if rid == s.nextId then Heart else p
    case _ => p
  }

  /** Where a request leaves its client. */
  lemma PcAfterRequest(s: State, a: Action)
    requires Enabled(s, a) && a.Request?
    ensures
      var pc, m := NextSocket(s, a).clients[a.c].pc, Hooked(a.msg, a.hook);
      if a.hook.Block? then pc == Idle
      else if a.hook.Reply? then pc == Replying(a.hook.body)
      else if GetId(m).None? then pc == Notifying(m) && JsonRpcId(m).None?
      else
        && pc == Taken(s.nextId, GetId(m).value, WithId(m, Int(s.nextId)))
        && JsonRpcId(WithId(m, Int(s.nextId))) == Some(s.nextId)
  {}

  lemma RequestMoves(s: State, a: Action, rid: nat, p: Place)
    requires At(s, rid, p) && Enabled(s, a) && a.Request?
    ensures At(NextSocket(s, a), rid, Move(s, a, rid, p))
  {}

  lemma SocketMoves(s: State, a: Action, rid: nat, p: Place)
    requires At(s, rid, p) && Enabled(s, a) && IsSocketAction(a) && !a.Request?
    ensures At(NextSocket(s, a), rid, Move(s, a, rid, p))
  {}

  lemma RegisterMoves(s: State, a: Action, rid: nat, p: Place)
    requires At(s, rid, p) && Enabled(s, a) && a.Register?
    ensures At(NextClient(s, a), rid, Move(s, a, rid, p))
  {}

  lemma WithdrawMoves(s: State, a: Action, rid: nat, p: Place)
    requires At(s, rid, p) && Enabled(s, a) && a.Withdraw?
    ensures At(NextClient(s, a), rid, Move(s, a, rid, p))
  {}

  lemma RefusalMoves(s: State, a: Action, rid: nat, p: Place)
    requires At(s, rid, p) && Enabled(s, a) && (a.Refuse? || a.SendRefusal?)
    ensures At(NextClient(s, a), rid, Move(s, a, rid, p))
  {}

  lemma ClientMoves(s: State, a: Action, rid: nat, p: Place)
    requires At(s, rid, p) && Enabled(s, a) && (a.SendReply? || a.SendNotification? || a.Enqueue?)
    ensures At(NextClient(s, a), rid, Move(s, a, rid, p))
  {
    var t := NextClient(s, a);
    assert t.pending == s.pending && t.readers == s.readers && t.nextId == s.nextId;
    assert !Holding(s.clients[a.c], rid) && !Holding(t.clients[a.c], rid) && !t.clients[a.c].pc.Taken?;
    forall c | 0 <= c < |t.clients| ensures ClientAgrees(t.clients[c], rid, p, c) {
      assert ClientAgrees(s.clients[c], rid, p, c);
    }
  }

  lemma DrainMoves(s: State, a: Action, rid: nat, p: Place)
    requires At(s, rid, p) && Enabled(s, a) && a.DrainEntry?
    ensures At(NextUpstream(s, a), rid, Move(s, a, rid, p))
  {}

  lemma EndDrainMoves(s: State, a: Action, rid: nat, p: Place)
    requires At(s, rid, p) && Enabled(s, a) && a.EndDrain?
    ensures At(NextUpstream(s, a), rid, Move(s, a, rid, p))
  {}

  lemma UpstreamMoves(s: State, a: Action, rid: nat, p: Place)
    requires At(s, rid, p) && Enabled(s, a) && IsUpstreamAction(a) && !a.DrainEntry? && !a.EndDrain?
    ensures At(NextUpstream(s, a), rid, Move(s, a, rid, p))
  {
    var t := NextUpstream(s, a);
    assert t.clients == s.clients && t.pending == s.pending && t.readers == s.readers && t.nextId == s.nextId;
  }

  lemma ReceiveMoves(s: State, a: Action, rid: nat, p: Place)
    requires At(s, rid, p) && Enabled(s, a) && a.Receive?
    ensures At(NextReader(s, a), rid, Move(s, a, rid, p))
  {}

  lemma HandMoves(s: State, a: Action, rid: nat, p: Place)
    requires At(s, rid, p) && Enabled(s, a) && a.Hand?
    ensures At(NextReader(s, a), rid, Move(s, a, rid, p))
  {}

  lemma ReaderMoves(s: State, a: Action, rid: nat, p: Place)
    requires At(s, rid, p) && Enabled(s, a) && IsReaderAction(a) && !a.Receive? && !a.Hand?
    ensures At(NextReader(s, a), rid, Move(s, a, rid, p))
  {}

  lemma StepMoves(s: State, a: Action, rid: nat, p: Place)
    requires At(s, rid, p) && Enabled(s, a)
    ensures At(Next(s, a), rid, Move(s, a, rid, p))
  {
    if a.Request? {
      RequestMoves(s, a, rid, p);
    } else if IsSocketAction(a) {
      SocketMoves(s, a, rid, p);
    } else if a.Register? {
      RegisterMoves(s, a, rid, p);
    } else if a.Withdraw? {
      WithdrawMoves(s, a, rid, p);
    } else if a.Refuse? || a.SendRefusal? {
      RefusalMoves(s, a, rid, p);
    } else if IsClientAction(a) {
      ClientMoves(s, a, rid, p);
    } else if a.DrainEntry? {
      DrainMoves(s, a, rid, p);
    } else if a.EndDrain? {
      EndDrainMoves(s, a, rid, p);
    } else if IsUpstreamAction(a) {
      UpstreamMoves(s, a, rid, p);
    } else if a.Receive? {
      ReceiveMoves(s, a, rid, p);
    } else if a.Hand? {
      HandMoves(s, a, rid, p);
    } else {
      ReaderMoves(s, a, rid, p);
    }
  }

  /** Moving on never changes which request an id stands for. */
  lemma MoveKeepsRequest(s: State, a: Action, rid: nat, p: Place)
    requires At(s, rid, p) && Enabled(s, a) && !p.Unused?
    ensures
      var q := Move(s, a, rid, p);
      (q.Heart? <==> p.Heart?) && (IsRequest(p) ==> IsRequest(q) && q.m == p.m && q.c == p.c)
  {}

  /** The event a step records, if any. */
  function Recorded(s: State, a: Action): Option<Event>
    requires Enabled(s, a)
  {
    match a
    case Request(c, msg, hook) =>
      if !hook.Block? && !hook.Reply? && GetId(Hooked(msg, hook)).Some?
      then Some(Requested(s.nextId, c, Hooked(msg, hook))) else None
    case Register(c) => Some(Registered(s.clients[c].pc.rid, c, s.clients[c].pc.originalId))
    case SendRefusal(c) => Some(Refused(s.clients[c].pc.rid))
    case Withdraw(c) => if s.clients[c].pc.rid in s.pending then Some(Withdrawn(s.clients[c].pc.rid)) else None
    case DrainEntry(id) => Some(Drained(id))
    case Hand(k) => Some(Answered(s.readers[k].rid))
    case TakeBeat => Some(Beat(s.nextId))
    case _ => None
  }

  lemma StepRecords(s: State, a: Action)
    requires Enabled(s, a)
    ensures Next(s, a).hist == match Recorded(s, a) case Some(e) => s.hist + [e] case None => s.hist
  {
    if IsSocketAction(a) {
      SocketRecords(s, a);
    } else if IsClientAction(a) {
      ClientRecords(s, a);
    } else if IsUpstreamAction(a) {
      assert Next(s, a) == NextUpstream(s, a);
    } else {
      assert Next(s, a) == NextReader(s, a);
    }
  }

  lemma SocketRecords(s: State, a: Action)
    requires Enabled(s, a) && IsSocketAction(a)
    ensures NextSocket(s, a).hist == match Recorded(s, a) case Some(e) => s.hist + [e] case None => s.hist
  {}

  lemma ClientRecords(s: State, a: Action)
    requires Enabled(s, a) && IsClientAction(a)
    ensures NextClient(s, a).hist == match Recorded(s, a) case Some(e) => s.hist + [e] case None => s.hist
  {}

  lemma StepTells(s: State, a: Action, rid: nat, p: Place)
    requires At(s, rid, p) && Enabled(s, a)
    ensures StoryOf(rid, Move(s, a, rid, p)) ==
            match Recorded(s, a)
            case Some(e) => if e.rid == rid then StoryOf(rid, p) + [e] else StoryOf(rid, p)
            case None => StoryOf(rid, p)
  {}

  // ----- What clients are told -----

  /** Everything put on a client's queue, whether or not its socket has taken it yet. */
  function Told(cl: Client): seq<Item> {
    cl.received + cl.replies
  }

  predicate About(item: Item, rid: nat) {
    !item.origin.FromHook? && item.origin.rid == rid
  }

  function Lines(items: seq<Item>, rid: nat): seq<Item> {
    if items == [] then []
    else Lines(items[..|items| - 1], rid) + (if About(items[|items| - 1], rid) then [items[|items| - 1]] else [])
  }

  lemma LinesAppend(items: seq<Item>, x: Item, rid: nat)
    ensures Lines(items + [x], rid) == if About(x, rid) then Lines(items, rid) + [x] else Lines(items, rid)
  {
    assert (items + [x])[..|items|] == items;
  }

  lemma {:induction false} LinesPrefix(a: seq<Item>, b: seq<Item>, rid: nat)
    ensures Lines(a, rid) <= Lines(a + b, rid)
  {
    if b == [] {
      assert a + b == a;
    } else {
      var n := |b| - 1;
      assert a + b == (a + b[..n]) + [b[n]];
      LinesPrefix(a, b[..n], rid);
      LinesAppend(a + b[..n], b[n], rid);
    }
  }

  lemma {:induction false} LinesContain(items: seq<Item>, i: nat, rid: nat)
    requires i < |items| && About(items[i], rid)
    ensures items[i] in Lines(items, rid)
  {
    if i < |items| - 1 {
      LinesContain(items[..|items| - 1], i, rid);
    }
  }

  lemma {:induction false} TwoLines(items: seq<Item>, i: nat, j: nat, rid: nat)
    requires i < j < |items| && About(items[i], rid) && About(items[j], rid)
    ensures |Lines(items, rid)| >= 2
  {
    var n := |items| - 1;
    if j < n {
      TwoLines(items[..n], i, j, rid);
    } else {
      LinesContain(items[..n], i, rid);
    }
  }

  /** The line a finished request leaves on its own client's queue. */
  predicate Answers(item: Item, rid: nat, p: Place, c: nat) {
    match item.origin
    case FromHook => false
    case FromRefusal(_) => p.WasRefused? && p.c == c && item.body == OverflowError(IdOf(p.m))
    case FromDrain(_) => p.WasDrained? && p.c == c && item.body == ReconnectError(IdOf(p.m))
    case FromReader(_, answer) =>
      p.WasAnswered? && p.c == c && item.body == WithId(answer, IdOf(p.m))
      && JsonRpcId(answer) == Some(rid) && !IsEvent(answer)
  }

  /** At most one line about `rid`, and only the one its place calls for. */
  predicate TellsOnce(items: seq<Item>, rid: nat, p: Place, c: nat) {
    var lines := Lines(items, rid);
    lines == [] || (|lines| == 1 && Answers(lines[0], rid, p, c))
  }

  /** The line a step puts on a reply queue, if any. */
  function Sent(s: State, a: Action): Option<(nat, Item)>
    requires Enabled(s, a)
  {
    match a
    case SendReply(c) => Some((c, Item(FromHook, s.clients[c].pc.reply)))
    case SendRefusal(c) =>
      Some((c, Item(FromRefusal(s.clients[c].pc.rid), OverflowError(s.clients[c].pc.originalId))))
    case DrainEntry(rid) =>
      Some((s.pending[rid].client, Item(FromDrain(rid), ReconnectError(s.pending[rid].originalId))))
    case Hand(k) =>
      var r := s.readers[k];
      Some((r.entry.client, Item(FromReader(r.rid, r.answer), WithId(r.answer, r.entry.originalId))))
    case _ => None
  }

  /** The steps after which a client's queue is dropped with its receiver. */
  predicate Drops(s: State, a: Action, c: nat) {
    a == Leave(c, true) || a == WriterDies(c) || a == Withdraw(c) || (a == SendNotification(c) && s.conn.Closed?)
  }

  /** What client `c` has been told after a step. */
  function ToldAfter(s: State, a: Action, c: nat): seq<Item>
    requires Enabled(s, a) && c < |s.clients|
  {
    var was := s.clients[c];
    if Sent(s, a).Some? && Sent(s, a).value.0 == c && was.open && |was.replies| < REPLY_CAPACITY
    then Told(was) + [Sent(s, a).value.1]
    else if Drops(s, a, c) then was.received
    else Told(was)
  }

  lemma SocketSends(s: State, a: Action, c: nat)
    requires Enabled(s, a) && c < |s.clients| && IsSocketAction(a) && !a.Request?
    ensures c < |NextSocket(s, a).clients| && Told(NextSocket(s, a).clients[c]) == ToldAfter(s, a, c)
  {
    var was := s.clients[c];
    if a == Transmit(c) {
      assert was.received + [was.replies[0]] + was.replies[1..] == Told(was);
    }
  }

  lemma RequestSends(s: State, a: Action, c: nat)
    requires Enabled(s, a) && c < |s.clients| && a.Request?
    ensures c < |NextSocket(s, a).clients| && Told(NextSocket(s, a).clients[c]) == ToldAfter(s, a, c)
  {}

  lemma ReplySends(s: State, a: Action, c: nat)
    requires Enabled(s, a) && c < |s.clients| && (a.SendReply? || a.SendRefusal?)
    ensures c < |NextClient(s, a).clients| && Told(NextClient(s, a).clients[c]) == ToldAfter(s, a, c)
  {
    var was := s.clients[c];
    assert was.received + (was.replies + [Sent(s, a).value.1]) == Told(was) + [Sent(s, a).value.1];
  }

  lemma ClientSends(s: State, a: Action, c: nat)
    requires Enabled(s, a) && c < |s.clients| && IsClientAction(a) && !a.SendReply? && !a.SendRefusal?
    ensures c < |NextClient(s, a).clients| && Told(NextClient(s, a).clients[c]) == ToldAfter(s, a, c)
  {
    assert Sent(s, a) == None;
    if a.c != c {
      assert NextClient(s, a).clients[c] == s.clients[c];
    } else if Drops(s, a, c) {
      assert NextClient(s, a).clients[c] == Closing(s.clients[c]).(pc := Gone);
    } else {
      assert NextClient(s, a).clients[c].replies == s.clients[c].replies;
    }
  }

  lemma UpstreamSends(s: State, a: Action, c: nat)
    requires Enabled(s, a) && c < |s.clients| && IsUpstreamAction(a)
    ensures c < |NextUpstream(s, a).clients| && Told(NextUpstream(s, a).clients[c]) == ToldAfter(s, a, c)
  {
    if a.DrainEntry? {
      var was := s.clients[c];
      assert was.received + (was.replies + [Sent(s, a).value.1]) == Told(was) + [Sent(s, a).value.1];
    } else {
      assert NextUpstream(s, a).clients == s.clients;
    }
  }

  lemma ReaderSends(s: State, a: Action, c: nat)
    requires Enabled(s, a) && c < |s.clients| && IsReaderAction(a)
    ensures c < |NextReader(s, a).clients| && Told(NextReader(s, a).clients[c]) == ToldAfter(s, a, c)
  {
    if a.Hand? {
      var was := s.clients[c];
      assert was.received + (was.replies + [Sent(s, a).value.1]) == Told(was) + [Sent(s, a).value.1];
    } else {
      assert NextReader(s, a).clients == s.clients;
    }
  }

  lemma StepSends(s: State, a: Action, c: nat)
    requires Enabled(s, a) && c < |s.clients|
    ensures c < |Next(s, a).clients| && Told(Next(s, a).clients[c]) == ToldAfter(s, a, c)
  {
    if a.Request? {
      RequestSends(s, a, c);
    } else if IsSocketAction(a) {
      SocketSends(s, a, c);
    } else if a.SendReply? || a.SendRefusal? {
      ReplySends(s, a, c);
    } else if IsClientAction(a) {
      ClientSends(s, a, c);
    } else if IsUpstreamAction(a) {
      UpstreamSends(s, a, c);
    } else {
      ReaderSends(s, a, c);
    }
  }

  lemma SentIsOwed(s: State, a: Action, rid: nat, p: Place)
    requires At(s, rid, p) && Enabled(s, a) && Sent(s, a).Some? && About(Sent(s, a).value.1, rid)
    ensures p.Held? || p.Awaiting? || p.Carried?
    ensures Answers(Sent(s, a).value.1, rid, Move(s, a, rid, p), Sent(s, a).value.0)
  {
    if a.SendRefusal? {
      assert ClientAgrees(s.clients[a.c], rid, p, a.c);
    } else if a.Hand? {
      assert ReaderAgrees(s.readers[a.k], rid, p, a.k);
    }
  }

  /** A finished request stays where it is. */
  lemma FinishedStays(s: State, a: Action, rid: nat, p: Place)
    requires At(s, rid, p) && Enabled(s, a)
    requires IsSettled(p)
    ensures Move(s, a, rid, p) == p
  {}

  lemma StepTellsOnce(s: State, a: Action, rid: nat, p: Place, c: nat)
    requires At(s, rid, p) && Enabled(s, a) && c < |s.clients| && TellsOnce(Told(s.clients[c]), rid, p, c)
    ensures c < |Next(s, a).clients| && TellsOnce(Told(Next(s, a).clients[c]), rid, Move(s, a, rid, p), c)
  {
    StepSends(s, a, c);
    var was, q := s.clients[c], Move(s, a, rid, p);
    if Lines(Told(was), rid) != [] {
      FinishedStays(s, a, rid, p);
    }
    LinesPrefix(was.received, was.replies, rid);
    if Sent(s, a).Some? {
      LinesAppend(Told(was), Sent(s, a).value.1, rid);
      if About(Sent(s, a).value.1, rid) {
        SentIsOwed(s, a, rid, p);
      }
    }
  }

  // ----- The theorems -----

  /** Story, place and queues agree on one id. */
  ghost predicate Located(s: State, rid: nat, p: Place) {
    && At(s, rid, p)
    && Story(s.hist, rid) == StoryOf(rid, p)
    && (forall c | 0 <= c < |s.clients| :: TellsOnce(Told(s.clients[c]), rid, p, c))
  }

  lemma StepLocates(s: State, a: Action, rid: nat, p: Place)
    requires Located(s, rid, p) && Enabled(s, a)
    ensures Located(Next(s, a), rid, Move(s, a, rid, p))
  {
    var t, q := Next(s, a), Move(s, a, rid, p);
    StepMoves(s, a, rid, p);
    StepRecords(s, a);
    StepTells(s, a, rid, p);
    if Recorded(s, a).Some? {
      StoryRecord(s.hist, Recorded(s, a).value, rid);
    }
    forall c | 0 <= c < |t.clients| ensures TellsOnce(Told(t.clients[c]), rid, q, c) {
      if c < |s.clients| {
        StepTellsOnce(s, a, rid, p, c);
      } else {
        NewcomerUntold(s, a, c);
      }
    }
  }

  lemma NewcomerUntold(s: State, a: Action, c: nat)
    requires Enabled(s, a) && |s.clients| <= c < |Next(s, a).clients|
    ensures Told(Next(s, a).clients[c]) == []
  {
    if !a.Accept? {
      NoNewcomer(s, a);
    }
  }

  lemma NoNewcomer(s: State, a: Action)
    requires Enabled(s, a) && !a.Accept?
    ensures |Next(s, a).clients| == |s.clients|
  {
    if IsClientAction(a) {
      assert |NextClient(s, a).clients| == |s.clients|;
    } else if IsUpstreamAction(a) {
      assert |NextUpstream(s, a).clients| == |s.clients|;
    } else if IsReaderAction(a) {
      assert |NextReader(s, a).clients| == |s.clients|;
    }
  }

  lemma {:induction false} RunLocates(s: State, acts: seq<Action>, t: State, rid: nat, p: Place) returns (q: Place)
    requires Located(s, rid, p) && Run(s, acts, t)
    ensures Located(t, rid, q)
    decreases |acts|
  {
    q := p;
    if acts != [] {
      StepLocates(s, acts[0], rid, p);
      q := RunLocates(Next(s, acts[0]), acts[1..], t, rid, Move(s, acts[0], rid, p));
    }
  }

  lemma ReachableLocates(s: State, rid: nat) returns (p: Place)
    requires Reachable(s)
    ensures Located(s, rid, p)
  {
    var acts :| Run(Init(), acts, s);
    assert Located(Init(), rid, Unused);
    p := RunLocates(Init(), acts, s, rid, Unused);
  }

  lemma PlaceIsUnique(s: State, rid: nat, p: Place, q: Place)
    requires At(s, rid, p) && At(s, rid, q) && StoryOf(rid, p) == StoryOf(rid, q)
    ensures p == q
  {
    if p.Awaiting? || q.Awaiting? {
      assert p.Awaiting? <==> q.Awaiting?;
    }
    var x, y := StoryOf(rid, p), StoryOf(rid, q);
    if p.Carried? {
      assert ReaderAgrees(s.readers[p.k], rid, p, p.k) && ReaderAgrees(s.readers[p.k], rid, q, p.k);
    }
    assert |x| == |y| && forall i | 0 <= i < |x| :: x[i] == y[i];
  }

  /**
   Conservation: in every reachable state every id is in exactly one place, its
   recorded story is the one that leads there, and no client queue ever got a
   second line about it or a line about another client's request.
   */
  lemma ExactlyOnePlace(s: State, rid: nat)
    requires Reachable(s)
    ensures exists p :: Located(s, rid, p) && forall q :: Located(s, rid, q) ==> q == p
  {
    var p := ReachableLocates(s, rid);
    forall q | Located(s, rid, q) ensures q == p {
      PlaceIsUnique(s, rid, q, p);
    }
  }

  /** A line about an id is the one its place calls for. */
  lemma LineAnswers(items: seq<Item>, i: nat, rid: nat, p: Place, c: nat)
    requires i < |items| && About(items[i], rid) && TellsOnce(items, rid, p, c)
    ensures Answers(items[i], rid, p, c)
  {
    LinesContain(items, i, rid);
  }

  /** No request is ever answered twice, on one queue or on two. */
  lemma NoSecondReply(s: State, rid: nat, c: nat, i: nat, d: nat, j: nat)
    requires Reachable(s) && c < |s.clients| && d < |s.clients|
    requires i < |Told(s.clients[c])| && About(Told(s.clients[c])[i], rid)
    requires j < |Told(s.clients[d])| && About(Told(s.clients[d])[j], rid)
    ensures c == d && i == j
  {
    var p := ReachableLocates(s, rid);
    LineAnswers(Told(s.clients[c]), i, rid, p, c);
    LineAnswers(Told(s.clients[d]), j, rid, p, d);
    if c == d && i < j {
      TwoLines(Told(s.clients[c]), i, j, rid);
    } else if c == d && j < i {
      TwoLines(Told(s.clients[c]), j, i, rid);
    }
  }

  // ----- Answers and refusals are told -----

  predicate IsReplied(p: Place) {
    p.WasAnswered? || p.WasRefused?
  }

  /** A client that is still there has the line about its answered or refused request. */
  ghost predicate Heard(s: State, rid: nat, p: Place) {
    IsReplied(p) ==> p.c < |s.clients| && (s.clients[p.c].open ==> Lines(Told(s.clients[p.c]), rid) != [])
  }

  lemma SocketWasOpen(s: State, a: Action, c: nat)
    requires Enabled(s, a) && c < |s.clients| && IsSocketAction(a)
    ensures c < |NextSocket(s, a).clients|
    ensures NextSocket(s, a).clients[c].open ==> s.clients[c].open && !Drops(s, a, c)
  {
    if a.Accept? || a.c != c {
      assert NextSocket(s, a).clients[c] == s.clients[c];
    }
  }

  lemma ClientWasOpen(s: State, a: Action, c: nat)
    requires Enabled(s, a) && c < |s.clients| && IsClientAction(a)
    ensures c < |NextClient(s, a).clients|
    ensures NextClient(s, a).clients[c].open ==> s.clients[c].open && !Drops(s, a, c)
  {
    if a.c != c {
      assert NextClient(s, a).clients[c] == s.clients[c];
    }
  }

  /** A queue that is open was open before, and was not dropped in between. */
  lemma OpenWasOpen(s: State, a: Action, c: nat)
    requires Enabled(s, a) && c < |s.clients|
    ensures c < |Next(s, a).clients|
    ensures Next(s, a).clients[c].open ==> s.clients[c].open && !Drops(s, a, c)
  {
    if IsSocketAction(a) {
      SocketWasOpen(s, a, c);
    } else if IsClientAction(a) {
      ClientWasOpen(s, a, c);
    } else if IsUpstreamAction(a) {
      assert NextUpstream(s, a).clients[c].open == s.clients[c].open;
    } else {
      assert NextReader(s, a).clients[c].open == s.clients[c].open;
    }
  }

  /** The step that answers or refuses a request puts the line on its client's queue, which has room. */
  lemma ReplySent(s: State, a: Action, rid: nat, p: Place)
    requires At(s, rid, p) && Enabled(s, a) && !IsReplied(p) && IsReplied(Move(s, a, rid, p))
    ensures Sent(s, a).Some? && About(Sent(s, a).value.1, rid) && Sent(s, a).value.0 == Move(s, a, rid, p).c
    ensures p.c < |s.clients| && HasRoom(s.clients[p.c]) && Move(s, a, rid, p).c == p.c
  {
    if a.SendRefusal? {
      assert ClientAgrees(s.clients[a.c], rid, p, a.c);
    } else {
      assert ReaderAgrees(s.readers[a.k], rid, p, a.k);
    }
  }

  lemma StepHeard(s: State, a: Action, rid: nat, p: Place)
    requires At(s, rid, p) && Heard(s, rid, p) && Enabled(s, a)
    ensures Heard(Next(s, a), rid, Move(s, a, rid, p))
  {
    if IsReplied(Move(s, a, rid, p)) {
      if IsReplied(p) {
        FinishedStays(s, a, rid, p);
      } else {
        ReplySent(s, a, rid, p);
      }
      StepSends(s, a, p.c);
      OpenWasOpen(s, a, p.c);
      if Sent(s, a).Some? {
        LinesAppend(Told(s.clients[p.c]), Sent(s, a).value.1, rid);
      }
    }
  }

  lemma {:induction false} RunHeard(s: State, acts: seq<Action>, t: State, rid: nat, p: Place) returns (q: Place)
    requires Located(s, rid, p) && Heard(s, rid, p) && Run(s, acts, t)
    ensures Located(t, rid, q) && Heard(t, rid, q)
    decreases |acts|
  {
    q := p;
    if acts != [] {
      StepLocates(s, acts[0], rid, p);
      StepHeard(s, acts[0], rid, p);
      q := RunHeard(Next(s, acts[0]), acts[1..], t, rid, Move(s, acts[0], rid, p));
    }
  }

  /**
   The other half of conservation: in every reachable state, a client that is still
   there and whose request was answered or refused was told exactly one line about
   it, and the right one. No full queue drops it.
   */
  lemma ReplyIsTold(s: State, rid: nat, p: Place)
    requires Reachable(s) && Located(s, rid, p) && IsReplied(p)
    ensures p.c < |s.clients|
    ensures s.clients[p.c].open ==>
              var lines := Lines(Told(s.clients[p.c]), rid);
              |lines| == 1 && Answers(lines[0], rid, p, p.c)
  {
    var acts :| Run(Init(), acts, s);
    assert Located(Init(), rid, Unused);
    var q := RunHeard(Init(), acts, s, rid, Unused);
    PlaceIsUnique(s, rid, p, q);
    assert TellsOnce(Told(s.clients[p.c]), rid, p, p.c);
  }

  /**
   Routing safety against an arbitrary telescope: a line the reader put on the
   queue of client `c` carries the telescope's fields under the id of a request
   that `c` itself sent and that was registered under the id the telescope used.
   */
  lemma RoutingSafety(s: State, c: nat, i: nat) returns (m: Json)
    requires Reachable(s) && c < |s.clients| && i < |Told(s.clients[c])|
    requires Told(s.clients[c])[i].origin.FromReader?
    ensures
      var item := Told(s.clients[c])[i];
      var rid, answer := item.origin.rid, item.origin.answer;
      && Story(s.hist, rid) == [Requested(rid, c, m), Registered(rid, c, IdOf(m)), Answered(rid)]
      && JsonRpcId(answer) == Some(rid) && !IsEvent(answer)
      && GetId(m).Some? && GetId(item.body) == GetId(m)
      && EraseId(item.body) == EraseId(answer)
  {
    var item := Told(s.clients[c])[i];
    var rid := item.origin.rid;
    var p := ReachableLocates(s, rid);
    LineAnswers(Told(s.clients[c]), i, rid, p, c);
    m := p.m;
    RestoredAnswer(item.origin.answer, rid, m);
  }

  lemma RestoredAnswer(answer: Json, rid: nat, m: Json)
    requires JsonRpcId(answer) == Some(rid) && GetId(m).Some?
    ensures GetId(WithId(answer, IdOf(m))) == GetId(m) && EraseId(WithId(answer, IdOf(m))) == EraseId(answer)
  {
    EraseIgnoresId(answer, IdOf(m));
  }

  /**
   A telescope line with an event key, an id the proxy never gave out, or the id
   of a heartbeat reaches no client queue: no entry moves and no reader picks it up.
   It is broadcast, unless it is of a kind that passes a hook and the hook holds it back.
   */
  lemma NeverTargeted(s: State, k: nat, msg: Json, forward: bool)
    requires Reachable(s) && Enabled(s, Receive(k, msg, forward))
    requires
      || IsEvent(msg)
      || JsonRpcId(msg).None?
      || JsonRpcId(msg).value < FIRST_ID
      || JsonRpcId(msg).value >= s.nextId
      || Story(s.hist, JsonRpcId(msg).value) == [Beat(JsonRpcId(msg).value)]
    ensures
      var t := Next(s, Receive(k, msg, forward));
      && t.pending == s.pending && t.readers == s.readers && t.clients == s.clients
      && t.broadcasts == (if forward || !Hookable(msg) then s.broadcasts + [msg] else s.broadcasts)
  {
    if JsonRpcId(msg).Some? && !IsEvent(msg) {
      var p := ReachableLocates(s, JsonRpcId(msg).value);
    }
  }
}
