/**
 The control proxy as a state machine: many client tasks, one heartbeat task,
 one upstream writer and any number of upstream readers (a reader can outlive
 the connection it was started for) interleave over a shared pending map.

 Every `Action` is one indivisible step of one task. `Enabled` says when the
 task can take it (a full queue or a held lock disables it) and `Next` gives
 the state after it. Telescope messages, hook decisions, disconnections and
 injected messages are arguments of actions, so they are arbitrary.
 */
module Multiplexer {
  import opened Prelude
  import opened Json

  const MAX_PENDING := 1_024
  const REPLY_CAPACITY := 64
  const UPSTREAM_CAPACITY := 256
  const FIRST_ID: nat := 100_000

  /** What the pending map remembers of a request. */
  datatype Entry = Entry(client: nat, originalId: Json)

  /** Where a client's read loop stands. */
  datatype Pc =
    | Idle                                            // reading the next line
    | Replying(reply: Json)                           // awaits its own queue, hook reply
    | Notifying(msg: Json)                            // awaits the upstream queue, no id
    | Taken(rid: nat, originalId: Json, fwd: Json)    // id taken, lock not yet acquired
    | Refusing(rid: nat, originalId: Json)            // awaits its own queue, holds the lock
    | Enqueueing(rid: nat, fwd: Json)                 // registered, awaits the upstream queue
    | Removing(rid: nat)                              // send failed, awaits the lock
    | Gone                                            // read loop left

  /** Who put a line on a reply queue, and for which remapped id. */
  datatype Origin =
    | FromHook
    | FromRefusal(rid: nat)
    | FromDrain(rid: nat)
    | FromReader(rid: nat, answer: Json)

  datatype Item = Item(origin: Origin, body: Json)

  /** `open` says that the writer task still owns the receiving end of `replies`. */
  datatype Client = Client(pc: Pc, open: bool, replies: seq<Item>, received: seq<Item>)

  datatype Reader = Waiting | Delivering(rid: nat, entry: Entry, answer: Json) | Dead

  datatype Conn =
    | Down
    | Connected                                 // socket open, drain lock not yet acquired
    | Draining                                  // holds the lock
    | Up(reader: nat, written: seq<Json>)       // write loop
    | Closed                                    // upstream task gone, channel closed

  datatype Lock = Free | HeldByClient(client: nat) | HeldByDrain

  datatype Heart = Resting | Beating(rid: nat) | Stopped

  datatype HookAction = Forward | Block | Modify(parsed: Option<Json>) | Reply(body: Json)

  /** The history of a run: what happened to which remapped id. */
  datatype Event =
    | Requested(rid: nat, client: nat, request: Json)
    | Registered(rid: nat, client: nat, originalId: Json)
    | Refused(rid: nat)
    | Answered(rid: nat)
    | Drained(rid: nat)
    | Withdrawn(rid: nat)
    | Beat(rid: nat)

  datatype State = State(
    nextId: nat,
    pending: map<nat, Entry>,
    lock: Lock,
    clients: seq<Client>,
    upstream: seq<Json>,
    conn: Conn,
    readers: seq<Reader>,
    heart: Heart,
    handshake: bool,
    broadcasts: seq<Json>,
    delivered: seq<Json>,       // everything ever written to the telescope
    hist: seq<Event>)

  datatype Action =
    | Accept
    | Request(c: nat, msg: Json, hook: HookAction)
    | SendReply(c: nat)
    | SendNotification(c: nat)
    | Register(c: nat)
    | Refuse(c: nat)
    | SendRefusal(c: nat)
    | Enqueue(c: nat)
    | Withdraw(c: nat)
    | Leave(c: nat, abort: bool)
    | WriterDies(c: nat)
    | Transmit(c: nat)
    | TakeBeat
    | SendBeat
    | Inject(msg: Json)
    | Connect
    | BeginDrain
    | DrainEntry(rid: nat)
    | EndDrain
    | Write
    | WriteFails
    | ReaderDies(k: nat)
    | NoticeDeath
    | Receive(k: nat, msg: Json, forward: bool)
    | Hand(k: nat)
    | CloseUpstream

  function Init(): State {
    State(FIRST_ID, map[], Free, [], [], Down, [], Resting, false, [], [], [])
  }

  function OverflowError(id: Json): Json {
    Obj(map["id" := id, "code" := Int(-32000), "error" := Str("too many pending requests")])
  }

  function ReconnectError(id: Json): Json {
    Obj(map["id" := id, "code" := Int(-1), "error" := Str("telescope reconnecting")])
  }

  /** An awaited send on a reply queue completes: at once if the receiver is gone. */
  predicate HasRoom(cl: Client) {
    !cl.open || |cl.replies| < REPLY_CAPACITY
  }

  function Put(cl: Client, item: Item): Client {
    if cl.open then cl.(replies := cl.replies + [item]) else cl
  }

  /** `try_send`: a full queue drops the line. */
  function TryPut(cl: Client, item: Item): Client {
    if |cl.replies| < REPLY_CAPACITY then Put(cl, item) else cl
  }

  function Closing(cl: Client): Client {
    cl.(open := false, replies := [])
  }

  predicate UpstreamReady(s: State) {
    s.conn.Closed? || |s.upstream| < UPSTREAM_CAPACITY
  }

  /** How the reader classifies a telescope line, given the pending map. */
  datatype Route = Broadcast | Target(rid: nat, entry: Entry)

  function RouteOf(pending: map<nat, Entry>, msg: Json): Route {
    if IsEvent(msg) then Broadcast
    else match JsonRpcId(msg)
         case None => Broadcast
         case Some(rid) => if rid in pending then Target(rid, pending[rid]) else Broadcast
  }

  /** Only a message with a usable id and no event key consults the pending map. */
  predicate NeedsLock(msg: Json) {
    !IsEvent(msg) && JsonRpcId(msg).Some?
  }

  /** A hook can suppress events and unmatched responses; nothing else passes one. */
  predicate Hookable(msg: Json) {
    IsEvent(msg) || JsonRpcId(msg).Some?
  }

  predicate Enabled(s: State, a: Action) {
    match a
    case Accept => true
    case Request(c, _, _) => c < |s.clients| && s.clients[c].pc.Idle?
    case SendReply(c) => c < |s.clients| && s.clients[c].pc.Replying? && HasRoom(s.clients[c])
    case SendNotification(c) => c < |s.clients| && s.clients[c].pc.Notifying? && UpstreamReady(s)
    case Register(c) =>
      c < |s.clients| && s.clients[c].pc.Taken? && s.lock.Free? && |s.pending| < MAX_PENDING
    case Refuse(c) =>
      c < |s.clients| && s.clients[c].pc.Taken? && s.lock.Free? && |s.pending| >= MAX_PENDING
    case SendRefusal(c) => c < |s.clients| && s.clients[c].pc.Refusing? && HasRoom(s.clients[c])
    case Enqueue(c) => c < |s.clients| && s.clients[c].pc.Enqueueing? && UpstreamReady(s)
    case Withdraw(c) => c < |s.clients| && s.clients[c].pc.Removing? && s.lock.Free?
    case Leave(c, _) => c < |s.clients| && s.clients[c].pc.Idle?
    case WriterDies(c) => c < |s.clients| && s.clients[c].open
    case Transmit(c) => c < |s.clients| && s.clients[c].open && s.clients[c].replies != []
    case TakeBeat => s.heart.Resting? && s.handshake
    case SendBeat => s.heart.Beating? && UpstreamReady(s)
    case Inject(_) => true
    case Connect => s.conn.Down? && s.clients != []
    case BeginDrain => s.conn.Connected? && s.lock.Free?
    case DrainEntry(rid) =>
      s.conn.Draining? && rid in s.pending && s.pending[rid].client < |s.clients|
    case EndDrain => s.conn.Draining? && s.pending == map[]
    case Write => s.conn.Up? && s.upstream != []
    case WriteFails => s.conn.Up? && s.upstream != []
    case ReaderDies(k) => k < |s.readers| && s.readers[k].Waiting?
    case NoticeDeath => s.conn.Up? && s.conn.reader < |s.readers| && s.readers[s.conn.reader].Dead?
    case Receive(k, msg, _) =>
      k < |s.readers| && s.readers[k].Waiting?
      && (NeedsLock(msg) ==> s.lock.Free?)
    case Hand(k) =>
      k < |s.readers| && s.readers[k].Delivering?
      && s.readers[k].entry.client < |s.clients| && HasRoom(s.clients[s.readers[k].entry.client])
    case CloseUpstream => s.conn.Up?
  }

  /** The message a request hook lets through, if any. */
  function Hooked(msg: Json, hook: HookAction): Json {
    match hook
    case Modify(Some(m)) => m
    case _ => msg
  }

  function SetPc(s: State, c: nat, pc: Pc): State
    requires c < |s.clients|
  {
    s.(clients := s.clients[c := s.clients[c].(pc := pc)])
  }

  function Record(s: State, e: Event): State {
    s.(hist := s.hist + [e])
  }

  // ----- The steps, task by task -----

  /** Connecting, reading a request, leaving, and the client's writer task. */
  predicate IsSocketAction(a: Action) {
    a.Accept? || a.Request? || a.Leave? || a.WriterDies? || a.Transmit?
  }

  /** A client task carrying out the request it read. */
  predicate IsClientAction(a: Action) {
    a.SendReply? || a.SendNotification? || a.Register? || a.Refuse? || a.SendRefusal? || a.Enqueue? || a.Withdraw?
  }

  /** Connection, drain and write loop of the upstream task. */
  predicate IsUpstreamAction(a: Action) {
    a.Connect? || a.BeginDrain? || a.DrainEntry? || a.EndDrain? || a.Write? || a.WriteFails?
    || a.NoticeDeath? || a.CloseUpstream?
  }

  /** Upstream readers, the heartbeat task and hook injection. */
  predicate IsReaderAction(a: Action) {
    a.Receive? || a.Hand? || a.ReaderDies? || a.TakeBeat? || a.SendBeat? || a.Inject?
  }

  /** A hook injects a message under an id of the kind the proxy gives out. */
  predicate Injects(a: Action) {
    a.Inject? && JsonRpcId(a.msg).Some? && JsonRpcId(a.msg).value >= FIRST_ID
  }

  function NextRequest(s: State, c: nat, msg: Json, hook: HookAction): State
    requires Enabled(s, Request(c, msg, hook))
  {
    match hook
    case Block => s
    case Reply(body) => SetPc(s, c, Replying(body))
    case _ =>
      var m := Hooked(msg, hook);
      match GetId(m)
      case None => SetPc(s, c, Notifying(m))
      case Some(id) =>
        var rid := s.nextId;
        Record(SetPc(s, c, Taken(rid, id, WithId(m, Int(rid)))), Requested(rid, c, m)).(nextId := rid + 1)
  }

  function NextSocket(s: State, a: Action): State
    requires Enabled(s, a) && IsSocketAction(a)
  {
    match a
    case Accept => s.(clients := s.clients + [Client(Idle, true, [], [])])
    case Request(c, msg, hook) => NextRequest(s, c, msg, hook)
    case Leave(c, abort) =>
      var cl := s.clients[c];
      s.(clients := s.clients[c := (if abort then Closing(cl) else cl).(pc := Gone)])
    case WriterDies(c) => s.(clients := s.clients[c := Closing(s.clients[c])])
    case Transmit(c) =>
      var cl := s.clients[c];
      s.(clients := s.clients[c := cl.(replies := cl.replies[1..], received := cl.received + [cl.replies[0]])])
  }

  function NextClient(s: State, a: Action): State
    requires Enabled(s, a) && IsClientAction(a)
  {
    var cl := s.clients[a.c];
    match a
    case SendReply(c) =>
      s.(clients := s.clients[c := Put(cl, Item(FromHook, cl.pc.reply)).(pc := Idle)])
    case SendNotification(c) =>
      if s.conn.Closed? then s.(clients := s.clients[c := Closing(cl).(pc := Gone)])
      else SetPc(s, c, Idle).(upstream := s.upstream + [cl.pc.msg])
    case Register(c) =>
      Record(SetPc(s, c, Enqueueing(cl.pc.rid, cl.pc.fwd)), Registered(cl.pc.rid, c, cl.pc.originalId))
        .(pending := s.pending[cl.pc.rid := Entry(c, cl.pc.originalId)])
    case Refuse(c) =>
      SetPc(s, c, Refusing(cl.pc.rid, cl.pc.originalId)).(lock := HeldByClient(c))
    case SendRefusal(c) =>
      var item := Item(FromRefusal(cl.pc.rid), OverflowError(cl.pc.originalId));
      Record(s.(clients := s.clients[c := Put(cl, item).(pc := Idle)], lock := Free), Refused(cl.pc.rid))
    case Enqueue(c) =>
      if s.conn.Closed? then SetPc(s, c, Removing(cl.pc.rid))
      else SetPc(s, c, Idle).(upstream := s.upstream + [cl.pc.fwd])
    case Withdraw(c) =>
      var t := s.(clients := s.clients[c := Closing(cl).(pc := Gone)]);
      if cl.pc.rid in s.pending then Record(t, Withdrawn(cl.pc.rid)).(pending := s.pending - {cl.pc.rid}) else t
  }

  function NextUpstream(s: State, a: Action): State
    requires Enabled(s, a) && IsUpstreamAction(a)
  {
    match a
    case Connect => s.(conn := Connected, handshake := false)
    case BeginDrain => s.(conn := Draining, lock := HeldByDrain)
    case DrainEntry(rid) =>
      var e := s.pending[rid];
      var item := Item(FromDrain(rid), ReconnectError(e.originalId));
      Record(s.(pending := s.pending - {rid}, clients := s.clients[e.client := TryPut(s.clients[e.client], item)]),
             Drained(rid))
    case EndDrain => s.(conn := Up(|s.readers|, []), readers := s.readers + [Waiting], lock := Free)
    case Write =>
      s.(upstream := s.upstream[1..], conn := Up(s.conn.reader, s.conn.written + [s.upstream[0]]),
         delivered := s.delivered + [s.upstream[0]])
    case WriteFails => s.(upstream := s.upstream[1..], conn := Down)
    case NoticeDeath => s.(conn := Down)
    case CloseUpstream => s.(conn := Closed, upstream := [])
  }

  function NextReceive(s: State, k: nat, msg: Json, forward: bool): State
    requires Enabled(s, Receive(k, msg, forward))
  {
    match RouteOf(s.pending, msg)
    case Target(rid, e) =>
      s.(handshake := true, pending := s.pending - {rid}, readers := s.readers[k := Delivering(rid, e, msg)])
    case Broadcast =>
      if forward || !Hookable(msg) then s.(handshake := true, broadcasts := s.broadcasts + [msg])
      else s.(handshake := true)
  }

  function NextReader(s: State, a: Action): State
    requires Enabled(s, a) && IsReaderAction(a)
  {
    match a
    case Receive(k, msg, forward) => NextReceive(s, k, msg, forward)
    case Hand(k) =>
      var r := s.readers[k];
      var item := Item(FromReader(r.rid, r.answer), WithId(r.answer, r.entry.originalId));
      Record(s.(readers := s.readers[k := Waiting],
                clients := s.clients[r.entry.client := Put(s.clients[r.entry.client], item)]),
             Answered(r.rid))
    case ReaderDies(k) => s.(readers := s.readers[k := Dead])
    case TakeBeat => Record(s, Beat(s.nextId)).(heart := Beating(s.nextId), nextId := s.nextId + 1)
    case SendBeat =>
      if s.conn.Closed? then s.(heart := Stopped)
      else s.(heart := Resting, upstream := s.upstream + [Heartbeat(s.heart.rid)])
    case Inject(msg) =>
      if |s.upstream| < UPSTREAM_CAPACITY && !s.conn.Closed? then s.(upstream := s.upstream + [msg]) else s
  }

  function Heartbeat(rid: nat): Json {
    Obj(map["id" := Int(rid), "method" := Str("test_connection"), "params" := Str("verify")])
  }

  function Next(s: State, a: Action): State
    requires Enabled(s, a)
  {
    if IsSocketAction(a) then NextSocket(s, a)
    else if IsClientAction(a) then NextClient(s, a)
    else if IsUpstreamAction(a) then NextUpstream(s, a)
    else NextReader(s, a)
  }

  /** `acts` is a run of the proxy from `s` that ends in `t`. */
  ghost predicate Run(s: State, acts: seq<Action>, t: State)
    decreases |acts|
  {
    if acts == [] then t == s
    else Enabled(s, acts[0]) && Run(Next(s, acts[0]), acts[1..], t)
  }

  ghost predicate Reachable(s: State) {
    exists acts :: Run(Init(), acts, s)
  }

  lemma RunCons(s: State, a: Action, acts: seq<Action>, t: State)
    requires Enabled(s, a) && Run(Next(s, a), acts, t)
    ensures Run(s, [a] + acts, t)
  {
    assert ([a] + acts)[1..] == acts;
  }

  lemma {:induction false} RunAppend(s: State, acts: seq<Action>, t: State, a: Action)
    requires Run(s, acts, t) && Enabled(t, a)
    ensures Run(s, acts + [a], Next(t, a))
    decreases |acts|
  {
    if acts == [] {
      assert [a][1..] == [];
    } else {
      assert (acts + [a])[1..] == acts[1..] + [a];
      RunAppend(Next(s, acts[0]), acts[1..], t, a);
    }
  }

  lemma {:induction false} RunJoin(s: State, xs: seq<Action>, t: State, ys: seq<Action>, u: State)
    requires Run(s, xs, t) && Run(t, ys, u)
    ensures Run(s, xs + ys, u)
    decreases |xs|
  {
    if xs == [] {
      assert xs + ys == ys;
    } else {
      assert (xs + ys)[1..] == xs[1..] + ys;
      RunJoin(Next(s, xs[0]), xs[1..], t, ys, u);
    }
  }

  /** Four steps in a row are a run. */
  lemma RunOf4(s0: State, a: Action, s1: State, b: Action, s2: State, c: Action, s3: State, d: Action, s4: State)
    returns (acts: seq<Action>)
    requires Enabled(s0, a) && Next(s0, a) == s1 && Enabled(s1, b) && Next(s1, b) == s2
    requires Enabled(s2, c) && Next(s2, c) == s3 && Enabled(s3, d) && Next(s3, d) == s4
    ensures Run(s0, acts, s4)
  {
    assert Run(s0, [], s0);
    RunAppend(s0, [], s0, a);
    RunAppend(s0, [] + [a], s1, b);
    RunAppend(s0, [] + [a] + [b], s2, c);
    RunAppend(s0, [] + [a] + [b] + [c], s3, d);
    acts := [] + [a] + [b] + [c] + [d];
  }
}
