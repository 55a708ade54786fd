/**
 Transparency as a refinement. A private connection is a client with a telescope
 of its own that answers a request at most once, echoing its id. The projection
 of every interleaved run of the proxy onto one client is a run of such a
 connection, even when all clients use the same ids.
 */
module Transparency {
  import opened Prelude
  import opened Json
  import opened Multiplexer
  import opened Conservation
  import opened Forwarding

  /** Which answers a telescope may give to which requests, ids left out on both sides. */
  type Telescope = (Json, Json) -> bool

  // ----- The private connection -----

  /** Requests sent so far, under arbitrary tokens nobody sees, and those answered. */
  datatype Private = Private(sent: map<nat, Json>, answered: set<nat>)

  datatype Exchange = Send(token: nat, m: Json) | Answer(token: nat, reply: Json)

  predicate Allowed(ps: Private, x: Exchange, scope: Telescope) {
    match x
    case Send(token, m) => token !in ps.sent && GetId(m).Some?
    case Answer(token, reply) =>
      && token in ps.sent && token !in ps.answered
      && GetId(reply) == GetId(ps.sent[token])
      && scope(EraseId(ps.sent[token]), EraseId(reply))
  }

  function After(ps: Private, x: Exchange): Private {
    match x
    case Send(token, m) => ps.(sent := ps.sent[token := m])
    case Answer(token, _) => ps.(answered := ps.answered + {token})
  }

  ghost predicate PrivateRun(ps: Private, xs: seq<Exchange>, scope: Telescope)
    decreases |xs|
  {
    xs == [] || (Allowed(ps, xs[0], scope) && PrivateRun(After(ps, xs[0]), xs[1..], scope))
  }

  function Sends(xs: seq<Exchange>): seq<Json> {
    if xs == [] then []
    else (if xs[0].Send? then [xs[0].m] else []) + Sends(xs[1..])
  }

  function Replies(xs: seq<Exchange>): seq<Json> {
    if xs == [] then []
    else (if xs[0].Answer? then [xs[0].reply] else []) + Replies(xs[1..])
  }

  // ----- The conditions and the projection -----

  /** A request written to the telescope that allows this answer. */
  ghost predicate Prompted(s: State, msg: Json, scope: Telescope) {
    exists i :: 0 <= i < |s.delivered| && JsonRpcId(s.delivered[i]) == JsonRpcId(msg)
                && scope(EraseId(s.delivered[i]), EraseId(msg))
  }

  /**
   The telescope answers requests of `c` only if it was sent them, treating the id
   as an opaque token; hooks forward the requests of `c` and inject only ids the
   proxy does not give out; and the proxy itself neither refuses nor drains a
   request of `c`, whose socket stays open.
   */
  ghost predicate Fair(s: State, a: Action, c: nat, scope: Telescope) {
    match a
    case Receive(_, msg, _) =>
      NeedsLock(msg) && JsonRpcId(msg).value in s.pending && s.pending[JsonRpcId(msg).value].client == c
      ==> Prompted(s, msg, scope)
    case Inject(msg) => JsonRpcId(msg).Some? ==> JsonRpcId(msg).value < FIRST_ID
    case Request(d, _, hook) => d == c ==> hook.Forward?
    case SendRefusal(d) => d != c
    case DrainEntry(rid) => rid in s.pending ==> s.pending[rid].client != c
    case _ => !Drops(s, a, c)
  }

  ghost predicate FairRun(s: State, acts: seq<Action>, c: nat, scope: Telescope)
    decreases |acts|
  {
    acts == [] || (Enabled(s, acts[0]) && Fair(s, acts[0], c, scope) && FairRun(Next(s, acts[0]), acts[1..], c, scope))
  }

  /** What client `c` sees of one step. */
  function Project(s: State, a: Action, c: nat): seq<Exchange>
    requires Enabled(s, a)
  {
    match a
    case Request(d, msg, hook) => if d == c && GetId(msg).Some? then [Send(s.nextId, msg)] else []
    case Hand(k) =>
      var r := s.readers[k];
      if r.entry.client == c then [Answer(r.rid, WithId(r.answer, r.entry.originalId))] else []
    case _ => []
  }

  ghost function ProjectRun(s: State, acts: seq<Action>, c: nat, scope: Telescope): seq<Exchange>
    requires FairRun(s, acts, c, scope)
    decreases |acts|
  {
    if acts == [] then []
    else Project(s, acts[0], c) + ProjectRun(Next(s, acts[0]), acts[1..], c, scope)
  }

  /** The request with an id that client `c` sends in a step. */
  function RequestIn(a: Action, c: nat): seq<Json> {
    if a.Request? && a.c == c && GetId(a.msg).Some? then [a.msg] else []
  }

  /** The requests with an id that client `c` sent in a run. */
  function Requests(acts: seq<Action>, c: nat): seq<Json> {
    if acts == [] then [] else RequestIn(acts[0], c) + Requests(acts[1..], c)
  }

  function Bodies(items: seq<Item>): seq<Json> {
    seq(|items|, i requires 0 <= i < |items| => items[i].body)
  }

  // ----- Content: what carries an id says what its request said -----

  predicate Genuine(msg: Json, rid: nat, p: Place) {
    JsonRpcId(msg) == Some(rid) && rid >= FIRST_ID ==>
      p.Heart? || (IsRequest(p) && EraseId(msg) == EraseId(p.m))
  }

  /** What a client task is about to send. */
  predicate GenuinePc(pc: Pc, rid: nat, p: Place) {
    && (pc.Notifying? ==> JsonRpcId(pc.msg).None?)
    && (pc.Enqueueing? ==> Genuine(pc.fwd, rid, p))
    && (pc.Taken? && pc.rid != rid ==> JsonRpcId(pc.fwd) != Some(rid))
  }

  ghost predicate GenuineClients(clients: seq<Client>, rid: nat, p: Place) {
    forall c | 0 <= c < |clients| :: GenuinePc(clients[c].pc, rid, p)
  }

  /** What is on its way to the telescope or was written to it. */
  ghost predicate GenuineMail(s: State, rid: nat, p: Place) {
    && (forall i | 0 <= i < |s.upstream| :: Genuine(s.upstream[i], rid, p))
    && (forall i | 0 <= i < |s.delivered| :: Genuine(s.delivered[i], rid, p))
    && (s.heart.Beating? ==> Genuine(Heartbeat(s.heart.rid), rid, p))
  }

  ghost predicate Authentic(s: State, rid: nat, p: Place) {
    GenuineMail(s, rid, p) && GenuineClients(s.clients, rid, p)
  }

  lemma TakenIsGenuine(s: State, rid: nat, p: Place, c: nat)
    requires At(s, rid, p) && c < |s.clients| && s.clients[c].pc.Taken? && s.clients[c].pc.rid == rid
    ensures Genuine(s.clients[c].pc.fwd, rid, p)
  {
    assert ClientAgrees(s.clients[c], rid, p, c);
    EraseIgnoresId(p.m, Int(rid));
  }

  lemma GenuineStays(s: State, a: Action, rid: nat, p: Place, msg: Json)
    requires At(s, rid, p) && Enabled(s, a) && Genuine(msg, rid, p)
    ensures Genuine(msg, rid, Move(s, a, rid, p))
  {
    if !p.Unused? {
      MoveKeepsRequest(s, a, rid, p);
    }
  }

  lemma AuthenticStays(s: State, a: Action, rid: nat, p: Place)
    requires At(s, rid, p) && Enabled(s, a) && Authentic(s, rid, p)
    ensures Authentic(s, rid, Move(s, a, rid, p))
  {
    var q := Move(s, a, rid, p);
    if !p.Unused? {
      MoveKeepsRequest(s, a, rid, p);
    }
    forall msg | Genuine(msg, rid, p) ensures Genuine(msg, rid, q) {
      GenuineStays(s, a, rid, p, msg);
    }
    forall c | 0 <= c < |s.clients| ensures GenuinePc(s.clients[c].pc, rid, q) {
      assert GenuinePc(s.clients[c].pc, rid, p);
    }
  }

  /** One client changes and the others do not. */
  lemma OneClientChanges(clients: seq<Client>, now: seq<Client>, c: nat, rid: nat, q: Place)
    requires GenuineClients(clients, rid, q) && c < |clients| == |now| && now == clients[c := now[c]]
    requires GenuinePc(now[c].pc, rid, q)
    ensures GenuineClients(now, rid, q)
  {}

  lemma RequestAuthentic(s: State, a: Action, rid: nat, q: Place)
    requires Authentic(s, rid, q) && Enabled(s, a) && a.Request?
    ensures Authentic(NextSocket(s, a), rid, q)
  {
    var t := NextSocket(s, a);
    RequestFrame(s, a);
    RequestGenuine(s, a, rid, q);
    OneClientChanges(s.clients, t.clients, a.c, rid, q);
  }

  lemma RequestGenuine(s: State, a: Action, rid: nat, q: Place)
    requires Enabled(s, a) && a.Request?
    ensures GenuinePc(NextSocket(s, a).clients[a.c].pc, rid, q) && NextSocket(s, a).heart == s.heart
  {
    PcAfterRequest(s, a);
  }

  lemma SocketAuthentic(s: State, a: Action, rid: nat, q: Place)
    requires Authentic(s, rid, q) && Enabled(s, a) && IsSocketAction(a) && !a.Request?
    ensures Authentic(NextSocket(s, a), rid, q)
  {
    var t := NextSocket(s, a);
    if !a.Accept? {
      assert GenuinePc(s.clients[a.c].pc, rid, q);
      OneClientChanges(s.clients, t.clients, a.c, rid, q);
    }
  }

  lemma ClientAuthentic(s: State, a: Action, rid: nat, q: Place)
    requires Authentic(s, rid, q) && Enabled(s, a) && IsClientAction(a)
    requires a.Register? && s.clients[a.c].pc.rid == rid ==> Genuine(s.clients[a.c].pc.fwd, rid, q)
    ensures Authentic(NextClient(s, a), rid, q)
  {
    assert GenuinePc(s.clients[a.c].pc, rid, q);
    ClientMail(s, a, rid, q);
    var t := NextClient(s, a);
    assert t.clients == s.clients[a.c := t.clients[a.c]];
    assert GenuinePc(t.clients[a.c].pc, rid, q);
    OneClientChanges(s.clients, t.clients, a.c, rid, q);
  }

  lemma ClientMail(s: State, a: Action, rid: nat, q: Place)
    requires GenuineMail(s, rid, q) && Enabled(s, a) && IsClientAction(a) && GenuinePc(s.clients[a.c].pc, rid, q)
    ensures GenuineMail(NextClient(s, a), rid, q)
  {}

  lemma UpstreamAuthentic(s: State, a: Action, rid: nat, q: Place)
    requires Authentic(s, rid, q) && Enabled(s, a) && IsUpstreamAction(a)
    ensures Authentic(NextUpstream(s, a), rid, q)
  {}

  lemma ReaderAuthentic(s: State, a: Action, rid: nat, q: Place)
    requires Authentic(s, rid, q) && Enabled(s, a) && IsReaderAction(a) && !Injects(a)
    requires a.TakeBeat? && s.nextId == rid ==> q.Heart?
    ensures Authentic(NextReader(s, a), rid, q)
  {
    ReaderFrame(s, a);
    var t := NextReader(s, a);
    forall c | 0 <= c < |t.clients| ensures GenuinePc(t.clients[c].pc, rid, q) {
      assert GenuinePc(s.clients[c].pc, rid, q);
    }
    ReaderMail(s, a, rid, q);
  }

  lemma ReaderMail(s: State, a: Action, rid: nat, q: Place)
    requires GenuineMail(s, rid, q) && Enabled(s, a) && IsReaderAction(a) && !Injects(a)
    requires a.TakeBeat? && s.nextId == rid ==> q.Heart?
    ensures GenuineMail(NextReader(s, a), rid, q)
  {
    var t := NextReader(s, a);
    if a.SendBeat? || a.Inject? {
      assert t.delivered == s.delivered;
    } else {
      assert t.upstream == s.upstream && t.delivered == s.delivered;
    }
  }

  lemma StepAuthentic(s: State, a: Action, rid: nat, p: Place)
    requires At(s, rid, p) && Authentic(s, rid, p) && Enabled(s, a) && !Injects(a)
    ensures Authentic(Next(s, a), rid, Move(s, a, rid, p))
  {
    var q := Move(s, a, rid, p);
    AuthenticStays(s, a, rid, p);
    if a.Request? {
      RequestAuthentic(s, a, rid, q);
    } else if IsSocketAction(a) {
      SocketAuthentic(s, a, rid, q);
    } else if IsClientAction(a) {
      if a.Register? && s.clients[a.c].pc.rid == rid {
        TakenIsGenuine(s, rid, p, a.c);
        GenuineStays(s, a, rid, p, s.clients[a.c].pc.fwd);
      }
      ClientAuthentic(s, a, rid, q);
    } else if IsUpstreamAction(a) {
      UpstreamAuthentic(s, a, rid, q);
    } else {
      ReaderAuthentic(s, a, rid, q);
    }
  }

  // ----- The simulation, one id at a time -----

  /** The private connection knows the requests of `c`, and which of them were answered. */
  predicate Mirrors(ps: Private, c: nat, rid: nat, p: Place) {
    && (rid in ps.sent <==> IsRequest(p) && p.c == c)
    && (rid in ps.sent ==> ps.sent[rid] == p.m)
    && (rid in ps.answered ==> p.WasAnswered?)
  }

  /** The answer a reader carries to `c` is one the telescope may give. */
  predicate Licensed(s: State, c: nat, p: Place, scope: Telescope) {
    p.Carried? && p.c == c ==>
      p.k < |s.readers| && s.readers[p.k].Delivering? && scope(EraseId(p.m), EraseId(s.readers[p.k].answer))
  }

  ghost predicate Linked(s: State, ps: Private, c: nat, rid: nat, p: Place, scope: Telescope) {
    && Located(s, rid, p)
    && Authentic(s, rid, p)
    && Mirrors(ps, c, rid, p)
    && Licensed(s, c, p, scope)
  }

  ghost predicate Simulated(s: State, ps: Private, c: nat, rid: nat, scope: Telescope) {
    exists p :: Linked(s, ps, c, rid, p, scope)
  }

  ghost predicate AllLinked(s: State, ps: Private, c: nat, scope: Telescope) {
    forall rid: nat :: Simulated(s, ps, c, rid, scope)
  }

  function AfterAll(ps: Private, xs: seq<Exchange>): Private
    requires |xs| <= 1
  {
    if xs == [] then ps else After(ps, xs[0])
  }

  lemma PromptedAnswer(s: State, ps: Private, a: Action, c: nat, rid: nat, p: Place, scope: Telescope)
    requires Linked(s, ps, c, rid, p, scope) && Enabled(s, a) && Fair(s, a, c, scope)
    requires a.Receive? && p.Awaiting? && p.c == c && Move(s, a, rid, p).Carried?
    ensures scope(EraseId(p.m), EraseId(a.msg))
  {
    var i :| 0 <= i < |s.delivered| && JsonRpcId(s.delivered[i]) == JsonRpcId(a.msg)
             && scope(EraseId(s.delivered[i]), EraseId(a.msg));
    assert Genuine(s.delivered[i], rid, p);
  }

  /** An answer is picked up by a reader that receives it, and stays with that reader. */
  lemma CarriedMoves(s: State, a: Action, rid: nat, p: Place)
    requires At(s, rid, p) && Enabled(s, a) && Move(s, a, rid, p).Carried?
    ensures p.Carried? ==> Move(s, a, rid, p) == p && a != Hand(p.k)
    ensures !p.Carried? ==>
              && p.Awaiting? && a.Receive? && Move(s, a, rid, p).k == a.k
              && NeedsLock(a.msg) && JsonRpcId(a.msg) == Some(rid)
  {
    if p.Carried? {
      assert ReaderAgrees(s.readers[p.k], rid, p, p.k);
    }
  }

  /** A reader that holds an answer keeps it until it hands it over. */
  lemma AnswerStays(s: State, a: Action, k: nat)
    requires Enabled(s, a) && k < |s.readers| && s.readers[k].Delivering? && a != Hand(k)
    ensures k < |Next(s, a).readers| && Next(s, a).readers[k] == s.readers[k]
  {
    if IsSocketAction(a) {
      assert NextSocket(s, a).readers == s.readers;
    } else if IsClientAction(a) {
      assert NextClient(s, a).readers == s.readers;
    } else if IsUpstreamAction(a) {
      assert k < |NextUpstream(s, a).readers| && NextUpstream(s, a).readers[k] == s.readers[k];
    } else {
      assert k < |NextReader(s, a).readers| && NextReader(s, a).readers[k] == s.readers[k];
    }
  }

  lemma StepLicenses(s: State, ps: Private, a: Action, c: nat, rid: nat, p: Place, scope: Telescope)
    requires Linked(s, ps, c, rid, p, scope) && Enabled(s, a) && Fair(s, a, c, scope)
    requires At(Next(s, a), rid, Move(s, a, rid, p)) && Move(s, a, rid, p).Carried?
    ensures Licensed(Next(s, a), c, Move(s, a, rid, p), scope)
  {
    CarriedMoves(s, a, rid, p);
    if p.Carried? {
      AnswerStays(s, a, p.k);
    } else if p.c == c {
      PromptedAnswer(s, ps, a, c, rid, p, scope);
    }
  }

  lemma StepMirrors(s: State, ps: Private, a: Action, c: nat, rid: nat, p: Place)
    requires At(s, rid, p) && Enabled(s, a) && Mirrors(ps, c, rid, p) && (a.Request? && a.c == c ==> a.hook.Forward?)
    ensures Mirrors(AfterAll(ps, Project(s, a, c)), c, rid, Move(s, a, rid, p))
  {
    if !p.Unused? {
      MoveKeepsRequest(s, a, rid, p);
    }
    if a.Hand? {
      assert ReaderAgrees(s.readers[a.k], rid, p, a.k);
    }
  }

  lemma StepLinks(s: State, ps: Private, a: Action, c: nat, rid: nat, p: Place, scope: Telescope)
    requires Linked(s, ps, c, rid, p, scope) && Enabled(s, a) && Fair(s, a, c, scope)
    ensures Linked(Next(s, a), AfterAll(ps, Project(s, a, c)), c, rid, Move(s, a, rid, p), scope)
  {
    StepLocates(s, a, rid, p);
    StepAuthentic(s, a, rid, p);
    StepMirrors(s, ps, a, c, rid, p);
    if Move(s, a, rid, p).Carried? {
      StepLicenses(s, ps, a, c, rid, p, scope);
    }
  }

  lemma StepAllowed(s: State, ps: Private, a: Action, c: nat, scope: Telescope)
    requires AllLinked(s, ps, c, scope) && Enabled(s, a) && Fair(s, a, c, scope) && Project(s, a, c) != []
    ensures Allowed(ps, Project(s, a, c)[0], scope)
  {
    var x := Project(s, a, c)[0];
    assert Simulated(s, ps, c, x.token, scope);
    var p :| Linked(s, ps, c, x.token, p, scope);
    if a.Hand? {
      assert ReaderAgrees(s.readers[a.k], x.token, p, a.k);
      EraseIgnoresId(s.readers[a.k].answer, s.readers[a.k].entry.originalId);
    }
  }

  lemma StepAllLinked(s: State, ps: Private, a: Action, c: nat, scope: Telescope)
    requires AllLinked(s, ps, c, scope) && Enabled(s, a) && Fair(s, a, c, scope)
    ensures AllLinked(Next(s, a), AfterAll(ps, Project(s, a, c)), c, scope)
  {
    forall rid: nat ensures Simulated(Next(s, a), AfterAll(ps, Project(s, a, c)), c, rid, scope) {
      assert Simulated(s, ps, c, rid, scope);
      var p :| Linked(s, ps, c, rid, p, scope);
      StepLinks(s, ps, a, c, rid, p, scope);
    }
  }

  lemma {:induction false} Simulates(s: State, ps: Private, acts: seq<Action>, c: nat, scope: Telescope)
    requires AllLinked(s, ps, c, scope) && FairRun(s, acts, c, scope)
    ensures PrivateRun(ps, ProjectRun(s, acts, c, scope), scope)
    decreases |acts|
  {
    if acts != [] {
      var here := Project(s, acts[0], c);
      var rest := ProjectRun(Next(s, acts[0]), acts[1..], c, scope);
      StepAllLinked(s, ps, acts[0], c, scope);
      Simulates(Next(s, acts[0]), AfterAll(ps, here), acts[1..], c, scope);
      if here != [] {
        StepAllowed(s, ps, acts[0], c, scope);
        assert (here + rest)[1..] == rest;
      } else {
        assert here + rest == rest;
      }
    }
  }

  // ----- The projection is what the client itself did and saw -----

  lemma {:induction false} SendsAppend(xs: seq<Exchange>, ys: seq<Exchange>)
    requires |xs| <= 1
    ensures Sends(xs + ys) == Sends(xs) + Sends(ys)
    ensures Replies(xs + ys) == Replies(xs) + Replies(ys)
  {
    if xs == [] {
      assert xs + ys == ys;
    } else {
      assert xs[1..] == [] && Sends(xs[1..]) == [] && Replies(xs[1..]) == [];
      var zs := xs + ys;
      assert zs[0] == xs[0] && zs[1..] == ys;
    }
  }

  function ToldTo(s: State, c: nat): seq<Item> {
    if c < |s.clients| then Told(s.clients[c]) else []
  }

  /** The receiver of `c` is open and no hook reply is under way. */
  predicate Plain(s: State, c: nat) {
    c < |s.clients| ==> s.clients[c].open && !s.clients[c].pc.Replying?
  }

  lemma ClientStaysPlain(s: State, a: Action, c: nat, scope: Telescope)
    requires Plain(s, c) && Enabled(s, a) && Fair(s, a, c, scope) && IsClientAction(a)
    ensures Plain(NextClient(s, a), c)
  {
    if a.c == c {
      assert NextClient(s, a).clients[c].open;
    } else if c < |s.clients| {
      assert NextClient(s, a).clients[c] == s.clients[c];
    }
  }

  lemma SocketStaysPlain(s: State, a: Action, c: nat, scope: Telescope)
    requires Plain(s, c) && Enabled(s, a) && Fair(s, a, c, scope) && IsSocketAction(a)
    ensures Plain(NextSocket(s, a), c)
  {
    if !a.Accept? && a.c == c {
      assert NextSocket(s, a).clients[c].open;
    } else if c < |s.clients| {
      assert NextSocket(s, a).clients[c] == s.clients[c];
    }
  }

  lemma StepPlain(s: State, a: Action, c: nat, scope: Telescope)
    requires Plain(s, c) && Enabled(s, a) && Fair(s, a, c, scope)
    ensures Plain(Next(s, a), c)
  {
    if IsClientAction(a) {
      ClientStaysPlain(s, a, c, scope);
    } else if IsSocketAction(a) {
      SocketStaysPlain(s, a, c, scope);
    }
  }

  lemma StepRequests(s: State, a: Action, c: nat)
    requires Enabled(s, a)
    ensures Sends(Project(s, a, c)) == RequestIn(a, c)
  {}

  lemma StepTold(s: State, a: Action, c: nat, scope: Telescope)
    requires Plain(s, c) && Enabled(s, a) && Fair(s, a, c, scope)
    ensures Bodies(ToldTo(Next(s, a), c)) == Bodies(ToldTo(s, c)) + Replies(Project(s, a, c))
  {
    if c < |s.clients| {
      StepSends(s, a, c);
    } else if c < |Next(s, a).clients| {
      NewcomerUntold(s, a, c);
    }
  }

  lemma {:induction false} ProjectionSends(s: State, acts: seq<Action>, c: nat, scope: Telescope)
    requires Plain(s, c) && FairRun(s, acts, c, scope)
    ensures Sends(ProjectRun(s, acts, c, scope)) == Requests(acts, c)
    decreases |acts|
  {
    if acts != [] {
      var rest := ProjectRun(Next(s, acts[0]), acts[1..], c, scope);
      StepPlain(s, acts[0], c, scope);
      StepRequests(s, acts[0], c);
      ProjectionSends(Next(s, acts[0]), acts[1..], c, scope);
      SendsAppend(Project(s, acts[0], c), rest);
    }
  }

  lemma {:induction false} ProjectionReplies(s: State, acts: seq<Action>, t: State, c: nat, scope: Telescope)
    requires Plain(s, c) && FairRun(s, acts, c, scope) && Run(s, acts, t)
    ensures Bodies(ToldTo(t, c)) == Bodies(ToldTo(s, c)) + Replies(ProjectRun(s, acts, c, scope))
    decreases |acts|
  {
    if acts != [] {
      var here := Replies(Project(s, acts[0], c));
      var rest := ProjectRun(Next(s, acts[0]), acts[1..], c, scope);
      StepPlain(s, acts[0], c, scope);
      StepTold(s, acts[0], c, scope);
      ProjectionReplies(Next(s, acts[0]), acts[1..], t, c, scope);
      SendsAppend(Project(s, acts[0], c), rest);
      Associative(Bodies(ToldTo(s, c)), here, Replies(rest));
    }
  }

  /**
   For every fair run of the proxy, with any number of other clients using any
   ids, there is a run of a private connection in which the client sends exactly
   the requests it sent here and gets exactly the lines it was told here, in the
   same order. What the telescope gets from it are messages it sent, notifications
   included, in that order too.
   */
  lemma Transparent(acts: seq<Action>, t: State, c: nat, scope: Telescope)
    requires Run(Init(), acts, t) && FairRun(Init(), acts, c, scope)
    ensures exists xs ::
      && PrivateRun(Private(map[], {}), xs, scope)
      && Sends(xs) == Requests(acts, c)
      && Replies(xs) == Bodies(ToldTo(t, c))
    ensures
      var l := Tracked(Ledger([], [], []), Init(), acts, t, c);
      && l.issued == Issued(acts, c) && Matches(l.written, t.delivered, l.issued, t.hist, c)
      && Ordered(l.written) && MarksRequests(l, t, c)
  {
    FairRunsDoNotInject(Init(), acts, c, scope);
    TelescopeHearsInOrder(acts, t, c);
    var xs := PrivatelyPossible(acts, t, c, scope);
  }

  lemma {:induction false} FairRunsDoNotInject(s: State, acts: seq<Action>, c: nat, scope: Telescope)
    requires FairRun(s, acts, c, scope)
    ensures forall a | a in acts :: !Injects(a)
    decreases |acts|
  {
    if acts != [] {
      FairRunsDoNotInject(Next(s, acts[0]), acts[1..], c, scope);
    }
  }

  lemma PrivatelyPossible(acts: seq<Action>, t: State, c: nat, scope: Telescope) returns (xs: seq<Exchange>)
    requires Run(Init(), acts, t) && FairRun(Init(), acts, c, scope)
    ensures PrivateRun(Private(map[], {}), xs, scope)
    ensures Sends(xs) == Requests(acts, c) && Replies(xs) == Bodies(ToldTo(t, c))
  {
    xs := ProjectRun(Init(), acts, c, scope);
    StartLinked(c, scope);
    Simulates(Init(), Private(map[], {}), acts, c, scope);
    ProjectionSends(Init(), acts, c, scope);
    ProjectionReplies(Init(), acts, t, c, scope);
    NothingToldYet(c, Replies(xs));
  }

  lemma NothingToldYet(c: nat, rest: seq<Json>)
    ensures Bodies(ToldTo(Init(), c)) + rest == rest
  {
    assert Bodies(ToldTo(Init(), c)) == [];
  }

  lemma StartLinked(c: nat, scope: Telescope)
    ensures AllLinked(Init(), Private(map[], {}), c, scope)
  {
    forall rid: nat ensures Simulated(Init(), Private(map[], {}), c, rid, scope) {
      assert Linked(Init(), Private(map[], {}), c, rid, Unused, scope);
    }
  }
}
