/**
 What the telescope hears of one client. A ledger marks every message on the
 upstream queue, and every message written, with its place in the order in which
 the client issued it; messages of others carry no mark.
 */
module Forwarding {
  import opened Prelude
  import opened Json
  import opened Multiplexer
  import opened Conservation
  import opened StaleRequests

  /** The messages issued so far, and the marks of the upstream queue and of all that was written. */
  datatype Ledger = Ledger(issued: seq<Json>, queued: seq<Option<nat>>, written: seq<Option<nat>>)

  /** The message client `c` issues in a step, as the request hook lets it through. */
  function IssuedIn(a: Action, c: nat): seq<Json> {
    if a.Request? && a.c == c && !a.hook.Block? && !a.hook.Reply? then [Hooked(a.msg, a.hook)] else []
  }

  function Issued(acts: seq<Action>, c: nat): seq<Json> {
    if acts == [] then [] else IssuedIn(acts[0], c) + Issued(acts[1..], c)
  }

  /** The mark of a message that client `d` enqueues: the last one `c` issued, if it is `c`. */
  function Mark(l: Ledger, d: nat, c: nat): Option<nat> {
    if d == c && l.issued != [] then Some(|l.issued| - 1) else None
  }

  /** The marks follow the messages through the queue. */
  function Track(l: Ledger, s: State, a: Action, c: nat): Ledger
    requires Enabled(s, a)
  {
    match a
    case Request(_, _, _) => l.(issued := l.issued + IssuedIn(a, c))
    case SendNotification(d) => if s.conn.Closed? then l else l.(queued := l.queued + [Mark(l, d, c)])
    case Enqueue(d) => if s.conn.Closed? then l else l.(queued := l.queued + [Mark(l, d, c)])
    case SendBeat => if s.conn.Closed? then l else l.(queued := l.queued + [None])
    case Inject(_) =>
      if |s.upstream| < UPSTREAM_CAPACITY && !s.conn.Closed? then l.(queued := l.queued + [None]) else l
    case Write => if l.queued == [] then l else Ledger(l.issued, l.queued[1..], l.written + [l.queued[0]])
    case WriteFails => if l.queued == [] then l else l.(queued := l.queued[1..])
    case CloseUpstream => l.(queued := [])
    case _ => l
  }

  /** The ledger at the end of a run. */
  ghost function Tracked(l: Ledger, s: State, acts: seq<Action>, t: State, c: nat): Ledger
    requires Run(s, acts, t)
    decreases |acts|
  {
    if acts == [] then l else Tracked(Track(l, s, acts[0], c), Next(s, acts[0]), acts[1..], t, c)
  }

  // ----- What a mark means -----

  /** The message is the issued one: unchanged without an id, else under an id taken for it. */
  predicate Conveys(h: seq<Event>, c: nat, body: Json, m: Json) {
    if GetId(m).None? then body == m
    else
      && JsonRpcId(body).Some? && Requested(JsonRpcId(body).value, c, m) in h
      && WithId(body, IdOf(m)) == m
  }

  ghost predicate Matches(marks: seq<Option<nat>>, mail: seq<Json>, issued: seq<Json>, h: seq<Event>, c: nat) {
    && |marks| == |mail|
    && forall i | 0 <= i < |marks| && marks[i].Some? ::
         marks[i].value < |issued| && Conveys(h, c, mail[i], issued[marks[i].value])
  }

  ghost predicate Ordered(marks: seq<Option<nat>>) {
    forall i, j | 0 <= i < j < |marks| && marks[i].Some? && marks[j].Some? :: marks[i].value < marks[j].value
  }

  ghost predicate Below(marks: seq<Option<nat>>, n: int) {
    forall i | 0 <= i < |marks| && marks[i].Some? :: marks[i].value < n
  }

  /** The message a client is about to enqueue. */
  function InHand(pc: Pc): Option<Json> {
    match pc
    case Notifying(msg) => Some(msg)
    case Taken(_, _, fwd) => Some(fwd)
    case Enqueueing(_, fwd) => Some(fwd)
    case _ => None
  }

  /** What client `c` has in hand is the last message it issued, and is not marked yet. */
  ghost predicate HandAgrees(l: Ledger, s: State, c: nat) {
    c < |s.clients| && InHand(s.clients[c].pc).Some? ==>
      && l.issued != []
      && Conveys(s.hist, c, InHand(s.clients[c].pc).value, l.issued[|l.issued| - 1])
      && Below(l.written + l.queued, |l.issued| - 1)
  }

  ghost predicate Keeps(l: Ledger, s: State, c: nat) {
    && Matches(l.queued, s.upstream, l.issued, s.hist, c)
    && Matches(l.written, s.delivered, l.issued, s.hist, c)
    && Ordered(l.written + l.queued)
    && HandAgrees(l, s, c)
  }

  // ----- Marks -----

  lemma MatchesMore(
      marks: seq<Option<nat>>, mail: seq<Json>, l: seq<Json>, h: seq<Event>, c: nat, m: seq<Json>, g: seq<Event>)
    requires Matches(marks, mail, l, h, c) && l <= m && h <= g
    ensures Matches(marks, mail, m, g, c)
  {
    forall i | 0 <= i < |marks| && marks[i].Some?
      ensures marks[i].value < |m| && Conveys(g, c, mail[i], m[marks[i].value])
    {
      assert Conveys(h, c, mail[i], l[marks[i].value]);
    }
  }

  lemma MatchesAppend(
      marks: seq<Option<nat>>, mail: seq<Json>, l: seq<Json>, h: seq<Event>, c: nat, x: Option<nat>, y: Json)
    requires Matches(marks, mail, l, h, c) && (x.Some? ==> x.value < |l| && Conveys(h, c, y, l[x.value]))
    ensures Matches(marks + [x], mail + [y], l, h, c)
  {}

  lemma BelowAppend(marks: seq<Option<nat>>, x: Option<nat>, n: int)
    requires Below(marks, n) && (x.Some? ==> x.value < n)
    ensures Below(marks + [x], n)
  {}

  lemma OrderedAppend(marks: seq<Option<nat>>, x: Option<nat>)
    requires Ordered(marks) && (x.Some? ==> Below(marks, x.value))
    ensures Ordered(marks + [x])
  {
    var all := marks + [x];
    assert forall i | 0 <= i < |marks| :: all[i] == marks[i];
    forall i, j | 0 <= i < j < |all| && all[i].Some? && all[j].Some? ensures all[i].value < all[j].value {
      assert j < |marks| ==> marks[j].Some? && marks[i].Some?;
    }
  }

  /** Dropping the head of the queue keeps order and bounds. */
  lemma DropHead(written: seq<Option<nat>>, queued: seq<Option<nat>>, n: int)
    requires queued != []
    ensures Ordered(written + queued) ==> Ordered(written + queued[1..])
    ensures Below(written + queued, n) ==> Below(written + queued[1..], n)
  {
    var all, less := written + queued, written + queued[1..];
    assert forall i | 0 <= i < |less| :: less[i] == all[if i < |written| then i else i + 1];
    if Ordered(all) {
      forall i, j | 0 <= i < j < |less| && less[i].Some? && less[j].Some? ensures less[i].value < less[j].value {
        var m, n := if i < |written| then i else i + 1, if j < |written| then j else j + 1;
        assert all[m].value < all[n].value;
      }
    }
  }

  lemma MoveHead(written: seq<Option<nat>>, queued: seq<Option<nat>>)
    requires queued != []
    ensures (written + [queued[0]]) + queued[1..] == written + queued
  {}

  // ----- Steps -----

  /** A step that leaves queue, wire and the client's hand alone. */
  lemma Undisturbed(l: Ledger, s: State, t: State, c: nat)
    requires Keeps(l, s, c) && s.hist <= t.hist && t.upstream == s.upstream && t.delivered == s.delivered
    requires |s.clients| <= |t.clients|
    requires c < |t.clients| && InHand(t.clients[c].pc).Some? ==>
               c < |s.clients| && InHand(t.clients[c].pc) == InHand(s.clients[c].pc)
    ensures Keeps(l, t, c)
  {
    MatchesMore(l.queued, s.upstream, l.issued, s.hist, c, l.issued, t.hist);
    MatchesMore(l.written, s.delivered, l.issued, s.hist, c, l.issued, t.hist);
  }

  /** A message is appended to the queue: the one in the client's hand, or one of somebody else. */
  lemma Appended(l: Ledger, s: State, t: State, c: nat, x: Option<nat>, y: Json)
    requires Keeps(l, s, c) && t.hist == s.hist && t.upstream == s.upstream + [y] && t.delivered == s.delivered
    requires |t.clients| == |s.clients|
    requires x.Some? ==> c < |s.clients| && InHand(s.clients[c].pc) == Some(y) && InHand(t.clients[c].pc).None?
    requires x.Some? ==> x == Mark(l, c, c)
    requires x.None? && c < |s.clients| ==>
               InHand(t.clients[c].pc) == InHand(s.clients[c].pc) || InHand(t.clients[c].pc).None?
    ensures Keeps(l.(queued := l.queued + [x]), t, c)
  {
    var marks := l.written + l.queued;
    assert l.written + (l.queued + [x]) == marks + [x];
    MatchesAppend(l.queued, s.upstream, l.issued, s.hist, c, x, y);
    OrderedAppend(marks, x);
    if c < |t.clients| && InHand(t.clients[c].pc).Some? {
      BelowAppend(marks, x, |l.issued| - 1);
    }
  }

  lemma RequestKeeps(l: Ledger, s: State, a: Action, c: nat)
    requires Keeps(l, s, c) && Enabled(s, a) && a.Request?
    ensures Keeps(Track(l, s, a, c), NextSocket(s, a), c)
  {
    var t := NextSocket(s, a);
    RequestFrame(s, a);
    if IssuedIn(a, c) == [] {
      assert l.issued + [] == l.issued;
      Undisturbed(l, s, t, c);
    } else {
      TakenConveys(s, a);
      Issues(l, s, t, c, Hooked(a.msg, a.hook));
    }
  }

  /** A request changes nothing but the client's task and the history. */
  lemma RequestFrame(s: State, a: Action)
    requires Enabled(s, a) && a.Request?
    ensures
      var t := NextSocket(s, a);
      && s.hist <= t.hist && t.upstream == s.upstream && t.delivered == s.delivered && |t.clients| == |s.clients|
      && (forall d | 0 <= d < |s.clients| && d != a.c :: t.clients[d] == s.clients[d])
      && (a.hook.Block? || a.hook.Reply? ==> InHand(t.clients[a.c].pc).None?)
  {}

  /** The client takes a new message in hand. */
  lemma Issues(l: Ledger, s: State, t: State, c: nat, m: Json)
    requires Keeps(l, s, c) && s.hist <= t.hist && t.upstream == s.upstream && t.delivered == s.delivered
    requires c < |t.clients| && InHand(t.clients[c].pc).Some? && Conveys(t.hist, c, InHand(t.clients[c].pc).value, m)
    ensures Keeps(l.(issued := l.issued + [m]), t, c)
  {
    MatchesMore(l.queued, s.upstream, l.issued, s.hist, c, l.issued + [m], t.hist);
    MatchesMore(l.written, s.delivered, l.issued, s.hist, c, l.issued + [m], t.hist);
    MarksBelow(l, s, c);
  }

  lemma MarksBelow(l: Ledger, s: State, c: nat)
    requires Keeps(l, s, c)
    ensures Below(l.written + l.queued, |l.issued|)
  {
    var all := l.written + l.queued;
    assert forall i | 0 <= i < |all| :: all[i] == if i < |l.written| then l.written[i] else l.queued[i - |l.written|];
  }

  /** The message in hand after a request that passed the hook is the one issued. */
  lemma TakenConveys(s: State, a: Action)
    requires Enabled(s, a) && a.Request? && !a.hook.Block? && !a.hook.Reply?
    ensures
      var t := NextSocket(s, a);
      && InHand(t.clients[a.c].pc).Some?
      && Conveys(t.hist, a.c, InHand(t.clients[a.c].pc).value, Hooked(a.msg, a.hook))
  {
    var m := Hooked(a.msg, a.hook);
    PcAfterRequest(s, a);
    if GetId(m).Some? {
      SocketRecords(s, a);
      RewrittenConveys(s.hist, a.c, m, s.nextId);
    }
  }

  lemma RewrittenConveys(h: seq<Event>, c: nat, m: Json, rid: nat)
    requires GetId(m).Some?
    ensures Conveys(h + [Requested(rid, c, m)], c, WithId(m, Int(rid)), m)
  {
    RestoreUndoesRemap(m, GetId(m).value, rid);
  }

  lemma SocketKeeps(l: Ledger, s: State, a: Action, c: nat)
    requires Keeps(l, s, c) && Enabled(s, a) && IsSocketAction(a) && !a.Request?
    ensures Keeps(Track(l, s, a, c), NextSocket(s, a), c)
  {
    Undisturbed(l, s, NextSocket(s, a), c);
  }

  lemma EnqueueKeeps(l: Ledger, s: State, a: Action, c: nat)
    requires Keeps(l, s, c) && Enabled(s, a) && (a.Enqueue? || a.SendNotification?) && !s.conn.Closed?
    ensures Keeps(Track(l, s, a, c), NextClient(s, a), c)
  {
    var t, body := NextClient(s, a), InHand(s.clients[a.c].pc).value;
    assert t.upstream == s.upstream + [body];
    assert a.c == c ==> InHand(t.clients[c].pc).None?;
    Appended(l, s, t, c, Mark(l, a.c, c), body);
  }

  lemma ClientKeeps(l: Ledger, s: State, a: Action, c: nat)
    requires Keeps(l, s, c) && Enabled(s, a) && IsClientAction(a)
    requires (a.Enqueue? || a.SendNotification?) ==> s.conn.Closed?
    ensures Keeps(Track(l, s, a, c), NextClient(s, a), c)
  {
    var t := NextClient(s, a);
    assert a.c != c && c < |s.clients| ==> t.clients[c] == s.clients[c];
    assert a.Register? ==> InHand(t.clients[a.c].pc) == InHand(s.clients[a.c].pc);
    assert !a.Register? ==> InHand(t.clients[a.c].pc).None?;
    assert t.upstream == s.upstream;
    Undisturbed(l, s, t, c);
  }

  lemma UpstreamKeeps(l: Ledger, s: State, a: Action, c: nat)
    requires Keeps(l, s, c) && Enabled(s, a) && IsUpstreamAction(a)
    requires !a.Write? && !a.WriteFails? && !a.CloseUpstream?
    ensures Keeps(Track(l, s, a, c), NextUpstream(s, a), c)
  {
    var t := NextUpstream(s, a);
    assert c < |s.clients| ==> t.clients[c].pc == s.clients[c].pc;
    Undisturbed(l, s, t, c);
  }

  lemma WriteKeeps(l: Ledger, s: State, a: Action, c: nat)
    requires Keeps(l, s, c) && Enabled(s, a) && (a.Write? || a.WriteFails?)
    ensures Keeps(Track(l, s, a, c), NextUpstream(s, a), c)
  {
    MoveHead(l.written, l.queued);
    DropHead(l.written, l.queued, |l.issued| - 1);
    MatchesAppend(l.written, s.delivered, l.issued, s.hist, c, l.queued[0], s.upstream[0]);
  }

  lemma CloseKeeps(l: Ledger, s: State, a: Action, c: nat)
    requires Keeps(l, s, c) && Enabled(s, a) && a.CloseUpstream?
    ensures Keeps(Track(l, s, a, c), NextUpstream(s, a), c)
  {
    var all := l.written + l.queued;
    assert l.written + [] == l.written && forall i | 0 <= i < |l.written| :: l.written[i] == all[i];
  }

  lemma ReaderKeeps(l: Ledger, s: State, a: Action, c: nat)
    requires Keeps(l, s, c) && Enabled(s, a) && IsReaderAction(a)
    ensures Keeps(Track(l, s, a, c), NextReader(s, a), c)
  {
    var t := NextReader(s, a);
    ReaderFrame(s, a);
    if |t.upstream| > |s.upstream| {
      Appended(l, s, t, c, None, t.upstream[|s.upstream|]);
    } else {
      Undisturbed(l, s, t, c);
    }
  }

  lemma ReaderFrame(s: State, a: Action)
    requires Enabled(s, a) && IsReaderAction(a)
    ensures
      var t := NextReader(s, a);
      && s.hist <= t.hist && t.delivered == s.delivered && |t.clients| == |s.clients|
      && (forall d | 0 <= d < |s.clients| :: t.clients[d].pc == s.clients[d].pc)
      && (if |t.upstream| > |s.upstream| then t.upstream == s.upstream + [t.upstream[|s.upstream|]] && t.hist == s.hist
          else t.upstream == s.upstream)
  {}

  lemma StepKeeps(l: Ledger, s: State, a: Action, c: nat)
    requires Keeps(l, s, c) && Enabled(s, a)
    ensures Keeps(Track(l, s, a, c), Next(s, a), c)
  {
    if a.Request? {
      RequestKeeps(l, s, a, c);
    } else if IsSocketAction(a) {
      SocketKeeps(l, s, a, c);
    } else if IsClientAction(a) {
      if (a.Enqueue? || a.SendNotification?) && !s.conn.Closed? {
        EnqueueKeeps(l, s, a, c);
      } else {
        ClientKeeps(l, s, a, c);
      }
    } else if a.Write? || a.WriteFails? {
      WriteKeeps(l, s, a, c);
    } else if a.CloseUpstream? {
      CloseKeeps(l, s, a, c);
    } else if IsUpstreamAction(a) {
      UpstreamKeeps(l, s, a, c);
    } else {
      ReaderKeeps(l, s, a, c);
    }
  }

  lemma {:induction false} RunKeeps(l: Ledger, s: State, acts: seq<Action>, t: State, c: nat)
    requires Keeps(l, s, c) && Run(s, acts, t)
    ensures Keeps(Tracked(l, s, acts, t, c), t, c)
    ensures Tracked(l, s, acts, t, c).issued == l.issued + Issued(acts, c)
    decreases |acts|
  {
    if acts == [] {
      assert l.issued + [] == l.issued;
    } else {
      var next := Track(l, s, acts[0], c);
      StepKeeps(l, s, acts[0], c);
      assert next.issued == l.issued + IssuedIn(acts[0], c);
      RunKeeps(next, Next(s, acts[0]), acts[1..], t, c);
      Associative(l.issued, IssuedIn(acts[0], c), Issued(acts[1..], c));
    }
  }

  // ----- Everything of the client is marked -----

  /** A message with this id belongs to an id given out, and is marked if the request is that of `c`. */
  predicate Owned(mark: Option<nat>, body: Json, rid: nat, p: Place, c: nat) {
    Carries(body, rid) ==> !p.Unused? && (IsRequest(p) && p.c == c ==> mark.Some?)
  }

  ghost predicate AllOwned(marks: seq<Option<nat>>, mail: seq<Json>, rid: nat, p: Place, c: nat) {
    |marks| == |mail| && forall i | 0 <= i < |mail| :: Owned(marks[i], mail[i], rid, p, c)
  }

  ghost predicate Accounts(l: Ledger, s: State, c: nat, rid: nat, p: Place) {
    AllOwned(l.queued, s.upstream, rid, p, c) && AllOwned(l.written, s.delivered, rid, p, c)
  }

  lemma OwnedStays(marks: seq<Option<nat>>, mail: seq<Json>, s: State, a: Action, c: nat, rid: nat, p: Place)
    requires AllOwned(marks, mail, rid, p, c) && At(s, rid, p) && Enabled(s, a)
    ensures AllOwned(marks, mail, rid, Move(s, a, rid, p), c)
  {
    var q := Move(s, a, rid, p);
    if !p.Unused? {
      MoveKeepsRequest(s, a, rid, p);
    }
    forall i | 0 <= i < |mail| ensures Owned(marks[i], mail[i], rid, q, c) {
      assert Owned(marks[i], mail[i], rid, p, c);
    }
  }

  lemma EnqueueOwned(l: Ledger, s: State, a: Action, c: nat, rid: nat, p: Place)
    requires Keeps(l, s, c) && Accounts(l, s, c, rid, p) && Orderly(s, rid, p) && Enabled(s, a)
    requires (a.Enqueue? || a.SendNotification?) && !s.conn.Closed?
    ensures Accounts(Track(l, s, a, c), NextClient(s, a), c, rid, p)
  {
    assert StampedPc(s.clients[a.c].pc);
    assert Owned(Mark(l, a.c, c), InHand(s.clients[a.c].pc).value, rid, p, c);
    assert NextClient(s, a).delivered == s.delivered;
  }

  lemma ClientOwned(l: Ledger, s: State, a: Action, c: nat, rid: nat, p: Place)
    requires Accounts(l, s, c, rid, p) && Enabled(s, a) && IsClientAction(a)
    requires (a.Enqueue? || a.SendNotification?) ==> s.conn.Closed?
    ensures Accounts(Track(l, s, a, c), NextClient(s, a), c, rid, p)
  {
    assert NextClient(s, a).upstream == s.upstream && NextClient(s, a).delivered == s.delivered;
  }

  lemma SocketOwned(l: Ledger, s: State, a: Action, c: nat, rid: nat, p: Place)
    requires Accounts(l, s, c, rid, p) && Enabled(s, a) && IsSocketAction(a)
    ensures Accounts(Track(l, s, a, c), NextSocket(s, a), c, rid, p)
  {
    assert NextSocket(s, a).upstream == s.upstream && NextSocket(s, a).delivered == s.delivered;
  }

  lemma UpstreamOwned(l: Ledger, s: State, a: Action, c: nat, rid: nat, p: Place)
    requires Accounts(l, s, c, rid, p) && Enabled(s, a) && IsUpstreamAction(a)
    ensures Accounts(Track(l, s, a, c), NextUpstream(s, a), c, rid, p)
  {
    if a.Write? {
      assert Owned(l.queued[0], s.upstream[0], rid, p, c);
    } else {
      assert NextUpstream(s, a).delivered == s.delivered;
    }
  }

  lemma ReaderOwned(l: Ledger, s: State, a: Action, c: nat, rid: nat, p: Place)
    requires Accounts(l, s, c, rid, p) && HeartAgrees(s, rid, p) && rid >= FIRST_ID
    requires Enabled(s, a) && IsReaderAction(a) && !Injects(a)
    ensures Accounts(Track(l, s, a, c), NextReader(s, a), c, rid, p)
  {
    assert NextReader(s, a).delivered == s.delivered;
    if a.SendBeat? {
      assert Owned(None, Heartbeat(s.heart.rid), rid, p, c);
    } else if a.Inject? {
      assert Owned(None, a.msg, rid, p, c);
    } else {
      assert NextReader(s, a).upstream == s.upstream;
    }
  }

  lemma StepAccounts(l: Ledger, s: State, a: Action, c: nat, rid: nat, p: Place)
    requires Keeps(l, s, c) && Accounts(l, s, c, rid, p) && At(s, rid, p) && Orderly(s, rid, p) && rid >= FIRST_ID
    requires Enabled(s, a) && !Injects(a)
    ensures Accounts(Track(l, s, a, c), Next(s, a), c, rid, Move(s, a, rid, p))
  {
    if IsSocketAction(a) {
      SocketOwned(l, s, a, c, rid, p);
    } else if IsClientAction(a) {
      if (a.Enqueue? || a.SendNotification?) && !s.conn.Closed? {
        EnqueueOwned(l, s, a, c, rid, p);
      } else {
        ClientOwned(l, s, a, c, rid, p);
      }
    } else if IsUpstreamAction(a) {
      UpstreamOwned(l, s, a, c, rid, p);
    } else {
      ReaderOwned(l, s, a, c, rid, p);
    }
    AccountsMove(Track(l, s, a, c), Next(s, a), s, a, c, rid, p);
  }

  lemma AccountsMove(l: Ledger, t: State, s: State, a: Action, c: nat, rid: nat, p: Place)
    requires Accounts(l, t, c, rid, p) && At(s, rid, p) && Enabled(s, a)
    ensures Accounts(l, t, c, rid, Move(s, a, rid, p))
  {
    OwnedStays(l.queued, t.upstream, s, a, c, rid, p);
    OwnedStays(l.written, t.delivered, s, a, c, rid, p);
  }

  lemma {:induction false} RunAccounts(l: Ledger, s: State, acts: seq<Action>, t: State, c: nat, rid: nat, p: Place)
    returns (q: Place)
    requires Keeps(l, s, c) && Accounts(l, s, c, rid, p) && Located(s, rid, p) && Orderly(s, rid, p)
    requires rid >= FIRST_ID && Run(s, acts, t) && forall a | a in acts :: !Injects(a)
    ensures Located(t, rid, q) && Accounts(Tracked(l, s, acts, t, c), t, c, rid, q)
    decreases |acts|
  {
    q := p;
    if acts != [] {
      var a := acts[0];
      assert a in acts;
      StepKeeps(l, s, a, c);
      StepAccounts(l, s, a, c, rid, p);
      StepLocates(s, a, rid, p);
      StepOrderly(s, a, rid, p);
      q := RunAccounts(Track(l, s, a, c), Next(s, a), acts[1..], t, c, rid, Move(s, a, rid, p));
    }
  }

  lemma {:induction false} StoryHolds(h: seq<Event>, e: Event)
    requires e in h
    ensures e in Story(h, e.rid)
  {
    var n := |h| - 1;
    assert h == h[..n] + [h[n]];
    if e in h[..n] {
      StoryHolds(h[..n], e);
    }
  }

  /** No request of `c` was written without a mark. */
  ghost predicate MarksRequests(l: Ledger, t: State, c: nat) {
    |l.written| == |t.delivered|
    && forall i, rid: nat, m |
         0 <= i < |t.delivered| && Carries(t.delivered[i], rid) && Requested(rid, c, m) in t.hist ::
         l.written[i].Some?
  }

  /** As long as hooks inject no id of the proxy's kind, every written request of `c` is marked. */
  lemma WrittenRequestsAreMarked(acts: seq<Action>, t: State, c: nat, i: nat, rid: nat, m: Json)
    requires Run(Init(), acts, t) && forall a | a in acts :: !Injects(a)
    requires i < |t.delivered| && JsonRpcId(t.delivered[i]) == Some(rid) && Requested(rid, c, m) in t.hist
    ensures
      var l := Tracked(Ledger([], [], []), Init(), acts, t, c);
      |l.written| == |t.delivered| && l.written[i].Some?
  {
    var p := RequesterIsKnown(t, rid, c, m);
    StartsOrderly(rid);
    var q := RunAccounts(Ledger([], [], []), Init(), acts, t, c, rid, Unused);
    PlaceIsUnique(t, rid, p, q);
    var l := Tracked(Ledger([], [], []), Init(), acts, t, c);
    assert Owned(l.written[i], t.delivered[i], rid, q, c);
  }

  /** The history names the client of a request. */
  lemma RequesterIsKnown(t: State, rid: nat, c: nat, m: Json) returns (p: Place)
    requires Reachable(t) && Requested(rid, c, m) in t.hist
    ensures Located(t, rid, p) && IsRequest(p) && p.c == c && rid >= FIRST_ID
  {
    p := ReachableLocates(t, rid);
    StoryHolds(t.hist, Requested(rid, c, m));
  }

  /**
   Over every run, whatever hooks, connections and other clients do, the messages
   of client `c` that were written to the telescope are messages it issued, each
   at most once and in the order it issued them: notifications unchanged, requests
   unchanged once the id taken for them is replaced by their own. No request of
   `c` is left unmarked, as long as hooks inject no id of the proxy's kind.
   */
  lemma TelescopeHearsInOrder(acts: seq<Action>, t: State, c: nat)
    requires Run(Init(), acts, t)
    ensures
      var l := Tracked(Ledger([], [], []), Init(), acts, t, c);
      && l.issued == Issued(acts, c)
      && Matches(l.written, t.delivered, l.issued, t.hist, c)
      && Ordered(l.written)
      && ((forall a | a in acts :: !Injects(a)) ==> MarksRequests(l, t, c))
  {
    if forall a | a in acts :: !Injects(a) {
      forall i, rid: nat, m |
        0 <= i < |t.delivered| && Carries(t.delivered[i], rid) && Requested(rid, c, m) in t.hist
        ensures
          var l := Tracked(Ledger([], [], []), Init(), acts, t, c);
          |l.written| == |t.delivered| && l.written[i].Some?
      {
        WrittenRequestsAreMarked(acts, t, c, i, rid, m);
      }
    }
    RunKeeps(Ledger([], [], []), Init(), acts, t, c);
    var l := Tracked(Ledger([], [], []), Init(), acts, t, c);
    assert [] + Issued(acts, c) == Issued(acts, c);
    var all := l.written + l.queued;
    assert forall i | 0 <= i < |l.written| :: l.written[i] == all[i];
  }
}
