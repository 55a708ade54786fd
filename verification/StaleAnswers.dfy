/**
 A drain empties the pending map but not the upstream queue. The request whose
 client was told "telescope reconnecting" can therefore still be sent, and its
 answer then reaches every client as a broadcast under the remapped id.
 */
module StaleAnswers {
  import opened Prelude
  import opened Json
  import opened Multiplexer

  /** The state after a first client sent `m` before the first connection came up. */
  function Early(m: Json, conn: Conn): State
    requires GetId(m).Some?
  {
    State(FIRST_ID + 1, map[FIRST_ID := Entry(0, GetId(m).value)], Free,
          [Client(Idle, true, [], [])], [WithId(m, Int(FIRST_ID))], conn, [], Resting, false, [], [],
          [Requested(FIRST_ID, 0, m), Registered(FIRST_ID, 0, GetId(m).value)])
  }

  lemma EarlyRequest(m: Json) returns (acts: seq<Action>)
    requires GetId(m).Some?
    ensures Run(Init(), acts, Early(m, Down))
  {
    var id, fwd := GetId(m).value, WithId(m, Int(FIRST_ID));
    var s1 := NextSocket(Init(), Accept);
    var s2 := NextSocket(s1, Request(0, m, Forward));
    assert s2.clients == [Client(Taken(FIRST_ID, id, fwd), true, [], [])];
    var s3 := NextClient(s2, Register(0));
    assert s3.clients == [Client(Enqueueing(FIRST_ID, fwd), true, [], [])];
    assert NextClient(s3, Enqueue(0)) == Early(m, Down);
    acts := RunOf4(Init(), Accept, s1, Request(0, m, Forward), s2, Register(0), s3, Enqueue(0), Early(m, Down));
  }

  /** The client as the drain leaves it. */
  function Notified(id: Json): Client {
    Client(Idle, true, [Item(FromDrain(FIRST_ID), ReconnectError(id))], [])
  }

  /** The state after the drain of the first connection. */
  function Reconnected(m: Json): State
    requires GetId(m).Some?
  {
    Early(m, Up(0, [])).(
      pending := map[], clients := [Notified(GetId(m).value)], readers := [Waiting],
      hist := Early(m, Down).hist + [Drained(FIRST_ID)])
  }

  /** The state inside that drain, with the entry removed. */
  function Emptied(m: Json): State
    requires GetId(m).Some?
  {
    Reconnected(m).(conn := Draining, lock := HeldByDrain, readers := [])
  }

  lemma DrainEarly(m: Json)
    requires GetId(m).Some?
    ensures var s := Early(m, Draining).(lock := HeldByDrain);
            Enabled(s, DrainEntry(FIRST_ID)) && NextUpstream(s, DrainEntry(FIRST_ID)) == Emptied(m)
  {
    var s := Early(m, Draining).(lock := HeldByDrain);
    var t := NextUpstream(s, DrainEntry(FIRST_ID));
    var item := Item(FromDrain(FIRST_ID), ReconnectError(GetId(m).value));
    assert TryPut(s.clients[0], item) == Notified(GetId(m).value) by {
      assert [] + [item] == [item];
    }
    assert t.clients == [Notified(GetId(m).value)];
    assert t.pending == map[];
    assert t.hist == Early(m, Down).hist + [Drained(FIRST_ID)];
  }

  lemma EndDrainEarly(m: Json)
    requires GetId(m).Some?
    ensures Enabled(Emptied(m), EndDrain) && NextUpstream(Emptied(m), EndDrain) == Reconnected(m)
  {
    assert [] + [Waiting] == [Waiting];
  }

  lemma Reconnect(m: Json) returns (acts: seq<Action>)
    requires GetId(m).Some?
    ensures Run(Early(m, Down), acts, Reconnected(m))
  {
    var s0, s1 := Early(m, Down), Early(m, Connected);
    var s2 := Early(m, Draining).(lock := HeldByDrain);
    DrainEarly(m);
    EndDrainEarly(m);
    assert NextUpstream(s0, Connect) == s1;
    assert NextUpstream(s1, BeginDrain) == s2;
    acts := RunOf4(s0, Connect, s1, BeginDrain, s2, DrainEntry(FIRST_ID), Emptied(m), EndDrain, Reconnected(m));
  }

  /**
   For every request with an id and every answer to it there is a run in which
   the client is told to reconnect, the request is written all the same, and the
   answer is broadcast with the id the proxy gave out.
   */
  lemma StaleAnswerIsBroadcast(m: Json, answer: Json)
    requires GetId(m).Some? && JsonRpcId(answer) == Some(FIRST_ID) && !IsEvent(answer)
    ensures exists acts, t ::
      && Run(Init(), acts, t)
      && t.clients == [Notified(GetId(m).value)]
      && t.delivered == [WithId(m, Int(FIRST_ID))]
      && t.broadcasts == [answer]
  {
    var early := EarlyRequest(m);
    var drain := Reconnect(m);
    var s := Reconnected(m);
    RunJoin(Init(), early, Early(m, Down), drain, s);
    var sent, t := AnswerArrives(m, answer);
    RunAppend(Init(), early + drain, s, Write);
    RunAppend(Init(), early + drain + [Write], sent, Receive(0, answer, true));
  }

  lemma AnswerArrives(m: Json, answer: Json) returns (sent: State, t: State)
    requires GetId(m).Some? && JsonRpcId(answer) == Some(FIRST_ID) && !IsEvent(answer)
    ensures Enabled(Reconnected(m), Write) && sent == Next(Reconnected(m), Write)
    ensures Enabled(sent, Receive(0, answer, true)) && t == Next(sent, Receive(0, answer, true))
    ensures t.clients == [Notified(GetId(m).value)]
    ensures t.delivered == [WithId(m, Int(FIRST_ID))] && t.broadcasts == [answer]
  {
    sent := NextUpstream(Reconnected(m), Write);
    assert sent.delivered == [WithId(m, Int(FIRST_ID))];
    assert RouteOf(sent.pending, answer) == Broadcast;
    t := NextReceive(sent, 0, answer, true);
    assert t.broadcasts == [answer];
  }
}
