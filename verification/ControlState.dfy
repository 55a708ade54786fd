/**
 The shared fields of the control proxy and the critical sections that update
 them. Every method is tied to the step of the state machine it carries out.
 */
module ControlState {
  import opened Prelude
  import opened Json
  import opened Multiplexer

  class ControlState {
    var pending: map<nat, Entry>
    var nextId: nat

    /** The fields hold what state `s` says they hold. */
    ghost predicate Shows(s: State)
      reads this
    {
      pending == s.pending && nextId == s.nextId
    }

    constructor ()
      ensures Shows(Init())
    {
      pending, nextId := map[], FIRST_ID;
    }

    /** Reads a request with an id: takes a fresh id and rewrites the message. */
    method Remap(msg: Json, ghost s: State, ghost c: nat) returns (rid: nat, fwd: Json)
      requires Shows(s) && Enabled(s, Request(c, msg, Forward)) && GetId(msg).Some?
      modifies this`nextId
      ensures Shows(Next(s, Request(c, msg, Forward)))
      ensures Next(s, Request(c, msg, Forward)).clients[c].pc == Taken(rid, GetId(msg).value, fwd)
      ensures JsonRpcId(fwd) == Some(rid) && WithId(fwd, GetId(msg).value) == msg
    {
      rid := nextId;
      nextId := nextId + 1;
      fwd := WithId(msg, Int(rid));
      RestoreUndoesRemap(msg, GetId(msg).value, rid);
    }

    /** One lock acquisition for both the size check and the insertion. */
    method Admit(rid: nat, client: nat, originalId: Json, ghost s: State) returns (refusal: Option<Json>)
      requires Shows(s) && s.lock.Free? && client < |s.clients|
      requires s.clients[client].pc.Taken? && s.clients[client].pc.rid == rid
      requires s.clients[client].pc.originalId == originalId
      modifies this`pending
      ensures refusal.None? ==> Enabled(s, Register(client)) && Shows(Next(s, Register(client)))
      ensures refusal.Some? ==> Enabled(s, Refuse(client)) && Shows(Next(s, Refuse(client)))
                                && refusal.value == OverflowError(originalId)
    {
      if |pending| >= MAX_PENDING {
        refusal := Some(OverflowError(originalId));
      } else {
        pending := pending[rid := Entry(client, originalId)];
        refusal := None;
      }
    }

    /** Classifies a telescope line, given the hook's verdict, and removes the entry it answers. */
    method TakeRoute(k: nat, msg: Json, forward: bool, ghost s: State)
      returns (reply: Option<(nat, Json)>, broadcast: bool)
      requires Shows(s) && Enabled(s, Receive(k, msg, forward))
      modifies this`pending
      ensures Shows(Next(s, Receive(k, msg, forward)))
      ensures
        var t := Next(s, Receive(k, msg, forward));
        && t.broadcasts == (if broadcast then s.broadcasts + [msg] else s.broadcasts)
        && (reply.Some? ==>
              && t.readers[k].Delivering? && reply.value.0 == t.readers[k].entry.client
              && reply.value.1 == WithId(msg, t.readers[k].entry.originalId))
        && (reply.None? ==> t.readers == s.readers)
    {
      reply, broadcast := None, forward;
      if !IsEvent(msg) {
        var id := JsonRpcId(msg);
        if id.None? {
          broadcast := true;
        } else if id.value in pending {
          var entry := pending[id.value];
          pending := pending - {id.value};
          reply, broadcast := Some((entry.client, WithId(msg, entry.originalId))), false;
        }
      }
    }

    /** Empties the map in some order, one reconnect error for each entry. */
    method Drain() returns (errors: seq<(nat, Json)>, ghost order: seq<nat>)
      modifies this`pending
      ensures pending == map[] && Enumerates(order, old(pending)) && |errors| == |order|
      ensures forall i | 0 <= i < |order| ::
                errors[i] == (old(pending)[order[i]].client, ReconnectError(old(pending)[order[i]].originalId))
    {
      ghost var all := pending;
      errors, order := [], [];
      while pending != map[]
        invariant forall rid | rid in pending :: rid in all && pending[rid] == all[rid]
        invariant |errors| == |order| == |all| - |pending|
        invariant forall i | 0 <= i < |order| :: order[i] in all && order[i] !in pending
        invariant forall i | 0 <= i < |order| ::
                    errors[i] == (all[order[i]].client, ReconnectError(all[order[i]].originalId))
        invariant forall i, j | 0 <= i < j < |order| :: order[i] != order[j]
        decreases pending.Keys
      {
        var rid: nat :| rid in pending;
        var entry := pending[rid];
        errors := errors + [(entry.client, ReconnectError(entry.originalId))];
        order := order + [rid];
        assert (pending - {rid}).Keys == pending.Keys - {rid};
        pending := pending - {rid};
      }
    }
  }

  /** Every key of the map, each once. */
  ghost predicate Enumerates(order: seq<nat>, m: map<nat, Entry>) {
    && |order| == |m|
    && (forall i | 0 <= i < |order| :: order[i] in m)
    && (forall i, j | 0 <= i < j < |order| :: order[i] != order[j])
  }

  function Drainings(order: seq<nat>): seq<Action> {
    seq(|order|, i requires 0 <= i < |order| => DrainEntry(order[i]))
  }

  /** One entry drained, the others remain to be drained in their order. */
  lemma DrainFirst(s: State, order: seq<nat>)
    requires Enumerates(order, s.pending) && order != [] && s.conn.Draining? && EntriesKnown(s)
    ensures
      Enabled(s, DrainEntry(order[0]))
      && var u := NextUpstream(s, DrainEntry(order[0]));
         Enumerates(order[1..], u.pending) && u.conn.Draining? && EntriesKnown(u)
  {
    var u := NextUpstream(s, DrainEntry(order[0]));
    assert u.pending.Keys == s.pending.Keys - {order[0]};
  }

  ghost predicate EntriesKnown(s: State) {
    forall rid | rid in s.pending :: s.pending[rid].client < |s.clients|
  }

  lemma DrainingsFirst(order: seq<nat>)
    requires order != []
    ensures Drainings(order) == [DrainEntry(order[0])] + Drainings(order[1..])
  {}

  /** Whatever the order, the drain is a run of the state machine that can then end. */
  lemma {:induction false} DrainIsRun(s: State, order: seq<nat>) returns (t: State)
    requires Enumerates(order, s.pending) && s.conn.Draining? && EntriesKnown(s)
    ensures Run(s, Drainings(order), t) && Enabled(t, EndDrain)
    decreases |order|
  {
    if order == [] {
      t := s;
    } else {
      DrainFirst(s, order);
      t := DrainIsRun(NextUpstream(s, DrainEntry(order[0])), order[1..]);
      RunCons(s, DrainEntry(order[0]), Drainings(order[1..]), t);
      DrainingsFirst(order);
    }
  }
}
