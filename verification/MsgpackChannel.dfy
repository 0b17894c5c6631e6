/**
  The msgpack channel's own fields and the critical sections of its threads.
  Each method is one event of MsgpackCalls, so what is proved there for every
  run holds of the object.
 */
module MsgpackChannel {
  import opened Common
  import opened MsgpackCalls

  class KrpcMsgpackChannel {
    var nextRequestId: RequestId
    var pending: map<RequestId, PendingCall>
    var socketUp: bool
    /** Promises set and callbacks run, in order. */
    var fired: seq<Firing>
    /** Every event so far, of all threads. */
    ghost var events: seq<Event>

    ghost function View(): State
      reads this
    {
      Run(events)
    }

    ghost predicate Valid()
      reads this
    {
      && View().nextId == nextRequestId && View().pending == pending
      && View().connected == socketUp && View().fired == fired
    }

    constructor ()
      ensures Valid() && events == []
    {
      nextRequestId, pending, socketUp, fired, events := 1, map[], false, [], [];
    }

    method NextRequestId(ghost t: Ticket) returns (id: RequestId)
      requires Valid() && Enabled(View(), AllocateId(t))
      modifies this
      ensures Valid() && events == old(events) + [AllocateId(t)]
      ensures View().ids[t] == id && id !in old(View()).owner
    {
      InvRun(events);
      assert IdOk(View(), nextRequestId);
      RunStep(events, AllocateId(t));
      id := nextRequestId;
      nextRequestId := nextRequestId + 1;
      events := events + [AllocateId(t)];
    }

    /** First critical section of EnqueueRequest. */
    method EmplacePending(t: Ticket, id: RequestId, sink: Sink, timeout: nat, now: int)
      requires Valid() && Enabled(View(), Publish(t, now))
      requires id == View().ids[t] && sink == View().sinks[t] && timeout == View().timeouts[t]
      modifies this
      ensures Valid() && events == old(events) + [Publish(t, now)]
      ensures pending == old(pending)[id := PendingCall(t, sink, now, timeout)] && id !in old(pending)
    {
      assert id !in pending by {
        InvRun(events);
        assert TicketOk(View(), t) && IdOk(View(), id);
      }
      RunStep(events, Publish(t, now));
      if id !in pending {
        pending := pending[id := PendingCall(t, sink, now, timeout)];
      }
      events := events + [Publish(t, now)];
    }

    /** The check of SendFrame: a connected socket takes the frame, a closed one refuses it. */
    method SendFrame(ghost t: Ticket) returns (ok: bool)
      requires Valid() && Enabled(View(), CheckSocket(t))
      modifies this`events
      ensures Valid() && events == old(events) + [CheckSocket(t)]
      ensures ok <==> socketUp
      ensures ok ==> t !in View().callers
      ensures !ok ==> t in View().callers && View().callers[t].SendFailed?
    {
      RunStep(events, CheckSocket(t));
      events := events + [CheckSocket(t)];
      ok := socketUp;
    }

    /** Second critical section of EnqueueRequest, after SendFrame refused the frame. */
    method TakeBackPending(t: Ticket, id: RequestId) returns (found: Option<PendingCall>)
      requires Valid() && Enabled(View(), TakeBack(t)) && id == View().ids[t]
      modifies this
      ensures Valid() && events == old(events) + [TakeBack(t)]
      ensures found == if id in old(pending) then Some(old(pending)[id]) else None
      ensures pending == old(pending) - {id}
      ensures found.Some? ==> View().held[id] == Held(Caller(t), found.value, "send failed", Nil)
    {
      RunStep(events, TakeBack(t));
      found := None;
      if id in pending {
        found := Some(pending[id]);
        pending := pending - {id};
      }
      events := events + [TakeBack(t)];
    }

    /** Critical section of the receive loop for one Response frame. */
    method TakeForResponse(ghost who: Actor, r: Response) returns (found: Option<PendingCall>)
      requires Valid() && Enabled(View(), Receive(who, r))
      modifies this
      ensures Valid() && events == old(events) + [Receive(who, r)]
      ensures found == if r.id in old(pending) then Some(old(pending)[r.id]) else None
      ensures pending == old(pending) - {r.id}
      ensures found.Some? ==> r.id in View().held && View().held[r.id].call == found.value && View().held[r.id].who == who
      ensures found.Some? ==> match r.error
        case NilError => View().held[r.id].error == "" && View().held[r.id].result == r.result
        case Text(text) => View().held[r.id].error == text && View().held[r.id].result == Nil
        case Undecodable => View().held[r.id].error == "response decode error" && View().held[r.id].result == Nil
    {
      RunStep(events, Receive(who, r));
      found := None;
      if r.id in pending {
        found := Some(pending[r.id]);
        pending := pending - {r.id};
      }
      events := events + [Receive(who, r)];
    }

    /** The erasing loop of the timeout thread. */
    static method EraseExpired(pending: map<RequestId, PendingCall>, now: int)
      returns (kept: map<RequestId, PendingCall>, expired: map<RequestId, PendingCall>)
      ensures kept == map id | id in pending && !(0 < pending[id].timeout <= now - pending[id].start) :: pending[id]
      ensures expired == map id | id in pending && 0 < pending[id].timeout <= now - pending[id].start :: pending[id]
    {
      kept, expired := pending, map[];
      var todo := pending.Keys;
      while todo != {}
        invariant todo <= pending.Keys
        invariant kept == map id | id in pending && (id in todo || !(0 < pending[id].timeout <= now - pending[id].start)) :: pending[id]
        invariant expired == map id | id in pending && id !in todo && 0 < pending[id].timeout <= now - pending[id].start :: pending[id]
        decreases todo
      {
        var id :| id in todo;
        todo := todo - {id};
        if kept[id].timeout > 0 && now - kept[id].start >= kept[id].timeout {
          expired := expired[id := kept[id]];
          kept := kept - {id};
        }
      }
    }

    /** Critical section of the timeout thread: one pass over the map, erasing what expired. */
    method SweepExpired(now: int) returns (expired: map<RequestId, PendingCall>)
      requires Valid() && Enabled(View(), Sweep(now))
      modifies this
      ensures Valid() && events == old(events) + [Sweep(now)]
      ensures forall id :: id in old(pending) ==>
        (id in expired <==> 0 < old(pending)[id].timeout <= now - old(pending)[id].start)
      ensures pending == old(pending) - expired.Keys && expired == old(pending) - pending.Keys
      ensures forall id :: id in expired ==> id in View().held && View().held[id] == Held(TimeoutThread, expired[id], "timeout", Nil)
    {
      ghost var before := events;
      RunStep(events, Sweep(now));
      pending, expired := EraseExpired(pending, now);
      AfterSweep(before, now, pending, expired);
      hide Run;
      events := events + [Sweep(now)];
    }

    /** Critical section of FailAllPending: the map is swapped with an empty one. */
    method TakeAllPending(ghost who: Actor, reason: string) returns (taken: map<RequestId, PendingCall>)
      requires Valid() && Enabled(View(), FailAll(who, reason))
      modifies this
      ensures Valid() && events == old(events) + [FailAll(who, reason)]
      ensures taken == old(pending) && pending == map[]
      ensures forall id :: id in taken ==> id in View().held && View().held[id] == Held(who, taken[id], reason, Nil)
    {
      RunStep(events, FailAll(who, reason));
      taken := pending;
      pending := map[];
      events := events + [FailAll(who, reason)];
    }

    method CompletePending(ghost id: RequestId, call: PendingCall, error: string, result: Value)
      requires Valid() && id in View().held
      requires View().held[id].call == call && View().held[id].error == error && View().held[id].result == result
      modifies this
      ensures Valid() && events == old(events) + [Complete(id)]
      ensures fired == old(fired) +
        if call.sink.EmptyCallback? then []
        else [Firing(call.ticket, call.sink, if error != "" then Failed(error) else Delivered(result))]
    {
      RunStep(events, Complete(id));
      match call.sink {
        case Callback =>
          if error != "" {
            fired := fired + [Firing(call.ticket, Callback, Failed(error))];
          } else {
            fired := fired + [Firing(call.ticket, Callback, Delivered(result))];
          }
        case EmptyCallback =>
        case Promise =>
          if error != "" {
            fired := fired + [Firing(call.ticket, Promise, Failed(error))];
          } else {
            fired := fired + [Firing(call.ticket, Promise, Delivered(result))];
          }
      }
      events := events + [Complete(id)];
    }

    /** FailAllPending when no other thread interferes: every pending call is completed. */
    method FailAllPending(ghost who: Actor, reason: string)
      requires Valid() && Enabled(View(), FailAll(who, reason))
      modifies this
      ensures Valid() && pending == map[]
      ensures forall id :: id in old(pending) ==> old(pending)[id].ticket in View().done
      ensures View().held.Keys == old(View().held.Keys)
    {
      ghost var others := View().held.Keys;
      AfterFailAll(events, who, reason);
      var taken := TakeAllPending(who, reason);
      var todo := taken.Keys;
      hide Run, InHand, AllDone;
      while todo != {}
        invariant Valid() && pending == map[] && todo <= taken.Keys
        invariant InHand(View(), others, taken, todo, who, reason) && AllDone(View(), taken, todo)
        decreases todo
      {
        var id :| id in todo;
        FailOne(events, others, taken, todo, who, reason, id);
        CompletePending(id, taken[id], reason, Nil);
        todo := todo - {id};
      }
      NoneLeft(View(), others, taken, who, reason);
    }
  }

  /** Of the calls taken those in `todo` are still in hand, next to what other threads hold. */
  ghost predicate InHand(s: State, others: set<RequestId>, taken: map<RequestId, PendingCall>, todo: set<RequestId>,
                         who: Actor, reason: string) {
    && s.held.Keys == others + todo && others !! taken.Keys && todo <= taken.Keys
    && forall id :: id in todo ==> s.held[id] == Held(who, taken[id], reason, Nil)
  }

  ghost predicate AllDone(s: State, taken: map<RequestId, PendingCall>, todo: set<RequestId>) {
    forall id :: id in taken && id !in todo ==> taken[id].ticket in s.done
  }

  lemma NoneLeft(s: State, others: set<RequestId>, taken: map<RequestId, PendingCall>, who: Actor, reason: string)
    requires InHand(s, others, taken, {}, who, reason) && AllDone(s, taken, {})
    ensures s.held.Keys == others && forall id :: id in taken ==> taken[id].ticket in s.done
  {
  }

  lemma FailOne(events: seq<Event>, others: set<RequestId>, taken: map<RequestId, PendingCall>, todo: set<RequestId>,
                who: Actor, reason: string, id: RequestId)
    requires id in todo && InHand(Run(events), others, taken, todo, who, reason) && AllDone(Run(events), taken, todo)
    ensures id in Run(events).held && Run(events).held[id] == Held(who, taken[id], reason, Nil)
    ensures var s := Run(events + [Complete(id)]);
      && s.pending == Run(events).pending && s.connected == Run(events).connected && s.nextId == Run(events).nextId
      && InHand(s, others, taken, todo - {id}, who, reason) && AllDone(s, taken, todo - {id})
  {
    AfterComplete(events, id);
    RunStep(events, Complete(id));
    hide Run;
  }

  lemma AfterComplete(events: seq<Event>, id: RequestId)
    requires id in Run(events).held
    ensures var s, s' := Run(events), Run(events + [Complete(id)]);
      s'.held == s.held - {id} && s'.pending == s.pending && s'.done == s.done + {s.held[id].call.ticket}
  {
    RunStep(events, Complete(id));
  }

  lemma AfterFailAll(events: seq<Event>, who: Actor, reason: string)
    requires Enabled(Run(events), FailAll(who, reason))
    ensures var s, s' := Run(events), Run(events + [FailAll(who, reason)]);
      && s'.held.Keys == s.held.Keys + s.pending.Keys && s.held.Keys !! s.pending.Keys
      && (forall id :: id in s.pending ==> s'.held[id] == Held(who, s.pending[id], reason, Nil))
  {
    IdsDisjoint(events);
    RunStep(events, FailAll(who, reason));
  }

  lemma AfterSweep(events: seq<Event>, now: int, kept: map<RequestId, PendingCall>, expired: map<RequestId, PendingCall>)
    requires var p := Run(events).pending;
      && Enabled(Run(events), Sweep(now))
      && kept == (map id | id in p && !(0 < p[id].timeout <= now - p[id].start) :: p[id])
      && expired == map id | id in p && 0 < p[id].timeout <= now - p[id].start :: p[id]
    ensures var s, s' := Run(events), Run(events + [Sweep(now)]);
      && s'.pending == kept && s'.nextId == s.nextId && s'.connected == s.connected && s'.fired == s.fired
      && forall id :: id in expired ==> id in s'.held && s'.held[id] == Held(TimeoutThread, expired[id], "timeout", Nil)
  {
    RunStep(events, Sweep(now));
    hide Run;
  }
}
