/**
  The protobuf channel's pending map and the functions that take calls out of it
  and complete them. Each is one or two events of ProtobufCalls: fields that match
  a state before match the effect afterwards.
 */
module ProtobufChannel {
  import opened Common
  import opened ProtobufCalls

  class KrpcChannel {
    var pendingCalls: map<RequestId, PendingCall>
    /** What each call's record points to, and whose callback was installed in it. */
    var calls: seq<Call>
    var installed: set<Ticket>
    /** Promises set, closures and callbacks run, in order. */
    var log: seq<Firing>

    ghost predicate Matches(s: State)
      reads this
    {
      pendingCalls == s.pending && calls == s.calls && installed == s.installed && log == s.log
    }

    constructor ()
      ensures Matches(Init())
    {
      pendingCalls, calls, installed, log := map[], [], {}, [];
    }

    /** The locked part of CallFuture. */
    method PublishCall(t: Ticket, id: RequestId, start: int, ghost s: State)
      requires Matches(s) && Enabled(s, Publish(t, start)) && s.ids[t] == id
      modifies this`pendingCalls
      ensures Matches(Effect(s, Publish(t, start)))
      ensures pendingCalls == old(pendingCalls)[id := PendingCall(t, start, calls[t].timeoutMs)]
    {
      pendingCalls := pendingCalls[id := PendingCall(t, start, calls[t].timeoutMs)];
    }

    /** The statement of CallFuture after the call was published. */
    method InstallAsyncCallback(t: Ticket, ghost s: State)
      requires Matches(s) && Enabled(s, InstallCallback(t))
      modifies this`installed
      ensures Matches(Effect(s, InstallCallback(t))) && installed == old(installed) + {t}
    {
      installed := installed + {t};
    }

    /** Promise and closure first; then the callback, if one is installed by then. Each says what the arguments say. */
    method CompletePending(pending: PendingCall, ghost id: RequestId, reason: string, success: bool, ghost s: State)
      requires Matches(s) && Enabled(s, SetPromise(id)) && s.held[id].call == pending
      requires s.held[id].outcome == if success then Succeeded else Failed(reason)
      modifies this`log
      ensures Matches(Finish(s, id))
      ensures pending.ticket < |calls|
      ensures var t, outcome := pending.ticket, if success then Succeeded else Failed(reason);
        log == old(log) + [Firing(t, PromiseSet, outcome)]
          + (if calls[t].hasDone then [Firing(t, DoneRun, outcome)] else [])
          + (if t in installed && calls[t].hasCallback then [Firing(t, CallbackRun, outcome)] else [])
    {
      var t := pending.ticket;
      var outcome := if success then Succeeded else Failed(reason);
      log := log + [Firing(t, PromiseSet, outcome)];
      if calls[t].hasDone {
        log := log + [Firing(t, DoneRun, outcome)];
      }
      assert log == Effect(s, SetPromise(id)).log;
      if t in installed && calls[t].hasCallback {
        log := log + [Firing(t, CallbackRun, outcome)];
      }
    }

    /** A RESPONSE frame: complete the call with its id, if there still is one. */
    method ResolvePendingCall(response: Response, ghost s: State)
      requires Matches(s) && Inv(s)
      modifies this`pendingCalls, this`log
      ensures response.id !in old(pendingCalls) ==>
        Matches(Effect(s, Resolve(response))) && pendingCalls == old(pendingCalls) && log == old(log)
      ensures response.id in old(pendingCalls) ==>
        && Matches(Finish(Effect(s, Resolve(response)), response.id)) && pendingCalls == old(pendingCalls) - {response.id}
        && Completed(old(log), old(pendingCalls)[response.id].ticket,
                     if response.parses then Succeeded else Failed("parse response payload error"))
    {
      if response.id !in pendingCalls {
        return;
      }
      var pending := pendingCalls[response.id];
      TakenCanFinish(s, Resolve(response), response.id);
      pendingCalls := pendingCalls - {response.id};
      if !response.parses {
        CompletePending(pending, response.id, "parse response payload error", false, Effect(s, Resolve(response)));
        return;
      }
      CompletePending(pending, response.id, "", true, Effect(s, Resolve(response)));
    }

    /** What was logged since: the signals of this call with this outcome. */
    ghost predicate Completed(before: seq<Firing>, t: Ticket, outcome: Outcome)
      reads this
    {
      t < |calls| && log == before + [Firing(t, PromiseSet, outcome)]
        + (if calls[t].hasDone then [Firing(t, DoneRun, outcome)] else [])
        + (if t in installed && calls[t].hasCallback then [Firing(t, CallbackRun, outcome)] else [])
    }

    method RemovePendingCall(id: RequestId, reason: string, ghost s: State)
      requires Matches(s) && Inv(s)
      modifies this`pendingCalls, this`log
      ensures id !in old(pendingCalls) ==> Matches(s) && pendingCalls == old(pendingCalls) && log == old(log)
      ensures id in old(pendingCalls) ==>
        && Matches(Finish(Effect(s, Remove(id, reason)), id)) && pendingCalls == old(pendingCalls) - {id}
        && Completed(old(log), old(pendingCalls)[id].ticket, Failed(reason))
    {
      if id !in pendingCalls {
        return;
      }
      var pending := pendingCalls[id];
      TakenCanFinish(s, Remove(id, reason), id);
      pendingCalls := pendingCalls - {id};
      CompletePending(pending, id, reason, false, Effect(s, Remove(id, reason)));
    }

    /** The erasing loop of TimeoutLoop. */
    static method EraseExpired(pending: map<RequestId, PendingCall>, now: int)
      returns (kept: map<RequestId, PendingCall>, expired: map<RequestId, PendingCall>)
      ensures kept == map id | id in pending && !(0 < pending[id].timeoutMs <= now - pending[id].start) :: pending[id]
      ensures expired == map id | id in pending && 0 < pending[id].timeoutMs <= now - pending[id].start :: pending[id]
    {
      kept, expired := pending, map[];
      var todo := pending.Keys;
      while todo != {}
        invariant todo <= pending.Keys
        invariant kept == map id | id in pending && (id in todo || !(0 < pending[id].timeoutMs <= now - pending[id].start))
          :: pending[id]
        invariant expired == map id | id in pending && id !in todo && 0 < pending[id].timeoutMs <= now - pending[id].start
          :: pending[id]
        decreases todo
      {
        var id :| id in todo;
        todo := todo - {id};
        if kept[id].timeoutMs > 0 && now - kept[id].start >= kept[id].timeoutMs {
          expired := expired[id := kept[id]];
          kept := kept - {id};
        }
      }
    }

    /** The locked part of TimeoutLoop. */
    method SweepExpired(now: int, ghost s: State) returns (expired: map<RequestId, PendingCall>)
      requires Matches(s)
      modifies this`pendingCalls
      ensures Matches(Effect(s, Sweep(now)))
      ensures forall id :: id in old(pendingCalls) ==>
        (id in expired <==> 0 < old(pendingCalls)[id].timeoutMs <= now - old(pendingCalls)[id].start)
      ensures expired == old(pendingCalls) - pendingCalls.Keys && pendingCalls == old(pendingCalls) - expired.Keys
    {
      pendingCalls, expired := EraseExpired(pendingCalls, now);
      SweptState(s, now, pendingCalls);
      hide Effect;
    }

    /** With no other thread in between, FailPendingCalls empties the map and sets every promise it held. */
    method FailPendingCalls(reason: string, ghost s: State) returns (ghost s': State)
      requires Matches(s) && Inv(s)
      modifies this`pendingCalls, this`log
      ensures Matches(s') && Inv(s') && pendingCalls == map[] && s'.held == s.held && s'.ids == s.ids
      ensures forall id :: id in old(pendingCalls) ==> Finished(s', old(pendingCalls)[id].ticket)
      ensures OnlyFailures(old(log), log, reason)
    {
      var taken := pendingCalls;
      var todo := taken.Keys;
      AllTaken(s, reason);
      s' := Effect(s, FailAll(reason));
      assert OnlyFailures(log, log, reason);
      hide Inv, Effect, Enabled, InHands, Finished, Finish, OnlyFailures;
      pendingCalls := map[];
      while todo != {}
        invariant Matches(s') && Inv(s') && pendingCalls == map[] && todo <= taken.Keys
        invariant OnlyFailures(old(log), log, reason)
        invariant s'.ids == s.ids && InHands(s', s.held, taken, todo, reason)
        invariant forall id :: id in taken && id !in todo ==> Finished(s', taken[id].ticket)
        decreases todo
      {
        var id :| id in todo;
        FinishOne(s', s.held, taken, todo, reason, id);
        ghost var before := log;
        CompletePending(taken[id], id, reason, false, s');
        MoreFailures(old(log), before, taken[id].ticket, calls[taken[id].ticket].hasDone,
          taken[id].ticket in installed && calls[taken[id].ticket].hasCallback, reason);
        s' := Finish(s', id);
        todo := todo - {id};
      }
      NoneInHand(s', s.held, taken, reason);
    }
  }

  /** All that was logged since says that a call failed with this reason. */
  ghost predicate OnlyFailures(before: seq<Firing>, log: seq<Firing>, reason: string) {
    before <= log && forall i :: |before| <= i < |log| ==> log[i].outcome == Failed(reason)
  }

  lemma MoreFailures(before: seq<Firing>, log: seq<Firing>, t: Ticket, done: bool, callback: bool, reason: string)
    requires OnlyFailures(before, log, reason)
    ensures OnlyFailures(before, log + [Firing(t, PromiseSet, Failed(reason))]
      + (if done then [Firing(t, DoneRun, Failed(reason))] else [])
      + (if callback then [Firing(t, CallbackRun, Failed(reason))] else []), reason)
  {
  }

  /** Of the calls taken from the map those in `todo` are still in hand, next to what other threads hold. */
  ghost predicate InHands(s: State, others: map<RequestId, Held>, taken: map<RequestId, PendingCall>,
                          todo: set<RequestId>, reason: string) {
    && todo <= taken.Keys && others.Keys !! taken.Keys
    && s.held == others + map id | id in todo :: Held(taken[id], Failed(reason), false)
  }

  lemma NoneInHand(s: State, others: map<RequestId, Held>, taken: map<RequestId, PendingCall>, reason: string)
    requires InHands(s, others, taken, {}, reason)
    ensures s.held == others
  {
  }

  lemma AllTaken(s: State, reason: string)
    requires Inv(s)
    ensures var s' := Effect(s, FailAll(reason));
      && Inv(s') && s'.pending == map[] && s'.ids == s.ids && s'.calls == s.calls && s'.log == s.log
      && s'.installed == s.installed && InHands(s', s.held, s.pending, s.pending.Keys, reason)
  {
    InvTake(s, s.pending.Keys, Failed(reason));
    PendingNotHeld(s);
  }

  lemma SweptState(s: State, now: int, kept: map<RequestId, PendingCall>)
    requires kept == map id | id in s.pending && !(0 < s.pending[id].timeoutMs <= now - s.pending[id].start) :: s.pending[id]
    ensures var s' := Effect(s, Sweep(now));
      s'.pending == kept && s'.calls == s.calls && s'.installed == s.installed && s'.log == s.log
  {
  }

  /** Both halves of a completion, with nothing in between. */
  function Finish(s: State, id: RequestId): State {
    Step(Step(s, SetPromise(id)), RunCallback(id))
  }

  lemma FinishKeeps(s: State, id: RequestId)
    requires Inv(s) && Enabled(s, SetPromise(id))
    ensures var s' := Finish(s, id);
      && Inv(s') && s'.pending == s.pending && s'.ids == s.ids && s'.held == s.held - {id}
      && Finished(s', s.held[id].call.ticket)
      && forall t :: Finished(s, t) ==> Finished(s', t)
  {
    hide Count, Signals, TicketOk, IdOk, FiringOk;
    InvSetPromise(s, id);
    InvRunCallback(Effect(s, SetPromise(id)), id);
  }

  lemma FinishOne(s: State, others: map<RequestId, Held>, taken: map<RequestId, PendingCall>,
                  todo: set<RequestId>, reason: string, id: RequestId)
    requires Inv(s) && id in todo && InHands(s, others, taken, todo, reason)
    requires forall i :: i in taken && i !in todo ==> Finished(s, taken[i].ticket)
    ensures Enabled(s, SetPromise(id)) && s.held[id] == Held(taken[id], Failed(reason), false)
    ensures var s' := Finish(s, id);
      && Inv(s') && s'.pending == s.pending && s'.ids == s.ids && InHands(s', others, taken, todo - {id}, reason)
      && forall i :: i in taken && i !in todo - {id} ==> Finished(s', taken[i].ticket)
  {
    HeldFacts(s, id);
    FinishKeeps(s, id);
    hide Inv, Finish, Finished;
  }

  lemma TakenCanFinish(s: State, e: Event, id: RequestId)
    requires Inv(s) && id in s.pending && ((e.Resolve? && e.response.id == id) || (e.Remove? && e.id == id))
    ensures Enabled(Effect(s, e), SetPromise(id)) && Effect(s, e).held[id].call == s.pending[id]
    ensures Promised(s.pending[id], id, e) == Some(Effect(s, e).held[id].outcome)
  {
    InvStep(s, e);
    PromiseTaken(s, e, id);
    hide Inv, Effect, Promised;
    HeldTicket(Effect(s, e), id);
  }

  lemma PendingNotHeld(s: State)
    requires Inv(s)
    ensures s.pending.Keys !! s.held.Keys
  {
    forall id | id in s.pending ensures id !in s.held { assert IdOk(s, id); }
  }
}
