/**
  Life of an asynchronous call on the msgpack channel.

  Caller threads, the receive loop, the timeout sweep, the heartbeat thread, the
  send thread and the destructor race to finish the same call. Each event below
  is one critical section (or one completion) of one of these threads; a run is
  any sequence of events, where an event that its thread cannot take is skipped.
 */
module MsgpackCalls {
  import opened Common

  /** Number of the call in order of entry; a ghost name, the code has none. */
  type Ticket = nat
  type RequestId = nat

  datatype Value = Nil | Data(bytes: seq<Byte>)

  /** What a call has to wake: its promise, its callback, or an empty callback. */
  datatype Sink = Promise | Callback | EmptyCallback

  datatype PendingCall = PendingCall(ticket: Ticket, sink: Sink, start: int, timeout: nat)

  datatype Outcome = Delivered(result: Value) | Failed(error: string)
  datatype Firing = Firing(ticket: Ticket, sink: Sink, outcome: Outcome)

  datatype ErrorField = NilError | Text(text: string) | Undecodable
  datatype Response = Response(id: RequestId, error: ErrorField, result: Value)

  datatype Actor =
    | Caller(ticket: Ticket) | Receiver(generation: nat)
    | TimeoutThread | HeartbeatThread | SendThread | Destructor

  /** Where a caller thread stands inside CallAsync; it is absent once it returned. */
  datatype CallerPc = Connecting | Allocated | Published | SendFailed | Completing

  /** A call taken out of the pending map and not completed yet, with its verdict. */
  datatype Held = Held(who: Actor, call: PendingCall, error: string, result: Value)

  datatype Phase = Running | Stopping | Draining | Destroyed

  datatype State = State(
    nextId: RequestId,
    sinks: seq<Sink>,
    timeouts: seq<nat>,
    ids: map<Ticket, RequestId>,     // history: the id each call was given,
    owner: map<RequestId, Ticket>,   // and its inverse
    callers: map<Ticket, CallerPc>,
    pending: map<RequestId, PendingCall>,
    held: map<RequestId, Held>,
    fired: seq<Firing>,
    done: set<Ticket>,
    responses: seq<Response>,
    connected: bool,
    threads: set<Actor>,
    phase: Phase)

  datatype Event =
    | Enter(sink: Sink, timeoutMs: int)
    | ConnectFailed(ticket: Ticket, error: string)
    | AllocateId(ticket: Ticket)
    | AllocateOther
    | Publish(ticket: Ticket, now: int)
    | CheckSocket(ticket: Ticket)
    | TakeBack(ticket: Ticket)
    | Receive(who: Actor, response: Response)
    | Sweep(now: int)
    | FailAll(who: Actor, reason: string)
    | Complete(id: RequestId)
    | SetConnected(up: bool)
    | StartReceiver(generation: nat)
    | ExitThread(thread: Actor)
    | BeginDestroy
    | DestroyPending
    | EndDestroy

  function Init(): State {
    State(1, [], [], map[], map[], map[], map[], map[], [], {}, [], false,
          {TimeoutThread, HeartbeatThread, SendThread}, Running)
  }

  // ---------------------------------------------------------------- the code's decisions

  predicate IsExpired(call: PendingCall, now: int) {
    call.timeout > 0 && now - call.start >= call.timeout
  }

  /** The error text and result that the receive loop passes on for a response. */
  function Verdict(response: Response): (string, Value) {
    match response.error
    case NilError => ("", response.result)
    case Text(text) => (text, Nil)
    case Undecodable => ("response decode error", Nil)
  }

  /** What CompletePending does: an empty error means success, an empty callback nothing. */
  function Fire(log: seq<Firing>, call: PendingCall, error: string, result: Value): seq<Firing> {
    if call.sink.EmptyCallback? then log
    else log + [Firing(call.ticket, call.sink, if error != "" then Failed(error) else Delivered(result))]
  }

  /** Calls leave the map for a thread's hand; nobody is woken yet. */
  function Take(s: State, who: Actor, taken: set<RequestId>, error: string, result: Value): (s': State)
    requires taken <= s.pending.Keys
    ensures s'.fired == s.fired && s'.done == s.done && s'.sinks == s.sinks && s'.timeouts == s.timeouts
  {
    s.(pending := s.pending - taken,
       held := s.held + map id | id in taken :: Held(who, s.pending[id], error, result))
  }

  predicate Holds(s: State, who: Actor) {
    exists id :: id in s.held && s.held[id].who == who
  }

  // ---------------------------------------------------------------- steps

  predicate Enabled(s: State, e: Event) {
    match e
    case Enter(_, _) => s.phase.Running?
    case ConnectFailed(t, _) => t in s.callers && s.callers[t].Connecting? && t < |s.sinks|
    case AllocateId(t) => t in s.callers && s.callers[t].Connecting?
    case AllocateOther => true
    case Publish(t, _) => t in s.callers && s.callers[t].Allocated? && t in s.ids && t < |s.sinks| && t < |s.timeouts|
    case CheckSocket(t) => t in s.callers && s.callers[t].Published?
    case TakeBack(t) => t in s.callers && s.callers[t].SendFailed? && t in s.ids
    case Receive(who, _) => who in s.threads && who.Receiver?
    case Sweep(_) => TimeoutThread in s.threads
    case FailAll(who, reason) => who in s.threads && (who.Receiver? || who.HeartbeatThread? || who.SendThread?) && reason != ""
    case Complete(id) => id in s.held
    case SetConnected(_) => true
    case StartReceiver(_) => s.phase.Running?
    case ExitThread(thread) => thread in s.threads && !Holds(s, thread)
    case BeginDestroy => s.phase.Running? && s.callers == map[]
    case DestroyPending => s.phase.Stopping? && s.threads == {}
    case EndDestroy => s.phase.Draining? && !Holds(s, Destructor)
  }

  function Effect(s: State, e: Event): State
    requires Enabled(s, e)
  {
    match e
    case Enter(sink, timeoutMs) =>
      var t := |s.sinks|;
      s.(sinks := s.sinks + [sink],
         timeouts := s.timeouts + [if timeoutMs < 0 then 0 else timeoutMs],
         callers := s.callers[t := Connecting])
    case ConnectFailed(t, error) =>
      var text := if error == "" then "connect failed" else error;
      s.(callers := s.callers - {t}, done := s.done + {t},
         fired := Fire(s.fired, PendingCall(t, s.sinks[t], 0, 0), text, Nil))
    case AllocateId(t) =>
      s.(nextId := s.nextId + 1, ids := s.ids[t := s.nextId], owner := s.owner[s.nextId := t],
         callers := s.callers[t := Allocated])
    case AllocateOther => s.(nextId := s.nextId + 1)
    case Publish(t, now) =>
      var id := s.ids[t];
      s.(callers := s.callers[t := Published],
         pending := if id in s.pending then s.pending
                    else s.pending[id := PendingCall(t, s.sinks[t], now, s.timeouts[t])])
    case CheckSocket(t) =>
      if s.connected then s.(callers := s.callers - {t}) else s.(callers := s.callers[t := SendFailed])
    case TakeBack(t) =>
      var id := s.ids[t];
      if id in s.pending
      then Take(s.(callers := s.callers[t := Completing]), Caller(t), {id}, "send failed", Nil)
      else s.(callers := s.callers - {t})
    case Receive(who, r) =>
      var logged := s.(responses := s.responses + [r]);
      if r.id in s.pending then Take(logged, who, {r.id}, Verdict(r).0, Verdict(r).1) else logged
    case Sweep(now) =>
      Take(s, TimeoutThread, set id | id in s.pending && IsExpired(s.pending[id], now), "timeout", Nil)
    case FailAll(who, reason) => Take(s, who, s.pending.Keys, reason, Nil)
    case Complete(id) =>
      var h := s.held[id];
      s.(held := s.held - {id}, done := s.done + {h.call.ticket},
         callers := if h.who == Caller(h.call.ticket) then s.callers - {h.call.ticket} else s.callers,
         fired := Fire(s.fired, h.call, h.error, h.result))
    case SetConnected(up) => s.(connected := up)
    case StartReceiver(g) => s.(threads := s.threads + {Receiver(g)})
    case ExitThread(thread) => s.(threads := s.threads - {thread})
    case BeginDestroy => s.(phase := Stopping)
    case DestroyPending => Take(s, Destructor, s.pending.Keys, "channel closed", Nil).(phase := Draining)
    case EndDestroy => s.(phase := Destroyed)
  }

  function Step(s: State, e: Event): State {
    if Enabled(s, e) then Effect(s, e) else s
  }

  function Run(events: seq<Event>): State {
    if events == [] then Init() else Step(Run(events[..|events| - 1]), events[|events| - 1])
  }

  // ---------------------------------------------------------------- invariant

  function Firings(log: seq<Firing>, t: Ticket): nat {
    if log == [] then 0
    else Firings(log[..|log| - 1], t) + if log[|log| - 1].ticket == t then 1 else 0
  }

  /** Not yet in the pending map. */
  ghost predicate IsEarly(s: State, t: Ticket) {
    t in s.callers && (s.callers[t].Connecting? || s.callers[t].Allocated?)
  }

  ghost predicate IsPending(s: State, t: Ticket) {
    t in s.ids && s.ids[t] in s.pending && s.pending[s.ids[t]].ticket == t
  }

  ghost predicate IsHeld(s: State, t: Ticket) {
    t in s.ids && s.ids[t] in s.held
  }

  ghost predicate OnePlace(s: State, t: Ticket) {
    var early, pending, held, done := IsEarly(s, t), IsPending(s, t), IsHeld(s, t), t in s.done;
    && (early || pending || held || done)
    && !(early && pending) && !(early && held) && !(early && done)
    && !(pending && held) && !(pending && done) && !(held && done)
  }

  /** Some received response with the id of call t carries exactly this success. */
  ghost predicate Answered(s: State, t: Ticket, result: Value) {
    t in s.ids && exists k :: 0 <= k < |s.responses| && s.responses[k].id == s.ids[t] && Carries(s.responses[k], result)
  }

  /** No error and this result; or an empty error text, which counts as success with nil. */
  predicate Carries(r: Response, result: Value) {
    (r.error == NilError && r.result == result) || (r.error == Text("") && result == Nil)
  }

  ghost predicate HolderAlive(s: State, t: Ticket, who: Actor) {
    || who in s.threads
    || (who == Caller(t) && t in s.callers && s.callers[t].Completing?)
    || (who.Destructor? && s.phase.Draining?)
  }

  ghost predicate TicketOk(s: State, t: Ticket) {
    && (t >= |s.sinks| ==> t !in s.ids && t !in s.callers && t !in s.done)
    && (t in s.ids ==> s.ids[t] < s.nextId && s.ids[t] in s.owner && s.owner[s.ids[t]] == t)
    && (t in s.callers ==> (s.callers[t].Connecting? <==> t !in s.ids))
    && (t < |s.sinks| ==> OnePlace(s, t))
    && Firings(s.fired, t) == if t in s.done && t < |s.sinks| && !s.sinks[t].EmptyCallback? then 1 else 0
  }

  ghost predicate CallOk(s: State, id: RequestId, c: PendingCall) {
    && c.ticket < |s.sinks| && c.sink == s.sinks[c.ticket]
    && c.ticket < |s.timeouts| && c.timeout == s.timeouts[c.ticket]
    && c.ticket in s.ids && s.ids[c.ticket] == id && id < s.nextId && id in s.owner && s.owner[id] == c.ticket
  }

  ghost predicate IdOk(s: State, id: RequestId) {
    && (id in s.owner ==> id < s.nextId)
    && (id in s.pending ==> CallOk(s, id, s.pending[id]))
    && (id in s.held ==>
          var h := s.held[id];
          && CallOk(s, id, h.call) && HolderAlive(s, h.call.ticket, h.who)
          && (h.error == "" ==> Answered(s, h.call.ticket, h.result)))
  }

  ghost predicate FiringOk(s: State, f: Firing) {
    f.ticket < |s.sinks| && (f.outcome.Delivered? ==> Answered(s, f.ticket, f.outcome.result))
  }

  ghost predicate PhaseOk(s: State) {
    && |s.timeouts| == |s.sinks|
    && (!s.phase.Running? ==> s.callers == map[])
    && (s.phase.Draining? || s.phase.Destroyed? ==> s.threads == {} && s.pending == map[])
  }

  ghost predicate Inv(s: State) {
    && PhaseOk(s)
    && (forall t: Ticket :: TicketOk(s, t))
    && (forall id: RequestId :: IdOk(s, id))
    && (forall f :: f in s.fired ==> FiringOk(s, f))
  }

  // ---------------------------------------------------------------- preservation

  lemma FiringsAppend(log: seq<Firing>, f: Firing, t: Ticket)
    ensures Firings(log + [f], t) == Firings(log, t) + if f.ticket == t then 1 else 0
  {
    assert (log + [f])[..|log|] == log;
  }

  lemma FiringsOfFire(log: seq<Firing>, c: PendingCall, error: string, result: Value, t: Ticket)
    ensures Firings(Fire(log, c, error, result), t)
         == Firings(log, t) + if c.ticket == t && !c.sink.EmptyCallback? then 1 else 0
  {
    if !c.sink.EmptyCallback? {
      FiringsAppend(log, Fire(log, c, error, result)[|log|], t);
    }
  }

  /** An answer stays one: ids are never changed and responses only added. */
  lemma AnsweredStays(s: State, s': State, t: Ticket, v: Value)
    requires Answered(s, t, v) && s.responses <= s'.responses && t in s'.ids && s'.ids[t] == s.ids[t]
    ensures Answered(s', t, v)
  {
    var k :| 0 <= k < |s.responses| && s.responses[k].id == s.ids[t] && Carries(s.responses[k], v);
    assert s'.responses[k] == s.responses[k];
  }

  /** Completing a call moves it to its final place and fires it once. */
  lemma InvFinish(s: State, s': State, c: PendingCall, error: string, result: Value)
    requires Inv(s) && PhaseOk(s')
    requires c.ticket < |s.sinks| && c.sink == s.sinks[c.ticket] && c.ticket !in s.done
    requires error == "" ==> Answered(s, c.ticket, result)
    requires s'.fired == Fire(s.fired, c, error, result) && s'.done == s.done + {c.ticket}
    requires s'.sinks == s.sinks && s'.timeouts == s.timeouts && s'.ids == s.ids && s'.owner == s.owner && s'.nextId == s.nextId
    requires s'.pending == s.pending && s'.responses == s.responses && s'.threads == s.threads && s'.phase == s.phase
    requires forall id :: id in s'.held ==> id in s.held && s'.held[id] == s.held[id]
    requires forall t :: t in s'.callers ==> t in s.callers && s'.callers[t] == s.callers[t]
    requires forall t :: t != c.ticket ==> (t in s.callers ==> t in s'.callers) && (IsHeld(s, t) ==> IsHeld(s', t))
    requires !IsEarly(s', c.ticket) && !IsPending(s', c.ticket) && !IsHeld(s', c.ticket)
    ensures Inv(s')
  {
    forall t: Ticket ensures TicketOk(s', t) {
      assert TicketOk(s, t);
      FiringsOfFire(s.fired, c, error, result, t);
    }
    forall id: RequestId ensures IdOk(s', id) {
      assert IdOk(s, id);
      if id in s'.held {
        assert CallOk(s, id, s.held[id].call);
        assert IsHeld(s', s.held[id].call.ticket);
      }
    }
    forall f | f in s'.fired ensures FiringOk(s', f) {
      assert f in s.fired ==> FiringOk(s, f);
    }
  }

  lemma InvEnter(s: State, e: Event)
    requires Inv(s) && e.Enter? && Enabled(s, e)
    ensures Inv(Effect(s, e))
  {
    var s' := Effect(s, e);
    forall t: Ticket ensures TicketOk(s', t) { assert TicketOk(s, t); }
    forall id: RequestId ensures IdOk(s', id) { assert IdOk(s, id); }
    forall f | f in s'.fired ensures FiringOk(s', f) { assert FiringOk(s, f); }
  }

  lemma InvConnectFailed(s: State, t: Ticket, error: string)
    requires Inv(s) && Enabled(s, ConnectFailed(t, error))
    ensures Inv(Effect(s, ConnectFailed(t, error)))
  {
    assert TicketOk(s, t);
    InvFinish(s, Effect(s, ConnectFailed(t, error)), PendingCall(t, s.sinks[t], 0, 0),
              if error == "" then "connect failed" else error, Nil);
  }

  lemma InvComplete(s: State, id: RequestId)
    requires Inv(s) && Enabled(s, Complete(id))
    ensures Inv(Effect(s, Complete(id)))
  {
    var h := s.held[id];
    assert IdOk(s, id) && TicketOk(s, h.call.ticket);
    forall t | t != h.call.ticket && IsHeld(s, t) ensures IsHeld(Effect(s, Complete(id)), t) { assert TicketOk(s, t); }
    InvFinish(s, Effect(s, Complete(id)), h.call, h.error, h.result);
  }

  lemma InvAllocate(s: State, t: Ticket)
    requires Inv(s) && Enabled(s, AllocateId(t))
    ensures Inv(Effect(s, AllocateId(t)))
  {
    var s' := Effect(s, AllocateId(t));
    assert TicketOk(s, t);
    assert s.nextId !in s.pending && s.nextId !in s.held by { assert IdOk(s, s.nextId); }
    forall u: Ticket ensures TicketOk(s', u) { assert TicketOk(s, u); }
    forall id: RequestId ensures IdOk(s', id) {
      assert IdOk(s, id);
      if id in s.held && s.held[id].error == "" { AnsweredStays(s, s', s.held[id].call.ticket, s.held[id].result); }
    }
    forall f | f in s'.fired ensures FiringOk(s', f) {
      assert FiringOk(s, f);
      if f.outcome.Delivered? { AnsweredStays(s, s', f.ticket, f.outcome.result); }
    }
  }

  /** Steps that leave every call in its place. */
  lemma InvQuiet(s: State, s': State)
    requires Inv(s) && PhaseOk(s')
    requires s'.sinks == s.sinks && s'.timeouts == s.timeouts && s'.ids == s.ids && s'.owner == s.owner && s'.nextId >= s.nextId
    requires s'.pending == s.pending && s'.held == s.held && s'.done == s.done && s'.fired == s.fired
    requires s.responses <= s'.responses
    requires forall t: Ticket :: IsEarly(s', t) == IsEarly(s, t)
    requires forall t :: t in s'.callers ==> t in s.callers && (s'.callers[t].Connecting? <==> s.callers[t].Connecting?)
    requires forall id :: id in s.held && HolderAlive(s, s.held[id].call.ticket, s.held[id].who)
               ==> HolderAlive(s', s.held[id].call.ticket, s.held[id].who)
    ensures Inv(s')
  {
    forall t: Ticket ensures TicketOk(s', t) { assert TicketOk(s, t); }
    forall id: RequestId ensures IdOk(s', id) {
      assert IdOk(s, id);
      if id in s.held && s.held[id].error == "" { AnsweredStays(s, s', s.held[id].call.ticket, s.held[id].result); }
    }
    forall f | f in s'.fired ensures FiringOk(s', f) {
      assert FiringOk(s, f);
      if f.outcome.Delivered? { AnsweredStays(s, s', f.ticket, f.outcome.result); }
    }
  }

  lemma InvPublish(s: State, t: Ticket, now: int)
    requires Inv(s) && Enabled(s, Publish(t, now))
    ensures Inv(Effect(s, Publish(t, now)))
  {
    var s' := Effect(s, Publish(t, now));
    assert TicketOk(s, t) && IdOk(s, s.ids[t]);
    forall u: Ticket ensures TicketOk(s', u) { assert TicketOk(s, u); }
    forall id: RequestId ensures IdOk(s', id) { assert IdOk(s, id); }
    forall f | f in s'.fired ensures FiringOk(s', f) { assert FiringOk(s, f); }
  }

  lemma InvTake(s: State, who: Actor, taken: set<RequestId>, error: string, result: Value)
    requires Inv(s) && taken <= s.pending.Keys
    requires forall id :: id in taken ==> HolderAlive(s, s.pending[id].ticket, who)
    requires error == "" ==> forall id :: id in taken ==> Answered(s, s.pending[id].ticket, result)
    ensures Inv(Take(s, who, taken, error, result))
  {
    var s' := Take(s, who, taken, error, result);
    forall u: Ticket ensures TicketOk(s', u) { assert TicketOk(s, u); assert u in s.ids ==> IdOk(s, s.ids[u]); }
    forall id: RequestId ensures IdOk(s', id) { assert IdOk(s, id); }
    forall f | f in s'.fired ensures FiringOk(s', f) { assert FiringOk(s, f); }
  }

  lemma InvReceive(s: State, who: Actor, r: Response)
    requires Inv(s) && Enabled(s, Receive(who, r))
    ensures Inv(Effect(s, Receive(who, r)))
  {
    var logged := s.(responses := s.responses + [r]);
    InvQuiet(s, logged);
    if r.id in s.pending {
      assert IdOk(s, r.id) && logged.responses[|s.responses|] == r;
      InvTake(logged, who, {r.id}, Verdict(r).0, Verdict(r).1);
    }
  }

  lemma InvTakeBack(s: State, t: Ticket)
    requires Inv(s) && Enabled(s, TakeBack(t))
    ensures Inv(Effect(s, TakeBack(t)))
  {
    if s.ids[t] in s.pending {
      var s1 := s.(callers := s.callers[t := Completing]);
      InvQuiet(s, s1);
      assert TicketOk(s, t) && IdOk(s, s.ids[t]);
      InvTake(s1, Caller(t), {s.ids[t]}, "send failed", Nil);
    } else {
      InvQuiet(s, Effect(s, TakeBack(t)));
    }
  }

  lemma InvDestroyPending(s: State)
    requires Inv(s) && Enabled(s, DestroyPending)
    ensures Inv(Effect(s, DestroyPending))
  {
    var s' := Effect(s, DestroyPending);
    forall u: Ticket ensures TicketOk(s', u) { assert TicketOk(s, u); assert u in s.ids ==> IdOk(s, s.ids[u]); }
    forall id: RequestId ensures IdOk(s', id) { assert IdOk(s, id); }
    forall f | f in s'.fired ensures FiringOk(s', f) { assert FiringOk(s, f); }
  }

  lemma InvStep(s: State, e: Event)
    requires Inv(s)
    ensures Inv(Step(s, e))
  {
    if Enabled(s, e) {
      match e
      case Enter(_, _) => InvEnter(s, e);
      case ConnectFailed(t, error) => InvConnectFailed(s, t, error);
      case AllocateId(t) => InvAllocate(s, t);
      case Publish(t, now) => InvPublish(s, t, now);
      case TakeBack(t) => InvTakeBack(s, t);
      case Receive(who, r) => InvReceive(s, who, r);
      case Sweep(now) =>
        InvTake(s, TimeoutThread, set id | id in s.pending && IsExpired(s.pending[id], now), "timeout", Nil);
      case FailAll(who, reason) => InvTake(s, who, s.pending.Keys, reason, Nil);
      case Complete(id) => InvComplete(s, id);
      case DestroyPending => InvDestroyPending(s);
      case _ => InvQuiet(s, Effect(s, e));
    }
  }

  // ---------------------------------------------------------------- theorems over all runs

  lemma {:induction false} InvRun(events: seq<Event>)
    ensures Inv(Run(events))
  {
    if events == [] {
      forall t: Ticket ensures TicketOk(Init(), t) {}
    } else {
      InvRun(events[..|events| - 1]);
      InvStep(Run(events[..|events| - 1]), events[|events| - 1]);
    }
  }

  /** In every interleaving no promise and no callback is woken twice. */
  lemma {:induction false} AtMostOnce(events: seq<Event>, t: Ticket)
    ensures Firings(Run(events).fired, t) <= 1
  {
    InvRun(events);
    assert TicketOk(Run(events), t);
  }

  /** Every call that entered is in exactly one place: not yet published, pending, taken or completed. */
  lemma {:induction false} CallsConserved(events: seq<Event>, t: Ticket)
    requires t < |Run(events).sinks|
    ensures OnePlace(Run(events), t)
    ensures t in Run(events).done && !Run(events).sinks[t].EmptyCallback? <==> Firings(Run(events).fired, t) == 1
  {
    InvRun(events);
    assert TicketOk(Run(events), t);
  }

  /** Pending and taken ids are disjoint, were all allocated, and each belongs to one call that has not fired. */
  lemma {:induction false} IdsDisjoint(events: seq<Event>)
    ensures var s := Run(events);
      && s.pending.Keys !! s.held.Keys && s.pending.Keys + s.held.Keys <= s.owner.Keys
      && (forall id :: id in s.pending ==> s.owner[id] == s.pending[id].ticket && Firings(s.fired, s.owner[id]) == 0)
      && (forall id :: id in s.held ==> s.owner[id] == s.held[id].call.ticket && Firings(s.fired, s.owner[id]) == 0)
  {
    var s := Run(events);
    InvRun(events);
    forall id | id in s.pending || id in s.held
      ensures id in s.owner && Firings(s.fired, s.owner[id]) == 0 && !(id in s.pending && id in s.held)
      ensures id in s.pending ==> s.owner[id] == s.pending[id].ticket
      ensures id in s.held ==> s.owner[id] == s.held[id].call.ticket
    {
      assert IdOk(s, id) && TicketOk(s, s.owner[id]);
    }
  }

  /** After the destructor every call has woken its promise or callback exactly once. */
  lemma {:induction false} ExactlyOnceAfterDestroy(events: seq<Event>, t: Ticket)
    requires Run(events).phase.Destroyed? && t < |Run(events).sinks|
    ensures Firings(Run(events).fired, t) == if Run(events).sinks[t].EmptyCallback? then 0 else 1
  {
    var s := Run(events);
    InvRun(events);
    assert TicketOk(s, t);
    assert t in s.ids ==> IdOk(s, s.ids[t]);
  }

  /** A call succeeds only with the error-free payload of a received response carrying its own id. */
  lemma {:induction false} SuccessOnlyFromOwnResponse(events: seq<Event>, f: Firing)
    requires f in Run(events).fired && f.outcome.Delivered?
    ensures Answered(Run(events), f.ticket, f.outcome.result)
  {
    InvRun(events);
    assert FiringOk(Run(events), f);
  }

  lemma RunStep(events: seq<Event>, e: Event)
    ensures Run(events + [e]) == Step(Run(events), e)
  {
    assert (events + [e])[..|events|] == events;
  }

  /** A response with an error text fails its call with that text, except that an empty text counts as success, with nil. */
  lemma {:induction false} ErrorTextDecides(events: seq<Event>, who: Actor, id: RequestId, text: string, result: Value)
    requires Enabled(Run(events), Receive(who, Response(id, Text(text), result)))
    requires id in Run(events).pending && !Run(events).pending[id].sink.EmptyCallback?
    ensures var call := Run(events).pending[id];
      Run(events + [Receive(who, Response(id, Text(text), result))] + [Complete(id)]).fired
        == Run(events).fired + [Firing(call.ticket, call.sink, if text == "" then Delivered(Nil) else Failed(text))]
  {
    var e := Receive(who, Response(id, Text(text), result));
    RunStep(events, e);
    RunStep(events + [e], Complete(id));
    hide Run;
  }

  /** A response without error gives its call the response's own result. */
  lemma {:induction false} ResultDelivered(events: seq<Event>, who: Actor, id: RequestId, result: Value)
    requires Enabled(Run(events), Receive(who, Response(id, NilError, result)))
    requires id in Run(events).pending && !Run(events).pending[id].sink.EmptyCallback?
    ensures var call := Run(events).pending[id];
      Run(events + [Receive(who, Response(id, NilError, result))] + [Complete(id)]).fired
        == Run(events).fired + [Firing(call.ticket, call.sink, Delivered(result))]
  {
    var e := Receive(who, Response(id, NilError, result));
    RunStep(events, e);
    RunStep(events + [e], Complete(id));
    hide Run;
  }

  /** A response whose error is neither nil nor a text fails its call. */
  lemma {:induction false} UndecodableFails(events: seq<Event>, who: Actor, id: RequestId, result: Value)
    requires Enabled(Run(events), Receive(who, Response(id, Undecodable, result)))
    requires id in Run(events).pending && !Run(events).pending[id].sink.EmptyCallback?
    ensures var call := Run(events).pending[id];
      Run(events + [Receive(who, Response(id, Undecodable, result))] + [Complete(id)]).fired
        == Run(events).fired + [Firing(call.ticket, call.sink, Failed("response decode error"))]
  {
    var e := Receive(who, Response(id, Undecodable, result));
    RunStep(events, e);
    RunStep(events + [e], Complete(id));
    hide Run;
  }

  /** A call that could not connect is woken at once, with the reason or a default for an empty one. */
  lemma {:induction false} ConnectFailureDelivered(events: seq<Event>, t: Ticket, error: string)
    requires Enabled(Run(events), ConnectFailed(t, error)) && !Run(events).sinks[t].EmptyCallback?
    ensures Run(events + [ConnectFailed(t, error)]).fired == Run(events).fired +
      [Firing(t, Run(events).sinks[t], Failed(if error == "" then "connect failed" else error))]
  {
    RunStep(events, ConnectFailed(t, error));
  }

  // ---------------------------------------------------------------- what every way of finishing means

  /** What an event promises a pending call: nothing, or the outcome it will be woken with. */
  function Promised(call: PendingCall, id: RequestId, e: Event): Option<Outcome> {
    match e
    case Receive(_, Response(rid, NilError, result)) => if rid == id then Some(Delivered(result)) else None
    case Receive(_, Response(rid, Undecodable, _)) => if rid == id then Some(Failed("response decode error")) else None
    case Receive(_, Response(rid, Text(text), _)) =>
      if rid != id then None else if text == "" then Some(Delivered(Nil)) else Some(Failed(text))
    case Sweep(now) => if 0 < call.timeout <= now - call.start then Some(Failed("timeout")) else None
    case FailAll(_, reason) => Some(Failed(reason))
    case TakeBack(t) => if t == call.ticket then Some(Failed("send failed")) else None
    case DestroyPending => Some(Failed("channel closed"))
    case _ => None
  }

  /** A call taken out of the map keeps its verdict until it is completed. */
  lemma HeldStays(s: State, e: Event, id: RequestId)
    requires Inv(s) && id in s.held && e != Complete(id)
    ensures id in Step(s, e).held && Step(s, e).held[id] == s.held[id]
  {
    hide IsExpired, Verdict, Holds, Fire;
    assert id !in s.pending by { NotBoth(s, id); }
    hide Inv;
  }

  lemma NotBoth(s: State, id: RequestId)
    requires Inv(s)
    ensures !(id in s.pending && id in s.held)
  {
    if id in s.pending {
      assert IdOk(s, id) && TicketOk(s, s.pending[id].ticket);
    }
  }

  lemma {:induction false} HeldUntilCompleted(events: seq<Event>, between: seq<Event>, id: RequestId)
    requires id in Run(events).held && Complete(id) !in between
    ensures id in Run(events + between).held && Run(events + between).held[id] == Run(events).held[id]
  {
    if between == [] {
      assert events + between == events;
    } else {
      var front, last := between[..|between| - 1], between[|between| - 1];
      HeldUntilCompleted(events, front, id);
      assert events + between == events + front + [last];
      RunStep(events + front, last);
      InvRun(events + front);
      HeldStays(Run(events + front), last, id);
    }
  }

  ghost predicate Keeps(s: State, s': State, id: RequestId, p: Option<Outcome>)
    requires id in s.pending
  {
    if p.None? then id in s'.pending && s'.pending[id] == s.pending[id]
    else id in s'.held && s'.held[id].call == s.pending[id] && HasVerdict(s'.held[id], p.value)
  }

  lemma TakeKeeps(s: State, who: Actor, taken: set<RequestId>, error: string, result: Value, id: RequestId, p: Option<Outcome>)
    requires taken <= s.pending.Keys && id in s.pending
    requires if p.None? then id !in taken
             else id in taken && if error == "" then p.value == Delivered(result) else p.value == Failed(error)
    ensures Keeps(s, Take(s, who, taken, error, result), id, p)
  {
  }

  lemma ReceiveKeeps(s: State, who: Actor, r: Response, id: RequestId)
    requires Enabled(s, Receive(who, r)) && id in s.pending
    ensures Keeps(s, Effect(s, Receive(who, r)), id, Promised(s.pending[id], id, Receive(who, r)))
  {
    hide Take;
    var logged := s.(responses := s.responses + [r]);
    if r.id in s.pending {
      TakeKeeps(logged, who, {r.id}, Verdict(r).0, Verdict(r).1, id, Promised(s.pending[id], id, Receive(who, r)));
    }
  }

  lemma TakeBackKeeps(s: State, t: Ticket, id: RequestId)
    requires Inv(s) && Enabled(s, TakeBack(t)) && id in s.pending
    ensures Keeps(s, Effect(s, TakeBack(t)), id, Promised(s.pending[id], id, TakeBack(t)))
  {
    assert IdOk(s, id) && TicketOk(s, t);
    hide Inv, Take, IdOk, TicketOk;
    if s.ids[t] in s.pending {
      TakeKeeps(s.(callers := s.callers[t := Completing]), Caller(t), {s.ids[t]}, "send failed", Nil, id,
                Promised(s.pending[id], id, TakeBack(t)));
    }
  }

  /** The step that keeps a promise takes the call with that verdict; any other leaves it pending. */
  lemma PromiseTaken(s: State, e: Event, id: RequestId)
    requires Inv(s) && Enabled(s, e) && id in s.pending
    ensures Keeps(s, Effect(s, e), id, Promised(s.pending[id], id, e))
  {
    hide Inv, Take, Holds, Fire, Verdict;
    var p := Promised(s.pending[id], id, e);
    match e
    case Receive(who, r) => ReceiveKeeps(s, who, r, id);
    case TakeBack(t) => TakeBackKeeps(s, t, id);
    case Sweep(now) =>
      TakeKeeps(s, TimeoutThread, set i | i in s.pending && IsExpired(s.pending[i], now), "timeout", Nil, id, p);
    case FailAll(who, reason) => TakeKeeps(s, who, s.pending.Keys, reason, Nil, id, p);
    case DestroyPending => TakeKeeps(s, Destructor, s.pending.Keys, "channel closed", Nil, id, p);
    case _ =>
  }

  predicate HasVerdict(h: Held, outcome: Outcome) {
    if h.error == "" then outcome == Delivered(h.result) else outcome == Failed(h.error)
  }

  /**
    Whatever finishes a pending call decides, at that moment and alone, what the
    call is woken with: the response's result or error, "timeout" exactly when its
    positive timeout has elapsed, the reason of a failure, "send failed" or
    "channel closed". Any other event leaves it pending as it was, and no event
    between taking and completing changes the verdict.
   */
  lemma {:induction false} PromiseKept(events: seq<Event>, e: Event, id: RequestId, between: seq<Event>)
    requires id in Run(events).pending && Enabled(Run(events), e) && Complete(id) !in between
    ensures var call, p := Run(events).pending[id], Promised(Run(events).pending[id], id, e);
      && (p.None? ==> id in Run(events + [e]).pending && Run(events + [e]).pending[id] == call)
      && (p.Some? && !call.sink.EmptyCallback? ==>
            Run(events + [e] + between + [Complete(id)]).fired
              == Run(events + [e] + between).fired + [Firing(call.ticket, call.sink, p.value)])
  {
    var p := Promised(Run(events).pending[id], id, e);
    InvRun(events);
    RunStep(events, e);
    PromiseTaken(Run(events), e, id);
    if p.Some? && !Run(events).pending[id].sink.EmptyCallback? {
      HeldUntilCompleted(events + [e], between, id);
      hide Run, Inv, Effect;
      RunStep(events + [e] + between, Complete(id));
      WokenWith(Run(events + [e] + between), id, p.value);
    }
  }

  lemma WokenWith(s: State, id: RequestId, outcome: Outcome)
    requires id in s.held && HasVerdict(s.held[id], outcome) && !s.held[id].call.sink.EmptyCallback?
    ensures Step(s, Complete(id)).fired == s.fired + [Firing(s.held[id].call.ticket, s.held[id].call.sink, outcome)]
  {
  }

  // ---------------------------------------------------------------- entering and sending

  /** What a call entered with stays on record. */
  lemma RecordStays(s: State, e: Event)
    ensures s.sinks <= Step(s, e).sinks && s.timeouts <= Step(s, e).timeouts
  {
    hide IsExpired, Verdict, Holds, Fire, Take;
  }

  lemma {:induction false} RecordsStay(events: seq<Event>, later: seq<Event>)
    ensures Run(events).sinks <= Run(events + later).sinks && Run(events).timeouts <= Run(events + later).timeouts
  {
    if later == [] {
      assert events + later == events;
    } else {
      var front, last := later[..|later| - 1], later[|later| - 1];
      RecordsStay(events, front);
      assert events + later == events + front + [last];
      RunStep(events + front, last);
      RecordStays(Run(events + front), last);
    }
  }

  /** A call pending later waits with the sink and the timeout it entered with; a negative timeout means none. */
  lemma {:induction false} PendingAsEntered(events: seq<Event>, sink: Sink, timeoutMs: int, later: seq<Event>, id: RequestId)
    requires Run(events).phase.Running?
    requires var s := Run(events + [Enter(sink, timeoutMs)] + later);
      id in s.pending && s.pending[id].ticket == |Run(events).sinks|
    ensures var call := Run(events + [Enter(sink, timeoutMs)] + later).pending[id];
      call.sink == sink && call.timeout == if timeoutMs < 0 then 0 else timeoutMs
  {
    var entered := events + [Enter(sink, timeoutMs)];
    InvRun(events);
    InvRun(entered + later);
    RunStep(events, Enter(sink, timeoutMs));
    RecordsStay(entered, later);
    assert IdOk(Run(entered + later), id);
  }

  /**
    A published call whose caller finds the socket connected stays pending and the
    caller returns; on a closed one the caller goes on to take its call back, and
    fails it with "send failed" unless another thread took it before.
   */
  lemma {:induction false} SocketDecides(events: seq<Event>, t: Ticket)
    requires Enabled(Run(events), CheckSocket(t)) && t in Run(events).ids
    ensures var s, s' := Run(events), Run(events + [CheckSocket(t)]);
      && s'.pending == s.pending && s'.held == s.held && s'.fired == s.fired
      && (s.connected ==> t !in s'.callers)
      && (!s.connected ==> Enabled(s', TakeBack(t)))
    ensures var s, s'' := Run(events), Run(events + [CheckSocket(t)] + [TakeBack(t)]); var id := s.ids[t];
      !s.connected ==>
        if id in s.pending
        then id !in s''.pending && id in s''.held && s''.held[id] == Held(Caller(t), s.pending[id], "send failed", Nil)
        else s''.pending == s.pending && s''.held == s.held && t !in s''.callers
  {
    RunStep(events, CheckSocket(t));
    RunStep(events + [CheckSocket(t)], TakeBack(t));
    hide Run;
  }

  lemma FiredGrows(s: State, e: Event)
    ensures s.fired <= Step(s, e).fired
  {
    hide Effect, Enabled;
    if Enabled(s, e) {
      if e.Complete? || e.ConnectFailed? {
        FiredMore(s, e);
      } else {
        FiredSame(s, e);
      }
    }
  }

  lemma FiredSame(s: State, e: Event)
    requires Enabled(s, e) && !e.Complete? && !e.ConnectFailed?
    ensures Effect(s, e).fired == s.fired
  {
    hide IsExpired, Verdict, Holds, Take;
    match e
    case DestroyPending =>
    case Sweep(_) =>
    case Receive(_, _) =>
    case TakeBack(_) =>
    case FailAll(_, _) =>
    case _ =>
  }

  lemma FiredMore(s: State, e: Event)
    requires Enabled(s, e) && (e.Complete? || e.ConnectFailed?)
    ensures s.fired <= Effect(s, e).fired
  {
    hide Fire;
    if e.Complete? {
      FireGrows(s.fired, s.held[e.id].call, s.held[e.id].error, s.held[e.id].result);
    } else {
      FireGrows(s.fired, PendingCall(e.ticket, s.sinks[e.ticket], 0, 0), if e.error == "" then "connect failed" else e.error, Nil);
    }
  }

  lemma FireGrows(log: seq<Firing>, call: PendingCall, error: string, result: Value)
    ensures log <= Fire(log, call, error, result)
  {
  }

  /** What a call was woken with is final: the log only grows, whatever happens later. */
  lemma {:induction false} FiringIsFinal(events: seq<Event>, later: seq<Event>)
    ensures Run(events).fired <= Run(events + later).fired
  {
    if later == [] {
      assert events + later == events;
    } else {
      FiringIsFinal(events, later[..|later| - 1]);
      assert events + later == events + later[..|later| - 1] + [later[|later| - 1]];
      RunStep(events + later[..|later| - 1], later[|later| - 1]);
      FiredGrows(Run(events + later[..|later| - 1]), later[|later| - 1]);
    }
  }
}
