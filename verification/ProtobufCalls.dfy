/**
  Life of a call on the protobuf channel.

  The pending map is shared by caller threads, the receive loop, the send thread,
  the timeout sweep and the failure handler. Each event is one critical section,
  or one half of a completion: first the promise is set and the closure run, then
  the callback is looked at. The callback is installed only after the call was
  published, so the two can race.
 */
module ProtobufCalls {
  import opened Common

  /** Number of the call in order of entry; a ghost name, the code has none. */
  type Ticket = nat
  type RequestId = nat

  /** What the caller passed in. The timeout may be zero or less, which means none. */
  datatype Call = Call(hasDone: bool, hasCallback: bool, timeoutMs: int)

  datatype PendingCall = PendingCall(ticket: Ticket, start: int, timeoutMs: int)

  /** How a call ended: with its response parsed, or with the text its controller is failed with. */
  datatype Outcome = Succeeded | Failed(reason: string)

  /** A call taken out of the map, with its verdict, and how far its completion is. */
  datatype Held = Held(call: PendingCall, outcome: Outcome, promiseSet: bool)

  datatype Signal = PromiseSet | DoneRun | CallbackRun
  datatype Firing = Firing(ticket: Ticket, signal: Signal, outcome: Outcome)

  /** A RESPONSE frame: the id in its header and whether its payload parses as the response message. */
  datatype Response = Response(id: RequestId, parses: bool)

  /** Where a call stands. */
  datatype Place = Preparing | Allocated | Pending | Taken | Notified | Done | Refused

  datatype State = State(
    nextId: RequestId,
    calls: seq<Call>,
    ids: map<Ticket, RequestId>,       // history: the id each call was given,
    owner: map<RequestId, Ticket>,     // its inverse,
    place: map<Ticket, Place>,         // and where each call stands
    pending: map<RequestId, PendingCall>,
    installed: set<Ticket>,
    held: map<RequestId, Held>,
    log: seq<Firing>,
    responses: seq<Response>)

  datatype Event =
    | Enter(call: Call)
    | FailImmediately(t: Ticket, reason: string)
    | AllocateId(t: Ticket)
    | AllocateOther
    | Publish(t: Ticket, start: int)
    | InstallCallback(t: Ticket)
    | Resolve(response: Response)
    | Remove(id: RequestId, reason: string)
    | FailAll(reason: string)
    | Sweep(now: int)
    | SetPromise(id: RequestId)
    | RunCallback(id: RequestId)

  function Init(): State {
    State(1, [], map[], map[], map[], map[], {}, map[], [], [])
  }

  // ---------------------------------------------------------------- steps

  predicate IsExpired(call: PendingCall, now: int) {
    call.timeoutMs > 0 && now - call.start >= call.timeoutMs
  }

  function Expired(s: State, now: int): (ids: set<RequestId>)
    ensures ids <= s.pending.Keys
  {
    set id | id in s.pending && IsExpired(s.pending[id], now)
  }

  /** The tickets of some pending calls. */
  function Tickets(s: State, taken: set<RequestId>): set<Ticket>
    requires taken <= s.pending.Keys
  {
    set id | id in taken :: s.pending[id].ticket
  }

  /** Calls leave the map for a thread's hand; nothing is signalled yet. */
  function Take(s: State, taken: set<RequestId>, outcome: Outcome): (s': State)
    requires taken <= s.pending.Keys
    ensures s'.calls == s.calls && s'.log == s.log
  {
    s.(pending := s.pending - taken,
       held := s.held + map id | id in taken :: Held(s.pending[id], outcome, false),
       place := s.place + map t | t in Tickets(s, taken) :: Taken)
  }

  function Signals(t: Ticket, promise: bool, done: bool, callback: bool, outcome: Outcome): seq<Firing> {
    (if promise then [Firing(t, PromiseSet, outcome)] else [])
    + (if done then [Firing(t, DoneRun, outcome)] else [])
    + (if callback then [Firing(t, CallbackRun, outcome)] else [])
  }

  predicate Enabled(s: State, e: Event) {
    match e
    case Enter(_) => true
    case FailImmediately(t, _) => t in s.place && t < |s.calls| && (s.place[t].Preparing? || s.place[t].Allocated?)
    case AllocateId(t) => t in s.place && s.place[t].Preparing?
    case AllocateOther => true
    case Publish(t, _) => t in s.place && t < |s.calls| && s.place[t].Allocated? && t in s.ids
    case InstallCallback(t) =>
      t in s.place && (s.place[t].Pending? || s.place[t].Taken? || s.place[t].Notified? || s.place[t].Done?)
    case Resolve(_) => true
    case Remove(_, _) => true
    case FailAll(_) => true
    case Sweep(_) => true
    case SetPromise(id) => id in s.held && !s.held[id].promiseSet && s.held[id].call.ticket < |s.calls|
    case RunCallback(id) => id in s.held && s.held[id].promiseSet && s.held[id].call.ticket < |s.calls|
  }

  function Effect(s: State, e: Event): State
    requires Enabled(s, e)
  {
    match e
    case Enter(call) => s.(calls := s.calls + [call], place := s.place[|s.calls| := Preparing])
    case FailImmediately(t, reason) =>
      s.(place := s.place[t := Refused], log := s.log + Signals(t, false, s.calls[t].hasDone, s.calls[t].hasCallback, Failed(reason)))
    case AllocateId(t) =>
      s.(nextId := s.nextId + 1, ids := s.ids[t := s.nextId], owner := s.owner[s.nextId := t], place := s.place[t := Allocated])
    case AllocateOther => s.(nextId := s.nextId + 1)
    case Publish(t, start) =>
      s.(pending := s.pending[s.ids[t] := PendingCall(t, start, s.calls[t].timeoutMs)], place := s.place[t := Pending])
    case InstallCallback(t) => s.(installed := s.installed + {t})
    case Resolve(r) =>
      var s1 := s.(responses := s.responses + [r]);
      if r.id !in s.pending then s1
      else if r.parses then Take(s1, {r.id}, Succeeded)
      else Take(s1, {r.id}, Failed("parse response payload error"))
    case Remove(id, reason) => if id in s.pending then Take(s, {id}, Failed(reason)) else s
    case FailAll(reason) => Take(s, s.pending.Keys, Failed(reason))
    case Sweep(now) => Take(s, Expired(s, now), Failed("timeout"))
    case SetPromise(id) =>
      var h := s.held[id];
      s.(held := s.held[id := h.(promiseSet := true)], place := s.place[h.call.ticket := Notified],
         log := s.log + Signals(h.call.ticket, true, s.calls[h.call.ticket].hasDone, false, h.outcome))
    case RunCallback(id) =>
      var h := s.held[id];
      var runs := h.call.ticket in s.installed && s.calls[h.call.ticket].hasCallback;
      s.(held := s.held - {id}, place := s.place[h.call.ticket := Done],
         log := s.log + Signals(h.call.ticket, false, false, runs, h.outcome))
  }

  function Step(s: State, e: Event): State {
    if Enabled(s, e) then Effect(s, e) else s
  }

  function Run(events: seq<Event>): State {
    if events == [] then Init() else Step(Run(events[..|events| - 1]), events[|events| - 1])
  }

  // ---------------------------------------------------------------- invariant

  function Count(log: seq<Firing>, t: Ticket, signal: Signal): nat {
    if log == [] then 0
    else Count(log[..|log| - 1], t, signal) + One(log[|log| - 1].ticket == t && log[|log| - 1].signal == signal)
  }

  function One(b: bool): nat { if b then 1 else 0 }

  /** Some received RESPONSE frame carries the id of call t and a payload that parses. */
  ghost predicate Answered(s: State, t: Ticket) {
    t in s.ids && exists k :: 0 <= k < |s.responses| && s.responses[k] == Response(s.ids[t], true)
  }

  ghost predicate InMap(s: State, t: Ticket) {
    t in s.ids && s.ids[t] in s.pending && s.pending[s.ids[t]].ticket == t
  }

  ghost predicate InHand(s: State, t: Ticket, promiseSet: bool) {
    t in s.ids && s.ids[t] in s.held && s.held[s.ids[t]].call.ticket == t && s.held[s.ids[t]].promiseSet == promiseSet
  }

  /** How often each signal of call t was given. */
  ghost predicate Counts(s: State, t: Ticket, promises: nat, dones: nat, callbacks: nat) {
    Count(s.log, t, PromiseSet) == promises && Count(s.log, t, DoneRun) == dones && Count(s.log, t, CallbackRun) == callbacks
  }

  ghost predicate PlaceOk(s: State, t: Ticket)
    requires t in s.place && t < |s.calls|
  {
    var c := s.calls[t];
    match s.place[t]
    case Preparing => t !in s.ids && Counts(s, t, 0, 0, 0)
    case Allocated => t in s.ids && Counts(s, t, 0, 0, 0)
    case Pending => InMap(s, t) && Counts(s, t, 0, 0, 0)
    case Taken => InHand(s, t, false) && Counts(s, t, 0, 0, 0)
    case Notified => InHand(s, t, true) && Counts(s, t, 1, One(c.hasDone), 0)
    case Done => t in s.ids && Count(s.log, t, CallbackRun) <= One(c.hasCallback)
              && Counts(s, t, 1, One(c.hasDone), Count(s.log, t, CallbackRun))
    case Refused => Counts(s, t, 0, One(c.hasDone), One(c.hasCallback))
  }

  ghost predicate TicketOk(s: State, t: Ticket) {
    && (t in s.place <==> t < |s.calls|)
    && (t in s.ids ==> t < |s.calls| && s.ids[t] < s.nextId && s.ids[t] in s.owner && s.owner[s.ids[t]] == t)
    && (if t in s.place then PlaceOk(s, t) else Counts(s, t, 0, 0, 0))
  }

  ghost predicate Stands(s: State, id: RequestId, call: PendingCall, place: Place) {
    id in s.owner && s.owner[id] == call.ticket && call.ticket in s.place && s.place[call.ticket] == place
  }

  ghost predicate IdOk(s: State, id: RequestId) {
    && (id in s.owner ==> id < s.nextId && s.owner[id] in s.ids && s.ids[s.owner[id]] == id)
    && (id in s.pending ==>
          && Stands(s, id, s.pending[id], Pending)
          && s.pending[id].ticket < |s.calls| && s.pending[id].timeoutMs == s.calls[s.pending[id].ticket].timeoutMs)
    && (id in s.held ==>
          && Stands(s, id, s.held[id].call, if s.held[id].promiseSet then Notified else Taken)
          && (s.held[id].outcome.Succeeded? ==> Answered(s, s.owner[id])))
  }

  ghost predicate FiringOk(s: State, f: Firing) {
    f.outcome.Succeeded? ==> Answered(s, f.ticket)
  }

  ghost predicate Inv(s: State) {
    && (forall t: Ticket :: TicketOk(s, t))
    && (forall id: RequestId :: IdOk(s, id))
    && (forall f :: f in s.log ==> FiringOk(s, f))
  }

  // ---------------------------------------------------------------- preservation

  lemma {:induction false} CountConcat(a: seq<Firing>, b: seq<Firing>, t: Ticket, signal: Signal)
    ensures Count(a + b, t, signal) == Count(a, t, signal) + Count(b, t, signal)
  {
    if b == [] {
      assert a + b == a;
    } else {
      CountConcat(a, b[..|b| - 1], t, signal);
      assert (a + b)[..|a + b| - 1] == a + b[..|b| - 1];
    }
  }

  lemma CountOne(f: Firing, t: Ticket, signal: Signal)
    ensures Count([f], t, signal) == One(f.ticket == t && f.signal == signal)
  {
    assert Count([], t, signal) == 0;
  }

  lemma CountSignals(log: seq<Firing>, u: Ticket, promise: bool, done: bool, callback: bool, outcome: Outcome, t: Ticket)
    ensures var log' := log + Signals(u, promise, done, callback, outcome);
      && Count(log', t, PromiseSet) == Count(log, t, PromiseSet) + One(t == u && promise)
      && Count(log', t, DoneRun) == Count(log, t, DoneRun) + One(t == u && done)
      && Count(log', t, CallbackRun) == Count(log, t, CallbackRun) + One(t == u && callback)
  {
    forall signal: Signal
      ensures Count(log + Signals(u, promise, done, callback, outcome), t, signal) == Count(log, t, signal)
        + One(t == u && ((signal.PromiseSet? && promise) || (signal.DoneRun? && done) || (signal.CallbackRun? && callback)))
    {
      var a := if promise then [Firing(u, PromiseSet, outcome)] else [];
      var b := if done then [Firing(u, DoneRun, outcome)] else [];
      var c := if callback then [Firing(u, CallbackRun, outcome)] else [];
      CountOne(Firing(u, PromiseSet, outcome), t, signal);
      CountOne(Firing(u, DoneRun, outcome), t, signal);
      CountOne(Firing(u, CallbackRun, outcome), t, signal);
      CountConcat(log, a + b + c, t, signal);
      CountConcat(a + b, c, t, signal);
      CountConcat(a, b, t, signal);
    }
  }

  /** An answer stays one: ids are never changed and responses only added. */
  lemma AnsweredStays(s: State, s': State, t: Ticket)
    requires Answered(s, t) && s.responses <= s'.responses && t in s'.ids && s'.ids[t] == s.ids[t]
    ensures Answered(s', t)
  {
    var k :| 0 <= k < |s.responses| && s.responses[k] == Response(s.ids[t], true);
    assert s'.responses[k] == s.responses[k];
  }

  /** Steps that add ids, calls or installed callbacks and leave completion alone. */
  lemma InvEarly(s: State, e: Event)
    requires Inv(s) && Enabled(s, e) && (e.Enter? || e.AllocateOther? || e.InstallCallback?)
    ensures Inv(Effect(s, e))
  {
    var s' := Effect(s, e);
    hide Count, Answered;
    assert TicketOk(s, |s.calls|) && IdOk(s, s.nextId);
    forall t: Ticket ensures TicketOk(s', t) { assert TicketOk(s, t); }
    forall id: RequestId ensures IdOk(s', id) {
      assert IdOk(s, id);
      if id in s.held && s.held[id].outcome.Succeeded? { AnsweredStays(s, s', s.owner[id]); }
    }
    forall f | f in s'.log ensures FiringOk(s', f) {
      assert FiringOk(s, f) && TicketOk(s, f.ticket);
      if f.outcome.Succeeded? { AnsweredHasId(s, f.ticket); AnsweredStays(s, s', f.ticket); }
    }
  }

  lemma InvAllocate(s: State, t: Ticket)
    requires Inv(s) && Enabled(s, AllocateId(t))
    ensures Inv(Effect(s, AllocateId(t)))
  {
    var s' := Effect(s, AllocateId(t));
    hide Count, Answered;
    assert TicketOk(s, t) && IdOk(s, s.nextId);
    forall u: Ticket ensures TicketOk(s', u) { assert TicketOk(s, u); }
    forall id: RequestId ensures IdOk(s', id) {
      assert IdOk(s, id);
      if id in s.held && s.held[id].outcome.Succeeded? { AnsweredStays(s, s', s.owner[id]); }
    }
    forall f | f in s'.log ensures FiringOk(s', f) {
      assert FiringOk(s, f);
      if f.outcome.Succeeded? { AnsweredHasId(s, f.ticket); AnsweredStays(s, s', f.ticket); }
    }
  }

  lemma AnsweredHasId(s: State, t: Ticket)
    requires Answered(s, t)
    ensures t in s.ids
  {
  }

  lemma InvPublish(s: State, t: Ticket, start: int)
    requires Inv(s) && Enabled(s, Publish(t, start))
    ensures Inv(Effect(s, Publish(t, start)))
  {
    var s' := Effect(s, Publish(t, start));
    hide Count, Answered;
    assert TicketOk(s, t);
    forall u: Ticket ensures TicketOk(s', u) { assert TicketOk(s, u); }
    forall id: RequestId ensures IdOk(s', id) {
      assert IdOk(s, id) && IdOk(s, s.ids[t]);
      if id in s.held && s.held[id].outcome.Succeeded? { AnsweredSame(s, s', s.owner[id]); }
    }
    forall f | f in s'.log ensures FiringOk(s', f) { assert FiringOk(s, f); AnsweredSame(s, s', f.ticket); }
  }

  lemma TakeTicket(s: State, taken: set<RequestId>, outcome: Outcome, t: Ticket)
    requires Inv(s) && taken <= s.pending.Keys
    ensures TicketOk(Take(s, taken, outcome), t)
  {
    hide Count, Answered;
    assert TicketOk(s, t);
    if t in Tickets(s, taken) {
      var id :| id in taken && s.pending[id].ticket == t;
      assert IdOk(s, id);
    } else if t in s.ids {
      assert IdOk(s, s.ids[t]);
    }
  }

  lemma TakeId(s: State, taken: set<RequestId>, outcome: Outcome, id: RequestId)
    requires Inv(s) && taken <= s.pending.Keys
    requires outcome.Succeeded? ==> forall id :: id in taken ==> Answered(s, s.pending[id].ticket)
    ensures IdOk(Take(s, taken, outcome), id)
  {
    var s' := Take(s, taken, outcome);
    hide TicketOk, FiringOk, Answered;
    assert IdOk(s, id);
    if id in s.owner && s.owner[id] in Tickets(s, taken) {
      var id2 :| id2 in taken && s.pending[id2].ticket == s.owner[id];
      assert IdOk(s, id2);
    }
    if id in s.held && s.held[id].outcome.Succeeded? { AnsweredSame(s, s', s.owner[id]); }
    if id in taken && outcome.Succeeded? { AnsweredSame(s, s', s.owner[id]); }
  }

  lemma InvTake(s: State, taken: set<RequestId>, outcome: Outcome)
    requires Inv(s) && taken <= s.pending.Keys
    requires outcome.Succeeded? ==> forall id :: id in taken ==> Answered(s, s.pending[id].ticket)
    ensures Inv(Take(s, taken, outcome))
  {
    var s' := Take(s, taken, outcome);
    hide TicketOk, IdOk, Answered;
    forall t: Ticket ensures TicketOk(s', t) { TakeTicket(s, taken, outcome, t); }
    forall id: RequestId ensures IdOk(s', id) { TakeId(s, taken, outcome, id); }
    forall f | f in s'.log ensures FiringOk(s', f) { assert FiringOk(s, f); AnsweredSame(s, s', f.ticket); }
  }

  lemma AnsweredSame(s: State, s': State, t: Ticket)
    requires s'.ids == s.ids && s'.responses == s.responses
    ensures Answered(s', t) == Answered(s, t)
  {
  }

  lemma InvLogged(s: State, r: Response)
    requires Inv(s)
    ensures Inv(s.(responses := s.responses + [r]))
  {
    hide Count, Answered;
    var s1 := s.(responses := s.responses + [r]);
    forall t: Ticket ensures TicketOk(s1, t) { assert TicketOk(s, t); }
    forall id: RequestId ensures IdOk(s1, id) {
      assert IdOk(s, id);
      if id in s.held && s.held[id].outcome.Succeeded? { HeldFacts(s, id); AnsweredStays(s, s1, s.owner[id]); }
    }
    forall f | f in s1.log ensures FiringOk(s1, f) {
      assert FiringOk(s, f);
      if f.outcome.Succeeded? { AnsweredHasId(s, f.ticket); AnsweredStays(s, s1, f.ticket); }
    }
  }

  lemma InvResolve(s: State, r: Response)
    requires Inv(s)
    ensures Inv(Effect(s, Resolve(r)))
  {
    hide TicketOk, FiringOk, Count, Take;
    var s1 := s.(responses := s.responses + [r]);
    InvLogged(s, r);
    if r.id in s.pending {
      assert IdOk(s, r.id);
      PendingHasId(s, r.id);
      assert s1.responses[|s.responses|] == r;
      InvTake(s1, {r.id}, if r.parses then Succeeded else Failed("parse response payload error"));
    }
  }

  lemma PendingHasId(s: State, id: RequestId)
    requires Inv(s) && id in s.pending
    ensures var t := s.pending[id].ticket; t in s.ids && s.ids[t] == id
  {
    assert IdOk(s, id);
  }

  /** What becomes of everything but call u when only its place, its signals and its place in `held` change. */
  lemma InvSignals(s: State, s': State, u: Ticket, promise: bool, done: bool, callback: bool, outcome: Outcome)
    requires Inv(s) && u in s.place && u in s'.place
    requires s'.calls == s.calls && s'.ids == s.ids && s'.owner == s.owner && s'.nextId == s.nextId
    requires s'.pending == s.pending && s'.responses == s.responses
    requires s'.place == s.place[u := s'.place[u]] && !s.place[u].Pending?
    requires s'.log == s.log + Signals(u, promise, done, callback, outcome)
    requires forall id :: id in s'.held ==> id in s.held && ((u in s.ids && s.ids[u] == id) || s'.held[id] == s.held[id])
    requires forall id :: id in s.held && id !in s'.held ==> u in s.ids && s.ids[u] == id
    requires TicketOk(s', u) && (u in s.ids ==> IdOk(s', s.ids[u])) && (outcome.Succeeded? ==> Answered(s, u))
    ensures Inv(s')
  {
    hide Count, Answered, Signals;
    assert TicketOk(s, u);
    forall t: Ticket ensures TicketOk(s', t) {
      assert TicketOk(s, t);
      CountSignals(s.log, u, promise, done, callback, outcome, t);
    }
    forall id: RequestId ensures IdOk(s', id) {
      assert IdOk(s, id);
      if id in s.held && s.held[id].outcome.Succeeded? { AnsweredSame(s, s', s.owner[id]); }
    }
    forall f | f in s'.log ensures FiringOk(s', f) {
      AnsweredSame(s, s', f.ticket);
      if f in s.log { assert FiringOk(s, f); } else { SignalsOf(u, promise, done, callback, outcome, f); }
    }
  }

  lemma SignalsOf(u: Ticket, promise: bool, done: bool, callback: bool, outcome: Outcome, f: Firing)
    requires f in Signals(u, promise, done, callback, outcome)
    ensures f.ticket == u && f.outcome == outcome
  {
  }

  lemma RefuseOk(s: State, t: Ticket, reason: string)
    requires Enabled(s, FailImmediately(t, reason)) && TicketOk(s, t) && (t in s.ids ==> IdOk(s, s.ids[t]))
    ensures var s' := Effect(s, FailImmediately(t, reason)); TicketOk(s', t) && (t in s.ids ==> IdOk(s', s.ids[t]))
  {
    hide Count, Signals, Answered;
    CountSignals(s.log, t, false, s.calls[t].hasDone, s.calls[t].hasCallback, Failed(reason), t);
  }

  lemma InvRefuse(s: State, t: Ticket, reason: string)
    requires Inv(s) && Enabled(s, FailImmediately(t, reason))
    ensures Inv(Effect(s, FailImmediately(t, reason)))
  {
    hide TicketOk, IdOk, FiringOk, Signals;
    RefuseOk(s, t, reason);
    InvSignals(s, Effect(s, FailImmediately(t, reason)), t, false, s.calls[t].hasDone, s.calls[t].hasCallback, Failed(reason));
  }

  lemma HeldFacts(s: State, id: RequestId)
    requires Inv(s) && id in s.held
    ensures var t := s.held[id].call.ticket;
      && t in s.place && s.place[t] == (if s.held[id].promiseSet then Notified else Taken)
      && t < |s.calls| && t in s.ids && s.ids[t] == id && (s.held[id].outcome.Succeeded? ==> Answered(s, t))
  {
    hide Count, Answered;
    assert IdOk(s, id) && TicketOk(s, s.held[id].call.ticket);
  }

  lemma SetPromiseOk(s: State, id: RequestId, t: Ticket)
    requires Enabled(s, SetPromise(id)) && s.held[id].call.ticket == t && TicketOk(s, t) && IdOk(s, id)
    ensures var s' := Effect(s, SetPromise(id)); TicketOk(s', t) && IdOk(s', id)
  {
    hide Count, Signals, Answered;
    var s' := Effect(s, SetPromise(id));
    AnsweredSame(s, s', t);
    CountSignals(s.log, t, true, s.calls[t].hasDone, false, s.held[id].outcome, t);
  }

  lemma InvSetPromise(s: State, id: RequestId)
    requires Inv(s) && Enabled(s, SetPromise(id))
    ensures Inv(Effect(s, SetPromise(id)))
  {
    var t := s.held[id].call.ticket;
    HeldFacts(s, id);
    SetPromiseOk(s, id, t);
    hide TicketOk, IdOk, FiringOk, Signals, Answered;
    InvSignals(s, Effect(s, SetPromise(id)), t, true, s.calls[t].hasDone, false, s.held[id].outcome);
  }

  lemma RunCallbackOk(s: State, id: RequestId, t: Ticket)
    requires Enabled(s, RunCallback(id)) && s.held[id].call.ticket == t && TicketOk(s, t) && IdOk(s, id)
    ensures var s' := Effect(s, RunCallback(id)); TicketOk(s', t) && IdOk(s', id)
  {
    hide Count, Signals, Answered;
    var runs := t in s.installed && s.calls[t].hasCallback;
    CountSignals(s.log, t, false, false, runs, s.held[id].outcome, t);
  }

  lemma InvRunCallback(s: State, id: RequestId)
    requires Inv(s) && Enabled(s, RunCallback(id))
    ensures Inv(Effect(s, RunCallback(id)))
  {
    var t := s.held[id].call.ticket;
    HeldFacts(s, id);
    RunCallbackOk(s, id, t);
    hide TicketOk, IdOk, FiringOk, Signals, Answered;
    InvSignals(s, Effect(s, RunCallback(id)), t, false, false, t in s.installed && s.calls[t].hasCallback, s.held[id].outcome);
  }

  lemma InvStep(s: State, e: Event)
    requires Inv(s)
    ensures Inv(Step(s, e))
  {
    hide TicketOk, FiringOk, Count;
    if Enabled(s, e) {
      match e
      case Resolve(r) => InvResolve(s, r);
      case Remove(id, reason) => if id in s.pending { InvTake(s, {id}, Failed(reason)); }
      case FailAll(reason) => InvTake(s, s.pending.Keys, Failed(reason));
      case Sweep(now) => InvTake(s, Expired(s, now), Failed("timeout"));
      case FailImmediately(t, reason) => InvRefuse(s, t, reason);
      case SetPromise(id) => InvSetPromise(s, id);
      case RunCallback(id) => InvRunCallback(s, id);
      case AllocateId(t) => InvAllocate(s, t);
      case Publish(t, start) => InvPublish(s, t, start);
      case _ => InvEarly(s, e);
    }
  }

  lemma InitOk()
    ensures Inv(Init())
  {
    forall t: Ticket ensures TicketOk(Init(), t) {}
  }

  lemma {:induction false} InvRun(events: seq<Event>)
    ensures Inv(Run(events))
  {
    if events == [] {
      InitOk();
    } else {
      InvRun(events[..|events| - 1]);
      InvStep(Run(events[..|events| - 1]), events[|events| - 1]);
    }
  }

  // ---------------------------------------------------------------- theorems over all runs

  /** In every interleaving the promise is set at most once, and closure and callback run at most once. */
  lemma {:induction false} SignalsOnce(events: seq<Event>, t: Ticket)
    ensures Count(Run(events).log, t, PromiseSet) <= 1
    ensures Count(Run(events).log, t, DoneRun) <= 1 && Count(Run(events).log, t, CallbackRun) <= 1
  {
    InvRun(events);
    assert TicketOk(Run(events), t);
  }

  predicate IsPublished(s: State, t: Ticket) {
    t in s.place && !s.place[t].Preparing? && !s.place[t].Allocated? && !s.place[t].Refused?
  }

  /** A published call is in exactly one place: in the map, taken by one thread, or its promise is set. */
  lemma {:induction false} PublishedConserved(events: seq<Event>, t: Ticket)
    requires IsPublished(Run(events), t)
    ensures var s := Run(events);
      One(InMap(s, t)) + One(InHand(s, t, false)) + Count(s.log, t, PromiseSet) == 1
  {
    var s := Run(events);
    InvRun(events);
    assert TicketOk(s, t);
    assert IdOk(s, s.ids[t]);
  }

  /** A call completes successfully only if a RESPONSE frame with its own id and a payload that parses was received. */
  lemma {:induction false} SuccessOnlyFromOwnResponse(events: seq<Event>, f: Firing)
    requires f in Run(events).log && f.outcome.Succeeded?
    ensures Answered(Run(events), f.ticket)
  {
    InvRun(events);
    assert FiringOk(Run(events), f);
  }

  ghost predicate AwaitsId(s: State, t: Ticket, id: RequestId) {
    InMap(s, t) && s.ids[t] == id
  }

  /** A response changes nothing if and only if no call in the map has its id: late, duplicate and foreign ids are ignored. */
  lemma {:induction false} OnlyAwaitedResponsesCount(events: seq<Event>, r: Response)
    ensures var s := Run(events);
      Step(s, Resolve(r)) == s.(responses := s.responses + [r]) <==> !exists t :: AwaitsId(s, t, r.id)
  {
    var s := Run(events);
    InvRun(events);
    if r.id in s.pending {
      var t := s.pending[r.id].ticket;
      assert IdOk(s, r.id) && TicketOk(s, t);
      assert AwaitsId(s, t, r.id);
      assert r.id !in Step(s, Resolve(r)).pending;
    }
  }

  /** Once a call's promise is set, or it was refused, no response is its answer any more. */
  lemma {:induction false} LateResponseIgnored(events: seq<Event>, t: Ticket, parses: bool)
    requires t in Run(events).ids && Count(Run(events).log, t, PromiseSet) == 1
    ensures var s := Run(events); var r := Response(s.ids[t], parses);
      Step(s, Resolve(r)) == s.(responses := s.responses + [r])
  {
    InvRun(events);
    assert TicketOk(Run(events), t) && IdOk(Run(events), Run(events).ids[t]);
  }

  lemma RunStep(events: seq<Event>, e: Event)
    ensures Run(events + [e]) == Step(Run(events), e)
  {
    assert (events + [e])[..|events|] == events;
  }

  /** After FailPendingCalls took the map nothing is pending, and each call it held is taken as failed with that reason. */
  lemma {:induction false} NothingPendingAfterFailAll(events: seq<Event>, reason: string)
    ensures var s, s' := Run(events), Run(events + [FailAll(reason)]);
      && s'.pending == map[]
      && forall t :: InMap(s, t) ==> InHand(s', t, false) && s'.held[s.ids[t]] == Held(s.pending[s.ids[t]], Failed(reason), false)
  {
    RunStep(events, FailAll(reason));
  }

  /** A sweep takes exactly the pending calls with a positive timeout that has elapsed, and fails them with "timeout". */
  lemma {:induction false} SweepExact(events: seq<Event>, now: int, t: Ticket)
    requires InMap(Run(events), t)
    ensures var s, s' := Run(events), Run(events + [Sweep(now)]);
      var call := s.pending[s.ids[t]];
      && (0 < call.timeoutMs <= now - call.start ==>
            InHand(s', t, false) && s'.held[s.ids[t]] == Held(call, Failed("timeout"), false))
      && (!(0 < call.timeoutMs <= now - call.start) ==> InMap(s', t) && s'.pending[s.ids[t]] == call)
  {
    RunStep(events, Sweep(now));
    hide Count;
  }

  // ---------------------------------------------------------------- what every way of finishing means

  /** What an event promises a pending call: nothing, or how it will end. */
  function Promised(call: PendingCall, id: RequestId, e: Event): Option<Outcome> {
    match e
    case Resolve(Response(rid, parses)) =>
      if rid != id then None else if parses then Some(Succeeded) else Some(Failed("parse response payload error"))
    case Remove(rid, reason) => if rid == id then Some(Failed(reason)) else None
    case FailAll(reason) => Some(Failed(reason))
    case Sweep(now) => if 0 < call.timeoutMs <= now - call.start then Some(Failed("timeout")) else None
    case _ => None
  }

  ghost predicate Keeps(s: State, s': State, id: RequestId, p: Option<Outcome>)
    requires id in s.pending
  {
    if p.None? then id in s'.pending && s'.pending[id] == s.pending[id]
    else id in s'.held && s'.held[id] == Held(s.pending[id], p.value, false)
  }

  /** The step that keeps a promise takes the call with that verdict; any other leaves it pending. */
  lemma PromiseTaken(s: State, e: Event, id: RequestId)
    requires Inv(s) && Enabled(s, e) && id in s.pending
    ensures Keeps(s, Effect(s, e), id, Promised(s.pending[id], id, e))
  {
    hide Signals, TicketOk, FiringOk, Tickets;
    if e.Publish? {
      PublishFresh(s, e.t);
    }
    hide Inv;
  }

  lemma PublishFresh(s: State, t: Ticket)
    requires Inv(s) && t in s.ids && t in s.place && s.place[t].Allocated?
    ensures s.ids[t] !in s.pending
  {
    assert TicketOk(s, t) && IdOk(s, s.ids[t]);
  }

  /** A taken call keeps its verdict; only its own completion takes it further. */
  lemma HeldStays(s: State, e: Event, id: RequestId)
    requires Inv(s) && id in s.held && e != if s.held[id].promiseSet then RunCallback(id) else SetPromise(id)
    ensures id in Step(s, e).held && Step(s, e).held[id] == s.held[id]
  {
    hide Signals, TicketOk, FiringOk, Tickets;
    assert IdOk(s, id);
    hide Inv;
  }

  lemma {:induction false} HeldUntil(events: seq<Event>, between: seq<Event>, id: RequestId)
    requires id in Run(events).held
    requires (if Run(events).held[id].promiseSet then RunCallback(id) else SetPromise(id)) !in between
    ensures id in Run(events + between).held && Run(events + between).held[id] == Run(events).held[id]
  {
    if between == [] {
      assert events + between == events;
    } else {
      var front, last := between[..|between| - 1], between[|between| - 1];
      HeldUntil(events, front, id);
      assert events + between == events + front + [last];
      RunStep(events + front, last);
      InvRun(events + front);
      HeldStays(Run(events + front), last, id);
    }
  }

  lemma {:induction false} CallsStay(events: seq<Event>, later: seq<Event>)
    ensures Run(events).calls <= Run(events + later).calls
  {
    if later == [] {
      assert events + later == events;
    } else {
      var front, last := later[..|later| - 1], later[|later| - 1];
      CallsStay(events, front);
      assert events + later == events + front + [last];
      RunStep(events + front, last);
      CallsGrow(Run(events + front), last);
    }
  }

  lemma CallsGrow(s: State, e: Event)
    ensures s.calls <= Step(s, e).calls
  {
    hide Signals, Expired, Tickets, Take;
  }

  /** The first half of a completion sets the promise and runs the closure, both with the verdict. */
  lemma PromiseSignals(s: State, id: RequestId, h: Held)
    requires Inv(s) && id in s.held && s.held[id] == h && !h.promiseSet
    ensures Enabled(s, SetPromise(id))
    ensures var s', t := Step(s, SetPromise(id)), h.call.ticket;
      && s'.log == s.log + [Firing(t, PromiseSet, h.outcome)] + (if s.calls[t].hasDone then [Firing(t, DoneRun, h.outcome)] else [])
      && id in s'.held && s'.held[id] == h.(promiseSet := true)
  {
    HeldFacts(s, id);
    hide Inv;
    var t := h.call.ticket;
    SignalsOfPromise(t, s.calls[t].hasDone, h.outcome);
    Assoc(s.log, [Firing(t, PromiseSet, h.outcome)], if s.calls[t].hasDone then [Firing(t, DoneRun, h.outcome)] else []);
  }

  lemma SignalsOfPromise(t: Ticket, done: bool, outcome: Outcome)
    ensures Signals(t, true, done, false, outcome)
         == [Firing(t, PromiseSet, outcome)] + if done then [Firing(t, DoneRun, outcome)] else []
  {
  }

  /** The second half runs the callback, if there is one by then, with the same verdict. */
  lemma CallbackSignals(s: State, id: RequestId, h: Held)
    requires Inv(s) && id in s.held && s.held[id] == h && h.promiseSet
    ensures h.call.ticket < |s.calls|
    ensures var t := h.call.ticket;
      Step(s, RunCallback(id)).log == s.log + if t in s.installed && s.calls[t].hasCallback then [Firing(t, CallbackRun, h.outcome)] else []
  {
    HeldFacts(s, id);
    hide Inv;
    var t := h.call.ticket;
    assert Signals(t, false, false, t in s.installed && s.calls[t].hasCallback, h.outcome)
        == if t in s.installed && s.calls[t].hasCallback then [Firing(t, CallbackRun, h.outcome)] else [];
  }

  /** Log and verdict after the first half, whatever came before it. */
  lemma {:induction false} FirstHalf(events: seq<Event>, id: RequestId, between: seq<Event>)
    requires id in Run(events).held && !Run(events).held[id].promiseSet && SetPromise(id) !in between
    ensures var h, a := Run(events).held[id], events + between; var b := a + [SetPromise(id)]; var t := h.call.ticket;
      && t < |Run(a).calls|
      && Run(b).log == Run(a).log + [Firing(t, PromiseSet, h.outcome)]
           + (if Run(a).calls[t].hasDone then [Firing(t, DoneRun, h.outcome)] else [])
      && id in Run(b).held && Run(b).held[id] == h.(promiseSet := true)
  {
    var a := events + between;
    HeldUntil(events, between, id);
    InvRun(a);
    RunStep(a, SetPromise(id));
    hide Run, Inv, Step, Enabled;
    PromiseSignals(Run(a), id, Run(events).held[id]);
    HeldTicket(Run(a), id);
  }

  lemma HeldTicket(s: State, id: RequestId)
    requires Inv(s) && id in s.held
    ensures s.held[id].call.ticket < |s.calls|
  {
    HeldFacts(s, id);
  }

  lemma {:induction false} SecondHalf(events: seq<Event>, id: RequestId, later: seq<Event>)
    requires id in Run(events).held && Run(events).held[id].promiseSet && RunCallback(id) !in later
    ensures var h, b := Run(events).held[id], events + later; var t := h.call.ticket;
      && t < |Run(b).calls|
      && Run(b + [RunCallback(id)]).log == Run(b).log +
           if t in Run(b).installed && Run(b).calls[t].hasCallback then [Firing(t, CallbackRun, h.outcome)] else []
  {
    var b := events + later;
    HeldUntil(events, later, id);
    InvRun(b);
    RunStep(b, RunCallback(id));
    hide Run, Inv, Step, Enabled;
    CallbackSignals(Run(b), id, Run(events).held[id]);
  }

  /**
    Whatever finishes a pending call decides, at that moment and alone, how it
    ends: by success exactly for a response with its id that parses, else with the
    text of the parse error, of the failure, or "timeout" exactly when its positive
    timeout has elapsed. Its promise and closure, and later its callback, say just
    that, whatever happens in between; any other event leaves it pending.
   */
  lemma {:induction false} PromiseKept(events: seq<Event>, e: Event, id: RequestId, between: seq<Event>, later: seq<Event>)
    requires id in Run(events).pending && Enabled(Run(events), e)
    requires SetPromise(id) !in between && RunCallback(id) !in later
    ensures var call, p := Run(events).pending[id], Promised(Run(events).pending[id], id, e);
      && (p.None? ==> id in Run(events + [e]).pending && Run(events + [e]).pending[id] == call)
      && (p.Some? ==> EndsWith(events + [e] + between, id, later, call.ticket, p.value))
  {
    var s := Run(events);
    InvRun(events);
    RunStep(events, e);
    PromiseTaken(s, e, id);
    if Promised(s.pending[id], id, e).Some? {
      hide Run, Inv, Effect, Promised;
      FirstHalf(events + [e], id, between);
      SecondHalf(events + [e] + between + [SetPromise(id)], id, later);
    }
  }

  /** Completing the call after these events gives its promise and closure this outcome, and its callback after some later ones. */
  ghost predicate EndsWith(events: seq<Event>, id: RequestId, later: seq<Event>, t: Ticket, outcome: Outcome) {
    var a, a', b, b' := Run(events), Run(events + [SetPromise(id)]),
      Run(events + [SetPromise(id)] + later), Run(events + [SetPromise(id)] + later + [RunCallback(id)]);
    && t < |a.calls| && t < |b.calls|
    && a'.log == a.log + [Firing(t, PromiseSet, outcome)] + (if a.calls[t].hasDone then [Firing(t, DoneRun, outcome)] else [])
    && b'.log == b.log + if t in b.installed && b.calls[t].hasCallback then [Firing(t, CallbackRun, outcome)] else []
  }

  lemma SameCall(events: seq<Event>, later: seq<Event>, t: Ticket)
    requires t < |Run(events).calls|
    ensures t < |Run(events + later).calls| && Run(events + later).calls[t] == Run(events).calls[t]
  {
    CallsStay(events, later);
  }

  /** A response that parses makes its call succeed: promise and closure say so at once. */
  lemma {:induction false} ResponseSucceeds(events: seq<Event>, id: RequestId, parses: bool)
    requires id in Run(events).pending
    ensures var s := Run(events); var t := s.pending[id].ticket;
      var outcome := if parses then Succeeded else Failed("parse response payload error");
      t < |s.calls| && Run(events + [Resolve(Response(id, parses))] + [SetPromise(id)]).log
        == s.log + [Firing(t, PromiseSet, outcome)] + if s.calls[t].hasDone then [Firing(t, DoneRun, outcome)] else []
  {
    var e := Resolve(Response(id, parses));
    InvRun(events);
    RunStep(events, e);
    PromiseTaken(Run(events), e, id);
    assert Run(events + [e]).log == Run(events).log && Run(events + [e]).calls == Run(events).calls;
    hide Run, Inv, Effect;
    assert events + [e] + [] == events + [e];
    FirstHalf(events + [e], id, []);
  }

  /** A call pending later is still the one that entered, with its closure, callback and timeout. */
  lemma {:induction false} PendingAsEntered(events: seq<Event>, call: Call, later: seq<Event>, id: RequestId)
    requires var s := Run(events + [Enter(call)] + later); id in s.pending && s.pending[id].ticket == |Run(events).calls|
    ensures var s := Run(events + [Enter(call)] + later); var t := |Run(events).calls|;
      t < |s.calls| && s.calls[t] == call && s.pending[id].timeoutMs == call.timeoutMs
  {
    var entered := events + [Enter(call)];
    RunStep(events, Enter(call));
    InvRun(entered + later);
    SameCall(entered, later, |Run(events).calls|);
    assert IdOk(Run(entered + later), id);
  }

  /** A refused call is answered at once: closure and callback run with the reason, and no promise is set. */
  lemma {:induction false} RefusalSignals(events: seq<Event>, t: Ticket, reason: string)
    requires Enabled(Run(events), FailImmediately(t, reason))
    ensures var s := Run(events);
      Run(events + [FailImmediately(t, reason)]).log == s.log
        + (if s.calls[t].hasDone then [Firing(t, DoneRun, Failed(reason))] else [])
        + (if s.calls[t].hasCallback then [Firing(t, CallbackRun, Failed(reason))] else [])
  {
    RunStep(events, FailImmediately(t, reason));
    hide Run;
    var s := Run(events);
    var done := if s.calls[t].hasDone then [Firing(t, DoneRun, Failed(reason))] else [];
    var callback := if s.calls[t].hasCallback then [Firing(t, CallbackRun, Failed(reason))] else [];
    assert Signals(t, false, s.calls[t].hasDone, s.calls[t].hasCallback, Failed(reason)) == done + callback;
    Assoc(s.log, done, callback);
  }

  // ---------------------------------------------------------------- the callback race

  predicate Finished(s: State, t: Ticket) {
    t in s.place && s.place[t].Done?
  }

  ghost predicate SameSignals(s: State, s': State, t: Ticket) {
    forall signal: Signal :: Count(s'.log, t, signal) == Count(s.log, t, signal)
  }

  lemma SignalsElsewhere(s: State, s': State, u: Ticket, promise: bool, done: bool, callback: bool, outcome: Outcome, t: Ticket)
    requires s'.log == s.log + Signals(u, promise, done, callback, outcome) && u != t
    ensures SameSignals(s, s', t)
  {
    forall signal: Signal ensures Count(s'.log, t, signal) == Count(s.log, t, signal) {
      CountSignals(s.log, u, promise, done, callback, outcome, t);
      match signal
      case PromiseSet =>
      case DoneRun =>
      case CallbackRun =>
    }
  }

  lemma FinishedNotSignalled(s: State, e: Event, t: Ticket)
    requires Inv(s) && Finished(s, t) && Enabled(s, e) && (e.SetPromise? || e.RunCallback?)
    ensures s.held[e.id].call.ticket != t
  {
    HeldFacts(s, e.id);
  }

  lemma FinishedNotTaken(s: State, t: Ticket, taken: set<RequestId>)
    requires Inv(s) && Finished(s, t) && taken <= s.pending.Keys
    ensures t !in Tickets(s, taken)
  {
    hide TicketOk, IdOk, FiringOk;
    forall id | id in s.pending ensures s.pending[id].ticket != t { PendingFacts(s, id); }
  }

  lemma FinishedSignals(s: State, e: Event, t: Ticket)
    requires Inv(s) && Finished(s, t) && Enabled(s, e) && (e.FailImmediately? || e.SetPromise? || e.RunCallback?)
    ensures Finished(Effect(s, e), t) && SameSignals(s, Effect(s, e), t)
  {
    hide Signals, SameSignals, Inv;
    match e
    case FailImmediately(u, reason) =>
      SignalsElsewhere(s, Effect(s, e), u, false, s.calls[u].hasDone, s.calls[u].hasCallback, Failed(reason), t);
    case SetPromise(id) =>
      var u := s.held[id].call.ticket;
      FinishedNotSignalled(s, e, t);
      SignalsElsewhere(s, Effect(s, e), u, true, s.calls[u].hasDone, false, s.held[id].outcome, t);
    case RunCallback(id) =>
      var u := s.held[id].call.ticket;
      FinishedNotSignalled(s, e, t);
      SignalsElsewhere(s, Effect(s, e), u, false, false, u in s.installed && s.calls[u].hasCallback, s.held[id].outcome, t);
  }

  /** Taking calls out of the map signals nothing and leaves finished ones alone. */
  lemma FinishedTakes(s: State, e: Event, t: Ticket)
    requires Inv(s) && Finished(s, t) && Enabled(s, e) && (e.Resolve? || e.Remove? || e.FailAll? || e.Sweep?)
    ensures Finished(Effect(s, e), t) && SameSignals(s, Effect(s, e), t)
  {
    hide Inv, Count, Take, Tickets;
    match e
    case Resolve(r) =>
      if r.id in s.pending {
        FinishedNotTaken(s, t, {r.id});
        var s1 := s.(responses := s.responses + [r]);
        SameTickets(s, s1, {r.id});
        TakeKeeps(s1, {r.id}, if r.parses then Succeeded else Failed("parse response payload error"), t);
      }
    case Remove(id, reason) =>
      if id in s.pending {
        FinishedNotTaken(s, t, {id});
        TakeKeeps(s, {id}, Failed(reason), t);
      }
    case FailAll(reason) =>
      FinishedNotTaken(s, t, s.pending.Keys);
      TakeKeeps(s, s.pending.Keys, Failed(reason), t);
    case Sweep(now) =>
      FinishedNotTaken(s, t, Expired(s, now));
      TakeKeeps(s, Expired(s, now), Failed("timeout"), t);
  }

  lemma SameTickets(s: State, s': State, taken: set<RequestId>)
    requires s'.pending == s.pending && taken <= s.pending.Keys
    ensures Tickets(s', taken) == Tickets(s, taken)
  {
  }

  lemma TakeKeeps(s: State, taken: set<RequestId>, outcome: Outcome, t: Ticket)
    requires Finished(s, t) && taken <= s.pending.Keys && t !in Tickets(s, taken)
    ensures Finished(Take(s, taken, outcome), t) && Take(s, taken, outcome).log == s.log
  {
    hide Tickets;
  }

  /** A finished call is neither in the map nor in hand, so no step changes it. */
  lemma FinishedStays(s: State, e: Event, t: Ticket)
    requires Inv(s) && Finished(s, t)
    ensures Finished(Step(s, e), t) && SameSignals(s, Step(s, e), t)
  {
    hide Count, Signals, IdOk, FiringOk, PlaceOk;
    if Enabled(s, e) {
      match e
      case Resolve(_) => FinishedTakes(s, e, t);
      case Remove(_, _) => FinishedTakes(s, e, t);
      case FailAll(_) => FinishedTakes(s, e, t);
      case Sweep(_) => FinishedTakes(s, e, t);
      case FailImmediately(_, _) => FinishedSignals(s, e, t);
      case SetPromise(_) => FinishedSignals(s, e, t);
      case RunCallback(_) => FinishedSignals(s, e, t);
      case _ => assert TicketOk(s, t);
    }
  }

  lemma PendingFacts(s: State, id: RequestId)
    requires Inv(s) && id in s.pending
    ensures s.pending[id].ticket in s.place && s.place[s.pending[id].ticket].Pending?
  {
    assert IdOk(s, id);
  }

  lemma {:induction false} FinishedIsFinal(events: seq<Event>, later: seq<Event>, t: Ticket)
    requires Finished(Run(events), t)
    ensures Finished(Run(events + later), t) && SameSignals(Run(events), Run(events + later), t)
  {
    if later == [] {
      assert events + later == events;
    } else {
      var before := events + later[..|later| - 1];
      FinishedIsFinal(events, later[..|later| - 1], t);
      assert events + later == before + [later[|later| - 1]];
      RunStep(before, later[|later| - 1]);
      InvRun(before);
      FinishedStays(Run(before), later[|later| - 1], t);
    }
  }

  /**
    The callback of a published call runs, once and for all of the future, if and
    only if it had been installed when its completion looked at it.
   */
  lemma {:induction false} CallbackIff(events: seq<Event>, id: RequestId, later: seq<Event>)
    requires Enabled(Run(events), RunCallback(id))
    ensures var s, s' := Run(events), Run(events + [RunCallback(id)] + later);
      var t := s.held[id].call.ticket;
      && Count(s'.log, t, CallbackRun) == One(t in s.installed && s.calls[t].hasCallback)
      && Count(s'.log, t, PromiseSet) == 1
  {
    hide Run, Inv, Count, Effect;
    var s, s1 := Run(events), Run(events + [RunCallback(id)]);
    var t := s.held[id].call.ticket;
    RunStep(events, RunCallback(id));
    InvRun(events);
    CallbackCounted(s, id);
    FinishedIsFinal(events + [RunCallback(id)], later, t);
    assert SameSignals(s1, Run(events + [RunCallback(id)] + later), t);
  }

  lemma CallbackCounted(s: State, id: RequestId)
    requires Inv(s) && Enabled(s, RunCallback(id))
    ensures var s', t := Effect(s, RunCallback(id)), s.held[id].call.ticket;
      && Finished(s', t) && Count(s'.log, t, PromiseSet) == 1
      && Count(s'.log, t, CallbackRun) == One(t in s.installed && s.calls[t].hasCallback)
  {
    hide Count, Signals;
    var t := s.held[id].call.ticket;
    HeldFacts(s, id);
    assert TicketOk(s, t);
    CountSignals(s.log, t, false, false, t in s.installed && s.calls[t].hasCallback, s.held[id].outcome, t);
  }

  lemma OvertakingSteps(s: State, t: Ticket, start: int)
    requires Enabled(s, Publish(t, start)) && t !in s.installed
    ensures var id := s.ids[t];
      var s' := Step(Step(Step(s, Publish(t, start)), Resolve(Response(id, true))), SetPromise(id));
      Enabled(s', RunCallback(id)) && s'.held[id].call.ticket == t && t !in s'.installed
  {
    hide Count, Signals;
    var id := s.ids[t];
    var s1 := Step(s, Publish(t, start));
    var s2 := Step(s1, Resolve(Response(id, true)));
    assert s2.held[id] == Held(PendingCall(t, start, s.calls[t].timeoutMs), Succeeded, false);
  }

  /** Whenever a response overtakes the installation the call succeeds and its callback is never run. */
  lemma {:induction false} CallbackOvertaken(events: seq<Event>, t: Ticket, start: int, later: seq<Event>)
    requires Enabled(Run(events), Publish(t, start)) && t !in Run(events).installed
    ensures var id := Run(events).ids[t];
      var s := Run(events + [Publish(t, start)] + [Resolve(Response(id, true))] + [SetPromise(id)] + [RunCallback(id)] + later);
      Count(s.log, t, PromiseSet) == 1 && Count(s.log, t, CallbackRun) == 0
  {
    var id := Run(events).ids[t];
    var a := events + [Publish(t, start)];
    var b := a + [Resolve(Response(id, true))];
    var c := b + [SetPromise(id)];
    OvertakingSteps(Run(events), t, start);
    hide Run, Step, Count;
    RunStep(events, Publish(t, start));
    RunStep(a, Resolve(Response(id, true)));
    RunStep(b, SetPromise(id));
    CallbackIff(c, id, later);
  }

  /** The shortest run that loses a callback. */
  lemma CallbackLost(later: seq<Event>)
    ensures var s := Run([Enter(Call(false, true, 0))] + [AllocateId(0)] + [Publish(0, 0)] + [Resolve(Response(1, true))]
                         + [SetPromise(1)] + [RunCallback(1)] + later);
      Count(s.log, 0, PromiseSet) == 1 && Count(s.log, 0, CallbackRun) == 0
  {
    var call := Call(false, true, 0);
    FirstSteps(call);
    RunStep([], Enter(call));
    RunStep([Enter(call)], AllocateId(0));
    assert [] + [Enter(call)] == [Enter(call)] && Run([]) == Init();
    hide Run, Step, Enabled, Count, Init;
    CallbackOvertaken([Enter(call)] + [AllocateId(0)], 0, 0, later);
  }

  lemma FirstSteps(call: Call)
    ensures var s := Step(Step(Init(), Enter(call)), AllocateId(0));
      Enabled(s, Publish(0, 0)) && 0 !in s.installed && 0 in s.ids && s.ids[0] == 1
  {
    hide Signals, Take;
    assert Step(Init(), Enter(call)) == Init().(calls := [call], place := map[0 := Preparing]);
  }
}
