/**
  The server's worker pool and what becomes of every request handed to it.

  IO threads wait for room in a bounded queue, workers take from its front, and
  stopping lets the workers drain it. Each event is one critical section of the
  queue mutex or one execution; a run is any sequence of events.
 */
module WorkerPool {
  import opened Common

  /** Number of the task in order of arrival; a ghost name, the code has none. */
  type Ticket = nat
  type WorkerId = nat

  datatype Value = Nil | Data(bytes: seq<Byte>)
  datatype Task = Task(oneway: bool, requestId: nat, service: string, method_: string)

  /** What the bound function did: returned, threw a std::exception, or threw something else. */
  datatype Call = Returned(value: Value) | Threw(what: string) | ThrewOther

  datatype Response = Response(ticket: Ticket, requestId: nat, service: string, method_: string, error: string, result: Value)

  datatype Worker = Waiting | Busy(ticket: Ticket) | Exited

  datatype Place = Arriving | Pushing | Queued | WithWorker(w: WorkerId) | Inline | Done

  datatype State = State(
    capacity: nat,
    bound: set<string>,                // keys of the dispatcher's handlers
    received: seq<Task>,               // indexed by ticket
    lock: Option<Ticket>,              // an IO thread inside the mutex that found room and has not pushed yet
    queue: seq<Ticket>,
    stop: bool,
    workers: map<WorkerId, Worker>,
    accepted: seq<Ticket>,             // pushed, in order
    taken: seq<Ticket>,                // taken by workers, in order
    executed: seq<Ticket>,
    sent: seq<Response>,
    place: map<Ticket, Place>,         // history: where each task stands,
    calls: map<Ticket, Call>)          // and what the function bound for it did

  datatype Event =
    | Arrive(task: Task)
    | CheckRoom(t: Ticket)
    | Push
    | Take(w: WorkerId)
    | Exit(w: WorkerId)
    | Finish(w: WorkerId, call: Call)
    | FinishInline(t: Ticket, call: Call)
    | Stop

  function Init(capacity: nat, bound: set<string>, workers: set<WorkerId>): State {
    State(capacity, bound, [], None, [], false, map w | w in workers :: Waiting, [], [], [], [], map[], map[])
  }

  // ---------------------------------------------------------------- executing a task

  function MethodKey(service: string, method_: string): string {
    service + "." + method_
  }

  /** Error text and result that Dispatch leaves when both are wanted. */
  function Dispatched(bound: set<string>, task: Task, call: Call): (string, Value) {
    var key := MethodKey(task.service, task.method_);
    if key !in bound then ("no such method: " + key, Nil)
    else match call
      case Returned(v) => ("", v)
      case Threw(what) => ("call_error: " + what, Nil)
      case ThrewOther => ("call_error: unknown", Nil)
  }

  function Reply(s: State, t: Ticket, call: Call): seq<Response>
    requires t < |s.received|
  {
    var task := s.received[t];
    if task.oneway then []
    else
      var d := Dispatched(s.bound, task, call);
      [Response(t, task.requestId, task.service, task.method_, d.0, d.1)]
  }

  function Execute(s: State, t: Ticket, call: Call): State
    requires t < |s.received|
  {
    s.(executed := s.executed + [t], sent := s.sent + Reply(s, t, call), place := s.place[t := Done], calls := s.calls[t := call])
  }

  // ---------------------------------------------------------------- steps

  predicate Enabled(s: State, e: Event) {
    match e
    case Arrive(_) => true
    case CheckRoom(t) => s.lock.None? && t in s.place && s.place[t].Arriving? && (s.stop || |s.queue| < s.capacity)
    case Push => s.lock.Some?
    case Take(w) => s.lock.None? && w in s.workers && s.workers[w].Waiting? && s.queue != []
    case Exit(w) => s.lock.None? && w in s.workers && s.workers[w].Waiting? && s.stop && s.queue == []
    case Finish(w, _) => w in s.workers && s.workers[w].Busy? && s.workers[w].ticket < |s.received|
    case FinishInline(t, _) => t in s.place && s.place[t].Inline? && t < |s.received|
    case Stop => true
  }

  function Effect(s: State, e: Event): State
    requires Enabled(s, e)
  {
    match e
    case Arrive(task) => s.(received := s.received + [task], place := s.place[|s.received| := Arriving])
    case CheckRoom(t) =>
      if s.stop then s.(place := s.place[t := Inline])
      else s.(lock := Some(t), place := s.place[t := Pushing])
    case Push =>
      var t := s.lock.value;
      s.(lock := None, queue := s.queue + [t], accepted := s.accepted + [t], place := s.place[t := Queued])
    case Take(w) =>
      var t := s.queue[0];
      s.(queue := s.queue[1..], taken := s.taken + [t], workers := s.workers[w := Busy(t)], place := s.place[t := WithWorker(w)])
    case Exit(w) => s.(workers := s.workers[w := Exited])
    case Finish(w, call) => Execute(s.(workers := s.workers[w := Waiting]), s.workers[w].ticket, call)
    case FinishInline(t, call) => Execute(s, t, call)
    case Stop => s.(stop := true)
  }

  function Step(s: State, e: Event): State {
    if Enabled(s, e) then Effect(s, e) else s
  }

  function Run(s: State, events: seq<Event>): State {
    if events == [] then s else Step(Run(s, events[..|events| - 1]), events[|events| - 1])
  }

  // ---------------------------------------------------------------- invariant

  function Count(log: seq<Ticket>, t: Ticket): nat {
    if log == [] then 0 else Count(log[..|log| - 1], t) + if log[|log| - 1] == t then 1 else 0
  }

  function Responses(log: seq<Response>, t: Ticket): nat {
    if log == [] then 0 else Responses(log[..|log| - 1], t) + if log[|log| - 1].ticket == t then 1 else 0
  }

  ghost predicate TicketOk(s: State, t: Ticket) {
    && (t in s.place <==> t < |s.received|)
    && Count(s.executed, t) == (if t in s.place && s.place[t].Done? then 1 else 0)
    && Responses(s.sent, t) == (if t in s.place && s.place[t].Done? && t < |s.received| && !s.received[t].oneway then 1 else 0)
    && (t in s.place ==>
          match s.place[t]
          case Pushing => s.lock == Some(t)
          case Queued => t in s.queue
          case WithWorker(w) => w in s.workers && s.workers[w] == Busy(t)
          case _ => true)
  }

  ghost predicate WorkerOk(s: State, w: WorkerId) {
    w in s.workers ==>
      match s.workers[w]
      case Waiting => true
      case Busy(t) => t in s.place && s.place[t] == WithWorker(w)
      case Exited => s.stop && s.queue == [] && s.lock == None
  }

  ghost predicate QueueOk(s: State) {
    && |s.queue| + (if s.lock.Some? then 1 else 0) <= s.capacity
    && (s.lock.Some? ==> s.lock.value in s.place && s.place[s.lock.value].Pushing?)
    && s.accepted == s.taken + s.queue
    && (forall t :: t in s.queue ==> t in s.place && s.place[t].Queued?)
    && (forall t :: t in s.taken ==> t in s.place && (s.place[t].WithWorker? || s.place[t].Done?))
    && (forall i, j :: 0 <= i < j < |s.queue| ==> s.queue[i] != s.queue[j])
    && (forall i, j :: 0 <= i < j < |s.taken| ==> s.taken[i] != s.taken[j])
  }

  /**
    The response carries the request's own id and names, and says what became of
    it: no such function, the value returned, or the exception thrown.
   */
  predicate Reports(r: Response, task: Task, bound: set<string>, call: Call) {
    var key := task.service + "." + task.method_;
    && r.requestId == task.requestId && r.service == task.service && r.method_ == task.method_
    && if key !in bound then r.error == "no such method: " + key && r.result == Nil
       else match call
         case Returned(value) => r.error == "" && r.result == value
         case Threw(what) => r.error == "call_error: " + what && r.result == Nil
         case ThrewOther => r.error == "call_error: unknown" && r.result == Nil
  }

  ghost predicate ResponseOk(s: State, r: Response) {
    && r.ticket < |s.received| && !s.received[r.ticket].oneway
    && r.ticket in s.place && s.place[r.ticket].Done? && r.ticket in s.calls
    && Reports(r, s.received[r.ticket], s.bound, s.calls[r.ticket])
  }

  ghost predicate Inv(s: State) {
    && QueueOk(s)
    && (forall t: Ticket :: TicketOk(s, t))
    && (forall w: WorkerId :: WorkerOk(s, w))
    && (forall r :: r in s.sent ==> ResponseOk(s, r))
  }

  // ---------------------------------------------------------------- preservation

  lemma CountAppend(log: seq<Ticket>, x: Ticket, t: Ticket)
    ensures Count(log + [x], t) == Count(log, t) + if x == t then 1 else 0
  {
    assert (log + [x])[..|log|] == log;
  }

  lemma ResponsesAppend(log: seq<Response>, r: seq<Response>, t: Ticket)
    requires |r| <= 1
    ensures Responses(log + r, t) == Responses(log, t) + if r != [] && r[0].ticket == t then 1 else 0
  {
    if r == [] {
      assert log + r == log;
    } else {
      assert (log + r)[..|log|] == log;
    }
  }

  lemma ExecuteTicket(s: State, s0: State, t: Ticket, call: Call, u: Ticket)
    requires t < |s.received| && t in s.place && s0 == s.(workers := s0.workers) && TicketOk(s, t) && TicketOk(s, u)
    requires (s.place[t].Inline? && s0 == s)
          || (s.place[t].WithWorker? && s0.workers == s.workers[s.place[t].w := Waiting])
    ensures TicketOk(Execute(s0, t, call), u)
  {
    hide Count, Responses;
    CountAppend(s.executed, t, u);
    ResponsesAppend(s.sent, Reply(s0, t, call), u);
  }

  lemma ReplyReports(s: State, t: Ticket, call: Call)
    requires t < |s.received|
    ensures if s.received[t].oneway then Reply(s, t, call) == []
            else |Reply(s, t, call)| == 1 && Reply(s, t, call)[0].ticket == t && Reports(Reply(s, t, call)[0], s.received[t], s.bound, call)
  {
  }

  lemma ExecuteResponses(s: State, t: Ticket, call: Call)
    requires t < |s.received| && t in s.place && !s.place[t].Done? && forall r :: r in s.sent ==> ResponseOk(s, r)
    ensures forall r :: r in Execute(s, t, call).sent ==> ResponseOk(Execute(s, t, call), r)
  {
    hide Reply, Reports;
    var s' := Execute(s, t, call);
    ReplyReports(s, t, call);
    forall r | r in s'.sent ensures ResponseOk(s', r) {
      if r in s.sent {
        assert ResponseOk(s, r);
      } else {
        assert r == Reply(s, t, call)[0];
      }
    }
  }

  lemma InvExecute(s: State, s0: State, t: Ticket, call: Call)
    requires Inv(s) && t < |s.received| && t in s.place
    requires s0 == s.(workers := s0.workers)
    requires (s.place[t].Inline? && s0 == s)
          || (s.place[t].WithWorker? && s0.workers == s.workers[s.place[t].w := Waiting])
    ensures Inv(Execute(s0, t, call))
  {
    var s' := Execute(s0, t, call);
    hide TicketOk, ResponseOk, Reply;
    forall u: Ticket ensures TicketOk(s', u) { ExecuteTicket(s, s0, t, call, u); }
    forall w: WorkerId ensures WorkerOk(s', w) { assert WorkerOk(s, w); }
    forall r | r in s0.sent ensures ResponseOk(s0, r) { SameResponse(s, s0, r); }
    ExecuteResponses(s0, t, call);
  }

  lemma SameResponse(s: State, s': State, r: Response)
    requires ResponseOk(s, r) && s'.received == s.received && s'.bound == s.bound && s'.place == s.place && s'.calls == s.calls
    ensures ResponseOk(s', r)
  {
  }

  lemma InvSimple(s: State, e: Event)
    requires Inv(s) && Enabled(s, e) && (e.Arrive? || e.CheckRoom? || e.Exit? || e.Stop?)
    ensures Inv(Effect(s, e))
  {
    var s' := Effect(s, e);
    assert TicketOk(s, |s.received|);
    forall u: Ticket ensures TicketOk(s', u) { assert TicketOk(s, u); }
    forall w: WorkerId ensures WorkerOk(s', w) { assert WorkerOk(s, w); }
    forall r | r in s'.sent ensures ResponseOk(s', r) { assert ResponseOk(s, r); }
  }

  lemma InvPush(s: State)
    requires Inv(s) && Enabled(s, Push)
    ensures Inv(Effect(s, Push))
  {
    var s' := Effect(s, Push);
    Assoc(s.taken, s.queue, [s.lock.value]);
    forall u: Ticket ensures TicketOk(s', u) { assert TicketOk(s, u); }
    forall w: WorkerId ensures WorkerOk(s', w) { assert WorkerOk(s, w); }
    forall r | r in s'.sent ensures ResponseOk(s', r) { assert ResponseOk(s, r); }
  }

  lemma InvTake(s: State, w: WorkerId)
    requires Inv(s) && Enabled(s, Take(w))
    ensures Inv(Effect(s, Take(w)))
  {
    var s' := Effect(s, Take(w));
    Assoc(s.taken, [s.queue[0]], s.queue[1..]);
    assert s.queue == [s.queue[0]] + s.queue[1..];
    assert s.queue[0] !in s.taken && s.queue[0] !in s.queue[1..];
    forall u: Ticket ensures TicketOk(s', u) { assert TicketOk(s, u); }
    forall v: WorkerId ensures WorkerOk(s', v) { assert WorkerOk(s, v); }
    forall r | r in s'.sent ensures ResponseOk(s', r) { assert ResponseOk(s, r); }
  }

  lemma InvStep(s: State, e: Event)
    requires Inv(s)
    ensures Inv(Step(s, e))
  {
    if Enabled(s, e) {
      match e
      case Push => InvPush(s);
      case Take(w) => InvTake(s, w);
      case Finish(w, call) =>
        assert WorkerOk(s, w);
        InvExecute(s, s.(workers := s.workers[w := Waiting]), s.workers[w].ticket, call);
      case FinishInline(t, call) => InvExecute(s, s, t, call);
      case _ => InvSimple(s, e);
    }
  }

  lemma {:induction false} InvRun(s: State, events: seq<Event>)
    requires Inv(s)
    ensures Inv(Run(s, events)) && Run(s, events).capacity == s.capacity && Run(s, events).workers.Keys == s.workers.Keys
  {
    hide Inv, Step;
    if events != [] {
      InvRun(s, events[..|events| - 1]);
      InvStep(Run(s, events[..|events| - 1]), events[|events| - 1]);
      StepKeeps(Run(s, events[..|events| - 1]), events[|events| - 1]);
    }
  }

  lemma StepKeeps(s: State, e: Event)
    ensures Step(s, e).capacity == s.capacity && Step(s, e).workers.Keys == s.workers.Keys
  {
  }

  lemma InitOk(capacity: nat, bound: set<string>, workers: set<WorkerId>)
    ensures Inv(Init(capacity, bound, workers))
  {
    var s := Init(capacity, bound, workers);
    forall t: Ticket ensures TicketOk(s, t) {}
  }

  // ---------------------------------------------------------------- theorems over all runs

  predicate AllExited(s: State, workers: set<WorkerId>) {
    forall w :: w in workers ==> w in s.workers && s.workers[w].Exited?
  }

  /** The queue never exceeds its capacity, and workers take tasks exactly in the order they were accepted. */
  lemma {:induction false} BoundedFifo(capacity: nat, bound: set<string>, workers: set<WorkerId>, events: seq<Event>)
    ensures var s := Run(Init(capacity, bound, workers), events);
      && |s.queue| <= capacity
      && s.accepted == s.taken + s.queue
      && forall i, j :: 0 <= i < j < |s.accepted| ==> s.accepted[i] != s.accepted[j]
  {
    var s := Run(Init(capacity, bound, workers), events);
    InitOk(capacity, bound, workers);
    InvRun(Init(capacity, bound, workers), events);
    forall i, j | 0 <= i < j < |s.accepted| ensures s.accepted[i] != s.accepted[j] {
      if i < |s.taken| <= j {
        assert s.accepted[i] in s.taken && s.accepted[j] in s.queue;
      }
    }
  }

  /** No task is executed twice, and none both inline and by a worker. */
  lemma {:induction false} ExecutedAtMostOnce(capacity: nat, bound: set<string>, workers: set<WorkerId>, events: seq<Event>, t: Ticket)
    ensures Count(Run(Init(capacity, bound, workers), events).executed, t) <= 1
  {
    InitOk(capacity, bound, workers);
    InvRun(Init(capacity, bound, workers), events);
    assert TicketOk(Run(Init(capacity, bound, workers), events), t);
  }

  /**
    Once every worker has exited, and there was at least one, the queue is empty
    and every accepted task was executed: the clean-up loop of StopWorkerPool has
    nothing to delete.
   */
  lemma {:induction false} DrainedOnStop(capacity: nat, bound: set<string>, workers: set<WorkerId>, events: seq<Event>)
    requires workers != {}
    requires AllExited(Run(Init(capacity, bound, workers), events), workers)
    ensures var s := Run(Init(capacity, bound, workers), events);
      && s.stop && s.queue == [] && s.lock == None
      && forall t :: t in s.accepted ==> Count(s.executed, t) == 1
  {
    var s := Run(Init(capacity, bound, workers), events);
    InitOk(capacity, bound, workers);
    InvRun(Init(capacity, bound, workers), events);
    var w :| w in workers;
    assert WorkerOk(s, w);
    forall t | t in s.accepted ensures Count(s.executed, t) == 1 {
      assert TicketOk(s, t);
    }
  }

  /** The task that an event finishes executing, and what its function did. */
  predicate Executes(s: State, e: Event, t: Ticket, call: Call) {
    match e
    case Finish(w, c) => w in s.workers && s.workers[w] == Busy(t) && c == call
    case FinishInline(u, c) => u == t && c == call
    case _ => false
  }

  /**
    Executing a task adds, for a request, exactly one response that reports what
    its function did this very time: the value it returned, or the exception it
    threw, or that there is no such function. For a one-way frame it adds none.
   */
  lemma {:induction false} ExecutionAnswers(capacity: nat, bound: set<string>, workers: set<WorkerId>, events: seq<Event>,
                                            e: Event, t: Ticket, call: Call)
    requires var s := Run(Init(capacity, bound, workers), events); Enabled(s, e) && Executes(s, e, t, call)
    ensures var s, s' := Run(Init(capacity, bound, workers), events), Run(Init(capacity, bound, workers), events + [e]);
      && t < |s.received| && s'.executed == s.executed + [t] && s'.calls == s.calls[t := call]
      && if s.received[t].oneway then s'.sent == s.sent
         else |s'.sent| == |s.sent| + 1 && s.sent <= s'.sent
              && s'.sent[|s.sent|].ticket == t && Reports(s'.sent[|s.sent|], s.received[t], bound, call)
  {
    var s := Run(Init(capacity, bound, workers), events);
    assert (events + [e])[..|events|] == events;
    BoundKept(Init(capacity, bound, workers), events);
    hide Run, Reply, Reports;
    match e
    case Finish(w, _) => ReplyReports(s.(workers := s.workers[w := Waiting]), t, call);
    case FinishInline(_, _) => ReplyReports(s, t, call);
  }

  lemma {:induction false} BoundKept(s: State, events: seq<Event>)
    ensures Run(s, events).bound == s.bound
  {
    hide Step;
    if events != [] {
      BoundKept(s, events[..|events| - 1]);
      StepKeepsBound(Run(s, events[..|events| - 1]), events[|events| - 1]);
    }
  }

  lemma StepKeepsBound(s: State, e: Event)
    ensures Step(s, e).bound == s.bound
  {
  }

  /**
    Every request frame gets exactly one response once it was executed, by a worker
    or inline, and that response reports what its function did; a one-way frame
    gets none.
   */
  lemma {:induction false} OneResponsePerRequest(capacity: nat, bound: set<string>, workers: set<WorkerId>, events: seq<Event>, t: Ticket)
    requires t < |Run(Init(capacity, bound, workers), events).received|
    ensures var s := Run(Init(capacity, bound, workers), events);
      && Responses(s.sent, t) == (if s.received[t].oneway then 0 else Count(s.executed, t))
      && forall r :: r in s.sent ==> ResponseOk(s, r)
  {
    InitOk(capacity, bound, workers);
    InvRun(Init(capacity, bound, workers), events);
    assert TicketOk(Run(Init(capacity, bound, workers), events), t);
  }

  /** When all IO threads and workers are done, every request received has been answered once. */
  lemma {:induction false} AllAnswered(capacity: nat, bound: set<string>, workers: set<WorkerId>, events: seq<Event>, t: Ticket)
    requires var s := Run(Init(capacity, bound, workers), events);
      && t < |s.received| && workers != {}
      && AllExited(s, workers)
      && t in s.place && !s.place[t].Arriving? && !s.place[t].Inline?
    ensures var s := Run(Init(capacity, bound, workers), events);
      Responses(s.sent, t) == if s.received[t].oneway then 0 else 1
  {
    var s := Run(Init(capacity, bound, workers), events);
    InitOk(capacity, bound, workers);
    InvRun(Init(capacity, bound, workers), events);
    assert TicketOk(s, t);
    DrainedOnStop(capacity, bound, workers, events);
  }
}
