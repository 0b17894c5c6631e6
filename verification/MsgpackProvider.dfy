/**
  The msgpack server's dispatcher, task queue and worker body, each step of which
  is one or two events of WorkerPool: fields that match a state before match the
  effect afterwards.
 */
module MsgpackProvider {
  import opened Common
  import opened WorkerPool

  /** A bound function: what it does with the arguments of a call. */
  type Handler = Value -> Call

  datatype QueuedTask = QueuedTask(task: Task, args: Value)

  class MsgpackDispatcher {
    var handlers: map<string, Handler>

    constructor ()
      ensures handlers.Keys == {}
    {
      handlers := map[];
    }

    /** The first function bound to a key stays bound. */
    method Bind(service: string, method_: string, handler: Handler)
      modifies this
      ensures handlers.Keys == old(handlers.Keys) + {MethodKey(service, method_)}
      ensures forall k :: k in old(handlers) ==> handlers[k] == old(handlers)[k]
      ensures MethodKey(service, method_) !in old(handlers) ==> handlers[MethodKey(service, method_)] == handler
    {
      var key := service + "." + method_;
      if key !in handlers {
        handlers := handlers[key := handler];
      }
    }

    /** The handler runs only when a result is wanted; errors are reported only when wanted. */
    method Dispatch(service: string, method_: string, args: Value, wantResult: bool, wantError: bool)
      returns (handled: bool, error: string, result: Value, ran: bool)
      ensures handled <==> MethodKey(service, method_) in handlers
      ensures ran <==> handled && wantResult
      ensures var key := service + "." + method_;
        if key !in handlers then
          result == Nil && error == if wantError then "no such method: " + key else ""
        else if !wantResult then
          result == Nil && error == ""
        else match handlers[key](args)
          case Returned(value) => result == value && error == ""
          case Threw(what) => result == Nil && error == if wantError then "call_error: " + what else ""
          case ThrewOther => result == Nil && error == if wantError then "call_error: unknown" else ""
      ensures wantResult && wantError ==> !(!handled && error == "")
    {
      error, result, ran := "", Nil, false;
      var key := service + "." + method_;
      if key !in handlers {
        if wantError {
          error := "no such method: " + key;
        }
        return false, error, result, ran;
      }
      handled := true;
      if wantResult {
        ran := true;
        match handlers[key](args) {
          case Returned(value) => result := value;
          case Threw(what) =>
            if wantError {
              error := "call_error: " + what;
            }
          case ThrewOther =>
            if wantError {
              error := "call_error: unknown";
            }
        }
      }
    }
  }

  class KrpcMsgpackProvider {
    const dispatcher: MsgpackDispatcher
    const capacity: nat
    var taskQueue: seq<QueuedTask>
    var stopWorkers: bool
    /** Response frames handed to connections. */
    var sent: seq<Response>

    ghost predicate Matches(s: State)
      reads this, dispatcher
    {
      && s.capacity == capacity && s.bound == dispatcher.handlers.Keys && s.stop == stopWorkers && s.sent == sent
      && |taskQueue| == |s.queue|
      && forall i :: 0 <= i < |taskQueue| ==> s.queue[i] < |s.received| && taskQueue[i].task == s.received[s.queue[i]]
    }

    constructor (dispatcher: MsgpackDispatcher, capacity: nat)
      ensures this.dispatcher == dispatcher && this.capacity == capacity
      ensures forall workers :: Matches(Init(capacity, dispatcher.handlers.Keys, workers))
    {
      this.dispatcher, this.capacity := dispatcher, capacity;
      taskQueue, stopWorkers, sent := [], false, [];
    }

    /** EnqueueTask after its wait: room or stop. False sends the caller to run the task itself. */
    method EnqueueTask(task: QueuedTask, ghost t: Ticket, ghost s: State) returns (accepted: bool)
      requires Matches(s) && Enabled(s, CheckRoom(t)) && t < |s.received| && task.task == s.received[t]
      modifies this`taskQueue
      ensures accepted <==> !stopWorkers
      ensures var s1 := Effect(s, CheckRoom(t));
        if accepted then !s.stop && Matches(Effect(s1, Push)) && taskQueue == old(taskQueue) + [task]
        else s.stop && s1.place[t] == Inline && Matches(s1) && taskQueue == old(taskQueue)
    {
      if stopWorkers {
        return false;
      }
      taskQueue := taskQueue + [task];
      accepted := true;
    }

    /** The locked part of WorkerLoop after its wait: nothing means the worker exits. */
    method TakeTask(ghost w: WorkerId, ghost s: State) returns (task: Option<QueuedTask>)
      requires Matches(s) && (Enabled(s, Take(w)) || Enabled(s, Exit(w)))
      modifies this`taskQueue
      ensures task.None? <==> stopWorkers && old(taskQueue) == []
      ensures taskQueue == (if task.None? then [] else old(taskQueue)[1..]) && (task.Some? ==> task.value == old(taskQueue)[0])
      ensures task.None? ==> Enabled(s, Exit(w)) && Matches(Effect(s, Exit(w)))
      ensures task.Some? ==> Enabled(s, Take(w)) && Matches(Effect(s, Take(w))) && task.value.task == s.received[s.queue[0]]
    {
      if stopWorkers && taskQueue == [] {
        return None;
      }
      task := Some(taskQueue[0]);
      taskQueue := taskQueue[1..];
    }

    /** The unlocked part of WorkerLoop, also run inline by OnMessage after a refused enqueue; `t` numbers the task. */
    method RunTask(task: QueuedTask, t: Ticket, ghost s: State) returns (ghost call: Call)
      requires Matches(s) && t < |s.received| && s.received[t] == task.task
      modifies this`sent
      ensures Matches(Execute(s, t, call))
      ensures var key := task.task.service + "." + task.task.method_;
        key in dispatcher.handlers ==> call == dispatcher.handlers[key](task.args)
      ensures task.task.oneway ==> sent == old(sent)
      ensures !task.task.oneway ==>
        && |sent| == |old(sent)| + 1 && old(sent) <= sent && sent[|old(sent)|].ticket == t
        && Reports(sent[|old(sent)|], task.task, dispatcher.handlers.Keys, call)
    {
      var key := task.task.service + "." + task.task.method_;
      call := if key in dispatcher.handlers then dispatcher.handlers[key](task.args) else ThrewOther;
      if task.task.oneway {
        var handled, error, result, ran := dispatcher.Dispatch(task.task.service, task.task.method_, task.args, false, false);
        assert !ran;
        return;
      }
      var handled, error, result, ran := dispatcher.Dispatch(task.task.service, task.task.method_, task.args, true, true);
      if !handled && error == "" {
        return;
      }
      sent := sent + [Response(t, task.task.requestId, task.task.service, task.task.method_, error, result)];
    }
  }
}
