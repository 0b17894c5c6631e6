/**
  The channel fields the heartbeat thread, the receive loop and the failure
  handler share, and their critical sections. Each is one event of
  HeartbeatDetector: fields that match a state before match the effect afterwards.
 */
module HeartbeatChannel {
  import opened Common
  import opened HeartbeatDetector

  class KrpcChannel {
    const heartbeatMissLimit: int
    var connected: bool
    var heartbeatRunning: bool
    var nextRequestId: RequestId
    var missedHeartbeatCount: nat
    var waitingHeartbeat: bool
    var waitingHeartbeatId: RequestId
    var waitingHeartbeatResult: bool

    ghost predicate Matches(s: State)
      reads this
    {
      && s.missLimit == heartbeatMissLimit && s.connected == connected && s.running == heartbeatRunning
      && s.nextId == nextRequestId && s.misses == missedHeartbeatCount
      && s.waiting == waitingHeartbeat && s.waitingId == waitingHeartbeatId && s.waitingResult == waitingHeartbeatResult
    }

    constructor (heartbeatMissLimit: int)
      ensures Matches(Init(heartbeatMissLimit))
    {
      this.heartbeatMissLimit := heartbeatMissLimit;
      connected, heartbeatRunning, nextRequestId, missedHeartbeatCount := false, true, 1, 0;
      waitingHeartbeat, waitingHeartbeatId, waitingHeartbeatResult := false, 0, false;
    }

    /** Head of HeartbeatLoop after its wait: true when a PING is to be sent. */
    method WakeUp(ghost s: State) returns (ping: bool)
      requires Matches(s) && Enabled(s, Wake)
      modifies this
      ensures Matches(Effect(s, Wake)) && (ping <==> Effect(s, Wake).pc.Sending?)
      ensures ping <==> heartbeatRunning && connected
      ensures missedHeartbeatCount == if heartbeatRunning && !connected then 0 else old(missedHeartbeatCount)
    {
      if !heartbeatRunning {
        return false;
      }
      if !connected {
        missedHeartbeatCount := 0;
        return false;
      }
      ping := true;
    }

    /** SendHeartbeatOnce up to sending; nothing when the connection is gone, which counts as success. */
    method ArmHeartbeat(ghost s: State) returns (id: Option<RequestId>)
      requires Matches(s) && Enabled(s, Arm)
      modifies this
      ensures Matches(Effect(s, Arm))
      ensures Effect(s, Arm).pc == if id.Some? then Armed(id.value, |s.frames|) else Deciding(Vanished)
      ensures id == if connected then Some(old(nextRequestId)) else None
      ensures connected ==>
        waitingHeartbeat && waitingHeartbeatId == id.value && !waitingHeartbeatResult && nextRequestId == id.value + 1
    {
      if !connected {
        return None;
      }
      id := Some(nextRequestId);
      nextRequestId := nextRequestId + 1;
      waitingHeartbeat := true;
      waitingHeartbeatId := id.value;
      waitingHeartbeatResult := false;
    }

    /** After send: on failure the flag is taken down and the round is fatal. */
    method AfterSend(ok: bool, ghost s: State) returns (result: Option<Outcome>)
      requires Matches(s) && Enabled(s, Send(ok))
      modifies this
      ensures Matches(Effect(s, Send(ok)))
      ensures result == (if ok then None else Some(Fatal)) && waitingHeartbeat == (ok && old(waitingHeartbeat))
      ensures result.Some? <==> Effect(s, Send(ok)).pc.Deciding?
      ensures result.Some? ==> Effect(s, Send(ok)).pc.round.outcome == result.value
    {
      if !ok {
        waitingHeartbeat := false;
        return Some(Fatal);
      }
      result := None;
    }

    /** After wait_for with its predicate: the flag is down, or the time is up. */
    method AfterWait(ghost s: State) returns (result: Outcome)
      requires Matches(s) && s.pc.Awaiting?
      modifies this
      ensures var e := if old(waitingHeartbeat) then WaitTimeout else WaitDone;
        Matches(Effect(s, e)) && Effect(s, e).pc.round.outcome == result
      ensures result == if old(waitingHeartbeat) then Timeout else if old(waitingHeartbeatResult) then Success else Fatal
      ensures !waitingHeartbeat
    {
      var got := !waitingHeartbeat;
      if !got {
        waitingHeartbeat := false;
        return Timeout;
      }
      result := if waitingHeartbeatResult then Success else Fatal;
    }

    /** The switch of HeartbeatLoop; the reason is what HandleHeartbeatFailure is called with. */
    method CountResult(result: Outcome, ghost s: State) returns (failure: Option<string>)
      requires Matches(s) && Enabled(s, Decide)
      requires result == if s.pc.round.Probe? then s.pc.round.outcome else Success
      requires !s.pc.round.Idle?
      modifies this
      ensures Matches(Effect(s, Decide))
      ensures |s.rounds| !in s.failures ==>
        (failure == Some("heartbeat timeout") <==> |s.rounds| in Effect(s, Decide).failures)
      ensures failure == Some("heartbeat fatal error") <==> heartbeatRunning && result.Fatal?
      ensures failure == Some("heartbeat timeout") <==>
        heartbeatRunning && result.Timeout? && old(missedHeartbeatCount) + 1 >= heartbeatMissLimit
      ensures heartbeatRunning == old(heartbeatRunning)
      ensures heartbeatRunning ==>
        missedHeartbeatCount == if result.Timeout? && failure.None? then old(missedHeartbeatCount) + 1 else 0
    {
      failure := None;
      if !heartbeatRunning {
        return;
      }
      match result {
        case Success => missedHeartbeatCount := 0;
        case Timeout =>
          missedHeartbeatCount := missedHeartbeatCount + 1;
          if missedHeartbeatCount >= heartbeatMissLimit {
            failure := Some("heartbeat timeout");
            missedHeartbeatCount := 0;
          }
        case Fatal =>
          failure := Some("heartbeat fatal error");
          missedHeartbeatCount := 0;
      }
    }

    /** A PONG frame counts only while waiting and only with the id waited for. */
    method ResolveHeartbeat(requestId: RequestId, ghost s: State)
      requires Matches(s)
      modifies this
      ensures Matches(Effect(s, Pong(requestId)))
      ensures if old(waitingHeartbeat) && requestId == old(waitingHeartbeatId)
              then !waitingHeartbeat && waitingHeartbeatResult
              else waitingHeartbeat == old(waitingHeartbeat) && waitingHeartbeatResult == old(waitingHeartbeatResult)
    {
      if waitingHeartbeat && requestId == waitingHeartbeatId {
        waitingHeartbeat := false;
        waitingHeartbeatResult := true;
      }
    }

    /** The last critical section of HandleHeartbeatFailure. */
    method ClearWaiting(ghost s: State)
      requires Matches(s)
      modifies this
      ensures Matches(Effect(s, FailElsewhere))
      ensures !waitingHeartbeat && waitingHeartbeatResult == (!old(waitingHeartbeat) && old(waitingHeartbeatResult))
    {
      if waitingHeartbeat {
        waitingHeartbeat := false;
        waitingHeartbeatResult := false;
      }
    }
  }
}
