/**
  The client's heartbeat thread against the receive loop and the failure handler.

  A round wakes, sends a PING with a fresh id while the waiting flag is up, and
  ends with the flag taken down by a PONG with that id, by the failure handler of
  another thread, or by its own timeout. Each event is one critical section.
 */
module HeartbeatDetector {
  import opened Common

  type RequestId = nat

  datatype Outcome = Success | Timeout | Fatal

  /** One turn of the loop; `from` and `to` count the PONG frames received when it began and stopped waiting. */
  datatype Round =
    | Idle                   // no connection on waking
    | Vanished               // no connection any more when about to send
    | Probe(id: RequestId, from: nat, to: nat, outcome: Outcome)

  datatype Pc =
    | Head | Sending
    | Armed(id: RequestId, from: nat)
    | Awaiting(id: RequestId, from: nat)
    | Deciding(round: Round)
    | Stopped

  datatype State = State(
    missLimit: int,
    pc: Pc,
    running: bool,
    connected: bool,
    nextId: RequestId,
    waiting: bool,
    waitingId: RequestId,
    waitingResult: bool,
    misses: nat,
    rounds: seq<Round>,        // history: rounds decided,
    failures: set<nat>,        // those that declared "heartbeat timeout",
    frames: seq<RequestId>,    // ids of all PONG frames received,
    unsent: set<RequestId>,    // ids whose PING could not be sent,
    cutOff: set<RequestId>)    // and ids whose wait was ended by a failure elsewhere

  datatype Event =
    | Wake | Arm | Send(ok: bool) | WaitDone | WaitTimeout | Decide
    | Pong(id: RequestId)
    | FailElsewhere
    | SetConnected(up: bool)
    | AllocateOther
    | Stop

  function Init(missLimit: int): State {
    State(missLimit, Head, true, false, 1, false, 0, false, 0, [], {}, [], {}, {})
  }

  predicate TimedOut(r: Round) {
    r.Probe? && r.outcome.Timeout?
  }

  predicate Enabled(s: State, e: Event) {
    match e
    case Wake => s.pc.Head?
    case Arm => s.pc.Sending?
    case Send(_) => s.pc.Armed?
    case WaitDone => s.pc.Awaiting? && !s.waiting
    case WaitTimeout => s.pc.Awaiting? && s.waiting
    case Decide => s.pc.Deciding?
    case _ => true
  }

  function Effect(s: State, e: Event): State
    requires Enabled(s, e)
  {
    match e
    case Wake =>
      if !s.running then s.(pc := Stopped)
      else if !s.connected then s.(misses := 0, rounds := s.rounds + [Idle])
      else s.(pc := Sending)
    case Arm =>
      if !s.connected then s.(pc := Deciding(Vanished))
      else s.(pc := Armed(s.nextId, |s.frames|), nextId := s.nextId + 1,
              waiting := true, waitingId := s.nextId, waitingResult := false)
    case Send(ok) =>
      if ok then s.(pc := Awaiting(s.pc.id, s.pc.from))
      else s.(waiting := false, unsent := s.unsent + {s.pc.id}, pc := Deciding(Probe(s.pc.id, s.pc.from, |s.frames|, Fatal)))
    case WaitDone =>
      s.(pc := Deciding(Probe(s.pc.id, s.pc.from, |s.frames|, if s.waitingResult then Success else Fatal)))
    case WaitTimeout =>
      s.(waiting := false, pc := Deciding(Probe(s.pc.id, s.pc.from, |s.frames|, Timeout)))
    case Decide =>
      if !s.running then s.(pc := Stopped)
      else
        var s1 := s.(pc := Head, rounds := s.rounds + [s.pc.round]);
        if !TimedOut(s.pc.round) then s1.(misses := 0)
        else if s.misses + 1 >= s.missLimit then s1.(misses := 0, failures := s.failures + {|s.rounds|})
        else s1.(misses := s.misses + 1)
    case Pong(id) =>
      var s1 := s.(frames := s.frames + [id]);
      if s.waiting && id == s.waitingId then s1.(waiting := false, waitingResult := true) else s1
    case FailElsewhere =>
      if s.waiting then s.(waiting := false, waitingResult := false, cutOff := s.cutOff + {s.waitingId}) else s
    case SetConnected(up) => s.(connected := up)
    case AllocateOther => s.(nextId := s.nextId + 1)
    case Stop => s.(running := false)
  }

  function Step(s: State, e: Event): State {
    if Enabled(s, e) then Effect(s, e) else s
  }

  function Run(missLimit: int, events: seq<Event>): State {
    if events == [] then Init(missLimit) else Step(Run(missLimit, events[..|events| - 1]), events[|events| - 1])
  }

  // ---------------------------------------------------------------- counting rounds

  /** A limit of zero or less declares failure at every timeout, like a limit of one. */
  function Limit(s: State): nat {
    if s.missLimit < 1 then 1 else s.missLimit
  }

  /** The last `m` rounds timed out without a failure being declared, and m cannot be larger. */
  ghost predicate SinceReset(s: State, m: nat) {
    && m <= |s.rounds|
    && (forall i :: |s.rounds| - m <= i < |s.rounds| ==> TimedOut(s.rounds[i]) && i !in s.failures)
    && (m < |s.rounds| ==> var p := |s.rounds| - m - 1; !TimedOut(s.rounds[p]) || p in s.failures)
  }

  /** Round i and the limit - 1 rounds before it all timed out, and none of those before it declared failure. */
  ghost predicate LimitReached(s: State, i: nat)
    requires i < |s.rounds|
  {
    && Limit(s) <= i + 1
    && (forall j :: i + 1 - Limit(s) <= j <= i ==> TimedOut(s.rounds[j]))
    && (forall j :: i + 1 - Limit(s) <= j < i ==> j !in s.failures)
  }

  ghost predicate CountOk(s: State) {
    && s.misses < Limit(s) && SinceReset(s, s.misses)
    && (forall i :: i in s.failures ==> i < |s.rounds|)
    && (forall i :: 0 <= i < |s.rounds| ==> (i in s.failures <==> LimitReached(s, i)))
  }

  lemma LimitReachedStays(s: State, s': State, i: nat)
    requires i < |s.rounds| && s.rounds <= s'.rounds && s'.missLimit == s.missLimit
    requires forall j :: 0 <= j < |s.rounds| ==> (j in s'.failures <==> j in s.failures)
    ensures LimitReached(s', i) <==> LimitReached(s, i)
  {
    assert forall j :: 0 <= j <= i ==> s'.rounds[j] == s.rounds[j];
  }

  lemma NotReached(s: State, i: nat)
    requires i < |s.rounds| && !TimedOut(s.rounds[i])
    ensures !LimitReached(s, i)
  {
  }

  /** After m timeouts since the reset, one more reaches the limit exactly if m + 1 does. */
  lemma LastReached(s: State, i: nat, m: nat)
    requires i < |s.rounds| && TimedOut(s.rounds[i]) && m < Limit(s) && m <= i
    requires forall j :: i - m <= j < i ==> TimedOut(s.rounds[j]) && j !in s.failures
    requires m < i ==> !TimedOut(s.rounds[i - m - 1]) || i - m - 1 in s.failures
    ensures LimitReached(s, i) <==> m + 1 >= Limit(s)
  {
    if m + 1 < Limit(s) <= i + 1 {
      assert !TimedOut(s.rounds[i - m - 1]) || i - m - 1 in s.failures;
    }
  }

  /** One more round: the streak ends, or grows, or reaches the limit and starts anew. */
  lemma CountRound(s: State, s': State, r: Round)
    requires CountOk(s) && s'.rounds == s.rounds + [r] && s'.missLimit == s.missLimit
    requires if !TimedOut(r) then s'.misses == 0 && s'.failures == s.failures
             else if s.misses + 1 >= Limit(s) then s'.misses == 0 && s'.failures == s.failures + {|s.rounds|}
             else s'.misses == s.misses + 1 && s'.failures == s.failures
    ensures CountOk(s')
  {
    hide LimitReached;
    var n := |s.rounds|;
    forall i | 0 <= i < n ensures i in s'.failures <==> LimitReached(s', i) { LimitReachedStays(s, s', i); }
    if TimedOut(r) {
      LastReached(s', n, s.misses);
    } else {
      NotReached(s', n);
    }
  }

  lemma CountDecide(s: State)
    requires CountOk(s) && Enabled(s, Decide)
    ensures CountOk(Effect(s, Decide))
  {
    hide LimitReached, SinceReset;
    if s.running {
      CountRound(s, Effect(s, Decide), s.pc.round);
    } else {
      CountSame(s, Effect(s, Decide));
    }
  }

  lemma CountIdle(s: State)
    requires CountOk(s) && Enabled(s, Wake)
    ensures CountOk(Effect(s, Wake))
  {
    hide LimitReached, SinceReset;
    if s.running && !s.connected {
      CountRound(s, Effect(s, Wake), Idle);
    } else {
      CountSame(s, Effect(s, Wake));
    }
  }

  lemma CountSame(s: State, s': State)
    requires CountOk(s) && s'.rounds == s.rounds && s'.failures == s.failures && s'.misses == s.misses && s'.missLimit == s.missLimit
    ensures CountOk(s')
  {
    forall i | 0 <= i < |s'.rounds| ensures i in s'.failures <==> LimitReached(s', i) {
      LimitReachedStays(s, s', i);
    }
  }

  // ---------------------------------------------------------------- PONGs and rounds

  /** A PONG with this id was among the frames numbered from..to. */
  ghost predicate Heard(s: State, id: RequestId, from: nat, to: nat) {
    exists k :: from <= k < to <= |s.frames| && s.frames[k] == id
  }

  /** The PING could not be sent, or the wait for its PONG was ended by a failure elsewhere. */
  predicate Spoiled(s: State, id: RequestId) {
    id in s.unsent || id in s.cutOff
  }

  ghost predicate RoundOk(s: State, r: Round) {
    r.Probe? ==>
      && r.id < s.nextId && r.from <= r.to <= |s.frames|
      && match r.outcome
         case Success => Heard(s, r.id, r.from, r.to) && !Spoiled(s, r.id)
         case Timeout => !Heard(s, r.id, r.from, r.to) && !Spoiled(s, r.id)
         case Fatal => Spoiled(s, r.id)
  }

  ghost predicate FlagsOk(s: State) {
    match s.pc
    case Armed(id, from) => WaitOk(s, id, from)
    case Awaiting(id, from) => WaitOk(s, id, from)
    case Deciding(r) => !s.waiting && RoundOk(s, r)
    case _ => !s.waiting
  }

  ghost predicate WaitOk(s: State, id: RequestId, from: nat) {
    && s.waitingId == id < s.nextId && from <= |s.frames|
    && if s.waiting then !Heard(s, id, from, |s.frames|) && !Spoiled(s, id)
       else if s.waitingResult then Heard(s, id, from, |s.frames|) && !Spoiled(s, id)
       else Spoiled(s, id)
  }

  /** Only ids already issued can be spoiled. */
  ghost predicate SpoiledOk(s: State) {
    (forall id :: id in s.unsent ==> id < s.nextId) && (forall id :: id in s.cutOff ==> id < s.nextId)
  }

  /** The id in use is newer than that of every round before it. */
  ghost predicate Newer(s: State, id: RequestId) {
    forall i :: 0 <= i < |s.rounds| && s.rounds[i].Probe? ==> s.rounds[i].id < id
  }

  ghost predicate IdsOk(s: State) {
    && (forall i, j :: 0 <= i < j < |s.rounds| && s.rounds[i].Probe? && s.rounds[j].Probe? ==> s.rounds[i].id < s.rounds[j].id)
    && (IdInUse(s.pc).Some? ==> Newer(s, IdInUse(s.pc).value))
  }

  function IdInUse(pc: Pc): Option<RequestId> {
    match pc
    case Armed(id, _) => Some(id)
    case Awaiting(id, _) => Some(id)
    case Deciding(Probe(id, _, _, _)) => Some(id)
    case _ => None
  }

  ghost predicate Inv(s: State) {
    CountOk(s) && FlagsOk(s) && SpoiledOk(s) && IdsOk(s) && forall r :: r in s.rounds ==> RoundOk(s, r)
  }

  lemma HeardGrows(s: State, s': State, id: RequestId, from: nat, to: nat)
    requires s.frames <= s'.frames && to <= |s.frames|
    ensures Heard(s', id, from, to) <==> Heard(s, id, from, to)
  {
    if Heard(s, id, from, to) {
      var k :| from <= k < to <= |s.frames| && s.frames[k] == id;
      assert s'.frames[k] == id;
    }
    if Heard(s', id, from, to) {
      var k :| from <= k < to <= |s'.frames| && s'.frames[k] == id;
      assert s.frames[k] == id;
    }
  }

  lemma RoundStays(s: State, s': State, r: Round)
    requires RoundOk(s, r) && s.frames <= s'.frames && s.nextId <= s'.nextId
    requires r.Probe? ==> Spoiled(s', r.id) == Spoiled(s, r.id)
    ensures RoundOk(s', r)
  {
    hide Heard;
    if r.Probe? { HeardGrows(s, s', r.id, r.from, r.to); }
  }

  /** One more PONG: heard if it is the one waited for, or if one was heard before. */
  lemma HeardNext(s: State, s': State, e: RequestId, id: RequestId, from: nat)
    requires s'.frames == s.frames + [e] && from <= |s.frames|
    ensures Heard(s', id, from, |s'.frames|) <==> e == id || Heard(s, id, from, |s.frames|)
  {
    HeardGrows(s, s', id, from, |s.frames|);
    if e == id {
      assert s'.frames[|s.frames|] == id;
    } else if Heard(s', id, from, |s'.frames|) {
      var k :| from <= k < |s'.frames| && s'.frames[k] == id;
      assert Heard(s', id, from, |s.frames|);
    }
    if Heard(s, id, from, |s.frames|) {
      var k :| from <= k < |s.frames| && s.frames[k] == id;
      assert s'.frames[k] == id;
    }
  }

  lemma FlagsWaiting(s: State, e: Event)
    requires FlagsOk(s) && Enabled(s, e) && (s.pc.Armed? || s.pc.Awaiting?)
    ensures FlagsOk(Effect(s, e))
  {
    hide Heard;
    var s' := Effect(s, e);
    HeardGrows(s, s', s.pc.id, s.pc.from, |s.frames|);
    if e.Pong? { HeardNext(s, s', e.id, s.pc.id, s.pc.from); }
  }

  lemma FlagsStep(s: State, e: Event)
    requires FlagsOk(s) && SpoiledOk(s) && Enabled(s, e)
    ensures FlagsOk(Effect(s, e))
  {
    hide Heard, RoundOk;
    var s' := Effect(s, e);
    if s.pc.Armed? || s.pc.Awaiting? {
      FlagsWaiting(s, e);
    } else if s.pc.Deciding? {
      RoundStays(s, s', s.pc.round);
    } else if e.Arm? {
      NotHeardYet(s', s.nextId);
      VanishedOk(s');
    }
  }

  lemma VanishedOk(s: State)
    ensures RoundOk(s, Vanished)
  {
  }

  lemma NotHeardYet(s: State, id: RequestId)
    ensures !Heard(s, id, |s.frames|, |s.frames|)
  {
  }

  /** A step spoils at most the round in progress. */
  lemma OthersUnspoiled(s: State, e: Event, id: RequestId)
    requires FlagsOk(s) && Enabled(s, e) && IdInUse(s.pc) != Some(id)
    ensures Spoiled(Effect(s, e), id) == Spoiled(s, id)
  {
    hide RoundOk, Heard;
  }

  lemma SpoiledStep(s: State, e: Event)
    requires FlagsOk(s) && SpoiledOk(s) && Enabled(s, e)
    ensures SpoiledOk(Effect(s, e))
  {
    hide RoundOk, Heard;
  }

  lemma RoundsStep(s: State, e: Event)
    requires FlagsOk(s) && IdsOk(s) && Enabled(s, e) && forall r :: r in s.rounds ==> RoundOk(s, r)
    ensures forall r :: r in Effect(s, e).rounds ==> RoundOk(Effect(s, e), r)
  {
    hide RoundOk, WaitOk, Spoiled;
    var s' := Effect(s, e);
    forall i | 0 <= i < |s'.rounds| ensures RoundOk(s', s'.rounds[i]) {
      var r := s'.rounds[i];
      if r == Idle {
        IdleOk(s');
      } else if i < |s.rounds| {
        if r.Probe? { OthersUnspoiled(s, e, r.id); }
        RoundStays(s, s', r);
      } else {
        DecideUnspoiled(s, e, r);
        RoundStays(s, s', r);
      }
    }
  }

  lemma DecideUnspoiled(s: State, e: Event, r: Round)
    requires Enabled(s, e) && e.Decide?
    ensures r.Probe? ==> Spoiled(Effect(s, e), r.id) == Spoiled(s, r.id)
  {
  }

  lemma IdleOk(s: State)
    ensures RoundOk(s, Idle)
  {
  }

  lemma IdsStep(s: State, e: Event)
    requires IdsOk(s) && Enabled(s, e) && forall r :: r in s.rounds ==> RoundOk(s, r)
    ensures IdsOk(Effect(s, e))
  {
    hide RoundOk;
    match e
    case Arm => RoundIdsOld(s);
    case Decide => IdsDecide(s);
    case _ => IdsSame(s, Effect(s, e));
  }

  lemma IdsSame(s: State, s': State)
    requires IdsOk(s) && (s'.rounds == s.rounds || s'.rounds == s.rounds + [Idle])
    requires IdInUse(s'.pc) == IdInUse(s.pc) || IdInUse(s'.pc) == None
    ensures IdsOk(s')
  {
  }

  lemma IdsDecide(s: State)
    requires IdsOk(s) && Enabled(s, Decide)
    ensures IdsOk(Effect(s, Decide))
  {
    var s' := Effect(s, Decide);
    forall i, j | 0 <= i < j < |s'.rounds| && s'.rounds[i].Probe? && s'.rounds[j].Probe?
      ensures s'.rounds[i].id < s'.rounds[j].id
    {
      assert s'.rounds[i] == s.rounds[i];
    }
  }

  lemma RoundIdsOld(s: State)
    requires forall r :: r in s.rounds ==> RoundOk(s, r)
    ensures Newer(s, s.nextId)
  {
    forall i | 0 <= i < |s.rounds| && s.rounds[i].Probe? ensures s.rounds[i].id < s.nextId {
      assert RoundOk(s, s.rounds[i]);
    }
  }

  lemma InvStep(s: State, e: Event)
    requires Inv(s)
    ensures Inv(Step(s, e))
  {
    hide CountOk, FlagsOk, IdsOk, RoundOk;
    if Enabled(s, e) {
      FlagsStep(s, e);
      SpoiledStep(s, e);
      RoundsStep(s, e);
      IdsStep(s, e);
      match e
      case Decide => CountDecide(s);
      case Wake => CountIdle(s);
      case _ => CountSame(s, Effect(s, e));
    }
  }

  lemma {:induction false} InvRun(missLimit: int, events: seq<Event>)
    ensures Inv(Run(missLimit, events)) && Run(missLimit, events).missLimit == missLimit
  {
    hide Inv, Step;
    if events == [] {
      InitOk(missLimit);
    } else {
      InvRun(missLimit, events[..|events| - 1]);
      InvStep(Run(missLimit, events[..|events| - 1]), events[|events| - 1]);
      LimitKept(Run(missLimit, events[..|events| - 1]), events[|events| - 1]);
    }
  }

  lemma InitOk(missLimit: int)
    ensures Inv(Init(missLimit))
  {
  }

  lemma LimitKept(s: State, e: Event)
    ensures Step(s, e).missLimit == s.missLimit
  {
  }

  // ---------------------------------------------------------------- theorems over all runs

  /** The count is the length of the current streak of timeouts since the last reset, and stays below the limit. */
  lemma {:induction false} MissesAreTheStreak(missLimit: int, events: seq<Event>)
    ensures var s := Run(missLimit, events);
      SinceReset(s, s.misses) && s.misses < Limit(s)
  {
    InvRun(missLimit, events);
  }

  /** A round declares "heartbeat timeout" if and only if it and the limit - 1 rounds before it timed out, none of those declaring failure. */
  lemma {:induction false} FailureIffLimitReached(missLimit: int, events: seq<Event>, i: nat)
    requires i < |Run(missLimit, events).rounds|
    ensures i in Run(missLimit, events).failures <==> LimitReached(Run(missLimit, events), i)
  {
    InvRun(missLimit, events);
  }

  /**
    What every round with a connection came to: fatal exactly when its PING could
    not be sent or a failure elsewhere ended its wait; otherwise success exactly
    when a PONG with its own id came while it waited, and a timeout when none did.
    No two rounds share an id, so a late PONG of an earlier round never counts.
   */
  lemma {:induction false} OutcomeOfRound(missLimit: int, events: seq<Event>, i: nat)
    requires i < |Run(missLimit, events).rounds| && Run(missLimit, events).rounds[i].Probe?
    ensures var s := Run(missLimit, events); var r := s.rounds[i];
      && (r.outcome.Fatal? <==> r.id in s.unsent || r.id in s.cutOff)
      && (!r.outcome.Fatal? ==> (r.outcome.Success? <==> Heard(s, r.id, r.from, r.to)))
      && (r.outcome.Timeout? ==> !Heard(s, r.id, r.from, r.to))
      && forall j :: 0 <= j < |s.rounds| && j != i && s.rounds[j].Probe? ==> s.rounds[j].id != r.id
  {
    InvRun(missLimit, events);
    assert RoundOk(Run(missLimit, events), Run(missLimit, events).rounds[i]);
  }

  predicate Undisturbed(events: seq<Event>) {
    forall i :: 0 <= i < |events| ==> events[i] != FailElsewhere && events[i] != Send(false)
  }

  lemma {:induction false} NothingSpoiled(missLimit: int, events: seq<Event>)
    requires Undisturbed(events)
    ensures Run(missLimit, events).unsent == {} && Run(missLimit, events).cutOff == {}
  {
    if events != [] {
      NothingSpoiled(missLimit, events[..|events| - 1]);
      assert events[|events| - 1] != FailElsewhere && events[|events| - 1] != Send(false);
      StaysUnspoiled(Run(missLimit, events[..|events| - 1]), events[|events| - 1]);
    }
  }

  lemma StaysUnspoiled(s: State, e: Event)
    requires e != FailElsewhere && e != Send(false)
    ensures Step(s, e).unsent == s.unsent && Step(s, e).cutOff == s.cutOff
  {
  }

  /**
    While every PING can be sent and no failure comes from elsewhere, each round
    succeeds if and only if its own PONG came while it waited, times out otherwise,
    and is never fatal.
   */
  lemma {:induction false} SuccessByOwnPong(missLimit: int, events: seq<Event>, i: nat)
    requires Undisturbed(events)
    requires i < |Run(missLimit, events).rounds| && Run(missLimit, events).rounds[i].Probe?
    ensures var s := Run(missLimit, events); var r := s.rounds[i];
      r.outcome == if Heard(s, r.id, r.from, r.to) then Success else Timeout
  {
    OutcomeOfRound(missLimit, events, i);
    NothingSpoiled(missLimit, events);
  }

  lemma RunStep(missLimit: int, events: seq<Event>, e: Event)
    ensures Run(missLimit, events + [e]) == Step(Run(missLimit, events), e)
  {
    assert (events + [e])[..|events|] == events;
  }

  /** What spoils a round: sending its PING failed, or a failure elsewhere came while the flag was up; nothing else does. */
  lemma {:induction false} SpoiledOnlyBy(missLimit: int, events: seq<Event>, e: Event, id: RequestId)
    requires !Spoiled(Run(missLimit, events), id)
    ensures var s := Run(missLimit, events);
      Spoiled(Run(missLimit, events + [e]), id) <==>
        || (e == Send(false) && s.pc.Armed? && s.pc.id == id)
        || (e == FailElsewhere && s.waiting && s.waitingId == id)
  {
    RunStep(missLimit, events, e);
  }

  /** A running thread that wakes with a connection sends a PING with a fresh id; without one it resets the count. */
  lemma {:induction false} ConnectedSends(missLimit: int, events: seq<Event>)
    requires Run(missLimit, events).pc.Head? && Run(missLimit, events).running
    ensures var s, s' := Run(missLimit, events), Run(missLimit, events + [Wake]);
      !s.connected ==> s'.pc.Head? && s'.misses == 0 && s'.rounds == s.rounds + [Idle]
    ensures var s, s'' := Run(missLimit, events), Run(missLimit, events + [Wake] + [Arm]);
      s.connected ==>
        && s''.pc == Armed(s.nextId, |s.frames|) && s''.waiting && s''.waitingId == s.nextId
        && s''.nextId == s.nextId + 1 && s''.rounds == s.rounds
  {
    RunStep(missLimit, events, Wake);
    RunStep(missLimit, events + [Wake], Arm);
  }
}
