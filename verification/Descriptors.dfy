/**
  Descriptors of many protobuf channels sharing the connection pool.

  Every event is one critical section of EnsureConnection, of the pool, of
  CloseConnectionLocked or of the destructor; a run is any sequence of events of
  any channels, with at most one EnsureConnection at a time per channel.
 */
module Descriptors {
  import opened Common

  type Fd = nat
  type Key = string
  type ChannelId = nat

  /** Where a channel's EnsureConnection stands; the key is the endpoint it is connecting to. */
  datatype Stage = Quiet | Acquiring | Connecting | Acquired(hand: Fd)

  datatype Channel = Channel(fd: Option<Fd>, key: Key, stage: Stage)

  datatype Place = HeldBy(channel: ChannelId) | HandOf(channel: ChannelId) | IdleIn(key: Key) | Closed

  datatype Connect = NoSocket | Refused | Connected

  datatype State = State(
    maxIdle: nat,
    usePool: bool,
    nextFd: Fd,
    idle: map<Key, seq<Fd>>,
    channels: map<ChannelId, Channel>,
    closes: seq<Fd>,               // every close call, in order
    peer: map<Fd, Key>,            // history: the endpoint each descriptor was opened to
    place: map<Fd, Place>)         // history: where each descriptor went

  datatype Event =
    | OpenChannel(c: ChannelId)
    | BeginConnect(c: ChannelId, key: Key, healthy: bool)
    | AcquireFromPool(c: ChannelId, good: set<Fd>)
    | ConnectNew(c: ChannelId, result: Connect)
    | Install(c: ChannelId)
    | CloseLocked(c: ChannelId)
    | Destroy(c: ChannelId, healthy: bool)

  function Init(maxIdle: nat, usePool: bool): State {
    State(maxIdle, usePool, 0, map[], map[], [], map[], map[])
  }

  function IdleOf(s: State, key: Key): seq<Fd> {
    if key in s.idle then s.idle[key] else []
  }

  function Close(s: State, fd: Fd): State {
    s.(closes := s.closes + [fd], place := s.place[fd := Closed])
  }

  /** ReleaseConnection(true): `healthy` is the answer of the pool's own health check. */
  function Release(s: State, c: ChannelId, healthy: bool): State
    requires c in s.channels
  {
    match s.channels[c].fd
    case None => s
    case Some(fd) =>
      var key := s.channels[c].key;
      var s1 := s.(channels := s.channels[c := s.channels[c].(fd := None)]);
      if !s.usePool || !healthy then Close(s1, fd)
      else
        var s2 := s1.(idle := s1.idle[key := IdleOf(s1, key)]);
        if |IdleOf(s1, key)| >= s.maxIdle then Close(s2, fd)
        else s2.(idle := s2.idle[key := IdleOf(s1, key) + [fd]], place := s2.place[fd := IdleIn(key)])
  }

  /** The newest idle descriptor taken from the list, into the channel's hand or closed. */
  function Popped(s: State, c: ChannelId, keep: bool): State
    requires c in s.channels && IdleOf(s, s.channels[c].key) != []
  {
    var ch := s.channels[c];
    var idle := IdleOf(s, ch.key);
    var fd, rest := idle[|idle| - 1], s.(idle := s.idle[ch.key := idle[..|idle| - 1]]);
    if keep
    then rest.(channels := rest.channels[c := ch.(stage := Acquired(fd))], place := rest.place[fd := HandOf(c)])
    else Close(rest, fd)
  }

  /** The pool's loop: the newest idle descriptor that is in good health, closing the others above it. */
  function TakeIdle(s: State, c: ChannelId, good: set<Fd>): State
    requires c in s.channels
    decreases |IdleOf(s, s.channels[c].key)|
  {
    var ch := s.channels[c];
    var idle := IdleOf(s, ch.key);
    if idle == [] then s.(channels := s.channels[c := ch.(stage := Connecting)])
    else
      var keep := idle[|idle| - 1] in good;
      if keep then Popped(s, c, true) else TakeIdle(Popped(s, c, false), c, good)
  }

  function SetStage(s: State, c: ChannelId, stage: Stage): State
    requires c in s.channels
  {
    s.(channels := s.channels[c := s.channels[c].(stage := stage)])
  }

  predicate Enabled(s: State, e: Event) {
    match e
    case OpenChannel(c) => c !in s.channels
    case BeginConnect(c, _, _) => c in s.channels && s.channels[c].stage.Quiet?
    case AcquireFromPool(c, _) => c in s.channels && s.channels[c].stage.Acquiring?
    case ConnectNew(c, _) => c in s.channels && s.channels[c].stage.Connecting?
    case Install(c) => c in s.channels && s.channels[c].stage.Acquired?
    case CloseLocked(c) => c in s.channels
    case Destroy(c, _) => c in s.channels && s.channels[c].stage.Quiet?
  }

  function Effect(s: State, e: Event): State
    requires Enabled(s, e)
  {
    match e
    case OpenChannel(c) => s.(channels := s.channels[c := Channel(None, "", Quiet)])
    case BeginConnect(c, key, healthy) =>
      if s.channels[c].fd.Some? && s.channels[c].key == key then s
      else
        var r := Release(s, c, healthy);
        r.(channels := r.channels[c := Channel(None, key, Acquiring)])
    case AcquireFromPool(c, good) => if s.usePool then TakeIdle(s, c, good) else SetStage(s, c, Connecting)
    case ConnectNew(c, result) =>
      var fd, key := s.nextFd, s.channels[c].key;
      var made := s.(nextFd := fd + 1, peer := s.peer[fd := key]);
      (match result
       case NoSocket => SetStage(s, c, Quiet)
       case Refused => SetStage(Close(made, fd), c, Quiet)
       case Connected => SetStage(made.(place := made.place[fd := HandOf(c)]), c, Acquired(fd)))
    case Install(c) =>
      var fd := s.channels[c].stage.hand;
      s.(channels := s.channels[c := s.channels[c].(fd := Some(fd), stage := Quiet)], place := s.place[fd := HeldBy(c)])
    case CloseLocked(c) =>
      (match s.channels[c].fd
       case None => s
       case Some(fd) => Close(s.(channels := s.channels[c := s.channels[c].(fd := None)]), fd))
    case Destroy(c, healthy) =>
      var r := Release(s, c, healthy);
      r.(channels := r.channels - {c})
  }

  function Step(s: State, e: Event): State {
    if Enabled(s, e) then Effect(s, e) else s
  }

  function Run(s: State, events: seq<Event>): State {
    if events == [] then s else Step(Run(s, events[..|events| - 1]), events[|events| - 1])
  }

  // ---------------------------------------------------------------- invariant

  function Count(log: seq<Fd>, fd: Fd): nat {
    if log == [] then 0 else Count(log[..|log| - 1], fd) + if log[|log| - 1] == fd then 1 else 0
  }

  ghost predicate FdOk(s: State, fd: Fd) {
    && (fd in s.place <==> fd < s.nextFd) && (fd in s.peer <==> fd < s.nextFd)
    && Count(s.closes, fd) == (if fd in s.place && s.place[fd].Closed? then 1 else 0)
    && (fd in s.place ==>
          match s.place[fd]
          case HeldBy(c) => c in s.channels && s.channels[c].fd == Some(fd)
          case HandOf(c) => c in s.channels && s.channels[c].stage == Acquired(fd)
          case IdleIn(key) => fd in IdleOf(s, key)
          case Closed => true)
  }

  ghost predicate Owned(s: State, fd: Fd, where: Place, key: Key) {
    fd in s.place && s.place[fd] == where && fd in s.peer && s.peer[fd] == key
  }

  ghost predicate ChannelOk(s: State, c: ChannelId) {
    c in s.channels ==>
      var ch := s.channels[c];
      && (ch.fd.Some? ==> ch.stage.Quiet? && Owned(s, ch.fd.value, HeldBy(c), ch.key))
      && (ch.stage.Acquired? ==> Owned(s, ch.stage.hand, HandOf(c), ch.key))
  }

  ghost predicate KeyOk(s: State, key: Key) {
    var idle := IdleOf(s, key);
    && |idle| <= s.maxIdle
    && (forall i :: 0 <= i < |idle| ==> Owned(s, idle[i], IdleIn(key), key))
    && (forall i, j :: 0 <= i < j < |idle| ==> idle[i] != idle[j])
  }

  ghost predicate Inv(s: State) {
    && (forall fd: Fd :: FdOk(s, fd))
    && (forall c: ChannelId :: ChannelOk(s, c))
    && (forall key: Key :: KeyOk(s, key))
  }

  // ---------------------------------------------------------------- preservation

  lemma CountAppend(log: seq<Fd>, x: Fd, fd: Fd)
    ensures Count(log + [x], fd) == Count(log, fd) + if x == fd then 1 else 0
  {
    assert (log + [x])[..|log|] == log;
  }

  /** Taking the descriptor out of a channel or an idle list and closing it. */
  lemma InvCloseHeld(s: State, c: ChannelId)
    requires Inv(s) && c in s.channels && s.channels[c].fd.Some?
    ensures Inv(Close(s.(channels := s.channels[c := s.channels[c].(fd := None)]), s.channels[c].fd.value))
  {
    hide Count;
    var fd := s.channels[c].fd.value;
    var s' := Close(s.(channels := s.channels[c := s.channels[c].(fd := None)]), fd);
    assert ChannelOk(s, c);
    forall x: Fd ensures FdOk(s', x) { assert FdOk(s, x); CountAppend(s.closes, fd, x); }
    forall d: ChannelId ensures ChannelOk(s', d) { assert ChannelOk(s, d); }
    forall k: Key ensures KeyOk(s', k) { assert KeyOk(s, k); }
  }

  /** Handing a healthy descriptor to the pool while there is room. */
  lemma InvPark(s: State, c: ChannelId)
    requires Inv(s) && c in s.channels && s.channels[c].fd.Some?
    requires s.usePool && |IdleOf(s, s.channels[c].key)| < s.maxIdle
    ensures Inv(Release(s, c, true))
  {
    hide Count;
    var fd, key := s.channels[c].fd.value, s.channels[c].key;
    var s' := Release(s, c, true);
    assert ChannelOk(s, c) && FdOk(s, fd) && KeyOk(s, key);
    assert IdleOf(s', key) == IdleOf(s, key) + [fd];
    forall x: Fd ensures FdOk(s', x) { assert FdOk(s, x); }
    forall d: ChannelId ensures ChannelOk(s', d) { assert ChannelOk(s, d); }
    forall k: Key ensures KeyOk(s', k) { assert KeyOk(s, k); }
  }

  /** Writing an idle list back unchanged, as pools_[key] does for a new key. */
  lemma InvSameIdle(s: State, s': State)
    requires Inv(s) && s' == s.(idle := s'.idle) && forall k :: IdleOf(s', k) == IdleOf(s, k)
    ensures Inv(s')
  {
    forall x: Fd ensures FdOk(s', x) { assert FdOk(s, x); }
    forall d: ChannelId ensures ChannelOk(s', d) { assert ChannelOk(s, d); }
    forall k: Key ensures KeyOk(s', k) { assert KeyOk(s, k); }
  }

  lemma InvRelease(s: State, c: ChannelId, healthy: bool)
    requires Inv(s) && c in s.channels
    ensures Inv(Release(s, c, healthy))
    ensures var r := Release(s, c, healthy); c in r.channels && r.channels[c] == s.channels[c].(fd := None)
  {
    if s.channels[c].fd.Some? {
      var key := s.channels[c].key;
      if !s.usePool || !healthy {
        InvCloseHeld(s, c);
      } else if |IdleOf(s, key)| >= s.maxIdle {
        var s1 := s.(idle := s.idle[key := IdleOf(s, key)]);
        InvSameIdle(s, s1);
        InvCloseHeld(s1, c);
      } else {
        InvPark(s, c);
      }
    }
  }

  /** The last descriptor of the channel's idle list comes out, into its hand or closed. */
  lemma InvPop(s: State, c: ChannelId, keep: bool)
    requires Inv(s) && c in s.channels && s.channels[c].stage.Acquiring? && IdleOf(s, s.channels[c].key) != []
    ensures Inv(Popped(s, c, keep))
  {
    hide Count;
    var ch := s.channels[c];
    var idle := IdleOf(s, ch.key);
    var fd := idle[|idle| - 1];
    var s' := Popped(s, c, keep);
    assert KeyOk(s, ch.key) && ChannelOk(s, c) && FdOk(s, fd);
    forall x: Fd ensures FdOk(s', x) { assert FdOk(s, x); CountAppend(s.closes, fd, x); }
    forall d: ChannelId ensures ChannelOk(s', d) { assert ChannelOk(s, d); }
    forall k: Key ensures KeyOk(s', k) { assert KeyOk(s, k); }
  }

  lemma {:induction false} InvTakeIdle(s: State, c: ChannelId, good: set<Fd>)
    requires Inv(s) && c in s.channels && s.channels[c].stage.Acquiring?
    ensures Inv(TakeIdle(s, c, good))
    decreases |IdleOf(s, s.channels[c].key)|
  {
    var idle := IdleOf(s, s.channels[c].key);
    if idle == [] {
      assert ChannelOk(s, c);
      InvStage(s, c, Connecting);
    } else {
      hide Inv;
      var keep := idle[|idle| - 1] in good;
      InvPop(s, c, keep);
      if !keep {
        InvTakeIdle(Popped(s, c, false), c, good);
      }
    }
  }

  lemma InvStage(s: State, c: ChannelId, stage: Stage)
    requires Inv(s) && c in s.channels && !s.channels[c].stage.Acquired? && !stage.Acquired?
    requires s.channels[c].fd.None? || stage.Quiet?
    ensures Inv(SetStage(s, c, stage))
  {
    hide Count;
    var s' := SetStage(s, c, stage);
    forall x: Fd ensures FdOk(s', x) { assert FdOk(s, x); }
    forall d: ChannelId ensures ChannelOk(s', d) { assert ChannelOk(s, d); }
    forall k: Key ensures KeyOk(s', k) { assert KeyOk(s, k); }
  }

  /** Channels are only added, removed or re-keyed while they hold nothing. */
  lemma InvChannels(s: State, c: ChannelId, s': State)
    requires Inv(s) && s' == s.(channels := s'.channels)
    requires c in s.channels ==> s.channels[c].fd.None? && !s.channels[c].stage.Acquired?
    requires c in s'.channels ==> s'.channels[c].fd.None? && !s'.channels[c].stage.Acquired?
    requires forall d :: d != c ==> (d in s'.channels <==> d in s.channels) && (d in s.channels ==> s'.channels[d] == s.channels[d])
    ensures Inv(s')
  {
    hide Count;
    forall x: Fd ensures FdOk(s', x) { assert FdOk(s, x); }
    forall d: ChannelId ensures ChannelOk(s', d) { assert ChannelOk(s, d); }
    forall k: Key ensures KeyOk(s', k) { assert KeyOk(s, k); }
  }

  lemma InvConnectNew(s: State, c: ChannelId, result: Connect)
    requires Inv(s) && Enabled(s, ConnectNew(c, result))
    ensures Inv(Effect(s, ConnectNew(c, result)))
  {
    hide Count;
    var s' := Effect(s, ConnectNew(c, result));
    assert ChannelOk(s, c);
    forall x: Fd ensures FdOk(s', x) { assert FdOk(s, x); CountAppend(s.closes, s.nextFd, x); }
    assert FdOk(s, s.nextFd);
    forall d: ChannelId ensures ChannelOk(s', d) { assert ChannelOk(s, d); }
    forall k: Key ensures KeyOk(s', k) { assert KeyOk(s, k); }
  }

  lemma InvInstall(s: State, c: ChannelId)
    requires Inv(s) && Enabled(s, Install(c))
    ensures Inv(Effect(s, Install(c)))
  {
    hide Count;
    var s' := Effect(s, Install(c));
    assert ChannelOk(s, c);
    forall x: Fd ensures FdOk(s', x) { assert FdOk(s, x); }
    forall d: ChannelId ensures ChannelOk(s', d) { assert ChannelOk(s, d); }
    forall k: Key ensures KeyOk(s', k) { assert KeyOk(s, k); }
  }

  lemma InvStep(s: State, e: Event)
    requires Inv(s)
    ensures Inv(Step(s, e))
  {
    if Enabled(s, e) {
      match e
      case OpenChannel(c) => InvChannels(s, c, Effect(s, e));
      case BeginConnect(c, key, healthy) =>
        assert ChannelOk(s, c);
        InvRelease(s, c, healthy);
        if !(s.channels[c].fd.Some? && s.channels[c].key == key) {
          InvChannels(Release(s, c, healthy), c, Effect(s, e));
        }
      case AcquireFromPool(c, good) =>
        assert ChannelOk(s, c);
        if s.usePool { InvTakeIdle(s, c, good); } else { InvStage(s, c, Connecting); }
      case ConnectNew(c, result) => InvConnectNew(s, c, result);
      case Install(c) => InvInstall(s, c);
      case CloseLocked(c) => if s.channels[c].fd.Some? { InvCloseHeld(s, c); }
      case Destroy(c, healthy) =>
        assert ChannelOk(s, c);
        InvRelease(s, c, healthy);
        InvChannels(Release(s, c, healthy), c, Effect(s, e));
    }
  }

  // ---------------------------------------------------------------- theorems over all runs

  lemma {:induction false} InvRun(maxIdle: nat, usePool: bool, events: seq<Event>)
    ensures Inv(Run(Init(maxIdle, usePool), events))
    ensures Run(Init(maxIdle, usePool), events).maxIdle == maxIdle
  {
    if events != [] {
      InvRun(maxIdle, usePool, events[..|events| - 1]);
      InvStep(Run(Init(maxIdle, usePool), events[..|events| - 1]), events[|events| - 1]);
      LimitKept(Run(Init(maxIdle, usePool), events[..|events| - 1]), events[|events| - 1]);
    }
  }

  lemma {:induction false} LimitKept(s: State, e: Event)
    ensures Step(s, e).maxIdle == s.maxIdle
  {
    if e.AcquireFromPool? && Enabled(s, e) {
      TakeIdleKeeps(s, e.c, e.good);
    }
  }

  lemma {:induction false} TakeIdleKeeps(s: State, c: ChannelId, good: set<Fd>)
    requires c in s.channels
    ensures var t := TakeIdle(s, c, good);
      && t.nextFd == s.nextFd && t.usePool == s.usePool && t.maxIdle == s.maxIdle
      && t.channels.Keys == s.channels.Keys
    decreases |IdleOf(s, s.channels[c].key)|
  {
    var key := s.channels[c].key;
    var idle := IdleOf(s, key);
    if idle != [] && idle[|idle| - 1] !in good {
      TakeIdleKeeps(Close(s.(idle := s.idle[key := idle[..|idle| - 1]]), idle[|idle| - 1]), c, good);
    }
  }

  ghost predicate IsHeld(s: State, fd: Fd) {
    exists c :: c in s.channels && (s.channels[c].fd == Some(fd) || s.channels[c].stage == Acquired(fd))
  }

  ghost predicate IsIdle(s: State, fd: Fd) {
    exists key :: key in s.idle && fd in s.idle[key]
  }

  /** The descriptors opened and not closed are exactly the held ones and the idle ones, and no descriptor is both. */
  lemma {:induction false} Conservation(maxIdle: nat, usePool: bool, events: seq<Event>, fd: Fd)
    ensures var s := Run(Init(maxIdle, usePool), events);
      && (fd < s.nextFd && fd !in s.closes <==> IsHeld(s, fd) || IsIdle(s, fd))
      && !(IsHeld(s, fd) && IsIdle(s, fd))
  {
    var s := Run(Init(maxIdle, usePool), events);
    InvRun(maxIdle, usePool, events);
    assert FdOk(s, fd);
    CountIn(s.closes, fd);
    if fd in s.place && s.place[fd].IdleIn? { assert s.place[fd].key in s.idle; }
    if IsHeld(s, fd) {
      var c :| c in s.channels && (s.channels[c].fd == Some(fd) || s.channels[c].stage == Acquired(fd));
      assert ChannelOk(s, c);
    }
    if IsIdle(s, fd) {
      var key :| key in s.idle && fd in s.idle[key];
      assert KeyOk(s, key) && IdleOf(s, key) == s.idle[key];
    }
  }

  lemma {:induction false} CountIn(log: seq<Fd>, fd: Fd)
    ensures Count(log, fd) > 0 <==> fd in log
  {
    if log != [] {
      CountIn(log[..|log| - 1], fd);
      assert log == log[..|log| - 1] + [log[|log| - 1]];
    }
  }

  /** No descriptor is closed twice. */
  lemma {:induction false} ClosedOnce(maxIdle: nat, usePool: bool, events: seq<Event>, fd: Fd)
    ensures Count(Run(Init(maxIdle, usePool), events).closes, fd) <= 1
  {
    InvRun(maxIdle, usePool, events);
    assert FdOk(Run(Init(maxIdle, usePool), events), fd);
  }

  /** Two channels never hold the same descriptor, and a channel's descriptor is connected to its endpoint key. */
  lemma {:induction false} ExclusiveHolders(maxIdle: nat, usePool: bool, events: seq<Event>, c: ChannelId, d: ChannelId)
    requires var s := Run(Init(maxIdle, usePool), events);
      c in s.channels && d in s.channels && s.channels[c].fd.Some?
    ensures var s := Run(Init(maxIdle, usePool), events); var fd := s.channels[c].fd.value;
      && fd in s.peer && s.peer[fd] == s.channels[c].key
      && (s.channels[d].fd == Some(fd) ==> c == d)
      && s.channels[d].stage != Acquired(fd)
  {
    InvRun(maxIdle, usePool, events);
    var s := Run(Init(maxIdle, usePool), events);
    assert ChannelOk(s, c) && ChannelOk(s, d);
  }

  /** Every idle list is within the limit, without duplicates, and holds only descriptors of its own endpoint. */
  lemma {:induction false} IdleLists(maxIdle: nat, usePool: bool, events: seq<Event>, key: Key)
    ensures var s := Run(Init(maxIdle, usePool), events); var idle := IdleOf(s, key);
      && |idle| <= maxIdle
      && (forall i :: 0 <= i < |idle| ==> idle[i] in s.peer && s.peer[idle[i]] == key)
      && (forall i, j :: 0 <= i < j < |idle| ==> idle[i] != idle[j])
  {
    InvRun(maxIdle, usePool, events);
    assert KeyOk(Run(Init(maxIdle, usePool), events), key);
  }

  // ---------------------------------------------------------------- what the pool hands out and keeps

  /**
    From the list `before` the newest descriptor in good health came out, if there
    is one; exactly the ones above it were closed, newest first, and none of those
    was in good health.
   */
  ghost predicate NewestHealthy(before: seq<Fd>, after: seq<Fd>, closed: seq<Fd>, good: set<Fd>, got: Option<Fd>) {
    && |after| + |closed| + (if got.Some? then 1 else 0) == |before| && after == before[..|after|]
    && (forall k :: 0 <= k < |closed| ==> closed[k] == before[|before| - 1 - k] && closed[k] !in good)
    && (got.Some? ==> got.value == before[|after|] && got.value in good)
    && (got.None? ==> after == [])
  }

  /** The newest one is not in good health: it is closed and the search goes on below it. */
  lemma NewestClosed(before: seq<Fd>, after: seq<Fd>, closed: seq<Fd>, good: set<Fd>, got: Option<Fd>)
    requires before != [] && before[|before| - 1] !in good
    requires NewestHealthy(before[..|before| - 1], after, closed, good, got)
    ensures NewestHealthy(before, after, [before[|before| - 1]] + closed, good, got)
  {
    var all := [before[|before| - 1]] + closed;
    forall k | 0 <= k < |all| ensures all[k] == before[|before| - 1 - k] && all[k] !in good {
      if k > 0 {
        assert all[k] == closed[k - 1];
      }
    }
  }

  function HandOn(stage: Stage): Option<Fd> {
    if stage.Acquired? then Some(stage.hand) else None
  }

  lemma {:induction false} TakeIdleMeaning(s: State, c: ChannelId, good: set<Fd>)
    requires c in s.channels
    ensures var key, s' := s.channels[c].key, TakeIdle(s, c, good);
      && c in s'.channels && (s'.channels[c].stage.Acquired? || s'.channels[c].stage.Connecting?)
      && s.closes <= s'.closes && s'.nextFd == s.nextFd
      && NewestHealthy(IdleOf(s, key), IdleOf(s', key), s'.closes[|s.closes|..], good, HandOn(s'.channels[c].stage))
    decreases |IdleOf(s, s.channels[c].key)|
  {
    var key := s.channels[c].key;
    var idle, s' := IdleOf(s, key), TakeIdle(s, c, good);
    if idle != [] && idle[|idle| - 1] !in good {
      var next := Popped(s, c, false);
      TakeIdleMeaning(next, c, good);
      assert next.closes == s.closes + [idle[|idle| - 1]];
      assert s'.closes[|s.closes|..] == [idle[|idle| - 1]] + s'.closes[|next.closes|..];
      NewestClosed(idle, IdleOf(s', key), s'.closes[|next.closes|..], good, HandOn(s'.channels[c].stage));
    } else {
      assert s'.closes[|s.closes|..] == [];
    }
  }

  /**
    In every run, acquiring from the pool gives the channel the newest healthy idle
    descriptor of its endpoint and closes only unhealthy ones; it goes on to
    connect only when no idle descriptor of the endpoint was healthy.
   */
  lemma {:induction false} PoolServesHealthy(maxIdle: nat, events: seq<Event>, c: ChannelId, good: set<Fd>)
    requires Enabled(Run(Init(maxIdle, true), events), AcquireFromPool(c, good))
    ensures var s, s' := Run(Init(maxIdle, true), events), Run(Init(maxIdle, true), events + [AcquireFromPool(c, good)]);
      var key := s.channels[c].key;
      && c in s'.channels && s.closes <= s'.closes
      && NewestHealthy(IdleOf(s, key), IdleOf(s', key), s'.closes[|s.closes|..], good, HandOn(s'.channels[c].stage))
      && (s'.channels[c].stage.Acquired? ==> s'.channels[c].stage.hand in good)
      && (s'.channels[c].stage.Connecting? <==> forall fd :: fd in IdleOf(s, key) ==> fd !in good)
  {
    var s := Run(Init(maxIdle, true), events);
    var e := AcquireFromPool(c, good);
    assert (events + [e])[..|events|] == events;
    PoolKept(Init(maxIdle, true), events);
    TakeIdleMeaning(s, c, good);
    var idle, s' := IdleOf(s, s.channels[c].key), TakeIdle(s, c, good);
    hide TakeIdle, Run;
    if s'.channels[c].stage.Connecting? {
      var closed := s'.closes[|s.closes|..];
      forall i | 0 <= i < |idle| ensures idle[i] !in good { assert closed[|idle| - 1 - i] == idle[i]; }
    }
  }

  lemma {:induction false} PoolKept(s: State, events: seq<Event>)
    ensures Run(s, events).usePool == s.usePool
  {
    if events != [] {
      PoolKept(s, events[..|events| - 1]);
      UsePoolKept(Run(s, events[..|events| - 1]), events[|events| - 1]);
    }
  }

  lemma UsePoolKept(s: State, e: Event)
    ensures Step(s, e).usePool == s.usePool
  {
    if e.AcquireFromPool? && Enabled(s, e) {
      TakeIdleKeeps(s, e.c, e.good);
    }
  }

  /**
    A channel that lets go of its descriptor parks it in its endpoint's list if the
    pool is in use, the descriptor is healthy and there is room, and else closes it.
   */
  lemma {:induction false} ReleaseMeaning(s: State, c: ChannelId, healthy: bool)
    requires c in s.channels && s.channels[c].fd.Some?
    ensures var s', fd, key := Release(s, c, healthy), s.channels[c].fd.value, s.channels[c].key;
      && c in s'.channels && s'.channels[c].fd == None
      && (if s.usePool && healthy && |IdleOf(s, key)| < s.maxIdle
          then IdleOf(s', key) == IdleOf(s, key) + [fd] && s'.closes == s.closes
          else IdleOf(s', key) == IdleOf(s, key) && s'.closes == s.closes + [fd])
      && forall k :: k != key ==> IdleOf(s', k) == IdleOf(s, k)
  {
  }
}
