/**
  The pool and the channel's connection fields, with the critical sections of
  the code. Each is one event of Descriptors: fields that match a state before
  match the event's effect on it afterwards.
 */
module ConnectionPool {
  import opened Common
  import opened Descriptors

  class Pool {
    var pools: map<Key, seq<Fd>>
    /** The kernel's side: the next descriptor and the close calls so far. */
    var nextFd: Fd
    var closes: seq<Fd>

    /** The idle list of an endpoint, empty if it has none. */
    function IdleList(key: Key): seq<Fd>
      reads this
    {
      if key in pools then pools[key] else []
    }

    ghost predicate Matches(s: State)
      reads this
    {
      pools == s.idle && nextFd == s.nextFd && closes == s.closes
    }

    constructor ()
      ensures forall maxIdle, usePool :: Matches(Init(maxIdle, usePool))
    {
      pools, nextFd, closes := map[], 0, [];
    }

    /** The locked part of Acquire. */
    method TakeFrom(key: Key, good: set<Fd>, ghost s: State, ghost c: ChannelId) returns (got: Option<Fd>)
      requires Matches(s) && c in s.channels && s.channels[c].key == key && s.channels[c].stage.Acquiring?
      modifies this
      ensures Matches(TakeIdle(s, c, good))
      ensures TakeIdle(s, c, good).channels ==
        s.channels[c := s.channels[c].(stage := if got.Some? then Acquired(got.value) else Connecting)]
      ensures old(closes) <= closes && nextFd == old(nextFd)
      ensures NewestHealthy(old(IdleList(key)), IdleList(key), closes[|old(closes)|..], good, got)
      ensures forall k :: k != key ==> IdleList(k) == old(IdleList(k))
    {
      hide TakeIdle, NewestHealthy, ClosedSoFar;
      ghost var t, before, closed := s, IdleList(key), [];
      NoneClosed(before, good);
      got := None;
      if key in pools {
        while |pools[key]| > 0
          invariant key in pools && Matches(t) && t.channels == s.channels
          invariant TakeIdle(t, c, good) == TakeIdle(s, c, good)
          invariant closes == old(closes) + closed && nextFd == old(nextFd) && ClosedSoFar(before, pools[key], closed, good)
          invariant forall k :: k != key ==> IdleList(k) == old(IdleList(k))
          decreases |pools[key]|
        {
          var fd := pools[key][|pools[key]| - 1];
          TakeIdleTurn(t, c, good);
          CloseOrTake(before, pools[key], closed, good);
          pools := pools[key := pools[key][..|pools[key]| - 1]];
          if fd in good {
            got := Some(fd);
            break;
          }
          closes := closes + [fd];
          closed := closed + [fd];
          t := Close(t.(idle := pools), fd);
        }
      }
      if got.None? {
        TakeIdleTurn(t, c, good);
        AllClosed(before, IdleList(key), closed, good);
      }
      assert closes[|old(closes)|..] == closed;
    }

    /** Release after its health check: close when the list is full, else keep. */
    method Keep(key: Key, fd: Fd, maxIdle: nat)
      modifies this
      ensures nextFd == old(nextFd)
      ensures var idle := if key in old(pools) then old(pools)[key] else [];
        if |idle| >= maxIdle
        then pools == old(pools)[key := idle] && closes == old(closes) + [fd]
        else pools == old(pools)[key := idle + [fd]] && closes == old(closes)
    {
      if key !in pools {
        pools := pools[key := []];
      }
      if |pools[key]| >= maxIdle {
        closes := closes + [fd];
        return;
      }
      pools := pools[key := pools[key] + [fd]];
    }
  }

  /** Some descriptors at the end of the list were closed, newest first, and none of them was healthy. */
  ghost predicate ClosedSoFar(before: seq<Fd>, rest: seq<Fd>, closed: seq<Fd>, good: set<Fd>) {
    && |rest| + |closed| == |before| && rest == before[..|rest|]
    && forall k :: 0 <= k < |closed| ==> closed[k] == before[|before| - 1 - k] && closed[k] !in good
  }

  lemma NoneClosed(before: seq<Fd>, good: set<Fd>)
    ensures ClosedSoFar(before, before, [], good)
  {
  }

  /** The last one of the rest is the answer if it is healthy, and else one more to close. */
  lemma CloseOrTake(before: seq<Fd>, rest: seq<Fd>, closed: seq<Fd>, good: set<Fd>)
    requires ClosedSoFar(before, rest, closed, good) && rest != []
    ensures var fd, below := rest[|rest| - 1], rest[..|rest| - 1];
      if fd in good then NewestHealthy(before, below, closed, good, Some(fd))
      else ClosedSoFar(before, below, closed + [fd], good)
  {
  }

  lemma AllClosed(before: seq<Fd>, rest: seq<Fd>, closed: seq<Fd>, good: set<Fd>)
    requires ClosedSoFar(before, rest, closed, good) && rest == []
    ensures NewestHealthy(before, rest, closed, good, None)
  {
  }

  /** One turn of the loop, as the model takes it. */
  lemma TakeIdleTurn(t: State, c: ChannelId, good: set<Fd>)
    requires c in t.channels
    ensures var idle, key := IdleOf(t, t.channels[c].key), t.channels[c].key;
      if idle == [] then TakeIdle(t, c, good) == t.(channels := t.channels[c := t.channels[c].(stage := Connecting)])
      else
        var fd, rest := idle[|idle| - 1], t.(idle := t.idle[key := idle[..|idle| - 1]]);
        if fd in good
        then
          var taken := TakeIdle(t, c, good);
          && taken.channels == t.channels[c := t.channels[c].(stage := Acquired(fd))]
          && taken.idle == rest.idle && taken.nextFd == t.nextFd && taken.closes == t.closes
        else TakeIdle(t, c, good) == TakeIdle(Close(rest, fd), c, good)
  {
  }

  class KrpcChannel {
    const id: ChannelId
    const pool: Pool
    const usePool: bool
    const maxIdle: nat
    var clientFd: Option<Fd>
    var endpointKey: Key

    ghost predicate Matches(s: State)
      reads this, pool
    {
      && pool.Matches(s) && s.usePool == usePool && s.maxIdle == maxIdle
      && id in s.channels && s.channels[id].fd == clientFd && s.channels[id].key == endpointKey
    }

    constructor (id: ChannelId, pool: Pool, usePool: bool, maxIdle: nat, ghost s: State)
      requires pool.Matches(s) && s.usePool == usePool && s.maxIdle == maxIdle && id !in s.channels
      ensures this.pool == pool && this.id == id && Matches(Effect(s, OpenChannel(id)))
    {
      this.id, this.pool, this.usePool, this.maxIdle := id, pool, usePool, maxIdle;
      clientFd, endpointKey := None, "";
    }

    /** Nothing to do without a connection; otherwise into the pool while healthy and there is room, or closed. */
    method ReleaseConnection(healthy: bool, ghost s: State)
      requires Matches(s)
      modifies this, pool
      ensures Matches(Release(s, id, healthy)) && clientFd == None && endpointKey == old(endpointKey)
      ensures Released(old(clientFd), old(endpointKey), healthy, old(pool.pools), old(pool.closes), old(pool.nextFd))
    {
      if clientFd.None? {
        return;
      }
      var fd := clientFd.value;
      clientFd := None;
      if !usePool || !healthy {
        pool.closes := pool.closes + [fd];
        return;
      }
      pool.Keep(endpointKey, fd, maxIdle);
    }

    /** Where the descriptor went that the channel had before. */
    ghost predicate Released(had: Option<Fd>, key: Key, healthy: bool, pools: map<Key, seq<Fd>>, closes: seq<Fd>, nextFd: Fd)
      reads pool
    {
      var idle := if key in pools then pools[key] else [];
      && pool.nextFd == nextFd && (forall k :: k != key && k in pools ==> k in pool.pools && pool.pools[k] == pools[k])
      && match had
         case None => pool.pools == pools && pool.closes == closes
         case Some(fd) =>
           if usePool && healthy && |idle| < maxIdle then pool.IdleList(key) == idle + [fd] && pool.closes == closes
           else pool.IdleList(key) == idle && pool.closes == closes + [fd]
    }

    /** First locked section of one attempt of EnsureConnection; true when the channel is connected there already. */
    method BeginAttempt(key: Key, healthy: bool, ghost s: State) returns (alreadyOk: bool)
      requires Matches(s) && Enabled(s, BeginConnect(id, key, healthy))
      modifies this, pool
      ensures Matches(Effect(s, BeginConnect(id, key, healthy)))
      ensures alreadyOk <==> old(clientFd).Some? && old(endpointKey) == key
      ensures alreadyOk ==>
        && clientFd == old(clientFd) && endpointKey == old(endpointKey)
        && pool.pools == old(pool.pools) && pool.closes == old(pool.closes) && pool.nextFd == old(pool.nextFd)
      ensures !alreadyOk ==>
        && clientFd == None && endpointKey == key
        && Released(old(clientFd), old(endpointKey), healthy, old(pool.pools), old(pool.closes), old(pool.nextFd))
    {
      if clientFd.Some? && key == endpointKey {
        return true;
      }
      if clientFd.Some? {
        ReleaseConnection(healthy, s);
      }
      endpointKey := key;
      alreadyOk := false;
    }

    /** AcquireConnection: the pool first, then a new connection. */
    method AcquireConnection(good: set<Fd>, result: Connect, ghost s: State) returns (got: Option<Fd>)
      requires Matches(s) && Enabled(s, AcquireFromPool(id, good))
      modifies pool
      ensures var s1 := Effect(s, AcquireFromPool(id, good));
        id in s1.channels &&
        if s1.channels[id].stage.Acquired?
        then Matches(s1) && got == Some(s1.channels[id].stage.hand)
        else
          && Enabled(s1, ConnectNew(id, result)) && Matches(Effect(s1, ConnectNew(id, result)))
          && got == if result.Connected? then Some(s.nextFd) else None
      ensures var idle := old(pool.IdleList(endpointKey));
        if usePool && exists fd :: fd in idle && fd in good
        then
          && got.Some? && pool.nextFd == old(pool.nextFd) && old(pool.closes) <= pool.closes
          && NewestHealthy(idle, pool.IdleList(endpointKey), pool.closes[|old(pool.closes)|..], good, got)
        else match result
          case Connected => got == Some(old(pool.nextFd)) && pool.nextFd == old(pool.nextFd) + 1
          case Refused => got == None && pool.nextFd == old(pool.nextFd) + 1
                       && pool.closes != [] && pool.closes[|pool.closes| - 1] == old(pool.nextFd)
          case NoSocket => got == None && pool.nextFd == old(pool.nextFd)
    {
      hide Effect, Enabled, TakeIdle, NewestHealthy;
      ghost var idle, before := pool.IdleList(endpointKey), pool.closes;
      AcquireSteps(s, id, good, result);
      if usePool {
        got := pool.TakeFrom(endpointKey, good, s, id);
        Chosen(idle, pool.IdleList(endpointKey), pool.closes[|before|..], good, got);
        if got.Some? {
          return;
        }
      }
      match result {
        case NoSocket => got := None;
        case Refused =>
          pool.closes := pool.closes + [pool.nextFd];
          pool.nextFd := pool.nextFd + 1;
          got := None;
        case Connected =>
          got := Some(pool.nextFd);
          pool.nextFd := pool.nextFd + 1;
      }
    }

    /** Second locked section: the acquired descriptor becomes the channel's. */
    method InstallConnection(fd: Fd, ghost s: State)
      requires Matches(s) && Enabled(s, Install(id)) && s.channels[id].stage.hand == fd
      modifies this
      ensures Matches(Effect(s, Install(id))) && clientFd == Some(fd) && endpointKey == old(endpointKey)
    {
      clientFd := Some(fd);
    }

    method CloseConnectionLocked(ghost s: State)
      requires Matches(s)
      modifies this, pool
      ensures Matches(Effect(s, CloseLocked(id))) && clientFd == None && endpointKey == old(endpointKey)
      ensures pool.pools == old(pool.pools)
      ensures pool.closes == old(pool.closes) + if old(clientFd).Some? then [old(clientFd).value] else []
    {
      if clientFd.Some? {
        pool.closes := pool.closes + [clientFd.value];
        clientFd := None;
      }
    }
  }

  /** Something came out of the list exactly if something in it was healthy. */
  lemma Chosen(before: seq<Fd>, after: seq<Fd>, closed: seq<Fd>, good: set<Fd>, got: Option<Fd>)
    requires NewestHealthy(before, after, closed, good, got)
    ensures got.Some? <==> exists fd :: fd in before && fd in good
  {
    if got.None? {
      forall i | 0 <= i < |before| ensures before[i] !in good { assert closed[|before| - 1 - i] == before[i]; }
    } else {
      assert got.value in before;
    }
  }

  /** What the model makes of acquiring, and of connecting anew after it. */
  lemma AcquireSteps(s: State, c: ChannelId, good: set<Fd>, result: Connect)
    requires Enabled(s, AcquireFromPool(c, good))
    ensures c in s.channels && s.channels[c].stage.Acquiring?
    ensures var s1 := Effect(s, AcquireFromPool(c, good));
      && s1 == (if s.usePool then TakeIdle(s, c, good) else SetStage(s, c, Connecting))
      && c in s1.channels && s1.nextFd == s.nextFd && s1.usePool == s.usePool && s1.maxIdle == s.maxIdle
      && (s1.channels[c].stage.Connecting? ==>
            var s2 := Effect(s1, ConnectNew(c, result));
            && Enabled(s1, ConnectNew(c, result)) && s2.idle == s1.idle && s2.usePool == s1.usePool && s2.maxIdle == s1.maxIdle
            && s2.nextFd == s1.nextFd + (if result.NoSocket? then 0 else 1)
            && s2.closes == s1.closes + (if result.Refused? then [s1.nextFd] else [])
            && c in s2.channels && s2.channels[c].fd == s1.channels[c].fd && s2.channels[c].key == s1.channels[c].key)
  {
    if s.usePool {
      TakeIdleKeeps(s, c, good);
    }
  }
}
