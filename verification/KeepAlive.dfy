/**
  Heartbeats against idle closing, in discrete time.

  The client waits at most one interval, sends a PING and waits for the PONG with
  its id; the server notes the time of every frame it receives, answers a PING
  with a PONG, and every interval closes a connection that was idle too long. A
  frame travels at most `delay`. Time may pass only up to the next deadline: a
  timer that is due and a frame that must have arrived are served first.
 */
module KeepAlive {
  import opened Common

  datatype Config = Config(interval: nat, missLimit: nat, delay: nat, requestTimeout: nat)

  /** A frame in flight: the id it carries and the latest time of its arrival. */
  datatype Frame = Frame(id: nat, arrivesBefore: int)

  datatype Client = Waiting(wakeBefore: int) | Awaiting(id: nat, timeoutAt: int) | GaveUp

  datatype State = State(
    now: int,
    client: Client,
    misses: nat,
    nextId: nat,
    pings: seq<Frame>,
    pongs: seq<Frame>,
    lastActivity: int,
    nextScan: int,
    open: bool)

  datatype Event =
    | PassTime(to: int)
    | Wake                  // the wait ends: at its deadline, or earlier
    | DeliverPing
    | DeliverPong
    | Timeout
    | OtherFrame            // any other frame of this connection reaches the server
    | Scan

  function Init(firstWake: nat, firstScan: nat): State {
    State(0, Waiting(firstWake), 0, 1, [], [], 0, firstScan, true)
  }

  function Threshold(c: Config): nat {
    NonNegative(c.interval, c.missLimit + 1);
    c.interval * (c.missLimit + 1)
  }

  predicate BeforeDeadlines(s: State, t: int) {
    && (s.client.Waiting? ==> t <= s.client.wakeBefore)
    && (s.client.Awaiting? ==> t <= s.client.timeoutAt)
    && (s.pings != [] ==> t <= s.pings[0].arrivesBefore)
    && (s.pongs != [] ==> t <= s.pongs[0].arrivesBefore)
    && t <= s.nextScan
  }

  predicate Enabled(s: State, e: Event) {
    match e
    case PassTime(t) => s.now < t && BeforeDeadlines(s, t)
    case Wake => s.client.Waiting?
    case DeliverPing => s.pings != []
    case DeliverPong => s.pongs != []
    case Timeout => s.client.Awaiting? && s.client.timeoutAt <= s.now
    case OtherFrame => true
    case Scan => s.nextScan <= s.now
  }

  function Effect(c: Config, s: State, e: Event): State
    requires Enabled(s, e)
  {
    match e
    case PassTime(t) => s.(now := t)
    case Wake =>
      s.(client := Awaiting(s.nextId, s.now + c.requestTimeout), nextId := s.nextId + 1,
         pings := s.pings + [Frame(s.nextId, s.now + c.delay)])
    case DeliverPing =>
      var s1 := s.(pings := s.pings[1..]);
      if s.open then s1.(lastActivity := s.now, pongs := s.pongs + [Frame(s.pings[0].id, s.now + c.delay)]) else s1
    case DeliverPong =>
      var s1 := s.(pongs := s.pongs[1..]);
      if s.client.Awaiting? && s.client.id == s.pongs[0].id
      then s1.(client := Waiting(s.now + c.interval), misses := 0)
      else s1
    case Timeout =>
      if s.misses + 1 >= c.missLimit then s.(client := GaveUp, misses := 0)
      else s.(client := Waiting(s.now + c.interval), misses := s.misses + 1)
    case OtherFrame => if s.open then s.(lastActivity := s.now) else s
    case Scan =>
      s.(nextScan := s.nextScan + c.interval, open := s.open && s.now - s.lastActivity < Threshold(c))
  }

  function Step(c: Config, s: State, e: Event): State {
    if Enabled(s, e) then Effect(c, s, e) else s
  }

  function Run(c: Config, s: State, events: seq<Event>): State {
    if events == [] then s else Step(c, Run(c, s, events[..|events| - 1]), events[|events| - 1])
  }

  // ---------------------------------------------------------------- a connection kept alive

  /** Where the current exchange stands, and how late its next step can be. */
  ghost predicate OnTime(c: Config, s: State) {
    match s.client
    case Waiting(before) =>
      s.pings == [] && s.pongs == [] && s.now <= before <= s.lastActivity + c.delay + c.interval
    case Awaiting(id, timeoutAt) =>
      var sent := timeoutAt - c.requestTimeout;
      || (&& |s.pings| == 1 && s.pongs == [] && s.pings[0].id == id
          && s.now <= s.pings[0].arrivesBefore == sent + c.delay
          && sent <= s.lastActivity + c.delay + c.interval)
      || (&& |s.pongs| == 1 && s.pings == [] && s.pongs[0].id == id
          && s.now <= s.pongs[0].arrivesBefore <= sent + 2 * c.delay
          && s.pongs[0].arrivesBefore <= s.lastActivity + c.delay)
    case GaveUp => false
  }

  ghost predicate Alive(c: Config, s: State) {
    s.open && s.misses == 0 && s.lastActivity <= s.now && OnTime(c, s)
  }

  ghost predicate Responsive(c: Config) {
    2 * c.delay < c.requestTimeout && 2 * c.delay < c.interval * c.missLimit
  }

  lemma AliveStep(c: Config, s: State, e: Event)
    requires Responsive(c) && Alive(c, s)
    ensures Alive(c, Step(c, s, e))
  {
    hide Threshold;
    if e.Scan? && Enabled(s, e) {
      assert Threshold(c) == c.interval * c.missLimit + c.interval by { ThresholdIs(c); }
      assert s.now - s.lastActivity <= c.interval + 2 * c.delay;
    }
  }

  lemma ThresholdIs(c: Config)
    ensures Threshold(c) == c.interval * c.missLimit + c.interval
  {
  }

  /** While frames and answers are fast enough the heartbeat misses no round and the server never closes. */
  lemma {:induction false} NeverClosed(c: Config, firstWake: nat, firstScan: nat, events: seq<Event>)
    requires Responsive(c) && firstWake <= c.interval
    ensures var s := Run(c, Init(firstWake, firstScan), events); s.open && s.misses == 0 && !s.client.GaveUp?
    ensures Alive(c, Run(c, Init(firstWake, firstScan), events))
  {
    if events != [] {
      NeverClosed(c, firstWake, firstScan, events[..|events| - 1]);
      AliveStep(c, Run(c, Init(firstWake, firstScan), events[..|events| - 1]), events[|events| - 1]);
    }
  }

  // ---------------------------------------------------------------- a silent connection

  ghost predicate ScanSoon(c: Config, s: State) {
    && s.lastActivity <= s.now <= s.nextScan
    && (s.open ==> s.nextScan < s.lastActivity + Threshold(c) + c.interval)
  }

  lemma ScanSoonStep(c: Config, s: State, e: Event)
    requires c.interval > 0 && ScanSoon(c, s)
    ensures ScanSoon(c, Step(c, s, e))
  {
  }

  /** A connection that is still open had a frame less than interval * (missLimit + 2) ago, whatever the client does. */
  lemma {:induction false} SilentIsClosed(c: Config, firstWake: nat, firstScan: nat, events: seq<Event>)
    requires c.interval > 0 && firstScan <= c.interval
    ensures var s := Run(c, Init(firstWake, firstScan), events);
      s.open ==> s.now < s.lastActivity + c.interval * (c.missLimit + 2)
    ensures ScanSoon(c, Run(c, Init(firstWake, firstScan), events))
  {
    ThresholdIs(c);
    assert c.interval * (c.missLimit + 2) == c.interval * c.missLimit + 2 * c.interval;
    NonNegative(c.interval, c.missLimit);
    if events != [] {
      SilentIsClosed(c, firstWake, firstScan, events[..|events| - 1]);
      ScanSoonStep(c, Run(c, Init(firstWake, firstScan), events[..|events| - 1]), events[|events| - 1]);
    }
  }

  // ---------------------------------------------------------------- the bound is exact

  lemma {:induction false} RunConcat(c: Config, s: State, a: seq<Event>, b: seq<Event>)
    ensures Run(c, s, a + b) == Run(c, Run(c, s, a), b)
  {
    if b == [] {
      assert a + b == a;
    } else {
      RunConcat(c, s, a, b[..|b| - 1]);
      assert (a + b)[..|a + b| - 1] == a + b[..|b| - 1];
    }
  }

  lemma RunOne(c: Config, s: State, e: Event)
    ensures Run(c, s, [e]) == Step(c, s, e)
  {
    assert Run(c, s, []) == s;
  }

  /** Time of the k-th scan when the first one comes after one interval. */
  function ScanTime(c: Config, k: nat): int {
    k * c.interval
  }

  lemma ScanTimes(c: Config, k: nat, m: nat)
    ensures ScanTime(c, 1) == c.interval && ScanTime(c, k + 1) == ScanTime(c, k) + c.interval
    ensures k < m ==> ScanTime(c, k) + c.interval <= ScanTime(c, m)
    ensures ScanTime(c, c.missLimit + 1) == Threshold(c)
  {
    assert (k + 1) * c.interval == k * c.interval + c.interval;
    if k < m {
      MultipleGap(m - k, c.interval);
      assert m * c.interval == k * c.interval + (m - k) * c.interval;
    }
  }

  /** With client and network idle, time reaches t with the scans before it done, all before the m-th. */
  lemma {:induction false} ScansUntil(c: Config, s: State, k: nat, t: int, m: nat) returns (events: seq<Event>, n: nat)
    requires c.interval > 0 && s.open && s.lastActivity == 0
    requires s.nextScan == ScanTime(c, k) && s.now <= t && s.now <= s.nextScan && BeforeDeadlines(s.(nextScan := t), t)
    requires k <= m && t <= ScanTime(c, m) <= Threshold(c)
    ensures n <= m && t <= ScanTime(c, n) && Run(c, s, events) == s.(now := t, nextScan := ScanTime(c, n))
    decreases t - s.nextScan
  {
    hide Threshold, ScanTime;
    if t <= s.nextScan {
      n := k;
      RunOne(c, s, PassTime(t));
      events := if s.now < t then [PassTime(t)] else [];
    } else {
      ScanTimes(c, k, m);
      ScanTimes(c, m, k);
      var s1 := s.(now := s.nextScan);
      RunOne(c, s, PassTime(s.nextScan));
      RunOne(c, s1, Scan);
      var first := if s.now < s.nextScan then [PassTime(s.nextScan)] else [];
      assert Run(c, s, first) == s1;
      RunConcat(c, s, first, [Scan]);
      events := first + [Scan];
      var s2 := s1.(nextScan := ScanTime(c, k + 1));
      assert Run(c, s, events) == s2;
      if t < s2.nextScan {
        n := k + 1;
        RunOne(c, s2, PassTime(t));
        RunConcat(c, s, events, [PassTime(t)]);
        events := events + [PassTime(t)];
      } else {
        var rest;
        rest, n := ScansUntil(c, s2, k + 1, t, m);
        RunConcat(c, s, events, rest);
        events := events + rest;
      }
    }
  }

  lemma Then(c: Config, s: State, a: seq<Event>, s1: State, e: Event) returns (b: seq<Event>)
    requires Run(c, s, a) == s1
    ensures b == a + [e] && Run(c, s, b) == Step(c, s1, e)
  {
    RunConcat(c, s, a, [e]);
    RunOne(c, s1, e);
    b := a + [e];
  }

  /** One more leg of idle time up to t. */
  lemma Leg(c: Config, s: State, a: seq<Event>, s1: State, k: nat, t: int, m: nat) returns (b: seq<Event>, n: nat)
    requires Run(c, s, a) == s1
    requires c.interval > 0 && s1.open && s1.lastActivity == 0
    requires s1.nextScan == ScanTime(c, k) && s1.now <= t && s1.now <= s1.nextScan && BeforeDeadlines(s1.(nextScan := t), t)
    requires k <= m && t <= ScanTime(c, m) <= Threshold(c)
    ensures n <= m && t <= ScanTime(c, n) && Run(c, s, b) == s1.(now := t, nextScan := ScanTime(c, n))
  {
    var rest;
    rest, n := ScansUntil(c, s1, k, t, m);
    RunConcat(c, s, a, rest);
    b := a + rest;
  }

  function Min(a: int, b: int): int { if a < b then a else b }

  /** The scan at the threshold, with no activity since time 0, closes. */
  lemma ClosingScan(c: Config, s: State, a: seq<Event>, s1: State, n: nat) returns (b: seq<Event>)
    requires Run(c, s, a) == s1 && s1.nextScan == ScanTime(c, n) && s1.lastActivity == 0
    requires n <= c.missLimit + 1 && s1.now == ScanTime(c, c.missLimit + 1) <= s1.nextScan && c.interval > 0
    ensures !Run(c, s, b).open
  {
    ScanTimes(c, n, c.missLimit + 1);
    hide Run, Threshold, ScanTime;
    b := Then(c, s, a, s1, Scan);
  }

  /** The second PING is sent an interval after the first PONG, and still travels when the closing scan comes. */
  lemma SecondPing(c: Config, s: State, a: seq<Event>, s1: State, n: nat) returns (b: seq<Event>)
    requires c.interval > 0 && 2 * c.delay < c.requestTimeout && Threshold(c) <= 2 * c.delay + c.interval
    requires Run(c, s, a) == s1 == State(c.delay, Waiting(c.delay + c.interval), 0, 2, [], [], 0, ScanTime(c, n), true)
    requires n <= c.missLimit + 1 && c.delay <= ScanTime(c, n) && c.delay < Threshold(c)
    ensures !Run(c, s, b).open
  {
    var m, k := c.missLimit + 1, n;
    ScanTimes(c, n, m);
    var close, wake := ScanTime(c, m), c.delay + c.interval;
    hide Run, Threshold, ScanTime, Step;
    b, k := Leg(c, s, a, s1, k, Min(wake, close), m);
    var s2 := s1.(now := Min(wake, close), nextScan := ScanTime(c, k));
    if wake < close {
      b := LastLeg(c, s, b, s2, k);
    } else {
      b := ClosingScan(c, s, b, s2, k);
    }
  }

  lemma LastLeg(c: Config, s: State, a: seq<Event>, s1: State, n: nat) returns (b: seq<Event>)
    requires c.interval > 0 && 2 * c.delay < c.requestTimeout && Threshold(c) <= 2 * c.delay + c.interval
    requires Run(c, s, a) == s1 && n <= c.missLimit + 1
    requires s1.now == c.delay + c.interval < Threshold(c)
    requires s1 == State(s1.now, Waiting(s1.now), 0, 2, [], [], 0, ScanTime(c, n), true) && s1.now <= s1.nextScan
    ensures !Run(c, s, b).open
  {
    var m, k := c.missLimit + 1, n;
    ScanTimes(c, n, m);
    hide Run, Threshold, ScanTime;
    b := Then(c, s, a, s1, Wake);
    var s2 := State(s1.now, Awaiting(2, s1.now + c.requestTimeout), 0, 3, [Frame(2, s1.now + c.delay)], [], 0, s1.nextScan, true);
    b, k := Leg(c, s, b, s2, k, ScanTime(c, m), m);
    b := ClosingScan(c, s, b, s2.(now := ScanTime(c, m), nextScan := ScanTime(c, k)), k);
  }

  lemma FirstPing(c: Config, s: State) returns (events: seq<Event>)
    requires s == Init(0, c.interval)
    ensures Run(c, s, events) == State(0, Awaiting(1, c.requestTimeout), 0, 2, [], [Frame(1, c.delay)], 0, c.interval, true)
  {
    RunOne(c, s, Wake);
    var s1 := State(0, Awaiting(1, c.requestTimeout), 0, 2, [Frame(1, c.delay)], [], 0, c.interval, true);
    events := Then(c, s, [Wake], s1, DeliverPing);
  }

  lemma FirstPong(c: Config, s: State)
    requires s.now == c.delay && s.client == Awaiting(1, c.requestTimeout) && s.pongs == [Frame(1, c.delay)] && s.misses == 0
    ensures Step(c, s, DeliverPong) == s.(client := Waiting(c.delay + c.interval), pongs := [])
  {
  }

  lemma SlowPing(c: Config) returns (events: seq<Event>)
    requires c.interval > 0 && 2 * c.delay < c.requestTimeout && 2 * c.delay >= c.interval * c.missLimit
    ensures !Run(c, Init(0, c.interval), events).open
  {
    var m, init := c.missLimit + 1, Init(0, c.interval);
    ThresholdIs(c);
    ScanTimes(c, 1, m);
    NonNegative(c.interval, c.missLimit);
    var close := ScanTime(c, m);
    assert c.interval <= close <= 2 * c.delay + c.interval;
    hide Run, Threshold, ScanTime, Step;
    events := FirstPing(c, init);
    var s1 := State(0, Awaiting(1, c.requestTimeout), 0, 2, [], [Frame(1, c.delay)], 0, c.interval, true);
    var n;
    events, n := Leg(c, init, events, s1, 1, Min(c.delay, close), m);
    s1 := s1.(now := Min(c.delay, close), nextScan := ScanTime(c, n));
    if c.delay < close {
      FirstPong(c, s1);
      events := Then(c, init, events, s1, DeliverPong);
      s1 := State(c.delay, Waiting(c.delay + c.interval), 0, 2, [], [], 0, ScanTime(c, n), true);
      events := SecondPing(c, init, events, s1, n);
    } else {
      events := ClosingScan(c, init, events, s1, n);
    }
  }

  /**
    With answers inside the request timeout, no run closes a heartbeating
    connection if and only if two one-way delays are shorter than
    interval * missLimit.
   */
  lemma KeepAliveIff(c: Config)
    requires c.interval > 0 && 2 * c.delay < c.requestTimeout
    ensures 2 * c.delay < c.interval * c.missLimit <==>
      forall firstWake: nat, firstScan: nat, events ::
        firstWake <= c.interval && firstScan <= c.interval ==> Run(c, Init(firstWake, firstScan), events).open
  {
    if 2 * c.delay < c.interval * c.missLimit {
      forall firstWake: nat, firstScan: nat, events | firstWake <= c.interval && firstScan <= c.interval
        ensures Run(c, Init(firstWake, firstScan), events).open
      {
        NeverClosed(c, firstWake, firstScan, events);
      }
    } else {
      var events := SlowPing(c);
      assert !Run(c, Init(0, c.interval), events).open;
    }
  }
}
