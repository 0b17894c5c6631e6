/**
  The endpoint search of EnsureConnection: rotated order from the selected
  endpoint, skipping endpoints that cool down after a failure, with one last
  attempt on the endpoint that may be retried soonest.
 */
module Failover {
  import opened Common
  import opened EndpointText

  /** Result of one AcquireConnection, and the clock when a failure is recorded. */
  datatype Answer = Answer(ok: bool, at: int)

  datatype Search = Search(eps: seq<Endpoint>, start: nat, now: int, cooldown: nat, answers: seq<Answer>)

  type RetryTimes = map<string, int>

  predicate ValidSearch(c: Search) {
    c.eps != [] && c.start < |c.eps| && |c.answers| > |c.eps|
  }

  /** EndpointAvailable says no. */
  predicate Cooling(fail: RetryTimes, ep: Endpoint, now: int) {
    KeyOf(ep) in fail && now < fail[KeyOf(ep)]
  }

  /** The i-th index of the rotated order. */
  function Index(c: Search, i: nat): (idx: nat)
    requires ValidSearch(c)
    ensures idx < |c.eps|
  {
    (c.start + i) % |c.eps|
  }

  function Rotated(c: Search, i: nat): Endpoint
    requires ValidSearch(c)
  {
    c.eps[Index(c, i)]
  }

  // ---------------------------------------------------------------- the code, turn by turn

  datatype Progress = Progress(
    done: bool, attempts: seq<Endpoint>, conn: Option<Endpoint>, fail: RetryTimes,
    earliest: Option<int>, earliestIndex: nat)

  predicate ValidProgress(c: Search, p: Progress) {
    ValidSearch(c) && p.earliestIndex < |c.eps|
  }

  /** Keep the connection if it is to this endpoint already, else let go of it and connect. */
  function TryEndpoint(c: Search, p: Progress, ep: Endpoint): Progress
    requires |p.attempts| < |c.answers|
  {
    if p.conn == Some(ep) then p.(done := true)
    else
      var a := c.answers[|p.attempts|];
      var tried := p.(attempts := p.attempts + [ep]);
      if a.ok then tried.(done := true, conn := Some(ep), fail := p.fail - {KeyOf(ep)})
      else tried.(conn := None, fail := p.fail[KeyOf(ep) := a.at + c.cooldown])
  }

  function Turn(c: Search, p: Progress, i: nat): (q: Progress)
    requires ValidProgress(c, p) && |p.attempts| <= i < |c.eps|
    ensures ValidProgress(c, q) && |q.attempts| <= i + 1
  {
    var ep := Rotated(c, i);
    if Cooling(p.fail, ep, c.now) then
      var retry := p.fail[KeyOf(ep)];
      if p.earliest.None? || retry < p.earliest.value
      then p.(earliest := Some(retry), earliestIndex := Index(c, i))
      else p
    else TryEndpoint(c, p, ep)
  }

  function Begin(c: Search, conn: Option<Endpoint>, fail: RetryTimes): Progress {
    Progress(false, [], conn, fail, None, c.start)
  }

  function Turns(c: Search, conn: Option<Endpoint>, fail: RetryTimes, k: nat): (p: Progress)
    requires ValidSearch(c) && k <= |c.eps|
    ensures ValidProgress(c, p) && |p.attempts| <= k
  {
    if k == 0 then Begin(c, conn, fail)
    else
      var p := Turns(c, conn, fail, k - 1);
      if p.done then p else Turn(c, p, k - 1)
  }

  function Finish(c: Search, conn: Option<Endpoint>, fail: RetryTimes): Progress
    requires ValidSearch(c)
  {
    var p := Turns(c, conn, fail, |c.eps|);
    if p.done then p else TryEndpoint(c, p, c.eps[p.earliestIndex])
  }

  class KrpcChannel {
    var connectedTo: Option<Endpoint>
    var failStates: RetryTimes
    var attempts: seq<Endpoint>

    method Attempt(c: Search, ep: Endpoint) returns (ok: bool)
      requires |attempts| < |c.answers|
      modifies this
      ensures forall best, i, done: bool {:trigger Progress(done, old(attempts), old(connectedTo), old(failStates), best, i)} ::
        TryEndpoint(c, Progress(false, old(attempts), old(connectedTo), old(failStates), best, i), ep)
          == Progress(ok, attempts, connectedTo, failStates, best, i)
      ensures old(connectedTo) == Some(ep) ==>
        ok && attempts == old(attempts) && connectedTo == old(connectedTo) && failStates == old(failStates)
      ensures old(connectedTo) != Some(ep) ==>
        var answer := c.answers[|old(attempts)|];
        && ok == answer.ok && attempts == old(attempts) + [ep] && connectedTo == (if ok then Some(ep) else None)
        && failStates == if ok then old(failStates) - {KeyOf(ep)} else old(failStates)[KeyOf(ep) := answer.at + c.cooldown]
    {
      if connectedTo == Some(ep) {
        return true;
      }
      connectedTo := None;
      var answer := c.answers[|attempts|];
      attempts := attempts + [ep];
      if answer.ok {
        connectedTo := Some(ep);
        failStates := failStates - {KeyOf(ep)};
        return true;
      }
      failStates := failStates[KeyOf(ep) := answer.at + c.cooldown];
      ok := false;
    }

    /** The search once the endpoints are known and the balancer has chosen where to start. */
    method EnsureConnection(c: Search) returns (ok: bool)
      requires ValidSearch(c) && attempts == []
      modifies this
      ensures var p := Finish(c, old(connectedTo), old(failStates));
        ok == p.done && attempts == p.attempts && connectedTo == p.conn && failStates == p.fail
    {
      hide Turns, TryEndpoint, KeyOf;
      TurnsStep(c, connectedTo, failStates, 0);
      var earliestRetry: Option<int>, earliestIndex: nat := None, c.start;
      var i := 0;
      while i < |c.eps|
        invariant 0 <= i <= |c.eps| && earliestIndex < |c.eps|
        invariant Turns(c, old(connectedTo), old(failStates), i)
               == Progress(false, attempts, connectedTo, failStates, earliestRetry, earliestIndex)
      {
        TurnsStep(c, old(connectedTo), old(failStates), i + 1);
        ghost var p := Progress(false, attempts, connectedTo, failStates, earliestRetry, earliestIndex);
        var idx := (c.start + i) % |c.eps|;
        var candidate := c.eps[idx];
        var key := KeyOf(candidate);
        if key in failStates && c.now < failStates[key] {
          if earliestRetry.None? || failStates[key] < earliestRetry.value {
            earliestRetry, earliestIndex := Some(failStates[key]), idx;
          }
          i := i + 1;
          continue;
        }
        ok := Attempt(c, candidate);
        assert TryEndpoint(c, p, candidate) == Progress(ok, attempts, connectedTo, failStates, earliestRetry, earliestIndex);
        if ok {
          DoneStays(c, old(connectedTo), old(failStates), i + 1, |c.eps|);
          return;
        }
        i := i + 1;
      }
      ok := Attempt(c, c.eps[earliestIndex]);
    }
  }

  lemma TurnsStep(c: Search, conn: Option<Endpoint>, fail: RetryTimes, k: nat)
    requires ValidSearch(c) && k <= |c.eps|
    ensures k == 0 ==> Turns(c, conn, fail, k) == Begin(c, conn, fail)
    ensures k > 0 ==>
      var p := Turns(c, conn, fail, k - 1);
      Turns(c, conn, fail, k) == if p.done then p else Turn(c, p, k - 1)
  {
  }

  lemma {:induction false} DoneStays(c: Search, conn: Option<Endpoint>, fail: RetryTimes, i: nat, k: nat)
    requires ValidSearch(c) && i <= k <= |c.eps| && Turns(c, conn, fail, i).done
    ensures Turns(c, conn, fail, k) == Turns(c, conn, fail, i)
    decreases k - i
  {
    if i < k {
      DoneStays(c, conn, fail, i, k - 1);
    }
  }

  // ---------------------------------------------------------------- what the search amounts to

  /** The endpoints that are not cooling among the first k, in rotated order. */
  function Ready(c: Search, fail: RetryTimes, k: nat): (r: seq<Endpoint>)
    requires ValidSearch(c) && k <= |c.eps|
    ensures |r| <= k
  {
    if k == 0 then []
    else
      var r := Ready(c, fail, k - 1);
      if Cooling(fail, Rotated(c, k - 1), c.now) then r else r + [Rotated(c, k - 1)]
  }

  /** The first of the first k answers that is a success. */
  function FirstSuccess(answers: seq<Answer>, k: nat): (m: Option<nat>)
    requires k <= |answers|
    ensures m.Some? ==> m.value < k && answers[m.value].ok && forall i :: 0 <= i < m.value ==> !answers[i].ok
    ensures m.None? ==> forall i :: 0 <= i < k ==> !answers[i].ok
  {
    if k == 0 then None
    else
      var m := FirstSuccess(answers, k - 1);
      if m.None? && answers[k - 1].ok then Some(k - 1) else m
  }

  /** The retry times after the i-th tried endpoint failed with the i-th answer, for each of them. */
  function MarkAll(fail: RetryTimes, tried: seq<Endpoint>, answers: seq<Answer>, cooldown: nat): RetryTimes
    requires |tried| <= |answers|
  {
    if tried == [] then fail
    else
      var n := |tried| - 1;
      MarkAll(fail, tried[..n], answers, cooldown)[KeyOf(tried[n]) := answers[n].at + cooldown]
  }

  /** Offset of the cooling endpoint that may be retried first, the earliest in rotated order on a tie. */
  function Soonest(c: Search, fail: RetryTimes, k: nat): (o: Option<nat>)
    requires ValidSearch(c) && k <= |c.eps|
    ensures o.None? ==> forall i :: 0 <= i < k ==> !Cooling(fail, Rotated(c, i), c.now)
    ensures o.Some? ==> o.value < k && Cooling(fail, Rotated(c, o.value), c.now)
    ensures o.Some? ==> forall i :: 0 <= i < k && Cooling(fail, Rotated(c, i), c.now) ==>
      var best, other := fail[KeyOf(Rotated(c, o.value))], fail[KeyOf(Rotated(c, i))];
      best <= other && (i < o.value ==> best < other)
  {
    if k == 0 then None
    else
      var o := Soonest(c, fail, k - 1);
      if !Cooling(fail, Rotated(c, k - 1), c.now) then o
      else if o.None? || fail[KeyOf(Rotated(c, k - 1))] < fail[KeyOf(Rotated(c, o.value))] then Some(k - 1)
      else o
  }

  function Fallback(c: Search, fail: RetryTimes): Endpoint
    requires ValidSearch(c)
  {
    var o := Soonest(c, fail, |c.eps|);
    if o.Some? then Rotated(c, o.value) else c.eps[c.start]
  }

  datatype Outcome = Outcome(ok: bool, attempts: seq<Endpoint>, conn: Option<Endpoint>, fail: RetryTimes)

  /** The promise: try what is not cooling in rotated order, then the fallback once. */
  function Expected(c: Search, conn: Option<Endpoint>, fail: RetryTimes): Outcome
    requires ValidSearch(c)
  {
    var ready, f := Ready(c, fail, |c.eps|), Fallback(c, fail);
    var m := FirstSuccess(c.answers, |ready|);
    if ready != [] && conn == Some(ready[0]) then Outcome(true, [], conn, fail)
    else if m.Some? then
      var tried := ready[..m.value];
      Outcome(true, tried + [ready[m.value]], Some(ready[m.value]),
              MarkAll(fail, tried, c.answers, c.cooldown) - {KeyOf(ready[m.value])})
    else if ready == [] && conn == Some(f) then Outcome(true, [], conn, fail)
    else if c.answers[|ready|].ok then
      Outcome(true, ready + [f], Some(f), MarkAll(fail, ready, c.answers, c.cooldown) - {KeyOf(f)})
    else Outcome(false, ready + [f], None, MarkAll(fail, ready + [f], c.answers, c.cooldown))
  }

  predicate Distinct(eps: seq<Endpoint>) {
    forall i, j :: 0 <= i < j < |eps| ==> eps[i] != eps[j]
  }

  lemma RotatedDistinct(c: Search, i: nat, j: nat)
    requires ValidSearch(c) && Distinct(c.eps) && i < j < |c.eps|
    ensures Rotated(c, i) != Rotated(c, j)
  {
    var n := |c.eps|;
    var a := if c.start + i < n then c.start + i else c.start + i - n;
    var b := if c.start + j < n then c.start + j else c.start + j - n;
    DivModUnique(c.start + i, n, if c.start + i < n then 0 else 1, a);
    DivModUnique(c.start + j, n, if c.start + j < n then 0 else 1, b);
    assert c.eps[a] != c.eps[b];
  }

  lemma {:induction false} ReadyAreEarlier(c: Search, fail: RetryTimes, k: nat)
    requires ValidSearch(c) && k <= |c.eps|
    ensures forall ep :: ep in Ready(c, fail, k) ==> exists i :: 0 <= i < k && Rotated(c, i) == ep
  {
    if k > 0 {
      ReadyAreEarlier(c, fail, k - 1);
      forall ep | ep in Ready(c, fail, k) ensures exists i :: 0 <= i < k && Rotated(c, i) == ep {
        if ep !in Ready(c, fail, k - 1) {
          assert Rotated(c, k - 1) == ep;
        }
      }
    }
  }

  lemma {:induction false} MarkAllElsewhere(fail: RetryTimes, tried: seq<Endpoint>, answers: seq<Answer>, cooldown: nat, ep: Endpoint)
    requires |tried| <= |answers| && ep !in tried
    ensures var m := MarkAll(fail, tried, answers, cooldown);
      (KeyOf(ep) in m <==> KeyOf(ep) in fail) && (KeyOf(ep) in fail ==> m[KeyOf(ep)] == fail[KeyOf(ep)])
  {
    if tried != [] {
      var n := |tried| - 1;
      MarkAllElsewhere(fail, tried[..n], answers, cooldown, ep);
      if KeyOf(tried[n]) == KeyOf(ep) {
        KeyInjective(tried[n], ep);
      }
    }
  }

  /** After k turns: either the answer is known already, or everything ready so far failed. */
  ghost predicate TurnsMean(c: Search, conn: Option<Endpoint>, fail: RetryTimes, k: nat)
    requires ValidSearch(c) && k <= |c.eps|
  {
    var p, ready, o := Turns(c, conn, fail, k), Ready(c, fail, k), Soonest(c, fail, k);
    var m := FirstSuccess(c.answers, |ready|);
    if ready != [] && conn == Some(ready[0]) then
      p.done && p.attempts == [] && p.conn == conn && p.fail == fail
    else if m.Some? then
      && p.done && p.attempts == ready[..m.value] + [ready[m.value]] && p.conn == Some(ready[m.value])
      && p.fail == MarkAll(fail, ready[..m.value], c.answers, c.cooldown) - {KeyOf(ready[m.value])}
    else
      && !p.done && p.attempts == ready && p.fail == MarkAll(fail, ready, c.answers, c.cooldown)
      && p.conn == (if ready == [] then conn else None)
      && p.earliest == (if o.Some? then Some(fail[KeyOf(Rotated(c, o.value))]) else None)
      && p.earliestIndex == (if o.Some? then Index(c, o.value) else c.start)
  }

  lemma {:induction false} TurnsMeaning(c: Search, conn: Option<Endpoint>, fail: RetryTimes, k: nat)
    requires ValidSearch(c) && Distinct(c.eps) && k <= |c.eps|
    ensures TurnsMean(c, conn, fail, k)
  {
    hide TurnsMean, Turns, Cooling, Index, Ready, Soonest, MarkAll;
    if k == 0 {
      TurnsNone(c, conn, fail);
    } else {
      TurnsMeaning(c, conn, fail, k - 1);
      if Turns(c, conn, fail, k - 1).done {
        TurnAfterDone(c, conn, fail, k);
      } else if Cooling(fail, Rotated(c, k - 1), c.now) {
        TurnCooling(c, conn, fail, k);
      } else {
        TurnReady(c, conn, fail, k);
      }
    }
  }

  lemma TurnsNone(c: Search, conn: Option<Endpoint>, fail: RetryTimes)
    requires ValidSearch(c)
    ensures TurnsMean(c, conn, fail, 0)
  {
  }

  lemma ReadyStep(c: Search, fail: RetryTimes, k: nat)
    requires ValidSearch(c) && 0 < k <= |c.eps|
    ensures var r, ep := Ready(c, fail, k - 1), Rotated(c, k - 1);
      Ready(c, fail, k) == if Cooling(fail, ep, c.now) then r else r + [ep]
  {
  }

  lemma SoonestStep(c: Search, fail: RetryTimes, k: nat)
    requires ValidSearch(c) && 0 < k <= |c.eps|
    ensures var o := Soonest(c, fail, k - 1);
      Soonest(c, fail, k) ==
        if !Cooling(fail, Rotated(c, k - 1), c.now) then o
        else if o.None? || fail[KeyOf(Rotated(c, k - 1))] < fail[KeyOf(Rotated(c, o.value))] then Some(k - 1)
        else o
  {
  }

  lemma MarkAllStep(fail: RetryTimes, tried: seq<Endpoint>, ep: Endpoint, answers: seq<Answer>, cooldown: nat)
    requires |tried| < |answers|
    ensures MarkAll(fail, tried + [ep], answers, cooldown)
         == MarkAll(fail, tried, answers, cooldown)[KeyOf(ep) := answers[|tried|].at + cooldown]
  {
    assert (tried + [ep])[..|tried|] == tried;
  }

  /** An endpoint not tried before is cooling for the code exactly when it was at the start. */
  lemma SameCooling(c: Search, fail: RetryTimes, k: nat)
    requires ValidSearch(c) && Distinct(c.eps) && 0 < k <= |c.eps|
    ensures var ready, ep := Ready(c, fail, k - 1), Rotated(c, k - 1);
      var m := MarkAll(fail, ready, c.answers, c.cooldown);
      && Cooling(m, ep, c.now) == Cooling(fail, ep, c.now)
      && (Cooling(fail, ep, c.now) ==> m[KeyOf(ep)] == fail[KeyOf(ep)])
  {
    var ready, ep := Ready(c, fail, k - 1), Rotated(c, k - 1);
    assert ep !in ready by {
      ReadyAreEarlier(c, fail, k - 1);
      forall i | 0 <= i < k - 1 ensures Rotated(c, i) != ep { RotatedDistinct(c, i, k - 1); }
    }
    hide KeyOf;
    MarkAllElsewhere(fail, ready, c.answers, c.cooldown, ep);
  }

  lemma FirstSuccessStep(answers: seq<Answer>, k: nat)
    requires 0 < k <= |answers|
    ensures var m := FirstSuccess(answers, k - 1);
      FirstSuccess(answers, k) == if m.None? && answers[k - 1].ok then Some(k - 1) else m
  {
  }

  lemma TurnAfterDone(c: Search, conn: Option<Endpoint>, fail: RetryTimes, k: nat)
    requires ValidSearch(c) && 0 < k <= |c.eps| && TurnsMean(c, conn, fail, k - 1) && Turns(c, conn, fail, k - 1).done
    ensures TurnsMean(c, conn, fail, k)
  {
    hide KeyOf, Index, Turns, Turn, Ready, Soonest, MarkAll, FirstSuccess, Cooling, Rotated;
    var ready, ep := Ready(c, fail, k - 1), Rotated(c, k - 1);
    TurnsStep(c, conn, fail, k);
    ReadyStep(c, fail, k);
    var m := FirstSuccess(c.answers, |ready|);
    FirstSuccessStep(c.answers, |ready| + 1);
    if m.Some? {
      assert (ready + [ep])[..m.value] == ready[..m.value];
    }
  }

  lemma TurnCooling(c: Search, conn: Option<Endpoint>, fail: RetryTimes, k: nat)
    requires ValidSearch(c) && Distinct(c.eps) && 0 < k <= |c.eps|
    requires TurnsMean(c, conn, fail, k - 1) && !Turns(c, conn, fail, k - 1).done
    requires Cooling(fail, Rotated(c, k - 1), c.now)
    ensures TurnsMean(c, conn, fail, k)
  {
    hide KeyOf, Index, Turns, Ready, Soonest, MarkAll, FirstSuccess, TryEndpoint, Cooling;
    TurnsStep(c, conn, fail, k);
    ReadyStep(c, fail, k);
    SameCooling(c, fail, k);
    SoonestStep(c, fail, k);
  }

  lemma TurnReady(c: Search, conn: Option<Endpoint>, fail: RetryTimes, k: nat)
    requires ValidSearch(c) && Distinct(c.eps) && 0 < k <= |c.eps|
    requires TurnsMean(c, conn, fail, k - 1) && !Turns(c, conn, fail, k - 1).done
    requires !Cooling(fail, Rotated(c, k - 1), c.now)
    ensures TurnsMean(c, conn, fail, k)
  {
    hide KeyOf, Index, Turns, Ready, Soonest, MarkAll, FirstSuccess, Cooling, Rotated;
    var p, ready, ep := Turns(c, conn, fail, k - 1), Ready(c, fail, k - 1), Rotated(c, k - 1);
    TurnsStep(c, conn, fail, k);
    ReadyStep(c, fail, k);
    SameCooling(c, fail, k);
    SoonestStep(c, fail, k);
    FirstSuccessStep(c.answers, |ready| + 1);
    MarkAllStep(fail, ready, ep, c.answers, c.cooldown);
    MarkAllNone(fail, c.answers, c.cooldown);
    assert (ready + [ep])[..|ready|] == ready;
    assert Turns(c, conn, fail, k) == TryEndpoint(c, p, ep);
  }

  lemma MarkAllNone(fail: RetryTimes, answers: seq<Answer>, cooldown: nat)
    ensures MarkAll(fail, [], answers, cooldown) == fail
  {
  }

  /** For distinct endpoints the code's search is the promised one, in attempts, connection, cooldowns and result. */
  lemma {:induction false} FailoverAsExpected(c: Search, conn: Option<Endpoint>, fail: RetryTimes)
    requires ValidSearch(c) && Distinct(c.eps)
    ensures var p := Finish(c, conn, fail);
      Outcome(p.done, p.attempts, p.conn, p.fail) == Expected(c, conn, fail)
  {
    hide KeyOf, Index, Turns, Ready, Soonest, MarkAll, FirstSuccess, Cooling;
    TurnsMeaning(c, conn, fail, |c.eps|);
    MarkAllNone(fail, c.answers, c.cooldown);
    MarkAllStep(fail, Ready(c, fail, |c.eps|), Fallback(c, fail), c.answers, c.cooldown);
  }

  /** Endpoint i of those tried cools down from the last time it was tried. */
  ghost predicate CoolsAnew(m: RetryTimes, tried: seq<Endpoint>, answers: seq<Answer>, cooldown: nat, i: nat)
    requires i < |tried| <= |answers|
  {
    && KeyOf(tried[i]) in m
    && exists j :: i <= j < |tried| && tried[j] == tried[i] && m[KeyOf(tried[i])] == answers[j].at + cooldown
  }

  lemma {:induction false} MarkAllCovers(fail: RetryTimes, tried: seq<Endpoint>, answers: seq<Answer>, cooldown: nat, i: nat)
    requires i < |tried| <= |answers|
    ensures CoolsAnew(MarkAll(fail, tried, answers, cooldown), tried, answers, cooldown, i)
  {
    hide KeyOf;
    var n := |tried| - 1;
    var m := MarkAll(fail, tried, answers, cooldown);
    if KeyOf(tried[n]) == KeyOf(tried[i]) {
      KeyInjective(tried[n], tried[i]);
      assert tried[n] == tried[i] && m[KeyOf(tried[i])] == answers[n].at + cooldown;
    } else {
      var before := MarkAll(fail, tried[..n], answers, cooldown);
      MarkAllCovers(fail, tried[..n], answers, cooldown, i);
      var j :| i <= j < n && tried[..n][j] == tried[..n][i] && before[KeyOf(tried[i])] == answers[j].at + cooldown;
      assert tried[j] == tried[i] && m[KeyOf(tried[i])] == answers[j].at + cooldown;
    }
  }

  /**
    The search gives up only after every endpoint that was not cooling and then
    the fallback were tried and failed, and each of them is cooling anew.
   */
  lemma {:induction false} GivesUpOnlyAfterAll(c: Search, conn: Option<Endpoint>, fail: RetryTimes)
    requires ValidSearch(c) && Distinct(c.eps) && !Finish(c, conn, fail).done
    ensures var p, ready := Finish(c, conn, fail), Ready(c, fail, |c.eps|);
      && p.attempts == ready + [Fallback(c, fail)] && p.conn == None
      && (forall i :: 0 <= i < |p.attempts| ==> !c.answers[i].ok)
      && forall i :: 0 <= i < |p.attempts| ==> CoolsAnew(p.fail, p.attempts, c.answers, c.cooldown, i)
  {
    hide KeyOf, Index, Turns, Ready, Soonest, MarkAll, FirstSuccess, Cooling, Finish, Fallback, CoolsAnew;
    FailoverAsExpected(c, conn, fail);
    var p := Finish(c, conn, fail);
    forall i | 0 <= i < |p.attempts| ensures CoolsAnew(p.fail, p.attempts, c.answers, c.cooldown, i) {
      MarkAllCovers(fail, p.attempts, c.answers, c.cooldown, i);
    }
  }

  /** The search starts at the selected endpoint and each turn moves on to the next one of the list, around its end. */
  lemma RotatedOrder(c: Search, i: nat)
    requires ValidSearch(c)
    ensures Rotated(c, 0) == c.eps[c.start]
    ensures Rotated(c, i) == c.eps[Index(c, i)]
    ensures Index(c, i + 1) == if Index(c, i) == |c.eps| - 1 then 0 else Index(c, i) + 1
  {
    var n := |c.eps|;
    var q := (c.start + i) / n;
    DivModUnique(c.start, n, 0, c.start);
    assert c.start + i == q * n + Index(c, i);
    if Index(c, i) == n - 1 {
      assert c.start + (i + 1) == (q + 1) * n + 0;
      DivModUnique(c.start + (i + 1), n, q + 1, 0);
    } else {
      DivModUnique(c.start + (i + 1), n, q, Index(c, i) + 1);
    }
  }

  /** The endpoint may be attempted: it never failed, or its retry time has come. */
  predicate MayRetry(fail: RetryTimes, ep: Endpoint, now: int) {
    KeyOf(ep) in fail ==> fail[KeyOf(ep)] <= now
  }

  /** The turns, in order, at which the search meets exactly the endpoints that may be attempted. */
  ghost predicate OffersInOrder(c: Search, fail: RetryTimes, turns: seq<nat>, ready: seq<Endpoint>, k: nat)
    requires ValidSearch(c)
  {
    && |turns| == |ready|
    && (forall x, y :: 0 <= x < y < |turns| ==> turns[x] < turns[y])
    && (forall x :: 0 <= x < |turns| ==> turns[x] < k && ready[x] == Rotated(c, turns[x]))
    && (forall i: nat :: i < k ==> (i in turns <==> MayRetry(fail, Rotated(c, i), c.now)))
  }

  /** The endpoints the search offers itself are exactly those it may attempt, in rotated order. */
  lemma {:induction false} ReadyMeaning(c: Search, fail: RetryTimes, k: nat) returns (turns: seq<nat>)
    requires ValidSearch(c) && k <= |c.eps|
    ensures OffersInOrder(c, fail, turns, Ready(c, fail, k), k)
  {
    hide Rotated, KeyOf, Index, OffersInOrder, Ready, Cooling, MayRetry;
    if k == 0 {
      turns := [];
      NoneOffered(c, fail);
    } else {
      var before := ReadyMeaning(c, fail, k - 1);
      OffersNext(c, fail, before, Ready(c, fail, k - 1), k - 1);
      ReadyStep(c, fail, k);
      CoolingMayNot(fail, Rotated(c, k - 1), c.now);
      turns := if MayRetry(fail, Rotated(c, k - 1), c.now) then before + [k - 1] else before;
    }
  }

  lemma NoneOffered(c: Search, fail: RetryTimes)
    requires ValidSearch(c)
    ensures OffersInOrder(c, fail, [], Ready(c, fail, 0), 0)
  {
  }

  lemma CoolingMayNot(fail: RetryTimes, ep: Endpoint, now: int)
    ensures Cooling(fail, ep, now) <==> !MayRetry(fail, ep, now)
  {
  }

  lemma OffersNext(c: Search, fail: RetryTimes, before: seq<nat>, ready: seq<Endpoint>, k: nat)
    requires ValidSearch(c) && OffersInOrder(c, fail, before, ready, k)
    ensures if MayRetry(fail, Rotated(c, k), c.now)
            then OffersInOrder(c, fail, before + [k], ready + [Rotated(c, k)], k + 1)
            else OffersInOrder(c, fail, before, ready, k + 1)
  {
    hide Rotated, KeyOf, MayRetry;
    assert k !in before;
    assert k in before + [k];
    forall i: nat | i < k ensures i in before + [k] <==> i in before {}
  }

  /**
    Only endpoints that may be attempted are, except for the fallback; and a search
    that fails has attempted every one of them.
   */
  lemma {:induction false} AttemptsMayRetry(c: Search, conn: Option<Endpoint>, fail: RetryTimes)
    requires ValidSearch(c) && Distinct(c.eps)
    ensures var p := Finish(c, conn, fail);
      && (forall i :: 0 <= i < |p.attempts| && p.attempts[i] != Fallback(c, fail) ==> MayRetry(fail, p.attempts[i], c.now))
      && (!p.done ==> forall i: nat :: i < |c.eps| && MayRetry(fail, Rotated(c, i), c.now) ==> Rotated(c, i) in p.attempts)
  {
    hide KeyOf, Index, Rotated, Turns, Ready, Soonest, MarkAll, FirstSuccess, Cooling, Finish, Fallback, MayRetry, OffersInOrder;
    var turns := ReadyMeaning(c, fail, |c.eps|);
    FailoverAsExpected(c, conn, fail);
    var p, ready := Finish(c, conn, fail), Ready(c, fail, |c.eps|);
    forall i | 0 <= i < |p.attempts| && p.attempts[i] != Fallback(c, fail) ensures MayRetry(fail, p.attempts[i], c.now) {
      assert p.attempts[i] in ready;
      OfferedMayRetry(c, fail, turns, ready, p.attempts[i]);
    }
    forall i: nat | i < |c.eps| && !p.done && MayRetry(fail, Rotated(c, i), c.now) ensures Rotated(c, i) in p.attempts {
      MayRetryOffered(c, fail, turns, ready, i);
    }
  }

  lemma OfferedMayRetry(c: Search, fail: RetryTimes, turns: seq<nat>, ready: seq<Endpoint>, ep: Endpoint)
    requires ValidSearch(c) && OffersInOrder(c, fail, turns, ready, |c.eps|) && ep in ready
    ensures MayRetry(fail, ep, c.now)
  {
    hide MayRetry, Rotated, KeyOf;
    var x :| 0 <= x < |ready| && ready[x] == ep;
    assert turns[x] in turns;
  }

  lemma MayRetryOffered(c: Search, fail: RetryTimes, turns: seq<nat>, ready: seq<Endpoint>, i: nat)
    requires ValidSearch(c) && OffersInOrder(c, fail, turns, ready, |c.eps|) && i < |c.eps| && MayRetry(fail, Rotated(c, i), c.now)
    ensures Rotated(c, i) in ready
  {
    hide MayRetry, Rotated, KeyOf;
    assert i in turns;
    var x :| 0 <= x < |turns| && turns[x] == i;
    assert ready[x] == Rotated(c, i);
  }
}
