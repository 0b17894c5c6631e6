/**
  The queue's high watermark and its alarm with hysteresis: warn at the threshold,
  recover only at half of it.
 */
module QueueAlarm {
  import opened Common

  datatype Notice = Watermark(size: nat) | Warning(size: nat) | Recovered(size: nat)

  /** The two fields the alarm keeps. */
  datatype Alarm = Alarm(highWatermark: nat, warnActive: bool)

  function Observe(threshold: nat, a: Alarm, size: nat): Alarm {
    var high := if size > a.highWatermark then size else a.highWatermark;
    if threshold == 0 then Alarm(high, a.warnActive)
    else if size >= threshold then Alarm(high, true)
    else if size <= threshold / 2 then Alarm(high, false)
    else Alarm(high, a.warnActive)
  }

  function Run(threshold: nat, sizes: seq<nat>): Alarm {
    if sizes == [] then Alarm(0, false)
    else Observe(threshold, Run(threshold, sizes[..|sizes| - 1]), sizes[|sizes| - 1])
  }

  class TaskQueueMonitor {
    const warnThreshold: nat
    var highWatermark: nat
    var warnActive: bool
    /** All sizes seen since the pool was started. */
    ghost var sizes: seq<nat>

    ghost predicate Valid()
      reads this
    {
      Alarm(highWatermark, warnActive) == Run(warnThreshold, sizes)
    }

    constructor (warnThreshold: nat)
      ensures Valid() && sizes == [] && this.warnThreshold == warnThreshold
    {
      this.warnThreshold := warnThreshold;
      highWatermark, warnActive, sizes := 0, false, [];
    }

    /** What is logged is a new maximum, and a change of the alarm. */
    method LogQueueMetricsLocked(size: nat) returns (notices: seq<Notice>)
      requires Valid()
      modifies this
      ensures Valid() && sizes == old(sizes) + [size]
      ensures Watermark(size) in notices <==> size > 0 && forall k :: 0 <= k < |old(sizes)| ==> old(sizes)[k] < size
      ensures Warning(size) in notices <==> WarnsAt(warnThreshold, sizes, |old(sizes)|)
      ensures Recovered(size) in notices <==> RecoversAt(warnThreshold, sizes, |old(sizes)|)
    {
      notices := [];
      WatermarkIsMax(warnThreshold, sizes);
      sizes := sizes + [size];
      assert sizes[..|old(sizes)|] == old(sizes) && sizes[..|sizes|] == sizes;
      if size > highWatermark {
        highWatermark := size;
        notices := [Watermark(size)];
      }
      if warnThreshold == 0 {
        return;
      }
      if size >= warnThreshold {
        if !warnActive {
          warnActive := true;
          notices := notices + [Warning(size)];
        }
        return;
      }
      var recoveryThreshold := warnThreshold / 2;
      if warnActive && size <= recoveryThreshold {
        warnActive := false;
        notices := notices + [Recovered(size)];
      }
    }
  }

  // ---------------------------------------------------------------- meaning

  /** Observation i switches the alarm on; off. */
  predicate WarnsAt(threshold: nat, sizes: seq<nat>, i: nat)
    requires i < |sizes|
  {
    !Run(threshold, sizes[..i]).warnActive && Run(threshold, sizes[..i + 1]).warnActive
  }

  predicate RecoversAt(threshold: nat, sizes: seq<nat>, i: nat)
    requires i < |sizes|
  {
    Run(threshold, sizes[..i]).warnActive && !Run(threshold, sizes[..i + 1]).warnActive
  }

  lemma RunNext(threshold: nat, sizes: seq<nat>, i: nat)
    requires i < |sizes|
    ensures Run(threshold, sizes[..i + 1]) == Observe(threshold, Run(threshold, sizes[..i]), sizes[i])
  {
    assert sizes[..i + 1][..i] == sizes[..i];
  }

  /** The watermark is the largest size seen, zero when there was none. */
  lemma {:induction false} WatermarkIsMax(threshold: nat, sizes: seq<nat>)
    ensures var high := Run(threshold, sizes).highWatermark;
      && (forall k :: 0 <= k < |sizes| ==> sizes[k] <= high)
      && (high == 0 || exists k :: 0 <= k < |sizes| && sizes[k] == high)
  {
    if sizes != [] {
      var front := sizes[..|sizes| - 1];
      WatermarkIsMax(threshold, front);
      forall k | 0 <= k < |sizes| ensures sizes[k] <= Run(threshold, sizes).highWatermark {
        assert k < |front| ==> sizes[k] == front[k];
      }
      if Run(threshold, sizes).highWatermark == Run(threshold, front).highWatermark > 0 {
        var k :| 0 <= k < |front| && front[k] == Run(threshold, front).highWatermark;
        assert sizes[k] == front[k];
      }
    }
  }

  /** A size at the threshold, with every later size above half of it. */
  predicate Stuck(threshold: nat, sizes: seq<nat>, j: nat) {
    j < |sizes| && sizes[j] >= threshold && forall k :: j < k < |sizes| ==> sizes[k] > threshold / 2
  }

  /** The alarm is on if and only if the queue reached the threshold and was never down to half of it since. */
  lemma {:induction false} ActiveMeaning(threshold: nat, sizes: seq<nat>)
    ensures Run(threshold, sizes).warnActive <==> threshold > 0 && exists j: nat :: Stuck(threshold, sizes, j)
  {
    if sizes != [] {
      var front, n := sizes[..|sizes| - 1], |sizes| - 1;
      ActiveMeaning(threshold, front);
      assert front + [sizes[n]] == sizes;
      if j: nat :| Stuck(threshold, sizes, j) {
        if j < n {
          assert forall k :: j < k < n ==> front[k] == sizes[k];
          assert Stuck(threshold, front, j);
        }
      }
      if threshold > 0 && sizes[n] >= threshold {
        assert Stuck(threshold, sizes, n);
      } else if j: nat :| Stuck(threshold, front, j) && sizes[n] > threshold / 2 {
        StuckNext(threshold, front, sizes[n], j);
      }
    }
  }

  lemma StuckNext(threshold: nat, sizes: seq<nat>, size: nat, j: nat)
    requires Stuck(threshold, sizes, j) && size > threshold / 2
    ensures Stuck(threshold, sizes + [size], j)
  {
  }

  /** Between two warnings there is a recovery, at a size of at most half the threshold; the warnings are at the threshold or above. */
  lemma {:induction false} RecoveryBetweenWarnings(threshold: nat, sizes: seq<nat>, i: nat, j: nat)
    requires i < j < |sizes| && WarnsAt(threshold, sizes, i) && WarnsAt(threshold, sizes, j)
    ensures threshold > 0 && sizes[i] >= threshold && sizes[j] >= threshold
    ensures exists k: nat :: i < k < j && RecoversAt(threshold, sizes, k) && sizes[k] <= threshold / 2
  {
    RunNext(threshold, sizes, i);
    RunNext(threshold, sizes, j);
    var k := SwitchOff(threshold, sizes, i + 1, j);
    RunNext(threshold, sizes, k);
  }

  /** Between two recoveries there is a warning. */
  lemma {:induction false} WarningBetweenRecoveries(threshold: nat, sizes: seq<nat>, i: nat, j: nat)
    requires i < j < |sizes| && RecoversAt(threshold, sizes, i) && RecoversAt(threshold, sizes, j)
    ensures exists k: nat :: i < k < j && WarnsAt(threshold, sizes, k)
  {
    var k := SwitchOn(threshold, sizes, i + 1, j);
  }

  /** A warning comes before every recovery. */
  lemma {:induction false} WarningFirst(threshold: nat, sizes: seq<nat>, j: nat)
    requires j < |sizes| && RecoversAt(threshold, sizes, j)
    ensures exists k: nat :: k < j && WarnsAt(threshold, sizes, k)
  {
    assert Run(threshold, sizes[..0]) == Alarm(0, false);
    var k := SwitchOn(threshold, sizes, 0, j);
  }

  lemma {:induction false} SwitchOff(threshold: nat, sizes: seq<nat>, i: nat, j: nat) returns (k: nat)
    requires i <= j < |sizes| && Run(threshold, sizes[..i]).warnActive && !Run(threshold, sizes[..j]).warnActive
    ensures i <= k < j && RecoversAt(threshold, sizes, k)
    decreases j
  {
    if Run(threshold, sizes[..j - 1]).warnActive {
      k := j - 1;
    } else {
      k := SwitchOff(threshold, sizes, i, j - 1);
    }
  }

  lemma {:induction false} SwitchOn(threshold: nat, sizes: seq<nat>, i: nat, j: nat) returns (k: nat)
    requires i <= j < |sizes| && !Run(threshold, sizes[..i]).warnActive && Run(threshold, sizes[..j]).warnActive
    ensures i <= k < j && WarnsAt(threshold, sizes, k)
    decreases j
  {
    if !Run(threshold, sizes[..j - 1]).warnActive {
      k := j - 1;
    } else {
      k := SwitchOn(threshold, sizes, i, j - 1);
    }
  }
}
