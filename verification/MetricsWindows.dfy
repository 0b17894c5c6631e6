/**
  The metrics aggregator: samples fall into windows that are flushed by the clock
  or reset by a snapshot, and each window reports counts and percentiles. The
  index of a percentile is computed exactly, where the code uses doubles.
 */
module MetricsWindows {
  import opened Common

  const NS_PER_MS := 1_000_000

  datatype Stats = Stats(windowMs: int, success: nat, fail: nat, p50: int, p95: int, p99: int, min: int, max: int)

  // ---------------------------------------------------------------- order statistics

  ghost predicate Ascending(s: seq<int>) {
    forall i, j :: 0 <= i < j < |s| ==> s[i] <= s[j]
  }

  function Insert(x: int, s: seq<int>): seq<int> {
    if s == [] || x <= s[0] then [x] + s else [s[0]] + Insert(x, s[1..])
  }

  /** What std::sort leaves in place of s. */
  function Sort(s: seq<int>): seq<int> {
    if s == [] then [] else Insert(s[0], Sort(s[1..]))
  }

  lemma {:induction false} InsertKeeps(x: int, s: seq<int>)
    ensures multiset(Insert(x, s)) == multiset(s) + multiset{x} && |Insert(x, s)| == |s| + 1
  {
    if s != [] && x > s[0] {
      InsertKeeps(x, s[1..]);
      assert s == [s[0]] + s[1..];
    }
  }

  /** Sorting loses no sample and invents none. */
  lemma {:induction false} SortKeeps(s: seq<int>)
    ensures multiset(Sort(s)) == multiset(s) && |Sort(s)| == |s|
  {
    if s != [] {
      SortKeeps(s[1..]);
      InsertKeeps(s[0], Sort(s[1..]));
      assert s == [s[0]] + s[1..];
    }
  }

  lemma {:induction false} InsertAscending(x: int, s: seq<int>)
    requires Ascending(s)
    ensures Ascending(Insert(x, s))
    ensures s != [] ==> Insert(x, s)[0] == if x <= s[0] then x else s[0]
  {
    if s != [] && x > s[0] {
      InsertAscending(x, s[1..]);
      var rest := Insert(x, s[1..]);
      assert s[0] <= rest[0];
    }
  }

  lemma {:induction false} SortAscending(s: seq<int>)
    ensures Ascending(Sort(s))
  {
    if s != [] {
      SortAscending(s[1..]);
      InsertAscending(s[0], Sort(s[1..]));
    }
  }

  /** How many samples are at most v; how many are below it. */
  function AtMost(s: seq<int>, v: int): nat {
    if s == [] then 0 else AtMost(s[1..], v) + if s[0] <= v then 1 else 0
  }

  function Below(s: seq<int>, v: int): nat {
    if s == [] then 0 else Below(s[1..], v) + if s[0] < v then 1 else 0
  }

  lemma {:induction false} CountInsert(x: int, s: seq<int>, v: int)
    ensures AtMost(Insert(x, s), v) == AtMost(s, v) + if x <= v then 1 else 0
    ensures Below(Insert(x, s), v) == Below(s, v) + if x < v then 1 else 0
  {
    if s != [] && x > s[0] {
      CountInsert(x, s[1..], v);
      assert ([s[0]] + Insert(x, s[1..]))[1..] == Insert(x, s[1..]);
    } else {
      assert ([x] + s)[1..] == s;
    }
  }

  lemma {:induction false} CountSort(s: seq<int>, v: int)
    ensures AtMost(Sort(s), v) == AtMost(s, v) && Below(Sort(s), v) == Below(s, v)
  {
    if s != [] {
      CountSort(s[1..], v);
      CountInsert(s[0], Sort(s[1..]), v);
    }
  }

  lemma {:induction false} RankInAscending(s: seq<int>, k: nat)
    requires Ascending(s) && k < |s|
    ensures Below(s, s[k]) <= k < AtMost(s, s[k])
  {
    if k > 0 {
      assert Ascending(s[1..]) && s[1..][k - 1] == s[k];
      RankInAscending(s[1..], k - 1);
    } else {
      NoneBelow(s, s[0]);
    }
  }

  lemma {:induction false} NoneBelow(s: seq<int>, v: int)
    requires forall i :: 0 <= i < |s| ==> v <= s[i]
    ensures Below(s, v) == 0
  {
    if s != [] { NoneBelow(s[1..], v); }
  }

  /** round(p * n / 100), halves up. */
  function Rank(p: nat, n: nat): nat {
    (p * n + 50) / 100
  }

  /** The reporting function applied to sorted samples; the index is unsigned, so a rank of zero would wrap to the last. */
  function Percentile(sorted: seq<int>, p: nat): int {
    if sorted == [] then 0
    else if Rank(p, |sorted|) == 0 then sorted[|sorted| - 1]
    else sorted[if Rank(p, |sorted|) - 1 < |sorted| - 1 then Rank(p, |sorted|) - 1 else |sorted| - 1]
  }

  /** For p from 50 to 100 the percentile of n > 0 samples is the Rank(p, n)-th smallest. */
  lemma PercentileMeaning(s: seq<int>, p: nat)
    requires s != [] && 50 <= p <= 100
    ensures var v := Percentile(Sort(s), p);
      v in s && Below(s, v) < Rank(p, |s|) <= AtMost(s, v)
  {
    var sorted := Sort(s);
    SortKeeps(s);
    SortAscending(s);
    var k := PercentileIndex(sorted, p);
    RankInAscending(sorted, k);
    CountSort(s, sorted[k]);
    assert sorted[k] in multiset(sorted);
  }

  lemma PercentileIndex(sorted: seq<int>, p: nat) returns (k: nat)
    requires sorted != [] && 50 <= p <= 100
    ensures k < |sorted| && k + 1 == Rank(p, |sorted|) && Percentile(sorted, p) == sorted[k]
  {
    RankBounds(p, |sorted|);
    k := Rank(p, |sorted|) - 1;
  }

  lemma RankBounds(p: nat, n: nat)
    requires 50 <= p <= 100 && n > 0
    ensures 1 <= Rank(p, n) <= n
  {
    NonNegative(p - 50, n);
    NonNegative(100 - p, n);
    assert 50 * n <= p * n <= 100 * n;
  }

  lemma RankMonotone(p: nat, q: nat, n: nat)
    requires p <= q
    ensures Rank(p, n) <= Rank(q, n)
  {
    NonNegative(q - p, n);
    assert p * n <= q * n;
  }

  function StatsOf(elapsedMs: int, success: nat, fail: nat, sorted: seq<int>): Stats {
    Stats(elapsedMs, success, fail, Percentile(sorted, 50), Percentile(sorted, 95), Percentile(sorted, 99),
          if sorted == [] then 0 else sorted[0], if sorted == [] then 0 else sorted[|sorted| - 1])
  }

  /** v is the p-th percentile of the samples: of rank round(p * n / 100), halves up, among them. */
  ghost predicate IsPercentile(s: seq<int>, p: nat, v: int) {
    v in s && Below(s, v) < (p * |s| + 50) / 100 <= AtMost(s, v)
  }

  /**
    The report on a window of that many nanoseconds with these samples: its length
    in whole milliseconds, its counts, and its percentiles and extremes in order.
   */
  ghost predicate Describes(r: Stats, nanoseconds: int, success: nat, fail: nat, s: seq<int>) {
    && r.windowMs * NS_PER_MS <= nanoseconds < (r.windowMs + 1) * NS_PER_MS
    && r.success == success && r.fail == fail
    && IsPercentile(s, 50, r.p50) && IsPercentile(s, 95, r.p95) && IsPercentile(s, 99, r.p99)
    && r.min <= r.p50 <= r.p95 <= r.p99 <= r.max
    && r.min in s && r.max in s && forall v :: v in s ==> r.min <= v <= r.max
  }

  /** What is computed from the sorted samples describes the window. */
  lemma StatsDescribe(nanoseconds: int, success: nat, fail: nat, s: seq<int>)
    requires s != []
    ensures Describes(StatsOf(ElapsedMs(nanoseconds), success, fail, Sort(s)), nanoseconds, success, fail, s)
  {
    PercentileMeaning(s, 50);
    PercentileMeaning(s, 95);
    PercentileMeaning(s, 99);
    StatsOrdered(ElapsedMs(nanoseconds), success, fail, s);
    hide Percentile, Sort, Below, AtMost;
  }

  /** What is reported is ordered, and its ends are the extreme samples. */
  lemma StatsOrdered(elapsedMs: int, success: nat, fail: nat, s: seq<int>)
    requires s != []
    ensures var r := StatsOf(elapsedMs, success, fail, Sort(s));
      && r.min <= r.p50 <= r.p95 <= r.p99 <= r.max
      && r.min in s && r.max in s && forall v :: v in s ==> r.min <= v <= r.max
  {
    var sorted := Sort(s);
    SortKeeps(s);
    SortAscending(s);
    hide Percentile, Rank, Sort;
    PercentilesOrdered(sorted);
    SameElements(s, sorted);
  }

  lemma PercentilesOrdered(sorted: seq<int>)
    requires sorted != [] && Ascending(sorted)
    ensures sorted[0] <= Percentile(sorted, 50) <= Percentile(sorted, 95) <= Percentile(sorted, 99) <= sorted[|sorted| - 1]
  {
    var i := PercentileIndex(sorted, 50);
    var j := PercentileIndex(sorted, 95);
    var k := PercentileIndex(sorted, 99);
    RankMonotone(50, 95, |sorted|);
    RankMonotone(95, 99, |sorted|);
    hide Percentile, Rank;
  }

  lemma SameElements(s: seq<int>, t: seq<int>)
    requires multiset(s) == multiset(t)
    ensures forall v :: v in s <==> v in t
  {
    forall v ensures v in s <==> v in t {
      assert v in s <==> v in multiset(s);
      assert v in t <==> v in multiset(t);
    }
  }

  // ---------------------------------------------------------------- windows

  datatype Window = Window(costs: multiset<int>, success: nat, fail: nat)

  /** duration_cast to milliseconds of a duration that is not negative. */
  function ElapsedMs(nanoseconds: int): int {
    nanoseconds / NS_PER_MS
  }

  function AllCosts(windows: seq<Window>): multiset<int> {
    if windows == [] then multiset{} else AllCosts(windows[..|windows| - 1]) + windows[|windows| - 1].costs
  }

  class MetricsAggregator {
    var success: nat
    var fail: nat
    var samples: seq<int>
    var lastFlush: int
    var flushIntervalMs: nat
    /** Every cost ever added, and the windows already flushed or reset. */
    ghost var added: multiset<int>
    ghost var windows: seq<Window>

    ghost predicate Valid()
      reads this
    {
      && flushIntervalMs >= 100
      && |samples| == success + fail
      && added == AllCosts(windows) + multiset(samples)
      && forall i :: 0 <= i < |windows| ==> |windows[i].costs| == windows[i].success + windows[i].fail
    }

    constructor (now: int)
      ensures Valid() && windows == [] && added == multiset{} && lastFlush == now && samples == []
    {
      success, fail, samples, lastFlush, flushIntervalMs := 0, 0, [], now, 10000;
      added, windows := multiset{}, [];
    }

    /** A window length under 100 ms is raised to it. */
    method SetWindowMs(ms: int)
      requires Valid()
      modifies this`flushIntervalMs
      ensures Valid() && flushIntervalMs >= ms && (flushIntervalMs == ms || (flushIntervalMs == 100 && ms < 100))
    {
      flushIntervalMs := if ms < 100 then 100 else ms;
    }

    /** The samples are sorted in place, which keeps them as a multiset. */
    method PrepareStatsUnlocked(elapsedMs: int) returns (out: Stats)
      requires Valid()
      modifies this`samples
      ensures Valid() && samples == Sort(old(samples)) && multiset(samples) == multiset(old(samples))
      ensures out == StatsOf(elapsedMs, success, fail, Sort(old(samples)))
    {
      SortKeeps(samples);
      samples := Sort(samples);
      out := Stats(elapsedMs, success, fail, Percentile(samples, 50), Percentile(samples, 95), Percentile(samples, 99),
                   if samples == [] then 0 else samples[0], if samples == [] then 0 else samples[|samples| - 1]);
    }

    /** The current window becomes a closed one and an empty one starts. */
    method CloseWindow(now: int)
      requires Valid()
      modifies this`success, this`fail, this`samples, this`lastFlush, this`added, this`windows
      ensures Valid() && samples == [] && lastFlush == now && added == old(added)
      ensures windows == old(windows) + [Window(multiset(old(samples)), old(success), old(fail))]
    {
      assert (windows + [Window(multiset(samples), success, fail)])[..|windows|] == windows;
      windows := windows + [Window(multiset(samples), success, fail)];
      success, fail := 0, 0;
      samples := [];
      lastFlush := now;
    }

    method FlushLocked(now: int) returns (logged: Option<Stats>)
      requires Valid() && now >= lastFlush
      modifies this`success, this`fail, this`samples, this`lastFlush, this`added, this`windows
      ensures Valid() && added == old(added)
      ensures logged.Some? <==> now - old(lastFlush) >= NS_PER_MS && old(samples) != []
      ensures logged.Some? ==>
        && Describes(logged.value, now - old(lastFlush), old(success), old(fail), old(samples))
        && windows == old(windows) + [Window(multiset(old(samples)), old(success), old(fail))] && lastFlush == now
      ensures logged.None? ==> samples == old(samples) && windows == old(windows)
    {
      hide Sort, StatsOf, AllCosts, Describes;
      var elapsed := ElapsedMs(now - lastFlush);
      if elapsed <= 0 {
        return None;
      }
      if success + fail == 0 {
        lastFlush := now;
        return None;
      }
      StatsDescribe(now - lastFlush, success, fail, samples);
      var snapshot := PrepareStatsUnlocked(elapsed);
      CloseWindow(now);
      logged := Some(snapshot);
    }

    method Count(ok: bool, costMs: int)
      requires Valid()
      modifies this`success, this`fail, this`samples, this`added
      ensures Valid() && added == old(added) + multiset{costMs}
      ensures samples == old(samples) + [costMs] && multiset(samples) == multiset(old(samples)) + multiset{costMs}
      ensures success == old(success) + (if ok then 1 else 0) && fail == old(fail) + (if ok then 0 else 1)
    {
      hide AllCosts;
      if ok {
        success := success + 1;
      } else {
        fail := fail + 1;
      }
      samples := samples + [costMs];
      added := added + multiset{costMs};
    }

    /** The new sample goes into the current window, which is closed with it when the interval is over. */
    method AddSample(ok: bool, costMs: int, now: int) returns (logged: Option<Stats>)
      requires Valid() && now >= lastFlush
      modifies this`success, this`fail, this`samples, this`lastFlush, this`added, this`windows
      ensures Valid() && added == old(added) + multiset{costMs}
      ensures logged.Some? <==> now - old(lastFlush) >= flushIntervalMs * NS_PER_MS
      ensures logged.None? ==> windows == old(windows) && samples == old(samples) + [costMs]
      ensures logged.Some? ==> windows == old(windows) + [Window(multiset(old(samples)) + multiset{costMs},
        old(success) + (if ok then 1 else 0), old(fail) + if ok then 0 else 1)]
      ensures logged.Some? ==> Describes(logged.value, now - old(lastFlush),
        old(success) + (if ok then 1 else 0), old(fail) + (if ok then 0 else 1), old(samples) + [costMs])
    {
      hide Sort, StatsOf, AllCosts, ElapsedMs, Describes;
      Count(ok, costMs);
      logged := None;
      if now - lastFlush >= flushIntervalMs * NS_PER_MS {
        LongEnough(now - lastFlush, flushIntervalMs);
        logged := FlushLocked(now);
      }
    }

    /** A snapshot of an empty window, or within a millisecond of its start, says nothing; a reset closes the window. */
    method Snapshot(reset: bool, now: int) returns (out: Option<Stats>)
      requires Valid() && now >= lastFlush
      modifies this`success, this`fail, this`samples, this`lastFlush, this`added, this`windows
      ensures Valid() && added == old(added)
      ensures out.Some? <==> old(samples) != [] && now - old(lastFlush) >= NS_PER_MS
      ensures out.Some? ==> Describes(out.value, now - old(lastFlush), old(success), old(fail), old(samples))
      ensures windows == if out.Some? && reset
        then old(windows) + [Window(multiset(old(samples)), old(success), old(fail))] else old(windows)
    {
      hide Sort, StatsOf, AllCosts, Describes;
      var elapsed := ElapsedMs(now - lastFlush);
      if success + fail == 0 || elapsed <= 0 {
        return None;
      }
      StatsDescribe(now - lastFlush, success, fail, samples);
      var stats := PrepareStatsUnlocked(elapsed);
      out := Some(stats);
      if reset {
        CloseWindow(now);
      }
    }
  }

  lemma LongEnough(d: int, intervalMs: nat)
    requires d >= intervalMs * NS_PER_MS && intervalMs >= 100
    ensures ElapsedMs(d) > 0
  {
  }
}
