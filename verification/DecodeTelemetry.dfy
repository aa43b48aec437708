/** Decoder timings: one bounded window per engine, and an accumulator that carries totals and
    one window across engine rebuilds. */
module DecodeTelemetry {
  import opened Sorting

  /** The last `limit` items, or all of them. */
  function TakeLast<T>(s: seq<T>, limit: nat): (t: seq<T>)
    ensures |t| == if |s| < limit then |s| else limit
  {
    if |s| <= limit then s else s[|s| - limit..]
  }

  lemma TakeLastIsEnd<T>(s: seq<T>, limit: nat)
    ensures var t := TakeLast(s, limit); s == s[..|s| - |t|] + t
  {
  }

  function Sum(s: seq<nat>): nat {
    if s == [] then 0 else Sum(s[..|s| - 1]) + s[|s| - 1]
  }

  function Max(s: seq<nat>): nat {
    if s == [] then 0 else Larger(Max(s[..|s| - 1]), s[|s| - 1])
  }

  function Larger(a: nat, b: nat): nat {
    if a < b then b else a
  }

  lemma {:induction false} SumConcat(a: seq<nat>, b: seq<nat>)
    ensures Sum(a + b) == Sum(a) + Sum(b)
  {
    if b == [] {
      assert a + b == a;
    } else {
      SumConcat(a, b[..|b| - 1]);
      assert (a + b)[..|a + b| - 1] == a + b[..|b| - 1];
    }
  }

  lemma {:induction false} MaxConcat(a: seq<nat>, b: seq<nat>)
    ensures Max(a + b) == Larger(Max(a), Max(b))
  {
    if b == [] {
      assert a + b == a;
    } else {
      MaxConcat(a, b[..|b| - 1]);
      assert (a + b)[..|a + b| - 1] == a + b[..|b| - 1];
    }
  }

  lemma Singleton(x: nat)
    ensures Sum([x]) == x && Max([x]) == x
  {
  }

  /** Max is the greatest element. */
  lemma {:induction false} MaxIsGreatest(s: seq<nat>, i: nat)
    requires i < |s|
    ensures s[i] <= Max(s) && Max(s) in s
  {
    var last := |s| - 1;
    if last > 0 {
      MaxIsGreatest(s[..last], if i < last then i else 0);
    }
  }

  lemma {:induction false} SumBounded(s: seq<nat>, m: nat)
    requires Max(s) <= m
    ensures Sum(s) <= |s| * m
  {
    if s != [] {
      SumBounded(s[..|s| - 1], m);
      OneMoreTime(|s| - 1, m);
    }
  }

  lemma OneMoreTime(n: nat, m: nat)
    ensures (n + 1) * m == n * m + m
  {
  }

  /** A full deque loses its first sample before the next is added. */
  method PushSample(window: seq<nat>, limit: nat, sample: nat, ghost all: seq<nat>) returns (next: seq<nat>)
    requires limit > 0 && window == TakeLast(all, limit)
    ensures next == TakeLast(all + [sample], limit)
  {
    next := if |window| == limit then window[1..] else window;
    next := next + [sample];
  }

  /** Windows compose as long as the inner one is not the smaller. */
  lemma WindowsCompose<T>(a: seq<T>, b: seq<T>, inner: nat, outer: nat)
    requires inner >= outer
    ensures TakeLast(TakeLast(a, outer) + TakeLast(b, inner), outer) == TakeLast(a + b, outer)
  {
    var left, right := TakeLast(TakeLast(a, outer) + TakeLast(b, inner), outer), TakeLast(a + b, outer);
    assert |left| == |right|;
    forall i | 0 <= i < |left| ensures left[i] == right[i] {
    }
  }

  const ASCEND := (a: nat, b: nat) => a <= b

  function Sorted(s: seq<nat>): seq<nat> {
    SortBy(s, ASCEND)
  }

  lemma SortedSorts(s: seq<nat>)
    ensures var t := Sorted(s); multiset(t) == multiset(s) && |t| == |s|
    ensures var t := Sorted(s); forall i, j :: 0 <= i < j < |t| ==> t[i] <= t[j]
  {
    SortBySorts(s, ASCEND);
    var t := Sorted(s);
    assert forall i, j :: 0 <= i < j < |t| ==> ASCEND(t[i], t[j]);
  }

  /** sorted[coerce(truncate(size * p) - 1)], 0 when there is nothing. */
  function Percentile(sorted: seq<nat>, p: real): nat
    requires 0.0 <= p <= 1.0
  {
    if sorted == [] then 0
    else
      var truncated := (|sorted| as real * p).Floor;
      ProductInRange(|sorted| as real, p);
      sorted[if truncated >= 1 then truncated - 1 else 0]
  }

  /** The position of a percentile among n sorted durations, counted from one. */
  function Rank(n: nat, p: real): int {
    var floor := (n as real * p).Floor;
    if floor >= 1 then floor else 1
  }

  lemma PercentileIsAtRank(sorted: seq<nat>, p: real)
    requires sorted != [] && 0.0 <= p <= 1.0
    ensures 0 < Rank(|sorted|, p) <= |sorted| && Percentile(sorted, p) == sorted[Rank(|sorted|, p) - 1]
  {
    ProductInRange(|sorted| as real, p);
  }

  lemma RankIsFloor(n: nat, p: real)
    ensures var floor := (n as real * p).Floor; Rank(n, p) == if floor >= 1 then floor else 1
  {
  }

  /** What a percentile means for an unsorted window: its durations split into as many as its rank that
      are at most the reported one, itself among them, and the rest, which are at least as long. */
  lemma PercentileRanks(window: seq<nat>, p: real) returns (low: seq<nat>, high: seq<nat>)
    requires window != [] && 0.0 <= p <= 1.0
    ensures multiset(window) == multiset(low) + multiset(high)
    ensures var floor := (|window| as real * p).Floor; |low| == if floor >= 1 then floor else 1
    ensures var reported := Percentile(Sorted(window), p);
            reported in low && (forall x <- low :: x <= reported) && (forall x <- high :: x >= reported)
  {
    SortedSorts(window);
    hide Sorted, Percentile, Rank;
    var sorted := Sorted(window);
    PercentileIsAtRank(sorted, p);
    RankIsFloor(|sorted|, p);
    var k: nat := Rank(|sorted|, p);
    low, high := sorted[..k], sorted[k..];
    assert sorted == low + high;
    Splits(sorted, k);
  }

  lemma Splits(sorted: seq<nat>, k: nat)
    requires 0 < k <= |sorted| && forall i, j :: 0 <= i < j < |sorted| ==> sorted[i] <= sorted[j]
    ensures var x := sorted[k - 1];
            x in sorted[..k] && (forall y <- sorted[..k] :: y <= x) && (forall y <- sorted[k..] :: y >= x)
  {
    assert sorted[..k][k - 1] == sorted[k - 1];
    forall y <- sorted[..k] ensures y <= sorted[k - 1] {
      var i :| 0 <= i < k && sorted[i] == y;
    }
    forall y <- sorted[k..] ensures y >= sorted[k - 1] {
      var i :| 0 <= i < |sorted| - k && sorted[k..][i] == y;
      assert sorted[k + i] == y;
    }
  }

  lemma NoWindowNoPercentile(p: real)
    requires 0.0 <= p <= 1.0
    ensures Percentile(Sorted([]), p) == 0
  {
  }

  lemma ProductInRange(n: real, p: real)
    requires n >= 0.0 && 0.0 <= p <= 1.0
    ensures 0.0 <= n * p <= n
  {
  }

  lemma ProductMonotone(n: real, p: real, q: real)
    requires n >= 0.0 && p <= q
    ensures n * p <= n * q
  {
  }

  datatype Stats = Stats(calls: nat, total: nat, mean: nat, p50: nat, p95: nat, max: nat, samples: seq<nat>)

  lemma TakeAll<T>(s: seq<T>, limit: nat)
    requires |s| <= limit
    ensures TakeLast(s, limit) == s
  {
  }

  /** The figures an engine hands over. */
  ghost predicate Describes(stats: Stats, history: seq<nat>, limit: nat) {
    && stats.calls == |history| && stats.total == Sum(history) && stats.max == Max(history)
    && stats.samples == TakeLast(history, limit)
  }

  /** What the numbers say about a history of durations. */
  ghost predicate Summarises(stats: Stats, history: seq<nat>, window: seq<nat>) {
    && stats.calls == |history| && stats.total == Sum(history) && stats.max == Max(history)
    && stats.mean == (if history == [] then 0 else Sum(history) / |history|)
    && stats.p50 == Percentile(Sorted(window), 0.50) && stats.p95 == Percentile(Sorted(window), 0.95)
    && stats.p50 <= stats.p95 <= stats.max && stats.mean <= stats.max
  }

  lemma PercentilesOrdered(window: seq<nat>, history: seq<nat>)
    requires forall x :: x in window ==> x in history
    ensures Percentile(Sorted(window), 0.50) <= Percentile(Sorted(window), 0.95) <= Max(history)
  {
    SortedSorts(window);
    var sorted := Sorted(window);
    if sorted != [] {
      var n := |sorted| as real;
      ProductMonotone(n, 0.50, 0.95);
      ProductInRange(n, 0.50);
      ProductInRange(n, 0.95);
      var at := (n * 0.95).Floor;
      var high := sorted[if at >= 1 then at - 1 else 0];
      assert high in multiset(sorted);
      assert high in window;
      var k :| 0 <= k < |history| && history[k] == high;
      MaxIsGreatest(history, k);
    }
  }

  lemma MeanBounded(history: seq<nat>)
    ensures (if history == [] then 0 else Sum(history) / |history|) <= Max(history)
  {
    if history != [] {
      SumBounded(history, Max(history));
      QuotientBounded(Sum(history), |history|, Max(history));
    }
  }

  lemma WindowIsPart(history: seq<nat>, limit: nat)
    ensures forall x :: x in TakeLast(history, limit) ==> x in history
  {
  }

  lemma QuotientBounded(a: nat, n: nat, m: nat)
    requires n > 0 && a <= n * m
    ensures a / n <= m
  {
  }

  class DecodeTelemetry {
    const sampleLimit: nat
    var samples: seq<nat>
    var calls: nat
    var totalNanos: nat
    var maxNanos: nat
    ghost var history: seq<nat>

    ghost predicate Valid()
      reads this
    {
      && sampleLimit > 0 && samples == TakeLast(history, sampleLimit)
      && calls == |history| && totalNanos == Sum(history) && maxNanos == Max(history)
    }

    constructor (sampleLimit: nat)
      requires sampleLimit > 0
      ensures Valid() && history == [] && this.sampleLimit == sampleLimit
    {
      this.sampleLimit := sampleLimit;
      samples, calls, totalNanos, maxNanos, history := [], 0, 0, 0, [];
    }

    /** Negative durations count as zero. */
    method Record(durationNs: int)
      requires Valid()
      modifies this
      ensures Valid() && history == old(history) + [if durationNs < 0 then 0 else durationNs]
    {
      var sample := if durationNs < 0 then 0 else durationNs;
      hide Sum, Max, TakeLast;
      calls := calls + 1;
      totalNanos := totalNanos + sample;
      maxNanos := Larger(maxNanos, sample);
      samples := PushSample(samples, sampleLimit, sample, history);
      SumConcat(history, [sample]);
      MaxConcat(history, [sample]);
      Singleton(sample);
      history := history + [sample];
    }

    method Snapshot() returns (stats: Stats)
      requires Valid()
      ensures Summarises(stats, history, samples) && Describes(stats, history, sampleLimit)
    {
      hide Sum, Max, TakeLast, Sorted, Percentile;
      var sorted := Sorted(samples);
      WindowIsPart(history, sampleLimit);
      PercentilesOrdered(samples, history);
      MeanBounded(history);
      stats := Stats(calls, totalNanos, if calls == 0 then 0 else totalNanos / calls,
                     Percentile(sorted, 0.50), Percentile(sorted, 0.95), maxNanos, samples);
    }
  }

  /** What one engine recorded in its life, and the size of its window. */
  datatype Engine = Engine(history: seq<nat>, limit: nat)

  function Everything(engines: seq<Engine>): seq<nat> {
    if engines == [] then [] else Everything(engines[..|engines| - 1]) + engines[|engines| - 1].history
  }

  /** What an accumulator with a window of `limit` can still know of a session: each engine hands
      over only its own window. */
  function Retained(engines: seq<Engine>, limit: nat): seq<nat> {
    if engines == [] then []
    else
      var last := engines[|engines| - 1];
      TakeLast(Retained(engines[..|engines| - 1], limit) + TakeLast(last.history, last.limit), limit)
  }

  lemma OneMoreEngine(engines: seq<Engine>, next: Engine, limit: nat)
    ensures Everything(engines + [next]) == Everything(engines) + next.history
    ensures Retained(engines + [next], limit)
            == TakeLast(Retained(engines, limit) + TakeLast(next.history, next.limit), limit)
  {
  }

  lemma {:induction false} RetainedIsPart(engines: seq<Engine>, limit: nat)
    ensures |Retained(engines, limit)| <= limit
    ensures forall x :: x in Retained(engines, limit) ==> x in Everything(engines)
  {
    if engines != [] {
      var before, last := engines[..|engines| - 1], engines[|engines| - 1];
      RetainedIsPart(before, limit);
      var own := TakeLast(last.history, last.limit);
      assert forall x :: x in own ==> x in last.history;
      assert forall x :: x in Retained(before, limit) + own ==> x in Everything(before) + last.history;
      WindowIsPart(Retained(before, limit) + own, limit);
    }
  }

  class DecodeStatsAccumulator {
    const sampleLimit: nat
    var retiredSamples: seq<nat>
    var retiredCalls: nat
    var retiredTotalNs: nat
    var retiredMaxNs: nat
    ghost var engines: seq<Engine>

    ghost predicate Valid()
      reads this
    {
      && sampleLimit > 0 && retiredSamples == Retained(engines, sampleLimit)
      && var session := Everything(engines);
         retiredCalls == |session| && retiredTotalNs == Sum(session) && retiredMaxNs == Max(session)
    }

    constructor (sampleLimit: nat)
      requires sampleLimit > 0
      ensures Valid() && engines == [] && this.sampleLimit == sampleLimit
    {
      this.sampleLimit := sampleLimit;
      retiredSamples, retiredCalls, retiredTotalNs, retiredMaxNs, engines := [], 0, 0, 0, [];
    }

    /** Takes over an engine's figures. */
    method Retire(stats: Stats, ghost engine: Engine)
      requires Valid() && Describes(stats, engine.history, engine.limit)
      modifies this
      ensures Valid() && engines == old(engines) + [engine]
    {
      OneMoreEngine(engines, engine, sampleLimit);
      RetainedIsPart(engines, sampleLimit);
      SumConcat(Everything(engines), engine.history);
      MaxConcat(Everything(engines), engine.history);
      hide Sum, Max, TakeLast, Retained, Everything;
      retiredCalls := retiredCalls + stats.calls;
      retiredTotalNs := retiredTotalNs + stats.total;
      retiredMaxNs := Larger(retiredMaxNs, stats.max);
      retiredSamples := AddRetiredSamples(retiredSamples, stats.samples);
      engines := engines + [engine];
    }

    method AddRetiredSamples(retired: seq<nat>, samples: seq<nat>) returns (window: seq<nat>)
      requires sampleLimit > 0 && |retired| <= sampleLimit
      ensures window == TakeLast(retired + samples, sampleLimit)
    {
      TakeAll(retired, sampleLimit);
      hide TakeLast;
      window := retired;
      assert retired + samples[..0] == retired;
      for i := 0 to |samples|
        invariant window == TakeLast(retired + samples[..i], sampleLimit)
      {
        window := PushSample(window, sampleLimit, samples[i], retired + samples[..i]);
        assert retired + samples[..i + 1] == (retired + samples[..i]) + [samples[i]];
      }
      assert samples[..|samples|] == samples;
    }

    /** The session so far, an engine still active included. */
    method Snapshot(active: Stats, ghost engine: Engine) returns (stats: Stats)
      requires Valid() && Describes(active, engine.history, engine.limit)
      ensures Summarises(stats, Everything(engines + [engine]), Retained(engines + [engine], sampleLimit))
      ensures stats.samples == Sorted(Retained(engines + [engine], sampleLimit))
    {
      OneMoreEngine(engines, engine, sampleLimit);
      RetainedIsPart(engines + [engine], sampleLimit);
      SumConcat(Everything(engines), engine.history);
      MaxConcat(Everything(engines), engine.history);
      hide Sum, Max, TakeLast, Sorted, Percentile, Retained, Everything;
      ghost var all := Everything(engines + [engine]);
      var window := TakeLast(retiredSamples + active.samples, sampleLimit);
      var calls, total := retiredCalls + active.calls, retiredTotalNs + active.total;
      var sorted := Sorted(window);
      PercentilesOrdered(window, all);
      MeanBounded(all);
      stats := Stats(calls, total, if calls == 0 then 0 else total / calls,
                     Percentile(sorted, 0.50), Percentile(sorted, 0.95), Larger(retiredMaxNs, active.max), sorted);
    }
  }

  /** When no engine's window is smaller, the accumulator's is the end of the whole session. */
  lemma {:induction false} LargeWindowsRetain(engines: seq<Engine>, limit: nat)
    requires forall e :: e in engines ==> e.limit >= limit
    ensures Retained(engines, limit) == TakeLast(Everything(engines), limit)
  {
    if engines != [] {
      var before, last := engines[..|engines| - 1], engines[|engines| - 1];
      LargeWindowsRetain(before, limit);
      WindowsCompose(Everything(before), last.history, last.limit, limit);
    }
  }

  ghost predicate UseWindow(engines: seq<Engine>, limit: nat) {
    forall e :: e in engines ==> e.limit == limit
  }

  /** Over every interleaving of recordings and rebuilds, the accumulator's window is exactly the last
      `limit` durations of the session if and only if the engines' windows are at least that large. */
  lemma WindowExactIff(inner: nat, limit: nat)
    ensures inner >= limit <==>
            forall engines: seq<Engine> :: UseWindow(engines, inner) ==>
              Retained(engines, limit) == TakeLast(Everything(engines), limit)
  {
    if inner >= limit {
      forall engines: seq<Engine> | UseWindow(engines, inner)
        ensures Retained(engines, limit) == TakeLast(Everything(engines), limit)
      {
        LargeWindowsRetain(engines, limit);
      }
    } else {
      var engine := Engine(seq(limit, _ => 1), inner);
      OneMoreEngine([], engine, limit);
      assert UseWindow([] + [engine], inner);
      assert |Retained([] + [engine], limit)| == inner;
      assert |TakeLast(Everything([] + [engine]), limit)| == limit;
    }
  }
}
