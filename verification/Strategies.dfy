/** AdaptiveStrategy of internal/metrics/strategies.go: the moving averages, the grouping
    they lead to, and the group sizes.  Rates are reals, latencies int64 nanoseconds whose
    sum wraps. */
module AdaptiveScraping {
  import opened Helpers
  import opened Identifiers

  datatype Performance = Performance(averageLatency: int, errorRate: real, consecutiveErrors: nat, lastSuccess: int)

  /** The zero time.Time in nanoseconds, 1 January of year 1. */
  const ZERO_TIME := -62135596800 * 1_000_000_000

  const UNSEEN := Performance(0, 0.0, 0, ZERO_TIME)

  /** How long a collection took, whether it failed and when it was over. */
  datatype Outcome = Outcome(latency: nat, failed: bool, at: int)

  datatype Group = High | Medium | Low

  const FAST_LATENCY := 100_000_000

  function Update(f: Performance, o: Outcome): Performance {
    var latency := Quotient(Wrap(f.averageLatency + o.latency), 2);
    if o.failed then Performance(latency, f.errorRate * 0.9 + 0.1, f.consecutiveErrors + 1, f.lastSuccess)
    else Performance(latency, f.errorRate * 0.9, 0, o.at)
  }

  function Category(f: Performance, loadThreshold: real): Group {
    if f.consecutiveErrors > 3 || f.errorRate > loadThreshold then Low
    else if f.averageLatency < FAST_LATENCY && f.errorRate < 0.1 then High
    else Medium
  }

  function CategoryOf(hist: map<DeviceId, Performance>, id: DeviceId, loadThreshold: real): Group {
    if id in hist then Category(hist[id], loadThreshold) else Medium
  }

  /** The positions of `devices` that belong to group `g`, in order. */
  function Members(devices: seq<DeviceId>, hist: map<DeviceId, Performance>, loadThreshold: real, g: Group): seq<nat> {
    if devices == [] then []
    else
      var n := |devices| - 1;
      var before := Members(devices[..n], hist, loadThreshold, g);
      if CategoryOf(hist, devices[n], loadThreshold) == g then before + [n] else before
  }

  class AdaptiveStrategy {
    const maxConcurrency: int
    const loadThreshold: real
    var performanceHist: map<DeviceId, Performance>

    constructor (maxConcurrency: int, loadThreshold: real)
      ensures performanceHist == map[] && this.maxConcurrency == maxConcurrency && this.loadThreshold == loadThreshold
    {
      this.maxConcurrency, this.loadThreshold, performanceHist := maxConcurrency, loadThreshold, map[];
    }

    method UpdatePerformanceHistory(id: DeviceId, o: Outcome)
      modifies this`performanceHist
      ensures performanceHist == old(performanceHist)[id :=
        Update(if id in old(performanceHist) then old(performanceHist)[id] else UNSEEN, o)]
    {
      if id !in performanceHist {
        performanceHist := performanceHist[id := Performance(0, 0.0, 0, ZERO_TIME)];
      }
      var perf := performanceHist[id];
      perf := perf.(averageLatency := Quotient(Wrap(perf.averageLatency + o.latency), 2));
      if o.failed {
        perf := perf.(consecutiveErrors := perf.consecutiveErrors + 1);
        perf := perf.(errorRate := perf.errorRate * 0.9 + 1.0 * 0.1);
      } else {
        perf := perf.(consecutiveErrors := 0, lastSuccess := o.at);
        perf := perf.(errorRate := perf.errorRate * 0.9);
      }
      performanceHist := performanceHist[id := perf];
    }

    method CategorizeDevices(devices: seq<DeviceId>) returns (groups: map<Group, seq<nat>>)
      ensures groups.Keys == {High, Medium, Low}
      ensures forall g | g in groups :: groups[g] == Members(devices, performanceHist, loadThreshold, g)
      ensures forall g, j, k | g in groups && 0 <= j < k < |groups[g]| :: groups[g][j] < groups[g][k] < |devices|
      ensures forall i: nat | i < |devices| ::
        var id := devices[i];
        var failing := id in performanceHist &&
          (performanceHist[id].consecutiveErrors > 3 || performanceHist[id].errorRate > loadThreshold);
        var fast := id in performanceHist &&
          performanceHist[id].averageLatency < 100_000_000 && performanceHist[id].errorRate < 0.1;
        && (i in groups[Low] <==> failing)
        && (i in groups[High] <==> !failing && fast)
        && (i in groups[Medium] <==> !failing && !fast)
    {
      groups := map[High := [], Medium := [], Low := []];
      for i := 0 to |devices|
        invariant groups.Keys == {High, Medium, Low}
        invariant forall g | g in groups :: groups[g] == Members(devices[..i], performanceHist, loadThreshold, g)
      {
        var g := Medium;
        if devices[i] in performanceHist {
          var perf := performanceHist[devices[i]];
          if perf.consecutiveErrors > 3 || perf.errorRate > loadThreshold {
            g := Low;
          } else if perf.averageLatency < FAST_LATENCY && perf.errorRate < 0.1 {
            g := High;
          }
        }
        groups := groups[g := groups[g] + [i]];
        assert devices[..i+1][..i] == devices[..i];
      }
      assert devices[..|devices|] == devices;
      MembersArePositions(devices, performanceHist, loadThreshold, High);
      MembersArePositions(devices, performanceHist, loadThreshold, Medium);
      MembersArePositions(devices, performanceHist, loadThreshold, Low);
    }
  }

  /** calculateConcurrency; Go's division truncates and maxConcurrency is positive. */
  function Concurrency(maxConcurrency: nat, g: Group): nat {
    match g
    case High => maxConcurrency
    case Medium => maxConcurrency / 2
    case Low => 1
  }

  /** The groups partition the input: every group lists, in increasing order and without
      repetition, exactly the positions of its devices. */
  lemma {:induction false} MembersArePositions(devices: seq<DeviceId>, hist: map<DeviceId, Performance>, thr: real, g: Group)
    ensures var m := Members(devices, hist, thr, g);
      && (forall j | 0 <= j < |m| :: m[j] < |devices|)
      && (forall j, k | 0 <= j < k < |m| :: m[j] < m[k])
      && (forall i: nat | i < |devices| :: i in m <==> CategoryOf(hist, devices[i], thr) == g)
  {
    if devices != [] {
      var n := |devices| - 1;
      MembersArePositions(devices[..n], hist, thr, g);
      var before := Members(devices[..n], hist, thr, g);
      forall i: nat | i < |devices|
        ensures i in Members(devices, hist, thr, g) <==> CategoryOf(hist, devices[i], thr) == g
      {
        if i < n { assert devices[..n][i] == devices[i]; }
      }
    }
  }

  // ---- Moving averages ----

  function After(f: Performance, h: seq<Outcome>): Performance {
    if h == [] then f else Update(After(f, h[..|h|-1]), h[|h|-1])
  }

  function Decay(age: nat): (r: real)
    ensures 0.0 < r <= 1.0
  {
    if age == 0 then 1.0 else 0.9 * Decay(age - 1)
  }

  /** Failures weighted by 0.1 * 0.9^age; the newest outcome has age 0. */
  function WeightedFailures(h: seq<Outcome>, from: nat): real
    requires from <= |h|
    decreases |h| - from
  {
    if from == |h| then 0.0
    else (if h[from].failed then 0.1 * Decay(|h| - 1 - from) else 0.0) + WeightedFailures(h, from + 1)
  }

  predicate TrailingFailures(h: seq<Outcome>, n: nat) {
    && n <= |h|
    && (forall i | |h| - n <= i < |h| :: h[i].failed)
    && (n < |h| ==> !h[|h| - n - 1].failed)
  }

  lemma {:induction false} WeightsAge(h: seq<Outcome>, o: Outcome, from: nat)
    requires from <= |h|
    ensures WeightedFailures(h + [o], from) == 0.9 * WeightedFailures(h, from) + (if o.failed then 0.1 else 0.0)
    decreases |h| - from
  {
    var l := h + [o];
    if from == |h| {
      assert WeightedFailures(l, from + 1) == 0.0;
    } else {
      WeightsAge(h, o, from + 1);
      assert Decay(|l| - 1 - from) == 0.9 * Decay(|h| - 1 - from);
    }
  }

  /** Over any history ErrorRate is the weighted sum of failures, below 1,
      ConsecutiveErrors is the number of failures at the end and LastSuccess the time of the
      success before them. */
  lemma {:induction false} HistoryIsSummarised(h: seq<Outcome>)
    ensures After(UNSEEN, h).errorRate == WeightedFailures(h, 0)
    ensures 0.0 <= After(UNSEEN, h).errorRate < 1.0
    ensures TrailingFailures(h, After(UNSEEN, h).consecutiveErrors)
    ensures var n := After(UNSEEN, h).consecutiveErrors;
      n <= |h| && After(UNSEEN, h).lastSuccess == if n < |h| then h[|h| - n - 1].at else ZERO_TIME
  {
    if h != [] {
      var front, o := h[..|h|-1], h[|h|-1];
      HistoryIsSummarised(front);
      WeightsAge(front, o, 0);
      assert front + [o] == h;
    }
  }

  /** Four failures at the end of any history, from any state, put a device in the low
      group. */
  lemma FourFailuresAreLow(devices: seq<DeviceId>, hist: map<DeviceId, Performance>, thr: real, i: nat,
                           f: Performance, h: seq<Outcome>)
    requires i < |devices| && devices[i] in hist && hist[devices[i]] == After(f, h)
    requires |h| >= 4 && forall j | |h| - 4 <= j < |h| :: h[j].failed
    ensures i in Members(devices, hist, thr, Low)
    ensures i !in Members(devices, hist, thr, Medium) && i !in Members(devices, hist, thr, High)
  {
    FailuresAdd(f, h, 4);
    MembersArePositions(devices, hist, thr, Low);
    MembersArePositions(devices, hist, thr, Medium);
    MembersArePositions(devices, hist, thr, High);
  }

  lemma {:induction false} FailuresAdd(f: Performance, h: seq<Outcome>, n: nat)
    requires n <= |h| && forall j | |h| - n <= j < |h| :: h[j].failed
    ensures After(f, h).consecutiveErrors >= n
  {
    if n > 0 { FailuresAdd(f, h[..|h|-1], n - 1); }
  }

  /** A success, on the other hand, clears the count, and one outcome moves the average
      latency to the middle: between the old average and the new latency. */
  lemma AverageIsBetween(f: Performance, o: Outcome)
    requires 0 <= f.averageLatency && f.averageLatency + o.latency <= MAX64
    ensures var l := After(f, [o]).averageLatency;
      && 2 * l <= f.averageLatency + o.latency <= 2 * l + 1
      && (if f.averageLatency <= o.latency then f.averageLatency <= l <= o.latency else o.latency <= l <= f.averageLatency)
    ensures !o.failed ==> After(f, [o]).consecutiveErrors == 0
  {
    assert [o][..0] == [];
    assert After(f, []) == f;
  }

  // ---- Recovery ----

  predicate Recovering(h: seq<Outcome>, latency: nat) {
    forall i | 0 <= i < |h| :: !h[i].failed && h[i].latency <= latency
  }

  function Pow2(n: nat): (r: nat)
    ensures r > n
  {
    if n == 0 then 1 else 2 * Pow2(n - 1)
  }

  /** A rate after `n` good outcomes. */
  function Decayed(rate: real, n: nat): real {
    if n == 0 then rate else 0.9 * Decayed(rate, n - 1)
  }

  lemma {:induction false} DecayedIs(rate: real, n: nat)
    ensures Decayed(rate, n) == rate * Decay(n)
  {
    if n > 0 { DecayedIs(rate, n - 1); }
  }

  /** After n good outcomes the error rate has decayed n times. */
  lemma {:induction false} GoodOutcomesDecay(f: Performance, h: seq<Outcome>, latency: nat)
    requires Recovering(h, latency)
    ensures After(f, h).errorRate == Decayed(f.errorRate, |h|)
    ensures h != [] ==> After(f, h).consecutiveErrors == 0
  {
    if h != [] {
      GoodOutcomesDecay(f, h[..|h|-1], latency);
    }
  }

  lemma Doubling(excess: int, excess': int, half: nat)
    requires 2 * excess' <= excess
    ensures excess' * (2 * half) <= excess * half
  {
    assert excess' * (2 * half) == (2 * excess') * half;
    assert (excess - 2 * excess') * half >= 0;
  }

  lemma HalfStep(average: int, latency: nat, bound: nat)
    requires Fits(average) && latency <= bound
    ensures var next := Quotient(Wrap(average + latency), 2);
      Fits(next) && (next > bound ==> average > bound && 2 * (next - bound) <= average - bound)
  {
  }

  /** Every good outcome halves the excess over the latency bound. */
  lemma {:induction false} ExcessHalves(f: Performance, h: seq<Outcome>, latency: nat)
    requires Recovering(h, latency) && Fits(f.averageLatency)
    ensures Fits(After(f, h).averageLatency)
    ensures After(f, h).averageLatency > latency ==>
      (After(f, h).averageLatency - latency) * Pow2(|h|) <= f.averageLatency - latency
  {
    if h != [] {
      var front := h[..|h|-1];
      ExcessHalves(f, front, latency);
      var before, next := After(f, front).averageLatency, After(f, h).averageLatency;
      HalfStep(before, h[|h|-1].latency, latency);
      if next > latency { Doubling(before - latency, next - latency, Pow2(|h| - 1)); }
    }
  }

  lemma LatencyRecovers(f: Performance, h: seq<Outcome>, latency: nat)
    requires Recovering(h, latency) && Fits(f.averageLatency) && Pow2(|h|) > f.averageLatency - latency
    ensures After(f, h).averageLatency <= latency
  {
    ExcessHalves(f, h, latency);
    var e, p := After(f, h).averageLatency - latency, Pow2(|h|);
    if e > 0 {
      AtLeast(e, p);
      assert false;
    }
  }

  /** The number of binary digits: that many halvings bring `n` to 0. */
  function Digits(n: nat): (d: nat)
    ensures Pow2(d) > n
  {
    if n == 0 then 0 else 1 + Digits(n / 2)
  }

  lemma {:induction false} Pow2Grows(m: nat, n: nat)
    requires m <= n
    ensures Pow2(m) <= Pow2(n)
  {
    if m < n { Pow2Grows(m, n - 1); }
  }

  lemma AtLeast(e: int, p: nat)
    requires e >= 1
    ensures e * p >= p
  {
    assert (e - 1) * p >= 0;
  }

  lemma {:induction false} DecayBound(n: nat)
    ensures Decay(n) * (1.0 + n as real / 9.0) <= 1.0
  {
    if n > 0 {
      DecayBound(n - 1);
      var d, x := Decay(n - 1), (n - 1) as real / 9.0;
      assert n as real / 9.0 == x + 1.0 / 9.0;
      assert 0.9 * d * (1.0 + x + 1.0 / 9.0) == d * (1.0 + 0.9 * x) <= d * (1.0 + x);
    }
  }

  /** The least of the two rate limits a device must get under. */
  function RateLimit(loadThreshold: real): real {
    if loadThreshold < 0.1 then loadThreshold else 0.1
  }

  function StepsToRecover(f: Performance, loadThreshold: real): nat
    requires 0.0 < loadThreshold < 1.0 && 0.0 <= f.errorRate
  {
    var byRate := (9.0 * f.errorRate / RateLimit(loadThreshold)).Floor + 1;
    var byLatency := Digits(if f.averageLatency > 0 then f.averageLatency else 0);
    if byRate > byLatency then byRate else byLatency
  }

  /** From any state, once enough outcomes in a row were good and no slower than some
      latency below 100ms, the device is in the high group, and stays there. */
  lemma GoodDevicesBecomeHigh(f: Performance, h: seq<Outcome>, latency: nat, loadThreshold: real)
    requires 0.0 < loadThreshold < 1.0 && 0.0 <= f.errorRate && Fits(f.averageLatency)
    requires latency < FAST_LATENCY && Recovering(h, latency)
    requires |h| >= StepsToRecover(f, loadThreshold)
    ensures Category(After(f, h), loadThreshold) == High
  {
    Pow2Grows(Digits(if f.averageLatency > 0 then f.averageLatency else 0), |h|);
    LatencyRecovers(f, h, latency);
    RateRecovers(f, h, latency, loadThreshold);
    GoodOutcomesDecay(f, h, latency);
  }

  lemma RateRecovers(f: Performance, h: seq<Outcome>, latency: nat, loadThreshold: real)
    requires 0.0 < loadThreshold < 1.0 && 0.0 <= f.errorRate
    requires Recovering(h, latency) && |h| >= StepsToRecover(f, loadThreshold)
    ensures After(f, h).errorRate < RateLimit(loadThreshold)
  {
    EnoughOutcomes(f, loadThreshold, |h|);
    GoodOutcomesDecay(f, h, latency);
  }

  lemma EnoughOutcomes(f: Performance, loadThreshold: real, n: nat)
    requires 0.0 < loadThreshold < 1.0 && 0.0 <= f.errorRate && n >= StepsToRecover(f, loadThreshold)
    ensures Decayed(f.errorRate, n) < RateLimit(loadThreshold)
  {
    DecayedIs(f.errorRate, n);
    DecayUnder(f.errorRate, RateLimit(loadThreshold), n);
  }

  lemma DecayUnder(r: real, limit: real, n: nat)
    requires 0.0 <= r && 0.0 < limit && n >= (9.0 * r / limit).Floor + 1
    ensures r * Decay(n) < limit
  {
    if r > 0.0 {
      DecayBound(n);
      EnoughSteps(r, n as real, limit);
      StrictDecay(r, Decay(n), 1.0 + n as real / 9.0, limit);
    }
  }

  lemma EnoughSteps(r: real, n: real, limit: real)
    requires 0.0 < r && 0.0 < limit && n >= (9.0 * r / limit).Floor as real + 1.0
    ensures limit * (1.0 + n / 9.0) > r
  {
    var q := 9.0 * r / limit;
    assert q < n && q * limit == 9.0 * r;
    ScaleUp(q, n, limit);
    assert limit * (1.0 + n / 9.0) == limit + n * limit / 9.0;
  }

  lemma ScaleUp(q: real, n: real, limit: real)
    requires q < n && limit > 0.0
    ensures q * limit < n * limit
  {
    assert (n - q) * limit > 0.0;
  }

  lemma ScaleDown(a: real, r: real)
    requires a <= 1.0 && r > 0.0
    ensures r * a <= r
  {
    assert r * (1.0 - a) >= 0.0;
  }

  lemma StrictDecay(r: real, d: real, m: real, limit: real)
    requires r > 0.0 && m > 0.0 && limit * m > r && d * m <= 1.0
    ensures r * d < limit
  {
    ScaleDown(d * m, r);
    assert (r * d) * m == r * (d * m);
    if r * d >= limit { Scaled(r * d, limit, m); }
  }

  lemma Scaled(y: real, limit: real, m: real)
    requires y >= limit && m >= 0.0
    ensures y * m >= limit * m
  {
    assert (y - limit) * m >= 0.0;
  }
}
