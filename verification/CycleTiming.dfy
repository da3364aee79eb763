/** Which configured intervals keep the client series with listed devices. */
module CycleTiming {
  import opened Identifiers
  import opened Helpers
  import opened Registry
  import opened ApiSeries
  import opened Cycles
  import Durations

  /** When a cycle begins and ends. */
  datatype Span = Span(begin: int, end: int)

  /** The cycles of a ticker that drops ticks while a cycle runs: the next begins within an
      interval of the last one's beginning or, if that one took longer, when it ends.  A
      cycle makes its stale check within `late` of its beginning; its refreshes come after
      that, and it ends within an interval of them. */
  ghost predicate Paced(cs: seq<Inputs>, spans: seq<Span>, interval: int, late: nat) {
    && |spans| == |cs|
    && (forall i | 0 <= i < |cs| :: Keeps(cs[i], spans[i], interval, late))
    && forall i | 0 <= i < |cs| - 1 :: Follows(spans[i], spans[i+1], interval)
  }

  ghost predicate Keeps(c: Inputs, s: Span, interval: int, late: nat) {
    && c.staleAt <= s.begin + late
    && forall id | id in c.seenAt :: s.begin <= c.seenAt[id] <= s.end <= c.seenAt[id] + interval
  }

  predicate Follows(s: Span, next: Span, interval: int) {
    next.begin <= if s.end > s.begin + interval then s.end else s.begin + interval
  }

  lemma PacedIsFrequent(cs: seq<Inputs>, spans: seq<Span>, interval: int, late: nat)
    requires Paced(cs, spans, interval, late) && interval + late <= FIVE_MINUTES
    ensures Frequent(cs)
  {
    forall i | 0 <= i < |cs| - 1 ensures SoonAfter(cs[i], cs[i+1]) {
      assert Keeps(cs[i], spans[i], interval, late) && Keeps(cs[i+1], spans[i+1], interval, late);
      assert Follows(spans[i], spans[i+1], interval);
    }
  }

  /** Every client series belongs to a known device in every state. */
  ghost predicate AlwaysOwned(ss: seq<State>) { forall i: nat | i < |ss| :: OwnedAt(ss, i) }

  lemma FrequentIsOwned(ss: seq<State>, cs: seq<Inputs>, i: nat)
    requires Run(ss, cs) && Frequent(cs) && i < |ss|
    ensures OwnedAt(ss, i)
  {
    if i == 0 {
      StartsOwned(ss, cs);
    } else {
      FrequentRunsLeaveNoOrphans(ss, cs, i);
      RunsAreConsistent(ss, cs, i);
    }
  }

  /** All runs of cycles a configured interval allows keep the client series owned. */
  ghost predicate KeepsSeriesOwned(interval: int, late: nat) {
    forall ss, cs, spans | Run(ss, cs) && Paced(cs, spans, interval, late) :: AlwaysOwned(ss)
  }

  lemma OneMoreCycle(ss: seq<State>, cs: seq<Inputs>, c: Inputs) returns (ss': seq<State>, cs': seq<Inputs>)
    requires Run(ss, cs) && Proper(c)
    ensures Run(ss', cs') && cs' == cs + [c] && ss'[|cs'|] == Step(ss[|cs|], c)
  {
    var next := Step(ss[|cs|], c);
    ss', cs' := ss + [next], cs + [c];
    forall i | 0 <= i < |cs'| ensures Proper(cs'[i]) && ss'[i+1] == Step(ss'[i], cs'[i]) {
      if i < |cs| {
        assert ss'[i] == ss[i] && ss'[i+1] == ss[i+1] && cs'[i] == cs[i];
      } else {
        assert ss'[i] == ss[|cs|] && ss'[i+1] == next && cs'[i] == c;
      }
    }
  }

  lemma OrphanIsNotOwned(ss: seq<State>, cs: seq<Inputs>, k: Series)
    requires Run(ss, cs) && |cs| == 2 && cs[1].devices == []
    requires k in ss[2].values && IsClient(k.family)
    ensures !AlwaysOwned(ss)
  {
    RunsAreConsistent(ss, cs, 2);
    assert ss[2].known == {};
    assert !OwnedAt(ss, 2);
  }

  lemma LateCheckIsPaced(d: Device, w: Write, interval: int, late: nat)
    requires interval >= 0
    ensures Paced([ListedOnce(d, w, 0), MissingAfter(interval + late)], [Span(0, 0), Span(interval, interval)], interval, late)
  {
    assert Keeps(ListedOnce(d, w, 0), Span(0, 0), interval, late);
    assert Keeps(MissingAfter(interval + late), Span(interval, interval), interval, late);
  }

  lemma LateRun(d: Device, w: Write, gap: int) returns (ss: seq<State>, cs: seq<Inputs>)
    requires IsClient(w.series.family) && w.series.id == d.id && gap > FIVE_MINUTES
    ensures Run(ss, cs) && cs == [ListedOnce(d, w, 0), MissingAfter(gap)] && w.series in ss[2].values
  {
    LeakIffLongGap(d, w, 0, gap);
    ss, cs := OneMoreCycle([INITIAL], [], ListedOnce(d, w, 0));
    ss, cs := OneMoreCycle(ss, cs, MissingAfter(gap));
  }

  /** A device listed in the first cycle and missing in the second, whose stale check comes
      as late as it may. */
  lemma LateCheckLeaks(d: Device, w: Write, interval: int, late: nat)
    returns (ss: seq<State>, cs: seq<Inputs>, spans: seq<Span>)
    requires IsClient(w.series.family) && w.series.id == d.id
    requires interval >= 0 && interval + late > FIVE_MINUTES
    ensures Run(ss, cs) && Paced(cs, spans, interval, late) && !AlwaysOwned(ss)
  {
    LateCheckIsPaced(d, w, interval, late);
    spans := [Span(0, 0), Span(interval, interval)];
    ss, cs := LateRun(d, w, interval + late);
    OrphanIsNotOwned(ss, cs, w.series);
  }

  const SOME_DEVICE := Device(DeviceId("a"), "", "", "", "", true, true, Never, Never, true, Never, [], [],
                              false, false, false, false, false, false, false, "", Unknown, 0)

  /** A validated configuration keeps every client series with a known device, in every run
      its ticker allows, if and only if its interval is at most five minutes less how late a
      stale check may come. */
  lemma ValidatedConfigKeepsOwnedIff(cfg: Durations.Config, late: nat)
    requires cfg.NetworkSettingsValid()
    ensures KeepsSeriesOwned(cfg.scrapeInterval, late) <==> cfg.scrapeInterval <= FIVE_MINUTES - late
  {
    var interval := cfg.scrapeInterval;
    if interval + late <= FIVE_MINUTES {
      forall ss, cs, spans | Run(ss, cs) && Paced(cs, spans, interval, late) ensures AlwaysOwned(ss) {
        PacedIsFrequent(cs, spans, interval, late);
        forall i: nat | i < |ss| ensures OwnedAt(ss, i) { FrequentIsOwned(ss, cs, i); }
      }
    } else {
      var w := Write(Series(AdvertisedRoutes, SOME_DEVICE.id, "", []), 1.0);
      var ss, cs, spans := LateCheckLeaks(SOME_DEVICE, w, interval, late);
    }
  }

  /** Validation lets longer intervals through: ten minutes pass. */
  method TenMinutes(port: string, maxConcurrentScrapes: int) returns (cfg: Durations.Config)
    requires port != "" && maxConcurrentScrapes > 0
    ensures fresh(cfg) && cfg.NetworkSettingsValid() && cfg.scrapeInterval == 2 * FIVE_MINUTES
  {
    cfg := new Durations.Config(port, maxConcurrentScrapes);
    cfg.LoadMetricsSettings(Durations.Unset, Durations.Set(Some(600 * Durations.SECOND), None));
  }
}
