/** Durations as int64 nanoseconds: the settings parser of internal/config/config.go, the
    Retry-After parser of internal/api/client.go and the cycle timeout of
    internal/server/server.go. */
module Durations {
  import opened Helpers

  const SECOND := 1_000_000_000
  /** parseDurationOrSeconds on the answers of time.ParseDuration and strconv.Atoi. */
  function ParseDurationOrSeconds(duration: Option<int>, seconds: Option<int>): Option<int> {
    if duration.Some? then duration
    else if seconds.None? then None
    else
      var d := Wrap(seconds.value * SECOND);
      if Quotient(d, SECOND) != seconds.value then None else Some(d)
  }

  lemma QuotientIsSmall(d: int)
    requires Fits(d)
    ensures -9223372036 <= Quotient(d, SECOND) <= 9223372036
  {
  }

  /** The wrap-around test accepts exactly the whole seconds that fit, with their value. */
  lemma SecondsAcceptedIffTheyFit(sec: int, d: int)
    requires Fits(sec)
    ensures ParseDurationOrSeconds(None, Some(sec)) == Some(d) <==> Fits(sec * 1_000_000_000) && d == sec * 1_000_000_000
    ensures ParseDurationOrSeconds(Some(d), Some(sec)) == ParseDurationOrSeconds(Some(d), None) == Some(d)
    ensures ParseDurationOrSeconds(None, None) == None
  {
    QuotientIsSmall(Wrap(sec * SECOND));
    if Fits(sec * SECOND) {
      assert Quotient(sec * SECOND, SECOND) == sec;
    }
  }

  /** parseRetryAfter on the header read as a number and as a date still that far ahead. */
  function ParseRetryAfter(seconds: Option<int>, untilDate: Option<int>): int {
    if seconds.Some? && seconds.value > 0 then Wrap(seconds.value * SECOND)
    else if untilDate.Some? && untilDate.value > 0 then untilDate.value
    else 0
  }

  /** A positive number of seconds is honoured iff the product fits an int64. */
  lemma RetryAfterHonouredIff(sec: int, untilDate: Option<int>)
    requires 0 < sec <= MAX64
    ensures ParseRetryAfter(Some(sec), untilDate) == sec * 1_000_000_000 <==> sec <= 9223372036
  {
  }

  /** A header without a positive number counts as a date, and one that is past or unreadable
      asks for no wait. */
  lemma RetryAfterDates(seconds: Option<int>, untilDate: Option<int>)
    requires seconds.Some? ==> seconds.value <= 0
    ensures untilDate.Some? && untilDate.value > 0 ==> ParseRetryAfter(seconds, untilDate) == untilDate.value
    ensures untilDate.None? || untilDate.value <= 0 ==> ParseRetryAfter(seconds, untilDate) == 0
  {
  }

  const MIN_SCRAPE_INTERVAL := 5 * SECOND
  const MAX_SCRAPE_INTERVAL := 24 * 60 * 60 * SECOND

  /** A variable of the environment: unset, or its two readings. */
  datatype Variable = Unset | Set(duration: Option<int>, seconds: Option<int>)

  class Config {
    var clientMetricsTimeout: int
    var scrapeInterval: int
    var maxConcurrentScrapes: int
    var port: string

    constructor (port: string, maxConcurrentScrapes: int)
      ensures clientMetricsTimeout == scrapeInterval == 0
      ensures this.port == port && this.maxConcurrentScrapes == maxConcurrentScrapes
    {
      clientMetricsTimeout, scrapeInterval := 0, 0;
      this.port, this.maxConcurrentScrapes := port, maxConcurrentScrapes;
    }

    /** An unreadable timeout keeps its default; an unreadable interval stays 0, which
        validation rejects. */
    method LoadMetricsSettings(timeout: Variable, interval: Variable)
      modifies this`clientMetricsTimeout, this`scrapeInterval
      ensures var t := if timeout.Unset? then None else ParseDurationOrSeconds(timeout.duration, timeout.seconds);
        var kept := if t.Some? then t.value else old(clientMetricsTimeout);
        clientMetricsTimeout == if kept == 0 then 10_000_000_000 else kept
      ensures scrapeInterval == if interval.Unset? then 30_000_000_000
        else match ParseDurationOrSeconds(interval.duration, interval.seconds) case None => 0 case Some(d) => d
    {
      if timeout.Set? {
        var d := ParseDurationOrSeconds(timeout.duration, timeout.seconds);
        if d.Some? { clientMetricsTimeout := d.value; }
      }
      if clientMetricsTimeout == 0 { clientMetricsTimeout := 10 * SECOND; }
      scrapeInterval := 30 * SECOND;
      if interval.Set? {
        var d := ParseDurationOrSeconds(interval.duration, interval.seconds);
        scrapeInterval := if d.Some? then d.value else 0;
      }
    }

    predicate NetworkSettingsValid()
      reads this
    {
      && port != "" && clientMetricsTimeout > 0 && maxConcurrentScrapes > 0
      && MIN_SCRAPE_INTERVAL <= scrapeInterval <= MAX_SCRAPE_INTERVAL
    }
  }

  /** Validation in numbers: a port, positive settings, an interval of 5 seconds to 24 hours. */
  lemma ValidatedIff(cfg: Config)
    ensures cfg.NetworkSettingsValid() <==>
      && cfg.port != "" && cfg.clientMetricsTimeout >= 1 && cfg.maxConcurrentScrapes >= 1
      && 5_000_000_000 <= cfg.scrapeInterval <= 86_400_000_000_000
  {
  }

  function EffectiveInterval(scrapeInterval: int): int {
    if scrapeInterval <= 0 then 30 * SECOND else scrapeInterval
  }

  /** max(2*interval, 60s) in int64 arithmetic. */
  function CycleTimeout(scrapeInterval: int): int {
    var twice := Wrap(2 * EffectiveInterval(scrapeInterval));
    if twice > 60 * SECOND then twice else 60 * SECOND
  }

  /** The cycle timeout covers the interval, for any interval, iff twice the interval does
      not wrap; every interval that validates is far below. */
  lemma TimeoutCoversIntervalIff(i: int)
    requires Fits(i)
    ensures CycleTimeout(i) >= EffectiveInterval(i) <==> 2 * EffectiveInterval(i) <= MAX64
    ensures 5_000_000_000 <= i <= 86_400_000_000_000 ==>
      CycleTimeout(i) == if i <= 30_000_000_000 then 60_000_000_000 else 2 * i
    ensures i <= 0 ==> CycleTimeout(i) == 60_000_000_000
    ensures EffectiveInterval(i) == if i <= 0 then 30_000_000_000 else i
  {
    var e := EffectiveInterval(i);
    if 2 * e > MAX64 {
      assert Wrap(2 * e) == 2 * e - 0x1_0000_0000_0000_0000;
    }
  }
}
