# tsmetrics: a verified model

tsmetrics exports metrics of a Tailscale network: every cycle it lists the devices through
the API, sets gauges for each of them, scrapes the devices' own metrics in parallel, and
deletes the gauges of devices that are gone. Around that cycle stand a per-client rate
limiter, a device cache, worker pools, retry loops, reloadable configuration and ordered
shutdown. This project models that behaviour in Dafny and proves what it keeps.

`dafny verify dfyconfig.toml` checks everything.

## What is modelled, and how

Objects that the program updates in place are classes with the same fields; their methods
are proved against a function (or relation) of the old state, and the properties are then
proved of that function over all runs. Where several goroutines meet, the steps between two
lock or channel operations are the actions of a step system, and the theorems speak of every
interleaving. Clock readings, random draws, answers of the network and the order in which Go
visits a map are inputs: the theorems hold for all of them.

| file | what it models |
|---|---|
| `Registry.dfy` | the gauge vectors that carry a device id, as one map from series to value |
| `Collection.dfy` | what the device list writes, and the two deletion lists |
| `ApiValues.dfy` | the gauges a cycle leaves, value by value from the fields of the listed devices |
| `Cycle.dfy` | the device tracker, one collection cycle, and runs of cycles |
| `Scrapes.dfy` | reading one response line by line, and scrapes interleaved write by write |
| `CycleScrapes.dfy` | the cycle around its interleaved scrapes, end to end |
| `CycleTiming.dfy` | which configured intervals keep the client series with listed devices |
| `ScrapeLists.dfy` | which device lists scrape the same in every interleaving |
| `Labels.dfy`, `MetricLine.dfy` | the label splitter under a buffering scanner; the metric line pattern, its grammar and the round trip |
| `SlotPool.dfy`, `Pools.dfy` | the three semaphore pools as one step system, and its three users |
| `Strategies.dfy` | moving averages, grouping and recovery of the adaptive strategy |
| `RateLimiter.dfy` | the client table of the rate limiter, as an object and under interleaving |
| `DeviceCache.dfy` | the device cache, as an object and against its specification |
| `Retry.dfy`, `Backoff.dfy` | both retry loops and one specification for them; delays, jitter, budgets |
| `Reload.dfy` | configuration reloads, one at a time and overlapping |
| `StableSort.dfy` | the in-place bubble sort, shutdown hooks |
| `Helpers.dfy`, `Identifiers.dfy` | definitions the modules share |
| `Durations.dfy` | int64 durations: settings, Retry-After, the cycle timeout |
| `AddressGuard.dfy`, `DeviceName.dfy` | the forbidden-address classifier; name sanitising |

Where the code falls short of what its comments or names suggest, the model keeps the code
and a lemma says exactly when the promise holds:

- The inline deletion list of a cycle lacks the nine client families. Client series stay
  with listed devices if and only if no unlisted device was last seen over five minutes
  before the stale check (`Cycles.ClientSeriesStayOwnedIff`, and over whole runs
  `Cycles.RunsStayOwnedIff`); a two-cycle run leaves one behind if and only if the gap is
  longer (`Cycles.LeakIffLongGap`), and nothing removes it while its device stays away
  (`Cycles.OrphansStay`). Validation accepts intervals up to 24 hours; those up to five
  minutes, less how late a check may come, are safe
  (`CycleTiming.ValidatedConfigKeepsOwnedIff`).
- The adaptive strategy accepts `maxConcurrency` 1, which gives the medium group a channel
  of capacity 0. A group can finish uncancelled if and only if it has a slot or no member
  (`Pools.GroupFinishesIff`, `Pools.MediumGroupHangs`).
- A forced or periodic reload tests the in-progress flag, then loads, then puts it up, and a
  watched change does not test it. Reloads never overlap if and only if the flag is down
  whenever one puts it up (`ReloadRuns.ReloadsAreExclusiveIff`); two passed tests suffice for
  an overlap in which a handler is shown another configuration than the one that gets
  replaced (`ReloadRuns.OverlappingReloads`). A reload is safe from those in flight if and
  only if what it read is current and none of them can still install anything else
  (`ReloadRuns.HandlersSeeWhatIsReplacedIff`).
- `CalculateDelay` caps every attempt but the first, so the cap holds for all attempts if
  and only if the base delay respects it (`Backoff.CappedIffBaseIs`).
- `Sanitize` once is a fixed point if and only if the cut at 253 leaves no dash at the end
  (`DeviceNames.SanitizedOnceIff`); twice always is.
- A Retry-After in seconds is honoured if and only if it fits an int64 of nanoseconds
  (`Durations.RetryAfterHonouredIff`).
- Concurrent scrapes always end in one registry if and only if any two that write a series
  end it with the same value (`ConcurrentScrapes.InterleavingsAgreeIff`). A caller can check:
  that holds for whatever the devices answer if and only if no id and name are listed
  together twice with the required tag (`ScrapeLists.ListConfluentIff`), which a target named
  twice breaks (`ConcurrentScrapes.SameDeviceRaces`).
- The jittered sum wraps too: it stays within a quarter of the delay if and only if the
  delay plus a quarter fits an int64 (`Backoff.JitterStaysIff`).
- The delay is the capped power on every machine if and only if the product fits an int64
  (`Backoff.CappedPowerIffInRange`); beyond, the conversion may even be negative.

The rate limiter compares the stamps stored in the table. Two overlapping calls of one
client may store the earlier clock reading last; reading and store are separate steps of the
model. While no two calls of one client overlap there, recency is that of use
(`LimiterRuns.ResidentsByLastUse`); any overlap can reorder (`LimiterRuns.OverlapCanReorder`)
and may cost the client used last its entry (`LimiterRuns.OverlapEvictsTheLastUsed`).

The cache specification is "the last installed snapshot": refreshes that overlap may install
an older fetch last, and the actions come in any order, so that case is covered too.

## Model

| member | source | states |
|---|---|---|
| Cycles.CycleIsConsistent | internal/metrics/collector.go:183-373 | after a cycle, whatever the clock, both maps have exactly the listed ids as keys and every API series belongs to a listed device |
| Cycles.RunsAreConsistent | internal/metrics/collector.go:168-376 | the same in every state of every run, for any device lists and clock |
| Cycles.ClientSeriesStayOwnedIff | internal/metrics/collector.go:183-220 | a cycle keeps client series with listed devices if and only if no client series belongs to an unlisted device whose last refresh is over five minutes before the stale check |
| Cycles.FrequentRunsLeaveNoOrphans | internal/metrics/collector.go:183-373 | if no stale check comes more than five minutes after a device was refreshed, client series belong to listed devices after every cycle of the run |
| Cycles.RunsStayOwnedIff | internal/metrics/collector.go:183-220 | over a run, client series belong to known devices in every state if and only if no cycle begins with such a late series |
| Cycles.LeakIffLongGap | internal/metrics/collector.go:183-220 | listed and scraped once, then missing: the series survives the second cycle if and only if the gap is over five minutes |
| CycleTiming.ValidatedConfigKeepsOwnedIff | internal/server/server.go:183-218 | a validated configuration keeps every client series with a known device, in every run its ticker allows, if and only if its interval is at most five minutes less how late a stale check may come |
| CycleTiming.PacedIsFrequent | internal/server/server.go:183-218 | with such an interval no stale check comes more than five minutes after a refresh, overrunning cycles included |
| CycleTiming.TenMinutes | internal/config/config.go:184-199 | an interval of ten minutes, which does not, passes validation |
| Cycles.OrphanSurvivesCycle | internal/metrics/tracker.go:53-70 | a client series whose device is in neither map outlives a cycle that does not list the device |
| Cycles.OrphansStay | internal/metrics/tracker.go:53-70 | over any run the orphan stays for as long as its device is not listed |
| Cycles.ValuesAfter | internal/metrics/collector.go:222-373 | the value of every series after a cycle: last scraped write, else last API write, else what the stale check left; for unlisted devices nothing but orphans |
| Cycles.KeysAfter | internal/metrics/collector.go:183-373 | which series exist after a cycle, from the series before it and the listed devices |
| Cycles.RefreshedAtTheEnd | internal/metrics/tracker.go:63-69 | every listed device ends the cycle with the reading taken at its refresh |
| ApiValues.FieldsAreShown | internal/metrics/collector.go:225-360 | after a cycle, for the last device listed under an id and a name: every gauge of the 21 API families without latency has the value its own field says, flags, times, expiry, routes, supports and counts alike |
| ApiValues.LatencyIsShown | internal/metrics/collector.go:325-332 | the latency shown for a region and its preference is that of the entry visited last under those labels |
| ApiValues.UnsaidIsKept | internal/metrics/collector.go:183-360 | an API series of a listed device that no listed device has a value for keeps what was there if the device was marked at most five minutes before the stale check, and is gone otherwise |
| ApiValues.UnlistedAfter | internal/metrics/collector.go:183-373 | of an unlisted device only client series are left, and only those in neither map or last refreshed over five minutes before the stale check |
| ApiValues.StaleCheckLeaves | internal/metrics/collector.go:183-220 | a device marked at most five minutes before the stale check loses no series there, one marked earlier its API series and no other |
| ApiValues.OnlySaid | internal/metrics/collector.go:225-360 | nothing is written for a device but the values its fields say, under its own id and name |
| ApiValues.AllIsWritten | internal/metrics/collector.go:225-360 | every value its fields say is written |
| ApiValues.OnlineCounts | internal/metrics/collector.go:224-234 | the online count is the number of listed devices that are online |
| ApiSeries.Truncate | internal/metrics/collector.go:24-33 | a label is its first 128 characters |
| Cycles.Collector.UpdateMetrics | internal/metrics/collector.go:168-376 | the tracker and the gauges end as the cycle function says; both counts are set |
| Cycles.Collector.MarkAndExpire | internal/metrics/collector.go:183-220 | marking all devices, then dropping the stale ones with the inline list |
| Cycles.Collector.WriteDevices | internal/metrics/collector.go:222-362 | the registry gets the writes of all devices in list order; seen ids and online count are those of the list |
| Cycles.DeviceMetricsTracker.MarkDeviceActive | internal/metrics/tracker.go:26-31 | both maps get the id, with the clock reading |
| Cycles.DeviceMetricsTracker.CleanupStaleDevices | internal/metrics/tracker.go:34-50 | exactly the ids seen longer ago than the limit leave both maps and are returned |
| Cycles.DeviceMetricsTracker.CleanupRemovedDevices | internal/metrics/tracker.go:53-70 | known but unseen ids leave both maps and all their series go; seen ids are refreshed |
| Cycles.Mark | internal/metrics/collector.go:183-188 | marking adds exactly the listed ids and leaves the other time stamps alone |
| ApiSeries.DeletionLists | internal/metrics/definitions.go:328-363 | the inline list lacks exactly the client families; the clean-up list lacks none |
| ApiSeries.ApiWritesAreOwn | internal/metrics/collector.go:225-360 | everything written for a listed device is an API series of that device |
| Registry.LastWriteWins | internal/metrics/scraper.go:377-407 | after any list of writes a series holds its last write, or what it held |
| Registry.Gauges.DeleteDevice | internal/metrics/definitions.go:328-363 | the series of the device in the given families go, all others stay as they are |
| CycleScrapes.ResponsesAreOfListed | internal/metrics/collector.go:364-364 | whatever the responses, scrapes of listed devices write client series of listed devices only |
| CycleScrapes.ScrapesFeedTheCycle | internal/metrics/collector.go:364-373 | every interleaving of such scrapes is a list of writes the cycle accepts |
| CycleScrapes.ClientSeriesAfterCycle | internal/metrics/collector.go:364-373 | end to end: after a cycle, for every interleaving of compatible scrapes, a client series of a listed device holds the last valid line of any response that has one for it, or its old value |
| ConcurrentScrapes.InterleavingsAgreeIff | internal/metrics/scraper.go:160-190 | for any scrapes: all complete interleavings end in one registry if and only if any two scrapes that both write a series end it with the same value |
| ScrapeLists.ListConfluentIff | internal/metrics/scraper.go:134-198 | for a device list and a required tag: whatever the scraped devices answer, all interleavings agree if and only if no id and name are listed together twice with the tag |
| ConcurrentScrapes.DeviceListConfluentIff | internal/metrics/scraper.go:160-190 | the same for the list of scraped devices |
| ConcurrentScrapes.EndValue | internal/metrics/scraper.go:377-407 | the registry they agree on: each series holds the last valid line of any response that has one for it, or its old value |
| ConcurrentScrapes.DistinctAreCompatible | internal/metrics/scraper.go:377-407 | scrapes of devices that differ in id or name never end a series differently |
| ConcurrentScrapes.HeldBySomeScrape | internal/metrics/scraper.go:377-407 | at any moment of any interleaving a series holds what some scrape wrote to it last, or its old value if none has written to it |
| ConcurrentScrapes.ForeignSeries | internal/metrics/scraper.go:377-407 | a scrape writes no series of another id or name, whatever it is answered |
| ConcurrentScrapes.ExecuteIsWriteAll | internal/metrics/scraper.go:377-407 | an interleaving has the effect of its writes in the order they happen |
| ConcurrentScrapes.SameDeviceRaces | internal/metrics/collector.go:142-158 | a device listed twice, as a target named twice is, races with itself: two responses with different values have two ends |
| Scrapes.ParseMetricsResponse | internal/metrics/scraper.go:334-355 | the registry gets the writes of the body's lines in order; only a read error is reported, and what was read before it counts |
| Scrapes.ProcessRawLine | internal/metrics/scraper.go:337-353 | a line applies its meaning, and a bad line changes nothing |
| Scrapes.ProcessMetricLine | internal/metrics/scraper.go:357-407 | a line that matches and has a valid literal sets one gauge of the scraped device, any other line none |
| Scrapes.SilentLinesIff | internal/metrics/scraper.go:334-407 | a line can be put into any response without changing what the response writes if and only if it is blank, a comment, off the pattern, without a valid value or of an unknown metric |
| Scrapes.JunkLinesChangeNothing | internal/metrics/scraper.go:334-355 | a line that writes nothing by itself writes nothing anywhere in a body, and hides no other line |
| Scrapes.FinalLineFeedIsOptional | internal/metrics/scraper.go:334-355 | a body reads the same with and without its final line feed |
| Scrapes.WritesAreOwn | internal/metrics/scraper.go:377-407 | a response writes client series of the scraped device only |
| Scrapes.RenderedLineIsApplied | internal/metrics/scraper.go:357-407 | a rendered metric given as one line updates its gauge with exactly the rendered labels |
| Scrapes.EveryMetric | internal/metrics/scraper.go:377-407 | each of the nine metric names sets its own gauge of the scraped device to the value, with its path, reason or type, empty if absent, or no label |
| Scrapes.OtherMetricsSetNothing | internal/metrics/scraper.go:357-407 | a metric of any other name sets nothing, nor one without a valid value |
| Scrapes.GaugeAfterResponse | internal/metrics/scraper.go:334-407 | after a response of rendered metrics a gauge shows the last of them that sets it |
| Scrapes.UnfinishedLine | internal/metrics/scraper.go:334-355 | a last line without a line feed counts, unless reading fails there |
| Scrapes.PaddedLine | internal/metrics/scraper.go:341-342 | blanks around a line do not count |
| Scrapes.RenderedBodyIsApplied | internal/metrics/scraper.go:334-407 | any list of metrics whose values hold no line feed, rendered as a response, is read back metric by metric, in order |
| MetricLine.MetricLineRoundTrip | internal/metrics/scraper.go:125-125 | parsing a rendered line gives back name, literal and exactly the rendered labels |
| MetricLine.SpeltOutRoundTrip | internal/metrics/scraper.go:125-125 | the same over the characters of names and of numbers themselves |
| MetricLine.NumbersAre | internal/metrics/scraper.go:125-125 | the characters of a number are -+0123456789.eE |
| MetricLine.BlanksAre | internal/metrics/scraper.go:125-125 | the six ASCII blanks that are trimmed, the five the pattern takes for space, and the quote |
| MetricLine.TokenIsRead | internal/metrics/scraper.go:432-443 | blanks around a label and before its equals sign do not count, nor quotes at either end of its value; everything else does |
| MetricLine.OneToken | internal/metrics/scraper.go:410-443 | a text without commas is one label, unless it fills the scanner's 65536 bytes |
| MetricLine.MatcherIsTheGrammar | internal/metrics/scraper.go:125-125 | the matcher answers parts if and only if the line derives from the pattern with them |
| MetricLine.LabelsComeBack | internal/metrics/scraper.go:409-445 | every rendered label is read back, later ones overriding earlier ones |
| MetricLine.ParseLabels | internal/metrics/scraper.go:409-445 | the labels are those of the text alone, however the reader delivers it |
| Labels.TokensArePieces | internal/metrics/scraper.go:411-430 | cutting label by label, counting quotes afresh, is cutting the whole text at the commas with an even number of quotes before them |
| Labels.WindowDecides | internal/metrics/scraper.go:411-430 | a cut found in a buffered window is the first cut of the whole text, and none in the window means none there |
| Labels.NextToken | internal/metrics/scraper.go:411-430 | what one answer of the callback takes off the tokens ahead, the scanner's limit included |
| Labels.SplitLabels | internal/metrics/scraper.go:411-430 | the callback answers the first separating comma, the rest at the end of input, else asks for more |
| Labels.BytesCount | internal/metrics/scraper.go:447-455 | the number of occurrences |
| Labels.Scanner.Scan | internal/metrics/scraper.go:410-431 | for every chunking, each call delivers the next token of the text, until none is left or one is too long |
| SlotPool.RunsKeepInv | internal/metrics/scraper.go:141-198 | over every interleaving: held slots are the workers in flight, errors are the failures reported, each device is collected at most once |
| SlotPool.ConcurrencyIsBounded | internal/metrics/scraper.go:141-173 | never more collections at once than slots; the held slots are the workers in flight, save for the spawner's own while it starts a goroutine |
| SlotPool.SendersNeverBlock | internal/metrics/strategies.go:188-215 | a worker with an error always finds room in the channel, cancelled or not |
| SlotPool.NeverStuck | internal/metrics/scraper.go:141-190 | with a slot, some step other than an outside cancellation is possible until the call returns |
| SlotPool.StepsDecrease | internal/metrics/scraper.go:160-190 | every step brings the end nearer |
| SlotPool.AlwaysReturns | internal/metrics/strategies.go:182-228 | every run goes on to the return without an outside cancellation |
| SlotPool.AtReturn | internal/metrics/scraper.go:160-197 | at the return no slot is held, every wanted device was collected exactly once unless its worker gave up on a cancellation, and errors are one for each device not collected well |
| SlotPool.NilIffAllCollected | internal/metrics/scraper.go:190-197 | no error if and only if every wanted device was collected well |
| SlotPool.NoSlotIsStuck | internal/metrics/strategies.go:404-429 | with no slot and a wanted device an uncancelled call never returns, and soon only a cancellation is possible |
| Pools.ScrapesEachWantedDeviceOnce | internal/metrics/scraper.go:134-198 | when the scrape pool returns: each device with the tag scraped once and no other, one entry a failed scrape, nil if and only if none failed |
| Pools.ScrapesInFlight | internal/metrics/scraper.go:141-173 | at most the configured number of scrapes at once, and while fewer are in flight no wanted device waits |
| Pools.ParallelInFlight | internal/metrics/strategies.go:188-202 | at most the configured number of collections at once, and while fewer are in flight no worker waits |
| Pools.AdaptiveInFlight | internal/metrics/strategies.go:391-429 | the same by group: at most the maximum, half of it, or one |
| Pools.HasTag | internal/metrics/scraper.go:200-207 | true if and only if the tag is among the device's |
| Pools.ParallelResult | internal/metrics/strategies.go:182-228 | nil if and only if every device was collected without error; uncancelled, each exactly once |
| Pools.AdaptiveCollectsEachOnce | internal/metrics/strategies.go:346-360 | an uncancelled adaptive run collects every listed device exactly once over its three groups |
| Pools.GroupFinishesIff | internal/metrics/strategies.go:391-429 | a group can finish uncancelled if and only if it is not a medium group with members under a maximum of one |
| Pools.MediumGroupHangs | internal/metrics/strategies.go:391-429 | under a maximum of one, once its goroutines are started a medium group with members can only be cancelled |
| AdaptiveScraping.MembersArePositions | internal/metrics/strategies.go:362-389 | the groups partition the input: each lists in order, once, exactly the positions of its devices |
| AdaptiveScraping.AdaptiveStrategy.CategorizeDevices | internal/metrics/strategies.go:362-389 | a device is in low iff its record has over 3 errors in a row or a rate over the threshold, in high iff neither and its average is under 100ms and its rate under 0.1, in medium otherwise, unseen devices included |
| AdaptiveScraping.FourFailuresAreLow | internal/metrics/strategies.go:379-380 | four failures at the end of any history put a device in low |
| AdaptiveScraping.AverageIsBetween | internal/metrics/strategies.go:459-467 | the new average latency is the middle of the old one and the new latency, and a success clears the error count |
| AdaptiveScraping.AdaptiveStrategy.UpdatePerformanceHistory | internal/metrics/strategies.go:449-469 | only the device's record changes, to its update by the outcome |
| AdaptiveScraping.HistoryIsSummarised | internal/metrics/strategies.go:449-469 | over any history the error rate is the sum of 0.1 * 0.9^age over failures and stays in [0, 1), the error count is the number of failures at the end, and the last success the one before them |
| AdaptiveScraping.GoodDevicesBecomeHigh | internal/metrics/strategies.go:379-385 | from any state, after enough good outcomes no slower than some latency under 100ms, the device is in the high group and stays there; how many suffice is computed |
| AdaptiveScraping.LatencyRecovers | internal/metrics/strategies.go:459-459 | under truncating division of a sum that wraps, from any int64, the average gets down to the latency bound once 2^n exceeds the excess |
| AdaptiveScraping.RateRecovers | internal/metrics/strategies.go:461-468 | the error rate gets under both limits |
| RateLimiting.RateLimiter.Allow | internal/security/security.go:149-178 | a known client keeps its limiter and is stamped; a new one gets a new limiter, after the oldest entry made room at capacity and only there |
| RateLimiting.RateLimiter.AllowSlow | internal/security/security.go:160-177 | the same for the re-checked path under the write lock |
| RateLimiting.RateLimiter.EvictOldest | internal/security/security.go:182-198 | exactly one entry goes, one with the least stamp; none from an empty table |
| RateLimiting.RateLimiter.Cleanup | internal/security/security.go:201-211 | exactly the entries idle for longer than the limit go |
| LimiterRuns.RunsAreSafe | internal/security/security.go:149-211 | in every interleaving the table stays within its cap, no two clients share a limiter, and a client's calls between two creations of its entry get one limiter |
| LimiterRuns.RunsKeepTheRecent | internal/security/security.go:149-211 | with a strictly increasing clock a client stored later than a resident one is resident, clean-up included |
| LimiterRuns.RunsFillUpFirst | internal/security/security.go:160-177 | without clean-up a client is displaced only at capacity |
| LimiterRuns.CleanupDropsTheIdle | internal/security/security.go:201-211 | in every interleaving a clean-up drops exactly the clients stamped before its cutoff and leaves the others as they are |
| LimiterRuns.ResidentsAreTheLatest | internal/security/security.go:149-198 | without clean-up a client ever admitted is resident if and only if fewer than the cap were stored after it |
| LimiterRuns.StampsAreLastUses | internal/security/security.go:149-178 | while no two calls of one client overlap between reading the clock and storing it, every stamp is the client's latest reading |
| LimiterRuns.UsedLaterIsResident | internal/security/security.go:149-211 | then a client used later than a resident one is resident, clean-up included |
| LimiterRuns.ResidentsByLastUse | internal/security/security.go:149-198 | then, without clean-up, a client is resident if and only if fewer than the cap were used after it |
| LimiterRuns.OverlapCanReorder | internal/security/security.go:151-157 | from every reachable overlap the stores can come in the other order, and then the stamp is not the latest reading |
| LimiterRuns.OverlapEvictsTheLastUsed | internal/security/security.go:151-198 | a run in which such an overlap makes the table evict the client that was used last |
| CacheRuns.CacheMeetsSpec | internal/cache/device_cache.go:85-229 | in every order of its steps the cache answers as the specification: last installed snapshot by id less what was invalidated since, or nothing from maxAge on |
| CacheRuns.AgreementStep | internal/cache/device_cache.go:85-229 | one step keeps cache and specification in agreement: shared fetch time, entries from the snapshot, all of them while they are young |
| CacheRuns.CleanupIsInvisible | internal/cache/device_cache.go:210-229 | stale-entry clean-up, wherever it runs, changes no later hit, miss or counter |
| CacheRuns.FetchTimeMovesForward | internal/cache/device_cache.go:147-161 | in every reachable state all entries carry the last fetch time, which only moves back on Clear |
| DeviceCaching.DeviceCache.GetDevices | internal/cache/device_cache.go:85-161 | a hit answers young entries and changes only the counter; a miss answers and installs the fetch, or reports its error and installs nothing |
| DeviceCaching.DeviceCache.Collect | internal/cache/device_cache.go:93-104 | what a hit returns lies between the entries young at the last and at the first clock reading, each id once |
| DeviceCaching.DeviceCache.TryHit | internal/cache/device_cache.go:91-124 | a hit if and only if not forced and younger than the TTL; with one clock reading it is the step of the specification |
| DeviceCaching.ByIdIsTheLast | internal/cache/device_cache.go:147-154 | the snapshot has exactly the fetched ids, each with the device listed last under it |
| DeviceCaching.DeviceCache.Install | internal/cache/device_cache.go:142-161 | the fetched devices by id, last occurrence winning, all with the fetch time |
| DeviceCaching.DeviceCache.GetCacheStats | internal/cache/device_cache.go:164-186 | the counters, their ratio, the number of entries and the fetch time as they are |
| DeviceCaching.DeviceCache.InvalidateDevice | internal/cache/device_cache.go:189-195 | only that device goes |
| DeviceCaching.DeviceCache.Clear | internal/cache/device_cache.go:198-207 | the cache is as new |
| DeviceCaching.DeviceCache.CleanupStaleEntries | internal/cache/device_cache.go:210-229 | exactly the entries older than maxAge go, none older is left, and the number of those is returned |
| Retry.DoWithRetry | internal/api/client.go:188-242 | meets the retry specification with at most 3 calls; transport errors, 429 and 5xx are retried and nothing else; each wait is the jittered 100ms or 200ms, or the Retry-After of the last response if that was a 429 asking for more; exhaustion reports the last transport error, else the last status |
| Retry.RetryAfterOfTheLast | internal/api/client.go:222-228 | the Retry-After in force is that of the last response if a 429, and none after any other |
| Retry.NewStateStoreWithRetry | internal/server/statestore.go:42-82 | meets the same specification, call by call: no attempt after a cancellation, every earlier one failed, its own error for each way to end, and waits of the jittered backoff |
| Retry.OneOutcome | internal/api/client.go:194-242 | the specification leaves one outcome: answers and cancellation determine calls and ending |
| Retry.LatestErrorIsLast | internal/api/client.go:213-242 | the transport error reported is that of the last call that met one |
| Retry.LatestError | internal/api/client.go:213-242 | a transport error is reported if and only if some call met one |
| Retry.StartupWaitIsBounded | internal/server/statestore.go:42-82 | giving up on the state store takes between 68.25s and 113.75s of waiting |
| Backoff.CalculateDelay | internal/errors/types.go:141-156 | the loop computes base times power of the multiplier, converted as the machine does and capped |
| Backoff.DelayIsCappedPower | internal/errors/types.go:141-156 | for multiplier at least 1 and base within the cap, while the product fits an int64: the floor of base * mult^k, capped, and growing with k |
| Backoff.CappedPowerIffInRange | internal/errors/types.go:151-155 | the delay is that on every machine if and only if the product fits an int64 |
| Backoff.ShippedRanges | internal/errors/types.go:115-138 | both configurations stay in range past every attempt they allow: up to 36 and up to 33 |
| Backoff.DefaultDelays | internal/errors/types.go:115-122 | the default configuration waits 100ms, then 200ms, over 3 attempts |
| Backoff.CappedIffBaseIs | internal/errors/types.go:141-156 | no attempt exceeds the cap if and only if the base delay does not |
| Backoff.JitterStaysIff | internal/errors/jitter.go:10-30 | every draw stays within a quarter of the delay, and the clamp never acts, if and only if the delay plus a quarter fits an int64, which is up to 7378697629483820646ns |
| Backoff.LongestDelayCanVanish | internal/errors/jitter.go:25-29 | the longest delay with the highest draw wraps and is clamped to 0 |
| Backoff.JitterRange | internal/errors/jitter.go:10-30 | in that range the jittered delays are exactly the numbers within a quarter of the delay, which stay positive |
| Backoff.TotalWithinBudget | internal/errors/jitter.go:10-30 | with a cap in that range any total of jittered delays lies between the summed bounds |
| Backoff.StartupBudget | internal/errors/types.go:131-138 | the start-up delays sum to 91s, and with jitter to between 68.25s and 113.75s |
| ReloadRuns.RunsKeepInv | internal/config/dynamic.go:183-295 | in every interleaving each call's checks so far are those its stage says, and installs are counted |
| ReloadRuns.VersionCountsInstalls | internal/config/dynamic.go:254-263 | the version is one more than the number of installs, and the current configuration the last installed |
| ReloadRuns.InstalledWasCheckedByAll | internal/config/dynamic.go:190-252 | a call installs its configuration only after every validator of the list it copied accepted it and then every handler of the list it copied applied it, in order of priority |
| ReloadRuns.StoppedCallsNeverWrote | internal/config/dynamic.go:192-210 | a rejected, refused or unchanged configuration leaves that call without a write |
| ReloadRuns.TurnedAwayNeverWrites | internal/config/dynamic.go:192-210 | a call whose validator or handler said no, or whose configuration equals the one it read, never writes |
| ReloadRuns.WriteWasPrepared | internal/config/dynamic.go:192-252 | whoever writes copied the validators and the handlers added by then and read what was current, each before |
| ReloadRuns.ReloadsPassedATest | internal/config/dynamic.go:167-181 | every forced or periodic reload that began or failed to load had a test of its own that found the flag down |
| ReloadRuns.ReloadsAreExclusiveIff | internal/config/dynamic.go:167-190 | no two reloads of a run overlap if and only if none begins while another runs, and if and only if the flag is down whenever a reload puts it up |
| ReloadRuns.ExclusiveRuns | internal/config/dynamic.go:183-222 | in such runs the flag is up exactly while a reload runs, and a reload replaces the configuration its handlers were shown |
| ReloadRuns.TestAndSetIsExclusive | internal/config/dynamic.go:271-295 | testing the flag in the step before putting it up would make reloads exclusive |
| ReloadRuns.HandlersSeeWhatIsReplacedIff | internal/config/dynamic.go:183-263 | in every reachable state, for a reload that has read: without a further reload beginning it can never replace a configuration its handlers were not shown if and only if what it read is current and no other reload in flight that can still install carries anything else |
| ReloadRuns.CanBeMisled | internal/config/dynamic.go:183-263 | the harmful half, for every reachable overlap: a way to go on to the reload replacing what its handlers were not shown |
| ReloadRuns.ToItsWrite | internal/config/dynamic.go:190-252 | any reload that is not bound to stop can be brought to its install with no other reload moving |
| ReloadRuns.HandlersAreStablySorted | internal/config/dynamic.go:118-134 | in every state of every run the handler list is the stable sort of all handlers added so far |
| ReloadRuns.OverlappingReloads | internal/config/dynamic.go:271-295 | two forced reloads that both tested the flag: it comes down while one still runs, about to replace a configuration its handler was never shown |
| DynamicConfiguration.DynamicConfig.HandleConfigChange | internal/config/dynamic.go:183-222 | undisturbed: installed if and only if all accept, it differs and all apply; each other ending has its cause, the first refusal, and no write |
| DynamicConfiguration.DynamicConfig.AddChangeHandler | internal/config/dynamic.go:118-134 | the handlers are the stable sort by priority of all that were added |
| DynamicConfiguration.DynamicConfig.AddValidator | internal/config/dynamic.go:112-116 | the validator comes last |
| PriorityLists.SortByPriority | internal/server/shutdown.go:84-92 | in place, the array becomes sorted with every priority's order kept |
| PriorityLists.BubbleOnce | internal/config/dynamic.go:128-132 | one pass puts the largest of the unsorted part at its end and keeps every priority's order |
| PriorityLists.SwapKeepsOrder | internal/config/dynamic.go:129-131 | swapping neighbours of different priority keeps every priority's order |
| PriorityLists.StableSortIsUnique | internal/server/shutdown.go:84-92 | sorted with the same order within every priority means equal: the stable sort is one list |
| Shutdown.ShutdownManager.RegisterHook | internal/server/shutdown.go:71-92 | the hooks are the stable sort by priority of the whole registration sequence; the new one keeps its priority and name, and its timeout if it has one, else 30s |
| Shutdown.ShutdownManager.ExecuteShutdownHooks | internal/server/shutdown.go:169-191 | the hooks run are the longest prefix of the list reached before the deadline |
| Shutdown.OrderIsDetermined | internal/server/shutdown.go:71-92 | the registrations determine the order of the hooks |
| Shutdown.EarlierPrioritiesRunFirst | internal/server/shutdown.go:169-191 | before any hook that runs, every hook of an earlier priority has run |
| Durations.SecondsAcceptedIffTheyFit | internal/config/config.go:169-182 | the wrap-around test accepts exactly the seconds whose product fits an int64, with that value |
| Durations.RetryAfterHonouredIff | internal/api/client.go:248-261 | a number of seconds is honoured if and only if its product fits an int64 |
| Durations.RetryAfterDates | internal/api/client.go:248-261 | without a positive number a header counts as a date, and a past or unreadable one asks for no wait |
| Durations.ValidatedIff | internal/config/config.go:252-269 | validation in numbers: a port, positive settings, an interval of 5 seconds to 24 hours |
| Durations.TimeoutCoversIntervalIff | internal/server/server.go:183-192 | the cycle timeout covers the interval if and only if twice the interval fits an int64, and it never wraps for a validated interval |
| Durations.Config.LoadMetricsSettings | internal/config/config.go:184-199 | unreadable timeouts keep the default, unreadable intervals become 0 |
| AddressGuard.CheckBlockedIP | internal/metrics/scraper.go:539-559 | blocked if and only if a literal whose carried address is in a network of the table |
| AddressGuard.EmbeddingsAgree | internal/metrics/scraper.go:539-559 | an IPv4 address and its mapped, compatible and NAT64 forms, in any zone, get one verdict |
| AddressGuard.ForbiddenRanges | internal/metrics/scraper.go:481-515 | in IPv6 the classifier is membership in one union of 128-bit ranges, given in numbers |
| AddressGuard.TableIs | internal/metrics/scraper.go:481-500 | the table as ranges of numbers, for both families |
| AddressGuard.Local6EntriesAreRedundant | internal/metrics/scraper.go:485-486 | without the entries for ::1 and :: the verdicts are the same |
| DeviceNames.SanitizeIsClean | internal/types/types.go:82-98 | the output is empty or valid, never starts with a dash and has no two dashes in a row |
| DeviceNames.SanitizeJoinsTheWords | internal/types/types.go:82-94 | the output is the runs of kept characters of the lowered name, joined by single dashes, up to 253 characters |
| DeviceNames.ValidIff | internal/types/types.go:96-98 | a valid name has 1 to 253 letters, digits, dashes, dots and underscores |
| DeviceNames.SanitizedOnceIff | internal/types/types.go:82-94 | one application is a fixed point if and only if the cut at 253 leaves no dash at the end |
| DeviceNames.SanitizedTwice | internal/types/types.go:82-94 | two applications always are |
| DeviceNames.CutLeavesADash | internal/types/types.go:88-94 | 252 letters, a dash and a letter: the second application takes off what the cut left |

## Left out

- HTTP, TLS, tsnet, OAuth, DNS and the dialer: every call is an outcome given as an input (transport error, status, body, success); redirects and host name validation are not modelled.
- The 10 MB cap on responses, content types and response headers other than Retry-After.
- Listing devices: the list of a cycle is an input; the listing function never returns an error, a failed API call only yields the static or the empty list.
- `time.ParseDuration`, `strconv.Atoi`, `strconv.ParseFloat` and date parsing: parameters; a parsed gauge value is a real, so NaN and infinities are not represented.
- The regular expression engine: the one metric line pattern is a matcher proved equal to its grammar.
- ApiSeries.Truncate: label texts are code points there; a text that is no valid UTF-8 is not represented.
- White space outside ASCII, which strings.TrimSpace also removes: text is bytes and white space is ASCII.
- Histograms and counters (scrape errors, device errors, cycle durations, cache hit ratio): neither deletion list touches them.
- The token bucket of golang.org/x/time/rate: a limiter is an identity, and whether it lets a call through is not modelled.
- LastAccess, AccessCount and the size estimate of cached devices: nothing reads them to decide anything.
- CacheRuns.CacheMeetsSpec: the number of entries in the statistics is not an output of the specification, because stale-entry clean-up does change it.
- Backoff.CalculateDelay: floating point is done over reals, so the rounding of a product is not captured; what a product outside int64 converts to is a parameter.
- AdaptiveScraping.AdaptiveStrategy.UpdatePerformanceHistory: rates are reals, so rounding is not captured.
- AdaptiveScraping.GoodDevicesBecomeHigh: gives a sufficient number of good outcomes, not the least one.
- LimiterRuns.RunsKeepTheRecent: recency is that of the stamps stored; LimiterRuns.UsedLaterIsResident says when it is that of use.
- Cycles.FrequentRunsLeaveNoOrphans: one way, from timing alone; exact conditions are those of Cycles.RunsStayOwnedIff and CycleTiming.ValidatedConfigKeepsOwnedIff.
- ReloadRuns.InstalledWasCheckedByAll: configurations are known by their JSON encoding, as the code compares them; sorting the handler list, done under the lock, is one step here and is proved in DynamicConfiguration.
- Shutdown.ShutdownManager.ExecuteShutdownHooks: a hook that overruns its own timeout is abandoned by the program; here a hook is only started or not.
- Durations.Config.LoadMetricsSettings: environment variables arrive as the readings of their text.
- DeviceNames.SanitizeIsClean: lower-casing is a parameter of which only idempotence on allowed letters and the dash are used.
- Sequential and priority strategies, the strategy manager, HTTP handlers, middleware, token checks, health reports, environment and container detection: branch-level code.
- Helm charts, Kustomize overlays, dashboards and container files.
