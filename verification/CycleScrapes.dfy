/** A collection cycle around its concurrent scrapes: whatever the interleaving, the gauge
    writes of the scrapes are a list the cycle of `Cycles` accepts, and they leave every
    client series of a scraped device at the last valid line of its own response. */
module CycleScrapes {
  import opened Registry
  import opened ConcurrentScrapes
  import opened ApiSeries
  import opened Cycles
  import Scrapes

  /** The listed devices at the given positions, as a scrape sees them. */
  function Targets(devices: seq<Device>, chosen: seq<nat>): seq<Scrapes.Device>
    requires forall t | 0 <= t < |chosen| :: chosen[t] < |devices|
  {
    seq(|chosen|, t requires 0 <= t < |chosen| => Scrapes.Device(devices[chosen[t]].id, devices[chosen[t]].name))
  }

  ghost predicate OfListed(devices: seq<Device>, s: Scrape) {
    forall w | w in s :: ScrapedFrom(devices, w)
  }

  /** Scrapes of listed devices write client series of listed devices only. */
  lemma ResponsesAreOfListed(devices: seq<Device>, chosen: seq<nat>, parse: Scrapes.Float, responses: seq<Response>)
    requires |chosen| == |responses| && forall t | 0 <= t < |chosen| :: chosen[t] < |devices|
    ensures forall t | 0 <= t < |chosen| :: OfListed(devices, ScrapesOf(Targets(devices, chosen), parse, responses)[t])
  {
    var named := Targets(devices, chosen);
    forall t | 0 <= t < |chosen| ensures OfListed(devices, ScrapesOf(named, parse, responses)[t]) {
      ScrapeIsOwn(named[t], parse, responses[t]);
      assert devices[chosen[t]].id in Ids(devices);
    }
  }

  /** Every interleaving of such scrapes is a list of writes a cycle may have. */
  lemma {:induction false} ScrapesFeedTheCycle(devices: seq<Device>, scrapes: seq<Scrape>, schedule: seq<nat>, done: seq<nat>)
    requires Follows(scrapes, schedule, done)
    requires forall t | 0 <= t < |scrapes| :: OfListed(devices, scrapes[t])
    ensures forall i | 0 <= i < |Applied(scrapes, schedule, done)| :: ScrapedFrom(devices, Applied(scrapes, schedule, done)[i])
    decreases |schedule|
  {
    if schedule != [] {
      var t, n := schedule[|schedule|-1], |schedule| - 1;
      ScrapesFeedTheCycle(devices, scrapes, schedule[..n], done[t := done[t] - 1]);
      assert OfListed(devices, scrapes[t]) && scrapes[t][done[t]-1] in scrapes[t];
    }
  }

  /** What a complete interleaving of compatible scrapes writes last to a series. */
  lemma LastApplied(scrapes: seq<Scrape>, schedule: seq<nat>, done: seq<nat>, k: Series)
    requires Compatible(scrapes) && Follows(scrapes, schedule, done) && Complete(scrapes, done)
    ensures forall t | 0 <= t < |scrapes| && LastWrite(scrapes[t], k).Present? ::
      LastWrite(Applied(scrapes, schedule, done), k) == LastWrite(scrapes[t], k)
    ensures (forall t | 0 <= t < |scrapes| :: LastWrite(scrapes[t], k) == Absent) ==>
      LastWrite(Applied(scrapes, schedule, done), k) == Absent
  {
    var r := Execute(map[], scrapes, schedule, done);
    assert EndsBy(map[], scrapes, schedule, done, r);
    EndValue(map[], scrapes, r, k);
    ExecuteIsWriteAll(map[], scrapes, schedule, done);
    LastWriteWins(map[], Applied(scrapes, schedule, done), k);
  }

  /** A whole cycle, end to end: for every complete interleaving of compatible scrapes,
      every client series of a listed device holds the last valid line of any response that
      has one for it, or what it held before. */
  lemma ClientSeriesAfterCycle(s: State, c: Inputs, scrapes: seq<Scrape>, schedule: seq<nat>, done: seq<nat>, k: Series)
    requires Proper(c) && Consistent(s) && IsClient(k.family) && k.id in Ids(c.devices)
    requires Compatible(scrapes) && Follows(scrapes, schedule, done) && Complete(scrapes, done)
    requires c.scraped == Applied(scrapes, schedule, done)
    ensures forall t | 0 <= t < |scrapes| && LastWrite(scrapes[t], k).Present? ::
      Lookup(Step(s, c).values, k) == LastWrite(scrapes[t], k)
    ensures (forall t | 0 <= t < |scrapes| :: LastWrite(scrapes[t], k) == Absent) ==>
      Lookup(Step(s, c).values, k) == Lookup(s.values, k)
  {
    LastApplied(scrapes, schedule, done, k);
    ValuesAfter(s, c, k);
    NoApiWrite(c.devices, k);
    DeletionLists(k.family);
  }

  lemma NoApiWrite(devices: seq<Device>, k: Series)
    requires IsClient(k.family)
    ensures LastWrite(AllApiWrites(devices), k) == Absent
  {
    ApiWritesOfListed(devices);
    NeverWritten(AllApiWrites(devices), k);
  }
}
