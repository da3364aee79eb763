/** Which device lists scrape the same whatever the interleaving, tag filter included. */
module ScrapeLists {
  import opened Registry
  import opened MetricLine
  import opened ConcurrentScrapes
  import Scrapes
  import Pools

  datatype Listed = Listed(device: Scrapes.Device, tags: seq<Pools.Tag>)

  /** The devices ScrapeClientMetrics scrapes, in order. */
  function Scraped(devices: seq<Listed>, tag: Pools.Tag): seq<Scrapes.Device> {
    if devices == [] then []
    else
      var last := devices[|devices|-1];
      Scraped(devices[..|devices|-1], tag) + (if Pools.Wanted(last.tags, tag) then [last.device] else [])
  }

  predicate Twice(devices: seq<Listed>, tag: Pools.Tag, t: nat, u: nat) {
    && t < u < |devices| && devices[t].device == devices[u].device
    && (tag == "" || (tag in devices[t].tags && tag in devices[u].tags))
  }

  predicate At(devices: seq<Listed>, tag: Pools.Tag, t: nat, d: Scrapes.Device) {
    t < |devices| && devices[t].device == d && (tag == "" || tag in devices[t].tags)
  }

  lemma {:induction false} ScrapedAre(devices: seq<Listed>, tag: Pools.Tag, d: Scrapes.Device)
    ensures d in Scraped(devices, tag) <==> exists t :: At(devices, tag, t, d)
  {
    if devices != [] {
      var n := |devices| - 1;
      ScrapedAre(devices[..n], tag, d);
      if t :| At(devices[..n], tag, t, d) { assert At(devices, tag, t, d); }
      if t: nat :| t < n && At(devices, tag, t, d) { assert At(devices[..n], tag, t, d); }
      if At(devices, tag, n, d) { assert d == devices[n].device; }
    }
  }

  lemma DistinctAppend(ds: seq<Scrapes.Device>, d: Scrapes.Device)
    ensures Distinct(ds + [d]) <==> Distinct(ds) && d !in ds
  {
    var l := ds + [d];
    if Distinct(l) {
      forall t, u | 0 <= t < u < |ds| ensures ds[t] != ds[u] { assert l[t] != l[u]; }
      forall t | 0 <= t < |ds| ensures ds[t] != d { assert l[t] != l[|ds|]; }
    }
  }

  lemma {:induction false} ScrapedDistinctIff(devices: seq<Listed>, tag: Pools.Tag)
    ensures Distinct(Scraped(devices, tag)) <==> !exists t, u :: Twice(devices, tag, t, u)
  {
    if devices != [] {
      var n := |devices| - 1;
      var front, d := devices[..n], devices[n].device;
      ScrapedDistinctIff(front, tag);
      forall t, u | Twice(front, tag, t, u) ensures Twice(devices, tag, t, u) {}
      forall t: nat, u: nat | u < n && Twice(devices, tag, t, u) ensures Twice(front, tag, t, u) {}
      if Pools.Wanted(devices[n].tags, tag) {
        DistinctAppend(Scraped(front, tag), d);
        ScrapedAre(front, tag, d);
        if t :| At(front, tag, t, d) { assert Twice(devices, tag, t, n); }
        forall t | Twice(devices, tag, t, n) ensures At(front, tag, t, d) {}
      } else {
        assert Scraped(devices, tag) == Scraped(front, tag);
      }
    }
  }

  /** Whatever the scraped devices answer, all interleavings agree if and only if no id and
      name are listed together twice with the tag.  `a` and `b` are any two literals with
      different values. */
  lemma ListConfluentIff(m: Values, devices: seq<Listed>, tag: Pools.Tag, parse: Scrapes.Float, a: string, b: string)
    requires a != "" && All(a, ValueChar) && b != "" && All(b, ValueChar)
    requires parse(a).Some? && parse(b).Some? && parse(a) != parse(b)
    ensures AlwaysConfluent(m, Scraped(devices, tag), parse) <==> !exists t, u :: Twice(devices, tag, t, u)
  {
    DeviceListConfluentIff(m, Scraped(devices, tag), parse, a, b);
    ScrapedDistinctIff(devices, tag);
  }
}
