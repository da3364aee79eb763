/** The device tracker of internal/metrics/tracker.go and the collection cycle of
    internal/metrics/collector.go. */
module Cycles {
  import opened Identifiers
  import opened Registry
  import opened ApiSeries

  const FIVE_MINUTES := 5 * 60 * 1_000_000_000

  function Ids(devices: seq<Device>): (ids: set<DeviceId>) { set i | 0 <= i < |devices| :: devices[i].id }

  lemma IdsNext(devices: seq<Device>, i: nat)
    requires i < |devices|
    ensures Ids(devices[..i+1]) == Ids(devices[..i]) + {devices[i].id}
  {
    forall id | id in Ids(devices[..i]) ensures id in Ids(devices[..i+1]) {
      var j :| 0 <= j < i && devices[..i][j].id == id;
      assert devices[..i+1][j].id == id;
    }
    assert devices[..i+1][i].id == devices[i].id;
  }

  function Mark(lastSeen: map<DeviceId, int>, devices: seq<Device>, marks: seq<int>): (m: map<DeviceId, int>)
    requires |devices| == |marks|
    ensures m.Keys == lastSeen.Keys + Ids(devices)
    ensures forall id | id in lastSeen && id !in Ids(devices) :: m[id] == lastSeen[id]
  {
    if devices == [] then lastSeen
    else
      var n := |devices| - 1;
      assert Ids(devices) == Ids(devices[..n]) + {devices[n].id};
      Mark(lastSeen, devices[..n], marks[..n])[devices[n].id := marks[n]]
  }

  function Stale(lastSeen: map<DeviceId, int>, staleAfter: int, now: int): set<DeviceId> {
    set id | id in lastSeen && now - lastSeen[id] > staleAfter
  }

  /** Without the series of the given devices in the given families. */
  function Dropped(m: Values, families: set<Family>, ids: set<DeviceId>): Values {
    map k | k in m && !(k.family in families && k.id in ids) :: m[k]
  }

  lemma DropOneMore(m: Values, families: set<Family>, ids: set<DeviceId>, id: DeviceId)
    ensures Dropped(m, families, ids + {id}) == Without(Dropped(m, families, ids), families, id)
  {
  }

  function AllApiWrites(devices: seq<Device>): seq<Write> {
    if devices == [] then [] else AllApiWrites(devices[..|devices|-1]) + ApiWrites(devices[|devices|-1])
  }

  function Online(devices: seq<Device>): nat {
    if devices == [] then 0 else Online(devices[..|devices|-1]) + (if devices[|devices|-1].online then 1 else 0)
  }

  lemma DeviceNext(m: Values, devices: seq<Device>, i: nat)
    requires i < |devices|
    ensures WriteAll(m, AllApiWrites(devices[..i+1]))
         == WriteAll(WriteAll(m, AllApiWrites(devices[..i])), ApiWrites(devices[i]))
    ensures Online(devices[..i+1]) == Online(devices[..i]) + (if devices[i].online then 1 else 0)
  {
    assert devices[..i+1][..i] == devices[..i];
    WriteAllConcat(m, AllApiWrites(devices[..i]), ApiWrites(devices[i]));
  }

  /** Everything a cycle takes from outside: the device list, the writes of the scrapes in
      the order they happen, and the clock readings at which devices are marked, the stale
      check is made and the seen devices are refreshed. */
  datatype Inputs = Inputs(
    devices: seq<Device>, marks: seq<int>, staleAt: int, scraped: seq<Write>, seenAt: map<DeviceId, int>)

  predicate ScrapedFrom(devices: seq<Device>, w: Write) { IsClient(w.series.family) && w.series.id in Ids(devices) }

  ghost predicate Proper(c: Inputs) {
    && |c.marks| == |c.devices| && Ids(c.devices) <= c.seenAt.Keys
    && forall i | 0 <= i < |c.scraped| :: ScrapedFrom(c.devices, c.scraped[i])
  }

  datatype State = State(known: set<DeviceId>, lastSeen: map<DeviceId, int>, values: Values)

  const INITIAL := State({}, map[], map[])

  function Seen(c: Inputs): map<DeviceId, int>
    requires Ids(c.devices) <= c.seenAt.Keys
  {
    map id | id in Ids(c.devices) :: c.seenAt[id]
  }

  /** The state after the stale devices lost what the inline list deletes. */
  function Expired(s: State, c: Inputs): State
    requires |c.marks| == |c.devices|
  {
    var marked := Mark(s.lastSeen, c.devices, c.marks);
    var stale := Stale(marked, FIVE_MINUTES, c.staleAt);
    State(s.known + Ids(c.devices) - stale, marked - stale, Dropped(s.values, INLINE_LIST, stale))
  }

  /** One cycle of UpdateMetrics. */
  function Step(s: State, c: Inputs): State
    requires |c.marks| == |c.devices| && Ids(c.devices) <= c.seenAt.Keys
  {
    var e := Expired(s, c);
    var written := WriteAll(WriteAll(e.values, AllApiWrites(c.devices)), c.scraped);
    var removed := e.known - Ids(c.devices);
    State(e.known - removed + Ids(c.devices), (e.lastSeen - removed) + Seen(c), Dropped(written, CLEANUP_LIST, removed))
  }

  class DeviceMetricsTracker {
    var knownDevices: set<DeviceId>
    var lastSeen: map<DeviceId, int>

    constructor ()
      ensures knownDevices == {} && lastSeen == map[]
    {
      knownDevices, lastSeen := {}, map[];
    }

    method MarkDeviceActive(id: DeviceId, now: int)
      modifies this
      ensures knownDevices == old(knownDevices) + {id} && lastSeen == old(lastSeen)[id := now]
    {
      knownDevices := knownDevices + {id};
      lastSeen := lastSeen[id := now];
    }

    method CleanupStaleDevices(staleAfter: int, now: int) returns (stale: set<DeviceId>)
      modifies this
      ensures stale == Stale(old(lastSeen), staleAfter, now)
      ensures knownDevices == old(knownDevices) - stale && lastSeen == old(lastSeen) - stale
    {
      stale := {};
      var rest := lastSeen.Keys;
      while rest != {}
        invariant rest <= lastSeen.Keys <= old(lastSeen).Keys
        invariant stale == set id | id in old(lastSeen) && id !in rest && now - old(lastSeen)[id] > staleAfter
        invariant knownDevices == old(knownDevices) - stale && lastSeen == old(lastSeen) - stale
        decreases rest
      {
        var id :| id in rest;
        rest := rest - {id};
        if now - lastSeen[id] > staleAfter {
          stale := stale + {id};
          knownDevices := knownDevices - {id};
          lastSeen := lastSeen - {id};
        }
      }
    }

    /** `seenAt` gives the clock reading taken for each seen device. */
    method CleanupRemovedDevices(g: Gauges, seen: set<DeviceId>, seenAt: map<DeviceId, int>)
      requires seen <= seenAt.Keys
      modifies this, g
      ensures var removed := old(knownDevices) - seen;
        && knownDevices == old(knownDevices) - removed + seen
        && lastSeen == (old(lastSeen) - removed) + (map id | id in seen :: seenAt[id])
        && g.series == Dropped(old(g.series), CLEANUP_LIST, removed)
    {
      RemoveUnseen(g, seen);
      RefreshSeen(seen, seenAt);
    }

    method RefreshSeen(seen: set<DeviceId>, seenAt: map<DeviceId, int>)
      requires seen <= seenAt.Keys
      modifies this
      ensures knownDevices == old(knownDevices) + seen
      ensures lastSeen == old(lastSeen) + (map id | id in seen :: seenAt[id])
    {
      var rest := seen;
      ghost var base, baseKnown := lastSeen, knownDevices;
      while rest != {}
        invariant rest <= seen && knownDevices == baseKnown + (seen - rest)
        invariant lastSeen == base + (map id | id in seen - rest :: seenAt[id])
        decreases rest
      {
        var id :| id in rest;
        rest := rest - {id};
        knownDevices := knownDevices + {id};
        lastSeen := lastSeen[id := seenAt[id]];
      }
    }

    method RemoveUnseen(g: Gauges, seen: set<DeviceId>)
      modifies this, g
      ensures var removed := old(knownDevices) - seen;
        && knownDevices == old(knownDevices) - removed && lastSeen == old(lastSeen) - removed
        && g.series == Dropped(old(g.series), CLEANUP_LIST, removed)
    {
      var rest := knownDevices;
      ghost var known, last, series := knownDevices, lastSeen, g.series;
      ghost var removed: set<DeviceId> := {};
      while rest != {}
        invariant rest <= known && removed == known - seen - rest
        invariant knownDevices == known - removed && lastSeen == last - removed
        invariant g.series == Dropped(series, CLEANUP_LIST, removed)
        decreases rest
      {
        var id :| id in rest;
        rest := rest - {id};
        if id !in seen {
          g.DeleteDevice(CLEANUP_LIST, id);
          knownDevices := knownDevices - {id};
          lastSeen := lastSeen - {id};
          DropOneMore(series, CLEANUP_LIST, removed, id);
          removed := removed + {id};
        }
      }
    }
  }

  class Collector {
    const tracker: DeviceMetricsTracker
    const gauges: Gauges
    var deviceCount: nat
    var onlineDevices: nat

    constructor ()
      ensures fresh(tracker) && fresh(gauges) && Current() == INITIAL
    {
      tracker := new DeviceMetricsTracker();
      gauges := new Gauges();
      deviceCount, onlineDevices := 0, 0;
    }

    function Current(): State
      reads tracker, gauges
    {
      State(tracker.knownDevices, tracker.lastSeen, gauges.series)
    }

    /** The writes of the scrapes arrive in `c.scraped`; fetching never fails, a failed
        listing yields the static or the empty list. */
    method UpdateMetrics(c: Inputs)
      requires Proper(c)
      modifies this, tracker, gauges
      ensures Current() == Step(old(Current()), c)
      ensures deviceCount == |c.devices| && onlineDevices == Online(c.devices)
    {
      deviceCount := |c.devices|;
      MarkAndExpire(c);
      var seen := WriteDevices(c.devices);
      WriteInOrder(c.scraped);
      tracker.CleanupRemovedDevices(gauges, seen, c.seenAt);
    }

    method MarkAll(devices: seq<Device>, marks: seq<int>)
      requires |marks| == |devices|
      modifies tracker
      ensures tracker.lastSeen == Mark(old(tracker.lastSeen), devices, marks)
      ensures tracker.knownDevices == old(tracker.knownDevices) + Ids(devices)
    {
      for i := 0 to |devices|
        invariant tracker.lastSeen == Mark(old(tracker.lastSeen), devices[..i], marks[..i])
        invariant tracker.knownDevices == old(tracker.knownDevices) + Ids(devices[..i])
      {
        tracker.MarkDeviceActive(devices[i].id, marks[i]);
        assert devices[..i+1][..i] == devices[..i] && marks[..i+1][..i] == marks[..i];
        IdsNext(devices, i);
      }
      assert devices[..|devices|] == devices && marks[..|marks|] == marks;
    }

    method MarkAndExpire(c: Inputs)
      requires |c.marks| == |c.devices|
      modifies tracker, gauges
      ensures Current() == Expired(old(Current()), c)
    {
      MarkAll(c.devices, c.marks);
      var stale := tracker.CleanupStaleDevices(FIVE_MINUTES, c.staleAt);
      DeleteStale(stale);
    }

    method DeleteStale(stale: set<DeviceId>)
      modifies gauges
      ensures gauges.series == Dropped(old(gauges.series), INLINE_LIST, stale)
    {
      var rest := stale;
      while rest != {}
        invariant rest <= stale && gauges.series == Dropped(old(gauges.series), INLINE_LIST, stale - rest)
        decreases rest
      {
        var id :| id in rest;
        rest := rest - {id};
        gauges.DeleteDevice(INLINE_LIST, id);
      }
    }

    method WriteDevices(devices: seq<Device>) returns (seen: set<DeviceId>)
      modifies gauges, this`onlineDevices
      ensures gauges.series == WriteAll(old(gauges.series), AllApiWrites(devices))
      ensures seen == Ids(devices) && onlineDevices == Online(devices)
    {
      seen := {};
      var onlineCount := 0;
      ghost var before := gauges.series;
      for i := 0 to |devices|
        invariant gauges.series == WriteAll(before, AllApiWrites(devices[..i]))
        invariant seen == Ids(devices[..i]) && onlineCount == Online(devices[..i])
      {
        WriteInOrder(ApiWrites(devices[i]));
        seen := seen + {devices[i].id};
        if devices[i].online { onlineCount := onlineCount + 1; }
        IdsNext(devices, i);
        DeviceNext(before, devices, i);
      }
      assert devices[..|devices|] == devices;
      onlineDevices := onlineCount;
    }

    method WriteInOrder(ws: seq<Write>)
      modifies gauges
      ensures gauges.series == WriteAll(old(gauges.series), ws)
    {
      for i := 0 to |ws|
        invariant gauges.series == WriteAll(old(gauges.series), ws[..i])
      {
        gauges.Set(ws[i]);
        assert ws[..i+1][..i] == ws[..i];
      }
      assert ws[..|ws|] == ws;
    }
  }

  // ---- What every cycle establishes ----

  ghost predicate ApiOwned(s: State, ids: set<DeviceId>) {
    forall k | k in s.values && !IsClient(k.family) :: k.id in ids
  }

  ghost predicate ClientOwned(s: State, ids: set<DeviceId>) {
    forall k | k in s.values && IsClient(k.family) :: k.id in ids
  }

  /** Between cycles: one set of devices in both maps, and in every API series. */
  ghost predicate Consistent(s: State) {
    s.lastSeen.Keys == s.known && ApiOwned(s, s.known)
  }

  lemma {:induction false} ApiWritesOfListed(devices: seq<Device>)
    ensures forall i | 0 <= i < |AllApiWrites(devices)| ::
      !IsClient(AllApiWrites(devices)[i].series.family) && AllApiWrites(devices)[i].series.id in Ids(devices)
  {
    if devices != [] {
      var n := |devices| - 1;
      ApiWritesOfListed(devices[..n]);
      ApiWritesAreOwn(devices[n]);
      IdsNext(devices, n);
      assert devices[..n+1] == devices;
      var front, own, all := AllApiWrites(devices[..n]), ApiWrites(devices[n]), AllApiWrites(devices);
      forall i: nat | i < |all| ensures !IsClient(all[i].series.family) && all[i].series.id in Ids(devices) {
        if i >= |front| { assert OwnApiWrite(devices[n], own[i - |front|]); }
      }
    }
  }

  lemma {:induction false} WrittenKeys(m: Values, ws: seq<Write>, k: Series)
    ensures k in WriteAll(m, ws) <==> k in m || exists i :: 0 <= i < |ws| && ws[i].series == k
  {
    if ws != [] {
      var n := |ws| - 1;
      WrittenKeys(m, ws[..n], k);
      if i :| 0 <= i < n && ws[i].series == k { assert ws[..n][i].series == k; }
      if i :| 0 <= i < n && ws[..n][i].series == k { assert ws[i].series == k; }
    }
  }

  /** The keys of the registry after a cycle. */
  lemma KeysAfter(s: State, c: Inputs, k: Series)
    requires Proper(c)
    ensures k in Step(s, c).values ==> k.id in Ids(c.devices) || k in Expired(s, c).values
    ensures k in Expired(s, c).values ==> (k in Step(s, c).values <==> k.id !in Expired(s, c).known - Ids(c.devices))
  {
    var e := Expired(s, c);
    var api := AllApiWrites(c.devices);
    ApiWritesOfListed(c.devices);
    WrittenKeys(e.values, api, k);
    WrittenKeys(WriteAll(e.values, api), c.scraped, k);
    if i :| 0 <= i < |c.scraped| && c.scraped[i].series == k { assert ScrapedFrom(c.devices, c.scraped[i]); }
    DeletionLists(k.family);
  }

  /** After a cycle, whatever the clock did, both maps have exactly the listed devices as
      keys and every API series belongs to one of them. */
  lemma CycleIsConsistent(s: State, c: Inputs)
    requires Proper(c) && Consistent(s)
    ensures Step(s, c).known == Step(s, c).lastSeen.Keys == Ids(c.devices)
    ensures ApiOwned(Step(s, c), Ids(c.devices))
  {
    CycleIsApiOwned(s, c);
  }

  lemma CycleIsApiOwned(s: State, c: Inputs)
    requires Proper(c) && Consistent(s)
    ensures ApiOwned(Step(s, c), Ids(c.devices))
  {
    forall k | k in Step(s, c).values && !IsClient(k.family) ensures k.id in Ids(c.devices) {
      KeysAfter(s, c, k);
      DeletionLists(k.family);
    }
  }

  /** No client series belongs to an unlisted device that was last seen over five minutes
      before the stale check. */
  ghost predicate NoneLate(s: State, c: Inputs) {
    forall k | k in s.values && IsClient(k.family) && k.id !in Ids(c.devices) ::
      k.id in s.lastSeen && c.staleAt - s.lastSeen[k.id] <= FIVE_MINUTES
  }

  /** Client series: a cycle keeps them with listed devices if and only if none is late;
      of a late one the inline list deletes the device's record but not those series. */
  lemma ClientSeriesStayOwnedIff(s: State, c: Inputs)
    requires Proper(c) && Consistent(s) && ClientOwned(s, s.known)
    ensures ClientOwned(Step(s, c), Ids(c.devices)) <==> NoneLate(s, c)
  {
    var s', e := Step(s, c), Expired(s, c);
    forall k: Series | IsClient(k.family)
      ensures k in e.values <==> k in s.values
      ensures k in s'.values ==> k.id in Ids(c.devices) || k in s.values
      ensures k in s.values ==> (k in s'.values <==> k.id !in e.known - Ids(c.devices))
    {
      KeysAfter(s, c, k);
      DeletionLists(k.family);
    }
    if ClientOwned(s', Ids(c.devices)) {
      forall k | k in s.values && IsClient(k.family) && k.id !in Ids(c.devices)
        ensures c.staleAt - s.lastSeen[k.id] <= FIVE_MINUTES
      {
        assert k !in s'.values;
        assert k.id in e.known;
      }
    }
  }

  /** A client series whose device is in neither map outlives every cycle that does not
      list the device: nothing refers to it any more. */
  lemma OrphanSurvivesCycle(s: State, c: Inputs, k: Series)
    requires Proper(c) && Consistent(s)
    requires k in s.values && IsClient(k.family) && k.id !in s.known && k.id !in Ids(c.devices)
    ensures k in Step(s, c).values && k.id !in Step(s, c).known
  {
    KeysAfter(s, c, k);
    DeletionLists(k.family);
    CycleIsConsistent(s, c);
  }

  // ---- Runs ----

  ghost predicate Run(ss: seq<State>, cs: seq<Inputs>) {
    && |ss| == |cs| + 1 && ss[0] == INITIAL
    && forall i | 0 <= i < |cs| :: Proper(cs[i]) && ss[i+1] == Step(ss[i], cs[i])
  }

  /** Every run, any device lists, any clock. */
  lemma {:induction false} RunsAreConsistent(ss: seq<State>, cs: seq<Inputs>, i: nat)
    requires Run(ss, cs) && i < |ss|
    ensures Consistent(ss[i])
    ensures i > 0 ==> ss[i].known == ss[i].lastSeen.Keys == Ids(cs[i-1].devices) && ApiOwned(ss[i], Ids(cs[i-1].devices))
  {
    if i > 0 {
      RunsAreConsistent(ss, cs, i - 1);
      CycleIsConsistent(ss[i-1], cs[i-1]);
    }
  }

  ghost predicate OwnedAt(ss: seq<State>, i: nat) { i < |ss| && ClientOwned(ss[i], ss[i].known) }

  ghost predicate NoneLateAt(ss: seq<State>, cs: seq<Inputs>, i: nat) {
    i < |ss| && i < |cs| && NoneLate(ss[i], cs[i])
  }

  lemma OwnedAfterIff(ss: seq<State>, cs: seq<Inputs>, i: nat)
    requires Run(ss, cs) && i < |cs| && OwnedAt(ss, i)
    ensures OwnedAt(ss, i + 1) <==> NoneLateAt(ss, cs, i)
  {
    RunsAreConsistent(ss, cs, i);
    RunsAreConsistent(ss, cs, i + 1);
    ClientSeriesStayOwnedIff(ss[i], cs[i]);
  }

  lemma {:induction false} OwnedUpTo(ss: seq<State>, i: nat)
    requires OwnedAt(ss, 0) && forall j: nat | j < i && OwnedAt(ss, j) :: OwnedAt(ss, j + 1)
    ensures OwnedAt(ss, i)
  {
    if i > 0 { OwnedUpTo(ss, i - 1); }
  }

  lemma StartsOwned(ss: seq<State>, cs: seq<Inputs>)
    requires Run(ss, cs)
    ensures OwnedAt(ss, 0)
  {
  }

  lemma OwnedIfNoneLate(ss: seq<State>, cs: seq<Inputs>, i: nat)
    requires Run(ss, cs) && i < |ss| && forall j: nat | j < |cs| :: NoneLateAt(ss, cs, j)
    ensures OwnedAt(ss, i)
  {
    StartsOwned(ss, cs);
    forall j: nat | j < i && OwnedAt(ss, j) ensures OwnedAt(ss, j + 1) { OwnedAfterIff(ss, cs, j); }
    OwnedUpTo(ss, i);
  }

  /** Over a run, every client series belongs to a known device in every state if and only
      if no cycle begins with a late one. */
  lemma RunsStayOwnedIff(ss: seq<State>, cs: seq<Inputs>)
    requires Run(ss, cs)
    ensures (forall i: nat | i < |ss| :: OwnedAt(ss, i)) <==> (forall i: nat | i < |cs| :: NoneLateAt(ss, cs, i))
  {
    if forall i: nat | i < |ss| :: OwnedAt(ss, i) {
      forall i: nat | i < |cs| ensures NoneLateAt(ss, cs, i) { OwnedAfterIff(ss, cs, i); }
    }
    if forall i: nat | i < |cs| :: NoneLateAt(ss, cs, i) {
      forall i: nat | i < |ss| ensures OwnedAt(ss, i) { OwnedIfNoneLate(ss, cs, i); }
    }
  }

  /** No stale check comes more than five minutes after a device was last refreshed. */
  ghost predicate Frequent(cs: seq<Inputs>) {
    forall i | 0 <= i < |cs| - 1 :: SoonAfter(cs[i], cs[i+1])
  }

  ghost predicate SoonAfter(c: Inputs, next: Inputs) {
    forall id | id in c.seenAt :: next.staleAt - c.seenAt[id] <= FIVE_MINUTES
  }

  /** With frequent cycles the client series too belong to listed devices, always. */
  lemma {:induction false} FrequentRunsLeaveNoOrphans(ss: seq<State>, cs: seq<Inputs>, i: nat)
    requires Run(ss, cs) && Frequent(cs) && 0 < i < |ss|
    ensures ClientOwned(ss[i], Ids(cs[i-1].devices))
  {
    RunsAreConsistent(ss, cs, i - 1);
    if i > 1 {
      FrequentRunsLeaveNoOrphans(ss, cs, i - 1);
      RefreshedAtTheEnd(ss[i-2], cs[i-2]);
      assert SoonAfter(cs[i-2], cs[i-2+1]);
    }
    ClientSeriesStayOwnedIff(ss[i-1], cs[i-1]);
  }

  lemma RefreshedAtTheEnd(s: State, c: Inputs)
    requires Proper(c)
    ensures forall id | id in Ids(c.devices) :: id in Step(s, c).lastSeen && Step(s, c).lastSeen[id] == c.seenAt[id]
  {
  }

  /** Once orphaned, a client series stays for as long as its device is not listed. */
  lemma {:induction false} OrphansStay(ss: seq<State>, cs: seq<Inputs>, i: nat, j: nat, k: Series)
    requires Run(ss, cs) && i <= j < |ss|
    requires k in ss[i].values && IsClient(k.family) && k.id !in ss[i].known
    requires forall n | i <= n < j :: k.id !in Ids(cs[n].devices)
    ensures k in ss[j].values && k.id !in ss[j].known
  {
    if i < j {
      OrphansStay(ss, cs, i, j - 1, k);
      OrphanStaysOneMore(ss, cs, j - 1, k);
    }
  }

  lemma OrphanStaysOneMore(ss: seq<State>, cs: seq<Inputs>, j: nat, k: Series)
    requires Run(ss, cs) && j < |cs|
    requires k in ss[j].values && IsClient(k.family) && k.id !in ss[j].known && k.id !in Ids(cs[j].devices)
    ensures k in ss[j+1].values && k.id !in ss[j+1].known
  {
    RunsAreConsistent(ss, cs, j);
    OrphanSurvivesCycle(ss[j], cs[j], k);
  }

  /** A cycle that lists and scrapes one device, and one that lists none. */
  function ListedOnce(d: Device, w: Write, end: int): Inputs { Inputs([d], [end], end, [w], map[d.id := end]) }

  function MissingAfter(staleAt: int): Inputs { Inputs([], [], staleAt, [], map[]) }

  lemma AfterListedOnce(d: Device, w: Write, end: int)
    requires IsClient(w.series.family) && w.series.id == d.id
    ensures var c, s := ListedOnce(d, w, end), Step(INITIAL, ListedOnce(d, w, end));
      Proper(c) && Consistent(s) && s.known == {d.id} && s.lastSeen == map[d.id := end] && w.series in s.values
  {
    var c := ListedOnce(d, w, end);
    assert c.devices[0].id == d.id && Ids(c.devices) == {d.id};
    assert ScrapedFrom(c.devices, w);
    CycleIsConsistent(INITIAL, c);
    assert c.scraped[0].series == w.series;
    WrittenKeys(WriteAll(Expired(INITIAL, c).values, AllApiWrites(c.devices)), c.scraped, w.series);
  }

  lemma MissingLeavesIff(s: State, k: Series, end: int, gap: int)
    requires Consistent(s) && s.known == {k.id} && s.lastSeen == map[k.id := end] && k in s.values && IsClient(k.family)
    ensures Proper(MissingAfter(end + gap)) && (k in Step(s, MissingAfter(end + gap)).values <==> gap > FIVE_MINUTES)
  {
    KeysAfter(s, MissingAfter(end + gap), k);
    DeletionLists(k.family);
  }

  /** The shortest leak: a device is listed and scraped once, then missing.  Its client
      series is left behind if and only if the second cycle's stale check comes more than
      five minutes after the end of the first. */
  lemma LeakIffLongGap(d: Device, w: Write, end: int, gap: int)
    requires IsClient(w.series.family) && w.series.id == d.id
    ensures Proper(ListedOnce(d, w, end)) && Proper(MissingAfter(end + gap))
    ensures w.series in Step(Step(INITIAL, ListedOnce(d, w, end)), MissingAfter(end + gap)).values <==> gap > FIVE_MINUTES
  {
    AfterListedOnce(d, w, end);
    MissingLeavesIff(Step(INITIAL, ListedOnce(d, w, end)), w.series, end, gap);
  }

  /** The value of every series after a cycle: the last write of the cycle if there was one,
      else what was there, unless the series was dropped. */
  lemma ValuesAfter(s: State, c: Inputs, k: Series)
    requires Proper(c) && Consistent(s)
    ensures k.id in Ids(c.devices) ==>
      Lookup(Step(s, c).values, k) ==
      Else(LastWrite(c.scraped, k), Else(LastWrite(AllApiWrites(c.devices), k), Lookup(Expired(s, c).values, k)))
    ensures k.id !in Ids(c.devices) ==>
      Lookup(Step(s, c).values, k) ==
      if IsClient(k.family) && k.id !in Expired(s, c).known then Lookup(s.values, k) else Absent
  {
    var e := Expired(s, c);
    LastWriteWins(e.values, AllApiWrites(c.devices), k);
    LastWriteWins(WriteAll(e.values, AllApiWrites(c.devices)), c.scraped, k);
    DeletionLists(k.family);
    if k.id !in Ids(c.devices) {
      ApiWritesOfListed(c.devices);
      NeverWritten(AllApiWrites(c.devices), k);
      forall i | 0 <= i < |c.scraped| ensures c.scraped[i].series.id in Ids(c.devices) {
        assert ScrapedFrom(c.devices, c.scraped[i]);
      }
      NeverWritten(c.scraped, k);
    }
  }
}
