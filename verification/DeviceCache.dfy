/** The device cache of internal/cache/device_cache.go.

    Times are Unix nanoseconds of the monotonic clock; `Since` saturates as Go's
    durations do, so the zero time a cleared cache carries is older than any TTL. */
module DeviceCaching {
  import opened Helpers
  import opened Identifiers

  datatype Device = Device(id: DeviceId, details: string)
  datatype Cached = Cached(device: Device, cachedAt: int)

  /** A missing refresh function is a failed fetch. */
  datatype Fetch = Fetched(devices: seq<Device>) | FetchFailed(error: string)

  datatype Result = Devices(devices: seq<Device>) | Failed(error: string)

  /** The zero time.Time, 1 January of year 1. */
  const ZERO_TIME := -62135596800 * 1_000_000_000

  function Since(t: int, now: int): (d: int)
    ensures Fits(now - t) ==> d == now - t
  {
    if now - t > MAX64 then MAX64
    else if now - t < MIN64 then MIN64
    else now - t
  }

  /** Devices by id; the last device with an id wins. */
  function ById(devices: seq<Device>): map<DeviceId, Device> {
    if devices == [] then map[]
    else var d := devices[|devices|-1]; ById(devices[..|devices|-1])[d.id := d]
  }

  lemma AppendById(ds: seq<Device>, d: Device)
    ensures ById(ds + [d]) == ById(ds)[d.id := d]
  {
    assert (ds + [d])[..|ds|] == ds;
  }

  /** A fetched list by id: exactly its ids, each with the device listed last under it. */
  lemma {:induction false} ByIdIsTheLast(ds: seq<Device>, id: DeviceId)
    ensures id in ById(ds) <==> exists i :: 0 <= i < |ds| && ds[i].id == id
    ensures forall i | 0 <= i < |ds| && ds[i].id == id && (forall j | i < j < |ds| :: ds[j].id != id) :: ById(ds)[id] == ds[i]
  {
    if ds != [] {
      var n := |ds| - 1;
      ByIdIsTheLast(ds[..n], id);
      if i :| 0 <= i < n && ds[i].id == id { assert ds[..n][i].id == id; }
    }
  }

  function Stamped(devices: map<DeviceId, Device>, now: int): map<DeviceId, Cached> {
    map id | id in devices :: Cached(devices[id], now)
  }

  /** The entries younger than maxAge at time `now`. */
  function Young(devices: map<DeviceId, Cached>, maxAge: int, now: int): map<DeviceId, Device> {
    map id | id in devices && Since(devices[id].cachedAt, now) < maxAge :: devices[id].device
  }

  lemma YoungInOrder(devices: map<DeviceId, Cached>, maxAge: int, a: int, b: int, c: int, id: DeviceId)
    requires a <= b <= c && id in devices
    ensures Since(devices[id].cachedAt, b) < maxAge ==> id in Young(devices, maxAge, a)
    ensures id in Young(devices, maxAge, c) ==> Since(devices[id].cachedAt, b) < maxAge
  {
  }

  function NotStale(devices: map<DeviceId, Cached>, maxAge: int, now: int): map<DeviceId, Cached> {
    map id | id in devices && Since(devices[id].cachedAt, now) <= maxAge :: devices[id]
  }

  lemma StaleCount(before: map<DeviceId, Cached>, left: map<DeviceId, Cached>, maxAge: int, now: int)
    requires left.Keys <= before.Keys
    requires forall id | id in before :: id in left <==> Since(before[id].cachedAt, now) <= maxAge
    ensures |set id | id in before && Since(before[id].cachedAt, now) > maxAge| == |before| - |left|
  {
    assert (set id | id in before && Since(before[id].cachedAt, now) > maxAge) == before.Keys - left.Keys;
    SubsetDifference(left.Keys, before.Keys);
    assert |before| == |before.Keys| && |left| == |left.Keys|;
  }

  predicate SubMap<K(==), V(==)>(a: map<K, V>, b: map<K, V>) {
    forall k | k in a :: k in b && a[k] == b[k]
  }

  lemma SameMap<K, V>(a: map<K, V>, b: map<K, V>)
    requires SubMap(a, b) && SubMap(b, a)
    ensures a == b
  {
  }

  /** What the proofs need of a forward-running clock. */
  predicate Forward(clock: seq<int>) {
    forall i | 0 <= i < |clock| :: clock[0] <= clock[i] <= clock[|clock|-1]
  }

  datatype Params = Params(ttl: int, maxAge: int)

  /** The critical sections and atomic counter updates of the cache, in the order they
      happen.  A call that missed counts the miss and installs what it fetched later. */
  datatype Action =
    | Get(forceRefresh: bool, now: int)
    | CountMiss
    | Install(fetched: seq<Device>, now: int)
    | Invalidate(id: DeviceId)
    | Clear
    | Cleanup(now: int)
    | Stats

  datatype Output =
    | Hit(devices: map<DeviceId, Device>)
    | Miss
    | Counters(hits: nat, misses: nat, lastFetch: int)

  datatype Cache = Cache(devices: map<DeviceId, Cached>, lastFetch: int, hits: nat, misses: nat)

  const EMPTY := Cache(map[], ZERO_TIME, 0, 0)

  /** One such step: the new cache and what it answers. */
  function Step(p: Params, c: Cache, a: Action): (Cache, seq<Output>) {
    match a
    case Get(force, now) =>
      if !force && Since(c.lastFetch, now) < p.ttl
      then (c.(hits := c.hits + 1), [Hit(Young(c.devices, p.maxAge, now))])
      else (c, [Miss])
    case CountMiss => (c.(misses := c.misses + 1), [])
    case Install(ds, now) => (c.(devices := Stamped(ById(ds), now), lastFetch := now), [])
    case Invalidate(id) => (c.(devices := c.devices - {id}), [])
    case Clear => (EMPTY, [])
    case Cleanup(now) => (c.(devices := NotStale(c.devices, p.maxAge, now)), [])
    case Stats => (c, [Counters(c.hits, c.misses, c.lastFetch)])
  }

  class DeviceCache {
    var devices: map<DeviceId, Cached>
    var lastFetch: int
    var hitCount: nat
    var missCount: nat
    const ttl: int
    const maxAge: int

    ghost predicate Valid()
      reads this
    {
      forall id | id in devices :: devices[id].device.id == id && devices[id].cachedAt == lastFetch
    }

    /** The object as a value of the step system. */
    function Current(): Cache
      reads this
    {
      Cache(devices, lastFetch, hitCount, missCount)
    }

    function After(a: Action): Cache
      reads this
    {
      Step(Params(ttl, maxAge), Current(), a).0
    }

    function Answer(a: Action): seq<Output>
      reads this
    {
      Step(Params(ttl, maxAge), Current(), a).1
    }

    constructor (ttl: int, maxAge: int)
      ensures Valid() && Current() == EMPTY
      ensures this.ttl == ttl && this.maxAge == maxAge
    {
      devices, lastFetch, hitCount, missCount := map[], ZERO_TIME, 0, 0;
      this.ttl, this.maxAge := ttl, maxAge;
    }

    /** The loop of the fast path over `entries`, in map order, one reading an entry. */
    method Collect(entries: map<DeviceId, Cached>, clock: seq<int>) returns (out: seq<Device>)
      requires |clock| == |entries| + 1 && Forward(clock)
      requires forall id | id in entries :: entries[id].device.id == id
      ensures |ById(out)| == |out|
      ensures SubMap(Young(entries, maxAge, clock[|clock|-1]), ById(out))
      ensures SubMap(ById(out), Young(entries, maxAge, clock[0]))
    {
      out := [];
      ghost var first, last := Young(entries, maxAge, clock[0]).Keys, Young(entries, maxAge, clock[|clock|-1]).Keys;
      ghost var found: map<DeviceId, Device> := map[];
      var rest, n := entries.Keys, 1;
      while rest != {}
        invariant rest <= entries.Keys && n + |rest| == |clock|
        invariant found == ById(out) && |found| == |out|
        invariant found.Keys !! rest && found.Keys <= first && last - rest <= found.Keys
        invariant forall id | id in found :: found[id] == entries[id].device
        decreases rest
      {
        var id :| id in rest;
        AppendById(out, entries[id].device);
        assert id !in found;
        rest := rest - {id};
        var reading := clock[n];
        YoungInOrder(entries, maxAge, clock[0], reading, clock[|clock|-1], id);
        if Since(entries[id].cachedAt, reading) < maxAge {
          out := out + [entries[id].device];
          found := found[id := entries[id].device];
        }
        n := n + 1;
      }
    }

    /** The read-locked part of GetDevices.  `clock[0]` is the reading compared with the
        TTL and every visited entry takes a reading of its own, so what is returned lies
        between the entries young at the last and at the first reading. */
    method TryHit(forceRefresh: bool, clock: seq<int>) returns (hit: bool, out: seq<Device>)
      requires Valid() && |clock| == |devices| + 1 && Forward(clock)
      modifies this`hitCount, this`missCount
      ensures hit <==> !forceRefresh && Since(lastFetch, clock[0]) < ttl
      ensures hit ==> Current() == old(After(Get(forceRefresh, clock[0]))) && |ById(out)| == |out|
      ensures !hit ==> Current() == old(After(CountMiss)) && old(Answer(Get(forceRefresh, clock[0]))) == [Miss]
      // when every reading is the same, the answer is the step's
      ensures hit && clock[0] == clock[|clock|-1] ==> old(Answer(Get(forceRefresh, clock[0]))) == [Hit(ById(out))]
      ensures hit ==> SubMap(Young(devices, maxAge, clock[|clock|-1]), ById(out))
      ensures hit ==> SubMap(ById(out), Young(devices, maxAge, clock[0]))
    {
      hit, out := false, [];
      if !forceRefresh && Since(lastFetch, clock[0]) < ttl {
        out := Collect(devices, clock);
        if clock[0] == clock[|clock|-1] { SameMap(Young(devices, maxAge, clock[0]), ById(out)); }
        hit, hitCount := true, hitCount + 1;
      } else {
        missCount := missCount + 1;
      }
    }

    /** refreshCache after the fetch: rebuild the map under the write lock. */
    method Install(fetched: seq<Device>, now: int)
      modifies this`devices, this`lastFetch
      ensures Valid() && Current() == old(After(Action.Install(fetched, now)))
    {
      devices := map[];
      for i := 0 to |fetched|
        invariant devices == Stamped(ById(fetched[..i]), now)
        invariant forall id | id in devices :: devices[id].device.id == id
      {
        devices := devices[fetched[i].id := Cached(fetched[i], now)];
        assert fetched[..i+1][..i] == fetched[..i];
      }
      assert fetched[..|fetched|] == fetched;
      lastFetch := now;
    }

    /** GetDevices without interference between its two critical sections. */
    method GetDevices(forceRefresh: bool, clock: seq<int>, fetch: Fetch, installAt: int) returns (r: Result)
      requires Valid() && |clock| == |devices| + 1 && Forward(clock)
      modifies this
      ensures Valid()
      ensures !forceRefresh && Since(old(lastFetch), clock[0]) < ttl ==>
        && r.Devices? && Current() == old(After(Get(forceRefresh, clock[0])))
        && SubMap(ById(r.devices), Young(devices, maxAge, clock[0]))
        && SubMap(Young(devices, maxAge, clock[|clock|-1]), ById(r.devices))
      ensures !(!forceRefresh && Since(old(lastFetch), clock[0]) < ttl) ==>
        match fetch
        case FetchFailed(e) => r == Failed(e) && Current() == old(After(CountMiss))
        case Fetched(ds) =>
          (r == Devices(ds) && Current() == Step(Params(ttl, maxAge), old(After(CountMiss)), Action.Install(ds, installAt)).0)
    {
      var hit, out := TryHit(forceRefresh, clock);
      if hit { return Devices(out); }
      match fetch
      case FetchFailed(e) => r := Failed(e);
      case Fetched(ds) =>
        Install(ds, installAt);
        r := Devices(ds);
    }

    /** The number of devices counts what has not been cleaned up yet, so it is no part of
        the answer the specification gives. */
    method GetCacheStats() returns (hits: nat, misses: nat, hitRatio: real, deviceCount: nat, fetchedAt: int)
      ensures Answer(Stats) == [Counters(hits, misses, fetchedAt)] && deviceCount == |devices|
      ensures hitRatio * (hits + misses) as real == hits as real && 0.0 <= hitRatio <= 1.0
      ensures hits + misses == 0 ==> hitRatio == 0.0
    {
      hits, misses, hitRatio, deviceCount, fetchedAt := hitCount, missCount, 0.0, |devices|, lastFetch;
      if hits + misses > 0 { hitRatio := hits as real / (hits + misses) as real; }
    }

    method InvalidateDevice(id: DeviceId)
      requires Valid()
      modifies this`devices
      ensures Valid() && Current() == old(After(Invalidate(id)))
    {
      devices := devices - {id};
    }

    method Clear()
      modifies this
      ensures Valid() && Current() == EMPTY
    {
      devices, lastFetch, hitCount, missCount := map[], ZERO_TIME, 0, 0;
    }

    method CleanupStaleEntries(now: int) returns (cleaned: nat)
      requires Valid()
      modifies this`devices
      ensures Valid() && Current() == old(After(Cleanup(now)))
      ensures forall id :: id in devices <==> id in old(devices) && Since(old(devices)[id].cachedAt, now) <= maxAge
      ensures forall id | id in devices && Fits(now - devices[id].cachedAt) :: now - devices[id].cachedAt <= maxAge
      ensures cleaned == |set id | id in old(devices) && Since(old(devices)[id].cachedAt, now) > maxAge|
    {
      cleaned := 0;
      var rest := devices.Keys;
      while rest != {}
        invariant rest <= devices.Keys <= old(devices).Keys
        invariant forall id | id in devices :: devices[id] == old(devices)[id]
        invariant forall id | id in old(devices) && id !in rest ::
            id in devices <==> Since(old(devices)[id].cachedAt, now) <= maxAge
        invariant cleaned + |devices| == |old(devices)|
        decreases rest
      {
        var id :| id in rest;
        rest := rest - {id};
        if Since(devices[id].cachedAt, now) > maxAge {
          devices := devices - {id};
          cleaned := cleaned + 1;
        }
      }
      StaleCount(old(devices), devices, maxAge, now);
    }
  }
}

/** The steps in any order, against a specification that never expires entries. */
module CacheRuns {
  import opened Helpers
  import opened Identifiers
  import opened DeviceCaching

  function Outputs(p: Params, c: Cache, acts: seq<Action>): seq<Output>
    decreases |acts|
  {
    if acts == [] then []
    else var (c', out) := Step(p, c, acts[0]); out + Outputs(p, c', acts[1..])
  }

  /** The specification: the last installed snapshot less the ids invalidated since, or
      nothing when no snapshot was installed after the last Clear. */
  datatype Spec = Spec(snapshot: map<DeviceId, Device>, at: int, present: bool, hits: nat, misses: nat)

  const NO_SNAPSHOT := Spec(map[], ZERO_TIME, false, 0, 0)

  function SpecStep(p: Params, s: Spec, a: Action): (Spec, seq<Output>) {
    match a
    case Get(force, now) =>
      if !force && s.present && now - s.at < p.ttl
      then (s.(hits := s.hits + 1), [Hit(if now - s.at < p.maxAge then s.snapshot else map[])])
      else (s, [Miss])
    case CountMiss => (s.(misses := s.misses + 1), [])
    case Install(ds, now) => (s.(snapshot := ById(ds), at := now, present := true), [])
    case Invalidate(id) => (s.(snapshot := s.snapshot - {id}), [])
    case Clear => (NO_SNAPSHOT, [])
    case Cleanup(_) => (s, [])
    case Stats => (s, [Counters(s.hits, s.misses, s.at)])
  }

  function SpecOutputs(p: Params, s: Spec, acts: seq<Action>): seq<Output>
    decreases |acts|
  {
    if acts == [] then []
    else var (s', out) := SpecStep(p, s, acts[0]); out + SpecOutputs(p, s', acts[1..])
  }

  function Time(a: Action, clock: int): int {
    if a.Get? || a.Install? || a.Cleanup? then a.now else clock
  }

  /** The clock never runs backwards and stays within an int64 of Unix nanoseconds. */
  predicate Timely(clock: int, acts: seq<Action>)
    decreases |acts|
  {
    acts == [] || (clock <= Time(acts[0], clock) <= MAX64 && Timely(Time(acts[0], clock), acts[1..]))
  }

  /** All entries share CachedAt == lastFetch and hold the specified snapshot; entries may
      be missing only once they are past maxAge for good. */
  ghost predicate Agrees(p: Params, c: Cache, s: Spec, clock: int) {
    && 0 <= clock <= MAX64
    && c.lastFetch == s.at && c.hits == s.hits && c.misses == s.misses
    && (forall id | id in c.devices :: c.devices[id].cachedAt == c.lastFetch)
    && (forall id | id in c.devices :: id in s.snapshot && c.devices[id].device == s.snapshot[id])
    && (if s.present then 0 <= s.at <= clock else s.at == ZERO_TIME && s.snapshot == map[])
    && (s.present && clock - s.at <= p.maxAge ==> c.devices.Keys == s.snapshot.Keys)
  }

  lemma AgreementStep(p: Params, c: Cache, s: Spec, clock: int, a: Action)
    requires p.ttl <= MAX64 && Agrees(p, c, s, clock)
    requires clock <= Time(a, clock) <= MAX64
    ensures Step(p, c, a).1 == SpecStep(p, s, a).1
    ensures Agrees(p, Step(p, c, a).0, SpecStep(p, s, a).0, Time(a, clock))
    ensures !a.Clear? ==> c.lastFetch <= Step(p, c, a).0.lastFetch
  {
    if a.Get? && !a.forceRefresh && s.present && a.now - s.at < p.ttl {
      var young := Young(c.devices, p.maxAge, a.now);
      assert young == if a.now - s.at < p.maxAge then s.snapshot else map[];
    }
  }

  lemma {:induction false} OutputsAgree(p: Params, c: Cache, s: Spec, clock: int, acts: seq<Action>)
    requires p.ttl <= MAX64 && Agrees(p, c, s, clock) && Timely(clock, acts)
    ensures Outputs(p, c, acts) == SpecOutputs(p, s, acts)
    decreases |acts|
  {
    if acts != [] {
      AgreementStep(p, c, s, clock, acts[0]);
      OutputsAgree(p, Step(p, c, acts[0]).0, SpecStep(p, s, acts[0]).0, Time(acts[0], clock), acts[1..]);
    }
  }

  /** Every interleaving answers exactly as the specification does. */
  lemma CacheMeetsSpec(p: Params, acts: seq<Action>)
    requires p.ttl <= MAX64 && Timely(0, acts)
    ensures Outputs(p, EMPTY, acts) == SpecOutputs(p, NO_SNAPSHOT, acts)
  {
    OutputsAgree(p, EMPTY, NO_SNAPSHOT, 0, acts);
  }

  function NoCleanup(acts: seq<Action>): seq<Action> {
    if acts == [] then []
    else if acts[0].Cleanup? then NoCleanup(acts[1..])
    else [acts[0]] + NoCleanup(acts[1..])
  }

  lemma {:induction false} SpecIgnoresCleanup(p: Params, s: Spec, acts: seq<Action>)
    ensures SpecOutputs(p, s, acts) == SpecOutputs(p, s, NoCleanup(acts))
    decreases |acts|
  {
    if acts != [] {
      var s' := SpecStep(p, s, acts[0]).0;
      SpecIgnoresCleanup(p, s', acts[1..]);
      if !acts[0].Cleanup? {
        assert NoCleanup(acts)[0] == acts[0] && NoCleanup(acts)[1..] == NoCleanup(acts[1..]);
      }
    }
  }

  lemma {:induction false} StillTimely(clock: int, earlier: int, acts: seq<Action>)
    requires Timely(clock, acts) && earlier <= clock <= MAX64
    ensures Timely(earlier, NoCleanup(acts))
    decreases |acts|
  {
    if acts != [] {
      var a, rest := acts[0], NoCleanup(acts[1..]);
      StillTimely(Time(a, clock), if a.Cleanup? then earlier else Time(a, earlier), acts[1..]);
      if !a.Cleanup? {
        assert NoCleanup(acts)[0] == a && NoCleanup(acts)[1..] == rest;
      }
    }
  }

  /** Stale-entry clean-up, wherever it runs, changes no hit, miss or counter. */
  lemma CleanupIsInvisible(p: Params, acts: seq<Action>)
    requires p.ttl <= MAX64 && Timely(0, acts)
    ensures Outputs(p, EMPTY, acts) == Outputs(p, EMPTY, NoCleanup(acts))
  {
    StillTimely(0, 0, acts);
    CacheMeetsSpec(p, acts);
    CacheMeetsSpec(p, NoCleanup(acts));
    SpecIgnoresCleanup(p, NO_SNAPSHOT, acts);
  }

  function After(p: Params, c: Cache, acts: seq<Action>): Cache
    decreases |acts|
  {
    if acts == [] then c else After(p, Step(p, c, acts[0]).0, acts[1..])
  }

  lemma {:induction false} FetchTimeGrows(p: Params, c: Cache, s: Spec, clock: int, acts: seq<Action>)
    requires p.ttl <= MAX64 && Agrees(p, c, s, clock) && Timely(clock, acts)
    requires Clear !in acts
    ensures c.lastFetch <= After(p, c, acts).lastFetch
    decreases |acts|
  {
    if acts != [] {
      AgreementStep(p, c, s, clock, acts[0]);
      FetchTimeGrows(p, Step(p, c, acts[0]).0, SpecStep(p, s, acts[0]).0, Time(acts[0], clock), acts[1..]);
    }
  }

  lemma {:induction false} InEveryState(p: Params, c: Cache, s: Spec, clock: int, before: seq<Action>, acts: seq<Action>)
    requires p.ttl <= MAX64 && Agrees(p, c, s, clock) && Timely(clock, before + acts)
    ensures var now := After(p, c, before);
      && (forall id | id in now.devices :: now.devices[id].cachedAt == now.lastFetch)
      && (Clear !in acts ==> now.lastFetch <= After(p, now, acts).lastFetch)
    decreases |before|
  {
    if before == [] {
      assert before + acts == acts;
      if Clear !in acts { FetchTimeGrows(p, c, s, clock, acts); }
    } else {
      AgreementStep(p, c, s, clock, before[0]);
      assert (before + acts)[1..] == before[1..] + acts;
      assert After(p, c, before) == After(p, Step(p, c, before[0]).0, before[1..]);
      InEveryState(p, Step(p, c, before[0]).0, SpecStep(p, s, before[0]).0, Time(before[0], clock), before[1..], acts);
    }
  }

  /** In every reachable state all entries carry the time of the last fetch, and until the
      next Clear that time only moves forward. */
  lemma FetchTimeMovesForward(p: Params, before: seq<Action>, acts: seq<Action>)
    requires p.ttl <= MAX64 && Timely(0, before + acts)
    ensures var c := After(p, EMPTY, before);
      && (forall id | id in c.devices :: c.devices[id].cachedAt == c.lastFetch)
      && (Clear !in acts ==> c.lastFetch <= After(p, c, acts).lastFetch)
  {
    InEveryState(p, EMPTY, NO_SNAPSHOT, 0, before, acts);
  }
}
