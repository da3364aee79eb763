/** What a cycle leaves in the registry, value by value: the gauges of every listed device
    from its own fields, and whatever no listed device names. */
module ApiValues {
  import opened Identifiers
  import opened Registry
  import opened ApiSeries
  import opened Cycles

  // ---- What one device says ----

  /** Device `d` has the value `v` for the series of family `f` with these labels. */
  ghost predicate Says(d: Device, f: Family, labels: seq<string>, v: real) {
    match f
    case DeviceInfo => labels == [Truncate(d.os), Truncate(d.clientVersion)] && v == 1.0
    case DeviceOnline => labels == [] && v == if d.online then 1.0 else 0.0
    case DeviceAuthorized => labels == [] && v == if d.authorized then 1.0 else 0.0
    case DeviceLastSeen => d.lastSeen.At? && labels == [] && v == d.lastSeen.unix as real
    case DeviceUser => d.user != "" && labels == [Truncate(d.user)] && v == 1.0
    case DeviceMachineKeyExpiry =>
      labels == [] && v == if !d.keyExpiryDisabled && d.expires.At? then d.expires.unix as real else 0.0
    case DeviceRoutesAdvertised => v == 1.0 && IsRoute(d.advertisedRoutes, labels)
    case DeviceRoutesEnabled => v == 1.0 && IsRoute(d.enabledRoutes, labels)
    case DeviceExitNode => labels == [] && v == if d.isExitNode then 1.0 else 0.0
    case DeviceExitNodeOption => labels == [] && v == if d.exitNodeOption then 1.0 else 0.0
    case DeviceSubnetRouter =>
      labels == [] && v == if exists r | r in d.advertisedRoutes :: r != "0.0.0.0/0" && r != "::/0" then 1.0 else 0.0
    case DeviceUpdateAvailable => labels == [] && v == if d.updateAvailable then 1.0 else 0.0
    case DeviceCreated => d.created.At? && labels == [] && v == d.created.unix as real
    case DeviceExternal => labels == [] && v == if d.isExternal then 1.0 else 0.0
    case DeviceBlocksIncoming => labels == [] && v == if d.blocksIncoming then 1.0 else 0.0
    case DeviceEphemeral => labels == [] && v == if d.isEphemeral then 1.0 else 0.0
    case DeviceMultipleConnections => labels == [] && v == if d.multipleConnections then 1.0 else 0.0
    case DeviceTailnetLockError => labels == [] && v == if d.tailnetLockError != "" then 1.0 else 0.0
    case DeviceEndpoints =>
      labels == [] && v == if d.connectivity.Connectivity? then d.connectivity.endpoints as real else 0.0
    case DeviceLatency => d.connectivity.Connectivity? && exists i :: LatencyIs(d.connectivity.latency, i, labels, v)
    case DeviceClientSupports => d.connectivity.Connectivity? && SupportIs(d.connectivity.supports, labels, v)
    case DevicePostureSerialNumbers => labels == [] && v == d.serialNumbers as real
    case _ => false
  }

  predicate IsRoute(routes: seq<string>, labels: seq<string>) {
    exists i :: 0 <= i < |routes| && labels == [Truncate(routes[i])]
  }

  /** The labels and the value of the latency entry visited `i`-th. */
  predicate LatencyIs(ls: seq<Latency>, i: int, labels: seq<string>, v: real) {
    0 <= i < |ls| && labels == [Truncate(ls[i].region), if ls[i].preferred then "true" else "false"] && v == ls[i].ms
  }

  predicate SupportIs(s: Supports, labels: seq<string>, v: real) {
    || (labels == ["hairpinning"] && v == if s.hairPinning then 1.0 else 0.0)
    || (labels == ["ipv6"] && v == if s.ipv6 then 1.0 else 0.0)
    || (labels == ["pcp"] && v == if s.pcp then 1.0 else 0.0)
    || (labels == ["pmp"] && v == if s.pmp then 1.0 else 0.0)
    || (labels == ["udp"] && v == if s.udp then 1.0 else 0.0)
    || (labels == ["upnp"] && v == if s.upnp then 1.0 else 0.0)
  }

  predicate Of(d: Device, w: Write) { w.series.id == d.id && w.series.name == d.name }

  ghost predicate Said(d: Device, w: Write) { Of(d, w) && Says(d, w.series.family, w.series.labels, w.value) }

  ghost predicate AllSaid(d: Device, ws: seq<Write>) { forall w | w in ws :: Said(d, w) }

  lemma RouteIsSaid(d: Device, f: Family, routes: seq<string>)
    requires (f.DeviceRoutesAdvertised? && routes == d.advertisedRoutes) || (f.DeviceRoutesEnabled? && routes == d.enabledRoutes)
    ensures AllSaid(d, RouteWrites(d, f, routes))
  {
    var ws := RouteWrites(d, f, routes);
    forall w | w in ws ensures Said(d, w) {
      var i :| 0 <= i < |ws| && ws[i] == w;
      assert w.series.labels == [Truncate(routes[i])];
    }
  }

  lemma IdentityIsSaid(d: Device)
    ensures AllSaid(d, IdentityWrites(d))
  {
  }

  lemma RoutingIsSaid(d: Device)
    ensures AllSaid(d, RoutingWrites(d))
  {
    RouteIsSaid(d, DeviceRoutesAdvertised, d.advertisedRoutes);
    RouteIsSaid(d, DeviceRoutesEnabled, d.enabledRoutes);
  }

  lemma StatusIsSaid(d: Device)
    ensures AllSaid(d, StatusWrites(d))
  {
  }

  lemma ConnectionIsSaid(d: Device)
    ensures AllSaid(d, ConnectionWrites(d))
  {
  }

  lemma SupportsAreSaid(d: Device)
    requires d.connectivity.Connectivity?
    ensures AllSaid(d, SupportWrites(d, d.connectivity.supports))
  {
  }

  lemma LatencyIsSaid(d: Device)
    requires d.connectivity.Connectivity?
    ensures AllSaid(d, LatencyWrites(d, d.connectivity.latency))
  {
    var ls := d.connectivity.latency;
    var ws := LatencyWrites(d, ls);
    forall w | w in ws ensures Said(d, w) {
      var i :| 0 <= i < |ws| && ws[i] == w;
      assert LatencyIs(ls, i, w.series.labels, w.value);
    }
  }

  lemma ConnectivityIsSaid(d: Device)
    ensures AllSaid(d, ConnectivityWrites(d))
  {
    if d.connectivity.Connectivity? {
      LatencyIsSaid(d);
      SupportsAreSaid(d);
    }
  }

  /** Nothing is written for a device but what it says. */
  lemma OnlySaid(d: Device)
    ensures AllSaid(d, ApiWrites(d))
  {
    IdentityIsSaid(d);
    RoutingIsSaid(d);
    StatusIsSaid(d);
    ConnectionIsSaid(d);
    ConnectivityIsSaid(d);
  }

  /** The write that says it. */
  function SaidBy(d: Device, f: Family, labels: seq<string>, v: real): Write {
    Write(Series(f, d.id, d.name, labels), v)
  }

  lemma RouteIsWritten(d: Device, f: Family, routes: seq<string>, labels: seq<string>)
    requires IsRoute(routes, labels)
    ensures SaidBy(d, f, labels, 1.0) in RouteWrites(d, f, routes)
  {
    var i :| 0 <= i < |routes| && labels == [Truncate(routes[i])];
    assert RouteWrites(d, f, routes)[i] == SaidBy(d, f, labels, 1.0);
  }

  lemma LatencyIsWritten(d: Device, ls: seq<Latency>, i: nat, labels: seq<string>, v: real)
    requires LatencyIs(ls, i, labels, v)
    ensures LatencyWrites(d, ls)[i] == SaidBy(d, DeviceLatency, labels, v)
  {
  }

  lemma IdentityIsWritten(d: Device, f: Family, labels: seq<string>, v: real)
    requires Says(d, f, labels, v)
    requires f.DeviceInfo? || f.DeviceOnline? || f.DeviceAuthorized? || f.DeviceLastSeen? || f.DeviceUser? || f.DeviceMachineKeyExpiry?
    ensures SaidBy(d, f, labels, v) in IdentityWrites(d)
  {
  }

  lemma RoutingIsWritten(d: Device, f: Family, labels: seq<string>, v: real)
    requires Says(d, f, labels, v)
    requires f.DeviceRoutesAdvertised? || f.DeviceRoutesEnabled? || f.DeviceExitNode? || f.DeviceExitNodeOption? || f.DeviceSubnetRouter?
    ensures SaidBy(d, f, labels, v) in RoutingWrites(d)
  {
    if f.DeviceRoutesAdvertised? { RouteIsWritten(d, f, d.advertisedRoutes, labels); }
    if f.DeviceRoutesEnabled? { RouteIsWritten(d, f, d.enabledRoutes, labels); }
  }

  lemma StatusIsWritten(d: Device, f: Family, labels: seq<string>, v: real)
    requires Says(d, f, labels, v)
    requires f.DeviceUpdateAvailable? || f.DeviceCreated? || f.DeviceExternal?
    ensures SaidBy(d, f, labels, v) in StatusWrites(d)
  {
  }

  lemma ConnectionIsWritten(d: Device, f: Family, labels: seq<string>, v: real)
    requires Says(d, f, labels, v)
    requires f.DeviceBlocksIncoming? || f.DeviceEphemeral? || f.DeviceMultipleConnections? || f.DeviceTailnetLockError?
    ensures SaidBy(d, f, labels, v) in ConnectionWrites(d)
  {
  }

  lemma ConnectivityIsWritten(d: Device, f: Family, labels: seq<string>, v: real)
    requires Says(d, f, labels, v) && (f.DeviceEndpoints? || f.DeviceLatency? || f.DeviceClientSupports?)
    ensures SaidBy(d, f, labels, v) in ConnectivityWrites(d)
  {
    if f.DeviceLatency? {
      var i :| LatencyIs(d.connectivity.latency, i, labels, v);
      LatencyIsWritten(d, d.connectivity.latency, i, labels, v);
    }
  }

  /** Everything a device says is written. */
  lemma AllIsWritten(d: Device, f: Family, labels: seq<string>, v: real)
    requires Says(d, f, labels, v)
    ensures SaidBy(d, f, labels, v) in ApiWrites(d)
  {
    if f.DeviceInfo? || f.DeviceOnline? || f.DeviceAuthorized? || f.DeviceLastSeen? || f.DeviceUser? || f.DeviceMachineKeyExpiry? {
      IdentityIsWritten(d, f, labels, v);
    } else if f.DeviceRoutesAdvertised? || f.DeviceRoutesEnabled? || f.DeviceExitNode? || f.DeviceExitNodeOption? || f.DeviceSubnetRouter? {
      RoutingIsWritten(d, f, labels, v);
    } else if f.DeviceUpdateAvailable? || f.DeviceCreated? || f.DeviceExternal? {
      StatusIsWritten(d, f, labels, v);
    } else if f.DeviceBlocksIncoming? || f.DeviceEphemeral? || f.DeviceMultipleConnections? || f.DeviceTailnetLockError? {
      ConnectionIsWritten(d, f, labels, v);
    } else if f.DeviceEndpoints? || f.DeviceLatency? || f.DeviceClientSupports? {
      ConnectivityIsWritten(d, f, labels, v);
    }
  }

  /** Outside the latencies a device says one value for a series. */
  lemma SaysOneThing(d: Device, f: Family, labels: seq<string>, v: real, u: real)
    requires Says(d, f, labels, v) && Says(d, f, labels, u) && !f.DeviceLatency?
    ensures v == u
  {
  }

  lemma SaidIsTheLast(d: Device, f: Family, labels: seq<string>, v: real)
    requires Says(d, f, labels, v) && !f.DeviceLatency?
    ensures LastWrite(ApiWrites(d), Series(f, d.id, d.name, labels)) == Present(v)
  {
    var k := Series(f, d.id, d.name, labels);
    AllIsWritten(d, f, labels, v);
    OnlySaid(d);
    forall w | w in ApiWrites(d) && w.series == k ensures w.value == v {
      assert Said(d, w);
      SaysOneThing(d, f, labels, v, w.value);
    }
    AlwaysTheSame(ApiWrites(d), k, v);
  }

  lemma NoSuchFamily(ws: seq<Write>, k: Series)
    requires forall w | w in ws :: w.series.family != k.family
    ensures LastWrite(ws, k) == Absent
  {
    forall i | 0 <= i < |ws| ensures ws[i].series != k { assert ws[i] in ws; }
    NeverWritten(ws, k);
  }

  /** Of the latency entries with the same labels the one visited last counts. */
  lemma LatencyIsTheLast(d: Device, i: nat, labels: seq<string>, v: real)
    requires d.connectivity.Connectivity? && LatencyIs(d.connectivity.latency, i, labels, v)
    requires forall j, u | LatencyIs(d.connectivity.latency, j, labels, u) :: j <= i
    ensures LastWrite(ApiWrites(d), Series(DeviceLatency, d.id, d.name, labels)) == Present(v)
  {
    var k, ls := Series(DeviceLatency, d.id, d.name, labels), d.connectivity.latency;
    var ws, supports := LatencyWrites(d, ls), SupportWrites(d, d.connectivity.supports);
    LatencyIsWritten(d, ls, i, labels, v);
    forall j | i < j < |ws| ensures ws[j].series != k {
      assert !LatencyIs(ls, j, labels, ls[j].ms);
    }
    LastAt(ws, i);
    NoSuchFamily(supports, k);
    var first := [Gauge(d, DeviceEndpoints, [], d.connectivity.endpoints as real)];
    LastWriteConcat(first, ws, k);
    LastWriteConcat(first + ws, supports, k);
    LastOfConnectivity(d, k);
  }

  lemma LastOfConnectivity(d: Device, k: Series)
    requires LastWrite(ConnectivityWrites(d), k).Present? && k.family != DevicePostureSerialNumbers
    ensures LastWrite(ApiWrites(d), k) == LastWrite(ConnectivityWrites(d), k)
  {
    var before := IdentityWrites(d) + RoutingWrites(d) + StatusWrites(d) + ConnectionWrites(d);
    var last := [Gauge(d, DevicePostureSerialNumbers, [], d.serialNumbers as real)];
    NoSuchFamily(last, k);
    LastWriteConcat(before, ConnectivityWrites(d), k);
    LastWriteConcat(before + ConnectivityWrites(d), last, k);
  }

  // ---- What a device list says ----

  predicate SameName(d: Device, k: Series) { k.id == d.id && k.name == d.name }

  /** Nobody listed after position `i` has its id and name. */
  ghost predicate LastOfItsName(devices: seq<Device>, i: nat) {
    i < |devices| && forall j | i < j < |devices| :: devices[j].id != devices[i].id || devices[j].name != devices[i].name
  }

  lemma OtherName(d: Device, k: Series)
    requires !SameName(d, k)
    ensures LastWrite(ApiWrites(d), k) == Absent
  {
    OnlySaid(d);
    var ws := ApiWrites(d);
    forall i | 0 <= i < |ws| ensures ws[i].series != k { assert Said(d, ws[i]); }
    NeverWritten(ws, k);
  }

  /** The last write to `k` by the first `n` devices. */
  function LastOfFirst(devices: seq<Device>, n: nat, k: Series): Maybe
    requires n <= |devices|
  {
    LastWrite(AllApiWrites(devices[..n]), k)
  }

  lemma OneMoreDevice(devices: seq<Device>, n: nat, k: Series)
    requires n < |devices|
    ensures LastOfFirst(devices, n + 1, k) == Else(LastWrite(ApiWrites(devices[n]), k), LastOfFirst(devices, n, k))
  {
    assert devices[..n+1][..n] == devices[..n];
    LastWriteConcat(AllApiWrites(devices[..n]), ApiWrites(devices[n]), k);
  }

  lemma {:induction false} LastListed(devices: seq<Device>, i: nat, n: nat, k: Series)
    requires LastOfItsName(devices, i) && SameName(devices[i], k) && i < n <= |devices|
    ensures LastOfFirst(devices, n, k) == Else(LastWrite(ApiWrites(devices[i]), k), LastOfFirst(devices, i, k))
  {
    OneMoreDevice(devices, n - 1, k);
    if i < n - 1 {
      OtherName(devices[n-1], k);
      LastListed(devices, i, n - 1, k);
    }
  }

  /** No listed device with its id and name has a value for the series. */
  ghost predicate Unsaid(devices: seq<Device>, k: Series) {
    forall j, v | 0 <= j < |devices| && SameName(devices[j], k) :: !Says(devices[j], k.family, k.labels, v)
  }

  lemma UnsaidByOne(d: Device, k: Series)
    requires forall v | SameName(d, k) :: !Says(d, k.family, k.labels, v)
    ensures LastWrite(ApiWrites(d), k) == Absent
  {
    OnlySaid(d);
    var ws := ApiWrites(d);
    forall i | 0 <= i < |ws| ensures ws[i].series != k { assert Said(d, ws[i]); }
    NeverWritten(ws, k);
  }

  lemma {:induction false} UnsaidIsUnwritten(devices: seq<Device>, n: nat, k: Series)
    requires Unsaid(devices, k) && n <= |devices|
    ensures LastOfFirst(devices, n, k) == Absent
  {
    if n > 0 {
      UnsaidIsUnwritten(devices, n - 1, k);
      UnsaidByOne(devices[n-1], k);
      OneMoreDevice(devices, n - 1, k);
    }
  }

  // ---- After a cycle ----

  predicate Shows(m: Values, d: Device, f: Family, labels: seq<string>, v: real) {
    var k := Series(f, d.id, d.name, labels);
    k in m && m[k] == v
  }

  lemma NotScraped(c: Inputs, k: Series)
    requires Proper(c) && !IsClient(k.family)
    ensures LastWrite(c.scraped, k) == Absent
  {
    forall i | 0 <= i < |c.scraped| ensures c.scraped[i].series != k { assert ScrapedFrom(c.devices, c.scraped[i]); }
    NeverWritten(c.scraped, k);
  }

  lemma WrittenIsShown(s: State, c: Inputs, i: nat, f: Family, labels: seq<string>, v: real)
    requires Proper(c) && Consistent(s) && LastOfItsName(c.devices, i) && !IsClient(f)
    requires LastWrite(ApiWrites(c.devices[i]), Series(f, c.devices[i].id, c.devices[i].name, labels)) == Present(v)
    ensures Shows(Step(s, c).values, c.devices[i], f, labels, v)
  {
    var k := Series(f, c.devices[i].id, c.devices[i].name, labels);
    LastListed(c.devices, i, |c.devices|, k);
    assert c.devices[..|c.devices|] == c.devices;
    assert c.devices[i].id in Ids(c.devices);
    ValuesAfter(s, c, k);
    NotScraped(c, k);
  }

  lemma SaidIsShown(s: State, c: Inputs, i: nat, f: Family, labels: seq<string>, v: real)
    requires Proper(c) && Consistent(s) && LastOfItsName(c.devices, i) && !f.DeviceLatency?
    requires Says(c.devices[i], f, labels, v)
    ensures Shows(Step(s, c).values, c.devices[i], f, labels, v)
  {
    SaidIsTheLast(c.devices[i], f, labels, v);
    WrittenIsShown(s, c, i, f, labels, v);
  }

  /** The gauges with one value for every device. */
  predicate IdentityShown(m: Values, d: Device) {
    && Shows(m, d, DeviceInfo, [Truncate(d.os), Truncate(d.clientVersion)], 1.0)
    && Shows(m, d, DeviceOnline, [], if d.online then 1.0 else 0.0)
    && Shows(m, d, DeviceAuthorized, [], if d.authorized then 1.0 else 0.0)
    && Shows(m, d, DeviceMachineKeyExpiry, [], if !d.keyExpiryDisabled && d.expires.At? then d.expires.unix as real else 0.0)
  }

  predicate RoutingShown(m: Values, d: Device) {
    && Shows(m, d, DeviceExitNode, [], if d.isExitNode then 1.0 else 0.0)
    && Shows(m, d, DeviceExitNodeOption, [], if d.exitNodeOption then 1.0 else 0.0)
    && Shows(m, d, DeviceSubnetRouter, [],
             if exists r | r in d.advertisedRoutes :: r != "0.0.0.0/0" && r != "::/0" then 1.0 else 0.0)
  }

  predicate StatusShown(m: Values, d: Device) {
    && Shows(m, d, DeviceUpdateAvailable, [], if d.updateAvailable then 1.0 else 0.0)
    && Shows(m, d, DeviceExternal, [], if d.isExternal then 1.0 else 0.0)
    && Shows(m, d, DeviceBlocksIncoming, [], if d.blocksIncoming then 1.0 else 0.0)
    && Shows(m, d, DeviceEphemeral, [], if d.isEphemeral then 1.0 else 0.0)
  }

  predicate ConnectionShown(m: Values, d: Device) {
    && Shows(m, d, DeviceMultipleConnections, [], if d.multipleConnections then 1.0 else 0.0)
    && Shows(m, d, DeviceTailnetLockError, [], if d.tailnetLockError != "" then 1.0 else 0.0)
    && Shows(m, d, DeviceEndpoints, [], if d.connectivity.Connectivity? then d.connectivity.endpoints as real else 0.0)
    && Shows(m, d, DevicePostureSerialNumbers, [], d.serialNumbers as real)
  }

  /** The gauges a device has only sometimes, or once for every route. */
  predicate OptionsShown(m: Values, d: Device) {
    && (d.lastSeen.At? ==> Shows(m, d, DeviceLastSeen, [], d.lastSeen.unix as real))
    && (d.created.At? ==> Shows(m, d, DeviceCreated, [], d.created.unix as real))
    && (d.user != "" ==> Shows(m, d, DeviceUser, [Truncate(d.user)], 1.0))
    && (forall r | r in d.advertisedRoutes :: Shows(m, d, DeviceRoutesAdvertised, [Truncate(r)], 1.0))
    && (forall r | r in d.enabledRoutes :: Shows(m, d, DeviceRoutesEnabled, [Truncate(r)], 1.0))
  }

  predicate SupportsShown(m: Values, d: Device) {
    d.connectivity.Connectivity? ==>
      var has := d.connectivity.supports;
      && Shows(m, d, DeviceClientSupports, ["hairpinning"], if has.hairPinning then 1.0 else 0.0)
      && Shows(m, d, DeviceClientSupports, ["ipv6"], if has.ipv6 then 1.0 else 0.0)
      && Shows(m, d, DeviceClientSupports, ["pcp"], if has.pcp then 1.0 else 0.0)
      && Shows(m, d, DeviceClientSupports, ["pmp"], if has.pmp then 1.0 else 0.0)
      && Shows(m, d, DeviceClientSupports, ["udp"], if has.udp then 1.0 else 0.0)
      && Shows(m, d, DeviceClientSupports, ["upnp"], if has.upnp then 1.0 else 0.0)
  }

  ghost predicate ShowsAll(m: Values, d: Device) {
    forall f, labels, v | Says(d, f, labels, v) && !f.DeviceLatency? :: Shows(m, d, f, labels, v)
  }

  lemma ShowsIdentity(m: Values, d: Device)
    requires ShowsAll(m, d)
    ensures IdentityShown(m, d)
  {
    assert Says(d, DeviceInfo, [Truncate(d.os), Truncate(d.clientVersion)], 1.0);
    assert Says(d, DeviceOnline, [], if d.online then 1.0 else 0.0);
    assert Says(d, DeviceAuthorized, [], if d.authorized then 1.0 else 0.0);
    assert Says(d, DeviceMachineKeyExpiry, [], if !d.keyExpiryDisabled && d.expires.At? then d.expires.unix as real else 0.0);
  }

  lemma ShowsRouting(m: Values, d: Device)
    requires ShowsAll(m, d)
    ensures RoutingShown(m, d)
  {
    assert Says(d, DeviceExitNode, [], if d.isExitNode then 1.0 else 0.0);
    assert Says(d, DeviceExitNodeOption, [], if d.exitNodeOption then 1.0 else 0.0);
    assert Says(d, DeviceSubnetRouter, [],
                if exists r | r in d.advertisedRoutes :: r != "0.0.0.0/0" && r != "::/0" then 1.0 else 0.0);
  }

  lemma ShowsStatus(m: Values, d: Device)
    requires ShowsAll(m, d)
    ensures StatusShown(m, d)
  {
    assert Says(d, DeviceUpdateAvailable, [], if d.updateAvailable then 1.0 else 0.0);
    assert Says(d, DeviceExternal, [], if d.isExternal then 1.0 else 0.0);
    assert Says(d, DeviceBlocksIncoming, [], if d.blocksIncoming then 1.0 else 0.0);
    assert Says(d, DeviceEphemeral, [], if d.isEphemeral then 1.0 else 0.0);
  }

  lemma ShowsConnection(m: Values, d: Device)
    requires ShowsAll(m, d)
    ensures ConnectionShown(m, d)
  {
    assert Says(d, DeviceMultipleConnections, [], if d.multipleConnections then 1.0 else 0.0);
    assert Says(d, DeviceTailnetLockError, [], if d.tailnetLockError != "" then 1.0 else 0.0);
    assert Says(d, DeviceEndpoints, [], if d.connectivity.Connectivity? then d.connectivity.endpoints as real else 0.0);
    assert Says(d, DevicePostureSerialNumbers, [], d.serialNumbers as real);
  }

  lemma ShowsOptions(m: Values, d: Device)
    requires ShowsAll(m, d)
    ensures OptionsShown(m, d)
  {
    if d.lastSeen.At? { assert Says(d, DeviceLastSeen, [], d.lastSeen.unix as real); }
    if d.created.At? { assert Says(d, DeviceCreated, [], d.created.unix as real); }
    if d.user != "" { assert Says(d, DeviceUser, [Truncate(d.user)], 1.0); }
    assert forall r | r in d.advertisedRoutes :: Says(d, DeviceRoutesAdvertised, [Truncate(r)], 1.0);
    assert forall r | r in d.enabledRoutes :: Says(d, DeviceRoutesEnabled, [Truncate(r)], 1.0);
  }

  lemma ShowsSupports(m: Values, d: Device)
    requires ShowsAll(m, d)
    ensures SupportsShown(m, d)
  {
    if d.connectivity.Connectivity? {
      var has := d.connectivity.supports;
      assert Says(d, DeviceClientSupports, ["hairpinning"], if has.hairPinning then 1.0 else 0.0);
      assert Says(d, DeviceClientSupports, ["ipv6"], if has.ipv6 then 1.0 else 0.0);
      assert Says(d, DeviceClientSupports, ["pcp"], if has.pcp then 1.0 else 0.0);
      assert Says(d, DeviceClientSupports, ["pmp"], if has.pmp then 1.0 else 0.0);
      assert Says(d, DeviceClientSupports, ["udp"], if has.udp then 1.0 else 0.0);
      assert Says(d, DeviceClientSupports, ["upnp"], if has.upnp then 1.0 else 0.0);
    }
  }

  lemma CycleShowsAll(s: State, c: Inputs, i: nat)
    requires Proper(c) && Consistent(s) && LastOfItsName(c.devices, i)
    ensures ShowsAll(Step(s, c).values, c.devices[i])
  {
    var d := c.devices[i];
    forall f, labels, v | Says(d, f, labels, v) && !f.DeviceLatency? ensures Shows(Step(s, c).values, d, f, labels, v) {
      SaidIsShown(s, c, i, f, labels, v);
    }
  }

  /** After a cycle the gauges hold, for the last device listed under an id and a name, what
      its own fields say. */
  lemma FieldsAreShown(s: State, c: Inputs, i: nat)
    requires Proper(c) && Consistent(s) && LastOfItsName(c.devices, i)
    ensures var m, d := Step(s, c).values, c.devices[i];
      && IdentityShown(m, d) && RoutingShown(m, d) && StatusShown(m, d) && ConnectionShown(m, d)
      && OptionsShown(m, d) && SupportsShown(m, d)
  {
    CycleShowsAll(s, c, i);
    var m := Step(s, c).values;
    ShowsIdentity(m, c.devices[i]);
    ShowsRouting(m, c.devices[i]);
    ShowsStatus(m, c.devices[i]);
    ShowsConnection(m, c.devices[i]);
    ShowsOptions(m, c.devices[i]);
    ShowsSupports(m, c.devices[i]);
  }

  /** The latency shown for a region is that of the entry visited last among those with its
      label. */
  lemma LatencyIsShown(s: State, c: Inputs, i: nat, j: nat)
    requires Proper(c) && Consistent(s) && LastOfItsName(c.devices, i) && c.devices[i].connectivity.Connectivity?
    requires var ls := c.devices[i].connectivity.latency;
      j < |ls| && forall n | j < n < |ls| :: Truncate(ls[n].region) != Truncate(ls[j].region) || ls[n].preferred != ls[j].preferred
    ensures var d, l := c.devices[i], c.devices[i].connectivity.latency[j];
      Shows(Step(s, c).values, d, DeviceLatency, [Truncate(l.region), if l.preferred then "true" else "false"], l.ms)
  {
    var d, l := c.devices[i], c.devices[i].connectivity.latency[j];
    var labels := [Truncate(l.region), if l.preferred then "true" else "false"];
    TrueIsNotFalse();
    LatencyIsTheLast(d, j, labels, l.ms);
    WrittenIsShown(s, c, i, DeviceLatency, labels, l.ms);
  }

  lemma TrueIsNotFalse()
    ensures "true" != "false"
  {
    assert |"true"| != |"false"|;
  }

  // ---- What no device says ----

  /** Nobody listed after position `i` has its id: its mark is the one that counts. */
  ghost predicate LastOfItsId(devices: seq<Device>, i: nat) {
    i < |devices| && forall j | i < j < |devices| :: devices[j].id != devices[i].id
  }

  lemma MarkStep(lastSeen: map<DeviceId, int>, devices: seq<Device>, marks: seq<int>)
    requires |marks| == |devices| > 0
    ensures var n := |devices| - 1;
      Mark(lastSeen, devices, marks) == Mark(lastSeen, devices[..n], marks[..n])[devices[n].id := marks[n]]
  {
  }

  lemma {:induction false} LastMarkCounts(lastSeen: map<DeviceId, int>, devices: seq<Device>, marks: seq<int>, i: nat)
    requires |marks| == |devices| && LastOfItsId(devices, i)
    ensures Stamped(Mark(lastSeen, devices, marks), devices[i].id, marks[i])
    decreases |devices|
  {
    var n := |devices| - 1;
    MarkStep(lastSeen, devices, marks);
    if i < n {
      assert devices[i].id != devices[n].id;
      LastMarkCounts(lastSeen, devices[..n], marks[..n], i);
    }
  }

  predicate Stamped(m: map<DeviceId, int>, id: DeviceId, at: int) { id in m && m[id] == at }

  /** A device marked at most five minutes before the stale check loses no series there, one
      marked earlier its API series and no other. */
  lemma StaleCheckLeaves(s: State, c: Inputs, i: nat, k: Series)
    requires Proper(c) && LastOfItsId(c.devices, i) && k.id == c.devices[i].id
    ensures Lookup(Expired(s, c).values, k) ==
      if c.staleAt - c.marks[i] <= 300_000_000_000 || IsClient(k.family) then Lookup(s.values, k) else Absent
  {
    LastMarkCounts(s.lastSeen, c.devices, c.marks, i);
    DeletionLists(k.family);
  }

  /** An API series of a listed device that no device says keeps what the stale check left. */
  lemma UnsaidIsKept(s: State, c: Inputs, i: nat, k: Series)
    requires Proper(c) && Consistent(s) && LastOfItsId(c.devices, i) && k.id == c.devices[i].id
    requires !IsClient(k.family) && Unsaid(c.devices, k)
    ensures Lookup(Step(s, c).values, k) ==
      if c.staleAt - c.marks[i] <= 300_000_000_000 then Lookup(s.values, k) else Absent
  {
    assert c.devices[i].id in Ids(c.devices);
    UnsaidIsLeft(s, c, k);
    StaleCheckLeaves(s, c, i, k);
  }

  lemma UnsaidIsLeft(s: State, c: Inputs, k: Series)
    requires Proper(c) && Consistent(s) && k.id in Ids(c.devices) && !IsClient(k.family) && Unsaid(c.devices, k)
    ensures Lookup(Step(s, c).values, k) == Lookup(Expired(s, c).values, k)
  {
    ValuesAfter(s, c, k);
    NotScraped(c, k);
    assert c.devices[..|c.devices|] == c.devices;
    UnsaidIsUnwritten(c.devices, |c.devices|, k);
  }

  /** Of an unlisted device nothing is left but the client series of one that was in neither
      map, or whose last refresh is over five minutes before the stale check. */
  lemma UnlistedAfter(s: State, c: Inputs, k: Series)
    requires Proper(c) && Consistent(s) && forall i | 0 <= i < |c.devices| :: c.devices[i].id != k.id
    ensures Lookup(Step(s, c).values, k) ==
      if IsClient(k.family) && (k.id in s.lastSeen ==> c.staleAt - s.lastSeen[k.id] > 300_000_000_000)
      then Lookup(s.values, k) else Absent
  {
    assert k.id !in Ids(c.devices);
    ValuesAfter(s, c, k);
  }

  // ---- Counts ----

  function OnlineAmong(devices: seq<Device>, n: nat): set<nat>
    requires n <= |devices|
  {
    set i: nat | i < n && devices[i].online
  }

  lemma {:induction false} OnlineFirst(devices: seq<Device>, n: nat)
    requires n <= |devices|
    ensures Online(devices[..n]) == |OnlineAmong(devices, n)|
  {
    if n == 0 {
      assert OnlineAmong(devices, 0) == {};
    } else {
      OnlineFirst(devices, n - 1);
      OnlineNext(devices, n - 1);
      OneMoreOnline(devices, n - 1);
    }
  }

  lemma OnlineNext(devices: seq<Device>, n: nat)
    requires n < |devices|
    ensures Online(devices[..n+1]) == Online(devices[..n]) + (if devices[n].online then 1 else 0)
  {
    assert devices[..n+1][..n] == devices[..n];
  }

  lemma OneMoreOnline(devices: seq<Device>, n: nat)
    requires n < |devices|
    ensures |OnlineAmong(devices, n + 1)| == |OnlineAmong(devices, n)| + (if devices[n].online then 1 else 0)
  {
    assert OnlineAmong(devices, n + 1) == OnlineAmong(devices, n) + if devices[n].online then {n} else {};
  }

  lemma OnlineCounts(devices: seq<Device>)
    ensures Online(devices) == |set i: nat | i < |devices| && devices[i].online|
  {
    OnlineFirst(devices, |devices|);
    assert devices[..|devices|] == devices;
  }
}
