/** What UpdateMetrics of internal/metrics/collector.go writes for one listed device. */
module ApiSeries {
  import opened Identifiers
  import opened Registry

  datatype Latency = Latency(region: string, ms: real, preferred: bool)

  datatype Supports = Supports(hairPinning: bool, ipv6: bool, pcp: bool, pmp: bool, udp: bool, upnp: bool)

  datatype Connectivity = Unknown | Connectivity(endpoints: nat, latency: seq<Latency>, supports: Supports)

  /** A time is `Never` when it is the zero time. */
  datatype Time = Never | At(unix: int)

  datatype Device = Device(
    id: DeviceId, name: string, os: string, clientVersion: string, user: string,
    online: bool, authorized: bool, lastSeen: Time, created: Time, keyExpiryDisabled: bool, expires: Time,
    advertisedRoutes: seq<string>, enabledRoutes: seq<string>,
    isExitNode: bool, exitNodeOption: bool, updateAvailable: bool, isExternal: bool,
    blocksIncoming: bool, isEphemeral: bool, multipleConnections: bool, tailnetLockError: string,
    connectivity: Connectivity, serialNumbers: nat)

  const MAX_LABEL_LENGTH := 128

  /** A label is its first 128 characters, of code points. */
  function Truncate(s: string): (r: string)
    ensures r <= s && |r| == if |s| < 128 then |s| else 128
  {
    if |s| <= MAX_LABEL_LENGTH then s else s[..MAX_LABEL_LENGTH]
  }

  function Flag(b: bool): real { if b then 1.0 else 0.0 }

  predicate HasNonExitNodeRoutes(routes: seq<string>) {
    exists r | r in routes :: r != "0.0.0.0/0" && r != "::/0"
  }

  function Gauge(d: Device, f: Family, labels: seq<string>, v: real): Write {
    Write(Series(f, d.id, d.name, labels), v)
  }

  function TimeWrites(d: Device, f: Family, t: Time): seq<Write> {
    if t.Never? then [] else [Gauge(d, f, [], t.unix as real)]
  }

  function RouteWrites(d: Device, f: Family, routes: seq<string>): seq<Write> {
    seq(|routes|, i requires 0 <= i < |routes| => Gauge(d, f, [Truncate(routes[i])], 1.0))
  }

  function IdentityWrites(d: Device): seq<Write> {
    [Gauge(d, DeviceInfo, [Truncate(d.os), Truncate(d.clientVersion)], 1.0),
     Gauge(d, DeviceOnline, [], Flag(d.online)),
     Gauge(d, DeviceAuthorized, [], Flag(d.authorized))]
    + TimeWrites(d, DeviceLastSeen, d.lastSeen)
    + (if d.user == "" then [] else [Gauge(d, DeviceUser, [Truncate(d.user)], 1.0)])
    + [Gauge(d, DeviceMachineKeyExpiry, [],
             if !d.keyExpiryDisabled && d.expires.At? then d.expires.unix as real else 0.0)]
  }

  function RoutingWrites(d: Device): seq<Write> {
    RouteWrites(d, DeviceRoutesAdvertised, d.advertisedRoutes)
    + RouteWrites(d, DeviceRoutesEnabled, d.enabledRoutes)
    + [Gauge(d, DeviceExitNode, [], Flag(d.isExitNode)),
       Gauge(d, DeviceExitNodeOption, [], Flag(d.exitNodeOption)),
       Gauge(d, DeviceSubnetRouter, [], Flag(HasNonExitNodeRoutes(d.advertisedRoutes)))]
  }

  function StatusWrites(d: Device): seq<Write> {
    [Gauge(d, DeviceUpdateAvailable, [], Flag(d.updateAvailable))]
    + TimeWrites(d, DeviceCreated, d.created)
    + [Gauge(d, DeviceExternal, [], Flag(d.isExternal))]
  }

  function ConnectionWrites(d: Device): seq<Write> {
    [Gauge(d, DeviceBlocksIncoming, [], Flag(d.blocksIncoming)),
     Gauge(d, DeviceEphemeral, [], Flag(d.isEphemeral)),
     Gauge(d, DeviceMultipleConnections, [], Flag(d.multipleConnections)),
     Gauge(d, DeviceTailnetLockError, [], Flag(d.tailnetLockError != ""))]
  }

  function LatencyWrites(d: Device, ls: seq<Latency>): seq<Write> {
    seq(|ls|, i requires 0 <= i < |ls| =>
      Gauge(d, DeviceLatency, [Truncate(ls[i].region), if ls[i].preferred then "true" else "false"], ls[i].ms))
  }

  function SupportWrites(d: Device, s: Supports): seq<Write> {
    [Gauge(d, DeviceClientSupports, ["hairpinning"], Flag(s.hairPinning)),
     Gauge(d, DeviceClientSupports, ["ipv6"], Flag(s.ipv6)),
     Gauge(d, DeviceClientSupports, ["pcp"], Flag(s.pcp)),
     Gauge(d, DeviceClientSupports, ["pmp"], Flag(s.pmp)),
     Gauge(d, DeviceClientSupports, ["udp"], Flag(s.udp)),
     Gauge(d, DeviceClientSupports, ["upnp"], Flag(s.upnp))]
  }

  function ConnectivityWrites(d: Device): seq<Write> {
    match d.connectivity
    case Unknown => [Gauge(d, DeviceEndpoints, [], 0.0)]
    case Connectivity(n, latency, s) =>
      [Gauge(d, DeviceEndpoints, [], n as real)] + LatencyWrites(d, latency) + SupportWrites(d, s)
  }

  /** The writes of the device loop for `d`, in order. */
  function ApiWrites(d: Device): seq<Write> {
    IdentityWrites(d) + RoutingWrites(d) + StatusWrites(d) + ConnectionWrites(d) + ConnectivityWrites(d)
    + [Gauge(d, DevicePostureSerialNumbers, [], d.serialNumbers as real)]
  }

  predicate OwnApiWrite(d: Device, w: Write) { w.series.id == d.id && !IsClient(w.series.family) }

  predicate AllOwn(d: Device, ws: seq<Write>) { forall i | 0 <= i < |ws| :: OwnApiWrite(d, ws[i]) }

  lemma StateIsOwn(d: Device)
    ensures AllOwn(d, IdentityWrites(d)) && AllOwn(d, RoutingWrites(d)) && AllOwn(d, StatusWrites(d))
    ensures AllOwn(d, ConnectionWrites(d))
  {
  }

  lemma ConnectivityIsOwn(d: Device)
    ensures AllOwn(d, ConnectivityWrites(d))
  {
  }

  lemma AppendOwn(d: Device, a: seq<Write>, b: seq<Write>)
    requires AllOwn(d, a) && AllOwn(d, b)
    ensures AllOwn(d, a + b)
  {
  }

  lemma ApiWritesAreOwn(d: Device)
    ensures AllOwn(d, ApiWrites(d))
  {
    StateIsOwn(d);
    ConnectivityIsOwn(d);
    AppendOwn(d, IdentityWrites(d), RoutingWrites(d));
    AppendOwn(d, IdentityWrites(d) + RoutingWrites(d), StatusWrites(d));
    AppendOwn(d, IdentityWrites(d) + RoutingWrites(d) + StatusWrites(d), ConnectionWrites(d));
    AppendOwn(d, IdentityWrites(d) + RoutingWrites(d) + StatusWrites(d) + ConnectionWrites(d), ConnectivityWrites(d));
  }

  /** The families of the inline deletion list of UpdateMetrics. */
  const INLINE_LIST: set<Family> :=
    {DeviceInfo, DeviceOnline, DeviceAuthorized, DeviceLastSeen, DeviceUser, DeviceMachineKeyExpiry,
     DeviceRoutesAdvertised, DeviceRoutesEnabled, DeviceExitNode, DeviceExitNodeOption, DeviceSubnetRouter,
     DeviceUpdateAvailable, DeviceCreated, DeviceExternal, DeviceBlocksIncoming, DeviceEphemeral,
     DeviceMultipleConnections, DeviceLatency, DeviceEndpoints, DeviceClientSupports, DeviceTailnetLockError,
     DevicePostureSerialNumbers}

  /** The families of CleanupDeviceMetrics. */
  const CLEANUP_LIST: set<Family> :=
    {InboundBytes, OutboundBytes, InboundPackets, OutboundPackets, InboundDroppedPackets,
     OutboundDroppedPackets, HealthMessages, AdvertisedRoutes, ApprovedRoutes}
    + {DeviceInfo, DeviceOnline, DeviceAuthorized, DeviceLastSeen, DeviceUser, DeviceMachineKeyExpiry,
       DeviceRoutesAdvertised, DeviceRoutesEnabled, DeviceExitNode, DeviceExitNodeOption, DeviceSubnetRouter}
    + {DeviceUpdateAvailable, DeviceCreated, DeviceExternal, DeviceBlocksIncoming, DeviceEphemeral,
       DeviceMultipleConnections, DeviceLatency, DeviceEndpoints, DeviceClientSupports, DeviceTailnetLockError,
       DevicePostureSerialNumbers}

  /** The inline list misses exactly the client families; the clean-up list none. */
  lemma DeletionLists(f: Family)
    ensures f in INLINE_LIST <==> !IsClient(f)
    ensures f in CLEANUP_LIST
  {
  }
}
