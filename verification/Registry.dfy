/** The gauge vectors of internal/metrics/definitions.go that carry a device_id, as one
    map from series to value. */
module Registry {
  import opened Identifiers

  datatype Family =
    // client families, written by scrapes
    | InboundBytes | OutboundBytes | InboundPackets | OutboundPackets
    | InboundDroppedPackets | OutboundDroppedPackets | HealthMessages | AdvertisedRoutes | ApprovedRoutes
    // API families, written from the device list
    | DeviceInfo | DeviceOnline | DeviceAuthorized | DeviceLastSeen | DeviceUser | DeviceMachineKeyExpiry
    | DeviceRoutesAdvertised | DeviceRoutesEnabled | DeviceExitNode | DeviceExitNodeOption | DeviceSubnetRouter
    | DeviceUpdateAvailable | DeviceCreated | DeviceExternal | DeviceBlocksIncoming | DeviceEphemeral
    | DeviceMultipleConnections | DeviceLatency | DeviceEndpoints | DeviceClientSupports
    | DeviceTailnetLockError | DevicePostureSerialNumbers

  predicate IsClient(f: Family) {
    f.InboundBytes? || f.OutboundBytes? || f.InboundPackets? || f.OutboundPackets? || f.InboundDroppedPackets? ||
    f.OutboundDroppedPackets? || f.HealthMessages? || f.AdvertisedRoutes? || f.ApprovedRoutes?
  }

  /** `labels` are the label values after device_id and device_name. */
  datatype Series = Series(family: Family, id: DeviceId, name: string, labels: seq<string>)

  type Values = map<Series, real>

  datatype Write = Write(series: Series, value: real)

  function WriteAll(m: Values, ws: seq<Write>): Values {
    if ws == [] then m
    else var w := ws[|ws|-1]; WriteAll(m, ws[..|ws|-1])[w.series := w.value]
  }

  /** Without the series of device `id` in the given families. */
  function Without(m: Values, families: set<Family>, id: DeviceId): Values {
    map k | k in m && !(k.family in families && k.id == id) :: m[k]
  }

  lemma AppendWrite(m: Values, ws: seq<Write>, w: Write)
    ensures WriteAll(m, ws + [w]) == WriteAll(m, ws)[w.series := w.value]
  {
    assert (ws + [w])[..|ws|] == ws;
  }

  lemma {:induction false} WriteAllConcat(m: Values, a: seq<Write>, b: seq<Write>)
    ensures WriteAll(m, a + b) == WriteAll(WriteAll(m, a), b)
  {
    if b == [] {
      assert a + b == a;
    } else {
      WriteAllConcat(m, a, b[..|b|-1]);
      assert (a + b)[..|a + b| - 1] == a + b[..|b|-1];
    }
  }

  datatype Maybe = Absent | Present(value: real)

  function Lookup(m: Values, k: Series): Maybe { if k in m then Present(m[k]) else Absent }

  /** The value of the last write to `k`, if there is one. */
  function LastWrite(ws: seq<Write>, k: Series): Maybe {
    if ws == [] then Absent
    else if ws[|ws|-1].series == k then Present(ws[|ws|-1].value)
    else LastWrite(ws[..|ws|-1], k)
  }

  function Else(a: Maybe, b: Maybe): Maybe { if a.Present? then a else b }

  /** After a list of writes every series holds its last write, or what it held. */
  lemma {:induction false} LastWriteWins(m: Values, ws: seq<Write>, k: Series)
    ensures Lookup(WriteAll(m, ws), k) == Else(LastWrite(ws, k), Lookup(m, k))
  {
    if ws != [] { LastWriteWins(m, ws[..|ws|-1], k); }
  }

  lemma {:induction false} LastWriteConcat(a: seq<Write>, b: seq<Write>, k: Series)
    ensures LastWrite(a + b, k) == Else(LastWrite(b, k), LastWrite(a, k))
  {
    if b == [] {
      assert a + b == a;
    } else {
      LastWriteConcat(a, b[..|b|-1], k);
      assert (a + b)[..|a + b| - 1] == a + b[..|b|-1];
    }
  }

  /** A series written once or more, always with the same value, holds that value. */
  lemma {:induction false} AlwaysTheSame(ws: seq<Write>, k: Series, v: real)
    requires Write(k, v) in ws && forall w | w in ws && w.series == k :: w.value == v
    ensures LastWrite(ws, k) == Present(v)
  {
    var n := |ws| - 1;
    if ws[n].series != k { AlwaysTheSame(ws[..n], k, v); }
  }

  lemma {:induction false} LastAt(ws: seq<Write>, i: nat)
    requires i < |ws| && forall j | i < j < |ws| :: ws[j].series != ws[i].series
    ensures LastWrite(ws, ws[i].series) == Present(ws[i].value)
  {
    if i < |ws| - 1 { LastAt(ws[..|ws|-1], i); }
  }

  lemma {:induction false} NeverWritten(ws: seq<Write>, k: Series)
    requires forall i | 0 <= i < |ws| :: ws[i].series != k
    ensures LastWrite(ws, k) == Absent
  {
    if ws != [] { NeverWritten(ws[..|ws|-1], k); }
  }

  class Gauges {
    var series: Values

    constructor ()
      ensures series == map[]
    {
      series := map[];
    }

    /** WithLabelValues(...).Set(v) */
    method Set(w: Write)
      modifies this
      ensures series == old(series)[w.series := w.value]
    {
      series := series[w.series := w.value];
    }

    /** DeletePartialMatch on `device_id` for each of the vectors, in turn. */
    method DeleteDevice(families: set<Family>, id: DeviceId)
      modifies this
      ensures series == Without(old(series), families, id)
    {
      var rest := families;
      while rest != {}
        invariant rest <= families && series == Without(old(series), families - rest, id)
        decreases rest
      {
        var f :| f in rest;
        rest := rest - {f};
        series := map k | k in series && !(k.family == f && k.id == id) :: series[k];
      }
    }
  }
}
