/** Client metrics responses of internal/metrics/scraper.go, and concurrent scrapes. */
module Scrapes {
  import opened Helpers
  import opened Identifiers
  import opened Labels
  import opened MetricLine
  import opened Registry

  datatype Device = Device(id: DeviceId, name: string)

  /** strconv.ParseFloat is a parameter: the value of a literal, or None on an error. */
  type Float = string -> Option<real>

  /** The family of a metric name and the label it keeps besides the device. */
  function Target(metric: string): Option<(Family, string)> {
    match metric
    case "tailscaled_inbound_bytes_total" => Some((InboundBytes, "path"))
    case "tailscaled_outbound_bytes_total" => Some((OutboundBytes, "path"))
    case "tailscaled_inbound_packets_total" => Some((InboundPackets, "path"))
    case "tailscaled_outbound_packets_total" => Some((OutboundPackets, "path"))
    case "tailscaled_inbound_dropped_packets_total" => Some((InboundDroppedPackets, ""))
    case "tailscaled_outbound_dropped_packets_total" => Some((OutboundDroppedPackets, "reason"))
    case "tailscaled_health_messages" => Some((HealthMessages, "type"))
    case "tailscaled_advertised_routes" => Some((AdvertisedRoutes, ""))
    case "tailscaled_approved_routes" => Some((ApprovedRoutes, ""))
    case _ => None
  }

  predicate OwnClientWrite(dev: Device, w: Write) {
    IsClient(w.series.family) && w.series.id == dev.id && w.series.name == dev.name
  }

  /** The write of updateDeviceMetric; a missing label reads as the empty string. */
  function UpdateOf(dev: Device, metric: string, labels: map<string, string>, value: real): (ws: seq<Write>)
    ensures forall w | w in ws :: OwnClientWrite(dev, w)
  {
    match Target(metric)
    case None => []
    case Some((f, key)) =>
      var kept := if key == "" then [] else [if key in labels then labels[key] else ""];
      [Write(Series(f, dev.id, dev.name, kept), value)]
  }

  /** The write of a matched line; a literal that is no number writes nothing. */
  function PartsWrites(dev: Device, parse: Float, name: string, labels: map<string, string>, literal: string): (ws: seq<Write>)
    ensures forall w | w in ws :: OwnClientWrite(dev, w)
  {
    match parse(literal)
    case None => []
    case Some(v) => UpdateOf(dev, name, labels, v)
  }

  /** What one line of a response writes: at most one gauge. */
  function LineWrites(dev: Device, parse: Float, raw: string): (ws: seq<Write>)
    ensures forall w | w in ws :: OwnClientWrite(dev, w)
  {
    var line := Trim(raw, Blank);
    if line == "" || line[0] == '#' then []
    else
      match MatchLine(line)
      case None => []
      case Some(p) => PartsWrites(dev, parse, p.name, LabelMap(p.labels), p.literal)
  }

  /** What each line of a response writes, by itself. */
  type LineMeaning = string -> seq<Write>

  function Meaning(dev: Device, parse: Float): LineMeaning {
    line => LineWrites(dev, parse, line)
  }

  /** All writes of a body, line by line.  A read error loses the unfinished last line. */
  function BodyWrites(f: LineMeaning, body: string, readError: bool): seq<Write>
    decreases |body|
  {
    var i := IndexOf(body, '\n');
    if i < |body| then f(body[..i]) + BodyWrites(f, body[i+1..], readError)
    else if readError then [] else f(body)
  }

  method ProcessMetricLine(g: Gauges, dev: Device, parse: Float, line: string)
    requires line != "" && line[0] != '#' && Trim(line, Blank) == line
    modifies g
    ensures g.series == WriteAll(old(g.series), LineWrites(dev, parse, line))
  {
    var m := MatchLine(line);
    if m.None? { return; }
    var val := parse(m.value.literal);
    if val.None? { return; }
    var labels := ParseLabels(m.value.labels);
    var t := Target(m.value.name);
    if t.Some? {
      var (f, key) := t.value;
      var kept := if key == "" then [] else [if key in labels then labels[key] else ""];
      AppendWrite(g.series, [], Write(Series(f, dev.id, dev.name, kept), val.value));
      assert [] + [Write(Series(f, dev.id, dev.name, kept), val.value)] == LineWrites(dev, parse, line);
      g.Set(Write(Series(f, dev.id, dev.name, kept), val.value));
    }
  }

  /** One turn of the reading loop. */
  method ProcessRawLine(g: Gauges, dev: Device, parse: Float, raw: string)
    modifies g
    ensures g.series == WriteAll(old(g.series), Meaning(dev, parse)(raw))
  {
    var line := Trim(raw, Blank);
    if line != "" && line[0] != '#' {
      TrimTwice(raw);
      ProcessMetricLine(g, dev, parse, line);
    }
  }

  /** parseMetricsResponse: reads line by line; every bad line is skipped. */
  method ParseMetricsResponse(g: Gauges, dev: Device, parse: Float, body: string, readError: bool) returns (ok: bool)
    modifies g
    ensures ok == !readError
    ensures g.series == WriteAll(old(g.series), BodyWrites(Meaning(dev, parse), body, readError))
  {
    ghost var f := Meaning(dev, parse);
    var rest := body;
    while true
      invariant WriteAll(g.series, BodyWrites(f, rest, readError)) == WriteAll(old(g.series), BodyWrites(f, body, readError))
      decreases |rest|
    {
      var i := IndexOf(rest, '\n');
      if i == |rest| && readError { return false; }
      ghost var before := g.series;
      ProcessRawLine(g, dev, parse, rest[..i]);
      if i == |rest| {
        assert rest[..i] == rest;
        return true;
      }
      WriteAllConcat(before, f(rest[..i]), BodyWrites(f, rest[i+1..], readError));
      rest := rest[i+1..];
    }
  }

  lemma {:induction false} TrimRightTwice(s: string, k: Class)
    ensures TrimRight(TrimRight(s, k), k) == TrimRight(s, k)
    ensures StartsOutside(s, k) ==> StartsOutside(TrimRight(s, k), k)
  {
    if s != "" && In(s[|s|-1], k) { TrimRightTwice(s[..|s|-1], k); }
  }

  lemma TrimTwice(s: string)
    ensures Trim(Trim(s, Blank), Blank) == Trim(s, Blank)
  {
    var t := Trim(s, Blank);
    TrimRightTwice(s[Span(s, Blank)..], Blank);
    assert Span(t, Blank) == 0 && t[0..] == t;
  }

  /** A rendered metric, read back as one line, sets its own gauge. */
  lemma RenderedLineIsApplied(dev: Device, parse: Float, name: string, ls: seq<Label>, literal: string)
    requires name != "" && All(name, NameChar) && literal != "" && All(literal, ValueChar)
    requires forall i | 0 <= i < |ls| :: Plain(ls[i])
    ensures LineWrites(dev, parse, RenderLine(name, ls, literal)) == PartsWrites(dev, parse, name, MapOf(map[], ls), literal)
  {
    var line := RenderLine(name, ls, literal);
    RenderedLineIsTrim(name, ls, literal);
    MetricLineRoundTrip(name, ls, literal);
    MatchedLineWrites(dev, parse, line, MatchLine(line).value);
  }

  lemma MatchedLineWrites(dev: Device, parse: Float, raw: string, p: Parts)
    requires var line := Trim(raw, Blank); line != "" && line[0] != '#' && MatchLine(line) == Some(p)
    ensures LineWrites(dev, parse, raw) == PartsWrites(dev, parse, p.name, LabelMap(p.labels), p.literal)
  {
  }

  lemma RenderedLineIsTrim(name: string, ls: seq<Label>, literal: string)
    requires name != "" && All(name, NameChar) && literal != "" && All(literal, ValueChar)
    ensures var line := RenderLine(name, ls, literal); line != "" && line[0] != '#' && Trim(line, Blank) == line
  {
    var line := RenderLine(name, ls, literal);
    assert line[0] == name[0] && In(name[0], NameChar);
    assert line[|line|-1] == literal[|literal|-1] && In(literal[|literal|-1], ValueChar);
    assert Span(line, Blank) == 0 && line[0..] == line;
  }

  /** Blanks around a line do not count. */
  lemma PaddedLine(dev: Device, parse: Float, before: string, line: string, after: string)
    requires All(before, Blank) && All(after, Blank) && line != "" && !In(line[0], Blank) && !In(line[|line|-1], Blank)
    ensures LineWrites(dev, parse, before + (line + after)) == LineWrites(dev, parse, line)
  {
    TrimOf(before, line, after, Blank);
    TrimOf("", line, "", Blank);
    assert "" + (line + "") == line;
  }

  // ---- Lines that change nothing ----

  /** A line that says nothing: blank, a comment, or without a known metric and a valid
      value in the form of the pattern. */
  ghost predicate Silent(parse: Float, raw: string) {
    var line := Trim(raw, Blank);
    line == "" || line[0] == '#' || !exists p :: Derives(line, p) && Speaks(parse, p)
  }

  predicate Speaks(parse: Float, p: Parts) { parse(p.literal).Some? && Target(p.name).Some? }

  lemma UpdateIffTarget(dev: Device, parse: Float, p: Parts, labels: map<string, string>)
    ensures PartsWrites(dev, parse, p.name, labels, p.literal) == [] <==> !Speaks(parse, p)
  {
  }

  lemma UnmatchedLineWrites(dev: Device, parse: Float, raw: string)
    requires var line := Trim(raw, Blank); line == "" || line[0] == '#' || MatchLine(line) == None
    ensures LineWrites(dev, parse, raw) == []
  {
  }

  lemma SilentIffNoWrite(dev: Device, parse: Float, raw: string)
    ensures Meaning(dev, parse)(raw) == [] <==> Silent(parse, raw)
  {
    var line := Trim(raw, Blank);
    if line == "" || line[0] == '#' {
      UnmatchedLineWrites(dev, parse, raw);
    } else {
      forall p ensures Derives(line, p) <==> MatchLine(line) == Some(p) { MatcherIsTheGrammar(line, p); }
      match MatchLine(line)
      case None => UnmatchedLineWrites(dev, parse, raw);
      case Some(p) =>
        MatchedLineWrites(dev, parse, raw, p);
        UpdateIffTarget(dev, parse, p, LabelMap(p.labels));
    }
  }

  lemma SplitFirst(line: string, tail: string)
    requires '\n' !in line
    ensures var s := line + ['\n'] + tail;
      IndexOf(s, '\n') == |line| && s[..|line|] == line && s[|line|+1..] == tail
  {
    IndexOfFirst(line, '\n', tail);
  }

  lemma BodyFromLine(f: LineMeaning, line: string, tail: string, readError: bool)
    requires '\n' !in line
    ensures BodyWrites(f, line + ['\n'] + tail, readError) == f(line) + BodyWrites(f, tail, readError)
  {
    SplitFirst(line, tail);
  }

  /** Inserting a line that writes nothing, after any finished line, changes nothing. */
  lemma {:induction false} JunkLinesChangeNothing(f: LineMeaning, a: string, junk: string, b: string, readError: bool)
    requires a == "" || a[|a|-1] == '\n'
    requires '\n' !in junk && f(junk) == []
    ensures BodyWrites(f, a + (junk + ['\n'] + b), readError) == BodyWrites(f, a + b, readError)
    decreases |a|
  {
    var x := junk + ['\n'] + b;
    if a == "" {
      BodyFromLine(f, junk, b, readError);
      assert a + x == x && a + b == b && [] + BodyWrites(f, b, readError) == BodyWrites(f, b, readError);
    } else {
      var i := IndexOf(a, '\n');
      assert a[|a|-1] == '\n';
      var line, more := a[..i], a[i+1..];
      JunkLinesChangeNothing(f, more, junk, b, readError);
      LinePrefix(f, a, i, x, readError);
      LinePrefix(f, a, i, b, readError);
    }
  }

  ghost predicate NoDifference(f: LineMeaning, junk: string) {
    forall a, b, readError | a == "" || a[|a|-1] == '\n' ::
      BodyWrites(f, a + (junk + ['\n'] + b), readError) == BodyWrites(f, a + b, readError)
  }

  /** A line can be put into any response, after any finished line, without changing what
      the response writes if and only if it is blank, a comment, off the pattern, without a
      valid value or of an unknown metric. */
  lemma SilentLinesIff(dev: Device, parse: Float, junk: string)
    requires '\n' !in junk
    ensures NoDifference(Meaning(dev, parse), junk) <==> Silent(parse, junk)
  {
    var f := Meaning(dev, parse);
    SilentIffNoWrite(dev, parse, junk);
    SilentIffNoWrite(dev, parse, "");
    if Silent(parse, junk) {
      forall a, b, readError | a == "" || a[|a|-1] == '\n'
        ensures BodyWrites(f, a + (junk + ['\n'] + b), readError) == BodyWrites(f, a + b, readError)
      {
        JunkLinesChangeNothing(f, a, junk, b, readError);
      }
    }
    if NoDifference(f, junk) {
      BodyFromLine(f, junk, "", false);
      assert "" + (junk + ['\n'] + "") == junk + ['\n'] + "";
      assert BodyWrites(f, "" + (junk + ['\n'] + ""), false) == BodyWrites(f, "" + "", false);
      assert BodyWrites(f, "", false) == f("") == [];
    }
  }

  lemma LinePrefix(f: LineMeaning, a: string, i: nat, tail: string, readError: bool)
    requires i < |a| && i == IndexOf(a, '\n')
    ensures BodyWrites(f, a + tail, readError) == f(a[..i]) + BodyWrites(f, a[i+1..] + tail, readError)
  {
    assert a == a[..i] + ['\n'] + a[i+1..];
    Rejoin(a[..i], a[i+1..], tail);
    BodyFromLine(f, a[..i], a[i+1..] + tail, readError);
  }

  lemma Rejoin(line: string, more: string, tail: string)
    ensures (line + ['\n'] + more) + tail == line + ['\n'] + (more + tail)
  {
  }

  /** A body reads the same with and without its final line feed. */
  lemma {:induction false} FinalLineFeedIsOptional(f: LineMeaning, body: string)
    requires f("") == []
    ensures BodyWrites(f, body + ['\n'], false) == BodyWrites(f, body, false)
    decreases |body|
  {
    var i := IndexOf(body, '\n');
    if i == |body| {
      BodyFromLine(f, body, "", false);
      assert body + ['\n'] + "" == body + ['\n'];
    } else {
      var line, more := body[..i], body[i+1..];
      FinalLineFeedIsOptional(f, more);
      BodyFromLine(f, line, more + ['\n'], false);
      assert body + ['\n'] == line + ['\n'] + (more + ['\n']);
    }
  }

  // ---- Whole responses ----

  datatype Metric = Metric(name: string, labels: seq<Label>, literal: string)

  /** A metric that can be rendered as one line. */
  ghost predicate Renderable(x: Metric) {
    && x.name != "" && All(x.name, NameChar) && x.literal != "" && All(x.literal, ValueChar)
    && forall i | 0 <= i < |x.labels| :: Plain(x.labels[i]) && '\n' !in x.labels[i].1
  }

  lemma OneLineLabel(l: Label)
    requires Plain(l) && '\n' !in l.1
    ensures '\n' !in RenderLabel(l)
  {
    assert '\n' !in l.0;
  }

  lemma {:induction false} OneLineLabels(ls: seq<Label>)
    requires forall i | 0 <= i < |ls| :: Plain(ls[i]) && '\n' !in ls[i].1
    ensures '\n' !in RenderLabels(ls)
  {
    if ls != [] {
      OneLineLabel(ls[0]);
      OneLineLabels(ls[1..]);
    }
  }

  lemma RenderedIsOneLine(name: string, ls: seq<Label>, literal: string)
    requires All(name, NameChar) && All(literal, ValueChar)
    requires forall i | 0 <= i < |ls| :: Plain(ls[i]) && '\n' !in ls[i].1
    ensures '\n' !in RenderLine(name, ls, literal)
  {
    OneLineLabels(ls);
    forall c | c in name ensures c != '\n' { assert In(c, NameChar); }
    forall c | c in literal ensures c != '\n' { assert In(c, ValueChar); }
  }

  function Text(lines: seq<string>): string {
    if lines == [] then "" else lines[0] + ['\n'] + Text(lines[1..])
  }

  function Meanings(f: LineMeaning, lines: seq<string>): seq<Write> {
    if lines == [] then [] else f(lines[0]) + Meanings(f, lines[1..])
  }

  function Rendered(xs: seq<Metric>): seq<string> {
    seq(|xs|, i requires 0 <= i < |xs| => RenderLine(xs[i].name, xs[i].labels, xs[i].literal))
  }

  function RenderBody(xs: seq<Metric>): string { Text(Rendered(xs)) }

  function MetricsWrites(dev: Device, parse: Float, xs: seq<Metric>): seq<Write> {
    if xs == [] then [] else MetricWrites(dev, parse, xs[0]) + MetricsWrites(dev, parse, xs[1..])
  }

  // ---- The metrics by name ----

  /** The text of label `key`, or the empty string without one. */
  ghost predicate TextOf(ls: seq<Label>, key: string, text: string) {
    DistinctNames(ls) && ((key, text) in ls || (text == "" && forall i | 0 <= i < |ls| :: ls[i].0 != key))
  }

  lemma LabelIsRead(ls: seq<Label>, key: string, text: string)
    requires TextOf(ls, key, text)
    ensures (if key in MapOf(map[], ls) then MapOf(map[], ls)[key] else "") == text
  {
    MapOfHolds(map[], ls, key, text);
    if key in MapOf(map[], ls) { MapOfHolds(map[], ls, key, MapOf(map[], ls)[key]); }
  }

  /** What a rendered line of a known metric writes. */
  lemma KnownMetric(dev: Device, parse: Float, name: string, ls: seq<Label>, literal: string, v: real,
                    f: Family, key: string, text: string)
    requires name != "" && All(name, NameChar) && literal != "" && All(literal, ValueChar) && parse(literal) == Some(v)
    requires forall i | 0 <= i < |ls| :: Plain(ls[i])
    requires Target(name) == Some((f, key)) && (key != "" ==> TextOf(ls, key, text))
    ensures Line(dev, parse, name, ls, literal) == [Write(Series(f, dev.id, dev.name, if key == "" then [] else [text]), v)]
  {
    RenderedLineIsApplied(dev, parse, name, ls, literal);
    if key != "" { LabelIsRead(ls, key, text); }
  }

  /** What a metric rendered as one line writes. */
  function Line(dev: Device, parse: Float, name: string, ls: seq<Label>, literal: string): seq<Write> {
    LineWrites(dev, parse, RenderLine(name, ls, literal))
  }

  /** A metric rendered with a valid value sets one gauge, with these labels. */
  ghost predicate Sets(dev: Device, parse: Float, name: string, ls: seq<Label>, literal: string, v: real,
                       f: Family, labels: seq<string>) {
    Line(dev, parse, name, ls, literal) == [Write(Series(f, dev.id, dev.name, labels), v)]
  }

  /** A metric with a valid value and printable labels. */
  ghost predicate Valued(parse: Float, ls: seq<Label>, literal: string, v: real) {
    && literal != "" && All(literal, ValueChar) && parse(literal) == Some(v)
    && forall i | 0 <= i < |ls| :: Plain(ls[i])
  }

  lemma InboundBytesLine(dev: Device, parse: Float, ls: seq<Label>, literal: string, v: real, path: string)
    requires Valued(parse, ls, literal, v)
    requires TextOf(ls, "path", path)
    ensures Sets(dev, parse, "tailscaled_inbound_bytes_total", ls, literal, v, InboundBytes, [path])
  {
    assert All("tailscaled_inbound_bytes_total", NameChar);
    assert Target("tailscaled_inbound_bytes_total") == Some((InboundBytes, "path"));
    KnownMetric(dev, parse, "tailscaled_inbound_bytes_total", ls, literal, v, InboundBytes, "path", path);
  }

  lemma OutboundBytesLine(dev: Device, parse: Float, ls: seq<Label>, literal: string, v: real, path: string)
    requires Valued(parse, ls, literal, v)
    requires TextOf(ls, "path", path)
    ensures Sets(dev, parse, "tailscaled_outbound_bytes_total", ls, literal, v, OutboundBytes, [path])
  {
    assert All("tailscaled_outbound_bytes_total", NameChar);
    assert Target("tailscaled_outbound_bytes_total") == Some((OutboundBytes, "path"));
    KnownMetric(dev, parse, "tailscaled_outbound_bytes_total", ls, literal, v, OutboundBytes, "path", path);
  }

  lemma InboundPacketsLine(dev: Device, parse: Float, ls: seq<Label>, literal: string, v: real, path: string)
    requires Valued(parse, ls, literal, v)
    requires TextOf(ls, "path", path)
    ensures Sets(dev, parse, "tailscaled_inbound_packets_total", ls, literal, v, InboundPackets, [path])
  {
    assert All("tailscaled_inbound_packets_total", NameChar);
    assert Target("tailscaled_inbound_packets_total") == Some((InboundPackets, "path"));
    KnownMetric(dev, parse, "tailscaled_inbound_packets_total", ls, literal, v, InboundPackets, "path", path);
  }

  lemma OutboundPacketsLine(dev: Device, parse: Float, ls: seq<Label>, literal: string, v: real, path: string)
    requires Valued(parse, ls, literal, v)
    requires TextOf(ls, "path", path)
    ensures Sets(dev, parse, "tailscaled_outbound_packets_total", ls, literal, v, OutboundPackets, [path])
  {
    assert All("tailscaled_outbound_packets_total", NameChar);
    assert Target("tailscaled_outbound_packets_total") == Some((OutboundPackets, "path"));
    KnownMetric(dev, parse, "tailscaled_outbound_packets_total", ls, literal, v, OutboundPackets, "path", path);
  }

  lemma InboundDroppedPacketsLine(dev: Device, parse: Float, ls: seq<Label>, literal: string, v: real)
    requires Valued(parse, ls, literal, v)
    ensures Sets(dev, parse, "tailscaled_inbound_dropped_packets_total", ls, literal, v, InboundDroppedPackets, [])
  {
    assert All("tailscaled_inbound_dropped_packets_total", NameChar);
    assert Target("tailscaled_inbound_dropped_packets_total") == Some((InboundDroppedPackets, ""));
    KnownMetric(dev, parse, "tailscaled_inbound_dropped_packets_total", ls, literal, v, InboundDroppedPackets, "", "");
  }

  lemma OutboundDroppedPacketsLine(dev: Device, parse: Float, ls: seq<Label>, literal: string, v: real, reason: string)
    requires Valued(parse, ls, literal, v)
    requires TextOf(ls, "reason", reason)
    ensures Sets(dev, parse, "tailscaled_outbound_dropped_packets_total", ls, literal, v, OutboundDroppedPackets, [reason])
  {
    assert All("tailscaled_outbound_dropped_packets_total", NameChar);
    assert Target("tailscaled_outbound_dropped_packets_total") == Some((OutboundDroppedPackets, "reason"));
    KnownMetric(dev, parse, "tailscaled_outbound_dropped_packets_total", ls, literal, v, OutboundDroppedPackets, "reason", reason);
  }

  lemma HealthMessagesLine(dev: Device, parse: Float, ls: seq<Label>, literal: string, v: real, kind: string)
    requires Valued(parse, ls, literal, v)
    requires TextOf(ls, "type", kind)
    ensures Sets(dev, parse, "tailscaled_health_messages", ls, literal, v, HealthMessages, [kind])
  {
    assert All("tailscaled_health_messages", NameChar);
    assert Target("tailscaled_health_messages") == Some((HealthMessages, "type"));
    KnownMetric(dev, parse, "tailscaled_health_messages", ls, literal, v, HealthMessages, "type", kind);
  }

  lemma AdvertisedRoutesLine(dev: Device, parse: Float, ls: seq<Label>, literal: string, v: real)
    requires Valued(parse, ls, literal, v)
    ensures Sets(dev, parse, "tailscaled_advertised_routes", ls, literal, v, AdvertisedRoutes, [])
  {
    assert All("tailscaled_advertised_routes", NameChar);
    assert Target("tailscaled_advertised_routes") == Some((AdvertisedRoutes, ""));
    KnownMetric(dev, parse, "tailscaled_advertised_routes", ls, literal, v, AdvertisedRoutes, "", "");
  }

  lemma ApprovedRoutesLine(dev: Device, parse: Float, ls: seq<Label>, literal: string, v: real)
    requires Valued(parse, ls, literal, v)
    ensures Sets(dev, parse, "tailscaled_approved_routes", ls, literal, v, ApprovedRoutes, [])
  {
    assert All("tailscaled_approved_routes", NameChar);
    assert Target("tailscaled_approved_routes") == Some((ApprovedRoutes, ""));
    KnownMetric(dev, parse, "tailscaled_approved_routes", ls, literal, v, ApprovedRoutes, "", "");
  }

  /** The nine metrics of a client: each name sets its own gauge, with the label it keeps. */
  lemma EveryMetric(dev: Device, parse: Float, ls: seq<Label>, literal: string, v: real, path: string, reason: string, kind: string)
    requires Valued(parse, ls, literal, v)
    requires TextOf(ls, "path", path) && TextOf(ls, "reason", reason) && TextOf(ls, "type", kind)
    ensures Sets(dev, parse, "tailscaled_inbound_bytes_total", ls, literal, v, InboundBytes, [path])
    ensures Sets(dev, parse, "tailscaled_outbound_bytes_total", ls, literal, v, OutboundBytes, [path])
    ensures Sets(dev, parse, "tailscaled_inbound_packets_total", ls, literal, v, InboundPackets, [path])
    ensures Sets(dev, parse, "tailscaled_outbound_packets_total", ls, literal, v, OutboundPackets, [path])
    ensures Sets(dev, parse, "tailscaled_inbound_dropped_packets_total", ls, literal, v, InboundDroppedPackets, [])
    ensures Sets(dev, parse, "tailscaled_outbound_dropped_packets_total", ls, literal, v, OutboundDroppedPackets, [reason])
    ensures Sets(dev, parse, "tailscaled_health_messages", ls, literal, v, HealthMessages, [kind])
    ensures Sets(dev, parse, "tailscaled_advertised_routes", ls, literal, v, AdvertisedRoutes, [])
    ensures Sets(dev, parse, "tailscaled_approved_routes", ls, literal, v, ApprovedRoutes, [])
  {
    InboundBytesLine(dev, parse, ls, literal, v, path);
    OutboundBytesLine(dev, parse, ls, literal, v, path);
    InboundPacketsLine(dev, parse, ls, literal, v, path);
    OutboundPacketsLine(dev, parse, ls, literal, v, path);
    InboundDroppedPacketsLine(dev, parse, ls, literal, v);
    OutboundDroppedPacketsLine(dev, parse, ls, literal, v, reason);
    HealthMessagesLine(dev, parse, ls, literal, v, kind);
    AdvertisedRoutesLine(dev, parse, ls, literal, v);
    ApprovedRoutesLine(dev, parse, ls, literal, v);
  }

  predicate IsClientMetric(name: string) {
    || name == "tailscaled_inbound_bytes_total"
    || name == "tailscaled_outbound_bytes_total"
    || name == "tailscaled_inbound_packets_total"
    || name == "tailscaled_outbound_packets_total"
    || name == "tailscaled_inbound_dropped_packets_total"
    || name == "tailscaled_outbound_dropped_packets_total"
    || name == "tailscaled_health_messages"
    || name == "tailscaled_advertised_routes"
    || name == "tailscaled_approved_routes"
  }

  lemma OtherTargets(name: string)
    requires !IsClientMetric(name)
    ensures Target(name) == None
  {
  }

  /** A metric of any other name sets nothing, and neither does one without a valid value. */
  lemma OtherMetricsSetNothing(dev: Device, parse: Float, name: string, ls: seq<Label>, literal: string)
    requires name != "" && All(name, NameChar) && literal != "" && All(literal, ValueChar)
    requires forall i | 0 <= i < |ls| :: Plain(ls[i])
    requires !IsClientMetric(name) || parse(literal) == None
    ensures Line(dev, parse, name, ls, literal) == []
  {
    if !IsClientMetric(name) { OtherTargets(name); }
    RenderedLineIsApplied(dev, parse, name, ls, literal);
  }

  // ---- ... in whole responses ----

  function LineOf(dev: Device, parse: Float, x: Metric): seq<Write> { Line(dev, parse, x.name, x.labels, x.literal) }

  function Lines(dev: Device, parse: Float, xs: seq<Metric>): seq<Write> { Meanings(Meaning(dev, parse), Rendered(xs)) }

  lemma LineAhead(f: LineMeaning, line: string, more: string, tail: string, readError: bool)
    requires '\n' !in line
    ensures BodyWrites(f, (line + ['\n'] + more) + tail, readError) == f(line) + BodyWrites(f, more + tail, readError)
  {
    Rejoin(line, more, tail);
    BodyFromLine(f, line, more + tail, readError);
  }

  lemma {:induction false} TextIsItsLines(f: LineMeaning, lines: seq<string>, tail: string, readError: bool)
    requires forall i | 0 <= i < |lines| :: '\n' !in lines[i]
    ensures BodyWrites(f, Text(lines) + tail, readError) == Meanings(f, lines) + BodyWrites(f, tail, readError)
  {
    if lines == [] {
      assert "" + tail == tail;
    } else {
      LineAhead(f, lines[0], Text(lines[1..]), tail, readError);
      TextIsItsLines(f, lines[1..], tail, readError);
    }
  }

  lemma BodyIsItsLines(dev: Device, parse: Float, xs: seq<Metric>, tail: string, readError: bool)
    requires forall i | 0 <= i < |xs| :: Renderable(xs[i])
    ensures BodyWrites(Meaning(dev, parse), RenderBody(xs) + tail, readError)
         == Lines(dev, parse, xs) + BodyWrites(Meaning(dev, parse), tail, readError)
  {
    forall i | 0 <= i < |xs| ensures '\n' !in Rendered(xs)[i] {
      RenderedIsOneLine(xs[i].name, xs[i].labels, xs[i].literal);
    }
    TextIsItsLines(Meaning(dev, parse), Rendered(xs), tail, readError);
  }

  lemma LinesStep(f: LineMeaning, xs: seq<Metric>)
    requires xs != []
    ensures Meanings(f, Rendered(xs)) == f(RenderLine(xs[0].name, xs[0].labels, xs[0].literal)) + Meanings(f, Rendered(xs[1..]))
  {
    assert Rendered(xs)[1..] == Rendered(xs[1..]);
  }

  function MetricWrites(dev: Device, parse: Float, x: Metric): seq<Write> {
    PartsWrites(dev, parse, x.name, MapOf(map[], x.labels), x.literal)
  }

  lemma MetricIsApplied(dev: Device, parse: Float, x: Metric)
    requires Renderable(x)
    ensures Meaning(dev, parse)(RenderLine(x.name, x.labels, x.literal)) == MetricWrites(dev, parse, x)
  {
    RenderedLineIsApplied(dev, parse, x.name, x.labels, x.literal);
  }

  lemma {:induction false} LinesAreApplied(dev: Device, parse: Float, xs: seq<Metric>)
    requires forall i | 0 <= i < |xs| :: Renderable(xs[i])
    ensures Meanings(Meaning(dev, parse), Rendered(xs)) == MetricsWrites(dev, parse, xs)
  {
    if xs != [] {
      LinesStep(Meaning(dev, parse), xs);
      MetricIsApplied(dev, parse, xs[0]);
      LinesAreApplied(dev, parse, xs[1..]);
    }
  }

  /** Any list of metrics, rendered as a response, is read back metric by metric, in order. */
  lemma RenderedBodyIsApplied(dev: Device, parse: Float, xs: seq<Metric>, readError: bool)
    requires forall i | 0 <= i < |xs| :: Renderable(xs[i])
    ensures BodyWrites(Meaning(dev, parse), RenderBody(xs), readError) == MetricsWrites(dev, parse, xs)
  {
    BodyIsLines(dev, parse, xs, readError);
    LinesAreApplied(dev, parse, xs);
  }

  /** A last line without a line feed counts, unless reading fails there. */
  lemma UnfinishedLine(dev: Device, parse: Float, xs: seq<Metric>, x: Metric, readError: bool)
    requires Renderable(x) && forall i | 0 <= i < |xs| :: Renderable(xs[i])
    ensures BodyWrites(Meaning(dev, parse), RenderBody(xs) + RenderLine(x.name, x.labels, x.literal), readError)
         == Lines(dev, parse, xs) + if readError then [] else LineOf(dev, parse, x)
  {
    var line := RenderLine(x.name, x.labels, x.literal);
    BodyIsItsLines(dev, parse, xs, line, readError);
    RenderedIsOneLine(x.name, x.labels, x.literal);
    assert IndexOf(line, '\n') == |line|;
  }

  lemma {:induction false} MeaningsAt(f: LineMeaning, lines: seq<string>, i: nat, k: Series, v: real)
    requires i < |lines| && f(lines[i]) == [Write(k, v)]
    requires forall j | i < j < |lines| :: LastWrite(f(lines[j]), k) == Absent
    ensures LastWrite(Meanings(f, lines), k) == Present(v)
    decreases |lines|
  {
    LastWriteConcat(f(lines[0]), Meanings(f, lines[1..]), k);
    if i == 0 {
      NoLineSets(f, lines[1..], k);
      assert LastWrite([Write(k, v)], k) == Present(v);
    } else {
      MeaningsAt(f, lines[1..], i - 1, k, v);
    }
  }

  lemma {:induction false} NoLineSets(f: LineMeaning, lines: seq<string>, k: Series)
    requires forall j | 0 <= j < |lines| :: LastWrite(f(lines[j]), k) == Absent
    ensures LastWrite(Meanings(f, lines), k) == Absent
  {
    if lines != [] {
      NoLineSets(f, lines[1..], k);
      LastWriteConcat(f(lines[0]), Meanings(f, lines[1..]), k);
    }
  }

  lemma BodyIsLines(dev: Device, parse: Float, xs: seq<Metric>, readError: bool)
    requires forall i | 0 <= i < |xs| :: Renderable(xs[i])
    ensures BodyWrites(Meaning(dev, parse), RenderBody(xs), readError) == Lines(dev, parse, xs)
  {
    BodyIsItsLines(dev, parse, xs, "", readError);
    EmptyBody(dev, parse, readError);
    assert RenderBody(xs) + "" == RenderBody(xs);
  }

  /** After a response of rendered metrics a gauge shows the last of them that sets it. */
  lemma GaugeAfterResponse(m: Values, dev: Device, parse: Float, xs: seq<Metric>, readError: bool, i: nat, k: Series, v: real)
    requires i < |xs| && forall j | 0 <= j < |xs| :: Renderable(xs[j])
    requires LineOf(dev, parse, xs[i]) == [Write(k, v)]
    requires forall j | i < j < |xs| :: LastWrite(LineOf(dev, parse, xs[j]), k) == Absent
    ensures Lookup(WriteAll(m, BodyWrites(Meaning(dev, parse), RenderBody(xs), readError)), k) == Present(v)
  {
    BodyIsLines(dev, parse, xs, readError);
    var f := Meaning(dev, parse);
    forall j | 0 <= j < |xs| ensures f(Rendered(xs)[j]) == LineOf(dev, parse, xs[j]) {}
    MeaningsAt(f, Rendered(xs), i, k, v);
    LastWriteWins(m, BodyWrites(Meaning(dev, parse), RenderBody(xs), readError), k);
  }

  lemma EmptyBody(dev: Device, parse: Float, readError: bool)
    ensures BodyWrites(Meaning(dev, parse), "", readError) == []
  {
    UnmatchedLineWrites(dev, parse, "");
    assert ""[..] == "";
  }

  /** Everything a body writes is a client series of the scraped device. */
  lemma {:induction false} WritesAreOwn(dev: Device, f: LineMeaning, body: string, readError: bool)
    requires forall line, w | w in f(line) :: OwnClientWrite(dev, w)
    ensures forall w | w in BodyWrites(f, body, readError) :: OwnClientWrite(dev, w)
    decreases |body|
  {
    var i := IndexOf(body, '\n');
    if i < |body| {
      WritesAreOwn(dev, f, body[i+1..], readError);
      assert forall w | w in BodyWrites(f, body, readError) ::
        w in f(body[..i]) || w in BodyWrites(f, body[i+1..], readError);
    }
  }
}

/** Scrapes running at once: each step one scrape applies its next write. */
module ConcurrentScrapes {
  import opened Helpers
  import opened MetricLine
  import opened Registry
  import opened Scrapes

  /** What one scrape writes, in order. */
  type Scrape = seq<Write>

  /** Each entry of a schedule names the scrape that moves; `done[t]` counts its moves. */
  ghost predicate Follows(scrapes: seq<Scrape>, schedule: seq<nat>, done: seq<nat>)
    decreases |schedule|
  {
    && |done| == |scrapes|
    && if schedule == [] then forall t | 0 <= t < |done| :: done[t] == 0
       else
         var t := schedule[|schedule|-1];
         t < |done| && 0 < done[t] <= |scrapes[t]| &&
         Follows(scrapes, schedule[..|schedule|-1], done[t := done[t] - 1])
  }

  function Execute(m: Values, scrapes: seq<Scrape>, schedule: seq<nat>, done: seq<nat>): Values
    requires Follows(scrapes, schedule, done)
    decreases |schedule|
  {
    if schedule == [] then m
    else
      var t := schedule[|schedule|-1];
      var w := scrapes[t][done[t]-1];
      Execute(m, scrapes, schedule[..|schedule|-1], done[t := done[t] - 1])[w.series := w.value]
  }

  /** The writes of an interleaving, in the order they happen. */
  function Applied(scrapes: seq<Scrape>, schedule: seq<nat>, done: seq<nat>): seq<Write>
    requires Follows(scrapes, schedule, done)
    decreases |schedule|
  {
    if schedule == [] then []
    else
      var t := schedule[|schedule|-1];
      Applied(scrapes, schedule[..|schedule|-1], done[t := done[t] - 1]) + [scrapes[t][done[t]-1]]
  }

  lemma {:induction false} ExecuteIsWriteAll(m: Values, scrapes: seq<Scrape>, schedule: seq<nat>, done: seq<nat>)
    requires Follows(scrapes, schedule, done)
    ensures Execute(m, scrapes, schedule, done) == WriteAll(m, Applied(scrapes, schedule, done))
    decreases |schedule|
  {
    if schedule != [] {
      var t, n := schedule[|schedule|-1], |schedule| - 1;
      var before := Applied(scrapes, schedule[..n], done[t := done[t] - 1]);
      ExecuteIsWriteAll(m, scrapes, schedule[..n], done[t := done[t] - 1]);
      AppendWrite(m, before, scrapes[t][done[t]-1]);
    }
  }

  ghost predicate Complete(scrapes: seq<Scrape>, done: seq<nat>) {
    |done| == |scrapes| && forall t | 0 <= t < |done| :: done[t] == |scrapes[t]|
  }

  // ---- Where a value comes from ----

  lemma {:induction false} DoneWithin(scrapes: seq<Scrape>, schedule: seq<nat>, done: seq<nat>)
    requires Follows(scrapes, schedule, done)
    ensures forall t | 0 <= t < |scrapes| :: done[t] <= |scrapes[t]|
    decreases |schedule|
  {
    if schedule != [] {
      var t, n := schedule[|schedule|-1], |schedule| - 1;
      var before := done[t := done[t] - 1];
      DoneWithin(scrapes, schedule[..n], before);
      forall u | 0 <= u < |scrapes| ensures done[u] <= |scrapes[u]| {
        assert before[u] <= |scrapes[u]|;
      }
    }
  }

  /** The last write to `k` among the first `n` of a scrape. */
  function LastOf(s: Scrape, n: nat, k: Series): Maybe
    requires n <= |s|
  {
    LastWrite(s[..n], k)
  }

  lemma NextWrite(s: Scrape, n: nat, k: Series)
    requires 0 < n <= |s|
    ensures LastOf(s, n, k) == if s[n-1].series == k then Present(s[n-1].value) else LastOf(s, n - 1, k)
  {
    assert s[..n][..n-1] == s[..n-1];
  }

  /** At any moment every series holds what some scrape wrote to it last, or its old value
      if no scrape has written to it. */
  lemma {:induction false} HeldBySomeScrape(m: Values, scrapes: seq<Scrape>, schedule: seq<nat>, done: seq<nat>, k: Series)
    requires Follows(scrapes, schedule, done)
    ensures forall t | 0 <= t < |scrapes| :: done[t] <= |scrapes[t]|
    ensures var v := Lookup(Execute(m, scrapes, schedule, done), k);
      if forall t | 0 <= t < |scrapes| :: LastOf(scrapes[t], done[t], k) == Absent then v == Lookup(m, k)
      else v.Present? && exists t :: 0 <= t < |scrapes| && LastOf(scrapes[t], done[t], k) == v
    decreases |schedule|
  {
    DoneWithin(scrapes, schedule, done);
    if schedule != [] {
      var u, n := schedule[|schedule|-1], |schedule| - 1;
      var before := done[u := done[u] - 1];
      HeldBySomeScrape(m, scrapes, schedule[..n], before, k);
      NextWrite(scrapes[u], done[u], k);
      forall t | 0 <= t < |scrapes| && t != u
        ensures LastOf(scrapes[t], done[t], k) == LastOf(scrapes[t], before[t], k)
      {
      }
      var v, v' := Lookup(Execute(m, scrapes, schedule[..n], before), k), Lookup(Execute(m, scrapes, schedule, done), k);
      if scrapes[u][done[u]-1].series == k {
        assert LastOf(scrapes[u], done[u], k) == v';
      } else {
        assert v' == v && LastOf(scrapes[u], done[u], k) == LastOf(scrapes[u], before[u], k);
        assert forall t | 0 <= t < |scrapes| :: LastOf(scrapes[t], done[t], k) == LastOf(scrapes[t], before[t], k);
      }
    }
  }

  // ---- Confluence ----

  /** `r` is a registry some complete interleaving ends in. */
  ghost predicate EndsIn(m: Values, scrapes: seq<Scrape>, r: Values) {
    exists schedule, done :: EndsBy(m, scrapes, schedule, done, r)
  }

  ghost predicate EndsBy(m: Values, scrapes: seq<Scrape>, schedule: seq<nat>, done: seq<nat>, r: Values) {
    Follows(scrapes, schedule, done) && Complete(scrapes, done) && Execute(m, scrapes, schedule, done) == r
  }

  ghost predicate Confluent(m: Values, scrapes: seq<Scrape>) {
    forall a, b | EndsIn(m, scrapes, a) && EndsIn(m, scrapes, b) :: a == b
  }

  /** Two scrapes that both write a series write the same value to it last. */
  ghost predicate Compatible(scrapes: seq<Scrape>) {
    forall t, u, k: Series | 0 <= t < |scrapes| && 0 <= u < |scrapes| :: SameEnd(scrapes[t], scrapes[u], k)
  }

  predicate SameEnd(a: Scrape, b: Scrape, k: Series) {
    LastWrite(a, k).Present? && LastWrite(b, k).Present? ==> LastWrite(a, k) == LastWrite(b, k)
  }

  /** The value of a series after a complete interleaving of compatible scrapes: the last
      write of any scrape that writes it, or its old value. */
  lemma EndValue(m: Values, scrapes: seq<Scrape>, r: Values, k: Series)
    requires Compatible(scrapes) && EndsIn(m, scrapes, r)
    ensures forall t | 0 <= t < |scrapes| && LastWrite(scrapes[t], k).Present? :: Lookup(r, k) == LastWrite(scrapes[t], k)
    ensures (forall t | 0 <= t < |scrapes| :: LastWrite(scrapes[t], k) == Absent) ==> Lookup(r, k) == Lookup(m, k)
  {
    var schedule, done :| EndsBy(m, scrapes, schedule, done, r);
    HeldBySomeScrape(m, scrapes, schedule, done, k);
    forall t | 0 <= t < |scrapes| ensures LastOf(scrapes[t], done[t], k) == LastWrite(scrapes[t], k) {
      assert scrapes[t][..done[t]] == scrapes[t];
    }
    forall t | 0 <= t < |scrapes| && LastWrite(scrapes[t], k).Present?
      ensures Lookup(r, k) == LastWrite(scrapes[t], k)
    {
      assert LastOf(scrapes[t], done[t], k) != Absent;
      var u :| 0 <= u < |scrapes| && LastOf(scrapes[u], done[u], k) == Lookup(r, k);
      assert SameEnd(scrapes[t], scrapes[u], k);
    }
  }

  lemma CompatibleAgree(m: Values, scrapes: seq<Scrape>, a: Values, b: Values)
    requires Compatible(scrapes) && EndsIn(m, scrapes, a) && EndsIn(m, scrapes, b)
    ensures a == b
  {
    forall k: Series ensures Lookup(a, k) == Lookup(b, k) {
      EndValue(m, scrapes, a, k);
      EndValue(m, scrapes, b, k);
    }
    SameLookups(a, b);
  }

  lemma SameLookups(a: Values, b: Values)
    requires forall k: Series :: Lookup(a, k) == Lookup(b, k)
    ensures a == b
  {
    forall k | k in a ensures k in b && a[k] == b[k] { assert Lookup(a, k) == Lookup(b, k); }
    forall k | k in b ensures k in a { assert Lookup(a, k) == Lookup(b, k); }
  }

  /** Letting scrape `t`, not begun yet, make its first `n` moves in a row. */
  lemma {:induction false} RunOn(m: Values, scrapes: seq<Scrape>, schedule: seq<nat>, done: seq<nat>, t: nat, n: nat)
    returns (schedule': seq<nat>)
    requires Follows(scrapes, schedule, done) && t < |scrapes| && done[t] == 0 && n <= |scrapes[t]|
    ensures Follows(scrapes, schedule', done[t := n])
    ensures Execute(m, scrapes, schedule', done[t := n]) == WriteAll(Execute(m, scrapes, schedule, done), scrapes[t][..n])
    decreases n
  {
    if n == 0 {
      assert done[t := 0] == done;
      return schedule;
    }
    var before := RunOn(m, scrapes, schedule, done, t, n - 1);
    schedule' := before + [t];
    assert schedule'[..|before|] == before && done[t := n][t := n - 1] == done[t := n - 1];
    assert scrapes[t][..n][..n-1] == scrapes[t][..n-1];
  }

  /** All scrapes below `n` but `last`, one after the other. */
  lemma {:induction false} AllBut(m: Values, scrapes: seq<Scrape>, last: nat, n: nat) returns (schedule: seq<nat>, done: seq<nat>)
    requires n <= |scrapes|
    ensures Follows(scrapes, schedule, done)
    ensures forall t | 0 <= t < |scrapes| :: done[t] == if t < n && t != last then |scrapes[t]| else 0
  {
    if n == 0 { return [], seq(|scrapes|, _ => 0); }
    schedule, done := AllBut(m, scrapes, last, n - 1);
    if n - 1 != last {
      schedule := RunOn(m, scrapes, schedule, done, n - 1, |scrapes[n-1]|);
      done := done[n-1 := |scrapes[n-1]|];
    }
  }

  /** Any scrape can come last, and then its writes are what remains. */
  lemma ComesLast(m: Values, scrapes: seq<Scrape>, t: nat, k: Series) returns (r: Values)
    requires t < |scrapes| && LastWrite(scrapes[t], k).Present?
    ensures EndsIn(m, scrapes, r) && Lookup(r, k) == LastWrite(scrapes[t], k)
  {
    var schedule, done := AllBut(m, scrapes, t, |scrapes|);
    var others := Execute(m, scrapes, schedule, done);
    schedule := RunOn(m, scrapes, schedule, done, t, |scrapes[t]|);
    done := done[t := |scrapes[t]|];
    r := Execute(m, scrapes, schedule, done);
    assert EndsBy(m, scrapes, schedule, done, r);
    assert scrapes[t][..|scrapes[t]|] == scrapes[t];
    LastWriteWins(others, scrapes[t], k);
  }

  /** Exactly when scrapes running at once always end in one registry: any two that both
      write a series end it with the same value. */
  lemma InterleavingsAgreeIff(m: Values, scrapes: seq<Scrape>)
    ensures Confluent(m, scrapes) <==> Compatible(scrapes)
  {
    if Compatible(scrapes) {
      forall a, b | EndsIn(m, scrapes, a) && EndsIn(m, scrapes, b) ensures a == b {
        CompatibleAgree(m, scrapes, a, b);
      }
    }
    if Confluent(m, scrapes) {
      forall t, u, k: Series | 0 <= t < |scrapes| && 0 <= u < |scrapes| ensures SameEnd(scrapes[t], scrapes[u], k) {
        if LastWrite(scrapes[t], k).Present? && LastWrite(scrapes[u], k).Present? {
          var a := ComesLast(m, scrapes, t, k);
          var b := ComesLast(m, scrapes, u, k);
          assert a == b;
        }
      }
    }
  }

  // ---- Devices and their responses ----

  /** A response: the body up to its end or to a read error. */
  datatype Response = Response(body: string, readError: bool)

  function ScrapeOf(dev: Device, parse: Float, r: Response): Scrape {
    BodyWrites(Meaning(dev, parse), r.body, r.readError)
  }

  function ScrapesOf(devices: seq<Device>, parse: Float, responses: seq<Response>): seq<Scrape>
    requires |devices| == |responses|
  {
    seq(|devices|, t requires 0 <= t < |devices| => ScrapeOf(devices[t], parse, responses[t]))
  }

  lemma ScrapeIsOwn(dev: Device, parse: Float, r: Response)
    ensures forall w | w in ScrapeOf(dev, parse, r) :: OwnClientWrite(dev, w)
  {
    var f := Meaning(dev, parse);
    assert forall line, w | w in f(line) :: OwnClientWrite(dev, w);
    WritesAreOwn(dev, f, r.body, r.readError);
  }

  /** A scrape writes no series of another id or another name. */
  lemma ForeignSeries(dev: Device, parse: Float, r: Response, k: Series)
    requires k.id != dev.id || k.name != dev.name
    ensures LastWrite(ScrapeOf(dev, parse, r), k) == Absent
  {
    ScrapeIsOwn(dev, parse, r);
    var ws := ScrapeOf(dev, parse, r);
    forall i | 0 <= i < |ws| ensures ws[i].series != k { assert ws[i] in ws; }
    NeverWritten(ws, k);
  }

  ghost predicate Distinct(devices: seq<Device>) { forall t, u | 0 <= t < u < |devices| :: devices[t] != devices[u] }

  lemma DistinctAreCompatible(devices: seq<Device>, parse: Float, responses: seq<Response>)
    requires |devices| == |responses| && Distinct(devices)
    ensures Compatible(ScrapesOf(devices, parse, responses))
  {
    var scrapes := ScrapesOf(devices, parse, responses);
    forall t, u, k: Series | 0 <= t < |scrapes| && 0 <= u < |scrapes| ensures SameEnd(scrapes[t], scrapes[u], k) {
      if t != u {
        assert devices[t] != devices[u];
        if k.id != devices[t].id || k.name != devices[t].name {
          ForeignSeries(devices[t], parse, responses[t], k);
        } else {
          ForeignSeries(devices[u], parse, responses[u], k);
        }
      }
    }
  }

  /** The response with one metric that has no label of its own. */
  function OneMetric(name: string, literal: string): Response { Response(RenderLine(name, [], literal), false) }

  lemma OneLineBody(f: LineMeaning, line: string)
    requires '\n' !in line
    ensures BodyWrites(f, line, false) == f(line)
  {
    assert IndexOf(line, '\n') == |line|;
  }

  lemma OneMetricWrites(dev: Device, parse: Float, name: string, literal: string, v: real)
    requires name != "" && All(name, NameChar) && Target(name) == Some((AdvertisedRoutes, ""))
    requires literal != "" && All(literal, ValueChar) && parse(literal) == Some(v)
    ensures ScrapeOf(dev, parse, OneMetric(name, literal)) == [Write(Series(AdvertisedRoutes, dev.id, dev.name, []), v)]
  {
    RenderedIsOneLine(name, [], literal);
    OneLineBody(Meaning(dev, parse), RenderLine(name, [], literal));
    RenderedLineIsApplied(dev, parse, name, [], literal);
  }

  const ROUTES := "tailscaled_advertised_routes"

  lemma RoutesIsAMetric()
    ensures ROUTES != "" && All(ROUTES, NameChar) && Target(ROUTES) == Some((AdvertisedRoutes, ""))
  {
  }

  lemma OneMetricEnd(dev: Device, parse: Float, literal: string)
    requires literal != "" && All(literal, ValueChar) && parse(literal).Some?
    ensures LastWrite(ScrapeOf(dev, parse, OneMetric(ROUTES, literal)), Series(AdvertisedRoutes, dev.id, dev.name, []))
         == Present(parse(literal).value)
  {
    RoutesIsAMetric();
    OneMetricWrites(dev, parse, ROUTES, literal, parse(literal).value);
  }

  lemma RaceOver(devices: seq<Device>, parse: Float, t: nat, u: nat, a: Response, b: Response, k: Series)
    returns (responses: seq<Response>)
    requires t < u < |devices| && devices[t] == devices[u]
    requires !SameEnd(ScrapeOf(devices[t], parse, a), ScrapeOf(devices[u], parse, b), k)
    ensures |responses| == |devices| && !Compatible(ScrapesOf(devices, parse, responses))
  {
    responses := seq(|devices|, i => if i == t then a else b);
    var scrapes := ScrapesOf(devices, parse, responses);
    assert !SameEnd(scrapes[t], scrapes[u], k);
  }

  /** A device listed twice races with itself: with two responses that give different
      values, there are two ends. */
  lemma SameDeviceRaces(m: Values, devices: seq<Device>, parse: Float, t: nat, u: nat, a: string, b: string)
    returns (responses: seq<Response>)
    requires t < u < |devices| && devices[t] == devices[u]
    requires a != "" && All(a, ValueChar) && b != "" && All(b, ValueChar)
    requires parse(a).Some? && parse(b).Some? && parse(a) != parse(b)
    ensures |responses| == |devices| && !Confluent(m, ScrapesOf(devices, parse, responses))
  {
    var dev := devices[t];
    OneMetricEnd(dev, parse, a);
    OneMetricEnd(dev, parse, b);
    responses := RaceOver(devices, parse, t, u, OneMetric(ROUTES, a), OneMetric(ROUTES, b),
                          Series(AdvertisedRoutes, dev.id, dev.name, []));
    InterleavingsAgreeIff(m, ScrapesOf(devices, parse, responses));
  }

  ghost predicate AlwaysConfluent(m: Values, devices: seq<Device>, parse: Float) {
    forall responses: seq<Response> | |responses| == |devices| :: Confluent(m, ScrapesOf(devices, parse, responses))
  }

  /** What a caller can check before scraping: whatever the devices answer, all
      interleavings agree if and only if no id and name are listed together twice.  `a` and
      `b` are any two literals with different values. */
  lemma DeviceListConfluentIff(m: Values, devices: seq<Device>, parse: Float, a: string, b: string)
    requires a != "" && All(a, ValueChar) && b != "" && All(b, ValueChar)
    requires parse(a).Some? && parse(b).Some? && parse(a) != parse(b)
    ensures AlwaysConfluent(m, devices, parse) <==> Distinct(devices)
  {
    if Distinct(devices) {
      forall responses: seq<Response> | |responses| == |devices| ensures Confluent(m, ScrapesOf(devices, parse, responses)) {
        DistinctAreCompatible(devices, parse, responses);
        InterleavingsAgreeIff(m, ScrapesOf(devices, parse, responses));
      }
    } else {
      var t, u :| 0 <= t < u < |devices| && devices[t] == devices[u];
      var responses := SameDeviceRaces(m, devices, parse, t, u, a, b);
    }
  }
}
