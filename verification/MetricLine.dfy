/** One line of the Prometheus text exposition format (section "Text format details"), as
    internal/metrics/scraper.go reads it. */
module MetricLine {
  import opened Helpers
  import opened Labels

  /** The character classes the parser uses.  `Blank` is what strings.TrimSpace removes,
      `ReSpace` the regular expression's \s, which lacks the vertical tab. */
  datatype Class = Blank | ReSpace | Quote | NameChar | ValueChar

  predicate Letter(c: char) { 'a' <= c <= 'z' || 'A' <= c <= 'Z' }
  predicate Digit(c: char) { '0' <= c <= '9' }

  predicate In(c: char, k: Class) {
    match k
    case Blank => c == ' ' || '\t' <= c <= '\r'
    case ReSpace => c == ' ' || c == '\t' || c == '\n' || c == '\r' || c == 12 as char
    case Quote => c == '"'
    case NameChar => Letter(c) || Digit(c) || c == '_' || c == ':'
    case ValueChar => Digit(c) || c == '-' || c == '+' || c == '.' || c == 'e' || c == 'E'
  }

  predicate All(s: string, k: Class) { forall i | 0 <= i < |s| :: In(s[i], k) }

  predicate StartsOutside(s: string, k: Class) { s == "" || !In(s[0], k) }

  /** The length of the longest prefix within the class. */
  function Span(s: string, k: Class): (n: nat)
    ensures n <= |s| && All(s[..n], k) && StartsOutside(s[n..], k)
  {
    if StartsOutside(s, k) then 0 else 1 + Span(s[1..], k)
  }

  function TrimRight(s: string, k: Class): string {
    if s == "" || !In(s[|s|-1], k) then s else TrimRight(s[..|s|-1], k)
  }

  function Trim(s: string, k: Class): string { TrimRight(s[Span(s, k)..], k) }

  function IndexOf(s: string, c: char): (i: nat)
    ensures i <= |s| && (i < |s| ==> s[i] == c) && forall j | 0 <= j < i :: s[j] != c
  {
    if s == "" || s[0] == c then 0 else 1 + IndexOf(s[1..], c)
  }

  // ---- parseLabels ----

  /** Key and value of one token; blank tokens and tokens without `=` have none. */
  function LabelOf(token: string): Option<(string, string)> {
    var part := Trim(token, Blank);
    var eq := IndexOf(part, '=');
    if eq == |part| then None else Some(KeyValue(part, eq))
  }

  function KeyValue(part: string, eq: nat): (string, string)
    requires eq < |part|
  {
    (Trim(part[..eq], Blank), Trim(part[eq+1..], Quote))
  }

  function AddLabel(m: map<string, string>, token: string): map<string, string> {
    match LabelOf(token)
    case None => m
    case Some(kv) => m[kv.0 := kv.1]
  }

  function AddLabels(m: map<string, string>, tokens: seq<string>): map<string, string>
    decreases |tokens|
  {
    if tokens == [] then m else AddLabels(AddLabel(m, tokens[0]), tokens[1..])
  }

  function LabelMap(s: string): map<string, string> { AddLabels(map[], UpToLong(Tokens(s))) }

  /** The parsed labels depend on the text alone, not on how the reader delivers it. */
  method ParseLabels(s: string) returns (m: map<string, string>)
    ensures m == LabelMap(s)
  {
    m := map[];
    if s == "" { return; }
    var scanner := new Scanner(s);
    ghost var todo := scanner.Ahead();
    var ok, text := scanner.Scan();
    while ok
      invariant scanner.Valid() && (ok <==> todo != []) && (ok ==> todo == [text] + scanner.Ahead())
      invariant AddLabels(m, todo) == LabelMap(s)
      invariant fresh(scanner)
      decreases |todo|
    {
      assert todo[0] == text && todo[1..] == scanner.Ahead();
      todo := scanner.Ahead();
      m := ParseLabel(m, text);
      ok, text := scanner.Scan();
    }
  }

  /** One turn of the loop. */
  method ParseLabel(m: map<string, string>, text: string) returns (m': map<string, string>)
    ensures m' == AddLabel(m, text)
  {
    var part := Trim(text, Blank);
    var eq := IndexOf(part, '=');
    if part == "" || eq == |part| {
      assert LabelOf(text) == None;
      return m;
    }
    var (key, val) := KeyValue(part, eq);
    assert LabelOf(text) == Some((key, val));
    m' := m[key := val];
  }

  // ---- The metric line pattern ----

  datatype Parts = Parts(name: string, labels: string, literal: string)

  /** ^([a-zA-Z0-9_:]+)(?:\{([^}]*)\})?\s+([-+0-9.eE]+), matched left to right. */
  function MatchLine(line: string): Option<Parts> {
    var n := Span(line, NameChar);
    if n == 0 then None else MatchRest(line[..n], line[n..])
  }

  function MatchRest(name: string, rest: string): Option<Parts> {
    var close := IndexOf(rest, '}');
    if rest != "" && rest[0] == '{' then
      if close == |rest| then None else MatchValue(name, rest[1..close], rest[close+1..])
    else MatchValue(name, "", rest)
  }

  function MatchValue(name: string, labels: string, rest: string): Option<Parts> {
    var sp := Span(rest, ReSpace);
    var v := Span(rest[sp..], ValueChar);
    if sp == 0 || v == 0 then None else Some(Parts(name, labels, rest[sp..][..v]))
  }

  /** The pattern read as a grammar: the line is a name, an optional label list, white
      space, a literal taken as far as it goes, and anything. */
  ghost predicate Derives(line: string, p: Parts) {
    exists group, space, tail :: Decomposes(line, p, group, space, tail)
  }

  ghost predicate Decomposes(line: string, p: Parts, group: string, space: string, tail: string) {
    && line == p.name + (group + (space + (p.literal + tail)))
    && p.name != "" && All(p.name, NameChar)
    && (if group == "" then p.labels == "" else group == "{" + p.labels + "}" && '}' !in p.labels)
    && space != "" && All(space, ReSpace)
    && p.literal != "" && All(p.literal, ValueChar) && StartsOutside(tail, ValueChar)
  }

  lemma {:induction false} SpanOf(a: string, b: string, k: Class)
    requires All(a, k) && StartsOutside(b, k)
    ensures Span(a + b, k) == |a| && (a + b)[..|a|] == a && (a + b)[|a|..] == b
  {
    if a == "" {
      assert a + b == b;
    } else {
      SpanOf(a[1..], b, k);
      assert a + b == [a[0]] + (a[1..] + b);
    }
  }

  lemma IndexOfFirst(a: string, c: char, b: string)
    requires c !in a
    ensures IndexOf(a + [c] + b, c) == |a|
  {
    assert (a + [c] + b)[|a|] == c;
    forall j | 0 <= j < |a| ensures (a + [c] + b)[j] != c { assert (a + [c] + b)[j] == a[j]; }
  }

  lemma MatchValueIff(name: string, labels: string, space: string, literal: string, tail: string)
    requires space != "" && All(space, ReSpace) && literal != "" && All(literal, ValueChar) && StartsOutside(tail, ValueChar)
    ensures MatchValue(name, labels, space + (literal + tail)) == Some(Parts(name, labels, literal))
  {
    assert In(literal[0], ValueChar);
    SpanOf(space, literal + tail, ReSpace);
    SpanOf(literal, tail, ValueChar);
  }

  lemma GroupIsMatched(name: string, labels: string, value: string)
    requires '}' !in labels
    ensures MatchRest(name, "{" + labels + "}" + value) == MatchValue(name, labels, value)
  {
    var open := "{" + labels;
    var rest := open + ['}'] + value;
    assert "{" + labels + "}" + value == rest;
    IndexOfFirst(open, '}', value);
    assert rest[1..|open|] == labels && rest[|open|+1..] == value;
  }

  /** Whatever the grammar derives, the matcher finds. */
  lemma DerivedIsMatched(line: string, p: Parts, group: string, space: string, tail: string)
    requires Decomposes(line, p, group, space, tail)
    ensures MatchLine(line) == Some(p)
  {
    var value := space + (p.literal + tail);
    var rest := group + value;
    assert In(space[0], ReSpace);
    assert rest[0] == if group == "" then space[0] else '{';
    SpanOf(p.name, rest, NameChar);
    assert MatchLine(line) == MatchRest(p.name, rest);
    MatchValueIff(p.name, p.labels, space, p.literal, tail);
    if group == "" {
      assert rest == value;
    } else {
      GroupIsMatched(p.name, p.labels, value);
    }
  }

  lemma MatchedValue(name: string, labels: string, value: string, p: Parts) returns (space: string, tail: string)
    requires MatchValue(name, labels, value) == Some(p)
    ensures p.name == name && p.labels == labels && value == space + (p.literal + tail)
    ensures space != "" && All(space, ReSpace)
    ensures p.literal != "" && All(p.literal, ValueChar) && StartsOutside(tail, ValueChar)
  {
    var sp := Span(value, ReSpace);
    space, tail := value[..sp], value[sp..][Span(value[sp..], ValueChar)..];
  }

  lemma GroupedIsDerived(name: string, labels: string, value: string, p: Parts)
    requires name != "" && All(name, NameChar) && '}' !in labels
    requires MatchValue(name, labels, value) == Some(p)
    ensures Derives(name + (("{" + labels + "}") + value), p)
  {
    var space, tail := MatchedValue(name, labels, value, p);
    assert Decomposes(name + (("{" + labels + "}") + value), p, "{" + labels + "}", space, tail);
  }

  lemma PlainIsDerived(name: string, rest: string, p: Parts)
    requires name != "" && All(name, NameChar) && (rest == "" || rest[0] != '{')
    requires MatchRest(name, rest) == Some(p)
    ensures Derives(name + rest, p)
  {
    var space, tail := MatchedValue(name, "", rest, p);
    assert rest == "" + rest;
    assert Decomposes(name + rest, p, "", space, tail);
  }

  lemma RestIsDerived(name: string, rest: string, p: Parts)
    requires name != "" && All(name, NameChar) && MatchRest(name, rest) == Some(p)
    ensures Derives(name + rest, p)
  {
    if rest != "" && rest[0] == '{' {
      var close := IndexOf(rest, '}');
      GroupText(rest, close);
      GroupedIsDerived(name, rest[1..close], rest[close+1..], p);
    } else {
      PlainIsDerived(name, rest, p);
    }
  }

  /** Whatever the matcher finds, the grammar derives. */
  lemma MatchedIsDerived(line: string, p: Parts)
    requires MatchLine(line) == Some(p)
    ensures Derives(line, p)
  {
    var n := Span(line, NameChar);
    assert line == line[..n] + line[n..];
    RestIsDerived(line[..n], line[n..], p);
  }

  lemma GroupText(rest: string, close: nat)
    requires rest != "" && rest[0] == '{' && close < |rest| && close == IndexOf(rest, '}')
    ensures rest == ("{" + rest[1..close] + "}") + rest[close+1..] && '}' !in rest[1..close]
  {
    var labels := rest[1..close];
    forall i | 0 <= i < |labels| ensures labels[i] != '}' { assert labels[i] == rest[i+1]; }
  }

  /** The matcher computes the grammar: it answers exactly when the line derives from the
      pattern, with the only parts it derives from. */
  lemma MatcherIsTheGrammar(line: string, p: Parts)
    ensures MatchLine(line) == Some(p) <==> Derives(line, p)
  {
    if Derives(line, p) {
      var group, space, tail :| Decomposes(line, p, group, space, tail);
      DerivedIsMatched(line, p, group, space, tail);
    }
    if MatchLine(line) == Some(p) {
      MatchedIsDerived(line, p);
    }
  }

  // ---- Round trip ----

  type Label = (string, string)

  predicate LabelName(k: string) {
    k != "" && (Letter(k[0]) || k[0] == '_') && forall i | 0 <= i < |k| :: Letter(k[i]) || Digit(k[i]) || k[i] == '_'
  }

  /** A value may hold commas, `=`, `{`, spaces and line feeds, but no quote, no closing
      brace, and no more than the scanner's buffer can take. */
  predicate Plain(l: Label) {
    LabelName(l.0) && '"' !in l.1 && '}' !in l.1 && |RenderLabel(l)| < TOKEN_LIMIT
  }

  function RenderLabel(l: Label): string { l.0 + "=\"" + l.1 + "\"" }

  function RenderLabels(ls: seq<Label>): string {
    if ls == [] then ""
    else if |ls| == 1 then RenderLabel(ls[0])
    else RenderLabel(ls[0]) + [','] + RenderLabels(ls[1..])
  }

  function Items(ls: seq<Label>): seq<string> {
    if ls == [] then [] else [RenderLabel(ls[0])] + Items(ls[1..])
  }

  function RenderLine(name: string, ls: seq<Label>, literal: string): string {
    name + ((if ls == [] then "" else "{" + RenderLabels(ls) + "}") + (" " + literal))
  }

  function MapOf(m: map<string, string>, ls: seq<Label>): map<string, string>
    decreases |ls|
  {
    if ls == [] then m else MapOf(m[ls[0].0 := ls[0].1], ls[1..])
  }

  lemma {:induction false} CountNone(s: string, c: char)
    requires c !in s
    ensures Count(s, c) == 0
  {
    if s != "" { CountNone(s[..|s|-1], c); }
  }

  /** No comma inside a rendered label separates, and after it the quotes are even. */
  lemma LabelHasNoCut(l: Label, tail: string)
    requires Plain(l)
    ensures forall j | 0 <= j < |RenderLabel(l)| :: !Cut(RenderLabel(l) + tail, j)
    ensures Quotes(RenderLabel(l)) == 2
  {
    var item := RenderLabel(l);
    var head := l.0 + "=";
    assert item == head + "\"" + l.1 + "\"";
    CountNone(head, '"');
    forall i | 0 <= i <= |l.1| ensures Quotes(head + "\"" + l.1[..i]) == 1 {
      CountConcat(head, "\"", '"');
      CountConcat(head + "\"", l.1[..i], '"');
      CountNone(l.1[..i], '"');
    }
    assert l.1[..|l.1|] == l.1;
    assert item[..|item|-1] == head + "\"" + l.1;
    forall j | 0 <= j < |item| ensures !Cut(item + tail, j) {
      var i := j - |head| - 1;
      if 0 <= i < |l.1| {
        assert (item + tail)[..j] == head + "\"" + l.1[..i];
      } else {
        assert (item + tail)[j] == item[j] != ',';
      }
    }
  }

  lemma TokensAt(s: string, c: nat)
    requires c < |s| && Cut(s, c) && forall j | 0 <= j < c :: !Cut(s, j)
    ensures Tokens(s) == [s[..c]] + Tokens(s[c+1..])
  {
    assert FirstCut(s, 0) == c;
  }

  lemma LastOfRendered(l: Label)
    requires Plain(l)
    ensures Tokens(RenderLabel(l)) == [RenderLabel(l)]
  {
    var item := RenderLabel(l);
    LabelHasNoCut(l, "");
    assert item + "" == item;
    assert FirstCut(item, 0) == |item|;
  }

  lemma Sliced(item: string, rest: string)
    ensures var s := item + ([','] + rest);
      |s| > |item| && s[..|item|] == item && s[|item|] == ',' && s[|item|+1..] == rest
  {
  }

  lemma FirstOfRendered(l: Label, rest: string)
    requires Plain(l)
    ensures Tokens(RenderLabel(l) + ([','] + rest)) == [RenderLabel(l)] + Tokens(rest)
  {
    var item := RenderLabel(l);
    var s := item + ([','] + rest);
    LabelHasNoCut(l, [','] + rest);
    Sliced(item, rest);
    TokensAt(s, |item|);
  }

  lemma {:induction false} TokensOfRendered(ls: seq<Label>)
    requires forall i | 0 <= i < |ls| :: Plain(ls[i])
    ensures Tokens(RenderLabels(ls)) == Items(ls)
    ensures UpToLong(Items(ls)) == Items(ls)
  {
    if ls != [] {
      TokensOfRendered(ls[1..]);
      if |ls| == 1 {
        LastOfRendered(ls[0]);
      } else {
        FirstOfRendered(ls[0], RenderLabels(ls[1..]));
        assert RenderLabels(ls) == RenderLabel(ls[0]) + ([','] + RenderLabels(ls[1..]));
      }
    }
  }

  lemma TrimQuotes(v: string)
    requires '"' !in v
    ensures Trim("\"" + v + "\"", Quote) == v
  {
    var q := "\"" + v + "\"";
    if v == "" {
      SpanOf(q, "", Quote);
      assert q + "" == q;
    } else {
      assert v[0] in v && v[|v|-1] in v;
      var w := v + "\"";
      assert q == "\"" + w;
      SpanOf("\"", w, Quote);
      assert w[..|v|] == v;
      assert TrimRight(w, Quote) == TrimRight(v, Quote) == v;
    }
  }

  lemma LabelComesBack(l: Label)
    requires Plain(l)
    ensures LabelOf(RenderLabel(l)) == Some(l)
  {
    var item := RenderLabel(l);
    assert !In(item[0], Blank) && !In(item[|item|-1], Blank);
    assert Trim(item, Blank) == item;
    assert '=' !in l.0;
    assert item == l.0 + ['='] + ("\"" + l.1 + "\"");
    IndexOfFirst(l.0, '=', "\"" + l.1 + "\"");
    assert item[..|l.0|] == l.0 && item[|l.0|+1..] == "\"" + l.1 + "\"";
    assert Trim(l.0, Blank) == l.0;
    TrimQuotes(l.1);
  }

  lemma {:induction false} LabelsComeBack(m: map<string, string>, ls: seq<Label>)
    requires forall i | 0 <= i < |ls| :: Plain(ls[i])
    ensures AddLabels(m, Items(ls)) == MapOf(m, ls)
    decreases |ls|
  {
    if ls != [] {
      LabelComesBack(ls[0]);
      LabelsComeBack(m[ls[0].0 := ls[0].1], ls[1..]);
      assert Items(ls)[1..] == Items(ls[1..]);
    }
  }

  lemma {:induction false} NoBrace(ls: seq<Label>)
    requires forall i | 0 <= i < |ls| :: Plain(ls[i])
    ensures '}' !in RenderLabels(ls)
  {
    if ls != [] { NoBrace(ls[1..]); }
  }

  ghost predicate DistinctNames(ls: seq<Label>) { forall i, j | 0 <= i < j < |ls| :: ls[i].0 != ls[j].0 }

  /** Labels with distinct names make the map that holds exactly those labels. */
  lemma {:induction false} MapOfHolds(m: map<string, string>, ls: seq<Label>, k: string, v: string)
    requires DistinctNames(ls)
    ensures k in MapOf(m, ls) && MapOf(m, ls)[k] == v <==>
      (k, v) in ls || (k in m && m[k] == v && forall i | 0 <= i < |ls| :: ls[i].0 != k)
    decreases |ls|
  {
    if ls != [] {
      var more := ls[1..];
      assert forall i | 0 <= i < |more| :: more[i] == ls[i+1];
      MapOfHolds(m[ls[0].0 := ls[0].1], more, k, v);
      assert ls == [ls[0]] + more;
    }
  }

  /** Rendering a metric and parsing the line gives back its name, labels and literal; with
      distinct names the parsed map holds exactly the rendered labels. */
  lemma MetricLineRoundTrip(name: string, ls: seq<Label>, literal: string)
    requires name != "" && All(name, NameChar)
    requires literal != "" && All(literal, ValueChar)
    requires forall i | 0 <= i < |ls| :: Plain(ls[i])
    ensures var r := MatchLine(RenderLine(name, ls, literal));
      r.Some? && r.value.name == name && r.value.literal == literal && LabelMap(r.value.labels) == MapOf(map[], ls)
    ensures DistinctNames(ls) ==> forall k, v ::
      k in MapOf(map[], ls) && MapOf(map[], ls)[k] == v <==> (k, v) in ls
  {
    if DistinctNames(ls) {
      forall k, v ensures k in MapOf(map[], ls) && MapOf(map[], ls)[k] == v <==> (k, v) in ls {
        MapOfHolds(map[], ls, k, v);
      }
    }
    var p := Parts(name, RenderLabels(ls), literal);
    NoBrace(ls);
    assert literal + "" == literal;
    DerivedIsMatched(RenderLine(name, ls, literal), p, if ls == [] then "" else "{" + RenderLabels(ls) + "}", " ", "");
    TokensOfRendered(ls);
    LabelsComeBack(map[], ls);
  }

  // ---- The character classes, spelt out ----

  lemma NumbersAre(c: char)
    ensures In(c, ValueChar) <==> c in "-+0123456789.eE"
  {
  }

  lemma BlanksAre(c: char)
    ensures In(c, Blank) <==> c in " \t\n\U{0B}\U{0C}\r"
    ensures In(c, ReSpace) <==> c in " \t\n\U{0C}\r"
    ensures In(c, Quote) <==> c in "\""
  {
  }

  predicate NameCharacter(c: char) {
    'a' <= c <= 'z' || 'A' <= c <= 'Z' || '0' <= c <= '9' || c == '_' || c == ':'
  }

  lemma NamesAre(name: string)
    ensures All(name, NameChar) <==> forall i | 0 <= i < |name| :: NameCharacter(name[i])
  {
  }

  lemma AllOf(s: string, k: Class, characters: string)
    requires forall c :: In(c, k) <==> c in characters
    requires forall i | 0 <= i < |s| :: s[i] in characters
    ensures All(s, k)
  {
  }

  /** The round trip over the characters of names and numbers themselves. */
  lemma SpeltOutRoundTrip(name: string, ls: seq<Label>, literal: string)
    requires name != "" && literal != "" && forall i | 0 <= i < |ls| :: Plain(ls[i])
    requires forall i | 0 <= i < |name| :: NameCharacter(name[i])
    requires forall i | 0 <= i < |literal| :: literal[i] in "-+0123456789.eE"
    ensures var r := MatchLine(RenderLine(name, ls, literal));
      r.Some? && r.value.name == name && r.value.literal == literal
    ensures DistinctNames(ls) ==> forall k, v ::
      (var m := LabelMap(MatchLine(RenderLine(name, ls, literal)).value.labels); k in m && m[k] == v) <==> (k, v) in ls
  {
    NamesAre(name);
    forall c ensures In(c, ValueChar) <==> c in "-+0123456789.eE" { NumbersAre(c); }
    AllOf(literal, ValueChar, "-+0123456789.eE");
    MetricLineRoundTrip(name, ls, literal);
  }

  // ---- Trimming ----

  lemma {:induction false} TrimRightOf(s: string, pad: string, k: Class)
    requires All(pad, k) && (s == "" || !In(s[|s|-1], k))
    ensures TrimRight(s + pad, k) == s
  {
    if pad == "" {
      assert s + pad == s;
    } else {
      assert (s + pad)[|s + pad| - 1] == pad[|pad|-1];
      assert (s + pad)[..|s + pad| - 1] == s + pad[..|pad|-1];
      TrimRightOf(s, pad[..|pad|-1], k);
    }
  }

  /** Trimming takes off exactly what surrounds the first and the last character that stay. */
  lemma TrimOf(before: string, s: string, after: string, k: Class)
    requires All(before, k) && All(after, k) && s != "" && !In(s[0], k) && !In(s[|s|-1], k)
    ensures Trim(before + (s + after), k) == s
  {
    SpanOf(before, s + after, k);
    TrimRightOf(s, after, k);
  }

  lemma PartIsRead(name: string, p2: string, q1: string, value: string, q2: string)
    requires All(p2, Blank) && All(q1, Quote) && All(q2, Quote)
    requires name != "" && '=' !in name && !In(name[0], Blank) && !In(name[|name|-1], Blank)
    requires value != "" && !In(value[0], Quote) && !In(value[|value|-1], Quote)
    ensures var part := (name + p2) + ['='] + (q1 + (value + q2));
      IndexOf(part, '=') == |name + p2| && KeyValue(part, |name + p2|) == (name, value)
  {
    var key, text := name + p2, q1 + (value + q2);
    var part := key + ['='] + text;
    assert '=' !in key by { forall i | 0 <= i < |p2| ensures p2[i] != '=' { assert In(p2[i], Blank); } }
    IndexOfFirst(key, '=', text);
    assert part[..|key|] == key && part[|key|+1..] == text;
    TrimOf("", name, p2, Blank);
    assert "" + (name + p2) == key;
    TrimOf(q1, value, q2, Quote);
  }

  /** A text without commas is one label, unless it fills the scanner's buffer. */
  lemma OneToken(s: string)
    requires s != "" && ',' !in s
    ensures LabelMap(s) == if |s| < 65536 then AddLabel(map[], s) else map[]
  {
    assert FirstCut(s, 0) == |s|;
    assert Tokens(s) == [s];
    assert [s][1..] == [];
    assert UpToLong([s]) == if |s| < 65536 then [s] else [];
    assert AddLabels(map[], [s]) == AddLabels(AddLabel(map[], s), []);
  }

  /** Any label a token holds: blanks around it and between the name and `=` do not count,
      nor do quotes at either end of the value; everything else does. */
  lemma TokenIsRead(p1: string, name: string, p2: string, q1: string, value: string, q2: string, p3: string)
    requires All(p1, Blank) && All(p2, Blank) && All(p3, Blank) && All(q1, Quote) && All(q2, Quote)
    requires name != "" && '=' !in name && !In(name[0], Blank) && !In(name[|name|-1], Blank)
    requires value != "" && !In(value[0], Quote) && !In(value[|value|-1], Quote)
    requires q2 == "" ==> !In(value[|value|-1], Blank)
    ensures LabelOf(p1 + (((name + p2) + ['='] + (q1 + (value + q2))) + p3)) == Some((name, value))
  {
    var part := (name + p2) + ['='] + (q1 + (value + q2));
    PartIsRead(name, p2, q1, value, q2);
    assert part[0] == name[0] && part[|part|-1] == if q2 == "" then value[|value|-1] else q2[|q2|-1];
    TrimOf(p1, part, p3, Blank);
  }
}
