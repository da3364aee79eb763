/** DeviceName of internal/types/types.go.  A character is a code point; lower-casing of
    the letters outside ASCII is a parameter. */
module DeviceNames {

  const MAX_NAME := 253

  predicate Allowed(c: char) {
    'a' <= c <= 'z' || 'A' <= c <= 'Z' || '0' <= c <= '9' || c == '-' || c == '.' || c == '_'
  }

  type Lower = char -> char

  /** What is used of strings.ToLower: a result within the allowed characters stays as it
      is when lowered again, and the dash is not a letter. */
  ghost predicate Lowers(lower: Lower) {
    lower('-') == '-' && forall c: char :: Allowed(lower(c)) ==> lower(lower(c)) == lower(c)
  }

  function ToLower(s: string, lower: Lower): string {
    seq(|s|, i requires 0 <= i < |s| => lower(s[i]))
  }

  function ReplaceForbidden(s: string): string {
    seq(|s|, i requires 0 <= i < |s| => if Allowed(s[i]) then s[i] else '-')
  }

  /** Every run of dashes becomes one. */
  function Collapse(s: string): string {
    if |s| <= 1 then s
    else if s[0] == '-' && s[1] == '-' then Collapse(s[1..])
    else [s[0]] + Collapse(s[1..])
  }

  function TrimLeft(s: string): string {
    if s != "" && s[0] == '-' then TrimLeft(s[1..]) else s
  }

  function TrimRight(s: string): string {
    if s != "" && s[|s|-1] == '-' then TrimRight(s[..|s|-1]) else s
  }

  /** Everything Sanitize does before it cuts. */
  function Cleaned(s: string, lower: Lower): string {
    TrimRight(TrimLeft(Collapse(ReplaceForbidden(ToLower(s, lower)))))
  }

  function Sanitize(s: string, lower: Lower): string {
    var c := Cleaned(s, lower);
    if |c| > MAX_NAME then c[..MAX_NAME] else c
  }

  predicate IsValid(s: string) {
    0 < |s| <= MAX_NAME && forall i | 0 <= i < |s| :: Allowed(s[i])
  }

  // ---- The normal form ----

  predicate Single(s: string) { forall i | 0 <= i < |s| - 1 :: !(s[i] == '-' && s[i+1] == '-') }

  ghost predicate Settled(s: string, lower: Lower) {
    forall i | 0 <= i < |s| :: Allowed(s[i]) && lower(s[i]) == s[i]
  }

  predicate OpenEnds(s: string) { s != "" ==> s[0] != '-' && s[|s|-1] != '-' }

  lemma {:induction false} CollapseNormalises(s: string, lower: Lower)
    requires Settled(s, lower)
    ensures Settled(Collapse(s), lower) && Single(Collapse(s))
    ensures s != "" ==> Collapse(s) != "" && Collapse(s)[0] == s[0]
  {
    if |s| > 1 { CollapseNormalises(s[1..], lower); }
  }

  lemma {:induction false} CollapseKeeps(s: string)
    requires Single(s)
    ensures Collapse(s) == s
  {
    if |s| > 1 {
      var u := s[1..];
      assert forall i | 0 <= i < |u| :: u[i] == s[i+1];
      CollapseKeeps(s[1..]);
    }
  }

  lemma {:induction false} TrimLeftNormalises(s: string, lower: Lower)
    requires Settled(s, lower) && Single(s)
    ensures var t := TrimLeft(s); Settled(t, lower) && Single(t) && (t != "" ==> t[0] != '-')
  {
    if s != "" && s[0] == '-' {
      var u := s[1..];
      assert forall i | 0 <= i < |u| :: u[i] == s[i+1];
      TrimLeftNormalises(s[1..], lower);
    }
  }

  lemma {:induction false} TrimRightNormalises(s: string, lower: Lower)
    requires Settled(s, lower) && Single(s) && (s != "" ==> s[0] != '-')
    ensures var t := TrimRight(s); Settled(t, lower) && Single(t) && OpenEnds(t)
  {
    if s != "" && s[|s|-1] == '-' { TrimRightNormalises(s[..|s|-1], lower); }
  }

  ghost predicate Normal(s: string, lower: Lower) { Settled(s, lower) && Single(s) && OpenEnds(s) }

  lemma CleanedIsNormal(s: string, lower: Lower)
    requires Lowers(lower)
    ensures Normal(Cleaned(s, lower), lower)
  {
    var a := ToLower(s, lower);
    var b := ReplaceForbidden(a);
    assert Settled(b, lower);
    CollapseNormalises(b, lower);
    TrimLeftNormalises(Collapse(b), lower);
    TrimRightNormalises(TrimLeft(Collapse(b)), lower);
  }

  lemma NormalIsKept(t: string, lower: Lower)
    requires Settled(t, lower) && Single(t) && (t != "" ==> t[0] != '-')
    ensures TrimLeft(Collapse(ReplaceForbidden(ToLower(t, lower)))) == t
  {
    assert ToLower(t, lower) == t;
    assert ReplaceForbidden(t) == t;
    CollapseKeeps(t);
  }

  /** The output is empty or valid, never starts with a dash and has no two in a row. */
  lemma SanitizeIsClean(s: string, lower: Lower)
    requires Lowers(lower)
    ensures var t := Sanitize(s, lower);
      (t == "" || IsValid(t)) && Single(t) && (t != "" ==> t[0] != '-')
  {
    CleanedIsNormal(s, lower);
  }

  /** One application is a fixed point exactly when the cut at 253 leaves no dash behind. */
  lemma SanitizedOnceIff(s: string, lower: Lower)
    requires Lowers(lower)
    ensures var c, t := Cleaned(s, lower), Sanitize(s, lower);
      Sanitize(t, lower) == t <==> !(|c| > MAX_NAME && c[MAX_NAME-1] == '-')
  {
    CleanedIsNormal(s, lower);
    var t := Sanitize(s, lower);
    NormalIsKept(t, lower);
    ShorterIffDash(t);
  }

  lemma {:induction false} ShorterIffDash(t: string)
    ensures TrimRight(t) == t <==> t == "" || t[|t|-1] != '-'
    ensures |TrimRight(t)| <= |t|
  {
    if t != "" && t[|t|-1] == '-' { ShorterIffDash(t[..|t|-1]); }
  }

  /** Two applications always reach a fixed point. */
  lemma SanitizedTwice(s: string, lower: Lower)
    requires Lowers(lower)
    ensures var t := Sanitize(Sanitize(s, lower), lower); Sanitize(t, lower) == t
  {
    CleanedIsNormal(s, lower);
    var t := Sanitize(s, lower);
    NormalIsKept(t, lower);
    CleanedIsNormal(t, lower);
    ShorterIffDash(t);
    var u := Sanitize(t, lower);
    assert u == Cleaned(t, lower);
    NormalIsKept(u, lower);
    ShorterIffDash(u);
  }

  const CUT_AT_A_DASH := seq(252, _ => 'a') + "-a"

  /** 252 letters, a dash and a letter: the cut leaves the dash, a second pass takes it. */
  lemma CutLeavesADash(lower: Lower)
    requires Lowers(lower) && lower('a') == 'a'
    ensures Sanitize(CUT_AT_A_DASH, lower) == seq(252, _ => 'a') + "-"
    ensures Sanitize(Sanitize(CUT_AT_A_DASH, lower), lower) == seq(252, _ => 'a')
  {
    var s, t := CUT_AT_A_DASH, seq(252, _ => 'a') + "-";
    NormalIsKept(s, lower);
    assert s[..253] == t;
    NormalIsKept(t, lower);
    var a := seq(252, _ => 'a');
    assert t[..252] == a && TrimRight(a) == a;
    assert TrimRight(t) == TrimRight(t[..252]);
  }

  // ---- What the output is made of ----

  /** A character that stays: an allowed one other than the dash. */
  predicate Stays(c: char) {
    'a' <= c <= 'z' || 'A' <= c <= 'Z' || '0' <= c <= '9' || c == '.' || c == '_'
  }

  /** The longest runs of such characters, in order; `run` is the one being read. */
  function Words(s: string, run: string): seq<string>
    decreases |s|
  {
    if s == "" then Finished(run)
    else if Stays(s[0]) then Words(s[1..], run + [s[0]])
    else Finished(run) + Words(s[1..], "")
  }

  function Finished(run: string): seq<string> { if run == "" then [] else [run] }

  function Join(words: seq<string>): string {
    if words == [] then "" else if |words| == 1 then words[0] else words[0] + "-" + Join(words[1..])
  }

  lemma {:induction false} WordsReplaced(s: string, run: string)
    ensures Words(ReplaceForbidden(s), run) == Words(s, run)
    decreases |s|
  {
    if s != "" {
      assert ReplaceForbidden(s)[1..] == ReplaceForbidden(s[1..]);
      WordsReplaced(s[1..], if Stays(s[0]) then run + [s[0]] else "");
    }
  }

  lemma {:induction false} WordsCollapsed(s: string, run: string)
    ensures Words(Collapse(s), run) == Words(s, run)
    decreases |s|
  {
    if |s| > 1 {
      if s[0] == '-' && s[1] == '-' {
        WordsCollapsed(s[1..], run);
        assert Words(s, run) == Finished(run) + Words(s[1..], "");
        assert Words(s[1..], "") == Words(s[1..][1..], "");
      } else {
        WordsCollapsed(s[1..], if Stays(s[0]) then run + [s[0]] else "");
        assert Collapse(s)[1..] == Collapse(s[1..]);
      }
    }
  }

  lemma {:induction false} WordsTrimmedLeft(s: string)
    ensures Words(TrimLeft(s), "") == Words(s, "")
  {
    if s != "" && s[0] == '-' { WordsTrimmedLeft(s[1..]); }
  }

  lemma {:induction false} WordsBeforeDash(s: string, run: string)
    ensures Words(s + "-", run) == Words(s, run)
    decreases |s|
  {
    if s == "" {
      assert (s + "-")[1..] == "";
      assert Words("", "") == [];
    } else {
      assert (s + "-")[1..] == s[1..] + "-";
      WordsBeforeDash(s[1..], if Stays(s[0]) then run + [s[0]] else "");
    }
  }

  lemma {:induction false} WordsTrimmedRight(s: string)
    ensures Words(TrimRight(s), "") == Words(s, "")
  {
    if s != "" && s[|s|-1] == '-' {
      WordsTrimmedRight(s[..|s|-1]);
      WordsBeforeDash(s[..|s|-1], "");
      assert s[..|s|-1] + "-" == s;
    }
  }

  lemma {:induction false} NormalIsJoined(x: string, run: string)
    requires forall i | 0 <= i < |x| :: Stays(x[i]) || x[i] == '-'
    requires Single(x) && (x != "" ==> x[|x|-1] != '-' && (run == "" ==> x[0] != '-'))
    ensures Join(Words(x, run)) == run + x && (run + x != "" ==> Words(x, run) != [])
    decreases |x|
  {
    if x == "" {
      assert run + x == run;
    } else {
      var y := x[1..];
      assert forall i | 0 <= i < |y| :: y[i] == x[i+1];
      if Stays(x[0]) {
        NormalIsJoined(y, run + [x[0]]);
        assert run + [x[0]] + y == run + x;
      } else {
        NormalIsJoined(y, "");
        assert "" + y == y && ([run] + Words(y, ""))[1..] == Words(y, "");
        assert run + "-" + y == run + x;
      }
    }
  }

  /** The output is the words of the lowered name, joined by single dashes, up to 253
      characters. */
  lemma SanitizeJoinsTheWords(s: string, lower: Lower)
    requires Lowers(lower)
    ensures var joined := Join(Words(seq(|s|, i requires 0 <= i < |s| => lower(s[i])), ""));
      Sanitize(s, lower) == if |joined| <= 253 then joined else joined[..253]
  {
    var a := ToLower(s, lower);
    var b := Collapse(ReplaceForbidden(a));
    WordsReplaced(a, "");
    WordsCollapsed(ReplaceForbidden(a), "");
    WordsTrimmedLeft(b);
    WordsTrimmedRight(TrimLeft(b));
    CleanedIsNormal(s, lower);
    NormalIsJoined(Cleaned(s, lower), "");
    assert "" + Cleaned(s, lower) == Cleaned(s, lower);
    assert a == seq(|s|, i requires 0 <= i < |s| => lower(s[i]));
  }

  lemma ValidIff(s: string)
    ensures IsValid(s) <==> 1 <= |s| <= 253 && forall i | 0 <= i < |s| :: Stays(s[i]) || s[i] == '-'
  {
  }
}
