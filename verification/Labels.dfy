/** The label list parser of internal/metrics/scraper.go: parseLabels and the split
    callback it hands to bufio.Scanner.  Text is a sequence of bytes. */
module Labels {
  import opened Helpers

  /** bufio.MaxScanTokenSize: the scanner's buffer never grows beyond it. */
  const TOKEN_LIMIT := 65536

  function Count(s: string, c: char): nat {
    if s == "" then 0 else Count(s[..|s|-1], c) + (if s[|s|-1] == c then 1 else 0)
  }

  function Quotes(s: string): nat { Count(s, '"') }

  /** A comma that separates labels: an even number of quotes comes before it. */
  predicate Cut(s: string, i: int) {
    0 <= i < |s| && s[i] == ',' && Quotes(s[..i]) % 2 == 0
  }

  function FirstCut(s: string, i: nat): (c: nat)
    requires i <= |s|
    ensures i <= c <= |s| && (c < |s| ==> Cut(s, c)) && forall j | i <= j < c :: !Cut(s, j)
    decreases |s| - i
  {
    if i == |s| || Cut(s, i) then i else FirstCut(s, i + 1)
  }

  /** Cutting off one label at a time, counting quotes afresh in each. */
  function Tokens(s: string): seq<string> {
    if s == "" then []
    else
      var c := FirstCut(s, 0);
      if c == |s| then [s] else [s[..c]] + Tokens(s[c+1..])
  }

  /** Cutting the whole text at all its separating commas at once; an empty last piece
      does not count. */
  function Pieces(s: string, start: nat, i: nat): seq<string>
    requires start <= i <= |s|
    decreases |s| - i
  {
    if i == |s| then (if start == |s| then [] else [s[start..]])
    else if Cut(s, i) then [s[start..i]] + Pieces(s, i + 1, i + 1)
    else Pieces(s, start, i + 1)
  }

  /** The tokens up to the first one the scanner's buffer cannot hold. */
  function UpToLong(tokens: seq<string>): seq<string> {
    if tokens == [] || |tokens[0]| >= TOKEN_LIMIT then [] else [tokens[0]] + UpToLong(tokens[1..])
  }

  // ---- The two ways of cutting agree ----

  lemma {:induction false} CountConcat(a: string, b: string, c: char)
    ensures Count(a + b, c) == Count(a, c) + Count(b, c)
  {
    if b == "" {
      assert a + b == a;
    } else {
      CountConcat(a, b[..|b|-1], c);
      assert (a + b)[..|a + b| - 1] == a + b[..|b|-1];
    }
  }

  lemma CutAfterCut(s: string, c: nat, j: int)
    requires Cut(s, c) && c < j < |s|
    ensures Cut(s, j) <==> Cut(s[c+1..], j - c - 1)
  {
    var tail := s[c+1..];
    assert s[..j] == s[..c] + [','] + tail[..j-c-1];
    CountConcat(s[..c] + [','], tail[..j-c-1], '"');
    CountConcat(s[..c], [','], '"');
  }

  lemma {:induction false} PiecesAfterCut(s: string, c: nat, start: nat, i: nat)
    requires Cut(s, c) && c < start <= i <= |s|
    ensures Pieces(s, start, i) == Pieces(s[c+1..], start - c - 1, i - c - 1)
    decreases |s| - i
  {
    var tail := s[c+1..];
    assert s[start..] == tail[start-c-1..];
    if i < |s| {
      CutAfterCut(s, c, i);
      assert s[start..i] == tail[start-c-1..i-c-1];
      PiecesAfterCut(s, c, i + 1, i + 1);
      PiecesAfterCut(s, c, start, i + 1);
    }
  }

  lemma {:induction false} PiecesToFirstCut(s: string, i: nat)
    requires i <= FirstCut(s, 0)
    ensures Pieces(s, 0, i) == Pieces(s, 0, FirstCut(s, 0))
    decreases |s| - i
  {
    if i < FirstCut(s, 0) {
      PiecesToFirstCut(s, i + 1);
    }
  }

  /** Splitting label by label is splitting the whole text at the commas preceded by an
      even number of quotes. */
  lemma {:induction false} TokensArePieces(s: string)
    ensures Tokens(s) == Pieces(s, 0, 0)
    decreases |s|
  {
    if s != "" {
      var c := FirstCut(s, 0);
      PiecesToFirstCut(s, 0);
      if c < |s| {
        TokensArePieces(s[c+1..]);
        PiecesAfterCut(s, c, c + 1, c + 1);
      }
    }
  }

  // ---- The scanner ----

  /** A window of the text decides its first cut for the whole text. */
  lemma WindowDecides(window: string, rest: string)
    ensures FirstCut(window, 0) < |window| ==> FirstCut(window + rest, 0) == FirstCut(window, 0)
    ensures FirstCut(window, 0) == |window| ==> FirstCut(window + rest, 0) >= |window|
  {
    var s := window + rest;
    forall j | 0 <= j < |window| ensures Cut(s, j) <==> Cut(window, j) {
      assert s[..j] == window[..j];
    }
  }

  /** What one answer of the split callback takes off the text ahead. */
  lemma NextToken(window: string, rest: string, atEnd: bool)
    requires |window| <= TOKEN_LIMIT && window != ""
    requires atEnd ==> rest == "" && |window| < TOKEN_LIMIT
    ensures var c := FirstCut(window, 0);
      && (c < |window| ==> UpToLong(Tokens(window + rest)) == [window[..c]] + UpToLong(Tokens(window[c+1..] + rest)))
      && (c == |window| && atEnd ==> UpToLong(Tokens(window + rest)) == [window])
      && (c == |window| && !atEnd && |window| == TOKEN_LIMIT ==> UpToLong(Tokens(window + rest)) == [])
  {
    WindowDecides(window, rest);
    var c := FirstCut(window, 0);
    var s := window + rest;
    assert s != "";
    if c < |window| {
      assert s[..c] == window[..c] && s[c+1..] == window[c+1..] + rest;
    } else if atEnd {
      assert s == window;
    } else if |window| == TOKEN_LIMIT {
      var d := FirstCut(s, 0);
      assert Tokens(s)[0] == if d == |s| then s else s[..d];
    }
  }

  method BytesCount(b: string, c: char) returns (n: nat)
    ensures n == Count(b, c)
  {
    n := 0;
    for i := 0 to |b|
      invariant n == Count(b[..i], c)
    {
      assert b[..i+1][..i] == b[..i];
      if b[i] == c { n := n + 1; }
    }
    assert b[..|b|] == b;
  }

  /** The split callback. */
  method SplitLabels(data: string, atEOF: bool) returns (advance: nat, token: Option<string>)
    ensures var c := FirstCut(data, 0);
      if c < |data| then advance == c + 1 && token == Some(data[..c])
      else if atEOF && data != "" then advance == |data| && token == Some(data)
      else advance == 0 && token == None
  {
    for i := 0 to |data|
      invariant forall j | 0 <= j < i :: !Cut(data, j)
    {
      if data[i] == ',' {
        var q := BytesCount(data[..i], '"');
        if q % 2 == 0 {
          assert Cut(data, i);
          return i + 1, Some(data[..i]);
        }
      }
    }
    if atEOF && |data| > 0 {
      return |data|, Some(data);
    }
    return 0, None;
  }

  /** bufio.Scanner over a reader that delivers what is left in chunks of any size that
      fits the buffer. */
  class Scanner {
    var window: string
    var unread: string
    var eof: bool
    var done: bool

    ghost predicate Valid()
      reads this
    {
      && |window| <= TOKEN_LIMIT
      && (eof ==> unread == "" && |window| < TOKEN_LIMIT)
    }

    /** The tokens still to come. */
    ghost function Ahead(): seq<string>
      reads this
    {
      if done then [] else UpToLong(Tokens(window + unread))
    }

    constructor (s: string)
      ensures Valid() && Ahead() == UpToLong(Tokens(s))
    {
      window, unread, eof, done := "", s, false, false;
      assert "" + s == s;
    }

    method Scan() returns (ok: bool, token: string)
      requires Valid()
      modifies this
      ensures Valid()
      ensures ok <==> old(Ahead()) != []
      ensures ok ==> old(Ahead()) == [token] + Ahead()
    {
      ok, token := false, "";
      if done { return; }
      ghost var text := window + unread;
      while true
        invariant Valid() && !done && window + unread == text
        decreases |unread|, !eof
      {
        if window != "" || eof {
          var advance, found := SplitLabels(window, eof);
          if window != "" { NextToken(window, unread, eof); }
          if found.Some? {
            ok, token := true, found.value;
            assert FirstCut(window, 0) == |window| ==> window[advance..] + unread == "";
            window := window[advance..];
            return;
          }
        }
        if eof || |window| >= TOKEN_LIMIT {
          done := true;
          return;
        }
        if unread == "" {
          eof := true;
        } else {
          var n: nat :| 1 <= n <= |unread| && |window| + n <= TOKEN_LIMIT;
          assert (window + unread[..n]) + unread[n..] == window + unread;
          window, unread := window + unread[..n], unread[n..];
        }
      }
    }
  }
}
