/** Waypoint extraction from robot-script text (`RobotScriptParser.extract_coordinates`).

    The source runs `re.finditer(r'CalcRobT\(\[\[(.*?)\]', script)`. This module
    replaces the regular-expression engine by a dedicated scanner for that one
    pattern and proves that the scanner finds exactly what `finditer` finds:
    the pattern matches at index `p` when `CalcRobT([[` starts at `p` and, after
    it, a `]` comes before any newline (`.` does not match `\n`); the lazy group
    captures the text up to the FIRST such `]`; matches are reported left to
    right and the search resumes after the end of each match. */
module ScriptParser {
  import opened Wrappers
  import Text
  import Decimal
  import Seqs

  /** A waypoint as the source builds it: the numbers parsed from the first (at
      most three) comma-separated tokens of one match. */
  type Waypoint = seq<real>

  /** The literal prefix of the pattern, `CalcRobT\(\[\[` unescaped. */
  const Opener: string := "CalcRobT([["

  /** The pattern's literal prefix starts at index `p`. */
  predicate OpensAt(s: string, p: nat) {
    p + |Opener| <= |s| && s[p..p + |Opener|] == Opener
  }

  /** `s[i..k]` contains no newline, so `.*` can span it. */
  predicate NoNewline(s: string, i: nat, k: nat)
    requires i <= k <= |s|
  {
    forall j | i <= j < k :: s[j] != '\n'
  }

  /** Where the lazy group `(.*?)\]` started at `i` closes: the least `k >= i` with
      `s[k] == ']'` reachable without crossing a newline, or `None` when there is none. */
  function CloseFrom(s: string, i: nat): (r: Option<nat>)
    requires i <= |s|
    ensures r.Some? ==> i <= r.value < |s| && s[r.value] == ']' && NoNewline(s, i, r.value)
    ensures r.Some? ==> forall k | i <= k < r.value :: s[k] != ']'
    ensures r.None? ==> forall k {:trigger NoNewline(s, i, k)} | i <= k < |s| && s[k] == ']' :: !NoNewline(s, i, k)
    decreases |s| - i
  {
    if i == |s| then None
    else if s[i] == ']' then Some(i)
    else if s[i] == '\n' then
      assert forall k | i < k <= |s| :: !NoNewline(s, i, k) by {
        forall k | i < k <= |s| ensures !NoNewline(s, i, k) {
          assert s[i] == '\n';
        }
      }
      None
    else
      var r := CloseFrom(s, i + 1);
      assert r.None? ==> forall k | i <= k < |s| && s[k] == ']' :: !NoNewline(s, i, k) by {
        if r.None? {
          forall k | i <= k < |s| && s[k] == ']' ensures !NoNewline(s, i, k) {
            assert k > i;
            assert !NoNewline(s, i + 1, k);
            var j :| i + 1 <= j < k && s[j] == '\n';
          }
        }
      }
      r
  }

  /** The pattern matches at index `p`; the result is the index of the closing `]`. */
  function MatchAt(s: string, p: nat): Option<nat>
    requires p <= |s|
  {
    if OpensAt(s, p) then CloseFrom(s, p + |Opener|) else None
  }

  /** One match: where `CalcRobT([[` starts and where the closing `]` is. */
  datatype Span = Span(start: nat, close: nat)

  /** `m` is what the pattern matches at `m.start`. */
  predicate IsMatch(s: string, m: Span) {
    m.start + |Opener| <= m.close < |s| && MatchAt(s, m.start) == Some(m.close)
  }

  /** Index `p` lies inside one of the reported matches. */
  predicate Covered(spans: seq<Span>, p: nat) {
    exists i | 0 <= i < |spans| :: spans[i].start <= p <= spans[i].close
  }

  /** Every span is a match of the pattern at or after `from`. */
  predicate AllMatch(s: string, from: nat, spans: seq<Span>) {
    forall i | 0 <= i < |spans| :: IsMatch(s, spans[i]) && from <= spans[i].start
  }

  /** The spans are in text order and do not overlap. */
  predicate InTextOrder(spans: seq<Span>) {
    forall i, j | 0 <= i < j < |spans| :: spans[i].close < spans[j].start
  }

  /** Every index at or after `from` where the pattern matches is the start of a
      span or lies inside one: the scan skips only what a match consumed. */
  predicate Exhaustive(s: string, from: nat, spans: seq<Span>)
    requires from <= |s|
  {
    forall p {:trigger Covered(spans, p)} | from <= p < |s| && MatchAt(s, p).Some? :: Covered(spans, p)
  }

  /** `re.finditer` from index `from`: every reported span is a match, the spans
      are in text order and do not overlap, and no match is missed. */
  function Scan(s: string, from: nat): (spans: seq<Span>)
    requires from <= |s|
    ensures AllMatch(s, from, spans)
    ensures InTextOrder(spans)
    ensures Exhaustive(s, from, spans)
    decreases |s| - from
  {
    if from == |s| then []
    else
      match MatchAt(s, from)
      case Some(k) =>
        var rest := Scan(s, k + 1);
        ScanStep(s, from, k, rest);
        [Span(from, k)] + rest
      case None =>
        var rest := Scan(s, from + 1);
        assert Exhaustive(s, from, rest) by {
          forall p | from <= p < |s| && MatchAt(s, p).Some? ensures Covered(rest, p) {
            assert p != from;
          }
        }
        rest
  }

  /** A match at `from` closing at `k`, followed by a correct scan from `k + 1`,
      is a correct scan from `from`. */
  lemma ScanStep(s: string, from: nat, k: nat, rest: seq<Span>)
    requires from < |s| && MatchAt(s, from) == Some(k)
    requires k + 1 <= |s|
    requires AllMatch(s, k + 1, rest) && InTextOrder(rest) && Exhaustive(s, k + 1, rest)
    ensures AllMatch(s, from, [Span(from, k)] + rest)
    ensures InTextOrder([Span(from, k)] + rest)
    ensures Exhaustive(s, from, [Span(from, k)] + rest)
  {
    ScanStepMatches(s, from, k, rest);
    ScanStepOrder(from, k, rest);
    ScanStepExhaustive(s, from, k, rest);
  }

  lemma ScanStepMatches(s: string, from: nat, k: nat, rest: seq<Span>)
    requires IsMatch(s, Span(from, k))
    requires AllMatch(s, k + 1, rest)
    ensures AllMatch(s, from, [Span(from, k)] + rest)
  {
    var spans := [Span(from, k)] + rest;
    forall i | 0 <= i < |spans| ensures IsMatch(s, spans[i]) && from <= spans[i].start {
      if i > 0 {
        assert spans[i] == rest[i - 1];
      }
    }
  }

  lemma ScanStepOrder(from: nat, k: nat, rest: seq<Span>)
    requires forall i | 0 <= i < |rest| :: k + 1 <= rest[i].start
    requires InTextOrder(rest)
    ensures InTextOrder([Span(from, k)] + rest)
  {
    var spans := [Span(from, k)] + rest;
    forall i, j | 0 <= i < j < |spans| ensures spans[i].close < spans[j].start {
      assert spans[j] == rest[j - 1];
      if i > 0 {
        assert spans[i] == rest[i - 1];
      }
    }
  }

  lemma ScanStepExhaustive(s: string, from: nat, k: nat, rest: seq<Span>)
    requires from <= k < |s| && MatchAt(s, from) == Some(k)
    requires Exhaustive(s, k + 1, rest)
    ensures Exhaustive(s, from, [Span(from, k)] + rest)
  {
    var spans := [Span(from, k)] + rest;
    forall p | from <= p < |s| && MatchAt(s, p).Some? ensures Covered(spans, p) {
      if p <= k {
        assert spans[0].start <= p <= spans[0].close;
      } else {
        assert Covered(rest, p);
        var i :| 0 <= i < |rest| && rest[i].start <= p <= rest[i].close;
        assert spans[i + 1] == rest[i];
      }
    }
  }

  /** The text the group `(.*?)` captured for a match. */
  function Capture(s: string, m: Span): string
    requires m.start + |Opener| <= m.close <= |s|
  {
    s[m.start + |Opener|..m.close]
  }

  /** The tokens `float()` is applied to: `coords_str.split(',')[:3]`. */
  function Tokens(capture: string): (ts: seq<string>)
    ensures 1 <= |ts| <= 3
    ensures |ts| == Seqs.Min(3, |Text.Split(capture, ',')|)
    ensures ts == Text.Split(capture, ',')[..|ts|]
  {
    var pieces := Text.Split(capture, ',');
    pieces[..Seqs.Min(3, |pieces|)]
  }

  /** `[number(x) for x in tokens]` where `number` stands for `float` and returns
      `None` where it raises: the first token that does not parse aborts the list. */
  function ParseTokens(tokens: seq<string>, number: string -> Option<real>): (r: Result<Waypoint, Error>)
    ensures r.Success? <==> forall j | 0 <= j < |tokens| :: number(tokens[j]).Some?
    ensures r.Success? ==> |r.value| == |tokens|
    ensures r.Success? ==> forall j | 0 <= j < |tokens| :: r.value[j] == number(tokens[j]).value
    ensures r.Failure? ==>
      exists j | 0 <= j < |tokens| ::
        && r.error == ParseError(tokens[j]) && number(tokens[j]).None?
        && forall k | 0 <= k < j :: number(tokens[k]).Some?
    decreases |tokens|
  {
    if |tokens| == 0 then Success([])
    else
      var head := number(tokens[0]);
      if head.None? then Failure(ParseError(tokens[0]))
      else
        var rest := ParseTokens(tokens[1..], number);
        assert forall j | 1 <= j < |tokens| :: tokens[j] == tokens[1..][j - 1];
        if rest.Failure? then Failure(rest.error)
        else Success([head.value] + rest.value)
  }

  /** The waypoint one match yields: `[float(x) for x in coords_str.split(',')[:3]]`. */
  function ParseCoords(capture: string): (r: Result<Waypoint, Error>)
    ensures r.Success? <==> forall j | 0 <= j < |Tokens(capture)| :: Decimal.ParseNumber(Tokens(capture)[j]).Some?
    ensures r.Success? ==> |r.value| == |Tokens(capture)| <= 3
    ensures r.Success? ==> forall j | 0 <= j < |r.value| :: r.value[j] == Decimal.ParseNumber(Tokens(capture)[j]).value
    ensures r.Failure? ==>
      exists j | 0 <= j < |Tokens(capture)| ::
        && r.error == ParseError(Tokens(capture)[j]) && Decimal.ParseNumber(Tokens(capture)[j]).None?
        && forall k | 0 <= k < j :: Decimal.ParseNumber(Tokens(capture)[k]).Some?
  {
    ParseTokens(Tokens(capture), Decimal.ParseNumber)
  }

  /** `e` is the error of the first failing entry of `results`: the entry at
      which evaluating them in order stops. */
  predicate IsFirstFailure<T>(results: seq<Result<T, Error>>, e: Error) {
    exists i | 0 <= i < |results| ::
      && results[i].Failure? && results[i].error == e
      && forall k | 0 <= k < i :: results[k].Success?
  }

  /** Evaluates a list comprehension whose element expression may raise: the
      first failure, in order, aborts the whole list. */
  function Collect<T>(results: seq<Result<T, Error>>): (r: Result<seq<T>, Error>)
    ensures r.Success? <==> forall i | 0 <= i < |results| :: results[i].Success?
    ensures r.Success? ==> |r.value| == |results|
    ensures r.Success? ==> forall i | 0 <= i < |results| :: r.value[i] == results[i].value
    ensures r.Failure? ==> IsFirstFailure(results, r.error)
    decreases |results|
  {
    if |results| == 0 then Success([])
    else if results[0].Failure? then Failure(results[0].error)
    else
      var rest := Collect(results[1..]);
      assert forall i | 1 <= i < |results| :: results[i] == results[1..][i - 1];
      if rest.Failure? then Failure(rest.error)
      else Success([results[0].value] + rest.value)
  }

  /** The texts captured by the matches of `script`, in text order. */
  function Captures(script: string): (cs: seq<string>)
    ensures |cs| == |Scan(script, 0)|
    ensures forall i | 0 <= i < |cs| :: cs[i] == Capture(script, Scan(script, 0)[i])
  {
    var spans := Scan(script, 0);
    seq(|spans|, i requires 0 <= i < |spans| => Capture(script, spans[i]))
  }

  /** The outcome of `float()` on each match's tokens, in text order. */
  function MatchResults(script: string): (rs: seq<Result<Waypoint, Error>>)
    ensures |rs| == |Captures(script)|
    ensures forall i | 0 <= i < |rs| :: rs[i] == ParseCoords(Captures(script)[i])
  {
    var captures := Captures(script);
    seq(|captures|, i requires 0 <= i < |captures| => ParseCoords(captures[i]))
  }

  /** `RobotScriptParser.extract_coordinates(script)`: one waypoint per match, in
      text order, or the error of the first token `float()` rejects. */
  function ExtractCoordinates(script: string): (r: Result<seq<Waypoint>, Error>)
    ensures r.Success? <==> forall i | 0 <= i < |Captures(script)| :: ParseCoords(Captures(script)[i]).Success?
    ensures r.Success? ==> |r.value| == |Captures(script)|
    ensures r.Success? ==> forall i | 0 <= i < |r.value| :: r.value[i] == ParseCoords(Captures(script)[i]).value
    ensures r.Failure? ==> IsFirstFailure(MatchResults(script), r.error)
  {
    Collect(MatchResults(script))
  }

  /** A failed extraction reports the error of the first capture, in text order,
      that does not parse; every capture before it parsed. */
  lemma ExtractionFailsAtFirstBadCapture(script: string)
    requires ExtractCoordinates(script).Failure?
    ensures exists i | 0 <= i < |Captures(script)| ::
      && ParseCoords(Captures(script)[i]) == Failure(ExtractCoordinates(script).error)
      && forall k | 0 <= k < i :: ParseCoords(Captures(script)[k]).Success?
  {
  }

  /** The pattern matches nowhere in `script`. */
  predicate NoMatch(script: string) {
    forall p | 0 <= p <= |script| :: MatchAt(script, p).None?
  }

  /** A script without any `CalcRobT([[...]` occurrence (closed before a line
      break) yields an empty waypoint list rather than an error, and only such a
      script yields the empty list. */
  lemma EmptyExactlyWithoutMatches(script: string)
    ensures ExtractCoordinates(script) == Success([]) <==> NoMatch(script)
  {
    var spans := Scan(script, 0);
    if NoMatch(script) {
      assert |spans| > 0 ==> IsMatch(script, spans[0]);
      assert |Captures(script)| == 0;
      assert |MatchResults(script)| == 0;
    } else {
      var p :| 0 <= p <= |script| && MatchAt(script, p).Some?;
      assert p < |script|;
      assert Covered(spans, p);
    }
  }

  /** Every successful extraction gives waypoints of one to three coordinates:
      tokens after the third are never read. */
  lemma WaypointsHaveAtMostThreeCoordinates(script: string)
    ensures ExtractCoordinates(script).Success? ==>
      forall i | 0 <= i < |ExtractCoordinates(script).value| :: 1 <= |ExtractCoordinates(script).value[i]| <= 3
  {
    if ExtractCoordinates(script).Success? {
      var ws := ExtractCoordinates(script).value;
      forall i | 0 <= i < |ws| ensures 1 <= |ws[i]| <= 3 {
        assert ParseCoords(Captures(script)[i]).Success?;
      }
    }
  }

  /** Extraction fails only with a ParseError naming a token of some match. */
  lemma FailureIsParseError(script: string)
    ensures ExtractCoordinates(script).Failure? ==>
      && ExtractCoordinates(script).error.ParseError?
      && exists i | 0 <= i < |Captures(script)| :: ParseCoords(Captures(script)[i]).Failure?
  {
    if ExtractCoordinates(script).Failure? {
      var rs := MatchResults(script);
      var i :| 0 <= i < |rs| && rs[i] == Failure(ExtractCoordinates(script).error);
      var tokens := Tokens(Captures(script)[i]);
      var j :| 0 <= j < |tokens| && rs[i].error == ParseError(tokens[j]) && Decimal.ParseNumber(tokens[j]).None?;
    }
  }

  /** The three properties of `Scan` determine it: any list of spans that are
      matches, in text order, and miss no match, is the list `re.finditer` reports. */
  lemma {:induction false} ScanUnique(s: string, from: nat, spans: seq<Span>)
    requires from <= |s|
    requires AllMatch(s, from, spans) && InTextOrder(spans) && Exhaustive(s, from, spans)
    ensures spans == Scan(s, from)
    decreases |s| - from, 1
  {
    if from == |s| {
      assert |spans| > 0 ==> IsMatch(s, spans[0]);
    } else if MatchAt(s, from).Some? {
      ScanUniqueAtMatch(s, from, MatchAt(s, from).value, spans);
    } else {
      ScanUniqueSkip(s, from, spans);
    }
  }

  lemma {:induction false} ScanUniqueAtMatch(s: string, from: nat, k: nat, spans: seq<Span>)
    requires from < |s| && MatchAt(s, from) == Some(k)
    requires AllMatch(s, from, spans) && InTextOrder(spans) && Exhaustive(s, from, spans)
    ensures spans == Scan(s, from)
    decreases |s| - from, 0
  {
    assert |spans| > 0 && spans[0] == Span(from, k) by {
      FirstSpanStartsAtMatch(s, from, k, spans);
    }
    assert k + 1 <= |s| && spans[1..] == Scan(s, k + 1) by {
      DropFirstSpan(s, from, k, spans);
      ScanUnique(s, k + 1, spans[1..]);
    }
    assert spans == [spans[0]] + spans[1..];
    ScanAtMatch(s, from, k);
  }

  lemma {:induction false} ScanUniqueSkip(s: string, from: nat, spans: seq<Span>)
    requires from < |s| && MatchAt(s, from).None?
    requires AllMatch(s, from, spans) && InTextOrder(spans) && Exhaustive(s, from, spans)
    ensures spans == Scan(s, from)
    decreases |s| - from, 0
  {
    SkipNonMatch(s, from, spans);
    ScanUnique(s, from + 1, spans);
    ScanPastNonMatch(s, from);
  }

  /** One step of the scan where the pattern matches. */
  lemma ScanAtMatch(s: string, from: nat, k: nat)
    requires from < |s| && MatchAt(s, from) == Some(k)
    ensures k + 1 <= |s| && Scan(s, from) == [Span(from, k)] + Scan(s, k + 1)
  {
  }

  /** One step of the scan where the pattern does not match. */
  lemma ScanPastNonMatch(s: string, from: nat)
    requires from < |s| && MatchAt(s, from).None?
    ensures Scan(s, from) == Scan(s, from + 1)
  {
  }

  /** When the pattern matches at `from`, a correct span list starts with that match. */
  lemma FirstSpanStartsAtMatch(s: string, from: nat, k: nat, spans: seq<Span>)
    requires from < |s| && MatchAt(s, from) == Some(k)
    requires AllMatch(s, from, spans) && InTextOrder(spans) && Exhaustive(s, from, spans)
    ensures |spans| > 0 && spans[0] == Span(from, k)
  {
    assert Covered(spans, from);
    var i :| 0 <= i < |spans| && spans[i].start <= from <= spans[i].close;
    assert IsMatch(s, spans[i]) && IsMatch(s, spans[0]);
  }

  lemma DropFirstSpan(s: string, from: nat, k: nat, spans: seq<Span>)
    requires from < |s| && MatchAt(s, from) == Some(k)
    requires |spans| > 0 && spans[0] == Span(from, k)
    requires AllMatch(s, from, spans) && InTextOrder(spans) && Exhaustive(s, from, spans)
    ensures k + 1 <= |s|
    ensures AllMatch(s, k + 1, spans[1..]) && InTextOrder(spans[1..]) && Exhaustive(s, k + 1, spans[1..])
  {
    assert IsMatch(s, spans[0]);
    var rest := spans[1..];
    assert AllMatch(s, k + 1, rest) by {
      forall j | 0 <= j < |rest| ensures IsMatch(s, rest[j]) && k + 1 <= rest[j].start {
        assert rest[j] == spans[j + 1];
        assert spans[0].close < spans[j + 1].start;
      }
    }
    assert InTextOrder(rest) by {
      forall a, b | 0 <= a < b < |rest| ensures rest[a].close < rest[b].start {
        assert rest[a] == spans[a + 1] && rest[b] == spans[b + 1];
      }
    }
    assert Exhaustive(s, k + 1, rest) by {
      forall p | k + 1 <= p < |s| && MatchAt(s, p).Some? ensures Covered(rest, p) {
        assert Covered(spans, p);
        var j :| 0 <= j < |spans| && spans[j].start <= p <= spans[j].close;
        assert j != 0;
        assert rest[j - 1] == spans[j];
      }
    }
  }

  lemma SkipNonMatch(s: string, from: nat, spans: seq<Span>)
    requires from < |s| && MatchAt(s, from).None?
    requires AllMatch(s, from, spans) && Exhaustive(s, from, spans)
    ensures AllMatch(s, from + 1, spans) && Exhaustive(s, from + 1, spans)
  {
    forall j | 0 <= j < |spans| ensures from + 1 <= spans[j].start {
      assert IsMatch(s, spans[j]);
    }
  }

  /** The text of one call whose first array holds `coords`. */
  function Call(coords: string): string {
    Opener + coords + "]"
  }

  /** Coordinate text that the lazy group captures whole. */
  predicate Plain(coords: string) {
    ']' !in coords && '\n' !in coords
  }

  /** A call written at index `p` is a match there, closing at its own `]`. */
  lemma CallMatchesAt(s: string, p: nat, coords: string)
    requires Plain(coords)
    requires p + |Call(coords)| <= |s| && s[p..p + |Call(coords)|] == Call(coords)
    ensures MatchAt(s, p) == Some(p + |Opener| + |coords|)
  {
    var call := Call(coords);
    var c := p + |Opener| + |coords|;
    assert s[p..p + |Opener|] == call[..|Opener|] == Opener;
    assert s[c] == call[|call| - 1] == ']';
    forall k | p + |Opener| <= k < c ensures s[k] != ']' && s[k] != '\n' {
      assert s[k] == call[k - p] == coords[k - p - |Opener|];
    }
    assert NoNewline(s, p + |Opener|, c);
  }

  /** A script that is one call yields that call's coordinate text and nothing else. */
  lemma OneCallCaptures(coords: string)
    requires Plain(coords)
    ensures Captures(Call(coords)) == [coords]
  {
    var s := Call(coords);
    assert s[0..|s|] == s;
    CallMatchesAt(s, 0, coords);
    var spans := [Span(0, |s| - 1)];
    assert Exhaustive(s, 0, spans) by {
      forall p | 0 <= p < |s| && MatchAt(s, p).Some? ensures Covered(spans, p) {
        assert spans[0].start <= p <= spans[0].close;
      }
    }
    ScanUnique(s, 0, spans);
    assert Capture(s, spans[0]) == coords;
  }

  /** Two calls written back to back yield their coordinate texts in order. */
  lemma TwoCallsCapture(first: string, second: string)
    requires Plain(first) && Plain(second)
    ensures Captures(Call(first) + Call(second)) == [first, second]
  {
    var a, b := Call(first), Call(second);
    var s := a + b;
    var spans := [Span(0, |a| - 1), Span(|a|, |s| - 1)];
    TwoCallsScan(first, second);
    var cs := Captures(s);
    assert |cs| == 2;
    assert cs[0] == Capture(s, spans[0]) == first;
    assert cs[1] == Capture(s, spans[1]) == second;
  }

  /** The scan of two back-to-back calls is the two calls' spans. */
  lemma TwoCallsScan(first: string, second: string)
    requires Plain(first) && Plain(second)
    ensures Scan(Call(first) + Call(second), 0) ==
      [Span(0, |Call(first)| - 1), Span(|Call(first)|, |Call(first) + Call(second)| - 1)]
  {
    var a, b := Call(first), Call(second);
    var s := a + b;
    var spans := [Span(0, |a| - 1), Span(|a|, |s| - 1)];
    assert AllMatch(s, 0, spans) by {
      assert s[0..|a|] == a && s[|a|..|a| + |b|] == b;
      CallMatchesAt(s, 0, first);
      CallMatchesAt(s, |a|, second);
    }
    assert Exhaustive(s, 0, spans) by {
      forall p | 0 <= p < |s| && MatchAt(s, p).Some? ensures Covered(spans, p) {
        if p < |a| {
          assert spans[0].start <= p <= spans[0].close;
        } else {
          assert spans[1].start <= p <= spans[1].close;
        }
      }
    }
    ScanUnique(s, 0, spans);
  }

  /** Three integers as a robot script writes them: `x,y,z`. */
  function IntTriple(x: int, y: int, z: int): string {
    Decimal.ShowInt(x) + "," + Decimal.ShowInt(y) + "," + Decimal.ShowInt(z)
  }

  /** The tokens of an integer triple are the three integers' texts, and the
      triple contains neither a `]` nor a newline. */
  lemma IntTripleTokens(x: int, y: int, z: int)
    ensures Plain(IntTriple(x, y, z))
    ensures Tokens(IntTriple(x, y, z)) == [Decimal.ShowInt(x), Decimal.ShowInt(y), Decimal.ShowInt(z)]
  {
    var pieces := [Decimal.ShowInt(x), Decimal.ShowInt(y), Decimal.ShowInt(z)];
    ShowIntPlain(x);
    ShowIntPlain(y);
    ShowIntPlain(z);
    assert Plain(IntTriple(x, y, z)) by {
      PlainJoin(pieces[0], pieces[1], pieces[2]);
    }
    assert Text.Split(IntTriple(x, y, z), ',') == pieces by {
      JoinThree(pieces[0], pieces[1], pieces[2], ',');
      Text.SplitJoin(pieces, ',');
    }
  }

  /** An integer's text holds only digits and a sign. */
  lemma ShowIntPlain(n: int)
    ensures ',' !in Decimal.ShowInt(n) && ']' !in Decimal.ShowInt(n) && '\n' !in Decimal.ShowInt(n)
  {
    Decimal.ShowIntAlphabet(n);
  }

  lemma PlainJoin(a: string, b: string, c: string)
    requires Plain(a) && Plain(b) && Plain(c)
    ensures Plain(a + "," + b + "," + c)
  {
    var s := a + "," + b + "," + c;
    forall i | 0 <= i < |s| ensures s[i] != ']' && s[i] != '\n' {
      if i < |a| {
        assert s[i] == a[i];
      } else if i == |a| {
      } else if i < |a| + 1 + |b| {
        assert s[i] == b[i - |a| - 1];
      } else if i == |a| + 1 + |b| {
      } else {
        assert s[i] == c[i - |a| - |b| - 2];
      }
    }
  }

  lemma JoinThree(a: string, b: string, c: string, sep: char)
    ensures Text.Join([a, b, c], sep) == a + [sep] + b + [sep] + c
  {
    assert [a, b, c][1..] == [b, c];
    assert [b, c][1..] == [c];
    assert Text.Join([b, c], sep) == b + [sep] + c;
    assert a + [sep] + (b + [sep] + c) == a + [sep] + b + [sep] + c;
  }

  /** Integer coordinates are read back exactly. */
  lemma IntTripleParses(x: int, y: int, z: int)
    ensures Plain(IntTriple(x, y, z))
    ensures ParseCoords(IntTriple(x, y, z)) == Success([x as real, y as real, z as real])
  {
    var tokens := [Decimal.ShowInt(x), Decimal.ShowInt(y), Decimal.ShowInt(z)];
    var values := [x as real, y as real, z as real];
    assert Plain(IntTriple(x, y, z)) && Tokens(IntTriple(x, y, z)) == tokens by {
      IntTripleTokens(x, y, z);
    }
    assert ParseTokens(tokens, Decimal.ParseNumber) == Success(values) by {
      Decimal.IntegerRoundTrip(x);
      Decimal.IntegerRoundTrip(y);
      Decimal.IntegerRoundTrip(z);
      ThreeTokensParse(tokens, Decimal.ParseNumber, values);
    }
  }

  /** When each of three tokens parses, the waypoint is the list of their values. */
  lemma ThreeTokensParse(tokens: seq<string>, number: string -> Option<real>, values: seq<real>)
    requires |tokens| == 3 && |values| == 3
    requires number(tokens[0]) == Some(values[0])
    requires number(tokens[1]) == Some(values[1])
    requires number(tokens[2]) == Some(values[2])
    ensures ParseTokens(tokens, number) == Success(values)
  {
    assert ParseTokens(tokens, number).value == values;
  }
}
