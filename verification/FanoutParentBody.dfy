/** The normal form under which a parent's body is hashed, and exactly which differences it forgets. */
module FanoutParentBody {
  import opened JsStrings

  const CR: CodeUnit := 0x0D
  const LF: CodeUnit := 0x0A

  predicate Starts(s: JsString, pair: JsString) { pair <= s }

  function ReplaceCrLf(s: JsString): JsString {
    if s == [] then []
    else if Starts(s, [CR, LF]) then [LF] + ReplaceCrLf(s[2..])
    else [s[0]] + ReplaceCrLf(s[1..])
  }

  function ReplaceCr(s: JsString): (t: JsString)
    ensures |t| == |s| && CR !in t
  {
    if s == [] then [] else [if s[0] == CR then LF else s[0]] + ReplaceCr(s[1..])
  }

  function TrimEnd(s: JsString): JsString {
    if s != [] && s[|s| - 1] == LF then TrimEnd(s[..|s| - 1]) else s
  }

  /** normalizeFanoutParentBody. */
  function Normalize(body: JsString): JsString {
    TrimEnd(ReplaceCr(ReplaceCrLf(body))) + [LF]
  }

  // ---- what a body says ----

  /** The lines of a text whose lines end in CR LF, CR or LF. */
  function Lines(s: JsString): (lines: seq<JsString>)
    ensures lines != []
  {
    if s == [] then [[]]
    else if Starts(s, [CR, LF]) then [[]] + Lines(s[2..])
    else if s[0] == CR || s[0] == LF then [[]] + Lines(s[1..])
    else
      var rest := Lines(s[1..]);
      [[s[0]] + rest[0]] + rest[1..]
  }

  /** The lines up to the last that is not empty. */
  function Content(lines: seq<JsString>): seq<JsString> {
    if lines != [] && lines[|lines| - 1] == [] then Content(lines[..|lines| - 1]) else lines
  }

  function JoinLines(lines: seq<JsString>): JsString {
    if lines == [] then []
    else if |lines| == 1 then lines[0]
    else lines[0] + [LF] + JoinLines(lines[1..])
  }

  lemma JoinNext(lines: seq<JsString>)
    requires lines != []
    ensures JoinLines([[]] + lines) == [LF] + JoinLines(lines)
  {
    assert ([[]] + lines)[1..] == lines;
  }

  lemma JoinLonger(c: CodeUnit, lines: seq<JsString>)
    requires lines != []
    ensures JoinLines([[c] + lines[0]] + lines[1..]) == [c] + JoinLines(lines)
  {
    var longer := [[c] + lines[0]] + lines[1..];
    assert longer[1..] == lines[1..];
    if |lines| > 1 {
      assert [c] + (lines[0] + [LF] + JoinLines(lines[1..])) == ([c] + lines[0]) + [LF] + JoinLines(lines[1..]);
    }
  }

  lemma ReplaceNext(c: CodeUnit, s: JsString)
    ensures ReplaceCr([c] + s) == [if c == CR then LF else c] + ReplaceCr(s)
  {
    assert ([c] + s)[1..] == s;
  }

  /** The two replacements leave every line and end it with LF. */
  lemma {:induction false} ReplacementsJoin(s: JsString)
    ensures ReplaceCr(ReplaceCrLf(s)) == JoinLines(Lines(s))
    decreases |s|
  {
    if s == [] {
    } else {
      hide JoinLines, ReplaceCr;
      if Starts(s, [CR, LF]) {
        ReplacementsJoin(s[2..]);
        ReplaceNext(LF, ReplaceCrLf(s[2..]));
        JoinNext(Lines(s[2..]));
      } else {
        ReplacementsJoin(s[1..]);
        ReplaceNext(s[0], ReplaceCrLf(s[1..]));
        JoinNext(Lines(s[1..]));
        JoinLonger(s[0], Lines(s[1..]));
      }
    }
  }

  lemma {:induction false} LinesOfJoined(s: JsString)
    ensures Lines(JoinLines(Lines(s))) == Lines(s)
    decreases |s|
  {
    var u := JoinLines(Lines(s));
    if s == [] {
    } else if Starts(s, [CR, LF]) || s[0] == CR || s[0] == LF {
      var tail := if Starts(s, [CR, LF]) then s[2..] else s[1..];
      LinesOfJoined(tail);
      assert ([[]] + Lines(tail))[1..] == Lines(tail);
      assert u[1..] == JoinLines(Lines(tail));
    } else {
      LinesOfJoined(s[1..]);
      assert Lines(s)[1..] == Lines(s[1..])[1..];
      assert u[1..] == JoinLines(Lines(s[1..]));
    }
  }

  lemma LinesNext(c: CodeUnit, s: JsString)
    requires c != CR
    ensures Lines([c] + s) == if c == LF then [[]] + Lines(s) else [[c] + Lines(s)[0]] + Lines(s)[1..]
  {
    assert ([c] + s)[1..] == s;
  }

  lemma FirstOfMore(c: CodeUnit, lines: seq<JsString>)
    requires lines != []
    ensures [[c] + (lines + [[]])[0]] + (lines + [[]])[1..] == [[c] + lines[0]] + lines[1..] + [[]]
  {
    assert (lines + [[]])[0] == lines[0] && (lines + [[]])[1..] == lines[1..] + [[]];
  }

  lemma MoreAfter(lines: seq<JsString>)
    ensures [[]] + (lines + [[]]) == [[]] + lines + [[]]
  {
  }

  lemma {:induction false} LinesEnd(s: JsString)
    requires CR !in s
    ensures Lines(s + [LF]) == Lines(s) + [[]]
    decreases |s|
  {
    EmptyLines();
    if s == [] {
      assert [LF] + [] == [LF] && [] + [LF] == [LF];
      LinesNext(LF, []);
    } else {
      var c, rest := s[0], s[1..];
      assert s == [c] + rest && s + [LF] == [c] + (rest + [LF]) && c in s;
      LinesEnd(rest);
      LinesNext(c, rest);
      LinesNext(c, rest + [LF]);
      var lines := Lines(rest);
      hide Lines;
      FirstOfMore(c, lines);
      MoreAfter(lines);
    }
  }

  /** A text that does not end in LF ends in a line that is not empty. */
  lemma {:induction false} LastLine(s: JsString)
    requires CR !in s && s != [] && s[|s| - 1] != LF
    ensures Lines(s)[|Lines(s)| - 1] != []
    decreases |s|
  {
    var c, rest := s[0], s[1..];
    assert s == [c] + rest && c in s;
    LinesNext(c, rest);
    if rest == [] {
      EmptyLines();
    } else {
      LastLine(rest);
      var lines := Lines(rest);
      hide Lines;
      assert ([[]] + lines)[|lines|] == lines[|lines| - 1];
      if |lines| > 1 { assert ([[c] + lines[0]] + lines[1..])[|lines| - 1] == lines[|lines| - 1]; }
    }
  }

  lemma ContentNext(lines: seq<JsString>)
    ensures Content(lines + [[]]) == Content(lines)
  {
    assert (lines + [[]])[..|lines|] == lines;
  }

  lemma TrimNext(x: JsString)
    ensures TrimEnd(x + [LF]) == TrimEnd(x)
  {
    assert (x + [LF])[..|x|] == x;
  }

  lemma {:induction false} TrimKeepsContent(u: JsString)
    requires CR !in u && u == JoinLines(Lines(u))
    ensures TrimEnd(u) == JoinLines(Content(Lines(u)))
    ensures Content(Lines(u)) == Content(Lines(TrimEnd(u)))
    ensures CR !in TrimEnd(u) && TrimEnd(TrimEnd(u) + [LF]) == TrimEnd(u)
    decreases |u|
  {
    hide Lines, JoinLines;
    if u != [] && u[|u| - 1] == LF {
      hide Content, TrimEnd;
      var x := u[..|u| - 1];
      assert u == x + [LF];
      LinesEnd(x);
      UniversalFixpoint(x);
      TrimKeepsContent(x);
      ContentNext(Lines(x));
      TrimNext(x);
    } else {
      EmptyLines();
      if u != [] { LastLine(u); }
      TrimNext(u);
    }
  }

  lemma EmptyLines()
    ensures Lines([]) == [[]] && Content([[]]) == [] && JoinLines([]) == [] && TrimEnd([]) == []
    ensures Content(Lines([])) == [] && JoinLines(Content(Lines([]))) == []
  {
  }

  lemma {:induction false} NothingReplaced(u: JsString)
    requires CR !in u
    ensures ReplaceCrLf(u) == u && ReplaceCr(u) == u
    decreases |u|
  {
    if u != [] {
      assert u[0] in u && u == [u[0]] + u[1..];
      NothingReplaced(u[1..]);
    }
  }

  lemma UniversalFixpoint(u: JsString)
    requires CR !in u
    ensures ReplaceCr(ReplaceCrLf(u)) == u && JoinLines(Lines(u)) == u
  {
    hide Lines, JoinLines, ReplaceCr, ReplaceCrLf;
    NothingReplaced(u);
    ReplacementsJoin(u);
  }

  /** Two bodies have one normal form exactly when they have the same lines up to empty ones at the end. */
  lemma NormalFormMeans(a: JsString, b: JsString)
    ensures Normalize(a) == Normalize(b) <==> Content(Lines(a)) == Content(Lines(b))
  {
    hide Lines, Content, TrimEnd, ReplaceCr, ReplaceCrLf, JoinLines;
    NormalFormIsContent(a);
    NormalFormIsContent(b);
    if Normalize(a) == Normalize(b) {
      var n := Normalize(a);
      assert n[..|n| - 1] == JoinLines(Content(Lines(a))) == JoinLines(Content(Lines(b)));
    }
  }

  lemma NormalFormIsContent(a: JsString)
    ensures Normalize(a) == JoinLines(Content(Lines(a))) + [LF]
    ensures Content(Lines(JoinLines(Content(Lines(a))))) == Content(Lines(a))
    ensures TrimEnd(Normalize(a)) + [LF] == Normalize(a) && CR !in Normalize(a)
  {
    hide Lines, Content, TrimEnd, ReplaceCr, ReplaceCrLf, JoinLines;
    var u := ReplaceCr(ReplaceCrLf(a));
    ReplacementsJoin(a);
    LinesOfJoined(a);
    TrimKeepsContent(u);
  }

  lemma NormalizeIdempotent(a: JsString)
    ensures Normalize(Normalize(a)) == Normalize(a)
  {
    hide Lines, Content, TrimEnd, ReplaceCr, ReplaceCrLf, JoinLines;
    NormalFormIsContent(a);
    UniversalFixpoint(Normalize(a));
  }
}
