/** The reference parser accepts exactly the rendered well-formed trees, and reads back the tree. */
module JsonGrammarProofs {
  import opened JsStrings
  import opened JsonGrammar

  // ---- reading pieces of a concatenation ----

  lemma AtParts(s: JsString, i: int, a: JsString, b: JsString)
    ensures At(s, i, Cat(a, b)) <==> At(s, i, a) && At(s, i + |a|, b)
  {
    if 0 <= i && i + |a| + |b| <= |s| {
      var whole := s[i..i + |a| + |b|];
      assert whole[..|a|] == s[i..i + |a|] && whole[|a|..] == s[i + |a|..i + |a| + |b|];
      assert whole == whole[..|a|] + whole[|a|..];
      assert Cat(a, b)[..|a|] == a && Cat(a, b)[|a|..] == b;
    }
  }

  lemma EmptyAt(s: JsString, i: nat)
    requires i <= |s|
    ensures At(s, i, [])
  {
  }

  lemma AtSlice(s: JsString, i: nat, j: nat)
    requires i <= j <= |s|
    ensures At(s, i, s[i..j])
  {
  }

  lemma AtText(s: JsString, i: nat, t: JsString)
    requires At(s, i, t)
    ensures i + |t| <= |s| && s[i..i + |t|] == t
  {
  }

  /** Skipping the white space `w` reaches the character after it. */
  lemma SkipsTo(s: JsString, i: nat, w: JsString)
    requires At(s, i, w) && AllSpace(w) && i + |w| < |s| && !Space(s[i + |w|])
    ensures SkipSpace(s, i) == i + |w| && s[i..i + |w|] == w
  {
    SkipSpaceOver(s, i, w);
  }

  lemma AtIndex(s: JsString, i: nat, t: JsString, k: nat)
    requires At(s, i, t) && k < |t|
    ensures i + k < |s| && s[i + k] == t[k]
  {
    assert s[i + k] == s[i..i + |t|][k];
  }

  lemma AtOne(s: JsString, i: nat, c: CodeUnit)
    ensures At(s, i, [c]) <==> Starts(s, i, c)
  {
  }

  /** Nothing at `n` would extend a number literal ending there. */
  predicate NumberStops(s: JsString, n: nat) {
    n >= |s| || (!Digit(s[n]) && s[n] != POINT && s[n] != 0x65 && s[n] != 0x45)
  }

  lemma SpaceStops(s: JsString, n: nat, w: JsString)
    requires At(s, n, w) && AllSpace(w) && NumberStops(s, n + |w|)
    ensures NumberStops(s, n)
  {
    if w != [] { AtIndex(s, n, w, 0); }
  }

  lemma {:induction false} SkipSpaceOver(s: JsString, i: nat, w: JsString)
    requires At(s, i, w) && AllSpace(w) && (i + |w| == |s| || !Space(s[i + |w|]))
    ensures SkipSpace(s, i) == i + |w|
    decreases |w|
  {
    if w != [] {
      assert s[i] == w[0] by { assert s[i] == s[i..i + |w|][0]; }
      assert s[i + 1..i + 1 + |w[1..]|] == s[i..i + |w|][1..];
      SkipSpaceOver(s, i + 1, w[1..]);
    }
  }

  lemma {:induction false} DigitsEndOver(s: JsString, i: nat, d: JsString)
    requires At(s, i, d) && AllDigits(d) && (i + |d| == |s| || !Digit(s[i + |d|]))
    ensures DigitsEnd(s, i) == i + |d|
    decreases |d|
  {
    if d != [] {
      assert s[i] == d[0] by { assert s[i] == s[i..i + |d|][0]; }
      assert s[i + 1..i + 1 + |d[1..]|] == s[i..i + |d|][1..];
      DigitsEndOver(s, i + 1, d[1..]);
    }
  }

  // ---- numbers ----

  lemma NumeralSound(s: JsString, i: nat)
    requires i <= |s| && ParseNumeral(s, i).Ok?
    ensures At(s, i, RenderNumeral(ParseNumeral(s, i).tree))
    ensures ParseNumeral(s, i).next == i + |RenderNumeral(ParseNumeral(s, i).tree)|
  {
    hide At, Cat, AllDigits, DigitsEnd, WfNumeral, ExponentMark, ParseFraction, ParseExponent;
    var n := ParseNumeral(s, i).tree;
    var sign := if n.neg then [MINUS] else [];
    var w := i + |sign|;
    var e := w + |n.whole|;
    FractionSound(s, e);
    var (frac, f) := ParseFraction(s, e);
    ExponentSound(s, f);
    var (mark, exp, z) := ParseExponent(s, f);
    var point := if frac == [] then [] else Cat([POINT], frac);
    AtSlice(s, w, e);
    EmptyAt(s, i);
    AtOne(s, i, MINUS);
    AtParts(s, f, mark, exp);
    AtParts(s, e, point, Cat(mark, exp));
    AtParts(s, w, n.whole, Cat(point, Cat(mark, exp)));
    AtParts(s, i, sign, Cat(n.whole, Cat(point, Cat(mark, exp))));
  }

  lemma FractionSound(s: JsString, i: nat)
    requires i <= |s|
    ensures var (frac, f) := ParseFraction(s, i);
            var t := if frac == [] then [] else Cat([POINT], frac);
            At(s, i, t) && f == i + |t|
  {
    var (frac, f) := ParseFraction(s, i);
    if frac != [] {
      AtOne(s, i, POINT);
      AtSlice(s, i + 1, f);
      AtParts(s, i, [POINT], frac);
    }
  }

  lemma ExponentSound(s: JsString, i: nat)
    requires i <= |s|
    ensures var (mark, exp, z) := ParseExponent(s, i);
            At(s, i, mark) && At(s, i + |mark|, exp) && z == i + |mark| + |exp|
  {
    var (mark, exp, z) := ParseExponent(s, i);
    if mark != [] {
      AtSlice(s, i, i + |mark|);
      AtSlice(s, i + |mark|, z);
    }
  }

  lemma ExponentComplete(s: JsString, i: nat, mark: JsString, exp: JsString)
    requires At(s, i, Cat(mark, exp)) && AllDigits(exp) && (mark == [] <==> exp == []) && (mark != [] ==> ExponentMark(mark))
    requires NumberStops(s, i + |Cat(mark, exp)|)
    ensures ParseExponent(s, i) == (mark, exp, i + |Cat(mark, exp)|)
    ensures i >= |s| || (!Digit(s[i]) && s[i] != POINT)
  {
    hide Cat;
    AtParts(s, i, mark, exp);
    if mark != [] {
      var d := i + |mark|;
      assert s[i..d] == mark && s[d..d + |exp|] == exp;
      assert s[i] == mark[0] && s[d] == exp[0];
      if |mark| == 2 { assert s[i + 1] == mark[1]; }
      DigitsEndOver(s, d, exp);
    }
  }

  lemma FractionComplete(s: JsString, i: nat, frac: JsString)
    requires At(s, i, if frac == [] then [] else Cat([POINT], frac)) && AllDigits(frac)
    requires var z := i + if frac == [] then 0 else 1 + |frac|; z >= |s| || !Digit(s[z])
    requires frac == [] ==> !Starts(s, i, POINT)
    ensures ParseFraction(s, i) == (frac, i + if frac == [] then 0 else 1 + |frac|)
    ensures i >= |s| || !Digit(s[i])
  {
    hide At, Cat, DigitsEnd;
    if frac != [] {
      AtParts(s, i, [POINT], frac);
      AtText(s, i + 1, frac);
      AtIndex(s, i + 1, frac, 0);
      AtOne(s, i, POINT);
      DigitsEndOver(s, i + 1, frac);
    }
  }

  lemma NumeralComplete(s: JsString, i: nat, n: Numeral)
    requires WfNumeral(n) && At(s, i, RenderNumeral(n)) && NumberStops(s, i + |RenderNumeral(n)|)
    ensures ParseNumeral(s, i) == Ok(n, i + |RenderNumeral(n)|)
    ensures Starts(s, i, MINUS) || (i < |s| && Digit(s[i]))
  {
    hide At, Cat, AllDigits, DigitsEnd, ExponentMark, ParseFraction, ParseExponent;
    var sign := if n.neg then [MINUS] else [];
    var point := if n.frac == [] then [] else Cat([POINT], n.frac);
    var w, e := i + |sign|, i + |sign| + |n.whole|;
    var f := e + |point|;
    AtParts(s, i, sign, Cat(n.whole, Cat(point, Cat(n.mark, n.exp))));
    AtParts(s, w, n.whole, Cat(point, Cat(n.mark, n.exp)));
    AtParts(s, e, point, Cat(n.mark, n.exp));
    AtIndex(s, w, n.whole, 0);
    if n.neg { AtOne(s, i, MINUS); }
    ExponentComplete(s, f, n.mark, n.exp);
    AtParts(s, f, n.mark, n.exp);
    AtParts(s, e, [POINT], n.frac);
    AtOne(s, e, POINT);
    FractionComplete(s, e, n.frac);
    WholeComplete(s, w, n.whole);
  }

  lemma WholeComplete(s: JsString, w: nat, whole: JsString)
    requires At(s, w, whole) && whole != [] && AllDigits(whole) && (whole[0] == 0x30 ==> |whole| == 1)
    requires w + |whole| == |s| || !Digit(s[w + |whole|])
    ensures w < |s| && Digit(s[w]) && s[w] == whole[0]
    ensures (if s[w] == 0x30 then w + 1 else DigitsEnd(s, w)) == w + |whole|
    ensures s[w..w + |whole|] == whole
  {
    AtIndex(s, w, whole, 0);
    if whole[0] != 0x30 { DigitsEndOver(s, w, whole); }
  }

  // ---- the regular expression matches as far as it can ----

  /** A number literal of the grammar is written at `i`. */
  predicate NumeralAt(s: JsString, i: nat, n: Numeral) { WfNumeral(n) && At(s, i, RenderNumeral(n)) }

  ghost predicate LongestNumeral(s: JsString, i: nat, n: Numeral) {
    NumeralAt(s, i, n) && forall m :: NumeralAt(s, i, m) ==> |RenderNumeral(m)| <= |RenderNumeral(n)|
  }

  /** Where the parts of a literal are. */
  lemma NumeralParts(s: JsString, i: nat, m: Numeral)
    requires NumeralAt(s, i, m)
    ensures m.neg <==> Starts(s, i, MINUS)
    ensures var w := i + if m.neg then 1 else 0;
            var e := w + |m.whole|;
            var f := e + if m.frac == [] then 0 else 1 + |m.frac|;
            && At(s, w, m.whole) && w < |s| && s[w] == m.whole[0]
            && (m.frac != [] ==> Starts(s, e, POINT) && At(s, e + 1, m.frac))
            && At(s, f, m.mark) && At(s, f + |m.mark|, m.exp) && |RenderNumeral(m)| == f + |m.mark| + |m.exp| - i
  {
    hide At, Cat, AllDigits, ExponentMark;
    var sign := if m.neg then [MINUS] else [];
    var point := if m.frac == [] then [] else Cat([POINT], m.frac);
    var w := i + |sign|;
    var e := w + |m.whole|;
    AtParts(s, i, sign, Cat(m.whole, Cat(point, Cat(m.mark, m.exp))));
    AtParts(s, w, m.whole, Cat(point, Cat(m.mark, m.exp)));
    AtParts(s, e, point, Cat(m.mark, m.exp));
    AtParts(s, e + |point|, m.mark, m.exp);
    AtIndex(s, w, m.whole, 0);
    FirstIsDigit(m);
    if m.neg { AtOne(s, i, MINUS); }
    AtParts(s, e, [POINT], m.frac);
    AtOne(s, e, POINT);
  }

  lemma FirstIsDigit(m: Numeral)
    requires WfNumeral(m)
    ensures Digit(m.whole[0]) && m.whole[0] != MINUS
  {
  }

  lemma {:induction false} DigitsWithin(s: JsString, i: nat, d: JsString)
    requires i <= |s| && At(s, i, d) && AllDigits(d)
    ensures i + |d| <= DigitsEnd(s, i)
    decreases |d|
  {
    if d != [] {
      AtIndex(s, i, d, 0);
      assert s[i + 1..i + 1 + |d[1..]|] == s[i..i + |d|][1..];
      DigitsWithin(s, i + 1, d[1..]);
    }
  }

  lemma DigitBefore(s: JsString, i: nat, k: nat)
    requires i <= |s| && i <= k < DigitsEnd(s, i)
    ensures Digit(s[k])
  {
    assert s[i..DigitsEnd(s, i)][k - i] == s[k];
  }

  /** Nothing but digits and the end of the text follows a literal without fraction and exponent that stops early. */
  lemma NothingAfterDigit(s: JsString, i: nat, m: Numeral, f: nat)
    requires NumeralAt(s, i, m) && f == i + (if m.neg then 1 else 0) + |m.whole| + if m.frac == [] then 0 else 1 + |m.frac|
    requires f < |s| && (Digit(s[f]) || s[f] == POINT)
    ensures m.mark == [] && m.exp == []
  {
    NumeralParts(s, i, m);
    StartsMark(s, f, m.mark);
  }

  lemma StartsMark(s: JsString, f: nat, mark: JsString)
    requires At(s, f, mark) && (mark != [] ==> ExponentMark(mark))
    ensures mark != [] ==> f < |s| && (s[f] == 0x65 || s[f] == 0x45)
  {
    if mark != [] { AtIndex(s, f, mark, 0); }
  }

  lemma ExponentLongest(s: JsString, f: nat, mark: JsString, exp: JsString)
    requires f <= |s| && At(s, f, mark) && At(s, f + |mark|, exp) && AllDigits(exp)
    requires (mark == [] <==> exp == []) && (mark != [] ==> ExponentMark(mark))
    ensures f + |mark| + |exp| <= ParseExponent(s, f).2
  {
    if mark != [] {
      var d := f + |mark|;
      AtIndex(s, f, mark, 0);
      AtIndex(s, d, exp, 0);
      if |mark| == 2 { AtIndex(s, f, mark, 1); }
      DigitsWithin(s, d, exp);
    }
  }

  lemma FractionLongest(s: JsString, e: nat, frac: JsString)
    requires e <= |s| && frac != [] && Starts(s, e, POINT) && At(s, e + 1, frac) && AllDigits(frac)
    ensures ParseFraction(s, e).0 != [] && e + 1 + |frac| <= ParseFraction(s, e).1 == DigitsEnd(s, e + 1)
  {
    AtIndex(s, e + 1, frac, 0);
    DigitsWithin(s, e + 1, frac);
  }

  /** Behind the same integer part nothing longer can be read. */
  lemma TailLongest(s: JsString, i: nat, m: Numeral, e: nat)
    requires NumeralAt(s, i, m) && e == i + (if m.neg then 1 else 0) + |m.whole|
    ensures e <= |s| && i + |RenderNumeral(m)| <= ParseExponent(s, ParseFraction(s, e).1).2
  {
    hide At, RenderNumeral, ParseExponent;
    NumeralParts(s, i, m);
    AtBounds(s, i, m);
    var (frac, f) := ParseFraction(s, e);
    var f' := e + if m.frac == [] then 0 else 1 + |m.frac|;
    if m.frac != [] { FractionLongest(s, e, m.frac); }
    if f' < f {
      if m.frac != [] { DigitBefore(s, e + 1, f'); }
      NothingAfterDigit(s, i, m, f');
    } else {
      ExponentLongest(s, f, m.mark, m.exp);
    }
  }

  lemma AtBounds(s: JsString, i: nat, m: Numeral)
    requires NumeralAt(s, i, m)
    ensures i + |RenderNumeral(m)| <= |s|
  {
  }

  /** The reference parser reads the longest literal at a place, and fails only where there is none. */
  lemma LongestMatch(s: JsString, i: nat)
    requires i <= |s|
    ensures match ParseNumeral(s, i)
            case Ok(n, next) => LongestNumeral(s, i, n) && next == i + |RenderNumeral(n)|
            case Err(code) => code == JsonInvalid && forall n :: !NumeralAt(s, i, n)
  {
    hide At, RenderNumeral, ParseFraction, ParseExponent, WfNumeral, AllDigits;
    if ParseNumeral(s, i).Ok? { NumeralSound(s, i); }
    forall m | NumeralAt(s, i, m)
      ensures ParseNumeral(s, i).Ok? && |RenderNumeral(m)| <= |RenderNumeral(ParseNumeral(s, i).tree)|
    {
      NotLonger(s, i, m);
    }
  }

  lemma NotLonger(s: JsString, i: nat, m: Numeral)
    requires i <= |s| && NumeralAt(s, i, m)
    ensures ParseNumeral(s, i).Ok? && i + |RenderNumeral(m)| <= ParseNumeral(s, i).next
  {
    hide At, RenderNumeral, ParseFraction, ParseExponent;
    NumeralParts(s, i, m);
    FirstIsDigit(m);
    var w := i + if m.neg then 1 else 0;
    var e, e' := if s[w] == 0x30 then w + 1 else DigitsEnd(s, w), w + |m.whole|;
    DigitsWithin(s, w, m.whole);
    if e' < e {
      DigitBefore(s, w, e');
      NothingAfterDigit(s, i, m, e');
    } else {
      TailLongest(s, i, m, e);
    }
  }

  /** A text determines the literal written there by its length. */
  lemma SameLength(s: JsString, i: nat, m: Numeral, n: Numeral)
    requires i <= |s| && NumeralAt(s, i, m) && NumeralAt(s, i, n) && |RenderNumeral(m)| == |RenderNumeral(n)|
    ensures m == n
  {
    hide RenderNumeral;
    var t := s[i..i + |RenderNumeral(n)|];
    AtText(s, i, RenderNumeral(n));
    AtText(s, i, RenderNumeral(m));
    NumeralComplete(t, 0, m);
    NumeralComplete(t, 0, n);
  }

  lemma OneLongest(s: JsString, i: nat, n: Numeral)
    requires i <= |s| && LongestNumeral(s, i, n)
    ensures forall m :: LongestNumeral(s, i, m) ==> m == n
  {
    forall m | LongestNumeral(s, i, m) ensures m == n { SameLength(s, i, m, n); }
  }

  // ---- strings ----

  lemma PieceSound(s: JsString, i: nat)
    requires i < |s| && ParsePiece(s, i).Ok?
    ensures At(s, i, RenderPiece(ParsePiece(s, i).tree))
    ensures ParsePiece(s, i).next == i + |RenderPiece(ParsePiece(s, i).tree)|
  {
    var p := ParsePiece(s, i).tree;
    if p.Hex? {
      assert s[i..i + 6] == [BACKSLASH, 0x75] + s[i + 2..i + 6];
    }
  }

  lemma {:induction false} PiecesSound(s: JsString, i: nat)
    requires i <= |s| && ParsePieces(s, i).Ok?
    ensures var r := ParsePieces(s, i);
            At(s, i, RenderPieces(r.tree)) && Starts(s, i + |RenderPieces(r.tree)|, QUOTE)
            && r.next == i + |RenderPieces(r.tree)| + 1
    decreases |s| - i
  {
    hide At, Cat, ParsePiece, RenderPiece;
    EmptyAt(s, i);
    if s[i] != QUOTE {
      var Ok(p, n) := ParsePiece(s, i);
      PieceSound(s, i);
      PiecesSound(s, n);
      var ps := ParsePieces(s, n).tree;
      assert ([p] + ps)[1..] == ps;
      AtParts(s, i, RenderPiece(p), RenderPieces(ps));
    }
  }

  lemma PieceComplete(s: JsString, i: nat, p: Piece)
    requires WfPiece(p) && At(s, i, RenderPiece(p))
    ensures i < |s| && s[i] != QUOTE && ParsePiece(s, i) == Ok(p, i + |RenderPiece(p)|)
  {
    var t := RenderPiece(p);
    AtIndex(s, i, t, 0);
    if !p.Raw? { AtIndex(s, i, t, 1); }
    if p.Hex? {
      AtParts(s, i, [BACKSLASH, 0x75], p.digits);
    }
  }

  lemma {:induction false} PiecesComplete(s: JsString, i: nat, ps: seq<Piece>)
    requires WfPieces(ps) && At(s, i, RenderPieces(ps)) && Starts(s, i + |RenderPieces(ps)|, QUOTE)
    ensures ParsePieces(s, i) == Ok(ps, i + |RenderPieces(ps)| + 1)
    decreases |ps|
  {
    hide At, Cat, ParsePiece, RenderPiece;
    if ps != [] {
      var n := i + |RenderPiece(ps[0])|;
      AtParts(s, i, RenderPiece(ps[0]), RenderPieces(ps[1..]));
      PieceComplete(s, i, ps[0]);
      PiecesComplete(s, n, ps[1..]);
      assert [ps[0]] + ps[1..] == ps;
    }
  }

  lemma StringSound(strict: bool, s: JsString, i: nat)
    requires Starts(s, i, QUOTE) && ParseString(strict, s, i).Ok?
    ensures At(s, i, RenderString(ParseString(strict, s, i).tree))
    ensures ParseString(strict, s, i).next == i + |RenderString(ParseString(strict, s, i).tree)|
  {
    hide At, Cat, ScalarString, Decode, RenderPieces, ParsePieces, WfPieces;
    PiecesSound(s, i + 1);
    Quoted(s, i, RenderPieces(ParsePieces(s, i + 1).tree));
  }

  lemma Quoted(s: JsString, i: nat, t: JsString)
    ensures At(s, i, Cat([QUOTE], Cat(t, [QUOTE]))) <==> Starts(s, i, QUOTE) && At(s, i + 1, t) && Starts(s, i + 1 + |t|, QUOTE)
  {
    AtParts(s, i, [QUOTE], Cat(t, [QUOTE]));
    AtParts(s, i + 1, t, [QUOTE]);
    AtOne(s, i, QUOTE);
    AtOne(s, i + 1 + |t|, QUOTE);
  }

  lemma StringComplete(strict: bool, s: JsString, i: nat, ps: seq<Piece>)
    requires WfString(strict, ps) && At(s, i, RenderString(ps))
    ensures Starts(s, i, QUOTE) && ParseString(strict, s, i) == Ok(ps, i + |RenderString(ps)|)
  {
    hide At, Cat, ScalarString;
    Quoted(s, i, RenderPieces(ps));
    PiecesComplete(s, i + 1, ps);
  }

  // ---- soundness: what the parser accepts is the text of the tree it returns ----

  lemma {:induction false} ValueSound(strict: bool, s: JsString, i: nat)
    requires i <= |s| && ParseValue(strict, s, i).Ok?
    ensures var r := ParseValue(strict, s, i); At(s, i, Render(r.tree)) && r.next == i + |Render(r.tree)|
    decreases |s| - i, 0
  {
    var d := ParseValue(strict, s, i).tree;
    if Starts(s, i, OPEN_BRACE) {
      ObjectSound(strict, s, i);
    } else if Starts(s, i, OPEN_BRACKET) {
      ArraySound(strict, s, i);
    } else if Starts(s, i, QUOTE) {
      StringSound(strict, s, i);
    } else if d.DNum? {
      NumeralSound(s, i);
    }
  }

  lemma {:induction false} ArraySound(strict: bool, s: JsString, i: nat)
    requires Starts(s, i, OPEN_BRACKET) && ParseValue(strict, s, i).Ok?
    ensures var r := ParseValue(strict, s, i); At(s, i, Render(r.tree)) && r.next == i + |Render(r.tree)|
    decreases |s| - i - 1, 2
  {
    hide At, Cat, AllSpace, WfElems, RenderElems, ParseElems;
    var DArr(pad, es) := ParseValue(strict, s, i).tree;
    Bracketed(s, i, OPEN_BRACKET, pad, RenderElems(es), CLOSE_BRACKET);
    EmptyAt(s, i + 1);
    AtSlice(s, i + 1, SkipSpace(s, i + 1));
    if es.ECons? { ElemsSound(strict, s, i + 1); } else { NoElems(s, i + 1 + |pad|); }
  }

  lemma NoElems(s: JsString, i: nat)
    requires i <= |s|
    ensures At(s, i, RenderElems(ENil)) && RenderElems(ENil) == []
    ensures At(s, i, RenderMembers(MNil)) && RenderMembers(MNil) == []
  {
  }

  lemma {:induction false} ObjectSound(strict: bool, s: JsString, i: nat)
    requires Starts(s, i, OPEN_BRACE) && ParseValue(strict, s, i).Ok?
    ensures var r := ParseValue(strict, s, i); At(s, i, Render(r.tree)) && r.next == i + |Render(r.tree)|
    decreases |s| - i - 1, 2
  {
    hide At, Cat, AllSpace, WfMembers, RenderMembers, ParseMembers;
    var DObj(pad, ms) := ParseValue(strict, s, i).tree;
    Bracketed(s, i, OPEN_BRACE, pad, RenderMembers(ms), CLOSE_BRACE);
    EmptyAt(s, i + 1);
    AtSlice(s, i + 1, SkipSpace(s, i + 1));
    if ms.MCons? { MembersSound(strict, s, i + 1, {}); } else { NoElems(s, i + 1 + |pad|); }
  }

  lemma Bracketed(s: JsString, i: nat, open: CodeUnit, pad: JsString, body: JsString, close: CodeUnit)
    ensures At(s, i, Cat([open], Cat(pad, Cat(body, [close]))))
       <==> Starts(s, i, open) && At(s, i + 1, pad) && At(s, i + 1 + |pad|, body) && Starts(s, i + 1 + |pad| + |body|, close)
  {
    hide At, Cat;
    AtParts(s, i, [open], Cat(pad, Cat(body, [close])));
    AtParts(s, i + 1, pad, Cat(body, [close]));
    AtParts(s, i + 1 + |pad|, body, [close]);
    AtOne(s, i, open);
    AtOne(s, i + 1 + |pad| + |body|, close);
  }

  lemma ElementParts(s: JsString, i: nat, pre: JsString, t: JsString, post: JsString, tail: JsString)
    ensures At(s, i, Cat(pre, Cat(t, Cat(post, tail))))
       <==> At(s, i, pre) && At(s, i + |pre|, t) && At(s, i + |pre| + |t|, post) && At(s, i + |pre| + |t| + |post|, tail)
  {
    hide At, Cat;
    AtParts(s, i, pre, Cat(t, Cat(post, tail)));
    AtParts(s, i + |pre|, t, Cat(post, tail));
    AtParts(s, i + |pre| + |t|, post, tail);
  }

  lemma HeadParts(s: JsString, i: nat, pre: JsString, name: JsString, gap: JsString, lead: JsString)
    ensures At(s, i, Cat(pre, Cat(name, Cat(gap, Cat([COLON], lead)))))
       <==> var c := i + |pre| + |name| + |gap|;
            && At(s, i, pre) && At(s, i + |pre|, name) && At(s, i + |pre| + |name|, gap) && Starts(s, c, COLON)
            && At(s, c + 1, lead)
  {
    hide At, Cat;
    var c := i + |pre| + |name| + |gap|;
    ElementParts(s, i, pre, name, gap, Cat([COLON], lead));
    AtParts(s, c, [COLON], lead);
    AtOne(s, c, COLON);
  }

  /** What follows a comma, or nothing. */
  lemma CommaTail(s: JsString, k: nat, rest: JsString)
    requires k <= |s|
    ensures At(s, k, Cat([COMMA], rest)) <==> Starts(s, k, COMMA) && At(s, k + 1, rest)
    ensures At(s, k, [])
  {
    hide Cat;
    AtParts(s, k, [COMMA], rest);
    AtOne(s, k, COMMA);
  }

  /** How an accepted list of elements was read. */
  lemma ElemsRead(strict: bool, s: JsString, i: nat)
    requires i <= |s| && ParseElems(strict, s, i).Ok?
    ensures var r, v := ParseElems(strict, s, i), ParseValue(strict, s, SkipSpace(s, i));
            && v.Ok? && r.tree.ECons?
            && var k := SkipSpace(s, v.next);
               && r.tree.pre == s[i..SkipSpace(s, i)] && r.tree.doc == v.tree && r.tree.post == s[v.next..k]
               && (if Starts(s, k, CLOSE_BRACKET) then r.tree.rest.ENil? && r.next == k + 1
                   else Starts(s, k, COMMA) && var q := ParseElems(strict, s, k + 1);
                        q.Ok? && r.tree.rest == q.tree && r.next == q.next && q.tree.ECons?)
  {
    hide ParseValue, SkipSpace, Wf, WfElems;
  }

  lemma RenderedElems(es: Elems)
    requires es.ECons?
    ensures RenderElems(es)
            == Cat(es.pre, Cat(Render(es.doc), Cat(es.post, if es.rest.ENil? then [] else Cat([COMMA], RenderElems(es.rest)))))
  {
  }

  lemma {:induction false} ElemsSound(strict: bool, s: JsString, i: nat)
    requires i <= |s| && ParseElems(strict, s, i).Ok?
    ensures var r := ParseElems(strict, s, i); var n := i + |RenderElems(r.tree)|;
            At(s, i, RenderElems(r.tree)) && Starts(s, n, CLOSE_BRACKET) && r.next == n + 1
    decreases |s| - i, 1
  {
    hide At, Cat, AllSpace, Wf, WfElems, Render, RenderElems, ParseValue, ParseElems, SkipSpace;
    var es := ParseElems(strict, s, i).tree;
    ElemsRead(strict, s, i);
    var j := SkipSpace(s, i);
    ValueSound(strict, s, j);
    var n := ParseValue(strict, s, j).next;
    var k := SkipSpace(s, n);
    AtSlice(s, i, j);
    AtSlice(s, n, k);
    RenderedElems(es);
    if !Starts(s, k, CLOSE_BRACKET) {
      ElemsSound(strict, s, k + 1);
    }
    CommaTail(s, k, RenderElems(es.rest));
    ElementParts(s, i, es.pre, Render(es.doc), es.post, if es.rest.ENil? then [] else Cat([COMMA], RenderElems(es.rest)));
  }

  lemma HeadSound(strict: bool, s: JsString, i: nat, seen: set<JsString>)
    requires i <= |s| && ParseHead(strict, s, i, seen).Ok?
    ensures var r := ParseHead(strict, s, i, seen); At(s, i, RenderHead(r.tree)) && r.next == i + |RenderHead(r.tree)|
  {
    hide At, Cat, AllSpace, WfHead, WfPieces, RenderString, ParseString, SkipSpace, Decode;
    var Head(pre, name, gap, lead) := ParseHead(strict, s, i, seen).tree;
    var j := SkipSpace(s, i);
    StringSound(strict, s, j);
    var g := ParseString(strict, s, j).next;
    var c := SkipSpace(s, g);
    AtSlice(s, i, j);
    AtSlice(s, g, c);
    AtSlice(s, c + 1, SkipSpace(s, c + 1));
    HeadParts(s, i, pre, RenderString(name), gap, lead);
  }

  /** How an accepted list of members was read. */
  lemma MembersRead(strict: bool, s: JsString, i: nat, seen: set<JsString>)
    requires i <= |s| && ParseMembers(strict, s, i, seen).Ok?
    ensures var r, h := ParseMembers(strict, s, i, seen), ParseHead(strict, s, i, seen);
            && h.Ok? && WfPieces(h.tree.name) && r.tree.MCons? && r.tree.head == h.tree
            && var v := ParseValue(strict, s, h.next);
               && v.Ok?
               && var k := SkipSpace(s, v.next);
                  && r.tree.doc == v.tree && r.tree.post == s[v.next..k]
                  && (if Starts(s, k, CLOSE_BRACE) then r.tree.rest.MNil? && r.next == k + 1
                      else Starts(s, k, COMMA) && var q := ParseMembers(strict, s, k + 1, seen + {Decode(h.tree.name)});
                           q.Ok? && r.tree.rest == q.tree && r.next == q.next && q.tree.MCons?)
  {
    hide ParseValue, ParseHead, SkipSpace, Wf, WfMembers, WfPieces, Decode;
  }

  lemma RenderedMembers(ms: Members)
    requires ms.MCons?
    ensures RenderMembers(ms)
            == Cat(RenderHead(ms.head),
                   Cat(Render(ms.doc), Cat(ms.post, if ms.rest.MNil? then [] else Cat([COMMA], RenderMembers(ms.rest)))))
  {
  }

  lemma {:induction false} MembersSound(strict: bool, s: JsString, i: nat, seen: set<JsString>)
    requires i <= |s| && ParseMembers(strict, s, i, seen).Ok?
    ensures var r := ParseMembers(strict, s, i, seen); var n := i + |RenderMembers(r.tree)|;
            At(s, i, RenderMembers(r.tree)) && Starts(s, n, CLOSE_BRACE) && r.next == n + 1
    decreases |s| - i, 1
  {
    hide At, Cat, AllSpace, Wf, WfMembers, WfPieces, Render, RenderHead, RenderMembers, ParseValue, ParseHead, ParseMembers, SkipSpace, Decode;
    var ms := ParseMembers(strict, s, i, seen).tree;
    MembersRead(strict, s, i, seen);
    HeadSound(strict, s, i, seen);
    var v := ParseHead(strict, s, i, seen).next;
    ValueSound(strict, s, v);
    var n := ParseValue(strict, s, v).next;
    var k := SkipSpace(s, n);
    AtSlice(s, n, k);
    RenderedMembers(ms);
    if !Starts(s, k, CLOSE_BRACE) {
      MembersSound(strict, s, k + 1, seen + {Decode(ms.head.name)});
    }
    CommaTail(s, k, RenderMembers(ms.rest));
    ElementParts(s, i, RenderHead(ms.head), Render(ms.doc), ms.post, if ms.rest.MNil? then [] else Cat([COMMA], RenderMembers(ms.rest)));
  }

  // ---- completeness: the text of every grammatical tree is parsed back to that tree ----

  /** The first character of a value is no white space and closes nothing. */
  lemma RenderStarts(strict: bool, d: Doc)
    requires Wf(strict, d)
    ensures Render(d) != [] && !Space(Render(d)[0])
    ensures Render(d)[0] != CLOSE_BRACE && Render(d)[0] != CLOSE_BRACKET
  {
    if d.DNum? {
      var n := d.numeral;
      assert RenderNumeral(n)[0] == if n.neg then MINUS else n.whole[0];
    }
  }

  /** The literals start with different characters. */
  lemma OtherLiteral(s: JsString, i: nat, text: JsString)
    requires text == TRUE_TEXT || text == FALSE_TEXT || text == NULL_TEXT
    ensures At(s, i, text) ==> Starts(s, i, text[0])
  {
    if At(s, i, text) { AtIndex(s, i, text, 0); }
  }

  lemma LiteralComplete(strict: bool, d: Doc, s: JsString, i: nat)
    requires (d.DNull? || d.DTrue? || d.DFalse?) && At(s, i, Render(d))
    ensures i <= |s| && ParseValue(strict, s, i) == Ok(d, i + |Render(d)|)
  {
    AtIndex(s, i, Render(d), 0);
    OtherLiteral(s, i, TRUE_TEXT);
    OtherLiteral(s, i, FALSE_TEXT);
    hide At, ParseMembers, ParseElems, ParseNumeral, SkipSpace;
  }

  lemma NumberComplete(strict: bool, n: Numeral, s: JsString, i: nat)
    requires Wf(strict, DNum(n)) && At(s, i, RenderNumeral(n)) && NumberStops(s, i + |RenderNumeral(n)|)
    ensures i <= |s| && ParseValue(strict, s, i) == Ok(DNum(n), i + |RenderNumeral(n)|)
  {
    NumeralComplete(s, i, n);
    OtherLiteral(s, i, TRUE_TEXT);
    OtherLiteral(s, i, FALSE_TEXT);
    OtherLiteral(s, i, NULL_TEXT);
    hide At, ParseMembers, ParseElems, ParseNumeral, SkipSpace, RenderNumeral;
  }

  lemma {:induction false} ValueComplete(strict: bool, d: Doc, s: JsString, i: nat)
    requires Wf(strict, d) && At(s, i, Render(d)) && (d.DNum? ==> NumberStops(s, i + |Render(d)|))
    ensures ParseValue(strict, s, i) == Ok(d, i + |Render(d)|)
    decreases d, 0
  {
    match d {
      case DNull => LiteralComplete(strict, d, s, i);
      case DTrue => LiteralComplete(strict, d, s, i);
      case DFalse => LiteralComplete(strict, d, s, i);
      case DNum(n) => NumberComplete(strict, n, s, i);
      case DStr(ps) => TextValueComplete(strict, ps, s, i);
      case DArr(pad, es) => ArrayComplete(strict, d, s, i);
      case DObj(pad, ms) => ObjectComplete(strict, d, s, i);
    }
  }

  lemma TextValueComplete(strict: bool, ps: seq<Piece>, s: JsString, i: nat)
    requires WfString(strict, ps) && At(s, i, RenderString(ps))
    ensures i <= |s| && ParseValue(strict, s, i) == Ok(DStr(ps), i + |RenderString(ps)|)
  {
    hide At, ParseMembers, ParseElems, ParseNumeral, SkipSpace, RenderString, ParseString;
    StringComplete(strict, s, i, ps);
  }

  lemma {:induction false} ArrayComplete(strict: bool, d: Doc, s: JsString, i: nat)
    requires d.DArr? && Wf(strict, d) && At(s, i, Render(d))
    ensures ParseValue(strict, s, i) == Ok(d, i + |Render(d)|)
    decreases d.elems, 1
  {
    hide At, Cat, RenderElems, ParseElems, WfElems;
    var DArr(pad, es) := d;
    Bracketed(s, i, OPEN_BRACKET, pad, RenderElems(es), CLOSE_BRACKET);
    NoElems(s, |s|);
    if es.ENil? {
      SkipsTo(s, i + 1, pad);
    } else {
      ElemsComplete(strict, es, s, i + 1);
    }
  }

  /** A value followed by white space and a delimiter. */
  lemma {:induction false} PaddedValue(strict: bool, d: Doc, s: JsString, j: nat, post: JsString)
    requires Wf(strict, d) && At(s, j, Render(d)) && At(s, j + |Render(d)|, post) && AllSpace(post)
    requires var k := j + |Render(d)| + |post|; k < |s| && !Space(s[k]) && NumberStops(s, k)
    ensures var n := j + |Render(d)|; var k := n + |post|;
            ParseValue(strict, s, j) == Ok(d, n) && SkipSpace(s, n) == k && s[n..k] == post
    ensures j < |s| && !Space(s[j]) && s[j] != CLOSE_BRACE && s[j] != CLOSE_BRACKET
    decreases d, 1
  {
    hide At, Wf, Render, ParseValue, AllSpace, SkipSpace;
    var n := j + |Render(d)|;
    RenderStarts(strict, d);
    AtIndex(s, j, Render(d), 0);
    SkipsTo(s, n, post);
    SpaceStops(s, n, post);
    ValueComplete(strict, d, s, j);
  }

  lemma ElemsStep(strict: bool, s: JsString, i: nat, j: nat, d: Doc, n: nat, k: nat, rest: Elems, m: nat)
    requires i <= j <= n <= k < |s| && SkipSpace(s, i) == j && ParseValue(strict, s, j) == Ok(d, n) && SkipSpace(s, n) == k
    requires if rest.ENil? then Starts(s, k, CLOSE_BRACKET) && m == k + 1
             else Starts(s, k, COMMA) && ParseElems(strict, s, k + 1) == Ok(rest, m)
    ensures ParseElems(strict, s, i) == Ok(ECons(s[i..j], d, s[n..k], rest), m)
  {
    hide ParseValue, SkipSpace, WfElems;
  }

  lemma {:induction false} ElemsComplete(strict: bool, es: Elems, s: JsString, i: nat)
    requires es.ECons? && WfElems(strict, es) && At(s, i, RenderElems(es))
    requires Starts(s, i + |RenderElems(es)|, CLOSE_BRACKET)
    ensures ParseElems(strict, s, i) == Ok(es, i + |RenderElems(es)| + 1)
    ensures !Starts(s, SkipSpace(s, i), CLOSE_BRACKET)
    decreases es, 0
  {
    hide At, Cat, Wf, Render, ParseValue, ParseElems, AllSpace, SkipSpace;
    var ECons(pre, d, post, rest) := es;
    var tail := if rest.ENil? then [] else Cat([COMMA], RenderElems(rest));
    ElementParts(s, i, pre, Render(d), post, tail);
    var j := i + |pre|;
    var n := j + |Render(d)|;
    var k := n + |post|;
    AtText(s, k, tail);
    CommaTail(s, k, RenderElems(rest));
    PaddedValue(strict, d, s, j, post);
    SkipsTo(s, i, pre);
    if rest.ECons? {
      ElemsComplete(strict, rest, s, k + 1);
    }
    ElemsStep(strict, s, i, j, d, n, k, rest, i + |RenderElems(es)| + 1);
  }

  lemma {:induction false} ObjectComplete(strict: bool, d: Doc, s: JsString, i: nat)
    requires d.DObj? && Wf(strict, d) && At(s, i, Render(d))
    ensures ParseValue(strict, s, i) == Ok(d, i + |Render(d)|)
    decreases d.members, 1
  {
    hide At, Cat, RenderMembers, ParseMembers, WfMembers;
    var DObj(pad, ms) := d;
    Bracketed(s, i, OPEN_BRACE, pad, RenderMembers(ms), CLOSE_BRACE);
    NoElems(s, |s|);
    if ms.MNil? {
      SkipsTo(s, i + 1, pad);
    } else {
      MembersComplete(strict, ms, s, i + 1, {});
    }
  }

  lemma MembersStep(strict: bool, s: JsString, i: nat, seen: set<JsString>, head: Head, v: nat, d: Doc, n: nat, k: nat,
                    rest: Members, m: nat)
    requires i <= v <= n <= k < |s| && ParseHead(strict, s, i, seen) == Ok(head, v) && WfPieces(head.name)
    requires ParseValue(strict, s, v) == Ok(d, n) && SkipSpace(s, n) == k
    requires if rest.MNil? then Starts(s, k, CLOSE_BRACE) && m == k + 1
             else Starts(s, k, COMMA) && ParseMembers(strict, s, k + 1, seen + {Decode(head.name)}) == Ok(rest, m)
    ensures ParseMembers(strict, s, i, seen) == Ok(MCons(head, d, s[n..k], rest), m)
  {
    hide ParseValue, SkipSpace, WfMembers, ParseHead, Decode, WfPieces;
  }

  /** A name whose parts stand where the reference parser looks for them is parsed. */
  lemma HeadAt(strict: bool, s: JsString, i: nat, seen: set<JsString>, name: seq<Piece>, j: nat, g: nat, c: nat, v: nat)
    requires i <= j <= g <= c < v <= |s| && WfString(strict, name)
    requires SkipSpace(s, i) == j && Starts(s, j, QUOTE) && ParseString(strict, s, j) == Ok(name, g) && Decode(name) !in seen
    requires SkipSpace(s, g) == c && Starts(s, c, COLON) && SkipSpace(s, c + 1) == v
    ensures ParseHead(strict, s, i, seen) == Ok(Head(s[i..j], name, s[g..c], s[c + 1..v]), v)
  {
    hide At, SkipSpace, Decode, ParseString, WfString;
  }

  lemma HeadComplete(strict: bool, s: JsString, i: nat, seen: set<JsString>, head: Head)
    requires WfHead(strict, head, seen) && At(s, i, RenderHead(head))
    requires var v := i + |RenderHead(head)|; v < |s| && !Space(s[v])
    ensures ParseHead(strict, s, i, seen) == Ok(head, i + |RenderHead(head)|)
    ensures !Starts(s, SkipSpace(s, i), CLOSE_BRACE)
  {
    hide At, Cat, AllSpace, RenderString, ParseString, SkipSpace, Decode, ParseHead;
    var Head(pre, name, gap, lead) := head;
    HeadParts(s, i, pre, RenderString(name), gap, lead);
    var j := i + |pre|;
    var g := j + |RenderString(name)|;
    var c := g + |gap|;
    StringComplete(strict, s, j, name);
    SkipsTo(s, i, pre);
    SkipsTo(s, g, gap);
    SkipsTo(s, c + 1, lead);
    HeadAt(strict, s, i, seen, name, j, g, c, c + 1 + |lead|);
  }

  lemma {:induction false} MembersComplete(strict: bool, ms: Members, s: JsString, i: nat, seen: set<JsString>)
    requires ms.MCons? && WfMembers(strict, ms, seen) && At(s, i, RenderMembers(ms))
    requires Starts(s, i + |RenderMembers(ms)|, CLOSE_BRACE)
    ensures ParseMembers(strict, s, i, seen) == Ok(ms, i + |RenderMembers(ms)| + 1)
    ensures !Starts(s, SkipSpace(s, i), CLOSE_BRACE)
    decreases ms, 0
  {
    hide At, Cat, Wf, Render, RenderHead, ParseValue, ParseMembers, ParseHead, AllSpace, SkipSpace, Decode;
    var MCons(head, d, post, rest) := ms;
    var tail := if rest.MNil? then [] else Cat([COMMA], RenderMembers(rest));
    ElementParts(s, i, RenderHead(head), Render(d), post, tail);
    var v := i + |RenderHead(head)|;
    var n := v + |Render(d)|;
    var k := n + |post|;
    AtText(s, k, tail);
    CommaTail(s, k, RenderMembers(rest));
    PaddedValue(strict, d, s, v, post);
    HeadComplete(strict, s, i, seen, head);
    if rest.MCons? {
      MembersComplete(strict, rest, s, k + 1, seen + {Decode(head.name)});
    }
    MembersStep(strict, s, i, seen, head, v, d, n, k, rest, i + |RenderMembers(ms)| + 1);
  }

  // ---- whole texts ----

  /** `s` is white space, a value, white space. */
  ghost predicate IsText(strict: bool, s: JsString, pre: JsString, d: Doc, post: JsString) {
    AllSpace(pre) && Wf(strict, d) && AllSpace(post) && s == Cat(pre, Cat(Render(d), post))
  }

  function ParseText(strict: bool, s: JsString): (r: Parse<Doc>)
    ensures r.Ok? ==> Wf(strict, r.tree)
  {
    match ParseValue(strict, s, SkipSpace(s, 0))
    case Err(code) => Err(code)
    case Ok(d, n) => if SkipSpace(s, n) == |s| then Ok(d, |s|) else Err(JsonInvalid)
  }

  /** Accepted texts are texts of the grammar. */
  lemma TextSound(strict: bool, s: JsString)
    requires ParseText(strict, s).Ok?
    ensures exists pre, post :: IsText(strict, s, pre, ParseText(strict, s).tree, post)
  {
    hide Cat, AllSpace, Wf, Render, ParseValue;
    var j := SkipSpace(s, 0);
    var Ok(d, n) := ParseValue(strict, s, j);
    ValueSound(strict, s, j);
    SpacesBetween(s, 0);
    SpacesBetween(s, n);
    var pre, t, post := s[0..j], Render(d), s[n..|s|];
    AtSlice(s, 0, j);
    AtSlice(s, n, |s|);
    AtParts(s, j, t, post);
    AtParts(s, 0, pre, Cat(t, post));
    assert s[0..|s|] == s;
    assert IsText(strict, s, pre, d, post);
  }

  /** Every text of the grammar is accepted and read back as the tree it was written from; so the
      grammar is unambiguous. */
  lemma TextComplete(strict: bool, s: JsString, pre: JsString, d: Doc, post: JsString)
    requires IsText(strict, s, pre, d, post)
    ensures ParseText(strict, s) == Ok(d, |s|)
  {
    hide Cat, AllSpace, Wf, Render, ParseValue;
    var j := |pre|;
    var n := j + |Render(d)|;
    AtSlice(s, 0, |s|);
    assert s[0..|s|] == s;
    AtParts(s, 0, pre, Cat(Render(d), post));
    AtParts(s, j, Render(d), post);
    RenderStarts(strict, d);
    AtIndex(s, j, Render(d), 0);
    SkipSpaceOver(s, 0, pre);
    SpaceStops(s, n, post);
    ValueComplete(strict, d, s, j);
    SkipSpaceOver(s, n, post);
  }

  lemma Unambiguous(strict: bool, s: JsString, pre: JsString, d: Doc, post: JsString, pre': JsString, d': Doc, post': JsString)
    requires IsText(strict, s, pre, d, post) && IsText(strict, s, pre', d', post')
    ensures d == d'
  {
    TextComplete(strict, s, pre, d, post);
    TextComplete(strict, s, pre', d', post');
  }

  // ---- strict and lenient ----

  /** The strict grammar is a sub-grammar with the same values. */
  lemma {:induction false} StrictIsLenient(d: Doc)
    requires Wf(true, d)
    ensures Wf(false, d) && Value(false, d) == Value(true, d)
    decreases d
  {
    match d {
      case DArr(pad, es) => StrictElems(es);
      case DObj(pad, ms) => StrictMembers(ms, {});
      case _ =>
    }
  }

  lemma {:induction false} StrictElems(es: Elems)
    requires WfElems(true, es)
    ensures WfElems(false, es) && ElemValues(false, es) == ElemValues(true, es)
    decreases es
  {
    if es.ECons? {
      StrictIsLenient(es.doc);
      StrictElems(es.rest);
    }
  }

  lemma {:induction false} StrictMembers(ms: Members, seen: set<JsString>)
    requires WfMembers(true, ms, seen)
    ensures WfMembers(false, ms, seen) && MemberValues(false, ms, seen) == MemberValues(true, ms, seen)
    decreases ms
  {
    if ms.MCons? {
      StrictIsLenient(ms.doc);
      StrictMembers(ms.rest, seen + {Decode(ms.head.name)});
    }
  }
}
