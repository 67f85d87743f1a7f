/** What literals, escapes and numbers stand for, stated on texts and their characters (sections 3, 6 and 7 of RFC 8259). */
module JsonMeaning {
  import opened JsStrings
  import opened JsonGrammar
  import opened JsonGrammarProofs
  import opened Wrappers

  /** The text is accepted and means the value. */
  predicate Reads(s: JsString, v: Json) {
    ParseText(false, s).Ok? && Value(false, ParseText(false, s).tree) == v
  }

  predicate Refused(s: JsString) { ParseText(false, s).Err? }

  lemma ReadsTree(s: JsString, d: Doc)
    requires Wf(false, d) && s == Render(d)
    ensures Reads(s, Value(false, d))
  {
    hide Wf, Render, ParseText, Value;
    assert Cat([], Cat(s, [])) == s;
    assert IsText(false, s, [], d, []);
    TextComplete(false, s, [], d, []);
  }

  lemma TreeOf(s: JsString, v: Json) returns (pre: JsString, d: Doc, post: JsString)
    requires Reads(s, v)
    ensures IsText(false, s, pre, d, post) && Value(false, d) == v
  {
    hide IsText, Value;
    TextSound(false, s);
    d := ParseText(false, s).tree;
    pre, post :| IsText(false, s, pre, d, post);
  }

  // ---- literals ----

  lemma LiteralsMean()
    ensures Reads(Ascii("null"), Null) && Reads(Ascii("true"), Bool(true)) && Reads(Ascii("false"), Bool(false))
  {
    hide Reads, Value, Wf;
    assert Ascii("null") == NULL_TEXT && Ascii("true") == TRUE_TEXT && Ascii("false") == FALSE_TEXT;
    LiteralTrees();
    ReadsTree(Ascii("null"), DNull);
    ReadsTree(Ascii("true"), DTrue);
    ReadsTree(Ascii("false"), DFalse);
  }

  lemma LiteralTrees()
    ensures forall d :: d == DNull || d == DTrue || d == DFalse ==> Wf(false, d)
    ensures Value(false, DNull) == Null && Value(false, DTrue) == Bool(true) && Value(false, DFalse) == Bool(false)
  {
  }

  // ---- one character in quotes ----

  function Quoted(t: JsString): JsString { Ascii("\"") + t + Ascii("\"") }

  /** The letter after a backslash and the character it stands for. */
  const ESCAPES: seq<(char, int)> :=
    [('"', 0x22), ('\\', 0x5C), ('/', 0x2F), ('b', 0x08), ('f', 0x0C), ('n', 0x0A), ('r', 0x0D), ('t', 0x09)]

  lemma OnePiece(p: Piece)
    requires WfPiece(p)
    ensures Quoted(RenderPiece(p)) == Render(DStr([p])) && Wf(false, DStr([p])) && Value(false, DStr([p])) == Str([DecodePiece(p)])
  {
    hide RenderPiece, WfPiece, DecodePiece;
    assert [p][1..] == [];
    assert RenderPieces([p]) == Cat(RenderPiece(p), RenderPieces([]));
    assert RenderPieces([]) == [];
    assert Ascii("\"") == [QUOTE];
    assert Decode([p]) == [DecodePiece(p)];
  }

  lemma PieceReads(p: Piece)
    requires WfPiece(p)
    ensures Reads(Quoted(RenderPiece(p)), Str([DecodePiece(p)]))
  {
    hide Reads, Wf, Render, Value, WfPiece, RenderPiece, DecodePiece, Quoted;
    OnePiece(p);
    ReadsTree(Quoted(RenderPiece(p)), DStr([p]));
  }

  /** Every short escape stands for its character. */
  lemma ShortEscapesMean(i: nat)
    requires i < |ESCAPES|
    ensures Reads(Quoted(Ascii("\\") + [ESCAPES[i].0 as int]), Str([ESCAPES[i].1]))
  {
    hide Reads, Quoted;
    var p := Short(ESCAPES[i].0 as int);
    assert RenderPiece(p) == Ascii("\\") + [ESCAPES[i].0 as int];
    PieceReads(p);
  }

  /** A character stands for itself, unless it is a control, a quotation mark or a backslash. */
  lemma CharacterMeans(c: CodeUnit)
    requires c >= 0x20 && c != '"' as int && c != '\\' as int
    ensures Reads(Quoted([c]), Str([c]))
  {
    hide Reads, Quoted;
    PieceReads(Raw(c));
  }

  lemma FirstPiece(s: JsString)
    requires |s| >= 2 && s[0] == '"' as int && s[1] != '"' as int && ParsePiece(s, 1).Err?
    ensures Refused(s)
  {
    assert s[0] == QUOTE && s[1] != QUOTE;
    assert SkipSpace(s, 0) == 0;
    assert ParsePieces(s, 1).Err?;
  }

  /** Controls are refused. */
  lemma ControlRefused(c: CodeUnit)
    requires c < 0x20
    ensures Refused(Quoted([c]))
  {
    FirstPiece(Quoted([c]));
  }

  /** No other letter makes a short escape. */
  lemma OtherEscapesRefused(c: CodeUnit, rest: JsString)
    requires c != 'u' as int && forall i :: 0 <= i < |ESCAPES| ==> c != ESCAPES[i].0 as int
    ensures Refused(Ascii("\"\\") + [c] + rest)
  {
    var s := Ascii("\"\\") + [c] + rest;
    assert s[0] == '"' as int && s[1] == '\\' as int && s[2] == c;
    assert c != 0x75 && !ShortEscape(c) by {
      assert ESCAPES[0].0 == '"' && ESCAPES[1].0 == '\\' && ESCAPES[2].0 == '/' && ESCAPES[3].0 == 'b';
      assert ESCAPES[4].0 == 'f' && ESCAPES[5].0 == 'n' && ESCAPES[6].0 == 'r' && ESCAPES[7].0 == 't';
    }
    FirstPiece(s);
  }

  // ---- several characters ----

  lemma {:induction false} PiecesAppend(ps: seq<Piece>, qs: seq<Piece>)
    ensures RenderPieces(ps + qs) == RenderPieces(ps) + RenderPieces(qs)
  {
    hide RenderPiece, Cat;
    if ps == [] {
      assert ps + qs == qs;
    } else {
      PiecesAppend(ps[1..], qs);
      CatAppend(RenderPiece(ps[0]), RenderPieces(ps[1..]), RenderPieces(qs));
      assert (ps + qs)[1..] == ps[1..] + qs;
    }
  }

  lemma CatAppend(a: JsString, b: JsString, c: JsString)
    ensures Cat(a, b + c) == Cat(a, b) + c
  {
  }

  lemma PiecesOf(t: JsString, x: JsString) returns (ps: seq<Piece>)
    requires Reads(Quoted(t), Str(x))
    ensures WfPieces(ps) && RenderPieces(ps) == t && Decode(ps) == x
  {
    hide Reads, RenderPieces, Decode;
    var pre, d, post := TreeOf(Quoted(t), Str(x));
    ps := d.pieces;
    var s := Quoted(t);
    assert s[0] == QUOTE == s[|s| - 1];
    assert pre == [] && post == [];
    assert s == [QUOTE] + RenderPieces(ps) + [QUOTE];
    assert s[1..|s| - 1] == t;
  }

  /** Quoted texts side by side mean the strings side by side. */
  lemma StringsConcatenate(s: JsString, x: JsString, t: JsString, y: JsString)
    requires Reads(Quoted(s), Str(x)) && Reads(Quoted(t), Str(y))
    ensures Reads(Quoted(s + t), Str(x + y))
  {
    hide Reads, RenderPieces, WfPiece;
    var ps := PiecesOf(s, x);
    var qs := PiecesOf(t, y);
    PiecesAppend(ps, qs);
    assert Decode(ps + qs) == Decode(ps) + Decode(qs);
    assert Quoted(s + t) == Render(DStr(ps + qs));
    ReadsTree(Quoted(s + t), DStr(ps + qs));
  }

  // ---- four hexadecimal digits ----

  const LOWER: string := "0123456789abcdef"
  const UPPER: string := "0123456789ABCDEF"

  function HexChar(k: nat, upper: bool): CodeUnit
    requires k < 16
  {
    if upper then UPPER[k] as int else LOWER[k] as int
  }

  lemma HexCharMeans(k: nat, upper: bool)
    requires k < 16
    ensures HexDigit(HexChar(k, upper)) && HexValue(HexChar(k, upper)) == k
  {
  }

  function HexText(c: CodeUnit, upper: seq<bool>): JsString
    requires |upper| == 4
  {
    [HexChar(c / 0x1000, upper[0]), HexChar(c / 0x100 % 16, upper[1]), HexChar(c / 16 % 16, upper[2]), HexChar(c % 16, upper[3])]
  }

  lemma HexSplit(c: int)
    requires c >= 0
    ensures ((c / 0x1000 * 16 + c / 0x100 % 16) * 16 + c / 16 % 16) * 16 + c % 16 == c
  {
    assert c / 16 / 16 == c / 0x100 && c / 0x100 / 16 == c / 0x1000;
  }

  lemma HexDecodes(c: CodeUnit, digits: JsString)
    requires |digits| == 4 && AllHex(digits) && HexValue(digits[0]) == c / 0x1000 && HexValue(digits[1]) == c / 0x100 % 16
    requires HexValue(digits[2]) == c / 16 % 16 && HexValue(digits[3]) == c % 16
    ensures WfPiece(Hex(digits)) && DecodePiece(Hex(digits)) == c
  {
    hide HexValue, HexDigit;
    HexSplit(c);
  }

  /** Every code unit has its escape of four digits, in either case of each digit. */
  lemma HexEscapeMeans(c: CodeUnit, upper: seq<bool>)
    requires |upper| == 4
    ensures Reads(Quoted(Ascii("\\u") + HexText(c, upper)), Str([c]))
  {
    hide Reads, Quoted, HexValue, HexDigit, HexChar, WfPiece, DecodePiece;
    HexCharMeans(c / 0x1000, upper[0]);
    HexCharMeans(c / 0x100 % 16, upper[1]);
    HexCharMeans(c / 16 % 16, upper[2]);
    HexCharMeans(c % 16, upper[3]);
    var p := Hex(HexText(c, upper));
    HexDecodes(c, p.digits);
    assert RenderPiece(p) == Ascii("\\u") + HexText(c, upper);
    PieceReads(p);
  }

  // ---- numbers ----

  datatype Exponent = Exponent(mark: char, sign: string, digits: JsString)

  /** A decimal number as it is written: a sign, digits, perhaps a point and digits, perhaps an exponent. */
  datatype Decimal = Decimal(negative: bool, whole: JsString, fraction: JsString, exponent: Option<Exponent>)

  predicate Digits(d: JsString) { forall i :: 0 <= i < |d| ==> '0' as int <= d[i] <= '9' as int }

  predicate Proper(d: Decimal) {
    && d.whole != [] && Digits(d.whole) && Digits(d.fraction) && (d.whole[0] == '0' as int ==> d.whole == Ascii("0"))
    && (d.exponent.Some? ==>
          && d.exponent.value.mark in {'e', 'E'} && d.exponent.value.sign in {"", "+", "-"}
          && d.exponent.value.digits != [] && Digits(d.exponent.value.digits))
  }

  function Spelling(d: Decimal): JsString
    requires Proper(d)
  {
    (if d.negative then Ascii("-") else []) + d.whole + (if d.fraction == [] then [] else Ascii(".") + d.fraction)
    + if d.exponent.None? then [] else Ascii([d.exponent.value.mark] + d.exponent.value.sign) + d.exponent.value.digits
  }

  function Ten(n: nat): (t: nat)
    ensures t > 0
  {
    if n == 0 then 1 else 10 * Ten(n - 1)
  }

  /** Each digit times the weight of its place. */
  function Places(d: JsString): nat
    requires Digits(d)
  {
    if d == [] then 0 else (d[0] - '0' as int) * Ten(|d| - 1) + Places(d[1..])
  }

  function Signed(negative: bool, x: real): real { if negative then -x else x }

  function Scaled(x: real, down: bool, scale: real): real
    requires scale > 0.0
  {
    if down then x / scale else x * scale
  }

  /** All digits as one integer, with the point moved by the length of the fraction and by the exponent. */
  function Meaning(d: Decimal): real
    requires Proper(d)
  {
    var digits := Places(d.whole + d.fraction) as real;
    var scaled :=
      if d.exponent.None? then digits
      else Scaled(digits, d.exponent.value.sign == "-", Ten(Places(d.exponent.value.digits)) as real);
    Signed(d.negative, scaled) / Ten(|d.fraction|) as real
  }

  function NumeralOf(d: Decimal): Numeral
    requires Proper(d)
  {
    var (mark, exp) := if d.exponent.None? then ([], []) else (Ascii([d.exponent.value.mark] + d.exponent.value.sign), d.exponent.value.digits);
    Numeral(d.negative, d.whole, d.fraction, mark, exp)
  }

  lemma {:induction false} TenIsPow10(n: nat)
    ensures Ten(n) as real == Pow10(n)
  {
    if n > 0 { TenIsPow10(n - 1); }
  }

  lemma {:induction false} DigitsAppend(a: JsString, b: JsString)
    requires AllDigits(a) && AllDigits(b)
    ensures DigitsValue(a + b) == DigitsValue(a) * Ten(|b|) + DigitsValue(b)
    decreases |b|
  {
    if b == [] {
      assert a + b == a;
    } else {
      var init := b[..|b| - 1];
      DigitsAppend(a, init);
      assert (a + b)[..|a + b| - 1] == a + init;
      Shifted(DigitsValue(a), Ten(|init|), DigitsValue(init), b[|b| - 1] - 0x30);
    }
  }

  lemma Shifted(x: int, t: int, y: int, z: int)
    ensures 10 * (x * t + y) + z == x * (10 * t) + (10 * y + z)
  {
  }

  lemma {:induction false} PlacesAreValue(d: JsString)
    requires Digits(d)
    ensures Places(d) == DigitsValue(d)
  {
    if d != [] {
      PlacesAreValue(d[1..]);
      assert d == [d[0]] + d[1..];
      assert [d[0]][..0] == [];
      assert DigitsValue([]) == 0;
      DigitsAppend([d[0]], d[1..]);
    }
  }

  lemma MarkFits(e: Exponent)
    requires e.mark in {'e', 'E'} && e.sign in {"", "+", "-"}
    ensures ExponentMark(Ascii([e.mark] + e.sign))
    ensures var mark := Ascii([e.mark] + e.sign); |mark| == 2 && mark[1] == MINUS <==> e.sign == "-"
  {
  }

  lemma NumeralFits(d: Decimal)
    requires Proper(d)
    ensures WfNumeral(NumeralOf(d))
    ensures var n := NumeralOf(d);
            && (d.exponent.None? ==> n.mark == [] && n.exp == [])
            && (d.exponent.Some? ==> n.exp == d.exponent.value.digits
                                     && (|n.mark| == 2 && n.mark[1] == MINUS <==> d.exponent.value.sign == "-"))
  {
    hide ExponentMark;
    if d.exponent.Some? { MarkFits(d.exponent.value); }
  }

  lemma NumeralSpelled(d: Decimal)
    requires Proper(d)
    ensures RenderNumeral(NumeralOf(d)) == Spelling(d)
  {
    hide Cat, Proper;
    var n := NumeralOf(d);
    var sign := if n.neg then [MINUS] else [];
    var fraction := if n.frac == [] then [] else Cat([POINT], n.frac);
    assert [MINUS] == Ascii("-") && [POINT] == Ascii(".");
    assert n.frac != [] ==> fraction == Ascii(".") + n.frac by { CatIsAppend([POINT], n.frac); }
    CatAll(sign, n.whole, fraction, n.mark, n.exp);
    assert d.exponent.None? ==> n.mark + n.exp == [];
  }

  lemma CatIsAppend(a: JsString, b: JsString)
    ensures Cat(a, b) == a + b
  {
  }

  lemma CatAll(a: JsString, b: JsString, c: JsString, d: JsString, e: JsString)
    ensures Cat(a, Cat(b, Cat(c, Cat(d, e)))) == a + b + c + (d + e)
  {
  }

  lemma Quotient(x: real, p: real, y: real)
    requires p > 0.0 && y * p == x
    ensures x / p == y
  {
  }

  /** The two ways to move the point commute. */
  lemma PointMoves(negative: bool, x: real, down: bool, scale: real, t: real)
    requires scale > 0.0 && t > 0.0
    ensures Signed(negative, Scaled(x, down, scale)) / t == Signed(negative, Scaled(x / t, down, scale))
  {
    var y := x / t;
    assert x == y * t;
    if down {
      var z := y / scale;
      assert y == z * scale;
      assert x == (z * t) * scale;
      Quotient(x, scale, z * t);
      Quotient(z * t, t, z);
      Quotient(-(z * t), t, -z);
    } else {
      assert x * scale == (y * scale) * t;
      Quotient(x * scale, t, y * scale);
      Quotient(-(x * scale), t, -(y * scale));
    }
  }

  lemma Mantissa(w: nat, f: nat, t: nat)
    requires t > 0
    ensures w as real + f as real / t as real == (w * t + f) as real / t as real
  {
    assert (w * t) as real == w as real * t as real;
  }

  /** A decimal number is accepted and means its digits at their places. */
  lemma DecimalMeans(d: Decimal)
    requires Proper(d)
    ensures Reads(Spelling(d), Num(Meaning(d)))
  {
    hide Reads, Spelling, RenderNumeral, Render;
    NumeralFits(d);
    NumeralSpelled(d);
    var n := NumeralOf(d);
    NumeralValueIsMeaning(d);
    NumeralTree(n);
    ReadsTree(Spelling(d), DNum(n));
  }

  lemma NumeralTree(n: Numeral)
    requires WfNumeral(n)
    ensures Wf(false, DNum(n)) && Render(DNum(n)) == RenderNumeral(n) && Value(false, DNum(n)) == Num(NumeralValue(n))
  {
  }

  lemma NumeralValueIsMeaning(d: Decimal)
    requires Proper(d)
    ensures WfNumeral(NumeralOf(d)) && NumeralValue(NumeralOf(d)) == Meaning(d)
  {
    hide RenderNumeral, Spelling, Places, DigitsValue, Pow10, Ten, Scaled, NumeralValue, Signed;
    NumeralFits(d);
    var n := NumeralOf(d);
    var t := Ten(|d.fraction|);
    PlacesAreValue(d.whole + d.fraction);
    DigitsAppend(d.whole, d.fraction);
    TenIsPow10(|d.fraction|);
    TenIsPow10(DigitsValue(n.exp));
    Mantissa(DigitsValue(d.whole), DigitsValue(d.fraction), t);
    ValueOf(n);
    var digits := Places(d.whole + d.fraction) as real;
    if d.exponent.Some? {
      PlacesAreValue(d.exponent.value.digits);
      PointMoves(d.negative, digits, d.exponent.value.sign == "-", Pow10(DigitsValue(n.exp)), t as real);
    } else {
      NoExponent(n);
      Unscaled(digits);
      Unscaled(digits / t as real);
      PointMoves(d.negative, digits, false, 1.0, t as real);
    }
  }

  lemma Unscaled(x: real)
    ensures Scaled(x, false, 1.0) == x
  {
  }

  lemma ValueOf(n: Numeral)
    requires WfNumeral(n)
    ensures NumeralValue(n)
         == Signed(n.neg, Scaled(DigitsValue(n.whole) as real + DigitsValue(n.frac) as real / Pow10(|n.frac|),
                                 |n.mark| == 2 && n.mark[1] == MINUS, Pow10(DigitsValue(n.exp))))
  {
    hide DigitsValue, Pow10, AllDigits;
  }

  lemma NoExponent(n: Numeral)
    requires WfNumeral(n) && n.exp == []
    ensures n.mark == [] && Pow10(DigitsValue(n.exp)) == 1.0
  {
  }

  /** A text that means a number is, up to white space, a decimal number. */
  lemma NumbersAreDecimals(s: JsString) returns (pre: JsString, d: Decimal, post: JsString)
    requires ParseText(false, s).Ok? && Value(false, ParseText(false, s).tree).Num?
    ensures AllSpace(pre) && AllSpace(post) && Proper(d) && s == pre + Spelling(d) + post
    ensures Reads(s, Num(Meaning(d)))
  {
    hide Spelling, RenderNumeral, Meaning, NumeralValue, Wf;
    TextSound(false, s);
    var tree := ParseText(false, s).tree;
    var a, b :| IsText(false, s, a, tree, b);
    var n := tree.numeral;
    TreeNumeral(n);
    d := DecimalOf(n);
    pre, post := a, b;
    NumeralFits(d);
    NumeralSpelled(d);
    NumeralValueIsMeaning(d);
  }

  lemma TreeNumeral(n: Numeral)
    requires Wf(false, DNum(n))
    ensures WfNumeral(n)
  {
  }

  function DecimalOf(n: Numeral): (d: Decimal)
    requires WfNumeral(n)
    ensures Proper(d) && NumeralOf(d) == n
  {
    if n.mark == [] then Decimal(n.neg, n.whole, n.frac, None)
    else
      var mark := if n.mark[0] == 0x65 then 'e' else 'E';
      var sign := if |n.mark| == 1 then "" else if n.mark[1] == MINUS then "-" else "+";
      assert Ascii([mark] + sign) == n.mark;
      Decimal(n.neg, n.whole, n.frac, Some(Exponent(mark, sign, n.exp)))
  }

  // ---- arrays and objects ----

  function Joined(texts: seq<JsString>): JsString {
    if texts == [] then [] else if |texts| == 1 then texts[0] else texts[0] + Ascii(",") + Joined(texts[1..])
  }

  predicate ReadAll(texts: seq<JsString>, values: seq<Json>) {
    |texts| == |values| && forall i :: 0 <= i < |texts| ==> Reads(texts[i], values[i])
  }

  /** The text of an item with what follows it. */
  lemma ItemText(pre: JsString, t: JsString, post: JsString, rest: JsString, tail: JsString)
    requires tail == if rest == [] then [] else Cat([COMMA], rest)
    ensures Cat(pre, Cat(t, Cat(post, tail))) == if rest == [] then Cat(pre, Cat(t, post)) else Cat(pre, Cat(t, post)) + Ascii(",") + rest
  {
  }

  lemma {:induction false} ElemsOf(texts: seq<JsString>, values: seq<Json>) returns (es: Elems)
    requires ReadAll(texts, values)
    ensures WfElems(false, es) && RenderElems(es) == Joined(texts) && ElemValues(false, es) == values
    ensures (es.ENil? <==> texts == []) && (texts != [] ==> Joined(texts) != [])
    decreases |texts|
  {
    hide Reads, Wf, Render, Value, Cat, AllSpace;
    if texts == [] {
      es := ENil;
    } else {
      var pre, d, post := TreeOf(texts[0], values[0]);
      var rest := ElemsOf(texts[1..], values[1..]);
      es := ECons(pre, d, post, rest);
      RenderStarts(false, d);
      ItemText(pre, Render(d), post, RenderElems(rest), if rest.ENil? then [] else Cat([COMMA], RenderElems(rest)));
      assert values == [values[0]] + values[1..];
      assert |texts| == 1 <==> texts[1..] == [];
    }
  }

  /** Texts between brackets, with commas between them, mean the array of their values. */
  lemma ArrayMeans(texts: seq<JsString>, values: seq<Json>)
    requires ReadAll(texts, values)
    ensures Reads(Ascii("[") + Joined(texts) + Ascii("]"), Arr(values))
  {
    hide Reads, WfElems, RenderElems, ElemValues, Joined, ReadAll;
    var es := ElemsOf(texts, values);
    var s := Ascii("[") + Joined(texts) + Ascii("]");
    assert s == Cat([OPEN_BRACKET], Cat([], Cat(RenderElems(es), [CLOSE_BRACKET])));
    assert s == Render(DArr([], es));
    ReadsTree(s, DArr([], es));
  }

  /** Name texts and value texts in pairs. */
  function Paired(names: seq<JsString>, texts: seq<JsString>): seq<JsString>
    requires |names| == |texts|
  {
    seq(|names|, i requires 0 <= i < |names| => names[i] + Ascii(":") + texts[i])
  }

  predicate Names(names: seq<JsString>, keys: seq<JsString>) {
    |names| == |keys| && forall i :: 0 <= i < |names| ==> Reads(names[i], Str(keys[i]))
  }

  predicate Different(keys: seq<JsString>) { forall i, j :: 0 <= i < j < |keys| ==> keys[i] != keys[j] }

  /** The map holds exactly the keys with their values. */
  predicate Holds(m: map<JsString, Json>, keys: seq<JsString>, values: seq<Json>)
    requires |keys| == |values|
  {
    && (forall k :: k in m ==> k in keys)
    && forall i :: 0 <= i < |keys| ==> keys[i] in m && m[keys[i]] == values[i]
  }

  lemma HeadOf(name: JsString, key: JsString, lead: JsString, seen: set<JsString>) returns (h: Head)
    requires Reads(name, Str(key)) && AllSpace(lead) && key !in seen
    ensures WfHead(false, h, seen) && RenderHead(h) == name + Ascii(":") + lead && Decode(h.name) == key
  {
    hide Reads;
    var pre, d, post := TreeOf(name, Str(key));
    h := Head(pre, d.pieces, post, lead);
  }

  lemma PairText(head: JsString, name: JsString, lead: JsString, t: JsString, post: JsString, text: JsString)
    requires head == name + Ascii(":") + lead && text == Cat(lead, Cat(t, post))
    ensures Cat(head, Cat(t, post)) == name + Ascii(":") + text
  {
    assert head + (t + post) == name + Ascii(":") + (lead + (t + post));
  }

  lemma {:induction false} MembersOf(names: seq<JsString>, keys: seq<JsString>, texts: seq<JsString>, values: seq<Json>, seen: set<JsString>)
    returns (ms: Members)
    requires Names(names, keys) && ReadAll(texts, values) && |names| == |texts| && Different(keys)
    requires forall k :: k in keys ==> k !in seen
    ensures WfMembers(false, ms, seen) && RenderMembers(ms) == Joined(Paired(names, texts))
    ensures Holds(MemberValues(false, ms, seen), keys, values)
    ensures (ms.MNil? <==> names == []) && (names != [] ==> Joined(Paired(names, texts)) != [])
    decreases |names|
  {
    hide Reads, Wf, Render, Value, Cat, AllSpace, WfHead, RenderHead, Holds, Decode;
    if names == [] {
      ms := MNil;
      NothingHeld();
    } else {
      var lead, d, post := TreeOf(texts[0], values[0]);
      var head := HeadOf(names[0], keys[0], lead, seen);
      assert keys == [keys[0]] + keys[1..];
      forall k | k in keys[1..] ensures k !in seen + {keys[0]} {
        var i :| 0 <= i < |keys[1..]| && keys[1..][i] == k;
        assert keys[0] != keys[i + 1];
      }
      var rest := MembersOf(names[1..], keys[1..], texts[1..], values[1..], seen + {keys[0]});
      ms := MCons(head, d, post, rest);
      RenderStarts(false, d);
      PairText(RenderHead(head), names[0], lead, Render(d), post, texts[0]);
      MemberText(RenderHead(head), Render(d), post, RenderMembers(rest), if rest.MNil? then [] else Cat([COMMA], RenderMembers(rest)));
      assert Paired(names, texts)[1..] == Paired(names[1..], texts[1..]);
      MemberHeld(ms, seen, keys, values);
    }
  }

  lemma NothingHeld()
    ensures MemberValues(false, MNil, {}) == map[] && Holds(map[], [], [])
  {
  }

  lemma MemberText(head: JsString, t: JsString, post: JsString, rest: JsString, tail: JsString)
    requires tail == if rest == [] then [] else Cat([COMMA], rest)
    ensures Cat(head, Cat(t, Cat(post, tail))) == if rest == [] then Cat(head, Cat(t, post)) else Cat(head, Cat(t, post)) + Ascii(",") + rest
  {
  }

  lemma MemberHeld(ms: Members, seen: set<JsString>, keys: seq<JsString>, values: seq<Json>)
    requires ms.MCons? && WfMembers(false, ms, seen) && |keys| == |values| > 0 && Different(keys)
    requires Decode(ms.head.name) == keys[0] && Value(false, ms.doc) == values[0]
    requires Holds(MemberValues(false, ms.rest, seen + {keys[0]}), keys[1..], values[1..])
    ensures Holds(MemberValues(false, ms, seen), keys, values)
  {
    hide Wf, Value, WfHead, Decode;
    var m, n := MemberValues(false, ms, seen), MemberValues(false, ms.rest, seen + {keys[0]});
    assert m == map[keys[0] := values[0]] + n;
    forall k | k in n ensures k in keys && k != keys[0] {
      var i :| 0 <= i < |keys[1..]| && keys[1..][i] == k;
      assert keys[i + 1] == k;
    }
    forall i | 0 <= i < |keys| ensures keys[i] in m && m[keys[i]] == values[i] {
      if i > 0 { assert keys[1..][i - 1] == keys[i] && values[1..][i - 1] == values[i]; }
    }
  }

  /** Pairs between braces, with commas between them, mean the object with those members, when their names differ. */
  lemma ObjectMeans(names: seq<JsString>, keys: seq<JsString>, texts: seq<JsString>, values: seq<Json>, m: map<JsString, Json>)
    requires Names(names, keys) && ReadAll(texts, values) && |names| == |texts| && Different(keys) && Holds(m, keys, values)
    ensures Reads(Ascii("{") + Joined(Paired(names, texts)) + Ascii("}"), Obj(m))
  {
    hide Reads, WfMembers, RenderMembers, MemberValues, Joined, Paired, ReadAll, Names;
    var ms := MembersOf(names, keys, texts, values, {});
    var s := Ascii("{") + Joined(Paired(names, texts)) + Ascii("}");
    assert s == Cat([OPEN_BRACE], Cat([], Cat(RenderMembers(ms), [CLOSE_BRACE])));
    assert s == Render(DObj([], ms));
    assert MemberValues(false, ms, {}) == m;
    ReadsTree(s, DObj([], ms));
  }
}
