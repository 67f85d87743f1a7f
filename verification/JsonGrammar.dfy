/** The JSON grammar (sections 2 to 7 of RFC 8259) as concrete syntax trees that keep every character,
    and the reference parser from texts to trees. The trees are independent of the parser: `Render` says
    which text a tree stands for, `Wf` which trees the grammar allows, `Value` what they mean. */
module JsonGrammar {
  import opened JsStrings

  /** A JSON value. An object is a finite map: JavaScript's property order never reaches a result here. */
  datatype Json =
    | Null
    | Bool(b: bool)
    | Num(n: real)
    | Str(s: JsString)
    | Arr(items: seq<Json>)
    | Obj(members: map<JsString, Json>)

  datatype ErrorCode = JsonInvalid | DuplicateKey | ValueInvalid

  // ---- lexical elements ----

  const QUOTE: CodeUnit := 0x22
  const BACKSLASH: CodeUnit := 0x5C
  const COMMA: CodeUnit := 0x2C
  const COLON: CodeUnit := 0x3A
  const OPEN_BRACKET: CodeUnit := 0x5B
  const CLOSE_BRACKET: CodeUnit := 0x5D
  const OPEN_BRACE: CodeUnit := 0x7B
  const CLOSE_BRACE: CodeUnit := 0x7D
  const MINUS: CodeUnit := 0x2D
  const POINT: CodeUnit := 0x2E
  const TRUE_TEXT: JsString := [0x74, 0x72, 0x75, 0x65]
  const FALSE_TEXT: JsString := [0x66, 0x61, 0x6C, 0x73, 0x65]
  const NULL_TEXT: JsString := [0x6E, 0x75, 0x6C, 0x6C]

  predicate Space(c: int) { c == 0x09 || c == 0x0A || c == 0x0D || c == 0x20 }
  predicate Digit(c: int) { 0x30 <= c <= 0x39 }
  predicate HexDigit(c: int) { Digit(c) || 0x41 <= c <= 0x46 || 0x61 <= c <= 0x66 }

  predicate AllSpace(w: JsString) { forall i :: 0 <= i < |w| ==> Space(w[i]) }
  predicate AllDigits(d: JsString) { forall i :: 0 <= i < |d| ==> Digit(d[i]) }
  predicate AllHex(d: JsString) { forall i :: 0 <= i < |d| ==> HexDigit(d[i]) }

  /** One character of a string literal. */
  datatype Piece = Raw(c: CodeUnit) | Short(letter: CodeUnit) | Hex(digits: JsString)

  predicate ShortEscape(c: int) {
    c == QUOTE || c == BACKSLASH || c == 0x2F || c == 0x62 || c == 0x66 || c == 0x6E || c == 0x72 || c == 0x74
  }

  predicate WfPiece(p: Piece) {
    match p
    case Raw(c) => c > 0x1F && c != QUOTE && c != BACKSLASH
    case Short(letter) => ShortEscape(letter)
    case Hex(digits) => |digits| == 4 && AllHex(digits)
  }

  function RenderPiece(p: Piece): (t: JsString)
    ensures |t| >= 1
  {
    match p
    case Raw(c) => [c]
    case Short(letter) => [BACKSLASH, letter]
    case Hex(digits) => [BACKSLASH, 0x75] + digits
  }

  function HexValue(c: CodeUnit): (v: int)
    ensures HexDigit(c) ==> 0 <= v < 16
  {
    if Digit(c) then c - 0x30 else if c <= 0x46 then c - 0x41 + 10 else c - 0x61 + 10
  }

  function DecodePiece(p: Piece): CodeUnit
    requires WfPiece(p)
  {
    match p
    case Raw(c) => c
    case Short(letter) =>
      if letter == 0x62 then 0x08
      else if letter == 0x66 then 0x0C
      else if letter == 0x6E then 0x0A
      else if letter == 0x72 then 0x0D
      else if letter == 0x74 then 0x09
      else letter
    case Hex(digits) =>
      ((HexValue(digits[0]) * 16 + HexValue(digits[1])) * 16 + HexValue(digits[2])) * 16 + HexValue(digits[3])
  }

  predicate WfPieces(ps: seq<Piece>) { forall i :: 0 <= i < |ps| ==> WfPiece(ps[i]) }

  function RenderPieces(ps: seq<Piece>): JsString {
    if ps == [] then [] else Cat(RenderPiece(ps[0]), RenderPieces(ps[1..]))
  }

  function Decode(ps: seq<Piece>): (t: JsString)
    requires WfPieces(ps)
    ensures |t| == |ps|
  {
    seq(|ps|, i requires 0 <= i < |ps| => DecodePiece(ps[i]))
  }

  function RenderString(ps: seq<Piece>): JsString {
    Cat([QUOTE], Cat(RenderPieces(ps), [QUOTE]))
  }

  /** A number literal: sign, integer part, fraction digits (none: no point), exponent mark and digits. */
  datatype Numeral = Numeral(neg: bool, whole: JsString, frac: JsString, mark: JsString, exp: JsString)

  predicate ExponentMark(m: JsString) {
    && 1 <= |m| <= 2
    && (m[0] == 0x65 || m[0] == 0x45)
    && (|m| == 2 ==> m[1] == 0x2B || m[1] == MINUS)
  }

  predicate WfNumeral(n: Numeral) {
    && n.whole != [] && AllDigits(n.whole) && (n.whole[0] == 0x30 ==> |n.whole| == 1)
    && AllDigits(n.frac) && AllDigits(n.exp)
    && (n.mark == [] <==> n.exp == [])
    && (n.mark != [] ==> ExponentMark(n.mark))
  }

  function RenderNumeral(n: Numeral): JsString {
    Cat(if n.neg then [MINUS] else [],
        Cat(n.whole, Cat(if n.frac == [] then [] else Cat([POINT], n.frac), Cat(n.mark, n.exp))))
  }

  function DigitsValue(d: JsString): (v: nat)
    requires AllDigits(d)
  {
    if d == [] then 0 else 10 * DigitsValue(d[..|d| - 1]) + (d[|d| - 1] - 0x30)
  }

  function Pow10(n: nat): (p: real)
    ensures p > 0.0
  {
    if n == 0 then 1.0 else 10.0 * Pow10(n - 1)
  }

  /** The exact decimal value of a literal. */
  function NumeralValue(n: Numeral): real
    requires WfNumeral(n)
  {
    var mantissa := DigitsValue(n.whole) as real + DigitsValue(n.frac) as real / Pow10(|n.frac|);
    var scale := Pow10(DigitsValue(n.exp));
    var magnitude := if |n.mark| == 2 && n.mark[1] == MINUS then mantissa / scale else mantissa * scale;
    if n.neg then -magnitude else magnitude
  }

  /** 2^1024 - 2^970: magnitudes from here on round to Infinity. */
  const OVERFLOW: real := 0xFFFFFFFFFFFFFC00000000000000000000000000000000000000000000000000000000000000000000000000000000000000000000000000000000000000000000000000000000000000000000000000000000000000000000000000000000000000000000000000000000000000000000000000000000000000000000000000000000 as real

  predicate Finite(x: real) { -OVERFLOW < x < OVERFLOW }

  // ---- trees ----

  /** A value with all its characters. `pad` is the white space inside an empty array or object. */
  datatype Doc =
    | DNull
    | DTrue
    | DFalse
    | DNum(numeral: Numeral)
    | DStr(pieces: seq<Piece>)
    | DArr(pad: JsString, elems: Elems)
    | DObj(pad: JsString, members: Members)

  datatype Elems =
    | ENil
    | ECons(pre: JsString, doc: Doc, post: JsString, rest: Elems)

  datatype Members =
    | MNil
    | MCons(head: Head, doc: Doc, post: JsString, rest: Members)

  /** A member name, its colon, and the white space around both. */
  datatype Head = Head(pre: JsString, name: seq<Piece>, gap: JsString, lead: JsString)

  function Render(d: Doc): JsString {
    match d
    case DNull => NULL_TEXT
    case DTrue => TRUE_TEXT
    case DFalse => FALSE_TEXT
    case DNum(n) => RenderNumeral(n)
    case DStr(ps) => RenderString(ps)
    case DArr(pad, es) => Cat([OPEN_BRACKET], Cat(pad, Cat(RenderElems(es), [CLOSE_BRACKET])))
    case DObj(pad, ms) => Cat([OPEN_BRACE], Cat(pad, Cat(RenderMembers(ms), [CLOSE_BRACE])))
  }

  function RenderElems(es: Elems): JsString {
    match es
    case ENil => []
    case ECons(pre, d, post, rest) =>
      Cat(pre, Cat(Render(d), Cat(post, if rest.ENil? then [] else Cat([COMMA], RenderElems(rest)))))
  }

  function RenderMembers(ms: Members): JsString {
    match ms
    case MNil => []
    case MCons(head, d, post, rest) =>
      Cat(RenderHead(head), Cat(Render(d), Cat(post, if rest.MNil? then [] else Cat([COMMA], RenderMembers(rest)))))
  }

  function RenderHead(h: Head): JsString {
    Cat(h.pre, Cat(RenderString(h.name), Cat(h.gap, Cat([COLON], h.lead))))
  }

  /** The strings a parser accepts: all of them, or (strict) only control-free scalar strings. */
  predicate WfString(strict: bool, ps: seq<Piece>) {
    WfPieces(ps) && (strict ==> ScalarString(Decode(ps)))
  }

  /** Grammar membership. Member names are distinct after decoding (section 2.3 of RFC 7493). */
  predicate Wf(strict: bool, d: Doc) {
    match d
    case DNull => true
    case DTrue => true
    case DFalse => true
    case DNum(n) => WfNumeral(n) && (strict ==> Finite(NumeralValue(n)))
    case DStr(ps) => WfString(strict, ps)
    case DArr(pad, es) => AllSpace(pad) && (es.ECons? ==> pad == []) && WfElems(strict, es)
    case DObj(pad, ms) => AllSpace(pad) && (ms.MCons? ==> pad == []) && WfMembers(strict, ms, {})
  }

  predicate WfElems(strict: bool, es: Elems) {
    match es
    case ENil => true
    case ECons(pre, d, post, rest) => AllSpace(pre) && Wf(strict, d) && AllSpace(post) && WfElems(strict, rest)
  }

  predicate WfMembers(strict: bool, ms: Members, seen: set<JsString>) {
    match ms
    case MNil => true
    case MCons(head, d, post, rest) =>
      && WfHead(strict, head, seen) && Wf(strict, d) && AllSpace(post)
      && WfMembers(strict, rest, seen + {Decode(head.name)})
  }

  predicate WfHead(strict: bool, h: Head, seen: set<JsString>) {
    AllSpace(h.pre) && WfString(strict, h.name) && Decode(h.name) !in seen && AllSpace(h.gap) && AllSpace(h.lead)
  }

  function Value(strict: bool, d: Doc): Json
    requires Wf(strict, d)
  {
    match d
    case DNull => Null
    case DTrue => Bool(true)
    case DFalse => Bool(false)
    case DNum(n) => Num(NumeralValue(n))
    case DStr(ps) => Str(Decode(ps))
    case DArr(pad, es) => Arr(ElemValues(strict, es))
    case DObj(pad, ms) => Obj(MemberValues(strict, ms, {}))
  }

  function ElemValues(strict: bool, es: Elems): seq<Json>
    requires WfElems(strict, es)
  {
    match es
    case ENil => []
    case ECons(pre, d, post, rest) => [Value(strict, d)] + ElemValues(strict, rest)
  }

  function MemberValues(strict: bool, ms: Members, seen: set<JsString>): map<JsString, Json>
    requires WfMembers(strict, ms, seen)
  {
    match ms
    case MNil => map[]
    case MCons(head, d, post, rest) =>
      map[Decode(head.name) := Value(strict, d)] + MemberValues(strict, rest, seen + {Decode(head.name)})
  }

  /** Container nesting. */
  function Depth(d: Doc): nat {
    match d
    case DArr(pad, es) => 1 + ElemsDepth(es)
    case DObj(pad, ms) => 1 + MembersDepth(ms)
    case _ => 0
  }

  function Max(a: nat, b: nat): nat { if a < b then b else a }

  function ElemsDepth(es: Elems): nat {
    match es
    case ENil => 0
    case ECons(pre, d, post, rest) => Max(Depth(d), ElemsDepth(rest))
  }

  function MembersDepth(ms: Members): nat {
    match ms
    case MNil => 0
    case MCons(head, d, post, rest) => Max(Depth(d), MembersDepth(rest))
  }

  /** Number of values plus number of member names. */
  function Tokens(d: Doc): nat {
    match d
    case DArr(pad, es) => 1 + ElemsTokens(es)
    case DObj(pad, ms) => 1 + MembersTokens(ms)
    case _ => 1
  }

  function ElemsTokens(es: Elems): nat {
    match es
    case ENil => 0
    case ECons(pre, d, post, rest) => Tokens(d) + ElemsTokens(rest)
  }

  function MembersTokens(ms: Members): nat {
    match ms
    case MNil => 0
    case MCons(head, d, post, rest) => 1 + Tokens(d) + MembersTokens(rest)
  }

  // ---- the reference parser ----

  datatype Parse<+T> = Ok(tree: T, next: nat) | Err(code: ErrorCode)

  predicate At(s: JsString, i: int, t: JsString) {
    0 <= i && i + |t| <= |s| && s[i..i + |t|] == t
  }

  predicate Starts(s: JsString, i: nat, c: CodeUnit) { i < |s| && s[i] == c }

  function SkipSpace(s: JsString, i: nat): (r: nat)
    requires i <= |s|
    ensures i <= r <= |s|
    decreases |s| - i
  {
    if i < |s| && Space(s[i]) then SkipSpace(s, i + 1) else i
  }

  function DigitsEnd(s: JsString, i: nat): (r: nat)
    requires i <= |s|
    ensures i <= r <= |s|
    ensures AllDigits(s[i..r]) && (i < |s| && Digit(s[i]) ==> i < r)
    ensures r == |s| || !Digit(s[r])
    decreases |s| - i
  {
    if i < |s| && Digit(s[i]) then
      assert forall r :: i + 1 <= r <= |s| ==> s[i..r] == [s[i]] + s[i + 1..r];
      DigitsEnd(s, i + 1)
    else i
  }

  function ParseFraction(s: JsString, i: nat): (r: (JsString, nat))
    requires i <= |s|
    ensures i <= r.1 <= |s| && AllDigits(r.0)
  {
    if Starts(s, i, POINT) && i + 1 < |s| && Digit(s[i + 1]) then
      var e := DigitsEnd(s, i + 1);
      (s[i + 1..e], e)
    else ([], i)
  }

  function ParseExponent(s: JsString, i: nat): (r: (JsString, JsString, nat))
    requires i <= |s|
    ensures i <= r.2 <= |s| && AllDigits(r.1) && (r.0 == [] <==> r.1 == []) && (r.0 != [] ==> ExponentMark(r.0))
  {
    if Starts(s, i, 0x65) || Starts(s, i, 0x45) then
      var d := if Starts(s, i + 1, 0x2B) || Starts(s, i + 1, MINUS) then i + 2 else i + 1;
      if d < |s| && Digit(s[d]) then
        var e := DigitsEnd(s, d);
        (s[i..d], s[d..e], e)
      else ([], [], i)
    else ([], [], i)
  }

  /** The number literal the source's regular expression matches at `i`: greedy, optional parts skipped. */
  function ParseNumeral(s: JsString, i: nat): (r: Parse<Numeral>)
    requires i <= |s|
    ensures r.Ok? ==> i < r.next <= |s| && WfNumeral(r.tree)
  {
    var neg := Starts(s, i, MINUS);
    var w := if neg then i + 1 else i;
    if w < |s| && Digit(s[w]) then
      var e := if s[w] == 0x30 then w + 1 else DigitsEnd(s, w);
      var (frac, f) := ParseFraction(s, e);
      var (mark, exp, n) := ParseExponent(s, f);
      Ok(Numeral(neg, s[w..e], frac, mark, exp), n)
    else Err(JsonInvalid)
  }

  function ParsePiece(s: JsString, i: nat): (r: Parse<Piece>)
    requires i < |s|
    ensures r.Ok? ==> i < r.next <= |s| && WfPiece(r.tree)
  {
    if s[i] <= 0x1F then Err(JsonInvalid)
    else if s[i] == QUOTE then Err(JsonInvalid)
    else if s[i] != BACKSLASH then Ok(Raw(s[i]), i + 1)
    else if i + 1 < |s| && ShortEscape(s[i + 1]) then Ok(Short(s[i + 1]), i + 2)
    else if i + 6 <= |s| && s[i + 1] == 0x75 && AllHex(s[i + 2..i + 6]) then Ok(Hex(s[i + 2..i + 6]), i + 6)
    else Err(JsonInvalid)
  }

  /** The characters up to and including the closing quote. */
  function ParsePieces(s: JsString, i: nat): (r: Parse<seq<Piece>>)
    requires i <= |s|
    ensures r.Ok? ==> i < r.next <= |s| && WfPieces(r.tree)
    decreases |s| - i
  {
    if i == |s| then Err(JsonInvalid)
    else if s[i] == QUOTE then Ok([], i + 1)
    else
      match ParsePiece(s, i)
      case Err(code) => Err(code)
      case Ok(p, n) =>
        match ParsePieces(s, n)
        case Err(code) => Err(code)
        case Ok(ps, m) => Ok([p] + ps, m)
  }

  function ParseString(strict: bool, s: JsString, i: nat): (r: Parse<seq<Piece>>)
    requires Starts(s, i, QUOTE)
    ensures r.Ok? ==> i < r.next <= |s| && WfString(strict, r.tree)
  {
    match ParsePieces(s, i + 1)
    case Err(code) => Err(code)
    case Ok(ps, n) => if strict && !ScalarString(Decode(ps)) then Err(ValueInvalid) else Ok(ps, n)
  }

  function ParseValue(strict: bool, s: JsString, i: nat): (r: Parse<Doc>)
    requires i <= |s|
    ensures r.Ok? ==> i < r.next <= |s| && Wf(strict, r.tree)
    decreases |s| - i, 0
  {
    if Starts(s, i, OPEN_BRACE) then
      var j := SkipSpace(s, i + 1);
      if Starts(s, j, CLOSE_BRACE) then SpacesBetween(s, i + 1); Ok(DObj(s[i + 1..j], MNil), j + 1)
      else match ParseMembers(strict, s, i + 1, {})
           case Err(code) => Err(code)
           case Ok(ms, n) => Ok(DObj([], ms), n)
    else if Starts(s, i, OPEN_BRACKET) then
      var j := SkipSpace(s, i + 1);
      if Starts(s, j, CLOSE_BRACKET) then SpacesBetween(s, i + 1); Ok(DArr(s[i + 1..j], ENil), j + 1)
      else match ParseElems(strict, s, i + 1)
           case Err(code) => Err(code)
           case Ok(es, n) => Ok(DArr([], es), n)
    else if Starts(s, i, QUOTE) then
      match ParseString(strict, s, i)
      case Err(code) => Err(code)
      case Ok(ps, n) => Ok(DStr(ps), n)
    else if At(s, i, TRUE_TEXT) then Ok(DTrue, i + 4)
    else if At(s, i, FALSE_TEXT) then Ok(DFalse, i + 5)
    else if At(s, i, NULL_TEXT) then Ok(DNull, i + 4)
    else
      match ParseNumeral(s, i)
      case Err(code) => Err(code)
      case Ok(n, e) => if strict && !Finite(NumeralValue(n)) then Err(ValueInvalid) else Ok(DNum(n), e)
  }

  function ParseElems(strict: bool, s: JsString, i: nat): (r: Parse<Elems>)
    requires i <= |s|
    ensures r.Ok? ==> i < r.next <= |s| && WfElems(strict, r.tree) && r.tree.ECons?
    decreases |s| - i, 1
  {
    var j := SkipSpace(s, i);
    match ParseValue(strict, s, j)
    case Err(code) => Err(code)
    case Ok(d, n) =>
      var k := SkipSpace(s, n);
      SpacesBetween(s, i);
      SpacesBetween(s, n);
      if Starts(s, k, CLOSE_BRACKET) then Ok(ECons(s[i..j], d, s[n..k], ENil), k + 1)
      else if Starts(s, k, COMMA) then
        match ParseElems(strict, s, k + 1)
        case Err(code) => Err(code)
        case Ok(rest, m) => Ok(ECons(s[i..j], d, s[n..k], rest), m)
      else Err(JsonInvalid)
  }

  function ParseHead(strict: bool, s: JsString, i: nat, seen: set<JsString>): (r: Parse<Head>)
    requires i <= |s|
    ensures r.Ok? ==> i < r.next <= |s| && WfHead(strict, r.tree, seen)
  {
    var j := SkipSpace(s, i);
    if !Starts(s, j, QUOTE) then Err(JsonInvalid)
    else
      match ParseString(strict, s, j)
      case Err(code) => Err(code)
      case Ok(name, g) =>
        if Decode(name) in seen then Err(DuplicateKey)
        else
          var c := SkipSpace(s, g);
          if !Starts(s, c, COLON) then Err(JsonInvalid)
          else
            var v := SkipSpace(s, c + 1);
            SpacesBetween(s, i);
            SpacesBetween(s, g);
            SpacesBetween(s, c + 1);
            Ok(Head(s[i..j], name, s[g..c], s[c + 1..v]), v)
  }

  function ParseMembers(strict: bool, s: JsString, i: nat, seen: set<JsString>): (r: Parse<Members>)
    requires i <= |s|
    ensures r.Ok? ==> i < r.next <= |s| && WfMembers(strict, r.tree, seen) && r.tree.MCons?
    decreases |s| - i, 1
  {
    match ParseHead(strict, s, i, seen)
    case Err(code) => Err(code)
    case Ok(head, v) =>
      match ParseValue(strict, s, v)
      case Err(code) => Err(code)
      case Ok(d, n) =>
        var k := SkipSpace(s, n);
        SpacesBetween(s, n);
        if Starts(s, k, CLOSE_BRACE) then Ok(MCons(head, d, s[n..k], MNil), k + 1)
        else if Starts(s, k, COMMA) then
          match ParseMembers(strict, s, k + 1, seen + {Decode(head.name)})
          case Err(code) => Err(code)
          case Ok(rest, m) => Ok(MCons(head, d, s[n..k], rest), m)
        else Err(JsonInvalid)
  }

  lemma {:induction false} SpacesBetween(s: JsString, i: nat)
    requires i <= |s|
    ensures AllSpace(s[i..SkipSpace(s, i)])
    ensures SkipSpace(s, i) < |s| ==> !Space(s[SkipSpace(s, i)])
    decreases |s| - i
  {
    if i < |s| && Space(s[i]) {
      SpacesBetween(s, i + 1);
      assert s[i..SkipSpace(s, i)] == [s[i]] + s[i + 1..SkipSpace(s, i)];
    }
  }
}
