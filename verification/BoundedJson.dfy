/** The bounded parser for authority input: the same grammar without the scalar-string rule, cut off by byte,
    depth and token limits. Each method is proved against the unlimited reference parser: it accepts exactly
    the trees that fit. */
module BoundedJson {
  import opened JsStrings
  import opened JsonGrammar
  import opened P = JsonGrammarProofs
  import S = StrictJson

  datatype Limits = Limits(maxBytes: int, maxDepth: int, maxTokens: int)

  /** The source throws one kind of error. */
  datatype Result<+T> = Accepted(value: T) | Rejected

  const MAX_SAFE_INTEGER := 0x1F_FFFF_FFFF_FFFF

  predicate PositiveSafe(n: int) { 0 < n <= MAX_SAFE_INTEGER }

  predicate ValidLimits(l: Limits) {
    PositiveSafe(l.maxBytes) && PositiveSafe(l.maxDepth) && PositiveSafe(l.maxTokens)
  }

  /** The whole parser in terms of the grammar: an unlimited parse, then the limits. */
  function Parsed(raw: JsString, l: Limits): Result<Json> {
    if !ValidLimits(l) || |Utf8(raw)| > l.maxBytes then Rejected
    else
      match ParseText(false, raw)
      case Err(_) => Rejected
      case Ok(d, n) => if Depth(d) <= l.maxDepth && Tokens(d) <= l.maxTokens then Accepted(Value(false, d)) else Rejected
  }

  /** JSON.parse on a token that starts with a quotation mark. */
  function BuiltinParseString(token: JsString): Result<JsString> {
    if !Starts(token, 0, QUOTE) then Rejected
    else
      match ParsePieces(token, 1)
      case Err(_) => Rejected
      case Ok(ps, n) => if n == |token| then Accepted(Decode(ps)) else Rejected
  }

  /** Re-reading a scanned token on its own gives the characters it stands for. */
  lemma TokenDecodes(raw: JsString, start: nat)
    requires Starts(raw, start, QUOTE) && ParsePieces(raw, start + 1).Ok?
    ensures var r := ParsePieces(raw, start + 1); BuiltinParseString(raw[start..r.next]) == Accepted(Decode(r.tree))
  {
    hide At, Cat, ParsePieces, RenderPieces, Decode;
    var Ok(ps, n) := ParsePieces(raw, start + 1);
    var t := RenderPieces(ps);
    PiecesSound(raw, start + 1);
    Quoted(raw, start, t);
    AtText(raw, start, RenderString(ps));
    var token := raw[start..n];
    AtSlice(token, 0, |token|);
    assert token[0..|token|] == token;
    Quoted(token, 0, t);
    PiecesComplete(token, 1, ps);
  }

  // ---- measuring what the loops still have to read ----

  datatype Measured<+T> = Measured(value: T, depth: nat, tokens: nat)

  function Items(s: JsString, p: nat): Parse<Measured<seq<Json>>>
    requires p <= |s|
  {
    match ParseElems(false, s, p)
    case Err(code) => Err(code)
    case Ok(es, n) => Ok(Measured(ElemValues(false, es), ElemsDepth(es), ElemsTokens(es)), n)
  }

  function AddItem(d: Doc, rest: Parse<Measured<seq<Json>>>): Parse<Measured<seq<Json>>>
    requires Wf(false, d)
  {
    match rest
    case Err(code) => Err(code)
    case Ok(m, n) => Ok(Measured([Value(false, d)] + m.value, Max(Depth(d), m.depth), Tokens(d) + m.tokens), n)
  }

  function ItemsTurn(s: JsString, p: nat): Parse<Measured<seq<Json>>>
    requires p <= |s|
  {
    match ParseValue(false, s, SkipSpace(s, p))
    case Err(code) => Err(code)
    case Ok(d, n) =>
      var k := SkipSpace(s, n);
      if Starts(s, k, CLOSE_BRACKET) then AddItem(d, Ok(Measured([], 0, 0), k + 1))
      else if Starts(s, k, COMMA) then AddItem(d, Items(s, k + 1))
      else Err(JsonInvalid)
  }

  lemma ItemsStep(s: JsString, p: nat)
    requires p <= |s|
    ensures Items(s, p) == ItemsTurn(s, p)
  {
    hide ParseValue, Value, Wf, SkipSpace, Depth, Tokens;
    if Items(s, p).Ok? {
      var es := ParseElems(false, s, p).tree;
      assert ElemValues(false, es) == [Value(false, es.doc)] + ElemValues(false, es.rest);
      assert ElemsTokens(es) == Tokens(es.doc) + ElemsTokens(es.rest);
      assert ElemsDepth(es) == Max(Depth(es.doc), ElemsDepth(es.rest));
    }
  }

  function Entries(s: JsString, p: nat, keys: set<JsString>): Parse<Measured<map<JsString, Json>>>
    requires p <= |s|
  {
    match ParseMembers(false, s, p, keys)
    case Err(code) => Err(code)
    case Ok(ms, n) => Ok(Measured(MemberValues(false, ms, keys), MembersDepth(ms), MembersTokens(ms)), n)
  }

  function AddEntry(key: JsString, d: Doc, rest: Parse<Measured<map<JsString, Json>>>): Parse<Measured<map<JsString, Json>>>
    requires Wf(false, d)
  {
    match rest
    case Err(code) => Err(code)
    case Ok(m, n) =>
      Ok(Measured(map[key := Value(false, d)] + m.value, Max(Depth(d), m.depth), 1 + Tokens(d) + m.tokens), n)
  }

  function EntriesTurn(s: JsString, p: nat, keys: set<JsString>): Parse<Measured<map<JsString, Json>>>
    requires p <= |s|
  {
    match ParseHead(false, s, p, keys)
    case Err(code) => Err(code)
    case Ok(head, v) =>
      match ParseValue(false, s, v)
      case Err(code) => Err(code)
      case Ok(d, n) =>
        var k := SkipSpace(s, n);
        var key := Decode(head.name);
        if Starts(s, k, CLOSE_BRACE) then AddEntry(key, d, Ok(Measured(map[], 0, 0), k + 1))
        else if Starts(s, k, COMMA) then AddEntry(key, d, Entries(s, k + 1, keys + {key}))
        else Err(JsonInvalid)
  }

  lemma EntriesStep(s: JsString, p: nat, keys: set<JsString>)
    requires p <= |s|
    ensures Entries(s, p, keys) == EntriesTurn(s, p, keys)
  {
    hide ParseValue, Value, Wf, SkipSpace, ParseHead, Decode, Depth, Tokens;
    if Entries(s, p, keys).Ok? {
      var ms := ParseMembers(false, s, p, keys).tree;
      var name := Decode(ms.head.name);
      assert MemberValues(false, ms, keys)
          == map[name := Value(false, ms.doc)] + MemberValues(false, ms.rest, keys + {name});
      assert MembersTokens(ms) == 1 + Tokens(ms.doc) + MembersTokens(ms.rest);
      assert MembersDepth(ms) == Max(Depth(ms.doc), MembersDepth(ms.rest));
    }
  }

  /** `done` is read, `left` is still to come; together they are `whole`. */
  predicate Resumes(whole: Parse<Measured<seq<Json>>>, done: Measured<seq<Json>>, left: Parse<Measured<seq<Json>>>) {
    match left
    case Err(_) => whole.Err?
    case Ok(m, n) =>
      whole == Ok(Measured(done.value + m.value, Max(done.depth, m.depth), done.tokens + m.tokens), n)
  }

  lemma ResumesStart(whole: Parse<Measured<seq<Json>>>)
    ensures Resumes(whole, Measured([], 0, 0), whole)
  {
    if whole.Ok? { assert [] + whole.tree.value == whole.tree.value; }
  }

  lemma ResumesNext(whole: Parse<Measured<seq<Json>>>, done: Measured<seq<Json>>, d: Doc, left: Parse<Measured<seq<Json>>>)
    requires Wf(false, d) && Resumes(whole, done, AddItem(d, left))
    ensures var next := Measured(done.value + [Value(false, d)], Max(done.depth, Depth(d)), done.tokens + Tokens(d));
            && Resumes(whole, next, left)
            && (left.Ok? && left.tree == Measured([], 0, 0) ==> whole == Ok(next, left.next))
  {
    if left.Ok? {
      var x := [Value(false, d)];
      assert done.value + (x + left.tree.value) == done.value + x + left.tree.value;
      assert left.tree.value == [] ==> x + left.tree.value == x;
    }
  }

  predicate ResumesMap(whole: Parse<Measured<map<JsString, Json>>>, done: Measured<map<JsString, Json>>,
                       left: Parse<Measured<map<JsString, Json>>>) {
    match left
    case Err(_) => whole.Err?
    case Ok(m, n) =>
      whole == Ok(Measured(done.value + m.value, Max(done.depth, m.depth), done.tokens + m.tokens), n)
  }

  lemma ResumesMapStart(whole: Parse<Measured<map<JsString, Json>>>)
    ensures ResumesMap(whole, Measured(map[], 0, 0), whole)
  {
    if whole.Ok? { assert map[] + whole.tree.value == whole.tree.value; }
  }

  lemma ResumesMapNext(whole: Parse<Measured<map<JsString, Json>>>, done: Measured<map<JsString, Json>>, key: JsString,
                       d: Doc, left: Parse<Measured<map<JsString, Json>>>)
    requires Wf(false, d) && ResumesMap(whole, done, AddEntry(key, d, left))
    ensures var next := Measured(done.value[key := Value(false, d)], Max(done.depth, Depth(d)), done.tokens + 1 + Tokens(d));
            && ResumesMap(whole, next, left)
            && (left.Ok? && left.tree == Measured(map[], 0, 0) ==> whole == Ok(next, left.next))
  {
    if left.Ok? {
      var v := Value(false, d);
      assert done.value + (map[key := v] + left.tree.value) == done.value[key := v] + left.tree.value;
      assert left.tree.value == map[] ==> done.value[key := v] + left.tree.value == done.value[key := v];
    }
  }

  // ---- the parser ----

  /** The limits leave room for `depth` more levels and `tokens` more tokens. */
  predicate Fits(l: Limits, atDepth: nat, atTokens: nat, depth: nat, tokens: nat) {
    atDepth + depth <= l.maxDepth && atTokens + tokens <= l.maxTokens
  }

  /** A method started at depth `at` with `before` tokens did what the reference parser does, if that fits. */
  predicate Follows(r: Result<Json>, index: nat, tokens: nat, l: Limits, at: nat, before: nat, reference: Parse<Doc>)
    requires reference.Ok? ==> Wf(false, reference.tree)
  {
    match reference
    case Err(_) => r == Rejected
    case Ok(d, n) =>
      if Fits(l, at, before, Depth(d), Tokens(d))
      then r == Accepted(Value(false, d)) && index == n && tokens == before + Tokens(d)
      else r == Rejected
  }

  /** What a value that is neither an object nor an array reads as. */
  function Scalar(s: JsString, i: nat): Parse<Json>
    requires i <= |s|
  {
    if Starts(s, i, QUOTE) then
      match ParsePieces(s, i + 1)
      case Err(code) => Err(code)
      case Ok(ps, n) => Ok(Str(Decode(ps)), n)
    else if Starts(s, i, 0x74) then if At(s, i, TRUE_TEXT) then Ok(Bool(true), i + 4) else Err(JsonInvalid)
    else if Starts(s, i, 0x66) then if At(s, i, FALSE_TEXT) then Ok(Bool(false), i + 5) else Err(JsonInvalid)
    else if Starts(s, i, 0x6E) then if At(s, i, NULL_TEXT) then Ok(Null, i + 4) else Err(JsonInvalid)
    else if !(Starts(s, i, MINUS) || (i < |s| && Digit(s[i]))) then Err(JsonInvalid)
    else
      match ParseNumeral(s, i)
      case Err(code) => Err(code)
      case Ok(n, e) => Ok(Num(NumeralValue(n)), e)
  }

  /** A literal starts with its letter, a number with a minus or a digit. */
  lemma ScalarStarts(s: JsString, i: nat)
    requires i <= |s|
    ensures At(s, i, TRUE_TEXT) ==> Starts(s, i, 0x74)
    ensures At(s, i, FALSE_TEXT) ==> Starts(s, i, 0x66)
    ensures At(s, i, NULL_TEXT) ==> Starts(s, i, 0x6E)
    ensures ParseNumeral(s, i).Ok? ==> Starts(s, i, MINUS) || (i < |s| && Digit(s[i]))
  {
    hide ParseFraction, ParseExponent, DigitsEnd;
    if At(s, i, TRUE_TEXT) { assert s[i] == s[i..i + 4][0]; }
    if At(s, i, FALSE_TEXT) { assert s[i] == s[i..i + 5][0]; }
    if At(s, i, NULL_TEXT) { assert s[i] == s[i..i + 4][0]; }
  }

  lemma ScalarValue(s: JsString, i: nat)
    requires i <= |s| && !Starts(s, i, OPEN_BRACE) && !Starts(s, i, OPEN_BRACKET)
    ensures var r, v := ParseValue(false, s, i), Scalar(s, i);
            if v.Err? then r.Err?
            else r.Ok? && Value(false, r.tree) == v.tree && r.next == v.next && Depth(r.tree) == 0 && Tokens(r.tree) == 1
  {
    hide ParsePieces, ParseNumeral, Decode, NumeralValue, At, ParseElems, ParseMembers, SkipSpace;
    ScalarStarts(s, i);
  }

  lemma TokensPositive(s: JsString, i: nat)
    requires i <= |s|
    ensures ParseValue(false, s, i).Ok? ==> Tokens(ParseValue(false, s, i).tree) >= 1
  {
    hide ParseValue;
  }

  class StrictJsonParser {
    const raw: JsString
    const limits: Limits
    var index: nat
    var tokens: nat

    constructor (raw: JsString, limits: Limits)
      ensures this.raw == raw && this.limits == limits && index == 0 && tokens == 0
    {
      this.raw := raw;
      this.limits := limits;
      index := 0;
      tokens := 0;
    }

    method Parse() returns (r: Result<Json>)
      requires index == 0 && tokens == 0
      modifies this
      ensures r == Parsed(raw, limits)
    {
      if !ValidLimits(limits) { return Rejected; }
      if raw == [] || |Utf8(raw)| > limits.maxBytes { return Rejected; }
      SkipWhitespace();
      r := ParseValue(0);
      if r.Rejected? { return; }
      SkipWhitespace();
      if index != |raw| { return Rejected; }
    }

    /** Counts a token; false when the limit is passed. */
    method BumpToken() returns (ok: bool)
      modifies this`tokens
      ensures tokens == old(tokens) + 1 && (ok <==> tokens <= limits.maxTokens)
    {
      tokens := tokens + 1;
      ok := tokens <= limits.maxTokens;
    }

    method SkipWhitespace()
      requires index <= |raw|
      modifies this`index
      ensures index == SkipSpace(raw, old(index))
    {
      while index < |raw| && Space(raw[index])
        invariant index <= |raw|
        invariant SkipSpace(raw, index) == SkipSpace(raw, old(index))
      {
        index := index + 1;
      }
    }

    method ParseValue(depth: nat) returns (r: Result<Json>)
      requires index <= |raw| && tokens <= limits.maxTokens && depth <= limits.maxDepth
      modifies this
      ensures Follows(r, index, tokens, limits, depth, old(tokens), JsonGrammar.ParseValue(false, raw, old(index)))
      decreases |raw| - index, 1
    {
      hide JsonGrammar.ParseValue, Value, Wf, Depth, Tokens, Decode, ParsePieces, ParseNumeral, NumeralValue;
      var counted := BumpToken();
      if !(Starts(raw, index, OPEN_BRACE) || Starts(raw, index, OPEN_BRACKET)) { ScalarValue(raw, index); }
      if !counted {
        TokensPositive(raw, index);
        return Rejected;
      }
      if Starts(raw, index, OPEN_BRACE) {
        r := ParseObject(depth + 1);
      } else if Starts(raw, index, OPEN_BRACKET) {
        r := ParseArray(depth + 1);
      } else if Starts(raw, index, QUOTE) {
        var text := ParseString();
        r := if text.Accepted? then Accepted(Str(text.value)) else Rejected;
      } else if Starts(raw, index, 0x74) {
        r := ParseLiteral(TRUE_TEXT, Bool(true));
      } else if Starts(raw, index, 0x66) {
        r := ParseLiteral(FALSE_TEXT, Bool(false));
      } else if Starts(raw, index, 0x6E) {
        r := ParseLiteral(NULL_TEXT, Null);
      } else if Starts(raw, index, MINUS) || (index < |raw| && Digit(raw[index])) {
        P.LongestMatch(raw, index);
        r := ParseNumber();
      } else {
        return Rejected;
      }
    }

    method ParseObject(depth: nat) returns (r: Result<Json>)
      requires Starts(raw, index, OPEN_BRACE) && 1 <= depth && 1 <= tokens <= limits.maxTokens
      modifies this
      ensures Follows(r, index, tokens, limits, depth - 1, old(tokens) - 1, JsonGrammar.ParseValue(false, raw, old(index)))
      decreases |raw| - index, 0
    {
      hide Entries, ParseHead, Decode, JsonGrammar.ParseValue, SkipSpace, Wf, Value, Depth, Tokens;
      ObjectValue(raw, index);
      if depth > limits.maxDepth { return Rejected; }
      index := index + 1;
      SkipWhitespace();
      ghost var start, before := old(index) + 1, tokens;
      ghost var full := Entries(raw, start, {});
      var result: map<JsString, Json> := map[];
      var keys: set<JsString> := {};
      if Starts(raw, index, CLOSE_BRACE) {
        index := index + 1;
        return Accepted(Obj(result));
      }
      ghost var p, deep: nat := start, 0;
      ResumesMapStart(full);
      while true
        invariant start <= p <= |raw| && index == SkipSpace(raw, p) && before <= tokens
        invariant Fits(limits, depth, before, deep, tokens - before)
        invariant ResumesMap(full, Measured(result, deep, tokens - before), Entries(raw, p, keys))
        decreases |raw| - p
      {
        EntriesStep(raw, p, keys);
        ghost var t, done := tokens, result;
        var key := ParseName(keys, p);
        if key.Rejected? { return Rejected; }
        ghost var doc := JsonGrammar.ParseValue(false, raw, index);
        var member := ParseValue(depth);
        if doc.Ok? {
          ghost var k := SkipSpace(raw, doc.next);
          if Starts(raw, k, CLOSE_BRACE) {
            ResumesMapNext(full, Measured(done, deep, t - before), key.value, doc.tree, Ok(Measured(map[], 0, 0), k + 1));
          } else if Starts(raw, k, COMMA) {
            ResumesMapNext(full, Measured(done, deep, t - before), key.value, doc.tree, Entries(raw, k + 1, keys + {key.value}));
          }
        }
        if member.Rejected? { return Rejected; }
        keys := keys + {key.value};
        result := result[key.value := member.value];
        deep := Max(deep, Depth(doc.tree));
        SkipWhitespace();
        if Starts(raw, index, CLOSE_BRACE) {
          index := index + 1;
          return Accepted(Obj(result));
        }
        if !Starts(raw, index, COMMA) { return Rejected; }
        index := index + 1;
        p := index;
        SkipWhitespace();
      }
    }

    /** A counted member name that is not among `keys`, and its colon. */
    method ParseName(keys: set<JsString>, ghost p: nat) returns (r: Result<JsString>)
      requires p <= |raw| && index == SkipSpace(raw, p) && tokens <= limits.maxTokens
      modifies this
      ensures match ParseHead(false, raw, p, keys)
              case Err(_) => r == Rejected
              case Ok(head, v) =>
                if old(tokens) + 1 <= limits.maxTokens
                then r == Accepted(Decode(head.name)) && index == v && tokens == old(tokens) + 1
                else r == Rejected
    {
      if !Starts(raw, index, QUOTE) { return Rejected; }
      var counted := BumpToken();
      if !counted { return Rejected; }
      var key := ParseString();
      if key.Rejected? { return Rejected; }
      if key.value in keys { return Rejected; }
      SkipWhitespace();
      if !Starts(raw, index, COLON) { return Rejected; }
      index := index + 1;
      SkipWhitespace();
      return key;
    }

    method ParseArray(depth: nat) returns (r: Result<Json>)
      requires Starts(raw, index, OPEN_BRACKET) && 1 <= depth && 1 <= tokens <= limits.maxTokens
      modifies this
      ensures Follows(r, index, tokens, limits, depth - 1, old(tokens) - 1, JsonGrammar.ParseValue(false, raw, old(index)))
      decreases |raw| - index, 0
    {
      hide Items, JsonGrammar.ParseValue, SkipSpace, Wf, Value, Depth, Tokens;
      ArrayValue(raw, index);
      if depth > limits.maxDepth { return Rejected; }
      index := index + 1;
      SkipWhitespace();
      ghost var start, before := old(index) + 1, tokens;
      ghost var full := Items(raw, start);
      var result: seq<Json> := [];
      if Starts(raw, index, CLOSE_BRACKET) {
        index := index + 1;
        return Accepted(Arr(result));
      }
      ghost var p, deep: nat := start, 0;
      ResumesStart(full);
      while true
        invariant start <= p <= |raw| && index == SkipSpace(raw, p) && before <= tokens
        invariant Fits(limits, depth, before, deep, tokens - before)
        invariant Resumes(full, Measured(result, deep, tokens - before), Items(raw, p))
        decreases |raw| - p
      {
        ItemsStep(raw, p);
        ghost var done := Measured(result, deep, tokens - before);
        ghost var doc := JsonGrammar.ParseValue(false, raw, index);
        var item := ParseValue(depth);
        if doc.Ok? {
          ghost var k := SkipSpace(raw, doc.next);
          if Starts(raw, k, CLOSE_BRACKET) {
            ResumesNext(full, done, doc.tree, Ok(Measured([], 0, 0), k + 1));
          } else if Starts(raw, k, COMMA) {
            ResumesNext(full, done, doc.tree, Items(raw, k + 1));
          }
        }
        if item.Rejected? { return Rejected; }
        result := result + [item.value];
        deep := Max(deep, Depth(doc.tree));
        SkipWhitespace();
        if Starts(raw, index, CLOSE_BRACKET) {
          index := index + 1;
          return Accepted(Arr(result));
        }
        if !Starts(raw, index, COMMA) { return Rejected; }
        index := index + 1;
        p := index;
        SkipWhitespace();
      }
    }

    method ParseString() returns (r: Result<JsString>)
      requires Starts(raw, index, QUOTE)
      modifies this`index
      ensures match ParsePieces(raw, old(index) + 1)
              case Err(_) => r == Rejected
              case Ok(ps, n) => r == Accepted(Decode(ps)) && index == n
    {
      var start := index;
      index := index + 1;
      ghost var full := ParsePieces(raw, index);
      ghost var done: seq<Piece> := [];
      S.ResumesStart(full);
      while index < |raw|
        invariant start < index <= |raw|
        invariant S.Resumes(full, done, ParsePieces(raw, index))
      {
        var unit := raw[index];
        ghost var piece := ParsePiece(raw, index);
        if unit == QUOTE {
          index := index + 1;
          TokenDecodes(raw, start);
          return BuiltinParseString(raw[start..index]);
        }
        if unit == BACKSLASH {
          index := index + 1;
          if index == |raw| { return Rejected; }
          var escaped := raw[index];
          if escaped == 0x75 {
            if !(index + 5 <= |raw| && AllHex(raw[index + 1..index + 5])) { return Rejected; }
            index := index + 5;
          } else if ShortEscape(escaped) {
            index := index + 1;
          } else {
            return Rejected;
          }
        } else if unit < 0x20 {
          return Rejected;
        } else {
          index := index + 1;
        }
        assert piece.Ok? && piece.next == index;
        S.ResumesNext(full, done, piece.tree, ParsePieces(raw, index));
        done := done + [piece.tree];
      }
      return Rejected;
    }

    method ParseLiteral(literal: JsString, value: Json) returns (r: Result<Json>)
      requires index <= |raw|
      modifies this`index
      ensures if At(raw, old(index), literal) then r == Accepted(value) && index == old(index) + |literal| else r == Rejected
    {
      if !At(raw, index, literal) { return Rejected; }
      index := index + |literal|;
      return Accepted(value);
    }

    /** The longest number literal at the index. */
    method ParseNumber() returns (r: Result<Json>)
      requires index <= |raw|
      modifies this`index
      ensures (forall n :: !P.NumeralAt(raw, old(index), n)) ==> r == Rejected
      ensures forall n :: P.LongestNumeral(raw, old(index), n) ==>
                r == Accepted(Num(NumeralValue(n))) && index == old(index) + |RenderNumeral(n)|
    {
      hide RenderNumeral, NumeralValue;
      P.LongestMatch(raw, index);
      match ParseNumeral(raw, index) {
        case Err(_) => return Rejected;
        case Ok(n, e) =>
          P.OneLongest(raw, index, n);
          index := e;
          return Accepted(Num(NumeralValue(n)));
      }
    }
  }

  lemma ObjectValue(s: JsString, i: nat)
    requires Starts(s, i, OPEN_BRACE)
    ensures var r := ParseValue(false, s, i); var j := SkipSpace(s, i + 1);
            if Starts(s, j, CLOSE_BRACE)
            then r.Ok? && Value(false, r.tree) == Obj(map[]) && r.next == j + 1 && Depth(r.tree) == Tokens(r.tree) == 1
            else match Entries(s, i + 1, {})
                 case Err(code) => r.Err?
                 case Ok(m, n) => r.Ok? && Value(false, r.tree) == Obj(m.value) && r.next == n
                                  && Depth(r.tree) == 1 + m.depth && Tokens(r.tree) == 1 + m.tokens
    ensures var r := ParseValue(false, s, i); r.Ok? ==> Depth(r.tree) >= 1
  {
  }

  lemma ArrayValue(s: JsString, i: nat)
    requires Starts(s, i, OPEN_BRACKET)
    ensures var r := ParseValue(false, s, i); var j := SkipSpace(s, i + 1);
            if Starts(s, j, CLOSE_BRACKET)
            then r.Ok? && Value(false, r.tree) == Arr([]) && r.next == j + 1 && Depth(r.tree) == Tokens(r.tree) == 1
            else match Items(s, i + 1)
                 case Err(code) => r.Err?
                 case Ok(m, n) => r.Ok? && Value(false, r.tree) == Arr(m.value) && r.next == n
                                  && Depth(r.tree) == 1 + m.depth && Tokens(r.tree) == 1 + m.tokens
    ensures var r := ParseValue(false, s, i); r.Ok? ==> Depth(r.tree) >= 1
  {
  }

  // ---- what the limits mean ----

  /** Accepted: the text is in the grammar (so names are distinct at every level) and the limits hold of its
      tree. Rejected otherwise. */
  lemma AcceptedExactly(raw: JsString, l: Limits, v: Json)
    ensures Parsed(raw, l) == Accepted(v)
       <==> ValidLimits(l) && |Utf8(raw)| <= l.maxBytes
            && exists pre, d, post :: IsText(false, raw, pre, d, post) && Depth(d) <= l.maxDepth && Tokens(d) <= l.maxTokens
                                      && Value(false, d) == v
  {
    hide Wf, Render, Value, AllSpace, Depth, Tokens, Cat;
    if Parsed(raw, l) == Accepted(v) {
      TextSound(false, raw);
    }
    if ValidLimits(l) && |Utf8(raw)| <= l.maxBytes {
      forall pre, d, post | IsText(false, raw, pre, d, post) && Depth(d) <= l.maxDepth && Tokens(d) <= l.maxTokens
                            && Value(false, d) == v
        ensures Parsed(raw, l) == Accepted(v)
      {
        TextComplete(false, raw, pre, d, post);
      }
    }
  }

  /** Raising limits never changes an accepted value. */
  lemma RaisingLimits(raw: JsString, l: Limits, higher: Limits)
    requires Parsed(raw, l).Accepted? && ValidLimits(higher)
    requires l.maxBytes <= higher.maxBytes && l.maxDepth <= higher.maxDepth && l.maxTokens <= higher.maxTokens
    ensures Parsed(raw, higher) == Parsed(raw, l)
  {
  }

  /** What the strict parser accepts, this one accepts with the same value under large enough limits. */
  lemma StrictImpliesBounded(raw: JsString, l: Limits)
    requires ParseText(true, raw).Ok? && ValidLimits(l) && |Utf8(raw)| <= l.maxBytes
    requires Depth(ParseText(true, raw).tree) <= l.maxDepth && Tokens(ParseText(true, raw).tree) <= l.maxTokens
    ensures S.Parsed(raw).Success? && Parsed(raw, l) == Accepted(S.Parsed(raw).value)
  {
    var d := ParseText(true, raw).tree;
    TextSound(true, raw);
    var pre, post :| IsText(true, raw, pre, d, post);
    StrictIsLenient(d);
    TextComplete(false, raw, pre, d, post);
  }
}
