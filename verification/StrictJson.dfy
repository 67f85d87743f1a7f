/** The strict parser of the runtime-generation status: an index that moves over the text and values built
    in loops. Each method is proved against the reference parser. */
module StrictJson {
  import opened JsStrings
  import opened JsonGrammar
  import P = JsonGrammarProofs

  /** A value, or the code the source throws. */
  datatype Outcome<+T> = Success(value: T) | Failure(code: ErrorCode)

  const BYTE_ORDER_MARK: CodeUnit := 0xFEFF

  /** What the whole parser returns, in terms of the grammar. */
  function Parsed(s: JsString): Outcome<Json> {
    match P.ParseText(true, s)
    case Err(code) => Failure(code)
    case Ok(d, n) => Success(Value(true, d))
  }

  /** The values of the array elements from `p` on. */
  function Items(strict: bool, s: JsString, p: nat): Parse<seq<Json>>
    requires p <= |s|
  {
    match ParseElems(strict, s, p)
    case Err(code) => Err(code)
    case Ok(es, n) => Ok(ElemValues(strict, es), n)
  }

  /** One turn of the element loop. */
  function ItemsTurn(strict: bool, s: JsString, p: nat): Parse<seq<Json>>
    requires p <= |s|
  {
    match ParseValue(strict, s, SkipSpace(s, p))
    case Err(code) => Err(code)
    case Ok(d, n) =>
      var k := SkipSpace(s, n);
      if Starts(s, k, CLOSE_BRACKET) then Prepend(Value(strict, d), Ok([], k + 1))
      else if Starts(s, k, COMMA) then
        Prepend(Value(strict, d), Items(strict, s, k + 1))
      else Err(JsonInvalid)
  }

  lemma ItemsStep(strict: bool, s: JsString, p: nat)
    requires p <= |s|
    ensures Items(strict, s, p) == ItemsTurn(strict, s, p)
  {
    hide ParseValue, Value, Wf, SkipSpace;
    if Items(strict, s, p).Ok? {
      var es := ParseElems(strict, s, p).tree;
      assert ElemValues(strict, es) == [Value(strict, es.doc)] + ElemValues(strict, es.rest);
    }
  }

  /** The members from `p` on, given the names before them. */
  function Entries(strict: bool, s: JsString, p: nat, keys: set<JsString>): Parse<map<JsString, Json>>
    requires p <= |s|
  {
    match ParseMembers(strict, s, p, keys)
    case Err(code) => Err(code)
    case Ok(ms, n) => Ok(MemberValues(strict, ms, keys), n)
  }

  /** One turn of the member loop. */
  function EntriesTurn(strict: bool, s: JsString, p: nat, keys: set<JsString>): Parse<map<JsString, Json>>
    requires p <= |s|
  {
    match ParseHead(strict, s, p, keys)
    case Err(code) => Err(code)
    case Ok(head, v) =>
      match ParseValue(strict, s, v)
      case Err(code) => Err(code)
      case Ok(d, n) =>
        var k := SkipSpace(s, n);
        var entry := map[Decode(head.name) := Value(strict, d)];
        if Starts(s, k, CLOSE_BRACE) then Enter(entry, Ok(map[], k + 1))
        else if Starts(s, k, COMMA) then
          Enter(entry, Entries(strict, s, k + 1, keys + {Decode(head.name)}))
        else Err(JsonInvalid)
  }

  lemma EntriesStep(strict: bool, s: JsString, p: nat, keys: set<JsString>)
    requires p <= |s|
    ensures Entries(strict, s, p, keys) == EntriesTurn(strict, s, p, keys)
  {
    hide ParseValue, Value, Wf, SkipSpace, ParseHead, Decode;
    if Entries(strict, s, p, keys).Ok? {
      var ms := ParseMembers(strict, s, p, keys).tree;
      var name := Decode(ms.head.name);
      assert MemberValues(strict, ms, keys)
          == map[name := Value(strict, ms.doc)] + MemberValues(strict, ms.rest, keys + {name});
    }
  }

  lemma ObjectValue(s: JsString, i: nat)
    requires Starts(s, i, OPEN_BRACE)
    ensures var r := ParseValue(true, s, i); var j := SkipSpace(s, i + 1);
            if Starts(s, j, CLOSE_BRACE) then r.Ok? && Value(true, r.tree) == Obj(map[]) && r.next == j + 1
            else match Entries(true, s, i + 1, {})
                 case Err(code) => r == Err(code)
                 case Ok(m, n) => r.Ok? && Value(true, r.tree) == Obj(m) && r.next == n
  {
  }

  lemma ArrayValue(s: JsString, i: nat)
    requires Starts(s, i, OPEN_BRACKET)
    ensures var r := ParseValue(true, s, i); var j := SkipSpace(s, i + 1);
            if Starts(s, j, CLOSE_BRACKET) then r.Ok? && Value(true, r.tree) == Arr([]) && r.next == j + 1
            else match Items(true, s, i + 1)
                 case Err(code) => r == Err(code)
                 case Ok(vs, n) => r.Ok? && Value(true, r.tree) == Arr(vs) && r.next == n
  {
  }

  function Prepend<T>(x: T, rest: Parse<seq<T>>): Parse<seq<T>> {
    match rest
    case Err(code) => Err(code)
    case Ok(xs, n) => Ok([x] + xs, n)
  }

  function Enter(entry: map<JsString, Json>, rest: Parse<map<JsString, Json>>): Parse<map<JsString, Json>> {
    match rest
    case Err(code) => Err(code)
    case Ok(m, n) => Ok(entry + m, n)
  }

  /** A loop that has built `done` and has `left` to read will return `whole`. */
  predicate Resumes<T(==)>(whole: Parse<seq<T>>, done: seq<T>, left: Parse<seq<T>>) {
    match left
    case Err(code) => whole == Err(code)
    case Ok(rest, n) => whole == Ok(done + rest, n)
  }

  lemma ResumesStart<T>(whole: Parse<seq<T>>)
    ensures Resumes(whole, [], whole)
  {
    if whole.Ok? { assert [] + whole.tree == whole.tree; }
  }

  lemma ResumesNext<T>(whole: Parse<seq<T>>, done: seq<T>, x: T, left: Parse<seq<T>>)
    requires Resumes(whole, done, Prepend(x, left))
    ensures Resumes(whole, done + [x], left)
    ensures left.Ok? && left.tree == [] ==> whole == Ok(done + [x], left.next)
  {
    if left.Ok? {
      assert done + ([x] + left.tree) == done + [x] + left.tree;
      assert left.tree == [] ==> [x] + left.tree == [x];
    }
  }

  predicate ResumesMap(whole: Parse<map<JsString, Json>>, done: map<JsString, Json>, left: Parse<map<JsString, Json>>) {
    match left
    case Err(code) => whole == Err(code)
    case Ok(rest, n) => whole == Ok(done + rest, n)
  }

  lemma ResumesMapStart(whole: Parse<map<JsString, Json>>)
    ensures ResumesMap(whole, map[], whole)
  {
    if whole.Ok? { assert map[] + whole.tree == whole.tree; }
  }

  lemma ResumesMapNext(whole: Parse<map<JsString, Json>>, done: map<JsString, Json>, k: JsString, v: Json,
                       left: Parse<map<JsString, Json>>)
    requires ResumesMap(whole, done, Enter(map[k := v], left))
    ensures ResumesMap(whole, done[k := v], left)
    ensures left.Ok? && left.tree == map[] ==> whole == Ok(done[k := v], left.next)
  {
    if left.Ok? {
      assert done + (map[k := v] + left.tree) == done[k := v] + left.tree;
      assert left.tree == map[] ==> done[k := v] + left.tree == done[k := v];
    }
  }

  lemma EndOfText(s: JsString, p: nat, keys: set<JsString>)
    requires p <= |s| && SkipSpace(s, p) == |s|
    ensures ParseValue(true, s, |s|) == Err(JsonInvalid) && ParseHead(true, s, p, keys) == Err(JsonInvalid)
  {
  }

  /** A method run from `start` to `index` did what the reference parser does. */
  predicate Follows(r: Outcome<Json>, index: nat, reference: Parse<Doc>)
    requires reference.Ok? ==> Wf(true, reference.tree)
  {
    match reference
    case Err(code) => r == Failure(code)
    case Ok(d, n) => r == Success(Value(true, d)) && index == n
  }

  class StrictJsonParser {
    const source: JsString
    var index: nat

    constructor (source: JsString)
      ensures this.source == source && index == 0
    {
      this.source := source;
      index := 0;
    }

    method Parse() returns (r: Outcome<Json>)
      requires index == 0
      modifies this
      ensures r == Parsed(source)
    {
      if Starts(source, 0, BYTE_ORDER_MARK) {
        assert ParseNumeral(source, 0).Err?;
        return Failure(JsonInvalid);
      }
      SkipWhitespace();
      r := ParseValue();
      if r.Failure? { return; }
      SkipWhitespace();
      if index != |source| {
        return Failure(JsonInvalid);
      }
    }

    method SkipWhitespace()
      requires index <= |source|
      modifies this
      ensures index == SkipSpace(source, old(index))
    {
      while index < |source| && Space(source[index])
        invariant index <= |source|
        invariant SkipSpace(source, index) == SkipSpace(source, old(index))
      {
        index := index + 1;
      }
    }

    method ParseValue() returns (r: Outcome<Json>)
      requires index <= |source|
      modifies this
      ensures Follows(r, index, JsonGrammar.ParseValue(true, source, old(index)))
      decreases |source| - index, 1
    {
      if Starts(source, index, OPEN_BRACE) {
        r := ParseObject();
      } else if Starts(source, index, OPEN_BRACKET) {
        r := ParseArray();
      } else if Starts(source, index, QUOTE) {
        var text := ParseString();
        r := if text.Success? then Success(Str(text.value)) else Failure(text.code);
      } else if At(source, index, TRUE_TEXT) {
        index := index + 4;
        r := Success(Bool(true));
      } else if At(source, index, FALSE_TEXT) {
        index := index + 5;
        r := Success(Bool(false));
      } else if At(source, index, NULL_TEXT) {
        index := index + 4;
        r := Success(Null);
      } else {
        P.LongestMatch(source, index);
        r := ParseNumber();
      }
    }

    method ParseObject() returns (r: Outcome<Json>)
      requires Starts(source, index, OPEN_BRACE)
      modifies this
      ensures Follows(r, index, JsonGrammar.ParseValue(true, source, old(index)))
      decreases |source| - index, 0
    {
      hide Entries, ParseHead, Decode, JsonGrammar.ParseValue, SkipSpace, Wf, Value;
      ghost var first := index;
      index := index + 1;
      ghost var start := index;
      ghost var full := Entries(true, source, start, {});
      ObjectValue(source, first);
      var value: map<JsString, Json> := map[];
      var keys: set<JsString> := {};
      SkipWhitespace();
      if Starts(source, index, CLOSE_BRACE) {
        index := index + 1;
        return Success(Obj(value));
      }
      ghost var p := start;
      ResumesMapStart(full);
      while index < |source|
        invariant start <= p <= |source| && index == SkipSpace(source, p)
        invariant ResumesMap(full, value, Entries(true, source, p, keys))
        decreases |source| - p
      {
        EntriesStep(true, source, p, keys);
        var key := ParseName(keys, p);
        if key.Failure? { return Failure(key.code); }
        keys := keys + {key.value};
        var member := ParseValue();
        if member.Failure? { return Failure(member.code); }
        ghost var before := value;
        value := value[key.value := member.value];
        SkipWhitespace();
        if Starts(source, index, CLOSE_BRACE) {
          ResumesMapNext(full, before, key.value, member.value, Ok(map[], index + 1));
          index := index + 1;
          return Success(Obj(value));
        }
        if !Starts(source, index, COMMA) { return Failure(JsonInvalid); }
        index := index + 1;
        p := index;
        ResumesMapNext(full, before, key.value, member.value, Entries(true, source, p, keys));
        SkipWhitespace();
      }
      EntriesStep(true, source, p, keys);
      EndOfText(source, p, keys);
      return Failure(JsonInvalid);
    }

    /** A member name that is not among `keys`, and its colon: the first half of the member loop's body. */
    method ParseName(keys: set<JsString>, ghost p: nat) returns (r: Outcome<JsString>)
      requires p <= |source| && index == SkipSpace(source, p)
      modifies this
      ensures match ParseHead(true, source, p, keys)
              case Err(code) => r == Failure(code)
              case Ok(head, v) => r == Success(Decode(head.name)) && index == v
    {
      if !Starts(source, index, QUOTE) { return Failure(JsonInvalid); }
      var key := ParseString();
      if key.Failure? { return Failure(key.code); }
      if key.value in keys { return Failure(DuplicateKey); }
      SkipWhitespace();
      if !Starts(source, index, COLON) { return Failure(JsonInvalid); }
      index := index + 1;
      SkipWhitespace();
      return key;
    }

    method ParseArray() returns (r: Outcome<Json>)
      requires Starts(source, index, OPEN_BRACKET)
      modifies this
      ensures Follows(r, index, JsonGrammar.ParseValue(true, source, old(index)))
      decreases |source| - index, 0
    {
      hide Items, JsonGrammar.ParseValue, SkipSpace, Wf, Value;
      ghost var first := index;
      index := index + 1;
      ghost var start := index;
      ghost var full := Items(true, source, start);
      ArrayValue(source, first);
      var value: seq<Json> := [];
      SkipWhitespace();
      if Starts(source, index, CLOSE_BRACKET) {
        index := index + 1;
        return Success(Arr(value));
      }
      ghost var p := start;
      ResumesStart(full);
      while index < |source|
        invariant start <= p <= |source| && index == SkipSpace(source, p)
        invariant Resumes(full, value, Items(true, source, p))
        decreases |source| - p
      {
        ItemsStep(true, source, p);
        var item := ParseValue();
        if item.Failure? { return Failure(item.code); }
        ghost var before := value;
        value := value + [item.value];
        SkipWhitespace();
        if Starts(source, index, CLOSE_BRACKET) {
          ResumesNext(full, before, item.value, Ok([], index + 1));
          index := index + 1;
          return Success(Arr(value));
        }
        if !Starts(source, index, COMMA) { return Failure(JsonInvalid); }
        index := index + 1;
        p := index;
        ResumesNext(full, before, item.value, Items(true, source, p));
        SkipWhitespace();
      }
      ItemsStep(true, source, p);
      EndOfText(source, p, {});
      return Failure(JsonInvalid);
    }

    method ParseString() returns (r: Outcome<JsString>)
      requires Starts(source, index, QUOTE)
      modifies this
      ensures match JsonGrammar.ParseString(true, source, old(index))
              case Err(code) => r == Failure(code)
              case Ok(ps, n) => r == Success(Decode(ps)) && index == n
    {
      index := index + 1;
      ghost var start := index;
      ghost var full := ParsePieces(source, start);
      ghost var done: seq<Piece> := [];
      ResumesStart(full);
      var result: JsString := [];
      while index < |source|
        invariant start <= index <= |source| && WfPieces(done) && result == Decode(done)
        invariant Resumes(full, done, ParsePieces(source, index))
      {
        var character := source[index];
        ghost var piece := ParsePiece(source, index);
        if character == QUOTE {
          index := index + 1;
          assert done + [] == done;
          var accepted := AssertUnicodeScalarString(result);
          return if accepted then Success(result) else Failure(ValueInvalid);
        }
        if character <= 0x1F { return Failure(JsonInvalid); }
        if character != BACKSLASH {
          result := result + [character];
          index := index + 1;
        } else {
          index := index + 1;
          if index == |source| { return Failure(JsonInvalid); }
          var escape := source[index];
          index := index + 1;
          if ShortEscape(escape) {
            result := result + [DecodePiece(Short(escape))];
          } else if escape == 0x75 {
            if !(index + 4 <= |source| && AllHex(source[index..index + 4])) { return Failure(JsonInvalid); }
            result := result + [DecodePiece(Hex(source[index..index + 4]))];
            index := index + 4;
          } else {
            return Failure(JsonInvalid);
          }
        }
        assert piece.Ok? && piece.next == index;
        ResumesNext(full, done, piece.tree, ParsePieces(source, index));
        done := done + [piece.tree];
      }
      return Failure(JsonInvalid);
    }

    /** The longest number literal at the index. */
    method ParseNumber() returns (r: Outcome<Json>)
      requires index <= |source|
      modifies this
      ensures (forall n :: !P.NumeralAt(source, old(index), n)) ==> r == Failure(JsonInvalid)
      ensures forall n :: P.LongestNumeral(source, old(index), n) ==>
                if Finite(NumeralValue(n)) then r == Success(Num(NumeralValue(n))) && index == old(index) + |RenderNumeral(n)|
                else r == Failure(ValueInvalid)
    {
      hide RenderNumeral, NumeralValue, Finite;
      P.LongestMatch(source, index);
      match ParseNumeral(source, index) {
        case Err(code) => return Failure(code);
        case Ok(n, e) =>
          P.OneLongest(source, index, n);
          index := e;
          if !Finite(NumeralValue(n)) { return Failure(ValueInvalid); }
          return Success(Num(NumeralValue(n)));
      }
    }
  }
}
