/** The canonical encoder: members sorted by the UTF-8 bytes of their names, no white space, integers in
    decimal, only `"` and `\` escaped. Parsing undoes it, so equal encodings mean equal values. */
module CanonicalJson {
  import opened Ordering
  import opened JsStrings
  import opened JsonGrammar
  import opened P = JsonGrammarProofs
  import S = StrictJson

  const MAX_SAFE_INTEGER := 0x1F_FFFF_FFFF_FFFF

  /** The values the encoder does not throw on. */
  predicate Encodable(v: Json) {
    match v
    case Null => true
    case Bool(_) => true
    case Num(n) => n == n.Floor as real && 0 <= n.Floor <= MAX_SAFE_INTEGER
    case Str(s) => ScalarString(s)
    case Arr(items) => forall x :: x in items ==> Encodable(x)
    case Obj(members) => forall k :: k in members ==> ScalarString(k) && Encodable(members[k])
  }

  predicate Least(k: JsString, s: set<JsString>) {
    k in s && forall x :: x in s ==> LexLeq(Utf8(k), Utf8(x))
  }

  lemma {:induction false} LeastName(s: set<JsString>) returns (k: JsString)
    requires s != {}
    ensures Least(k, s)
    decreases |s|
  {
    hide Utf8, LexLeq;
    k :| k in s;
    LexReflexive(Utf8(k));
    if s != {k} {
      var other := LeastName(s - {k});
      LexTotal(Utf8(k), Utf8(other));
      if LexLeq(Utf8(k), Utf8(other)) {
        forall x | x in s && x != k ensures LexLeq(Utf8(k), Utf8(x)) {
          assert x in s - {k};
          LexTransitive(Utf8(k), Utf8(other), Utf8(x));
        }
      } else {
        assert forall x :: x in s ==> x == k || x in s - {k};
        k := other;
      }
    }
  }

  lemma OneLeastName(s: set<JsString>)
    requires s != {} && forall k :: k in s ==> ScalarString(k)
    ensures exists k :: Least(k, s)
    ensures forall a, b :: Least(a, s) && Least(b, s) ==> a == b
  {
    hide Utf8, LexLeq;
    var k := LeastName(s);
    forall a, b | Least(a, s) && Least(b, s) ensures a == b {
      LexAntisymmetric(Utf8(a), Utf8(b));
      Utf8Injective(a, b);
    }
  }

  /** The member names in byte order. */
  function SortedKeys(s: set<JsString>): (r: seq<JsString>)
    requires forall k :: k in s ==> ScalarString(k)
    ensures |r| == |s| && forall x :: x in r <==> x in s
    decreases |s|
  {
    if s == {} then []
    else
      OneLeastName(s);
      var k :| Least(k, s);
      [k] + SortedKeys(s - {k})
  }

  predicate Distinct(ks: seq<JsString>) {
    forall i, j :: 0 <= i < j < |ks| ==> ks[i] != ks[j]
  }

  /** A least name in front of sorted, distinct names. */
  lemma LeastInFront(k: JsString, ks: seq<JsString>)
    requires SortedBy(ks, Utf8) && Distinct(ks) && k !in ks && forall x :: x in ks ==> LexLeq(Utf8(k), Utf8(x))
    ensures SortedBy([k] + ks, Utf8) && Distinct([k] + ks)
  {
    hide Utf8, LexLeq;
    var all := [k] + ks;
    forall i, j | 0 <= i < j < |all| ensures LexLeq(Utf8(all[i]), Utf8(all[j])) && all[i] != all[j] {
      assert all[j] == ks[j - 1];
      if i > 0 { assert all[i] == ks[i - 1]; }
    }
  }

  lemma {:induction false} KeysSortedAndDistinct(s: set<JsString>)
    requires forall k :: k in s ==> ScalarString(k)
    ensures SortedBy(SortedKeys(s), Utf8) && Distinct(SortedKeys(s)) && multiset(SortedKeys(s)) == multiset(s)
    decreases |s|
  {
    hide Utf8, LexLeq, ScalarString, Distinct, SortedBy;
    if s == {} {
      NoNames();
    } else {
      var ks := SortedKeys(s);
      var rest := s - {ks[0]};
      assert ks == [ks[0]] + SortedKeys(rest);
      KeysSortedAndDistinct(rest);
      LeastInFront(ks[0], SortedKeys(rest));
      assert multiset(s) == multiset{ks[0]} + multiset(rest);
    }
  }

  lemma NoNames()
    ensures SortedKeys({}) == [] && SortedBy(SortedKeys({}), Utf8) && Distinct(SortedKeys({}))
  {
  }

  lemma NamesDistinct(s: set<JsString>)
    requires forall k :: k in s ==> ScalarString(k)
    ensures Distinct(SortedKeys(s))
  {
    KeysSortedAndDistinct(s);
  }

  /** Sorting the names in whatever order the object lists them gives the same sequence. */
  lemma KeyOrderForgotten(names: seq<JsString>, s: set<JsString>)
    requires multiset(names) == multiset(s) && forall k :: k in s ==> ScalarString(k)
    ensures SortBy(names, Utf8) == SortedKeys(s)
  {
    KeysSortedAndDistinct(s);
    SortBySorts(names, Utf8);
    forall x, y | x in names && y in names && Utf8(x) == Utf8(y) ensures x == y {
      assert x in multiset(names) && y in multiset(names);
      Utf8Injective(x, y);
    }
    forall x | x in SortBy(names, Utf8) ensures x in names { assert x in multiset(names); }
    SortedUnique(SortBy(names, Utf8), SortedKeys(s), Utf8);
  }

  function Decimal(n: nat): (d: JsString)
    ensures d != []
  {
    if n < 10 then [0x30 + n] else Decimal(n / 10) + [0x30 + n % 10]
  }

  /** JSON.stringify of a string without control characters. */
  function EscapeUnit(c: CodeUnit): JsString {
    if c == QUOTE || c == BACKSLASH then [BACKSLASH, c] else [c]
  }

  function Escape(s: JsString): JsString {
    if s == [] then [] else Cat(EscapeUnit(s[0]), Escape(s[1..]))
  }

  function Encode(v: Json): JsString
    requires Encodable(v)
    decreases v, 1, 0
  {
    match v
    case Null => NULL_TEXT
    case Bool(b) => if b then TRUE_TEXT else FALSE_TEXT
    case Num(n) => Decimal(n.Floor)
    case Str(s) => EncodeString(s)
    case Arr(items) => Cat([OPEN_BRACKET], Cat(EncodeItems(v, 0), [CLOSE_BRACKET]))
    case Obj(members) =>
      Cat([OPEN_BRACE], Cat(EncodeMembers(v, SortedKeys(members.Keys)), [CLOSE_BRACE]))
  }

  function EncodeString(s: JsString): JsString {
    Cat([QUOTE], Cat(Escape(s), [QUOTE]))
  }

  /** The items from `i` on, joined by commas. */
  function EncodeItems(v: Json, i: nat): JsString
    requires v.Arr? && Encodable(v) && i <= |v.items|
    decreases v, 0, |v.items| - i
  {
    if i == |v.items| then []
    else if i + 1 == |v.items| then Encode(v.items[i])
    else Cat(Encode(v.items[i]), Cat([COMMA], EncodeItems(v, i + 1)))
  }

  /** The members named by `ks`, joined by commas. */
  function EncodeMembers(v: Json, ks: seq<JsString>): JsString
    requires v.Obj? && Encodable(v) && forall k :: k in ks ==> k in v.members
    decreases v, 0, |ks|
  {
    if ks == [] then []
    else
      var member := Cat(EncodeString(ks[0]), Cat([COLON], Encode(v.members[ks[0]])));
      if |ks| == 1 then member else Cat(member, Cat([COMMA], EncodeMembers(v, ks[1..])))
  }

  /** canonicalJson: every way it fails is the same error. */
  function Canonical(v: Json): S.Outcome<JsString> {
    if Encodable(v) then S.Success(Encode(v)) else S.Failure(ValueInvalid)
  }

  // ---- the tree an encoding is the text of ----

  function Pieces(s: JsString): (ps: seq<Piece>)
    ensures |ps| == |s|
  {
    seq(|s|, i requires 0 <= i < |s| => if s[i] == QUOTE || s[i] == BACKSLASH then Short(s[i]) else Raw(s[i]))
  }

  ghost function Tree(v: Json): Doc
    requires Encodable(v)
    decreases v, 1, 0
  {
    match v
    case Null => DNull
    case Bool(b) => if b then DTrue else DFalse
    case Num(n) => DNum(Numeral(false, Decimal(n.Floor), [], [], []))
    case Str(s) => DStr(Pieces(s))
    case Arr(items) => DArr([], ItemTrees(v, 0))
    case Obj(members) =>
      DObj([], MemberTrees(v, SortedKeys(members.Keys)))
  }

  ghost function ItemTrees(v: Json, i: nat): Elems
    requires v.Arr? && Encodable(v) && i <= |v.items|
    decreases v, 0, |v.items| - i
  {
    if i == |v.items| then ENil else ECons([], Tree(v.items[i]), [], ItemTrees(v, i + 1))
  }

  ghost function MemberTrees(v: Json, ks: seq<JsString>): Members
    requires v.Obj? && Encodable(v) && forall k :: k in ks ==> k in v.members
    decreases v, 0, |ks|
  {
    if ks == [] then MNil
    else MCons(Head([], Pieces(ks[0]), [], []), Tree(v.members[ks[0]]), [], MemberTrees(v, ks[1..]))
  }

  lemma {:induction false} DecimalMeans(n: nat)
    ensures AllDigits(Decimal(n)) && DigitsValue(Decimal(n)) == n
    ensures Decimal(n)[0] == 0x30 ==> n == 0
  {
    var d := Decimal(n);
    if n < 10 {
      assert d[..0] == [];
    } else {
      DecimalMeans(n / 10);
      assert d[..|d| - 1] == Decimal(n / 10);
    }
  }

  lemma {:induction false} PiecesMean(s: JsString)
    requires ControlFree(s)
    ensures WfPieces(Pieces(s)) && Decode(Pieces(s)) == s && RenderPieces(Pieces(s)) == Escape(s)
    decreases |s|
  {
    assert Decode(Pieces(s)) == s;
    if s != [] {
      assert Pieces(s)[1..] == Pieces(s[1..]);
      PiecesMean(s[1..]);
      assert RenderPiece(Pieces(s)[0]) == EscapeUnit(s[0]);
    }
  }

  lemma CatNothing(a: JsString)
    ensures Cat([], a) == a && Cat(a, []) == a
  {
  }

  lemma CatAssociative(a: JsString, b: JsString, c: JsString)
    ensures Cat(Cat(a, b), c) == Cat(a, Cat(b, c))
  {
  }

  lemma {:induction false} TreeMeans(v: Json)
    requires Encodable(v)
    ensures Wf(true, Tree(v)) && Value(true, Tree(v)) == v && Render(Tree(v)) == Encode(v)
    decreases v, 1, 0
  {
    hide Cat, ScalarString, Finite;
    match v {
      case Null =>
      case Bool(b) =>
      case Num(n) => NumberMeans(n);
      case Str(s) => StringMeans(s);
      case Arr(items) =>
        ItemsMean(v, 0);
        CatNothing(Cat(EncodeItems(v, 0), [CLOSE_BRACKET]));
      case Obj(members) => ObjectMeans(v);
    }
  }

  lemma {:induction false} ObjectMeans(v: Json)
    requires v.Obj? && Encodable(v)
    ensures Wf(true, Tree(v)) && Value(true, Tree(v)) == v && Render(Tree(v)) == Encode(v)
    decreases v, 0, |v.members| + 1
  {
    hide Cat, Encodable, ScalarString, EncodeMembers, MemberTrees, RenderMembers, WfMembers, MemberValues, SortedKeys;
    EncodableKeys(v);
    var ks := SortedKeys(v.members.Keys);
    NamesDistinct(v.members.Keys);
    MembersMean(v, ks, {});
    assert (map k | k in ks :: v.members[k]) == v.members;
    CatNothing(Cat(EncodeMembers(v, ks), [CLOSE_BRACE]));
  }

  lemma PlainNumeral(d: JsString)
    requires d != [] && AllDigits(d) && (d[0] == 0x30 ==> |d| == 1)
    ensures var n := Numeral(false, d, [], [], []);
            WfNumeral(n) && NumeralValue(n) == DigitsValue(d) as real && RenderNumeral(n) == d
  {
    assert DigitsValue([]) == 0 && Pow10(0) == 1.0;
    CatNothing(d);
    CatNothing([]);
  }

  lemma SafeIntegersAreFinite(n: nat)
    requires n <= MAX_SAFE_INTEGER
    ensures Finite(n as real)
  {
  }

  lemma NumberMeans(n: real)
    requires Encodable(Num(n))
    ensures Wf(true, Tree(Num(n))) && Value(true, Tree(Num(n))) == Num(n) && Render(Tree(Num(n))) == Encode(Num(n))
  {
    hide Finite, NumeralValue, RenderNumeral, AllDigits, Decimal;
    DecimalMeans(n.Floor);
    ZeroAlone(n.Floor);
    PlainNumeral(Decimal(n.Floor));
    SafeIntegersAreFinite(n.Floor);
  }

  lemma ZeroAlone(n: nat)
    ensures Decimal(n)[0] == 0x30 ==> |Decimal(n)| == 1
  {
    DecimalMeans(n);
  }

  lemma StringMeans(s: JsString)
    requires ScalarString(s)
    ensures WfString(true, Pieces(s)) && Decode(Pieces(s)) == s && RenderString(Pieces(s)) == EncodeString(s)
  {
    PiecesMean(s);
  }

  lemma {:induction false} ItemsMean(v: Json, i: nat)
    requires v.Arr? && Encodable(v) && i <= |v.items|
    ensures WfElems(true, ItemTrees(v, i)) && ElemValues(true, ItemTrees(v, i)) == v.items[i..]
    ensures RenderElems(ItemTrees(v, i)) == EncodeItems(v, i)
    decreases v, 0, |v.items| - i
  {
    hide Cat, Encodable, Wf, Value, Render, Encode, Tree;
    if i < |v.items| {
      EncodableItem(v, i);
      TreeMeans(v.items[i]);
      ItemsMean(v, i + 1);
      var t := Encode(v.items[i]);
      var tail := if i + 1 == |v.items| then [] else Cat([COMMA], EncodeItems(v, i + 1));
      CatNothing(tail);
      CatNothing(t);
      CatNothing(Cat(t, tail));
      assert v.items[i..] == [v.items[i]] + v.items[i + 1..];
    }
  }

  lemma EncodableKeys(v: Json)
    requires v.Obj? && Encodable(v)
    ensures forall k :: k in v.members.Keys ==> ScalarString(k)
  {
  }

  lemma EncodableItem(v: Json, i: nat)
    requires v.Arr? && Encodable(v) && i < |v.items|
    ensures Encodable(v.items[i])
  {
  }

  lemma EncodableMember(v: Json, k: JsString)
    requires v.Obj? && Encodable(v) && k in v.members
    ensures Encodable(v.members[k]) && ScalarString(k)
  {
  }

  /** The text of one member, cut the way the tree cuts it. */
  lemma MemberText(name: JsString, t: JsString, tail: JsString)
    ensures Cat(Cat([], Cat(name, Cat([], Cat([COLON], [])))), Cat(t, Cat([], tail)))
         == Cat(Cat(name, Cat([COLON], t)), tail)
  {
  }

  lemma {:induction false} MembersMean(v: Json, ks: seq<JsString>, seen: set<JsString>)
    requires v.Obj? && Encodable(v) && (forall k :: k in ks ==> k in v.members)
    requires Distinct(ks) && forall k :: k in ks ==> k !in seen
    ensures WfMembers(true, MemberTrees(v, ks), seen)
    ensures MemberValues(true, MemberTrees(v, ks), seen) == map k | k in ks :: v.members[k]
    ensures RenderMembers(MemberTrees(v, ks)) == EncodeMembers(v, ks)
    decreases v, 0, |ks|
  {
    hide Cat, Encodable, Wf, Value, Render, Encode, Tree, WfString, RenderString, EncodeString, Decode, EncodeMembers, RenderMembers;
    if ks != [] {
      var k := ks[0];
      EncodableMember(v, k);
      TreeMeans(v.members[k]);
      StringMeans(k);
      MembersMean(v, ks[1..], seen + {k});
      MembersText(v, ks);
      FirstMember(v.members, ks);
    } else {
      NoMembers(v);
    }
  }

  lemma FirstMember(m: map<JsString, Json>, ks: seq<JsString>)
    requires ks != [] && forall k :: k in ks ==> k in m
    ensures (map x | x in ks :: m[x]) == map[ks[0] := m[ks[0]]] + (map x | x in ks[1..] :: m[x])
  {
    assert ks == [ks[0]] + ks[1..];
  }

  lemma NoMembers(v: Json)
    requires v.Obj? && Encodable(v)
    ensures RenderMembers(MemberTrees(v, [])) == EncodeMembers(v, [])
  {
  }

  lemma MembersText(v: Json, ks: seq<JsString>)
    requires v.Obj? && Encodable(v) && (forall k :: k in ks ==> k in v.members) && ks != []
    requires Encodable(v.members[ks[0]]) && Render(Tree(v.members[ks[0]])) == Encode(v.members[ks[0]])
    requires RenderString(Pieces(ks[0])) == EncodeString(ks[0])
    requires RenderMembers(MemberTrees(v, ks[1..])) == EncodeMembers(v, ks[1..])
    ensures RenderMembers(MemberTrees(v, ks)) == EncodeMembers(v, ks)
  {
    hide Cat, Encodable, Render, Encode, Tree, RenderString, EncodeString, Pieces;
    var name, t := EncodeString(ks[0]), Encode(v.members[ks[0]]);
    var tail := if |ks| == 1 then [] else Cat([COMMA], EncodeMembers(v, ks[1..]));
    MemberText(name, t, tail);
    CatNothing(Cat(name, Cat([COLON], t)));
  }

  // ---- the laws ----

  lemma CanonicalIsText(v: Json)
    requires Encodable(v)
    ensures IsText(true, Encode(v), [], Tree(v), [])
  {
    TreeMeans(v);
    CatNothing(Encode(v));
  }

  /** Parsing undoes encoding, for every value that can be encoded. */
  lemma RoundTrip(v: Json)
    requires Encodable(v)
    ensures S.Parsed(Encode(v)) == S.Success(v)
  {
    CanonicalIsText(v);
    TreeMeans(v);
    TextComplete(true, Encode(v), [], Tree(v), []);
  }

  /** The encoder succeeds exactly on encodable values and is injective on them. */
  lemma CanonicalInjective(v: Json, w: Json)
    requires Canonical(v).Success? && Canonical(v) == Canonical(w)
    ensures v == w
  {
    RoundTrip(v);
    RoundTrip(w);
  }

  /** Re-encoding a parsed canonical text changes nothing; any other text of the same value re-encodes to it. */
  lemma ReencodingIsCanonical(s: JsString, v: Json)
    requires Encodable(v) && S.Parsed(s) == S.Success(v)
    ensures Canonical(S.Parsed(s).value) == S.Success(Encode(v))
    ensures S.Parsed(Encode(v)) == S.Parsed(s)
    ensures (exists w :: Encodable(w) && s == Encode(w)) <==> s == Encode(v)
  {
    RoundTrip(v);
    forall w | Encodable(w) && s == Encode(w) ensures s == Encode(v) { RoundTrip(w); }
  }
}
