/** Which texts are canonical, told from their characters: no white space, names in the order of their code points, integers
    in plain decimal, and no escape that is not needed. */
module CanonicalForm {
  import opened Ordering
  import opened JsStrings
  import opened JsonGrammar
  import opened P = JsonGrammarProofs
  import opened CanonicalJson

  // ---- the order of names ----

  /** At the first difference the first sequence ends or is smaller. */
  ghost predicate Before(x: seq<int>, y: seq<int>) { exists k :: DiffersAt(x, y, k) }

  predicate DiffersAt(x: seq<int>, y: seq<int>, k: int) {
    0 <= k <= |x| && k < |y| && x[..k] == y[..k] && (k == |x| || x[k] < y[k])
  }

  lemma {:induction false} LexIsBefore(x: seq<int>, y: seq<int>)
    ensures LexLess(x, y) <==> Before(x, y)
  {
    if x == [] || y == [] {
      if y != [] { assert DiffersAt(x, y, 0); }
    } else {
      LexIsBefore(x[1..], y[1..]);
      if LexLess(x, y) {
        if x[0] < y[0] {
          assert DiffersAt(x, y, 0);
        } else {
          var k :| DiffersAt(x[1..], y[1..], k);
          Shift(x, y, k);
        }
      }
      if Before(x, y) {
        var k :| DiffersAt(x, y, k);
        if k > 0 {
          assert x[0] == x[..k][0] && y[0] == y[..k][0];
          Shift(x, y, k - 1);
        }
      }
    }
  }

  lemma Shift(x: seq<int>, y: seq<int>, k: int)
    requires x != [] && y != [] && x[0] == y[0] && k >= 0
    ensures DiffersAt(x[1..], y[1..], k) <==> DiffersAt(x, y, k + 1)
  {
    if k + 1 <= |x| && k + 1 <= |y| {
      assert x[..k + 1] == [x[0]] + x[1..][..k];
      assert y[..k + 1] == [y[0]] + y[1..][..k];
    }
  }

  ghost predicate NamesInOrder(a: JsString, b: JsString) { Before(CodePoints(a), CodePoints(b)) }

  lemma OrderIsUtf8(a: JsString, b: JsString)
    ensures NamesInOrder(a, b) <==> LexLess(Utf8(a), Utf8(b))
  {
    LexIsBefore(CodePoints(a), CodePoints(b));
    Utf8OrderIsCodePointOrder(b, a);
  }

  // ---- plain trees ----

  predicate PlainPiece(p: Piece) { p.Raw? || (p.Short? && (p.letter == '"' as int || p.letter == '\\' as int)) }
  predicate PlainPieces(ps: seq<Piece>) { forall i :: 0 <= i < |ps| ==> PlainPiece(ps[i]) }

  /** A natural number without sign, fraction and exponent. */
  predicate PlainNumeral(n: Numeral)
    requires WfNumeral(n)
  {
    !n.neg && n.frac == [] && n.mark == [] && n.exp == [] && DigitsValue(n.whole) <= 9_007_199_254_740_991
  }

  ghost predicate Plain(d: Doc)
    requires Wf(true, d)
  {
    match d
    case DNull => true
    case DTrue => true
    case DFalse => true
    case DNum(n) => PlainNumeral(n)
    case DStr(ps) => PlainPieces(ps)
    case DArr(pad, es) => pad == [] && PlainElems(es)
    case DObj(pad, ms) => pad == [] && PlainMembers(ms, {})
  }

  ghost predicate PlainElems(es: Elems)
    requires WfElems(true, es)
  {
    match es
    case ENil => true
    case ECons(pre, d, post, rest) => pre == [] && post == [] && Plain(d) && PlainElems(rest)
  }

  ghost predicate PlainMembers(ms: Members, seen: set<JsString>)
    requires WfMembers(true, ms, seen)
  {
    match ms
    case MNil => true
    case MCons(head, d, post, rest) =>
      && PlainHead(head) && post == [] && Plain(d) && PlainMembers(rest, seen + {Decode(head.name)})
      && (rest.MCons? ==> NamesInOrder(Decode(head.name), Decode(rest.head.name)))
  }

  predicate PlainHead(h: Head) { h.pre == [] && h.gap == [] && h.lead == [] && PlainPieces(h.name) }

  // ---- plain trees are trees of encodings ----

  lemma PlainString(ps: seq<Piece>)
    requires WfPieces(ps) && PlainPieces(ps)
    ensures Pieces(Decode(ps)) == ps
  {
    forall i | 0 <= i < |ps| ensures Pieces(Decode(ps))[i] == ps[i] {
      assert WfPiece(ps[i]) && PlainPiece(ps[i]);
    }
  }

  lemma {:induction false} DecimalOfValue(d: JsString)
    requires d != [] && AllDigits(d) && (d[0] == 0x30 ==> |d| == 1)
    ensures Decimal(DigitsValue(d)) == d && (d[0] != 0x30 ==> DigitsValue(d) > 0)
    decreases |d|
  {
    var init, last := d[..|d| - 1], d[|d| - 1];
    if init == [] {
      assert DigitsValue(init) == 0;
      assert d == [last];
    } else {
      DecimalOfValue(init);
      LastDigit(DigitsValue(init), last - 0x30);
      assert d == init + [last];
    }
  }

  lemma LastDigit(n: nat, k: nat)
    requires k < 10
    ensures (10 * n + k) / 10 == n && (10 * n + k) % 10 == k
  {
  }

  lemma PlainNumber(n: Numeral)
    requires WfNumeral(n) && PlainNumeral(n) && Finite(NumeralValue(n))
    ensures Encodable(Num(NumeralValue(n))) && Tree(Num(NumeralValue(n))) == DNum(n)
  {
    hide Finite;
    DecimalOfValue(n.whole);
    CanonicalJson.PlainNumeral(n.whole);
    assert n == Numeral(false, n.whole, [], [], []);
  }

  lemma {:induction false} PlainTree(d: Doc)
    requires Wf(true, d) && Plain(d)
    ensures Encodable(Value(true, d)) && Tree(Value(true, d)) == d
    decreases d, 1
  {
    hide ScalarString, Finite, NumeralValue, Decode, Pieces, PlainPieces, Encodable, Tree;
    match d {
      case DNull => Constants();
      case DTrue => Constants();
      case DFalse => Constants();
      case DNum(n) => PlainNumber(n);
      case DStr(ps) =>
        PlainString(ps);
        StringTree(Decode(ps));
      case DArr(pad, es) => PlainArray(es);
      case DObj(pad, ms) => PlainObject(ms);
    }
  }

  lemma Constants()
    ensures Encodable(Null) && Encodable(Bool(true)) && Encodable(Bool(false))
    ensures Tree(Null) == DNull && Tree(Bool(true)) == DTrue && Tree(Bool(false)) == DFalse
  {
  }

  lemma StringTree(s: JsString)
    requires ScalarString(s)
    ensures Encodable(Str(s)) && Tree(Str(s)) == DStr(Pieces(s))
  {
  }

  lemma {:induction false} PlainItems(es: Elems)
    requires WfElems(true, es) && PlainElems(es)
    ensures forall x :: x in ElemValues(true, es) ==> Encodable(x)
    decreases es, 0
  {
    hide Encodable, Tree, Wf, Plain;
    if es.ECons? {
      PlainTree(es.doc);
      PlainItems(es.rest);
    }
  }

  lemma ArrayEncodable(items: seq<Json>)
    requires forall x :: x in items ==> Encodable(x)
    ensures Encodable(Arr(items)) && Tree(Arr(items)) == DArr([], ItemTrees(Arr(items), 0))
  {
  }

  /** The trees of the items from `i` on. */
  lemma {:induction false} ItemsTree(v: Json, i: nat, es: Elems)
    requires v.Arr? && Encodable(v) && i <= |v.items| && WfElems(true, es) && PlainElems(es) && ElemValues(true, es) == v.items[i..]
    ensures ItemTrees(v, i) == es
    decreases es, 0
  {
    hide Encodable, Tree, Wf, Plain, Value;
    if es.ECons? {
      assert v.items[i..][0] == v.items[i] && v.items[i..][1..] == v.items[i + 1..];
      EncodableItem(v, i);
      PlainTree(es.doc);
      ItemsTree(v, i + 1, es.rest);
    }
  }

  lemma {:induction false} PlainArray(es: Elems)
    requires WfElems(true, es) && PlainElems(es)
    ensures var v := Arr(ElemValues(true, es)); Encodable(v) && Tree(v) == DArr([], es)
    decreases es, 1
  {
    hide Encodable, Tree, WfElems, PlainElems, ElemValues;
    var v := Arr(ElemValues(true, es));
    PlainItems(es);
    ArrayEncodable(v.items);
    assert v.items[0..] == v.items;
    ItemsTree(v, 0, es);
  }

  /** The member names as they are listed. */
  function NamesOf(ms: Members, seen: set<JsString>): (ks: seq<JsString>)
    requires WfMembers(true, ms, seen)
    ensures ks == [] <==> ms.MNil?
    ensures ms.MCons? ==> ks[0] == Decode(ms.head.name)
    ensures forall k :: k in ks ==> k !in seen
  {
    match ms
    case MNil => []
    case MCons(head, _, _, rest) => [Decode(head.name)] + NamesOf(rest, seen + {Decode(head.name)})
  }

  predicate Rising(ks: seq<JsString>) { forall i, j :: 0 <= i < j < |ks| ==> LexLess(Utf8(ks[i]), Utf8(ks[j])) }

  lemma RisingFront(k: JsString, ks: seq<JsString>)
    requires Rising(ks) && (ks != [] ==> LexLess(Utf8(k), Utf8(ks[0])))
    ensures Rising([k] + ks)
  {
    hide Utf8, LexLess;
    var all := [k] + ks;
    forall i, j | 0 <= i < j < |all| ensures LexLess(Utf8(all[i]), Utf8(all[j])) {
      assert all[j] == ks[j - 1];
      if i > 0 {
        assert all[i] == ks[i - 1];
      } else if j > 1 {
        LexLessTransitive(Utf8(k), Utf8(ks[0]), Utf8(ks[j - 1]));
      }
    }
  }

  lemma RisingIsSorted(ks: seq<JsString>)
    requires Rising(ks)
    ensures SortedBy(ks, Utf8) && Distinct(ks)
  {
    hide Utf8;
    forall i, j | 0 <= i < j < |ks| ensures LexLeq(Utf8(ks[i]), Utf8(ks[j])) && ks[i] != ks[j] {
      LexTotal(Utf8(ks[i]), Utf8(ks[j]));
    }
  }

  lemma SortedIsRising(ks: seq<JsString>)
    requires SortedBy(ks, Utf8) && Distinct(ks) && forall k :: k in ks ==> ScalarString(k)
    ensures Rising(ks)
  {
    hide Utf8, LexLeq, ScalarString;
    forall i, j | 0 <= i < j < |ks| ensures LexLess(Utf8(ks[i]), Utf8(ks[j])) {
      if LexLeq(Utf8(ks[j]), Utf8(ks[i])) {
        LexAntisymmetric(Utf8(ks[i]), Utf8(ks[j]));
        OneText(ks[i], ks[j]);
      }
    }
  }

  /** Names, values and order of plain members. */
  lemma {:induction false} PlainNames(ms: Members, seen: set<JsString>)
    requires WfMembers(true, ms, seen) && PlainMembers(ms, seen)
    ensures var m, ks := MemberValues(true, ms, seen), NamesOf(ms, seen);
            && (forall k :: k in m <==> k in ks) && Rising(ks)
            && forall k :: k in m ==> ScalarString(k) && Encodable(m[k])
    decreases ms, 0
  {
    hide Encodable, Tree, Wf, Plain, ScalarString, Utf8, Rising, Decode, Value;
    if ms.MCons? {
      PlainTree(ms.doc);
      PlainNames(ms.rest, seen + {Decode(ms.head.name)});
      NextName(ms, seen);
      RisingFront(Decode(ms.head.name), NamesOf(ms.rest, seen + {Decode(ms.head.name)}));
    } else {
      NoNamesRise();
    }
  }

  lemma NoNamesRise()
    ensures Rising([])
  {
  }

  lemma NextName(ms: Members, seen: set<JsString>)
    requires WfMembers(true, ms, seen) && PlainMembers(ms, seen) && ms.MCons?
    ensures ScalarString(Decode(ms.head.name))
    ensures ms.rest.MCons? ==> WfPieces(ms.rest.head.name)
                               && LexLess(Utf8(Decode(ms.head.name)), Utf8(Decode(ms.rest.head.name)))
  {
    hide Wf, Plain;
    if ms.rest.MCons? { OrderIsUtf8(Decode(ms.head.name), Decode(ms.rest.head.name)); }
  }

  lemma SortedNames(s: set<JsString>, ks: seq<JsString>)
    requires Rising(ks) && (forall k :: k in s <==> k in ks) && forall k :: k in s ==> ScalarString(k)
    ensures SortedKeys(s) == ks
  {
    hide Utf8, ScalarString;
    KeysSortedAndDistinct(s);
    RisingIsSorted(ks);
    DistinctCounts(ks);
    assert s == (set k | k in ks);
    forall x, y | x in SortedKeys(s) && y in SortedKeys(s) && Utf8(x) == Utf8(y) ensures x == y { OneText(x, y); }
    SortedUnique(SortedKeys(s), ks, Utf8);
  }

  lemma OneText(x: JsString, y: JsString)
    requires ScalarString(x) && ScalarString(y) && Utf8(x) == Utf8(y)
    ensures x == y
  {
    Utf8Injective(x, y);
  }

  lemma {:induction false} DistinctCounts(ks: seq<JsString>)
    requires Distinct(ks)
    ensures multiset(ks) == multiset(set k | k in ks)
    decreases |ks|
  {
    if ks != [] {
      var init, last := ks[..|ks| - 1], ks[|ks| - 1];
      DistinctCounts(init);
      assert ks == init + [last];
      assert (set k | k in ks) == (set k | k in init) + {last};
    }
  }

  lemma ObjectEncodable(m: map<JsString, Json>)
    requires forall k :: k in m ==> ScalarString(k) && Encodable(m[k])
    ensures Encodable(Obj(m)) && Tree(Obj(m)) == DObj([], MemberTrees(Obj(m), SortedKeys(m.Keys)))
  {
  }

  /** The trees of the members as they are listed. */
  lemma {:induction false} MembersTree(v: Json, ms: Members, seen: set<JsString>)
    requires v.Obj? && Encodable(v) && WfMembers(true, ms, seen) && PlainMembers(ms, seen)
    requires forall k :: k in NamesOf(ms, seen) ==>
               k in v.members && k in MemberValues(true, ms, seen) && v.members[k] == MemberValues(true, ms, seen)[k]
    ensures (forall k :: k in NamesOf(ms, seen) ==> k in v.members) && MemberTrees(v, NamesOf(ms, seen)) == ms
    decreases ms, 0
  {
    hide Encodable, Tree, Wf, Plain, ScalarString, Decode, Value, Pieces, PlainPieces, NamesInOrder;
    if ms.MCons? {
      var k, seen' := Decode(ms.head.name), seen + {Decode(ms.head.name)};
      PlainString(ms.head.name);
      PlainTree(ms.doc);
      PlainNames(ms.rest, seen');
      assert NamesOf(ms, seen)[0] == k && NamesOf(ms, seen)[1..] == NamesOf(ms.rest, seen');
      assert k in NamesOf(ms, seen);
      EncodableMember(v, k);
      MembersTree(v, ms.rest, seen');
    }
  }

  lemma {:induction false} PlainObject(ms: Members)
    requires WfMembers(true, ms, {}) && PlainMembers(ms, {})
    ensures var v := Obj(MemberValues(true, ms, {})); Encodable(v) && Tree(v) == DObj([], ms)
    decreases ms, 1
  {
    hide Encodable, Tree, WfMembers, PlainMembers, MemberValues, NamesOf, SortedKeys, ScalarString, Rising;
    var v := Obj(MemberValues(true, ms, {}));
    PlainNames(ms, {});
    ObjectEncodable(v.members);
    SortedNames(v.members.Keys, NamesOf(ms, {}));
    MembersTree(v, ms, {});
  }

  // ---- trees of encodings are plain ----

  lemma PiecesArePlain(s: JsString)
    ensures PlainPieces(Pieces(s))
  {
  }

  lemma {:induction false} TreePlain(v: Json)
    requires Encodable(v)
    ensures Wf(true, Tree(v)) && Plain(Tree(v))
    decreases v, 1, 0
  {
    hide ScalarString, Finite, NumeralValue, Pieces, PlainPieces, Decode, Wf;
    TreeMeans(v);
    match v {
      case Null => ConstantPlain(v);
      case Bool(b) => ConstantPlain(v);
      case Num(n) => NumberPlain(n);
      case Str(s) => StringPlain(s);
      case Arr(items) => ArrayPlain(v);
      case Obj(members) => ObjectPlain(v);
    }
  }

  lemma ConstantPlain(v: Json)
    requires v.Null? || v.Bool?
    ensures Wf(true, Tree(v)) && Plain(Tree(v))
  {
  }

  lemma NumberPlain(n: real)
    requires Encodable(Num(n))
    ensures Wf(true, Tree(Num(n))) && Plain(Tree(Num(n)))
  {
    hide Finite, NumeralValue;
    NumberMeans(n);
    DecimalMeans(n.Floor);
  }

  lemma StringPlain(s: JsString)
    requires ScalarString(s)
    ensures Wf(true, Tree(Str(s))) && Plain(Tree(Str(s)))
  {
    hide Pieces, ScalarString;
    StringMeans(s);
    PiecesArePlain(s);
  }

  lemma {:induction false} ArrayPlain(v: Json)
    requires v.Arr? && Encodable(v)
    ensures Wf(true, Tree(v)) && Plain(Tree(v))
    decreases v, 0, |v.items| + 1
  {
    hide Encodable, PlainElems, WfElems;
    ItemsMean(v, 0);
    ItemsPlain(v, 0);
  }

  lemma {:induction false} ItemsPlain(v: Json, i: nat)
    requires v.Arr? && Encodable(v) && i <= |v.items|
    ensures WfElems(true, ItemTrees(v, i)) && PlainElems(ItemTrees(v, i))
    decreases v, 0, |v.items| - i
  {
    hide Encodable, Tree, Wf, Plain;
    ItemsMean(v, i);
    if i < |v.items| {
      EncodableItem(v, i);
      TreePlain(v.items[i]);
      ItemsPlain(v, i + 1);
    }
  }

  lemma {:induction false} ObjectPlain(v: Json)
    requires v.Obj? && Encodable(v)
    ensures Wf(true, Tree(v)) && Plain(Tree(v))
    decreases v, 0, |v.members| + 1
  {
    hide Encodable, PlainMembers, WfMembers, SortedKeys, ScalarString, Rising, SortedBy, Distinct, MemberTrees;
    EncodableKeys(v);
    var ks := SortedKeys(v.members.Keys);
    KeysSortedAndDistinct(v.members.Keys);
    SortedIsRising(ks);
    MembersMean(v, ks, {});
    MembersPlain(v, ks, {});
  }

  lemma RisingRest(ks: seq<JsString>)
    requires Rising(ks) && ks != []
    ensures Rising(ks[1..]) && (|ks| > 1 ==> NamesInOrder(ks[0], ks[1]))
  {
    hide Utf8, LexLess;
    if |ks| > 1 { OrderIsUtf8(ks[0], ks[1]); }
  }

  lemma {:induction false} MembersPlain(v: Json, ks: seq<JsString>, seen: set<JsString>)
    requires v.Obj? && Encodable(v) && (forall k :: k in ks ==> k in v.members)
    requires Distinct(ks) && Rising(ks) && forall k :: k in ks ==> k !in seen
    ensures WfMembers(true, MemberTrees(v, ks), seen) && PlainMembers(MemberTrees(v, ks), seen)
    decreases v, 0, |ks|
  {
    hide Encodable, Tree, Wf, Plain, Pieces, PlainPieces, Decode, NamesInOrder, Rising, ScalarString;
    MembersMean(v, ks, seen);
    if ks != [] {
      var k := ks[0];
      EncodableMember(v, k);
      TreePlain(v.members[k]);
      StringMeans(k);
      PiecesArePlain(k);
      RisingRest(ks);
      MembersPlain(v, ks[1..], seen + {k});
      if |ks| > 1 { NextString(v, ks); }
    }
  }

  lemma NextString(v: Json, ks: seq<JsString>)
    requires v.Obj? && Encodable(v) && |ks| > 1 && forall k :: k in ks ==> k in v.members
    ensures var rest := MemberTrees(v, ks[1..]);
            rest.MCons? && rest.head.name == Pieces(ks[1]) && WfPieces(Pieces(ks[1])) && Decode(Pieces(ks[1])) == ks[1]
  {
    hide Encodable, Tree, Pieces, Decode, ScalarString;
    EncodableMember(v, ks[1]);
    StringMeans(ks[1]);
  }

  // ---- canonical texts ----

  /** The text is that of a plain tree. */
  ghost predicate PlainText(s: JsString, d: Doc) { Wf(true, d) && Plain(d) && s == Render(d) }

  /** A tree is written canonically exactly when it is plain. */
  lemma CanonicalTreeExactly(d: Doc)
    requires Wf(true, d)
    ensures Plain(d) <==> Encodable(Value(true, d)) && Render(d) == Encode(Value(true, d))
  {
    hide Wf, Plain, Encodable, Value, Render, Encode, Tree, Cat;
    if Plain(d) {
      PlainTree(d);
      TreeMeans(Value(true, d));
    }
    var v := Value(true, d);
    if Encodable(v) && Render(d) == Encode(v) {
      TreePlain(v);
      CanonicalIsText(v);
      CatNothing(Render(d));
      assert IsText(true, Encode(v), [], d, []);
      Unambiguous(true, Encode(v), [], d, [], [], Tree(v), []);
    }
  }

  /** The canonical texts are exactly the texts of plain trees. */
  lemma CanonicalTextExactly(s: JsString)
    ensures (exists v :: Encodable(v) && s == Encode(v)) <==> exists d :: PlainText(s, d)
  {
    hide Wf, Plain, Encodable, Value, Render, Encode, Tree;
    if v :| Encodable(v) && s == Encode(v) {
      TreeMeans(v);
      TreePlain(v);
      assert PlainText(s, Tree(v));
    }
    if d :| PlainText(s, d) {
      CanonicalTreeExactly(d);
      assert Encodable(Value(true, d)) && s == Encode(Value(true, d));
    }
  }
}
