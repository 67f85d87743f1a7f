/** JavaScript strings as sequences of UTF-16 code units, and their UTF-8 bytes. */
module JsStrings {
  import opened Ordering

  type CodeUnit = n: int | 0 <= n < 0x10000
  type JsString = seq<CodeUnit>

  /** Plain ASCII literals of the source, as code units. */
  function Ascii(s: string): (t: JsString)
    requires forall i :: 0 <= i < |s| ==> s[i] < 128 as char
    ensures |t| == |s| && forall i :: 0 <= i < |s| ==> t[i] == s[i] as int
  {
    seq(|s|, i requires 0 <= i < |s| => s[i] as int)
  }

  /** Concatenation, named so that a proof can treat it as an atom. */
  function Cat(a: JsString, b: JsString): (t: JsString)
    ensures |t| == |a| + |b|
  {
    a + b
  }

  predicate HighSurrogate(c: int) { 0xD800 <= c <= 0xDBFF }
  predicate LowSurrogate(c: int) { 0xDC00 <= c <= 0xDFFF }

  /** Every surrogate is half of a high-low pair. */
  predicate WellPaired(s: JsString) {
    if s == [] then true
    else if HighSurrogate(s[0]) then |s| >= 2 && LowSurrogate(s[1]) && WellPaired(s[2..])
    else !LowSurrogate(s[0]) && WellPaired(s[1..])
  }

  predicate ControlFree(s: JsString) {
    forall i :: 0 <= i < |s| ==> s[i] > 0x1F && s[i] != 0x7F
  }

  /** The strings that assertUnicodeScalarString lets through. */
  predicate ScalarString(s: JsString) {
    WellPaired(s) && ControlFree(s)
  }

  method AssertUnicodeScalarString(value: JsString) returns (accepted: bool)
    ensures accepted <==> ScalarString(value)
  {
    var index := 0;
    while index < |value|
      invariant 0 <= index <= |value|
      invariant forall i :: 0 <= i < index ==> value[i] > 0x1F && value[i] != 0x7F
      invariant WellPaired(value) <==> WellPaired(value[index..])
    {
      var code := value[index];
      if code <= 0x1F || code == 0x7F {
        return false;
      }
      if HighSurrogate(code) {
        if !(index + 1 < |value| && LowSurrogate(value[index + 1])) {
          return false;
        }
        assert value[index..][2..] == value[index + 2..];
        index := index + 2;
      } else {
        if LowSurrogate(code) {
          return false;
        }
        assert value[index..][1..] == value[index + 1..];
        index := index + 1;
      }
    }
    return true;
  }

  // ---- code points and UTF-8 ----

  /** Decoding a pair; a lone surrogate becomes U+FFFD, as Buffer.from does. */
  function CodePoints(s: JsString): (points: seq<int>)
    ensures forall i :: 0 <= i < |points| ==> 0 <= points[i] <= 0x10FFFF
  {
    if s == [] then []
    else if HighSurrogate(s[0]) && |s| >= 2 && LowSurrogate(s[1]) then
      [0x10000 + (s[0] - 0xD800) * 0x400 + (s[1] - 0xDC00)] + CodePoints(s[2..])
    else if HighSurrogate(s[0]) || LowSurrogate(s[0]) then [0xFFFD] + CodePoints(s[1..])
    else [s[0]] + CodePoints(s[1..])
  }

  function EncodePoint(p: int): (bytes: seq<int>)
    requires 0 <= p <= 0x10FFFF
    ensures 1 <= |bytes| <= 4 && forall i :: 0 <= i < |bytes| ==> 0 <= bytes[i] < 256
  {
    var q1 := p / 0x40;
    var q2 := q1 / 0x40;
    if p < 0x80 then [p]
    else if p < 0x800 then [0xC0 + q1, 0x80 + p % 0x40]
    else if p < 0x10000 then [0xE0 + q2, 0x80 + q1 % 0x40, 0x80 + p % 0x40]
    else [0xF0 + q2 / 0x40, 0x80 + q2 % 0x40, 0x80 + q1 % 0x40, 0x80 + p % 0x40]
  }

  function EncodePoints(points: seq<int>): (bytes: seq<int>)
    requires forall i :: 0 <= i < |points| ==> 0 <= points[i] <= 0x10FFFF
  {
    if points == [] then [] else EncodePoint(points[0]) + EncodePoints(points[1..])
  }

  function Utf8(s: JsString): seq<int> {
    EncodePoints(CodePoints(s))
  }

  lemma {:induction false} CodePointsInjective(a: JsString, b: JsString)
    requires WellPaired(a) && WellPaired(b) && CodePoints(a) == CodePoints(b)
    ensures a == b
  {
    if a == [] || b == [] {
    } else {
      assert CodePoints(a)[0] == CodePoints(b)[0];
      var m := if HighSurrogate(a[0]) then 2 else 1;
      var n := if HighSurrogate(b[0]) then 2 else 1;
      assert CodePoints(a)[1..] == CodePoints(a[m..]);
      assert CodePoints(b)[1..] == CodePoints(b[n..]);
      CodePointsInjective(a[m..], b[n..]);
      assert a == a[..m] + a[m..] && b == b[..n] + b[n..];
    }
  }

  /** The encodings of two code points first differ inside both, in the order of the points. */
  lemma EncodedOrder(x: int, y: int) returns (k: nat)
    requires 0 <= x < y <= 0x10FFFF
    ensures k < |EncodePoint(x)| && k < |EncodePoint(y)|
    ensures EncodePoint(x)[..k] == EncodePoint(y)[..k] && EncodePoint(x)[k] < EncodePoint(y)[k]
  {
    var a, b := EncodePoint(x), EncodePoint(y);
    if |a| != |b| || |a| == 1 {
      k := 0;
      assert a[0] < b[0] by { LeadingByte(x); LeadingByte(y); }
    } else {
      k := DigitOrder(x, y, |a|);
    }
  }

  lemma LeadingByte(p: int)
    requires 0 <= p <= 0x10FFFF
    ensures var b := EncodePoint(p);
            match |b|
            case 1 => p < 0x80 && b[0] == p
            case 2 => 0x80 <= p < 0x800 && 0xC0 <= b[0] < 0xE0
            case 3 => 0x800 <= p < 0x10000 && 0xE0 <= b[0] < 0xF0
            case _ => 0x10000 <= p && 0xF0 <= b[0]
  {
  }

  lemma DigitOrder(x: int, y: int, n: nat) returns (k: nat)
    requires 0 <= x < y <= 0x10FFFF && n == |EncodePoint(x)| == |EncodePoint(y)| && n >= 2
    ensures k < n && EncodePoint(x)[..k] == EncodePoint(y)[..k] && EncodePoint(x)[k] < EncodePoint(y)[k]
  {
    LeadingByte(x);
    LeadingByte(y);
    var x1, y1 := x / 0x40, y / 0x40;
    if x1 == y1 {
      k := n - 1;
    } else {
      assert x1 < y1;
      var x2, y2 := x1 / 0x40, y1 / 0x40;
      if x2 == y2 || n == 2 {
        k := n - 2;
      } else {
        assert x2 < y2;
        var x3, y3 := x2 / 0x40, y2 / 0x40;
        k := if x3 == y3 || n == 3 then n - 3 else n - 4;
      }
    }
  }

  lemma LexFirstDifference(a: seq<int>, b: seq<int>, k: nat)
    requires k < |a| && k < |b| && a[..k] == b[..k] && a[k] < b[k]
    ensures LexLeq(a, b) && !LexLeq(b, a)
  {
    assert a == a[..k] + a[k..] && b == a[..k] + b[k..];
    LexCommonPrefix(a[..k], a[k..], b[k..]);
    LexCommonPrefix(a[..k], b[k..], a[k..]);
  }

  /** UTF-8 keeps the order of code points. */
  lemma {:induction false} EncodePointsOrder(a: seq<int>, b: seq<int>)
    requires forall i :: 0 <= i < |a| ==> 0 <= a[i] <= 0x10FFFF
    requires forall i :: 0 <= i < |b| ==> 0 <= b[i] <= 0x10FFFF
    ensures LexLeq(EncodePoints(a), EncodePoints(b)) <==> LexLeq(a, b)
  {
    if a == [] || b == [] {
    } else if a[0] == b[0] {
      LexCommonPrefix(EncodePoint(a[0]), EncodePoints(a[1..]), EncodePoints(b[1..]));
      EncodePointsOrder(a[1..], b[1..]);
    } else {
      var low, high := if a[0] < b[0] then a else b, if a[0] < b[0] then b else a;
      var k := EncodedOrder(low[0], high[0]);
      var u, v := EncodePoints(low), EncodePoints(high);
      assert u[..k] == EncodePoint(low[0])[..k] && v[..k] == EncodePoint(high[0])[..k];
      LexFirstDifference(u, v, k);
    }
  }

  /** Comparing UTF-8 bytes compares code points ... */
  lemma Utf8OrderIsCodePointOrder(a: JsString, b: JsString)
    ensures LexLeq(Utf8(a), Utf8(b)) <==> LexLeq(CodePoints(a), CodePoints(b))
  {
    EncodePointsOrder(CodePoints(a), CodePoints(b));
  }

  /** ... which is not the order of UTF-16 code units: U+FF5E sorts before U+1F600 here. */
  lemma Utf8OrderIsNotUtf16Order()
    ensures exists a: JsString, b: JsString ::
              ScalarString(a) && ScalarString(b) && LexLess(Utf8(a), Utf8(b)) && LexLess(b, a)
  {
    var a: JsString, b: JsString := [0xFF5E], [0xD83D, 0xDE00];
    assert b[2..] == [] && a[1..] == [];
    assert CodePoints(b) == [0x1F600] && CodePoints(a) == [0xFF5E];
    Utf8OrderIsCodePointOrder(b, a);
    assert ScalarString(a) && ScalarString(b) && LexLess(Utf8(a), Utf8(b)) && LexLess(b, a);
  }

  lemma Utf8Injective(a: JsString, b: JsString)
    requires WellPaired(a) && WellPaired(b) && Utf8(a) == Utf8(b)
    ensures a == b
  {
    LexReflexive(Utf8(a));
    Utf8OrderIsCodePointOrder(a, b);
    Utf8OrderIsCodePointOrder(b, a);
    LexAntisymmetric(CodePoints(a), CodePoints(b));
    CodePointsInjective(a, b);
  }
}
