/** Lexicographic order on integer sequences, and the one sorting function the model uses.
    Array.prototype.sort is stable; insertion from the right keeps equal elements in order. */
module Ordering {

  predicate LexLeq(a: seq<int>, b: seq<int>) {
    if a == [] then true
    else if b == [] then false
    else a[0] < b[0] || (a[0] == b[0] && LexLeq(a[1..], b[1..]))
  }

  predicate LexLess(a: seq<int>, b: seq<int>) {
    !LexLeq(b, a)
  }

  lemma {:induction false} LexReflexive(a: seq<int>)
    ensures LexLeq(a, a)
  {
    if a != [] { LexReflexive(a[1..]); }
  }

  lemma {:induction false} LexTotal(a: seq<int>, b: seq<int>)
    ensures LexLeq(a, b) || LexLeq(b, a)
  {
    if a != [] && b != [] { LexTotal(a[1..], b[1..]); }
  }

  lemma {:induction false} LexAntisymmetric(a: seq<int>, b: seq<int>)
    requires LexLeq(a, b) && LexLeq(b, a)
    ensures a == b
  {
    if a != [] && b != [] {
      LexAntisymmetric(a[1..], b[1..]);
      assert a == [a[0]] + a[1..] && b == [b[0]] + b[1..];
    }
  }

  lemma {:induction false} LexTransitive(a: seq<int>, b: seq<int>, c: seq<int>)
    requires LexLeq(a, b) && LexLeq(b, c)
    ensures LexLeq(a, c)
  {
    if a != [] && b != [] && c != [] && a[0] == b[0] == c[0] {
      LexTransitive(a[1..], b[1..], c[1..]);
    }
  }

  /** Strict order composes: the fact every neighbours-only order check relies on. */
  lemma LexLessTransitive(a: seq<int>, b: seq<int>, c: seq<int>)
    requires LexLess(a, b) && LexLess(b, c)
    ensures LexLess(a, c)
  {
    LexTotal(a, b);
    LexTotal(b, c);
    if LexLeq(c, a) { LexTransitive(c, a, b); }
  }

  lemma {:induction false} LexCommonPrefix(p: seq<int>, a: seq<int>, b: seq<int>)
    ensures LexLeq(p + a, p + b) <==> LexLeq(a, b)
  {
    if p == [] {
      assert p + a == a && p + b == b;
    } else {
      assert (p + a)[1..] == p[1..] + a && (p + b)[1..] == p[1..] + b;
      LexCommonPrefix(p[1..], a, b);
    }
  }

  // ---- sorting by a key ----

  predicate SortedBy<T(!new)>(xs: seq<T>, key: T -> seq<int>) {
    forall i, j :: 0 <= i < j < |xs| ==> LexLeq(key(xs[i]), key(xs[j]))
  }

  /** Elements with equal keys are equal. */
  ghost predicate InjectiveOn<T(!new)>(xs: seq<T>, key: T -> seq<int>) {
    forall x, y :: x in xs && y in xs && key(x) == key(y) ==> x == y
  }

  function InsertBy<T>(x: T, xs: seq<T>, key: T -> seq<int>): seq<T> {
    if xs == [] || LexLeq(key(x), key(xs[0])) then [x] + xs
    else [xs[0]] + InsertBy(x, xs[1..], key)
  }

  function SortBy<T>(xs: seq<T>, key: T -> seq<int>): seq<T> {
    if xs == [] then [] else InsertBy(xs[0], SortBy(xs[1..], key), key)
  }

  lemma {:induction false} InsertKeepsElements<T>(x: T, xs: seq<T>, key: T -> seq<int>)
    ensures multiset(InsertBy(x, xs, key)) == multiset{x} + multiset(xs)
  {
    if xs == [] || LexLeq(key(x), key(xs[0])) {
    } else {
      InsertKeepsElements(x, xs[1..], key);
      assert xs == [xs[0]] + xs[1..];
    }
  }

  lemma {:induction false} InsertKeepsOrder<T(!new)>(x: T, xs: seq<T>, key: T -> seq<int>)
    requires SortedBy(xs, key)
    ensures SortedBy(InsertBy(x, xs, key), key)
  {
    if xs == [] {
    } else if LexLeq(key(x), key(xs[0])) {
      forall j | 0 <= j < |xs| ensures LexLeq(key(x), key(xs[j])) {
        if j > 0 { LexTransitive(key(x), key(xs[0]), key(xs[j])); }
      }
    } else {
      LexTotal(key(x), key(xs[0]));
      InsertKeepsOrder(x, xs[1..], key);
      InsertKeepsElements(x, xs[1..], key);
      var rest := InsertBy(x, xs[1..], key);
      forall j | 0 <= j < |rest| ensures LexLeq(key(xs[0]), key(rest[j])) {
        assert rest[j] in multiset(rest);
        if rest[j] != x {
          assert rest[j] in xs[1..];
        }
      }
    }
  }

  /** SortBy returns a sorted permutation of its input. */
  lemma {:induction false} SortBySorts<T(!new)>(xs: seq<T>, key: T -> seq<int>)
    ensures multiset(SortBy(xs, key)) == multiset(xs)
    ensures SortedBy(SortBy(xs, key), key)
    ensures |SortBy(xs, key)| == |xs|
    ensures forall x :: x in SortBy(xs, key) <==> x in xs
  {
    if xs != [] {
      SortBySorts(xs[1..], key);
      InsertKeepsElements(xs[0], SortBy(xs[1..], key), key);
      InsertKeepsOrder(xs[0], SortBy(xs[1..], key), key);
      assert xs == [xs[0]] + xs[1..];
    }
    assert |multiset(SortBy(xs, key))| == |multiset(xs)|;
    forall x ensures x in SortBy(xs, key) <==> x in xs {
      assert x in multiset(SortBy(xs, key)) <==> x in multiset(xs);
    }
  }

  lemma MultisetHead<T>(xs: seq<T>)
    requires xs != []
    ensures multiset(xs) == multiset{xs[0]} + multiset(xs[1..])
  {
    assert xs == [xs[0]] + xs[1..];
  }

  /** Two sorted permutations of each other are the same sequence when the key is injective on them. */
  lemma {:induction false} SortedUnique<T(!new)>(xs: seq<T>, ys: seq<T>, key: T -> seq<int>)
    requires multiset(xs) == multiset(ys)
    requires SortedBy(xs, key) && SortedBy(ys, key) && InjectiveOn(xs, key)
    ensures xs == ys
  {
    assert |multiset(xs)| == |multiset(ys)|;
    if xs != [] {
      assert xs[0] in ys by { assert xs[0] in multiset(ys); }
      assert ys[0] in xs by { assert ys[0] in multiset(xs); }
      LexReflexive(key(xs[0]));
      LexReflexive(key(ys[0]));
      LexAntisymmetric(key(xs[0]), key(ys[0]));
      assert xs[0] == ys[0];
      MultisetHead(xs);
      MultisetHead(ys);
      assert multiset(xs[1..]) == multiset(xs) - multiset{xs[0]};
      assert multiset(ys[1..]) == multiset(ys) - multiset{xs[0]};
      SortedUnique(xs[1..], ys[1..], key);
    }
  }

  /** Sorting forgets the input order. */
  lemma SortByCanonical<T(!new)>(xs: seq<T>, ys: seq<T>, key: T -> seq<int>)
    requires multiset(xs) == multiset(ys) && InjectiveOn(xs, key)
    ensures SortBy(xs, key) == SortBy(ys, key)
  {
    SortBySorts(xs, key);
    SortBySorts(ys, key);
    SortedUnique(SortBy(xs, key), SortBy(ys, key), key);
  }

  // ---- mapping over permuted sequences ----

  function MapSeq<A, B>(f: A -> B, xs: seq<A>): (ys: seq<B>)
    ensures |ys| == |xs| && forall i :: 0 <= i < |xs| ==> ys[i] == f(xs[i])
  {
    seq(|xs|, i requires 0 <= i < |xs| => f(xs[i]))
  }

  lemma RemoveOne<T>(xs: seq<T>, j: nat)
    requires j < |xs|
    ensures multiset(xs[..j] + xs[j + 1..]) == multiset(xs) - multiset{xs[j]}
    ensures multiset(xs) == multiset(xs[..j] + xs[j + 1..]) + multiset{xs[j]}
  {
    assert xs == xs[..j] + [xs[j]] + xs[j + 1..];
  }

  lemma RemoveMapped<A, B>(f: A -> B, xs: seq<A>, j: nat)
    requires j < |xs|
    ensures var rest := xs[..j] + xs[j + 1..];
            && multiset(MapSeq(f, rest)) == multiset(MapSeq(f, xs)) - multiset{f(xs[j])}
            && multiset(MapSeq(f, xs)) == multiset(MapSeq(f, rest)) + multiset{f(xs[j])}
  {
    var rest := xs[..j] + xs[j + 1..];
    assert MapSeq(f, rest) == MapSeq(f, xs)[..j] + MapSeq(f, xs)[j + 1..];
    RemoveOne(MapSeq(f, xs), j);
  }

  ghost predicate Determines<A(!new), B, C>(xs: seq<A>, ys: seq<A>, f: A -> B, g: A -> C) {
    forall x, y :: x in xs && y in ys && f(x) == f(y) ==> g(x) == g(y)
  }

  lemma DeterminesFewer<A(!new), B, C>(xs: seq<A>, ys: seq<A>, f: A -> B, g: A -> C, j: nat)
    requires Determines(xs, ys, f, g) && xs != [] && j < |ys|
    ensures Determines(xs[..0] + xs[1..], ys[..j] + ys[j + 1..], f, g)
    ensures f(xs[0]) == f(ys[j]) ==> g(xs[0]) == g(ys[j])
  {
    forall x | x in xs[..0] + xs[1..] ensures x in xs {}
    forall y | y in ys[..j] + ys[j + 1..] ensures y in ys {}
  }

  /** If `g` depends only on `f`, permuted images under `f` give permuted images under `g`. */
  lemma {:induction false} MapForgets<A(!new), B, C>(xs: seq<A>, ys: seq<A>, f: A -> B, g: A -> C)
    requires multiset(MapSeq(f, xs)) == multiset(MapSeq(f, ys))
    requires Determines(xs, ys, f, g)
    ensures multiset(MapSeq(g, xs)) == multiset(MapSeq(g, ys))
    decreases |xs|
  {
    hide MapSeq, Determines;
    SameImageSize(xs, ys, f);
    if xs == [] {
      assert ys == xs;
    } else {
      var j := FindImage(ys, f, MapSeq(f, xs), 0);
      var xs', ys' := xs[..0] + xs[1..], ys[..j] + ys[j + 1..];
      var a, b := f(xs[0]), g(xs[0]);
      DeterminesFewer(xs, ys, f, g, j);
      assert multiset(MapSeq(f, xs')) == multiset(MapSeq(f, ys')) by {
        RemoveMapped(f, xs, 0);
        RemoveMapped(f, ys, j);
      }
      MapForgets(xs', ys', f, g);
      var rest := multiset(MapSeq(g, xs'));
      assert multiset(MapSeq(g, xs)) == rest + multiset{b} by { RemoveMapped(g, xs, 0); }
      assert multiset(MapSeq(g, ys)) == rest + multiset{b} by { RemoveMapped(g, ys, j); }
    }
  }

  lemma SameImageSize<A, B>(xs: seq<A>, ys: seq<A>, f: A -> B)
    requires multiset(MapSeq(f, xs)) == multiset(MapSeq(f, ys))
    ensures |xs| == |ys|
  {
    assert |multiset(MapSeq(f, xs))| == |multiset(MapSeq(f, ys))|;
  }

  lemma FindImage<A, B>(ys: seq<A>, f: A -> B, image: seq<B>, i: nat) returns (j: nat)
    requires i < |image| && multiset(image) == multiset(MapSeq(f, ys))
    ensures j < |ys| && f(ys[j]) == image[i]
  {
    assert image[i] in multiset(MapSeq(f, ys));
    j :| 0 <= j < |ys| && MapSeq(f, ys)[j] == image[i];
  }

  lemma SameMembers<T>(a: seq<T>, b: seq<T>)
    requires multiset(a) == multiset(b)
    ensures |a| == |b| && forall x :: x in a <==> x in b
  {
    assert |multiset(a)| == |multiset(b)|;
    forall x ensures x in a <==> x in b { assert x in multiset(a) <==> x in multiset(b); }
  }
}
