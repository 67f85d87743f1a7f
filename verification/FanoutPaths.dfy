/** Repository-relative paths of a fan-out plan: normalisation and the directory order. */
module FanoutPaths {
  import opened JsStrings
  import opened Wrappers

  const SLASH: CodeUnit := 0x2F
  const BACKSLASH: CodeUnit := 0x5C
  const DOT: JsString := [0x2E]
  const DOT_DOT: JsString := [0x2E, 0x2E]

  predicate Wildcard(c: int) { c == 0x2A || c == 0x3F || c == 0x5B || c == 0x5D || c == 0x7B || c == 0x7D }

  // ---- segments ----

  function Split(s: JsString): (segments: seq<JsString>)
    ensures |segments| >= 1
    ensures forall i :: 0 <= i < |segments| ==> SLASH !in segments[i]
  {
    if s == [] then [[]]
    else
      var rest := Split(s[1..]);
      if s[0] == SLASH then [[]] + rest else [[s[0]] + rest[0]] + rest[1..]
  }

  function Join(segments: seq<JsString>): JsString {
    if segments == [] then []
    else if |segments| == 1 then segments[0]
    else segments[0] + [SLASH] + Join(segments[1..])
  }

  lemma {:induction false} SplitWhole(s: JsString)
    requires SLASH !in s
    ensures Split(s) == [s]
  {
    if s != [] {
      SplitWhole(s[1..]);
      assert s == [s[0]] + s[1..];
    }
  }

  /** A slash separates the segments of what is before it from those of what is after. */
  lemma {:induction false} SplitAt(a: JsString, b: JsString)
    ensures Split(a + [SLASH] + b) == Split(a) + Split(b)
  {
    var s := a + [SLASH] + b;
    if a == [] {
      assert s[1..] == b;
    } else {
      assert s[1..] == a[1..] + [SLASH] + b;
      SplitAt(a[1..], b);
    }
  }

  lemma {:induction false} JoinSplit(s: JsString)
    ensures Join(Split(s)) == s
  {
    if s != [] {
      JoinSplit(s[1..]);
      var rest := Split(s[1..]);
      if s[0] == SLASH {
        assert Split(s)[1..] == rest;
      } else {
        assert Split(s)[1..] == rest[1..];
      }
    }
  }

  lemma {:induction false} SplitJoin(segments: seq<JsString>)
    requires segments != [] && forall i :: 0 <= i < |segments| ==> SLASH !in segments[i]
    ensures Split(Join(segments)) == segments
  {
    SplitWhole(segments[0]);
    if |segments| > 1 {
      SplitJoin(segments[1..]);
      SplitAt(segments[0], Join(segments[1..]));
    }
  }

  lemma {:induction false} JoinAppend(a: seq<JsString>, b: seq<JsString>)
    requires a != [] && b != []
    ensures Join(a + b) == Join(a) + [SLASH] + Join(b)
  {
    assert (a + b)[1..] == a[1..] + b;
    if |a| > 1 { JoinAppend(a[1..], b); }
  }

  // ---- the directory order ----

  predicate IsSameOrDescendant(path: JsString, root: JsString) {
    path == root || (|root| < |path| && path[..|root|] == root && path[|root|] == SLASH)
  }

  lemma DescendantSplits(path: JsString, root: JsString)
    requires IsSameOrDescendant(path, root)
    ensures Split(root) <= Split(path)
  {
    hide Split;
    if path != root {
      var rest := path[|root| + 1..];
      assert path == root + [SLASH] + rest;
      SplitAt(root, rest);
    }
  }

  lemma PrefixDescends(path: JsString, root: JsString)
    requires Split(root) <= Split(path)
    ensures IsSameOrDescendant(path, root)
  {
    hide Split, Join;
    JoinSplit(root);
    JoinSplit(path);
    var rest := Split(path)[|Split(root)|..];
    assert Split(path) == Split(root) + rest;
    if rest != [] {
      JoinAppend(Split(root), rest);
      assert path == root + [SLASH] + Join(rest);
    } else {
      assert Split(path) == Split(root);
    }
  }

  /** A path lies under a root exactly when the root's segments are a prefix of its own. */
  lemma DescendantIsSegmentPrefix(path: JsString, root: JsString)
    ensures IsSameOrDescendant(path, root) <==> Split(root) <= Split(path)
  {
    hide Split, IsSameOrDescendant;
    if IsSameOrDescendant(path, root) { DescendantSplits(path, root); }
    if Split(root) <= Split(path) { PrefixDescends(path, root); }
  }

  lemma DescendantTransitive(a: JsString, b: JsString, c: JsString)
    requires IsSameOrDescendant(a, b) && IsSameOrDescendant(b, c)
    ensures IsSameOrDescendant(a, c)
  {
    DescendantIsSegmentPrefix(a, b);
    DescendantIsSegmentPrefix(b, c);
    DescendantIsSegmentPrefix(a, c);
  }

  /** Two roots of one path are comparable. */
  lemma SharedDescendant(path: JsString, a: JsString, b: JsString)
    requires IsSameOrDescendant(path, a) && IsSameOrDescendant(path, b)
    ensures IsSameOrDescendant(a, b) || IsSameOrDescendant(b, a)
  {
    DescendantIsSegmentPrefix(path, a);
    DescendantIsSegmentPrefix(path, b);
    DescendantIsSegmentPrefix(a, b);
    DescendantIsSegmentPrefix(b, a);
  }

  // ---- normalisation ----

  function ReplaceBackslashes(s: JsString): JsString {
    seq(|s|, i requires 0 <= i < |s| => if s[i] == BACKSLASH then SLASH else s[i])
  }

  predicate Ignored(segment: JsString) { segment == [] || segment == DOT }
  predicate Name(segment: JsString) { !Ignored(segment) && segment != DOT_DOT }

  /** The segment loop: a stack that `..` pops; None when there is nothing to pop. */
  function Resolve(stack: seq<JsString>, segments: seq<JsString>): Option<seq<JsString>>
    decreases |segments|
  {
    if segments == [] then Some(stack)
    else if Ignored(segments[0]) then Resolve(stack, segments[1..])
    else if segments[0] == DOT_DOT then
      if stack == [] then None else Resolve(stack[..|stack| - 1], segments[1..])
    else Resolve(stack + [segments[0]], segments[1..])
  }

  predicate Acceptable(value: JsString) {
    value != [] && 0 !in value && value[0] != SLASH && forall i :: 0 <= i < |value| ==> !Wildcard(value[i])
  }

  function CanonicalRelativePath(value: JsString): Option<JsString> {
    if !Acceptable(value) then None
    else
      var resolved := Resolve([], Split(ReplaceBackslashes(value)));
      if resolved.None? then None
      else
        var canonical := Join(resolved.value);
        if canonical == [] || canonical == DOT || canonical == DOT_DOT then None else Some(canonical)
  }

  method NormalizeRelativePath(value: JsString) returns (r: Option<JsString>)
    ensures r == CanonicalRelativePath(value)
  {
    if !Acceptable(value) { return None; }
    var parts := Split(ReplaceBackslashes(value));
    var segments: seq<JsString> := [];
    for i := 0 to |parts|
      invariant Resolve([], parts) == Resolve(segments, parts[i..])
    {
      var segment := parts[i];
      assert parts[i..][1..] == parts[i + 1..];
      if Ignored(segment) { continue; }
      if segment == DOT_DOT {
        if segments == [] { return None; }
        segments := segments[..|segments| - 1];
        continue;
      }
      segments := segments + [segment];
    }
    var canonical := Join(segments);
    if canonical == [] || canonical == DOT || canonical == DOT_DOT { return None; }
    return Some(canonical);
  }

  // ---- what normalisation means ----

  /** How deep the first `n` segments lead: names go down, `..` goes up. */
  function Height(segments: seq<JsString>, n: nat): int
    requires n <= |segments|
  {
    if n == 0 then 0
    else Height(segments, n - 1) + (if Name(segments[n - 1]) then 1 else if segments[n - 1] == DOT_DOT then -1 else 0)
  }

  /** The name at `i` is not climbed out of again by segment `n`. */
  predicate Survives(segments: seq<JsString>, i: nat, n: nat)
    requires n <= |segments|
  {
    i < n && Name(segments[i]) && forall j :: i < j <= n ==> Height(segments, j) > Height(segments, i)
  }

  /** `kept` lists, in order, the surviving names among the first `n` segments. */
  ghost predicate Lists(segments: seq<JsString>, n: nat, kept: seq<nat>)
    requires n <= |segments|
  {
    && (forall a, b :: 0 <= a < b < |kept| ==> kept[a] < kept[b])
    && (forall a :: 0 <= a < |kept| ==> kept[a] < n)
    && (forall i: nat :: i in kept <==> Survives(segments, i, n))
  }

  ghost predicate ClimbsOut(segments: seq<JsString>) {
    exists n :: 0 <= n <= |segments| && Height(segments, n) < 0
  }

  function Pick(segments: seq<JsString>, kept: seq<nat>): seq<JsString>
    requires forall a :: 0 <= a < |kept| ==> kept[a] < |segments|
  {
    seq(|kept|, a requires 0 <= a < |kept| => segments[kept[a]])
  }

  /** The stack after `n` segments holds the names that survive so far; the m-th of them sits at height m. */
  ghost predicate Stacked(segments: seq<JsString>, n: nat, stack: seq<JsString>, kept: seq<nat>)
    requires n <= |segments|
  {
    && Lists(segments, n, kept) && |kept| == |stack| == Height(segments, n)
    && (forall a :: 0 <= a < |kept| ==>
          kept[a] < n && stack[a] == segments[kept[a]] && Height(segments, kept[a]) == a)
    && (forall j :: 0 <= j <= n ==> Height(segments, j) >= 0)
  }

  lemma HeightNext(segments: seq<JsString>, n: nat)
    requires n < |segments|
    ensures Height(segments, n + 1)
            == Height(segments, n) + if Name(segments[n]) then 1 else if segments[n] == DOT_DOT then -1 else 0
    ensures Ignored(segments[n]) ==> Height(segments, n + 1) == Height(segments, n)
    ensures !Ignored(segments[n]) && segments[n] != DOT_DOT ==> Name(segments[n])
  {
  }

  lemma SurvivesNext(segments: seq<JsString>, i: nat, n: nat)
    requires n < |segments|
    ensures i < n ==> (Survives(segments, i, n + 1) <==> Survives(segments, i, n) && Height(segments, n + 1) > Height(segments, i))
    ensures Survives(segments, i, n) ==> i < n && Height(segments, n) > Height(segments, i)
    ensures i == n ==> (Survives(segments, i, n + 1) <==> Name(segments[n]) && Height(segments, n + 1) > Height(segments, n))
    ensures i > n ==> !Survives(segments, i, n + 1)
  {
    hide Height, Name;
  }

  lemma StackKeeps(segments: seq<JsString>, n: nat, stack: seq<JsString>, kept: seq<nat>)
    requires n < |segments| && Stacked(segments, n, stack, kept) && Ignored(segments[n])
    ensures Stacked(segments, n + 1, stack, kept)
  {
    HeightNext(segments, n);
    hide Height, Survives, Ignored;
    forall i: nat ensures i in kept <==> Survives(segments, i, n + 1) { SurvivesNext(segments, i, n); }
  }

  lemma StackPops(segments: seq<JsString>, n: nat, stack: seq<JsString>, kept: seq<nat>)
    requires n < |segments| && Stacked(segments, n, stack, kept) && segments[n] == DOT_DOT && stack != []
    ensures Stacked(segments, n + 1, stack[..|stack| - 1], kept[..|kept| - 1])
  {
    HeightNext(segments, n);
    DotDotIsNoName(segments[n]);
    hide Height, Survives, Ignored, Name;
    var kept' := kept[..|kept| - 1];
    forall i: nat ensures i in kept' <==> Survives(segments, i, n + 1) {
      SurvivesNext(segments, i, n);
      if i in kept' {
        var a :| 0 <= a < |kept'| && kept'[a] == i;
        assert kept[a] == i && i in kept;
      }
      if Survives(segments, i, n + 1) {
        assert i in kept;
        var a :| 0 <= a < |kept| && kept[a] == i;
        assert kept'[a] == i;
      }
    }
  }

  lemma DotDotIsNoName(segment: JsString)
    requires segment == DOT_DOT
    ensures !Name(segment)
  {
  }

  lemma StackPushes(segments: seq<JsString>, n: nat, stack: seq<JsString>, kept: seq<nat>)
    requires n < |segments| && Stacked(segments, n, stack, kept) && !Ignored(segments[n]) && segments[n] != DOT_DOT
    ensures Stacked(segments, n + 1, stack + [segments[n]], kept + [n])
  {
    HeightNext(segments, n);
    hide Height, Survives, Ignored, Name;
    var kept' := kept + [n];
    forall i: nat ensures i in kept' <==> Survives(segments, i, n + 1) {
      SurvivesNext(segments, i, n);
      assert i in kept' <==> i in kept || i == n;
    }
  }

  lemma StackedStep(segments: seq<JsString>, n: nat, stack: seq<JsString>, kept: seq<nat>)
      returns (stack': seq<JsString>, kept': seq<nat>)
    requires n < |segments| && Stacked(segments, n, stack, kept)
    requires segments[n] == DOT_DOT ==> stack != []
    ensures stack' == if Ignored(segments[n]) then stack
                      else if segments[n] == DOT_DOT then stack[..|stack| - 1] else stack + [segments[n]]
    ensures Stacked(segments, n + 1, stack', kept')
  {
    StackedSizes(segments, n, stack, kept);
    hide Stacked, Ignored;
    if Ignored(segments[n]) {
      stack', kept' := stack, kept;
      StackKeeps(segments, n, stack, kept);
    } else if segments[n] == DOT_DOT {
      stack', kept' := stack[..|stack| - 1], kept[..|kept| - 1];
      StackPops(segments, n, stack, kept);
    } else {
      stack', kept' := stack + [segments[n]], kept + [n];
      StackPushes(segments, n, stack, kept);
    }
  }

  lemma StackedSizes(segments: seq<JsString>, n: nat, stack: seq<JsString>, kept: seq<nat>)
    requires n < |segments| && Stacked(segments, n, stack, kept)
    ensures |stack| == |kept|
  {
  }

  lemma {:induction false} ResolveStacks(segments: seq<JsString>, n: nat, stack: seq<JsString>, kept: seq<nat>)
      returns (all: seq<nat>)
    requires n <= |segments| && Stacked(segments, n, stack, kept)
    ensures Resolve(stack, segments[n..]).None? <==> ClimbsOut(segments)
    ensures Resolve(stack, segments[n..]).Some? ==> Stacked(segments, |segments|, Resolve(stack, segments[n..]).value, all)
    decreases |segments| - n
  {
    hide Stacked, ClimbsOut, Height, Ignored;
    all := kept;
    if n < |segments| {
      assert segments[n..][1..] == segments[n + 1..];
      if segments[n] == DOT_DOT && stack == [] {
        Climbs(segments, n, kept);
        DotDotIsKept();
      } else {
        var stack', kept' := StackedStep(segments, n, stack, kept);
        all := ResolveStacks(segments, n + 1, stack', kept');
      }
    } else {
      NeverClimbed(segments, stack, kept);
    }
  }

  lemma DotDotIsKept()
    ensures !Ignored(DOT_DOT)
  {
  }

  lemma Climbs(segments: seq<JsString>, n: nat, kept: seq<nat>)
    requires n < |segments| && Stacked(segments, n, [], kept) && segments[n] == DOT_DOT
    ensures ClimbsOut(segments)
  {
    HeightNext(segments, n);
    DotDotIsNoName(segments[n]);
    assert Height(segments, n + 1) < 0;
  }

  lemma NeverClimbed(segments: seq<JsString>, stack: seq<JsString>, kept: seq<nat>)
    requires Stacked(segments, |segments|, stack, kept)
    ensures !ClimbsOut(segments)
  {
  }

  /** The accepted paths and their canonical forms, without a stack: the result joins the names that are never
      climbed out of; a path is refused when a character is, when it climbs above its start, or when no name
      is left. */
  lemma CanonicalMeans(value: JsString)
    ensures var segments := Split(ReplaceBackslashes(value));
            && (CanonicalRelativePath(value).None? <==>
                  !Acceptable(value) || ClimbsOut(segments)
                  || forall i: nat :: i < |segments| ==> !Survives(segments, i, |segments|))
            && (CanonicalRelativePath(value).Some? ==>
                  exists kept :: Lists(segments, |segments|, kept)
                                 && CanonicalRelativePath(value) == Some(Join(Pick(segments, kept))))
  {
    var segments := Split(ReplaceBackslashes(value));
    assert segments[0..] == segments;
    var kept := ResolveStacks(segments, 0, [], []);
    var resolved := Resolve([], segments);
    if resolved.Some? {
      var stack := resolved.value;
      assert stack == Pick(segments, kept);
      forall a | 0 <= a < |stack| ensures Name(stack[a]) && SLASH !in stack[a] {
        assert kept[a] in kept;
      }
      if stack == [] {
        forall i: nat | i < |segments| ensures !Survives(segments, i, |segments|) { assert i !in kept; }
      } else {
        JoinProper(stack);
        assert kept[0] in kept;
        assert Survives(segments, kept[0], |segments|);
      }
    }
  }

  predicate Proper(segments: seq<JsString>) {
    segments != [] && forall i :: 0 <= i < |segments| ==> Name(segments[i]) && SLASH !in segments[i]
  }

  lemma JoinProper(segments: seq<JsString>)
    requires Proper(segments)
    ensures Join(segments) != [] && Join(segments) != DOT && Join(segments) != DOT_DOT
    ensures Split(Join(segments)) == segments
  {
    SplitJoin(segments);
    SplitWhole([]);
    SplitWhole(DOT);
    SplitWhole(DOT_DOT);
    assert Name(segments[0]);
  }

  /** Canonical paths: proper segments, no separator or wildcard left to interpret. */
  predicate Canonical(path: JsString) {
    Acceptable(path) && BACKSLASH !in path && Proper(Split(path))
  }

  lemma {:induction false} ResolveProper(stack: seq<JsString>, segments: seq<JsString>)
    requires forall i :: 0 <= i < |segments| ==> Name(segments[i])
    ensures Resolve(stack, segments) == Some(stack + segments)
    decreases |segments|
  {
    if segments != [] {
      ResolveProper(stack + [segments[0]], segments[1..]);
      assert stack + [segments[0]] + segments[1..] == stack + segments;
    } else {
      assert stack + segments == stack;
    }
  }

  /** Canonical paths are exactly the fixpoints of normalisation. */
  lemma CanonicalIsFixpoint(path: JsString)
    ensures Canonical(path) <==> CanonicalRelativePath(path) == Some(path)
  {
    if Canonical(path) {
      assert ReplaceBackslashes(path) == path;
      ResolveProper([], Split(path));
      assert [] + Split(path) == Split(path);
      JoinSplit(path);
      JoinProper(Split(path));
    }
    if CanonicalRelativePath(path) == Some(path) {
      ResultIsCanonical(path);
    }
  }

  predicate Units(s: JsString) {
    0 !in s && BACKSLASH !in s && forall i :: 0 <= i < |s| ==> !Wildcard(s[i])
  }

  lemma {:induction false} SplitUnits(s: JsString)
    requires Units(s)
    ensures forall i :: 0 <= i < |Split(s)| ==> Units(Split(s)[i])
  {
    if s != [] { SplitUnits(s[1..]); }
  }

  lemma {:induction false} JoinUnits(segments: seq<JsString>)
    requires forall i :: 0 <= i < |segments| ==> Units(segments[i])
    ensures Units(Join(segments))
  {
    if |segments| > 1 { JoinUnits(segments[1..]); }
  }

  lemma {:induction false} ResolveFrom(stack: seq<JsString>, segments: seq<JsString>)
    ensures Resolve(stack, segments).Some? ==>
              forall x :: x in Resolve(stack, segments).value ==> x in stack || (x in segments && Name(x))
    decreases |segments|
  {
    if segments != [] {
      if Ignored(segments[0]) {
        ResolveFrom(stack, segments[1..]);
      } else if segments[0] == DOT_DOT {
        if stack != [] { ResolveFrom(stack[..|stack| - 1], segments[1..]); }
      } else {
        ResolveFrom(stack + [segments[0]], segments[1..]);
      }
    }
  }

  lemma FirstSlash(s: JsString)
    ensures s != [] && s[0] == SLASH ==> Split(s)[0] == []
  {
  }

  /** Normalising a normalised path changes nothing. */
  lemma ResultIsCanonical(value: JsString)
    requires CanonicalRelativePath(value).Some?
    ensures Canonical(CanonicalRelativePath(value).value)
  {
    var plain := ReplaceBackslashes(value);
    var parts := Split(plain);
    var stack := Resolve([], parts).value;
    ResolveFrom([], parts);
    SplitUnits(plain);
    forall i | 0 <= i < |stack| ensures Name(stack[i]) && SLASH !in stack[i] && Units(stack[i]) {
      assert stack[i] in parts;
    }
    JoinUnits(stack);
    JoinProper(stack);
    var path := Join(stack);
    FirstSlash(path);
  }
}
