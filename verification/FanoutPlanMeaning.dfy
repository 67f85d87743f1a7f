/** What a plan has to do with the input it was made from, and which inputs are accepted, said of the input itself. */
module FanoutPlanMeaning {
  import opened Ordering
  import opened JsStrings
  import opened Wrappers
  import opened FanoutPaths
  import opened FanoutPlan
  import G = FanoutGraph
  import O = FanoutOwnership

  // ---- the plan says what the input says ----

  predicate Ascending(values: seq<JsString>) { forall i, j :: 0 <= i < j < |values| ==> LexLess(values[i], values[j]) }

  /** `forms` are the canonical forms of `values`, each once and in order. */
  ghost predicate FormsOf(values: seq<JsString>, forms: seq<JsString>) {
    && Ascending(forms)
    && (forall v :: v in values ==> CanonicalRelativePath(v).Some? && CanonicalRelativePath(v).value in forms)
    && (forall f :: f in forms ==> exists v :: v in values && CanonicalRelativePath(v) == Some(f))
  }

  predicate SortedCopy(values: seq<JsString>, sorted: seq<JsString>) {
    multiset(values) == multiset(sorted) && forall i, j :: 0 <= i < j < |sorted| ==> LexLeq(sorted[i], sorted[j])
  }

  /** The planned child says what the child of the input says. */
  ghost predicate Renders(c: Child, planned: Child) {
    && planned.key == c.key && planned.title == c.title && planned.body == c.body && planned.tenant == c.tenant
    && planned.profile == c.profile && planned.worktree == c.worktree
    && FormsOf(c.ownership, planned.ownership) && SortedCopy(c.dependsOn, planned.dependsOn)
  }

  /** `from[j]` is the place in the input of the j-th planned child. */
  ghost predicate Corresponds(input: seq<Child>, planned: seq<Child>, from: seq<nat>) {
    && |from| == |planned| == |input|
    && (forall j :: 0 <= j < |from| ==> from[j] < |input| && Renders(input[from[j]], planned[j]))
    && (forall i, j :: 0 <= i < j < |from| ==> from[i] != from[j])
  }

  lemma {:induction false} UniqueDistinct(values: seq<JsString>)
    ensures forall i, j :: 0 <= i < j < |Unique(values)| ==> Unique(values)[i] != Unique(values)[j]
    decreases |values|
  {
    if values != [] {
      var init := Unique(values[..|values| - 1]);
      UniqueDistinct(values[..|values| - 1]);
      forall i | 0 <= i < |init| ensures init[i] in init {}
    }
  }

  lemma {:induction false} DistinctStays(a: seq<JsString>, b: seq<JsString>)
    requires multiset(a) == multiset(b) && AllDistinct(a)
    ensures AllDistinct(b)
  {
    DistinctSize(a);
    DistinctSize(b);
    SameMembers(a, b);
    assert (set x | x in a) == (set x | x in b);
  }

  lemma UniqueSortedAscends(values: seq<JsString>)
    ensures Ascending(UniqueSorted(values))
  {
    hide Unique;
    var sorted := UniqueSorted(values);
    UniqueDistinct(values);
    SortBySorts(Unique(values), Identity);
    DistinctStays(Unique(values), sorted);
    forall i, j | 0 <= i < j < |sorted| ensures LexLess(sorted[i], sorted[j]) {
      assert LexLeq(Identity(sorted[i]), Identity(sorted[j]));
      if LexLeq(sorted[j], sorted[i]) { LexAntisymmetric(sorted[i], sorted[j]); }
    }
  }

  lemma PathsRender(values: seq<JsString>)
    requires CanonicalPaths(values).Some?
    ensures FormsOf(values, UniqueSorted(CanonicalPaths(values).value))
  {
    hide CanonicalRelativePath, UniqueSorted, Ascending;
    var paths := CanonicalPaths(values).value;
    UniqueSortedAscends(paths);
    UniqueSortedMembers(paths);
    forall v | v in values ensures CanonicalRelativePath(v).Some? && CanonicalRelativePath(v).value in paths {
      var i :| 0 <= i < |values| && values[i] == v;
      assert paths[i] == CanonicalRelativePath(v).value;
    }
    forall f | f in paths ensures exists v :: v in values && CanonicalRelativePath(v) == Some(f) {
      var i :| 0 <= i < |paths| && paths[i] == f;
      assert values[i] in values;
    }
  }

  lemma ChildRenders(c: Child, worktreesRoot: JsString)
    requires CanonicalChild(c, worktreesRoot).Some?
    ensures Renders(c, CanonicalChild(c, worktreesRoot).value)
  {
    hide CanonicalPaths, UniqueSorted, SortBy, CanonicalWorktree, FormsOf;
    PathsRender(c.ownership);
    SortBySorts(c.dependsOn, Identity);
    var sorted := SortBy(c.dependsOn, Identity);
    forall i, j | 0 <= i < j < |sorted| ensures LexLeq(sorted[i], sorted[j]) {
      assert LexLeq(Identity(sorted[i]), Identity(sorted[j]));
    }
  }

  /** The sequences `xs` and `cs` agree child by child. */
  ghost predicate Side(cs: seq<Child>, xs: seq<Child>) {
    |xs| == |cs| && forall i :: 0 <= i < |cs| ==> Renders(cs[i], xs[i])
  }

  /** The canonical children in the order of the input. */
  lemma ChildrenRender(cs: seq<Child>, worktreesRoot: JsString)
    requires CanonicalChildren(cs, worktreesRoot).Some?
    ensures Side(cs, CanonicalChildren(cs, worktreesRoot).value)
  {
    hide CanonicalChild, Renders;
    var forms, xs := CanonicalForms(cs, worktreesRoot), CanonicalChildren(cs, worktreesRoot).value;
    forall i | 0 <= i < |cs| ensures Renders(cs[i], xs[i]) {
      assert forms[i] in forms;
      ChildRenders(cs[i], worktreesRoot);
    }
  }

  function PlaceOf(cs: seq<Child>, c: Child): (i: nat)
    requires c in cs
    ensures i < |cs| && cs[i] == c
  {
    if cs[0] == c then 0 else 1 + PlaceOf(cs[1..], c)
  }

  /** The plan of an input lists the input's children, one to one and by key, each saying what it says there, and the
      input's scope, gate and snapshot. */
  lemma PlanSaysInput(input: Plan, worktreesRoot: JsString) returns (from: seq<nat>)
    requires PlanOf(input, worktreesRoot).Some?
    ensures var plan := PlanOf(input, worktreesRoot).value;
            && Corresponds(input.children, plan.children, from)
            && (forall i, j :: 0 <= i < j < |plan.children| ==> LexLess(plan.children[i].key, plan.children[j].key))
            && FormsOf(input.scopeRoots, plan.scopeRoots) && SortedCopy(input.requiredChildren, plan.requiredChildren)
            && plan.parentTaskId == input.parentTaskId && plan.parentSnapshot == input.parentSnapshot
            && plan.repoCommonDir == input.repoCommonDir
  {
    hide InputSchema, CanonicalAbsolutePath, CanonicalPaths, CanonicalChildren, SortBy, UniqueSorted, FormsOf, SortedCopy, DependencyGraph,
      PlanChecks, Corresponds;
    var xs := CanonicalChildren(input.children, worktreesRoot).value;
    PathsRender(input.scopeRoots);
    GateSorted(input.requiredChildren);
    ChildrenRender(input.children, worktreesRoot);
    KeysChecked(UniqueSorted(CanonicalPaths(input.scopeRoots).value), xs, input.requiredChildren);
    SortedKeys(xs);
    from := SortedPlaces(input.children, xs);
  }

  lemma KeysChecked(roots: seq<JsString>, xs: seq<Child>, required: seq<JsString>)
    requires PlanChecks(roots, xs, required)
    ensures |Keys(xs)| == |xs|
  {
  }

  lemma SortedPlaces(cs: seq<Child>, xs: seq<Child>) returns (from: seq<nat>)
    requires Side(cs, xs) && |Keys(xs)| == |xs|
    ensures Corresponds(cs, SortBy(xs, KeyOf), from)
  {
    hide SortBy, Renders, Keys;
    var ys := SortBy(xs, KeyOf);
    SortBySorts(xs, KeyOf);
    SortedKeys(xs);
    from := seq(|ys|, j requires 0 <= j < |ys| && ys[j] in xs => PlaceOf(xs, ys[j]));
    forall j | 0 <= j < |from| ensures from[j] < |cs| && Renders(cs[from[j]], ys[j]) { assert xs[from[j]] == ys[j]; }
    forall i, j | 0 <= i < j < |from| ensures from[i] != from[j] {
      assert xs[from[i]] == ys[i] && xs[from[j]] == ys[j];
      LexReflexive(ys[i].key);
    }
  }

  lemma GateSorted(values: seq<JsString>)
    ensures SortedCopy(values, SortBy(values, Identity))
  {
    hide SortBy;
    SortBySorts(values, Identity);
    var sorted := SortBy(values, Identity);
    forall i, j | 0 <= i < j < |sorted| ensures LexLeq(sorted[i], sorted[j]) {
      assert LexLeq(Identity(sorted[i]), Identity(sorted[j]));
    }
  }

  lemma SortedKeys(xs: seq<Child>)
    requires |Keys(xs)| == |xs|
    ensures var ys := SortBy(xs, KeyOf); forall i, j :: 0 <= i < j < |ys| ==> LexLess(ys[i].key, ys[j].key)
  {
    hide SortBy;
    var ys := SortBy(xs, KeyOf);
    SortBySorts(xs, KeyOf);
    assert Keys(ys) == Keys(xs);
    KeysInjective(ys);
    forall i, j | 0 <= i < j < |ys| ensures LexLess(ys[i].key, ys[j].key) {
      assert LexLeq(KeyOf(ys[i]), KeyOf(ys[j]));
      if LexLeq(ys[j].key, ys[i].key) { LexAntisymmetric(ys[i].key, ys[j].key); }
    }
  }

  // ---- which inputs are accepted ----

  predicate AllDistinct(values: seq<JsString>) { forall i, j :: 0 <= i < j < |values| ==> values[i] != values[j] }

  function WorktreeName(c: Child): JsString { c.worktree }

  function WorktreeSeq(cs: seq<Child>): seq<JsString> { MapSeq(WorktreeName, cs) }

  predicate IsKey(cs: seq<Child>, key: JsString) { exists c :: c in cs && c.key == key }

  /** The child `a` lists `b` among its dependencies. */
  predicate Needs(cs: seq<Child>, a: JsString, b: JsString) { exists c :: c in cs && c.key == a && b in c.dependsOn }

  /** Going from need to need leads back to the start. */
  ghost predicate Circular(cs: seq<Child>) {
    exists w: seq<JsString> :: |w| >= 2 && w[0] == w[|w| - 1] && NeedsAlong(cs, w)
  }

  predicate NeedsAlong(cs: seq<Child>, w: seq<JsString>) {
    forall i :: 0 <= i < |w| - 1 ==> Needs(cs, w[i], w[i + 1])
  }

  /** The path lies under what one of the texts means. */
  predicate Under(values: seq<JsString>, path: JsString) {
    exists v :: v in values && CanonicalRelativePath(v).Some? && IsSameOrDescendant(path, CanonicalRelativePath(v).value)
  }

  predicate Readable(values: seq<JsString>) { forall v :: v in values ==> CanonicalRelativePath(v).Some? }

  /** Every path under a scope root lies under the paths of exactly one child, and no other path under any. */
  ghost predicate Shared(input: Plan) {
    forall path: JsString ::
      && (Under(input.scopeRoots, path) ==> OneChild(input.children, path))
      && (!Under(input.scopeRoots, path) ==> forall c :: c in input.children ==> !Under(c.ownership, path))
  }

  ghost predicate OneChild(cs: seq<Child>, path: JsString) {
    exists c :: c in cs && Under(c.ownership, path) && forall e :: e in cs && Under(e.ownership, path) ==> e.key == c.key
  }

  predicate Independent(cs: seq<Child>) {
    && AllDistinct(KeySeq(cs)) && AllDistinct(WorktreeSeq(cs))
    && forall c :: c in cs ==> AllDistinct(c.dependsOn) && forall d :: d in c.dependsOn ==> d != c.key && IsKey(cs, d)
  }

  /** The demands on an input, none of which speaks of a plan. */
  ghost predicate Acceptable(input: Plan, worktreesRoot: JsString) {
    && InputSchema(input) && input.parentSnapshot.taskId == input.parentTaskId && CanonicalAbsolutePath(input.repoCommonDir)
    && Readable(input.scopeRoots)
    && (forall c :: c in input.children ==> CanonicalWorktree(c.worktree, worktreesRoot) && Readable(c.ownership))
    && Independent(input.children) && !Circular(input.children) && Shared(input)
    && AllDistinct(input.requiredChildren) && forall k :: k in input.requiredChildren <==> IsKey(input.children, k)
  }

  lemma {:induction false} DistinctSize(values: seq<JsString>)
    ensures NoDuplicates(values) <==> AllDistinct(values)
    ensures |set x | x in values| <= |values|
    decreases |values|
  {
    if values != [] {
      var init, last := values[..|values| - 1], values[|values| - 1];
      DistinctSize(init);
      assert values == init + [last];
      assert (set x | x in values) == (set x | x in init) + {last};
      if NoDuplicates(values) { assert last !in init; }
      if AllDistinct(values) {
        assert last !in init;
        assert AllDistinct(init);
      }
    } else {
      assert (set x | x in values) == {};
    }
  }

  lemma ChildrenReadable(cs: seq<Child>, worktreesRoot: JsString)
    ensures CanonicalChildren(cs, worktreesRoot).Some?
       <==> forall c :: c in cs ==> CanonicalWorktree(c.worktree, worktreesRoot) && Readable(c.ownership)
  {
    hide CanonicalWorktree, CanonicalRelativePath, UniqueSorted, SortBy;
    var forms := CanonicalForms(cs, worktreesRoot);
    if CanonicalChildren(cs, worktreesRoot).Some? {
      forall c | c in cs ensures CanonicalWorktree(c.worktree, worktreesRoot) && Readable(c.ownership) {
        var i :| 0 <= i < |cs| && cs[i] == c;
        assert forms[i] in forms;
      }
    }
  }

  lemma PlannedOf(cs: seq<Child>, xs: seq<Child>, c: Child) returns (x: Child)
    requires Side(cs, xs) && c in cs
    ensures x in xs && Renders(c, x)
  {
    var i :| 0 <= i < |cs| && cs[i] == c;
    x := xs[i];
  }

  lemma InputOf(cs: seq<Child>, xs: seq<Child>, x: Child) returns (c: Child)
    requires Side(cs, xs) && x in xs
    ensures c in cs && Renders(c, x)
  {
    var i :| 0 <= i < |xs| && xs[i] == x;
    c := cs[i];
  }

  lemma SideNames(cs: seq<Child>, xs: seq<Child>)
    requires Side(cs, xs)
    ensures KeySeq(xs) == KeySeq(cs) && WorktreeSeq(xs) == WorktreeSeq(cs)
  {
    hide FormsOf, SortedCopy;
  }

  lemma KeysOfSeq(xs: seq<Child>)
    ensures Keys(xs) == set k | k in KeySeq(xs)
    ensures Worktrees(xs) == set k | k in WorktreeSeq(xs)
  {
    var keys, places := KeySeq(xs), WorktreeSeq(xs);
    forall c | c in xs ensures c.key in keys && c.worktree in places {
      var i :| 0 <= i < |xs| && xs[i] == c;
      assert keys[i] == c.key && places[i] == c.worktree;
    }
    forall k | k in keys ensures k in Keys(xs) {
      var i :| 0 <= i < |xs| && keys[i] == k;
      assert xs[i] in xs;
    }
    forall k | k in places ensures k in Worktrees(xs) {
      var i :| 0 <= i < |xs| && places[i] == k;
      assert xs[i] in xs;
    }
  }

  lemma SideKeys(cs: seq<Child>, xs: seq<Child>, key: JsString)
    requires Side(cs, xs)
    ensures key in Keys(xs) <==> IsKey(cs, key)
  {
    hide Renders, Side;
    if key in Keys(xs) {
      var x :| x in xs && x.key == key;
      var c := InputOf(cs, xs, x);
      RendersMeans(c, x);
    }
    if IsKey(cs, key) {
      var c :| c in cs && c.key == key;
      var x := PlannedOf(cs, xs, c);
      RendersMeans(c, x);
    }
  }

  lemma RendersMeans(c: Child, x: Child)
    requires Renders(c, x)
    ensures x.key == c.key && x.worktree == c.worktree && SortedCopy(c.dependsOn, x.dependsOn)
            && FormsOf(c.ownership, x.ownership)
  {
  }

  lemma CopyMembers(a: seq<JsString>, b: seq<JsString>)
    requires SortedCopy(a, b)
    ensures (forall d :: d in a <==> d in b) && (AllDistinct(a) <==> NoDuplicates(b))
  {
    SameMembers(a, b);
    DistinctSize(a);
    DistinctSize(b);
    assert (set x | x in a) == (set x | x in b);
  }

  lemma NeedsSide(cs: seq<Child>, xs: seq<Child>, c: Child, x: Child)
    requires Side(cs, xs) && Renders(c, x)
    ensures DependenciesOk(Keys(xs), x) <==> NeedsOk(cs, c)
  {
    RendersMeans(c, x);
    hide Renders, Side, AllDistinct, SortedCopy, FormsOf, NoDuplicates, Keys, IsKey;
    CopyMembers(c.dependsOn, x.dependsOn);
    forall d ensures d in Keys(xs) <==> IsKey(cs, d) { SideKeys(cs, xs, d); }
  }

  lemma AllNeeds(cs: seq<Child>, xs: seq<Child>)
    requires Side(cs, xs)
    ensures (forall x :: x in xs ==> DependenciesOk(Keys(xs), x)) <==> forall c :: c in cs ==> NeedsOk(cs, c)
  {
    hide Side, Renders, DependenciesOk, NeedsOk, Keys;
    if forall x :: x in xs ==> DependenciesOk(Keys(xs), x) {
      forall c | c in cs ensures NeedsOk(cs, c) {
        var x := PlannedOf(cs, xs, c);
        NeedsSide(cs, xs, c, x);
      }
    }
    if forall c :: c in cs ==> NeedsOk(cs, c) {
      forall x | x in xs ensures DependenciesOk(Keys(xs), x) {
        var c := InputOf(cs, xs, x);
        NeedsSide(cs, xs, c, x);
      }
    }
  }

  /** The key check on the canonical children is a demand on the input's. */
  lemma KeysExactly(cs: seq<Child>, xs: seq<Child>)
    requires Side(cs, xs)
    ensures ChildKeys(xs) && |Worktrees(xs)| == |xs| <==> Independent(cs)
  {
    SideNames(cs, xs);
    AllNeeds(cs, xs);
    KeysOfSeq(xs);
    hide Side, Keys, Worktrees, AllDistinct, IsKey;
    DistinctSize(KeySeq(xs));
    DistinctSize(WorktreeSeq(xs));
    KeysUnfold(cs, xs);
  }

  lemma KeysUnfold(cs: seq<Child>, xs: seq<Child>)
    ensures ChildKeys(xs) <==> |Keys(xs)| == |xs| && forall x :: x in xs ==> DependenciesOk(Keys(xs), x)
    ensures Independent(cs) <==> AllDistinct(KeySeq(cs)) && AllDistinct(WorktreeSeq(cs)) && forall c :: c in cs ==> NeedsOk(cs, c)
  {
    hide AllDistinct, Keys, IsKey, NoDuplicates;
  }

  predicate DependenciesOk(keys: set<JsString>, x: Child) {
    NoDuplicates(x.dependsOn) && forall d :: d in x.dependsOn ==> d in keys && d != x.key
  }

  predicate NeedsOk(cs: seq<Child>, c: Child) {
    AllDistinct(c.dependsOn) && forall d :: d in c.dependsOn ==> d != c.key && IsKey(cs, d)
  }

  /** The graph the cycle check walks has the input's needs as its edges. */
  lemma EdgesAreNeeds(cs: seq<Child>, xs: seq<Child>, a: JsString, b: JsString)
    requires Side(cs, xs) && |Keys(xs)| == |xs|
    ensures G.Edge(DependencyGraph(xs), a, b) <==> Needs(cs, a, b)
  {
    hide Renders, Side, DependencyGraph, SortedCopy, FormsOf, Keys, AllDistinct, NoDuplicates;
    if G.Edge(DependencyGraph(xs), a, b) {
      GraphFromChildren(xs);
      var x :| x in xs && x.key == a && x.dependsOn == DependencyGraph(xs)[a];
      var c := InputOf(cs, xs, x);
      RendersMeans(c, x);
      CopyMembers(c.dependsOn, x.dependsOn);
    }
    if Needs(cs, a, b) {
      var c :| c in cs && c.key == a && b in c.dependsOn;
      var x := PlannedOf(cs, xs, c);
      RendersMeans(c, x);
      CopyMembers(c.dependsOn, x.dependsOn);
      GraphLookup(xs, x);
    }
  }

  lemma CyclesExactly(cs: seq<Child>, xs: seq<Child>)
    requires Side(cs, xs) && |Keys(xs)| == |xs|
    ensures G.HasCycle(DependencyGraph(xs)) <==> Circular(cs)
  {
    hide Side, DependencyGraph, G.Edge, Needs;
    forall a, b ensures G.Edge(DependencyGraph(xs), a, b) <==> Needs(cs, a, b) { EdgesAreNeeds(cs, xs, a, b); }
    if G.HasCycle(DependencyGraph(xs)) {
      var w :| G.CycleIn(DependencyGraph(xs), w);
      assert NeedsAlong(cs, w);
    }
    if Circular(cs) {
      var w: seq<JsString> :| |w| >= 2 && w[0] == w[|w| - 1] && NeedsAlong(cs, w);
      assert G.CycleIn(DependencyGraph(xs), w);
    }
  }

  lemma UnderForms(values: seq<JsString>, forms: seq<JsString>, path: JsString)
    requires FormsOf(values, forms)
    ensures O.InScope(forms, path) <==> Under(values, path)
  {
    hide IsSameOrDescendant, CanonicalRelativePath, Ascending;
    if Under(values, path) {
      var v :| v in values && CanonicalRelativePath(v).Some? && IsSameOrDescendant(path, CanonicalRelativePath(v).value);
      assert CanonicalRelativePath(v).value in forms;
    }
  }

  predicate Holder(cs: seq<Child>, key: JsString, path: JsString) {
    exists c :: c in cs && c.key == key && Under(c.ownership, path)
  }

  lemma OwnsExactly(cs: seq<Child>, xs: seq<Child>, key: JsString, path: JsString)
    requires Side(cs, xs)
    ensures O.Owns(O.Owners(Claims(xs)), key, path) <==> Holder(cs, key, path)
  {
    hide Renders, Side, Under, FormsOf, SortedCopy, O.Owns, O.Owners;
    OwnsByChild(xs, key, path);
    if O.Owns(O.Owners(Claims(xs)), key, path) {
      var x :| x in xs && x.key == key && O.InScope(x.ownership, path);
      var c := InputOf(cs, xs, x);
      RendersMeans(c, x);
      UnderForms(c.ownership, x.ownership, path);
    }
    if Holder(cs, key, path) {
      var c :| c in cs && c.key == key && Under(c.ownership, path);
      var x := PlannedOf(cs, xs, c);
      RendersMeans(c, x);
      UnderForms(c.ownership, x.ownership, path);
    }
  }

  lemma OwnsByChild(xs: seq<Child>, key: JsString, path: JsString)
    ensures O.Owns(O.Owners(Claims(xs)), key, path) <==> exists x :: x in xs && x.key == key && O.InScope(x.ownership, path)
  {
    hide O.Owners, IsSameOrDescendant;
    O.OwnersAreClaims(Claims(xs));
    var owners := O.Owners(Claims(xs));
    if O.Owns(owners, key, path) {
      var o :| o in owners && o.childKey == key && IsSameOrDescendant(path, o.path);
      assert O.Holds(Claims(xs), o);
      var q :| q in Claims(xs) && q.key == o.childKey && o.path in q.ownership;
      var i :| 0 <= i < |xs| && Claims(xs)[i] == q;
      assert xs[i] in xs && O.InScope(xs[i].ownership, path);
    }
    if exists x :: x in xs && x.key == key && O.InScope(x.ownership, path) {
      var x :| x in xs && x.key == key && O.InScope(x.ownership, path);
      var f :| f in x.ownership && IsSameOrDescendant(path, f);
      var i :| 0 <= i < |xs| && xs[i] == x;
      assert Claims(xs)[i] == O.Claim(x.key, x.ownership);
      assert O.Holds(Claims(xs), O.Owner(key, f));
    }
  }

  lemma SharedExactly(input: Plan, xs: seq<Child>, roots: seq<JsString>)
    requires Side(input.children, xs) && FormsOf(input.scopeRoots, roots)
    ensures O.Partition(roots, O.Owners(Claims(xs))) <==> Shared(input)
  {
    hide Side, O.Owners, O.Owns, O.InScope, O.OneOwner, OneChild, Under, FormsOf;
    var owners := O.Owners(Claims(xs));
    forall path: JsString
      ensures O.InScope(roots, path) <==> Under(input.scopeRoots, path)
      ensures O.OneOwner(owners, path) <==> OneChild(input.children, path)
      ensures (forall key :: !O.Owns(owners, key, path)) <==> forall c :: c in input.children ==> !Under(c.ownership, path)
    {
      UnderForms(input.scopeRoots, roots, path);
      PathExactly(input.children, xs, path);
    }
  }

  lemma PathExactly(cs: seq<Child>, xs: seq<Child>, path: JsString)
    requires Side(cs, xs)
    ensures var owners := O.Owners(Claims(xs));
            && (O.OneOwner(owners, path) <==> OneChild(cs, path))
            && ((forall key :: !O.Owns(owners, key, path)) <==> forall c :: c in cs ==> !Under(c.ownership, path))
  {
    hide Side, O.Owners, O.Owns, Under, Holder, O.OneOwner, OneChild;
    forall key ensures O.Owns(O.Owners(Claims(xs)), key, path) <==> Holder(cs, key, path) { OwnsExactly(cs, xs, key, path); }
    OneOwnerExactly(cs, O.Owners(Claims(xs)), path);
    NoOwnerExactly(cs, O.Owners(Claims(xs)), path);
  }

  ghost predicate OneHolder(cs: seq<Child>, path: JsString) {
    exists key :: Holder(cs, key, path) && forall other :: Holder(cs, other, path) ==> other == key
  }

  lemma OneHolderExactly(cs: seq<Child>, path: JsString)
    ensures OneHolder(cs, path) <==> OneChild(cs, path)
  {
    hide Under;
    if OneHolder(cs, path) {
      var key :| Holder(cs, key, path) && forall other :: Holder(cs, other, path) ==> other == key;
      var c :| c in cs && c.key == key && Under(c.ownership, path);
      forall e | e in cs && Under(e.ownership, path) ensures e.key == c.key { assert Holder(cs, e.key, path); }
    }
    if OneChild(cs, path) {
      var c :| c in cs && Under(c.ownership, path) && forall e :: e in cs && Under(e.ownership, path) ==> e.key == c.key;
      assert Holder(cs, c.key, path);
    }
  }

  lemma NoHolderExactly(cs: seq<Child>, path: JsString)
    ensures (forall key :: !Holder(cs, key, path)) <==> forall c :: c in cs ==> !Under(c.ownership, path)
  {
    hide Under;
    if forall key :: !Holder(cs, key, path) {
      forall c | c in cs ensures !Under(c.ownership, path) { assert !Holder(cs, c.key, path); }
    }
  }

  lemma OneOwnerExactly(cs: seq<Child>, owners: seq<O.Owner>, path: JsString)
    requires forall key :: O.Owns(owners, key, path) <==> Holder(cs, key, path)
    ensures O.OneOwner(owners, path) <==> OneChild(cs, path)
  {
    hide O.Owns, Holder, OneChild;
    OneHolderExactly(cs, path);
    if O.OneOwner(owners, path) {
      var key :| O.Owns(owners, key, path) && forall other :: O.Owns(owners, other, path) ==> other == key;
      assert Holder(cs, key, path);
      forall other | Holder(cs, other, path) ensures other == key { assert O.Owns(owners, other, path); }
    }
    if OneHolder(cs, path) {
      var key :| Holder(cs, key, path) && forall other :: Holder(cs, other, path) ==> other == key;
      assert O.Owns(owners, key, path);
      forall other | O.Owns(owners, other, path) ensures other == key { assert Holder(cs, other, path); }
    }
  }

  lemma NoOwnerExactly(cs: seq<Child>, owners: seq<O.Owner>, path: JsString)
    requires forall key :: O.Owns(owners, key, path) <==> Holder(cs, key, path)
    ensures (forall key :: !O.Owns(owners, key, path)) <==> forall c :: c in cs ==> !Under(c.ownership, path)
  {
    hide O.Owns, Holder, Under;
    NoHolderExactly(cs, path);
    if forall key :: !O.Owns(owners, key, path) {
      forall key ensures !Holder(cs, key, path) { assert !O.Owns(owners, key, path); }
    }
    if forall key :: !Holder(cs, key, path) {
      forall key ensures !O.Owns(owners, key, path) { assert !Holder(cs, key, path); }
    }
  }

  lemma {:induction false} SameSetSameMultiset(a: seq<JsString>, b: seq<JsString>)
    requires AllDistinct(a) && AllDistinct(b) && forall x :: x in a <==> x in b
    ensures multiset(a) == multiset(b)
  {
    forall x ensures multiset(a)[x] == multiset(b)[x] {
      OnceAtMost(a, x);
      OnceAtMost(b, x);
      assert x in multiset(a) <==> x in a;
      assert x in multiset(b) <==> x in b;
    }
  }

  lemma {:induction false} OnceAtMost(a: seq<JsString>, x: JsString)
    requires AllDistinct(a)
    ensures multiset(a)[x] <= 1
    decreases |a|
  {
    if a != [] {
      var init, last := a[..|a| - 1], a[|a| - 1];
      OnceAtMost(init, x);
      assert a == init + [last];
      assert last !in init;
      assert last !in multiset(init);
    }
  }

  lemma GateExactly(cs: seq<Child>, xs: seq<Child>, required: seq<JsString>)
    requires Side(cs, xs) && |Keys(xs)| == |xs|
    ensures GateNamesAll(xs, required) <==> AllDistinct(required) && forall k :: k in required <==> IsKey(cs, k)
  {
    hide Side, Keys, SortBy, AllDistinct, IsKey;
    var keys := KeySeq(xs);
    KeysOfSeq(xs);
    DistinctSize(keys);
    DistinctSize(required);
    SortBySorts(keys, Identity);
    SortBySorts(required, Identity);
    forall k ensures k in keys <==> IsKey(cs, k) {
      SideKeys(cs, xs, k);
      assert k in Keys(xs) <==> k in keys;
    }
    if GateNamesAll(xs, required) {
      assert multiset(keys) == multiset(required);
      SameMembers(keys, required);
    }
    if AllDistinct(required) && forall k :: k in required <==> IsKey(cs, k) {
      SameSetSameMultiset(keys, required);
      SortForgets(keys, required);
    }
  }

  /** createFanoutPlan accepts exactly the acceptable inputs: the keys, worktrees and dependencies of the input itself
      are in order, its own needs have no cycle, and its own paths share out its scope. */
  lemma AcceptedExactly(input: Plan, worktreesRoot: JsString)
    ensures PlanOf(input, worktreesRoot).Some? <==> Acceptable(input, worktreesRoot)
  {
    hide InputSchema, CanonicalAbsolutePath, CanonicalChildren, UniqueSorted, CanonicalRelativePath, DependencyGraph, GateNamesAll, ChildKeys,
      Independent, Circular, Shared, O.Partition, G.HasCycle, Worktrees, AllDistinct, IsKey, CanonicalWorktree;
    ChildrenReadable(input.children, worktreesRoot);
    if CanonicalPaths(input.scopeRoots).Some? && CanonicalChildren(input.children, worktreesRoot).Some? {
      var roots := UniqueSorted(CanonicalPaths(input.scopeRoots).value);
      var xs := CanonicalChildren(input.children, worktreesRoot).value;
      PathsRender(input.scopeRoots);
      ChildrenRender(input.children, worktreesRoot);
      KeysExactly(input.children, xs);
      if ChildKeys(xs) { KeysOnce(xs); }
      if ChildKeys(xs) {
        CyclesExactly(input.children, xs);
        GateExactly(input.children, xs, input.requiredChildren);
      }
      SharedExactly(input, xs, roots);
    }
  }

  lemma KeysOnce(xs: seq<Child>)
    requires ChildKeys(xs)
    ensures |Keys(xs)| == |xs|
  {
  }
}
