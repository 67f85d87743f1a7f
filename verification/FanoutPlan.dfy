/** Turning a fan-out input into a canonical plan: the checks, the assembly, and that neither depends on the
    order in which the input lists things. */
module FanoutPlan {
  import opened Ordering
  import opened JsStrings
  import opened Wrappers
  import opened FanoutPaths
  import G = FanoutGraph
  import O = FanoutOwnership

  datatype Snapshot = Snapshot(taskId: JsString, updatedAt: nat, bodyHash: JsString)

  datatype Child = Child(
    key: JsString,
    title: JsString,
    body: JsString,
    tenant: JsString,
    profile: JsString,
    worktree: JsString,
    ownership: seq<JsString>,
    dependsOn: seq<JsString>)

  /** Input and plan have the same fields; the plan's are canonical. */
  datatype Plan = Plan(
    parentTaskId: JsString,
    parentSnapshot: Snapshot,
    repoCommonDir: JsString,
    scopeRoots: seq<JsString>,
    children: seq<Child>,
    requiredChildren: seq<JsString>)

  function Identity(s: JsString): seq<int> { s }
  function KeyOf(c: Child): seq<int> { c.key }

  // ---- schema ----

  predicate AlphaNumeric(c: int) { 0x30 <= c <= 0x39 || 0x41 <= c <= 0x5A || 0x61 <= c <= 0x7A }

  predicate SafeKey(k: JsString) {
    1 <= |k| <= 64 && AlphaNumeric(k[0])
    && forall i :: 1 <= i < |k| ==> AlphaNumeric(k[i]) || k[i] == 0x2E || k[i] == 0x5F || k[i] == 0x2D
  }

  predicate TaskId(t: JsString) {
    |t| >= 3 && t[0] == 0x74 && t[1] == 0x5F && forall i :: 2 <= i < |t| ==> AlphaNumeric(t[i])
  }

  predicate Sha256(h: JsString) {
    |h| == 64 && forall i :: 0 <= i < |h| ==> 0x30 <= h[i] <= 0x39 || 0x61 <= h[i] <= 0x66
  }

  predicate ChildSchema(c: Child) {
    SafeKey(c.key) && c.title != [] && c.body != [] && c.tenant != [] && c.profile != [] && c.worktree != [] && c.ownership != []
  }

  /** The schema without its cap on the number of children. */
  predicate InputSchema(input: Plan) {
    && TaskId(input.parentTaskId) && TaskId(input.parentSnapshot.taskId) && Sha256(input.parentSnapshot.bodyHash)
    && input.repoCommonDir != [] && input.scopeRoots != []
    && forall c :: c in input.children ==> ChildSchema(c)
  }

  // ---- paths ----

  /** Absolute, already normalised, and not ending in a separator. */
  predicate CanonicalAbsolutePath(value: JsString) {
    0 !in value && |Split(value)| >= 2 && Split(value)[0] == [] && Proper(Split(value)[1..])
  }

  predicate CanonicalWorktree(value: JsString, worktreesRoot: JsString) {
    CanonicalAbsolutePath(value) && |worktreesRoot| < |value| && value[..|worktreesRoot|] == worktreesRoot
    && value[|worktreesRoot|] == SLASH
  }

  // ---- uniqueSorted ----

  /** The values of a Set in insertion order. */
  function Unique(values: seq<JsString>): (r: seq<JsString>)
    ensures forall x :: x in r <==> x in values
  {
    if values == [] then []
    else
      var last := values[|values| - 1];
      var init := Unique(values[..|values| - 1]);
      assert values == values[..|values| - 1] + [last];
      if last in init then init else init + [last]
  }

  function UniqueSorted(values: seq<JsString>): seq<JsString> {
    SortBy(Unique(values), Identity)
  }

  lemma {:induction false} UniqueIsSet(values: seq<JsString>)
    ensures multiset(Unique(values)) == multiset(set x | x in values)
    decreases |values|
  {
    if values != [] {
      var last, rest := values[|values| - 1], values[..|values| - 1];
      UniqueIsSet(rest);
      assert values == rest + [last];
      if last in Unique(rest) {
        assert (set x | x in values) == (set x | x in rest);
      } else {
        assert (set x | x in values) == (set x | x in rest) + {last};
      }
    }
  }

  /** Order and repetition are forgotten. */
  lemma UniqueSortedForgets(a: seq<JsString>, b: seq<JsString>)
    requires forall x :: x in a <==> x in b
    ensures UniqueSorted(a) == UniqueSorted(b)
  {
    UniqueIsSet(a);
    UniqueIsSet(b);
    assert (set x | x in a) == (set x | x in b);
    SortByCanonical(Unique(a), Unique(b), Identity);
  }

  lemma UniqueSortedMembers(a: seq<JsString>)
    ensures forall x :: x in UniqueSorted(a) <==> x in a
  {
    SortBySorts(Unique(a), Identity);
  }

  // ---- canonical children ----

  /** Canonical forms of all paths, or None when one is refused. */
  function CanonicalPaths(values: seq<JsString>): Option<seq<JsString>> {
    if forall v :: v in values ==> CanonicalRelativePath(v).Some? then
      Some(seq(|values|, i requires 0 <= i < |values| && values[i] in values => CanonicalRelativePath(values[i]).value))
    else None
  }

  function CanonicalChild(c: Child, worktreesRoot: JsString): Option<Child> {
    var paths := CanonicalPaths(c.ownership);
    if !CanonicalWorktree(c.worktree, worktreesRoot) || paths.None? then None
    else Some(c.(ownership := UniqueSorted(paths.value), dependsOn := SortBy(c.dependsOn, Identity)))
  }

  function CanonicalForms(cs: seq<Child>, worktreesRoot: JsString): seq<Option<Child>> {
    MapSeq(c => CanonicalChild(c, worktreesRoot), cs)
  }

  function CanonicalChildren(cs: seq<Child>, worktreesRoot: JsString): Option<seq<Child>> {
    if None in CanonicalForms(cs, worktreesRoot) then None
    else
      var forms := CanonicalForms(cs, worktreesRoot);
      Some(seq(|cs|, i requires 0 <= i < |cs| && forms[i] in forms => forms[i].value))
  }

  // ---- the checks ----

  function Keys(cs: seq<Child>): set<JsString> { set c | c in cs :: c.key }

  predicate NoDuplicates(values: seq<JsString>) { |set x | x in values| == |values| }

  predicate ChildKeys(cs: seq<Child>) {
    && |Keys(cs)| == |cs|
    && forall c :: c in cs ==> NoDuplicates(c.dependsOn) && forall d :: d in c.dependsOn ==> d in Keys(cs) && d != c.key
  }

  /** new Map(children.map(child => [child.key, child])): the last child of a key wins. */
  function DependencyGraph(cs: seq<Child>): (g: G.Graph)
    ensures g.Keys == Keys(cs)
  {
    if cs == [] then map[]
    else
      var last := cs[|cs| - 1];
      assert cs == cs[..|cs| - 1] + [last];
      DependencyGraph(cs[..|cs| - 1])[last.key := last.dependsOn]
  }

  function Worktrees(cs: seq<Child>): set<JsString> { set c | c in cs :: c.worktree }

  function Claims(cs: seq<Child>): seq<O.Claim> {
    seq(|cs|, i requires 0 <= i < |cs| => O.Claim(cs[i].key, cs[i].ownership))
  }

  function KeyName(c: Child): JsString { c.key }

  function KeySeq(cs: seq<Child>): seq<JsString> { MapSeq(KeyName, cs) }

  /** The gate names every child exactly once. */
  predicate GateNamesAll(cs: seq<Child>, requiredChildren: seq<JsString>) {
    NoDuplicates(requiredChildren) && SortBy(KeySeq(cs), Identity) == SortBy(requiredChildren, Identity)
  }

  ghost predicate PlanChecks(scopeRoots: seq<JsString>, cs: seq<Child>, requiredChildren: seq<JsString>) {
    && ChildKeys(cs) && !G.HasCycle(DependencyGraph(cs)) && |Worktrees(cs)| == |cs|
    && O.Partition(scopeRoots, O.Owners(Claims(cs))) && GateNamesAll(cs, requiredChildren)
  }

  function Assemble(input: Plan, scopeRoots: seq<JsString>, cs: seq<Child>): Plan {
    input.(scopeRoots := scopeRoots, children := SortBy(cs, KeyOf), requiredChildren := SortBy(input.requiredChildren, Identity))
  }

  /** The plan for an input, or None when a check refuses it. */
  ghost function PlanOf(input: Plan, worktreesRoot: JsString): Option<Plan> {
    var roots := CanonicalPaths(input.scopeRoots);
    var children := CanonicalChildren(input.children, worktreesRoot);
    if !InputSchema(input) || input.parentSnapshot.taskId != input.parentTaskId
       || !CanonicalAbsolutePath(input.repoCommonDir) || roots.None? || children.None? then None
    else
      var scopeRoots := UniqueSorted(roots.value);
      if !PlanChecks(scopeRoots, children.value, input.requiredChildren) then None
      else Some(Assemble(input, scopeRoots, children.value))
  }

  method CreateFanoutPlan(input: Plan, worktreesRoot: JsString) returns (r: Option<Plan>)
    ensures r == PlanOf(input, worktreesRoot)
  {
    hide InputSchema, CanonicalAbsolutePath, CanonicalChildren, GateNamesAll, O.Partition, G.HasCycle, DependencyGraph;
    if !InputSchema(input) || input.parentSnapshot.taskId != input.parentTaskId
       || !CanonicalAbsolutePath(input.repoCommonDir) { return None; }
    var roots := CanonicalPaths(input.scopeRoots);
    if roots.None? { return None; }
    var scopeRoots := UniqueSorted(roots.value);
    var canonical := CanonicalChildren(input.children, worktreesRoot);
    if canonical.None? { return None; }
    var children := canonical.value;
    if !ChildKeys(children) { return None; }
    KnownDependencies(children);
    var acyclic := G.AssertAcyclic(KeySeq(children), DependencyGraph(children));
    if !acyclic { return None; }
    if |Worktrees(children)| != |children| { return None; }
    var owned := O.AssertOwnership(scopeRoots, Claims(children));
    if !owned { return None; }
    if !GateNamesAll(children, input.requiredChildren) { return None; }
    return Some(Assemble(input, scopeRoots, children));
  }

  lemma {:induction false} GraphFromChildren(cs: seq<Child>)
    ensures forall k :: k in DependencyGraph(cs) ==> exists c :: c in cs && c.key == k && c.dependsOn == DependencyGraph(cs)[k]
    decreases |cs|
  {
    if cs != [] {
      var rest, last := cs[..|cs| - 1], cs[|cs| - 1];
      GraphFromChildren(rest);
      forall k | k in DependencyGraph(cs)
        ensures exists c :: c in cs && c.key == k && c.dependsOn == DependencyGraph(cs)[k]
      {
        if k != last.key {
          var c :| c in rest && c.key == k && c.dependsOn == DependencyGraph(rest)[k];
          assert c in cs;
        } else {
          assert last in cs;
        }
      }
    }
  }

  /** After the key check every dependency is a node, and the nodes are the keys. */
  lemma KnownDependencies(cs: seq<Child>)
    requires ChildKeys(cs)
    ensures G.Closed(DependencyGraph(cs)) && forall x :: x in KeySeq(cs) <==> x in DependencyGraph(cs)
  {
    hide DependencyGraph;
    GraphFromChildren(cs);
    forall x ensures x in KeySeq(cs) <==> x in Keys(cs) {
      if x in Keys(cs) {
        var c :| c in cs && c.key == x;
        var i :| 0 <= i < |cs| && cs[i] == c;
        assert KeySeq(cs)[i] == x;
      }
    }
  }

  // ---- order-freedom ----

  /** A child up to the order and repetition of its paths and the order of its dependencies. */
  datatype Form = Form(
    key: JsString,
    title: JsString,
    body: JsString,
    tenant: JsString,
    profile: JsString,
    worktree: JsString,
    ownership: set<JsString>,
    dependsOn: multiset<JsString>)

  function FormOf(c: Child): Form {
    Form(c.key, c.title, c.body, c.tenant, c.profile, c.worktree, set p | p in c.ownership, multiset(c.dependsOn))
  }

  function Forms(cs: seq<Child>): seq<Form> { MapSeq(FormOf, cs) }

  /** The inputs list the same things. */
  ghost predicate SameInput(a: Plan, b: Plan) {
    && a.parentTaskId == b.parentTaskId && a.parentSnapshot == b.parentSnapshot && a.repoCommonDir == b.repoCommonDir
    && (forall r :: r in a.scopeRoots <==> r in b.scopeRoots)
    && multiset(Forms(a.children)) == multiset(Forms(b.children))
    && multiset(a.requiredChildren) == multiset(b.requiredChildren)
  }

  lemma PathsForget(a: seq<JsString>, b: seq<JsString>)
    requires forall x :: x in a <==> x in b
    ensures CanonicalPaths(a).Some? <==> CanonicalPaths(b).Some?
    ensures CanonicalPaths(a).Some? ==> UniqueSorted(CanonicalPaths(a).value) == UniqueSorted(CanonicalPaths(b).value)
  {
    hide CanonicalRelativePath, UniqueSorted;
    if CanonicalPaths(a).Some? {
      var x, y := CanonicalPaths(a).value, CanonicalPaths(b).value;
      forall p ensures p in x <==> p in y {
        if p in x {
          var i :| 0 <= i < |x| && x[i] == p;
          assert a[i] in b;
          var j :| 0 <= j < |b| && b[j] == a[i];
          assert y[j] == p;
        }
        if p in y {
          var i :| 0 <= i < |y| && y[i] == p;
          assert b[i] in a;
          var j :| 0 <= j < |a| && a[j] == b[i];
          assert x[j] == p;
        }
      }
      UniqueSortedForgets(x, y);
    }
  }

  lemma SortForgets(a: seq<JsString>, b: seq<JsString>)
    requires multiset(a) == multiset(b)
    ensures SortBy(a, Identity) == SortBy(b, Identity)
  {
    SortByCanonical(a, b, Identity);
  }

  /** The canonical child is a function of the form. */
  lemma FormDecides(a: Child, b: Child, worktreesRoot: JsString)
    requires FormOf(a) == FormOf(b)
    ensures CanonicalChild(a, worktreesRoot) == CanonicalChild(b, worktreesRoot)
    ensures ChildSchema(a) <==> ChildSchema(b)
  {
    hide CanonicalPaths, UniqueSorted, SortBy, CanonicalWorktree;
    forall p ensures p in a.ownership <==> p in b.ownership {
      assert p in FormOf(a).ownership <==> p in FormOf(b).ownership;
    }
    PathsForget(a.ownership, b.ownership);
    SortForgets(a.dependsOn, b.dependsOn);
    assert a.ownership == [] || a.ownership[0] in b.ownership;
    assert b.ownership == [] || b.ownership[0] in a.ownership;
  }

  lemma ChildrenForget(a: seq<Child>, b: seq<Child>, worktreesRoot: JsString)
    requires multiset(Forms(a)) == multiset(Forms(b))
    ensures CanonicalChildren(a, worktreesRoot).None? <==> CanonicalChildren(b, worktreesRoot).None?
    ensures CanonicalChildren(a, worktreesRoot).Some? ==>
              multiset(CanonicalChildren(a, worktreesRoot).value) == multiset(CanonicalChildren(b, worktreesRoot).value)
  {
    hide FormOf, CanonicalChild;
    forall x, y | x in a && y in b && FormOf(x) == FormOf(y)
      ensures CanonicalChild(x, worktreesRoot) == CanonicalChild(y, worktreesRoot)
    {
      FormDecides(x, y, worktreesRoot);
    }
    MapForgets(a, b, FormOf, c => CanonicalChild(c, worktreesRoot));
    var fa, fb := CanonicalForms(a, worktreesRoot), CanonicalForms(b, worktreesRoot);
    assert None in multiset(fa) <==> None in multiset(fb);
    if CanonicalChildren(a, worktreesRoot).Some? {
      var xs, ys := CanonicalChildren(a, worktreesRoot).value, CanonicalChildren(b, worktreesRoot).value;
      var wrap := (c: Child) => Some(c);
      forall i | 0 <= i < |a| ensures fa[i] == wrap(xs[i]) { assert fa[i] in fa; }
      forall i | 0 <= i < |b| ensures fb[i] == wrap(ys[i]) { assert fb[i] in fb; }
      assert fa == MapSeq(wrap, xs) && fb == MapSeq(wrap, ys);
      MapForgets(xs, ys, wrap, c => c);
      assert MapSeq(c => c, xs) == xs && MapSeq(c => c, ys) == ys;
    }
  }

  lemma SchemaForgets(a: Plan, b: Plan)
    requires SameInput(a, b)
    ensures InputSchema(a) <==> InputSchema(b)
  {
    hide FormOf, InputSchema;
    if InputSchema(a) { SchemaImplied(a, b); }
    if InputSchema(b) { SchemaImplied(b, a); }
  }

  lemma SchemaImplied(a: Plan, b: Plan)
    requires SameInput(a, b) && InputSchema(a)
    ensures InputSchema(b)
  {
    hide FormOf, ChildSchema, TaskId, Sha256;
    SameMembers(Forms(a.children), Forms(b.children));
    assert a.scopeRoots[0] in b.scopeRoots;
    forall c | c in b.children ensures ChildSchema(c) {
      var j :| 0 <= j < |b.children| && b.children[j] == c;
      assert Forms(b.children)[j] in Forms(a.children);
      var i :| 0 <= i < |a.children| && Forms(a.children)[i] == Forms(b.children)[j];
      FormDecides(a.children[i], c, []);
      assert a.children[i] in a.children;
    }
  }

  // ---- the checks see children as a set ----

  lemma SameKeySameChild(cs: seq<Child>, c: Child, d: Child)
    requires |Keys(cs)| == |cs| && c in cs && d in cs && c.key == d.key
    ensures c == d
  {
    KeysInjective(cs);
  }

  lemma {:induction false} KeysInjective(cs: seq<Child>)
    ensures |Keys(cs)| <= |cs|
    ensures |Keys(cs)| == |cs| ==> forall i, j :: 0 <= i < j < |cs| ==> cs[i].key != cs[j].key
    decreases |cs|
  {
    if cs != [] {
      var rest, last := cs[..|cs| - 1], cs[|cs| - 1];
      KeysInjective(rest);
      assert Keys(cs) == Keys(rest) + {last.key};
      if |Keys(cs)| == |cs| {
        assert last.key !in Keys(rest);
        forall i, j | 0 <= i < j < |cs| ensures cs[i].key != cs[j].key {
          assert i < |rest| && rest[i] in rest;
          if j < |rest| { assert rest[j] == cs[j]; }
        }
      }
    } else {
      assert Keys(cs) == {};
    }
  }

  lemma GraphLookup(cs: seq<Child>, c: Child)
    requires |Keys(cs)| == |cs| && c in cs
    ensures c.key in DependencyGraph(cs) && DependencyGraph(cs)[c.key] == c.dependsOn
  {
    hide DependencyGraph;
    GraphFromChildren(cs);
    assert c.key in Keys(cs);
    var d :| d in cs && d.key == c.key && d.dependsOn == DependencyGraph(cs)[c.key];
    SameKeySameChild(cs, c, d);
  }

  lemma GraphForgets(a: seq<Child>, b: seq<Child>)
    requires multiset(a) == multiset(b) && |Keys(a)| == |a|
    ensures DependencyGraph(a) == DependencyGraph(b)
  {
    hide DependencyGraph;
    SameMembers(a, b);
    assert Keys(a) == Keys(b);
    forall k | k in Keys(a) ensures DependencyGraph(a)[k] == DependencyGraph(b)[k] {
      var c :| c in a && c.key == k;
      GraphLookup(a, c);
      GraphLookup(b, c);
    }
  }

  lemma PartitionImplied(scopeRoots: seq<JsString>, x: seq<O.Owner>, y: seq<O.Owner>)
    requires (forall o :: o in x <==> o in y) && O.Checks(scopeRoots, x)
    ensures O.Checks(scopeRoots, y)
  {
    hide IsSameOrDescendant;
    forall root | root in scopeRoots ensures O.CoveringChildren(x, root) == O.CoveringChildren(y, root) {
    }
  }

  lemma ClaimsForget(a: seq<Child>, b: seq<Child>)
    requires forall c :: c in a <==> c in b
    ensures forall o :: o in O.Owners(Claims(a)) <==> o in O.Owners(Claims(b))
  {
    O.OwnersAreClaims(Claims(a));
    O.OwnersAreClaims(Claims(b));
    forall o ensures O.Holds(Claims(a), o) <==> O.Holds(Claims(b), o) {
      HoldsImplied(a, b, o);
      HoldsImplied(b, a, o);
    }
  }

  lemma HoldsImplied(a: seq<Child>, b: seq<Child>, o: O.Owner)
    requires forall c :: c in a <==> c in b
    ensures O.Holds(Claims(a), o) ==> O.Holds(Claims(b), o)
  {
    if O.Holds(Claims(a), o) {
      var q :| q in Claims(a) && q.key == o.childKey && o.path in q.ownership;
      var i :| 0 <= i < |a| && Claims(a)[i] == q;
      assert a[i] in b;
      var j :| 0 <= j < |b| && b[j] == a[i];
      assert Claims(b)[j] == q;
    }
  }

  lemma KeySeqForgets(a: seq<Child>, b: seq<Child>)
    requires multiset(a) == multiset(b)
    ensures multiset(KeySeq(a)) == multiset(KeySeq(b))
  {
    assert MapSeq(c => c, a) == a && MapSeq(c => c, b) == b;
    MapForgets(a, b, c => c, KeyName);
  }

  lemma ChecksForget(scopeRoots: seq<JsString>, a: seq<Child>, b: seq<Child>, required: seq<JsString>, required': seq<JsString>)
    requires multiset(a) == multiset(b) && multiset(required) == multiset(required')
    requires PlanChecks(scopeRoots, a, required)
    ensures PlanChecks(scopeRoots, b, required')
  {
    hide DependencyGraph, SortBy, O.Checks, O.Partition, O.Owners;
    SameMembers(a, b);
    SameMembers(required, required');
    assert Keys(a) == Keys(b) && Worktrees(a) == Worktrees(b);
    GraphForgets(a, b);
    O.ChecksArePartition(scopeRoots, O.Owners(Claims(a)));
    O.ChecksArePartition(scopeRoots, O.Owners(Claims(b)));
    ClaimsForget(a, b);
    PartitionImplied(scopeRoots, O.Owners(Claims(a)), O.Owners(Claims(b)));
    KeySeqForgets(a, b);
    SortForgets(KeySeq(a), KeySeq(b));
    SortForgets(required, required');
    assert (set x | x in required) == (set x | x in required');
  }

  /** The plan is order-free: permuting children, dependencies, required children or scope roots, or permuting
      and repeating owned paths and scope roots, changes neither acceptance nor the plan. */
  lemma PlanIsOrderFree(a: Plan, b: Plan, worktreesRoot: JsString)
    requires SameInput(a, b)
    ensures PlanOf(a, worktreesRoot) == PlanOf(b, worktreesRoot)
  {
    hide InputSchema, CanonicalAbsolutePath, CanonicalPaths, CanonicalChildren, UniqueSorted, PlanChecks, SortBy, FormOf;
    SchemaForgets(a, b);
    PathsForget(a.scopeRoots, b.scopeRoots);
    ChildrenForget(a.children, b.children, worktreesRoot);
    if CanonicalPaths(a.scopeRoots).Some? && CanonicalChildren(a.children, worktreesRoot).Some? {
      var roots := UniqueSorted(CanonicalPaths(a.scopeRoots).value);
      var xs := CanonicalChildren(a.children, worktreesRoot).value;
      var ys := CanonicalChildren(b.children, worktreesRoot).value;
      if PlanChecks(roots, xs, a.requiredChildren) {
        ChecksForget(roots, xs, ys, a.requiredChildren, b.requiredChildren);
        KeysOrder(roots, xs, ys, a.requiredChildren);
        SortForgets(a.requiredChildren, b.requiredChildren);
      }
      if PlanChecks(roots, ys, b.requiredChildren) {
        ChecksForget(roots, ys, xs, b.requiredChildren, a.requiredChildren);
      }
    }
  }

  lemma KeysOrder(roots: seq<JsString>, xs: seq<Child>, ys: seq<Child>, required: seq<JsString>)
    requires multiset(xs) == multiset(ys) && PlanChecks(roots, xs, required)
    ensures SortBy(xs, KeyOf) == SortBy(ys, KeyOf)
  {
    forall c, d | c in xs && d in xs && KeyOf(c) == KeyOf(d) ensures c == d { SameKeySameChild(xs, c, d); }
    SortByCanonical(xs, ys, KeyOf);
  }

  /** What a plan guarantees: the checks hold of the plan itself, not only of the input. */
  lemma AcceptedPlan(input: Plan, worktreesRoot: JsString)
    requires PlanOf(input, worktreesRoot).Some?
    ensures var plan := PlanOf(input, worktreesRoot).value;
            PlanChecks(plan.scopeRoots, plan.children, plan.requiredChildren)
    ensures forall c :: c in PlanOf(input, worktreesRoot).value.children ==> SafeKey(c.key)
    ensures PlanOf(input, worktreesRoot).value.children != []
    ensures PlanOf(input, worktreesRoot).value.parentTaskId == input.parentTaskId
  {
    hide InputSchema, CanonicalAbsolutePath, CanonicalPaths, CanonicalChildren, PlanChecks, SortBy, UniqueSorted;
    var plan := PlanOf(input, worktreesRoot).value;
    var children := CanonicalChildren(input.children, worktreesRoot).value;
    SortBySorts(children, KeyOf);
    SortBySorts(input.requiredChildren, Identity);
    ChecksForget(plan.scopeRoots, children, plan.children, input.requiredChildren, plan.requiredChildren);
    forall c | c in plan.children ensures SafeKey(c.key) { KeysKept(input, worktreesRoot, c); }
    RootsKept(input);
    CoveredNeedsChildren(plan);
  }

  lemma KeysKept(input: Plan, worktreesRoot: JsString, c: Child)
    requires InputSchema(input) && CanonicalChildren(input.children, worktreesRoot).Some?
    requires c in CanonicalChildren(input.children, worktreesRoot).value
    ensures SafeKey(c.key)
  {
    hide CanonicalPaths, SortBy, UniqueSorted, CanonicalWorktree;
    var forms := CanonicalForms(input.children, worktreesRoot);
    var i :| 0 <= i < |forms| && CanonicalChildren(input.children, worktreesRoot).value[i] == c;
    assert forms[i] in forms;
    assert ChildSchema(input.children[i]);
  }

  lemma RootsKept(input: Plan)
    requires InputSchema(input) && CanonicalPaths(input.scopeRoots).Some?
    ensures UniqueSorted(CanonicalPaths(input.scopeRoots).value) != []
  {
    hide UniqueSorted;
    var values := CanonicalPaths(input.scopeRoots).value;
    UniqueSortedMembers(values);
    assert values[0] in values;
  }

  lemma NothingCovered(root: JsString)
    ensures O.CoveringChildren(O.Owners(Claims([])), root) == {}
  {
    assert O.Owners(Claims([])) == [];
  }

  lemma CoveredNeedsChildren(plan: Plan)
    requires plan.scopeRoots != [] && PlanChecks(plan.scopeRoots, plan.children, plan.requiredChildren)
    ensures plan.children != []
  {
    hide O.Owners, O.CoveringChildren, O.Partition, Claims, DependencyGraph, GateNamesAll, ChildKeys;
    var owners := O.Owners(Claims(plan.children));
    O.ChecksArePartition(plan.scopeRoots, owners);
    OneCovers(plan.scopeRoots, owners);
    NothingCovered(plan.scopeRoots[0]);
  }

  lemma OneCovers(scopeRoots: seq<JsString>, owners: seq<O.Owner>)
    requires scopeRoots != [] && O.Checks(scopeRoots, owners)
    ensures O.CoveringChildren(owners, scopeRoots[0]) != {}
  {
    hide O.CoveringChildren;
    assert scopeRoots[0] in scopeRoots;
  }

  // ---- planning a plan ----

  lemma PathsAreFixpoint(values: seq<JsString>)
    requires CanonicalPaths(values).Some?
    ensures var sorted := UniqueSorted(CanonicalPaths(values).value);
            && CanonicalPaths(sorted) == Some(sorted) && UniqueSorted(sorted) == sorted
  {
    hide CanonicalRelativePath, UniqueSorted;
    var paths := CanonicalPaths(values).value;
    var sorted := UniqueSorted(paths);
    UniqueSortedMembers(paths);
    UniqueSortedForgets(sorted, paths);
    forall p | p in sorted ensures CanonicalRelativePath(p) == Some(p) {
      var i :| 0 <= i < |paths| && paths[i] == p;
      assert values[i] in values;
      PathIsFixpoint(values[i]);
    }
    forall i | 0 <= i < |sorted| ensures CanonicalPaths(sorted).value[i] == sorted[i] { assert sorted[i] in sorted; }
    assert CanonicalPaths(sorted).value == sorted;
  }

  lemma PathIsFixpoint(value: JsString)
    requires CanonicalRelativePath(value).Some?
    ensures CanonicalRelativePath(CanonicalRelativePath(value).value) == CanonicalRelativePath(value)
  {
    hide CanonicalRelativePath;
    ResultIsCanonical(value);
    CanonicalIsFixpoint(CanonicalRelativePath(value).value);
  }

  lemma SortIsFixpoint(values: seq<JsString>)
    ensures SortBy(SortBy(values, Identity), Identity) == SortBy(values, Identity)
  {
    SortBySorts(values, Identity);
    SortForgets(SortBy(values, Identity), values);
  }

  lemma ChildIsFixpoint(c: Child, worktreesRoot: JsString)
    requires CanonicalChild(c, worktreesRoot).Some?
    ensures var canonical := CanonicalChild(c, worktreesRoot).value;
            CanonicalChild(canonical, worktreesRoot) == Some(canonical) && (ChildSchema(c) ==> ChildSchema(canonical))
  {
    hide CanonicalPaths, UniqueSorted, SortBy, CanonicalWorktree;
    PathsAreFixpoint(c.ownership);
    SortIsFixpoint(c.dependsOn);
    KeptNotEmpty(c.ownership);
  }

  lemma KeptNotEmpty(values: seq<JsString>)
    requires CanonicalPaths(values).Some?
    ensures values != [] ==> UniqueSorted(CanonicalPaths(values).value) != []
  {
    hide UniqueSorted, CanonicalRelativePath;
    UniqueSortedMembers(CanonicalPaths(values).value);
    if values != [] { assert CanonicalPaths(values).value[0] in CanonicalPaths(values).value; }
  }

  lemma ChildrenAreFixpoint(input: seq<Child>, worktreesRoot: JsString, sorted: seq<Child>)
    requires CanonicalChildren(input, worktreesRoot).Some? && forall c :: c in input ==> ChildSchema(c)
    requires forall c :: c in sorted ==> c in CanonicalChildren(input, worktreesRoot).value
    ensures CanonicalChildren(sorted, worktreesRoot) == Some(sorted) && forall c :: c in sorted ==> ChildSchema(c)
  {
    hide CanonicalChild, ChildSchema;
    var forms := CanonicalForms(input, worktreesRoot);
    forall c | c in sorted ensures CanonicalChild(c, worktreesRoot) == Some(c) && ChildSchema(c) {
      var i :| 0 <= i < |forms| && CanonicalChildren(input, worktreesRoot).value[i] == c;
      assert forms[i] in forms;
      ChildIsFixpoint(input[i], worktreesRoot);
    }
    var again := CanonicalForms(sorted, worktreesRoot);
    forall i | 0 <= i < |sorted| ensures again[i] == Some(sorted[i]) { assert sorted[i] in sorted; }
    assert CanonicalChildren(sorted, worktreesRoot).value == sorted;
  }

  lemma SchemaKept(input: Plan, plan: Plan)
    requires InputSchema(input) && plan.parentTaskId == input.parentTaskId && plan.parentSnapshot == input.parentSnapshot
    requires plan.repoCommonDir == input.repoCommonDir && plan.scopeRoots != [] && forall c :: c in plan.children ==> ChildSchema(c)
    ensures InputSchema(plan) && forall c :: c in input.children ==> ChildSchema(c)
  {
    hide ChildSchema;
  }

  lemma SchemaOfChildren(input: Plan)
    requires InputSchema(input)
    ensures forall c :: c in input.children ==> ChildSchema(c)
  {
  }

  lemma SortedChildrenStay(scopeRoots: seq<JsString>, cs: seq<Child>, required: seq<JsString>)
    requires PlanChecks(scopeRoots, cs, required)
    ensures SortBy(SortBy(cs, KeyOf), KeyOf) == SortBy(cs, KeyOf)
  {
    hide PlanChecks;
    SortBySorts(cs, KeyOf);
    KeysOrder(scopeRoots, cs, SortBy(cs, KeyOf), required);
  }

  /** Planning a plan gives the plan. */
  lemma PlanIsFixpoint(input: Plan, worktreesRoot: JsString)
    requires PlanOf(input, worktreesRoot).Some?
    ensures PlanOf(PlanOf(input, worktreesRoot).value, worktreesRoot) == PlanOf(input, worktreesRoot)
  {
    hide InputSchema, CanonicalAbsolutePath, CanonicalPaths, CanonicalChildren, PlanChecks, SortBy, UniqueSorted, ChildSchema;
    var plan := PlanOf(input, worktreesRoot).value;
    var children := CanonicalChildren(input.children, worktreesRoot).value;
    AcceptedPlan(input, worktreesRoot);
    PathsAreFixpoint(input.scopeRoots);
    RootsKept(input);
    SortBySorts(children, KeyOf);
    SchemaOfChildren(input);
    ChildrenAreFixpoint(input.children, worktreesRoot, plan.children);
    SchemaKept(input, plan);
    SortIsFixpoint(input.requiredChildren);
    SortedChildrenStay(plan.scopeRoots, children, input.requiredChildren);
  }
}
