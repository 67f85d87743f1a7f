/** What applying a plan guarantees: when the first application succeeds, what it builds, and that retries converge. */
module FanoutApplyProofs {
  import opened JsStrings
  import opened Wrappers
  import opened Board
  import opened FanoutApply
  import Body = FanoutParentBody
  import FP = FanoutPlan
  import G = FanoutGraph

  // ---- the plan's graph on the board ----

  /** `after` adds to `before` the edges of `g`, reversed, between the tasks of its nodes. */
  ghost predicate Mirrors(g: G.Graph, m: map<JsString, TaskId>, before: set<Link>, after: set<Link>) {
    && before <= after && OldSteps(m, before, after)
    && (forall a, b :: G.Edge(g, a, b) ==> a in m && b in m && Step(after, m[b], m[a]))
    && (forall k, y :: k in m && Step(after, m[k], y) ==> Depends(g, m, k, y))
  }

  ghost predicate OldSteps(m: map<JsString, TaskId>, before: set<Link>, after: set<Link>) {
    forall x, y :: Step(after, x, y) && x !in m.Values ==> Step(before, x, y) && y !in m.Values
  }

  /** The task `y` belongs to a node that depends on `k`. */
  ghost predicate Depends(g: G.Graph, m: map<JsString, TaskId>, k: JsString, y: TaskId) {
    exists a :: a in m && m[a] == y && G.Edge(g, a, k)
  }

  /** A path from the task of `k` is a walk of the graph backwards, ending in `k`. */
  lemma {:induction false} PathIsWalk(g: G.Graph, m: map<JsString, TaskId>, before: set<Link>, after: set<Link>, k: JsString, p: seq<TaskId>)
    returns (w: seq<JsString>)
    requires Mirrors(g, m, before, after) && Path(after, p) && k in m && p[0] == m[k]
    ensures |w| == |p| && G.Walk(g, w) && w[|w| - 1] == k && w[0] in m && m[w[0]] == p[|p| - 1]
    decreases |p|
  {
    if |p| == 1 {
      w := [k];
    } else {
      var n := |p| - 1;
      forall i | 0 <= i < |p[..n]| - 1 ensures Step(after, p[..n][i], p[..n][i + 1]) { assert Step(after, p[i], p[i + 1]); }
      var w' := PathIsWalk(g, m, before, after, k, p[..n]);
      assert Step(after, p[n - 1], p[n]);
      assert Depends(g, m, w'[0], p[n]);
      var a :| a in m && m[a] == p[n] && G.Edge(g, a, w'[0]);
      w := [a] + w';
      forall i | 0 <= i < |w| - 1 ensures G.Edge(g, w[i], w[i + 1]) {
        if i > 0 { assert G.Edge(g, w'[i - 1], w'[i]); }
      }
    }
  }

  lemma {:induction false} OldPath(m: map<JsString, TaskId>, before: set<Link>, after: set<Link>, p: seq<TaskId>)
    requires OldSteps(m, before, after) && Path(after, p) && p[0] !in m.Values
    ensures Path(before, p) && forall i :: 0 <= i < |p| ==> p[i] !in m.Values
    decreases |p|
  {
    if |p| > 1 {
      assert Step(after, p[0], p[1]);
      forall i | 0 <= i < |p[1..]| - 1 ensures Step(after, p[1..][i], p[1..][i + 1]) { assert Step(after, p[i + 1], p[i + 2]); }
      OldPath(m, before, after, p[1..]);
      forall i | 0 <= i < |p| - 1 ensures Step(before, p[i], p[i + 1]) {
        if i > 0 { assert Step(before, p[1..][i - 1], p[1..][i]); }
      }
      forall i | 0 <= i < |p| ensures p[i] !in m.Values {
        if i > 0 { assert p[1..][i - 1] !in m.Values; }
      }
    }
  }

  lemma CycleFromPath(g: G.Graph, m: map<JsString, TaskId>, before: set<Link>, after: set<Link>, x: TaskId, y: TaskId)
    requires Mirrors(g, m, before, after) && OneToOne(m) && Acyclic(before) && Step(after, x, y) && Reaches(after, y, x)
    ensures G.HasCycle(g)
  {
    var p :| PathFromTo(after, p, y, x);
    if x !in m.Values {
      OldPath(m, before, after, p);
      assert PathFromTo(before, p, y, x);
    } else {
      var k :| k in m && m[k] == x;
      assert Depends(g, m, k, y);
      var a :| a in m && m[a] == y && G.Edge(g, a, k);
      var around := [x] + p;
      forall i | 0 <= i < |around| - 1 ensures Step(after, around[i], around[i + 1]) {
        if i > 0 { assert Step(after, p[i - 1], p[i]); }
      }
      var w := PathIsWalk(g, m, before, after, k, around);
      CloseWalk(g, m, k, w);
    }
  }

  /** A walk that returns to a node with the same task returns to the node. */
  lemma CloseWalk(g: G.Graph, m: map<JsString, TaskId>, k: JsString, w: seq<JsString>)
    requires k in m && |w| >= 2 && G.Walk(g, w) && w[|w| - 1] == k && w[0] in m && m[w[0]] == m[k] && OneToOne(m)
    ensures G.HasCycle(g)
  {
    assert G.CycleIn(g, w);
  }

  ghost predicate OneToOne(m: map<JsString, TaskId>) {
    forall j, k :: j in m && k in m && m[j] == m[k] ==> j == k
  }

  /** A walk of the graph is a path of links backwards. */
  lemma {:induction false} WalkIsPath(g: G.Graph, m: map<JsString, TaskId>, before: set<Link>, after: set<Link>, w: seq<JsString>)
    requires Mirrors(g, m, before, after) && |w| >= 2 && G.Walk(g, w)
    ensures w[0] in m && w[|w| - 1] in m && Reaches(after, m[w[|w| - 1]], m[w[0]])
    decreases |w|
  {
    hide Reaches;
    assert G.Edge(g, w[0], w[1]);
    if |w| == 2 {
      StepReaches(after, m[w[1]], m[w[0]]);
    } else {
      G.WalkSuffix(g, w, 1);
      WalkIsPath(g, m, before, after, w[1..]);
      ReachesStep(after, m[w[|w| - 1]], m[w[1]], m[w[0]]);
    }
  }

  lemma PathFromCycle(g: G.Graph, m: map<JsString, TaskId>, before: set<Link>, after: set<Link>, w: seq<JsString>)
    requires Mirrors(g, m, before, after) && G.CycleIn(g, w)
    ensures !Acyclic(after)
  {
    hide Reaches;
    assert G.Edge(g, w[0], w[1]);
    if |w| == 2 {
      ReachesSelf(after, m[w[0]]);
      assert Step(after, m[w[1]], m[w[0]]);
    } else {
      G.WalkSuffix(g, w, 1);
      WalkIsPath(g, m, before, after, w[1..]);
      assert Step(after, m[w[1]], m[w[0]]) && Reaches(after, m[w[0]], m[w[1]]);
    }
  }

  /** The board with the plan's links is acyclic exactly when the plan is. */
  lemma MirrorAcyclic(g: G.Graph, m: map<JsString, TaskId>, before: set<Link>, after: set<Link>)
    requires Mirrors(g, m, before, after) && Acyclic(before) && OneToOne(m)
    ensures Acyclic(after) <==> !G.HasCycle(g)
  {
    hide Reaches, Mirrors;
    if !Acyclic(after) {
      var x, y :| Step(after, x, y) && Reaches(after, y, x);
      CycleFromPath(g, m, before, after, x, y);
    }
    if G.HasCycle(g) {
      var w :| G.CycleIn(g, w);
      PathFromCycle(g, m, before, after, w);
    }
  }

  // ---- what the first application builds ----

  predicate DistinctKeys(children: seq<FP.Child>) { |FP.Keys(children)| == |children| }

  lemma {:induction false} IdByKeyAt(made: seq<ChildTask>, i: nat)
    requires i < |made| && forall j, k :: 0 <= j < k < |made| ==> made[j].key != made[k].key
    ensures made[i].key in IdByKey(made) && IdByKey(made)[made[i].key] == made[i].taskId
    decreases |made|
  {
    var init := made[..|made| - 1];
    if i < |init| {
      IdByKeyAt(init, i);
      assert init[i] == made[i];
    }
  }

  /** Distinct keys get distinct fresh tasks, and the map holds exactly them. */
  lemma DrawnMap(b: Board, children: seq<FP.Child>, d: Draw)
    requires Fresh(b, d, |children|) && DistinctKeys(children)
    ensures var byKey := IdByKey(ChildTasks(children, d.ids));
            && (forall i :: 0 <= i < |children| ==> children[i].key in byKey && byKey[children[i].key] == d.ids[i])
            && (forall k :: k in byKey ==> InKeys(children, k))
            && OneToOne(byKey) && (forall t :: t in byKey.Values <==> t in d.ids)
  {
    hide IdByKey;
    FP.KeysInjective(children);
    var made := ChildTasks(children, d.ids);
    var byKey := IdByKey(made);
    forall i | 0 <= i < |children| ensures children[i].key in byKey && byKey[children[i].key] == d.ids[i] {
      IdByKeyAt(made, i);
    }
    forall k | k in byKey ensures InKeys(children, k) {
      var c :| c in made && c.key == k;
      var i :| 0 <= i < |made| && made[i] == c;
      assert children[i].key == k;
    }
    forall t ensures t in byKey.Values <==> t in d.ids {
      if t in byKey.Values {
        var k :| k in byKey && byKey[k] == t;
        assert InKeys(children, k);
      }
      if t in d.ids {
        var i :| 0 <= i < |d.ids| && d.ids[i] == t;
        assert byKey[children[i].key] == t;
      }
    }
  }

  predicate InKeys(children: seq<FP.Child>, k: JsString) {
    exists i :: 0 <= i < |children| && children[i].key == k
  }

  /** What creating the children leaves. */
  predicate TaskFacts(b: Board, children: seq<FP.Child>, d: Draw, n: nat, after: Board)
    requires n <= |d.ids| && n <= |children|
  {
    && (forall t :: t in b.tasks ==> t in after.tasks && after.tasks[t] == b.tasks[t])
    && (forall i :: 0 <= i < n ==> d.ids[i] in after.tasks && after.tasks[d.ids[i]] == NewTask(children[i], d.now))
  }

  predicate BindingFacts(before: map<(TaskId, OrchestratorId), Role>, o: OrchestratorId, ids: seq<TaskId>,
                         bindings: map<(TaskId, OrchestratorId), Role>)
  {
    && (forall k :: k in before ==> k in bindings && bindings[k] == before[k])
    && (forall t :: t in ids ==> (t, o) in bindings && bindings[(t, o)] == Primary)
    && (forall k :: k in bindings && k !in before ==> k.1 == o && k.0 in ids)
  }

  lemma BindingNext(before: map<(TaskId, OrchestratorId), Role>, o: OrchestratorId, ids: seq<TaskId>, t: TaskId,
                    bindings: map<(TaskId, OrchestratorId), Role>)
    requires BindingFacts(before, o, ids, bindings) && (t, o) !in before
    ensures BindingFacts(before, o, ids + [t], bindings[(t, o) := Primary])
  {
  }

  function NewSubtasks(parent: TaskId, ids: seq<TaskId>): set<Link> { set t | t in ids :: Link(parent, t, Subtask) }

  lemma {:induction false} CreatedTasks(b: Board, call: Call, d: Draw, n: nat)
    requires n <= |d.ids| == |call.plan.children| && Fresh(b, d, |d.ids|)
    ensures TaskFacts(b, call.plan.children, d, n, Created(b, call, d, n))
  {
    hide NewTask;
    if n > 0 { CreatedTasks(b, call, d, n - 1); }
  }

  lemma {:induction false} CreatedLinks(b: Board, call: Call, d: Draw, n: nat)
    requires n <= |d.ids| == |call.plan.children|
    ensures Created(b, call, d, n).links == b.links + NewSubtasks(call.plan.parentTaskId, d.ids[..n])
  {
    if n > 0 {
      CreatedLinks(b, call, d, n - 1);
      assert d.ids[..n] == d.ids[..n - 1] + [d.ids[n - 1]];
    }
  }

  lemma {:induction false} CreatedBindings(b: Board, call: Call, d: Draw, n: nat)
    requires ValidBoard(b) && n <= |d.ids| == |call.plan.children| && Fresh(b, d, |d.ids|)
    ensures BindingFacts(b.bindings, call.orchestratorId, d.ids[..n], Created(b, call, d, n).bindings)
  {
    hide BindingFacts, NewTask;
    if n == 0 {
      NoBindings(b.bindings, call.orchestratorId);
    } else {
      CreatedBindings(b, call, d, n - 1);
      FreshUntouched(b, d, |d.ids|, d.ids[n - 1]);
      assert d.ids[..n] == d.ids[..n - 1] + [d.ids[n - 1]];
      BindingNext(b.bindings, call.orchestratorId, d.ids[..n - 1], d.ids[n - 1], Created(b, call, d, n - 1).bindings);
    }
  }

  lemma NoBindings(bindings: map<(TaskId, OrchestratorId), Role>, o: OrchestratorId)
    ensures BindingFacts(bindings, o, [], bindings)
  {
  }

  lemma {:induction false} LinksExpected(children: seq<FP.Child>, byKey: map<JsString, TaskId>)
    requires KnownDependencies(children, byKey)
    ensures LinkSet(AllDependencyLinks(children, byKey)) == ExpectedDependencies(children, byKey)
    decreases |children|
  {
    if children != [] {
      var init, last := children[..|children| - 1], children[|children| - 1];
      assert children == init + [last];
      LinksExpected(init, byKey);
      var links := DependencyLinks(last, byKey);
      forall d | d in last.dependsOn ensures Link(byKey[d], byKey[last.key], DependsOn) in links {
        var i :| 0 <= i < |last.dependsOn| && last.dependsOn[i] == d;
        assert links[i] == Link(byKey[d], byKey[last.key], DependsOn);
      }
      assert LinkSet(links) == ExpectedDependencies([last], byKey);
      assert ExpectedDependencies(children, byKey) == ExpectedDependencies(init, byKey) + ExpectedDependencies([last], byKey);
      assert LinkSet(AllDependencyLinks(children, byKey)) == LinkSet(AllDependencyLinks(init, byKey)) + LinkSet(links);
    }
  }

  // ---- when the first application succeeds ----

  /** A call that gets through every fence to the first application, on a board the store can hold. */
  ghost predicate FirstCall(h: Externals, b: Board, call: Call, d: Draw) {
    && ValidBoard(b) && Acyclic(b.links) && Fresh(b, d, |call.plan.children|)
    && ApprovalFence(h, call) && OrchestratorFence(b, call) && FindAuthority(b, call.plan.parentTaskId).Absent?
    && ParentSnapshot(h, b, call.plan) && SubtasksOf(b.links, call.plan.parentTaskId) == {}
  }

  function NewIds(call: Call, d: Draw): map<JsString, TaskId>
    requires |d.ids| == |call.plan.children|
  {
    IdByKey(ChildTasks(call.plan.children, d.ids))
  }

  function FinalLinks(b: Board, call: Call, d: Draw): set<Link>
    requires |d.ids| == |call.plan.children| && KnownDependencies(call.plan.children, NewIds(call, d))
  {
    b.links + NewSubtasks(call.plan.parentTaskId, d.ids) + ExpectedDependencies(call.plan.children, NewIds(call, d))
  }

  lemma KnownMeans(b: Board, call: Call, d: Draw)
    requires Fresh(b, d, |call.plan.children|) && DistinctKeys(call.plan.children)
    ensures KnownDependencies(call.plan.children, NewIds(call, d)) <==> KnownNames(call.plan.children)
  {
    hide IdByKey, ChildTasks;
    DrawnMap(b, call.plan.children, d);
    var m := NewIds(call, d);
    forall k ensures k in m <==> k in FP.Keys(call.plan.children) {
      if k in FP.Keys(call.plan.children) {
        var c :| c in call.plan.children && c.key == k;
        var i :| 0 <= i < |call.plan.children| && call.plan.children[i] == c;
        assert call.plan.children[i].key in m;
      }
      if k in m {
        var i :| 0 <= i < |call.plan.children| && call.plan.children[i].key == k;
        assert call.plan.children[i] in call.plan.children;
      }
    }
    assert forall c :: c in call.plan.children ==> c.key in FP.Keys(call.plan.children);
  }

  predicate KnownNames(children: seq<FP.Child>) {
    forall c, d :: c in children && d in c.dependsOn ==> d in FP.Keys(children)
  }

  lemma EdgeHasLink(b: Board, call: Call, d: Draw, x: JsString, y: JsString)
    requires Fresh(b, d, |call.plan.children|) && DistinctKeys(call.plan.children)
    requires KnownDependencies(call.plan.children, NewIds(call, d)) && G.Edge(FP.DependencyGraph(call.plan.children), x, y)
    ensures var m := NewIds(call, d); x in m && y in m && Step(FinalLinks(b, call, d), m[y], m[x])
  {
    hide IdByKey, ChildTasks, FP.DependencyGraph;
    var children, m := call.plan.children, NewIds(call, d);
    FP.GraphFromChildren(children);
    var c :| c in children && c.key == x && c.dependsOn == FP.DependencyGraph(children)[x];
    assert Link(m[y], m[x], DependsOn) in ExpectedDependencies(children, m);
  }

  lemma LinkHasEdge(b: Board, call: Call, d: Draw, k: JsString, y: TaskId)
    requires ValidBoard(b) && Fresh(b, d, |call.plan.children|) && DistinctKeys(call.plan.children)
    requires KnownDependencies(call.plan.children, NewIds(call, d))
    requires k in NewIds(call, d) && Step(FinalLinks(b, call, d), NewIds(call, d)[k], y)
    ensures Depends(FP.DependencyGraph(call.plan.children), NewIds(call, d), k, y)
  {
    hide IdByKey, ChildTasks, FP.DependencyGraph;
    var children, m := call.plan.children, NewIds(call, d);
    DrawnMap(b, children, d);
    assert m[k] in m.Values && m[k] in d.ids;
    assert m[k] !in b.tasks;
    assert Link(m[k], y, DependsOn) !in b.links;
    var c, e :| c in children && e in c.dependsOn && m[e] == m[k] && m[c.key] == y;
    FP.GraphLookup(children, c);
    assert G.Edge(FP.DependencyGraph(children), c.key, k);
  }

  lemma OldStepsStay(b: Board, call: Call, d: Draw)
    requires ValidBoard(b) && Fresh(b, d, |call.plan.children|) && DistinctKeys(call.plan.children)
    requires KnownDependencies(call.plan.children, NewIds(call, d))
    ensures OldSteps(NewIds(call, d), b.links, FinalLinks(b, call, d))
  {
    hide IdByKey, ChildTasks;
    var m := NewIds(call, d);
    DrawnMap(b, call.plan.children, d);
    forall x, y | Step(FinalLinks(b, call, d), x, y) && x !in m.Values ensures Step(b.links, x, y) && y !in m.Values {
      assert Link(x, y, DependsOn) !in ExpectedDependencies(call.plan.children, m);
      assert y in b.tasks;
    }
  }

  lemma MirrorsPlan(b: Board, call: Call, d: Draw)
    requires ValidBoard(b) && Fresh(b, d, |call.plan.children|) && DistinctKeys(call.plan.children)
    requires KnownDependencies(call.plan.children, NewIds(call, d))
    ensures Mirrors(FP.DependencyGraph(call.plan.children), NewIds(call, d), b.links, FinalLinks(b, call, d))
  {
    hide NewIds, FP.DependencyGraph, G.Edge, Step, OldSteps, Depends, ValidBoard, DistinctKeys, KnownDependencies;
    OldStepsStay(b, call, d);
    forall x, y | G.Edge(FP.DependencyGraph(call.plan.children), x, y)
      ensures var m := NewIds(call, d); x in m && y in m && Step(FinalLinks(b, call, d), m[y], m[x])
    {
      EdgeHasLink(b, call, d, x, y);
    }
    forall k, y | k in NewIds(call, d) && Step(FinalLinks(b, call, d), NewIds(call, d)[k], y)
      ensures Depends(FP.DependencyGraph(call.plan.children), NewIds(call, d), k, y)
    {
      LinkHasEdge(b, call, d, k, y);
    }
  }

  lemma SubtasksAcyclic(links: set<Link>, parent: TaskId, ids: seq<TaskId>)
    requires Acyclic(links)
    ensures Acyclic(links + NewSubtasks(parent, ids))
  {
    SameStepsAcyclic(links, links + NewSubtasks(parent, ids));
  }

  /** With distinct keys the first application succeeds exactly when the store allows every body, every dependency is a
      child and no dependencies form a cycle; it then adds the plan's graph to the board's links and keeps them acyclic. */
  lemma FirstApplicationExact(h: Externals, b: Board, call: Call, d: Draw)
    requires FirstCall(h, b, call, d) && DistinctKeys(call.plan.children)
    ensures ApplyTo(h, b, call, d).result.Some?
            <==> BodiesAllowed(h, call.plan.children) && KnownNames(call.plan.children)
                 && !G.HasCycle(FP.DependencyGraph(call.plan.children))
    ensures ApplyTo(h, b, call, d).result.Some? ==>
              && KnownDependencies(call.plan.children, NewIds(call, d))
              && ApplyTo(h, b, call, d).board.links == FinalLinks(b, call, d) && Acyclic(FinalLinks(b, call, d))
  {
    hide Acyclic, LinkAll, Created, ParentSnapshot, ApprovalFence, OrchestratorFence, FP.DependencyGraph, KnownDependencies, KnownNames,
      BodiesAllowed;
    var children, m := call.plan.children, NewIds(call, d);
    KnownMeans(b, call, d);
    RowsDefined(b, call, d);
    if KnownDependencies(children, m) {
      var created := Created(b, call, d, |d.ids|);
      CreatedLinks(b, call, d, |d.ids|);
      assert d.ids[..|d.ids|] == d.ids;
      SubtasksAcyclic(b.links, call.plan.parentTaskId, d.ids);
      LinkAllExact(created.links, AllDependencyLinks(children, m));
      LinksExpected(children, m);
      MirrorsPlan(b, call, d);
      DrawnMap(b, children, d);
      MirrorAcyclic(FP.DependencyGraph(children), m, b.links, FinalLinks(b, call, d));
    }
  }

  /** A plan made by createFanoutPlan is applied, once it gets through the fences, exactly when the store allows every
      body: nothing else can refuse it. */
  lemma PlannedIsApplied(h: Externals, b: Board, call: Call, d: Draw, input: FP.Plan, worktreesRoot: JsString)
    requires FP.PlanOf(input, worktreesRoot) == Some(call.plan) && FirstCall(h, b, call, d)
    ensures ApplyTo(h, b, call, d).result.Some? <==> BodiesAllowed(h, call.plan.children)
  {
    hide FirstCall, ApplyTo, FP.DependencyGraph, FP.PlanOf, BodiesAllowed;
    FP.AcceptedPlan(input, worktreesRoot);
    FirstApplicationExact(h, b, call, d);
  }

  // ---- the retry finds what the first application built ----

  predicate RetryableKeys(children: seq<FP.Child>) {
    children != [] && DistinctKeys(children) && forall c :: c in children ==> c.key != []
  }

  lemma {:induction false} EventsOfAppend(events: seq<AuthorityEvent>, e: AuthorityEvent, t: TaskId)
    ensures EventsOf(events + [e], t) == EventsOf(events, t) + (if e.taskId == t then [e] else [])
  {
    assert (events + [e])[..|events|] == events;
  }

  lemma MarkerNamesChildren(b: Board, call: Call, d: Draw)
    requires Fresh(b, d, |call.plan.children|) && DistinctKeys(call.plan.children)
    requires forall c :: c in call.plan.children ==> c.key in NewIds(call, d)
    ensures NewMarker(call, NewIds(call, d)).children == ChildTasks(call.plan.children, d.ids)
  {
    hide IdByKey;
    DrawnMap(b, call.plan.children, d);
    var x, y := NewMarker(call, NewIds(call, d)).children, ChildTasks(call.plan.children, d.ids);
    forall i | 0 <= i < |y| ensures x[i] == y[i] { assert call.plan.children[i].key in NewIds(call, d); }
  }

  lemma {:induction false} DistinctIds(ids: seq<TaskId>)
    requires forall i, j :: 0 <= i < j < |ids| ==> ids[i] != ids[j]
    ensures |set t | t in ids| == |ids|
    decreases |ids|
  {
    if ids != [] {
      var init, last := ids[..|ids| - 1], ids[|ids| - 1];
      DistinctIds(init);
      assert ids == init + [last];
      assert (set t | t in ids) == (set t | t in init) + {last};
    }
  }

  lemma DrawnSets(children: seq<FP.Child>, ids: seq<TaskId>)
    requires |ids| == |children|
    ensures KeysOf(ChildTasks(children, ids)) == FP.Keys(children)
    ensures IdsOf(ChildTasks(children, ids)) == set t | t in ids
  {
    var made := ChildTasks(children, ids);
    forall k ensures k in KeysOf(made) <==> k in FP.Keys(children) {
      if k in FP.Keys(children) {
        var c :| c in children && c.key == k;
        var i :| 0 <= i < |children| && children[i] == c;
        assert made[i] in made;
      }
    }
    forall t ensures t in IdsOf(made) <==> t in ids {
      if t in ids {
        var i :| 0 <= i < |ids| && ids[i] == t;
        assert made[i] in made;
      }
    }
  }

  lemma AppliedMarker(h: Externals, b: Board, call: Call, d: Draw)
    requires FirstCall(h, b, call, d) && ApplyTo(h, b, call, d).result.Some?
    ensures (forall c :: c in call.plan.children ==> c.key in NewIds(call, d))
         && EventsOf(ApplyTo(h, b, call, d).board.events, call.plan.parentTaskId)
            == [AuthorityEvent(call.plan.parentTaskId, Some(NewMarker(call, NewIds(call, d))))]
  {
    hide LinkAll, ParentSnapshot, ApprovalFence, OrchestratorFence, KnownDependencies, IdByKey, NewMarker;
    RowsDefined(b, call, d);
    CreatedHolds(b, call, d, |d.ids|);
    EventsOfAppend(b.events, AuthorityEvent(call.plan.parentTaskId, Some(NewMarker(call, NewIds(call, d)))), call.plan.parentTaskId);
  }

  /** The event the first application leaves can be read back exactly when the plan has children and their
      keys are distinct and not empty. */
  lemma AuthorityReadable(h: Externals, b: Board, call: Call, d: Draw)
    requires FirstCall(h, b, call, d) && ApplyTo(h, b, call, d).result.Some?
    ensures FindAuthority(ApplyTo(h, b, call, d).board, call.plan.parentTaskId)
            == if RetryableKeys(call.plan.children)
               then Marked(Marker(call.plan.parentTaskId, call.planHash, call.orchestratorId, call.sessionId, call.generation,
                                  ChildTasks(call.plan.children, d.ids)))
               else Refused
  {
    hide ApplyTo, ParentSnapshot, IdByKey;
    AppliedMarker(h, b, call, d);
    var children := call.plan.children;
    var m := NewMarker(call, NewIds(call, d));
    MarkerKeys(call, NewIds(call, d));
    if DistinctKeys(children) {
      MarkerNamesChildren(b, call, d);
      DrawnSets(children, d.ids);
      DistinctIds(d.ids);
      MarkerValues(b, call, d);
    }
  }

  lemma MarkerKeys(call: Call, byKey: map<JsString, TaskId>)
    requires forall c :: c in call.plan.children ==> c.key in byKey
    ensures var m := NewMarker(call, byKey);
            && |m.children| == |call.plan.children| && KeysOf(m.children) == FP.Keys(call.plan.children)
            && ((forall c :: c in m.children ==> c.key != []) <==> forall c :: c in call.plan.children ==> c.key != [])
  {
    var m := NewMarker(call, byKey);
    var children := call.plan.children;
    forall k ensures k in KeysOf(m.children) <==> k in FP.Keys(children) {
      if k in FP.Keys(children) {
        var c :| c in children && c.key == k;
        var i :| 0 <= i < |children| && children[i] == c;
        assert m.children[i] in m.children;
      }
    }
    forall c | c in children ensures exists x :: x in m.children && x.key == c.key {
      var i :| 0 <= i < |children| && children[i] == c;
      assert m.children[i] in m.children;
    }
  }

  lemma MarkerValues(b: Board, call: Call, d: Draw)
    requires ValidBoard(b) && Fresh(b, d, |call.plan.children|)
    ensures forall c :: c in ChildTasks(call.plan.children, d.ids) ==> c.taskId != []
  {
  }

  // ---- what was built passes the retry's checks ----

  lemma FreshUntouched(b: Board, d: Draw, n: nat, t: TaskId)
    requires ValidBoard(b) && Fresh(b, d, n) && t in d.ids
    ensures t !in b.tasks && forall l :: l in b.links ==> l.parentId != t && l.childId != t
    ensures forall k :: k in b.bindings ==> k.0 != t
  {
  }

  lemma ExpectedInside(children: seq<FP.Child>, byKey: map<JsString, TaskId>)
    requires KnownDependencies(children, byKey)
    ensures forall l :: l in ExpectedDependencies(children, byKey) ==>
              l.linkType.DependsOn? && l.parentId in byKey.Values && l.childId in byKey.Values
  {
  }

  lemma BuiltParents(b: Board, call: Call, d: Draw, t: TaskId)
    requires ValidBoard(b) && Fresh(b, d, |call.plan.children|) && t in d.ids
    requires KnownDependencies(call.plan.children, NewIds(call, d))
    ensures ParentsOf(FinalLinks(b, call, d), t) == {call.plan.parentTaskId}
  {
    hide IdByKey, ChildTasks;
    FreshUntouched(b, d, |d.ids|, t);
    ExpectedInside(call.plan.children, NewIds(call, d));
    assert Link(call.plan.parentTaskId, t, Subtask) in FinalLinks(b, call, d);
  }

  lemma BuiltSubtasks(b: Board, call: Call, d: Draw)
    requires ValidBoard(b) && Fresh(b, d, |call.plan.children|) && SubtasksOf(b.links, call.plan.parentTaskId) == {}
    requires KnownDependencies(call.plan.children, NewIds(call, d))
    ensures SubtasksOf(FinalLinks(b, call, d), call.plan.parentTaskId) == set t | t in d.ids
  {
    hide IdByKey, ChildTasks;
    var parent, after := call.plan.parentTaskId, FinalLinks(b, call, d);
    ExpectedInside(call.plan.children, NewIds(call, d));
    forall t ensures t in SubtasksOf(after, parent) <==> t in d.ids {
      if t in d.ids { assert Link(parent, t, Subtask) in after; }
      if t in SubtasksOf(after, parent) {
        assert Link(parent, t, Subtask) in after;
        assert Link(parent, t, Subtask) in b.links ==> t in SubtasksOf(b.links, parent);
      }
    }
  }

  lemma BuiltDependencies(b: Board, call: Call, d: Draw, some: set<TaskId>)
    requires ValidBoard(b) && Fresh(b, d, |call.plan.children|) && forall t :: t in some ==> t in d.ids
    requires KnownDependencies(call.plan.children, NewIds(call, d))
    ensures DependenciesAt(FinalLinks(b, call, d), some)
         == DependenciesAt(ExpectedDependencies(call.plan.children, NewIds(call, d)), some)
  {
    hide IdByKey, ChildTasks, ExpectedDependencies;
    forall t | t in some ensures forall l :: l in b.links ==> l.parentId != t && l.childId != t {
      FreshUntouched(b, d, |d.ids|, t);
    }
  }

  lemma BuiltOwners(b: Board, call: Call, d: Draw, t: TaskId)
    requires ValidBoard(b) && Fresh(b, d, |call.plan.children|) && t in d.ids
    ensures PrimaryOwners(Created(b, call, d, |d.ids|), t) <= {call.orchestratorId}
  {
    FreshUntouched(b, d, |d.ids|, t);
    CreatedBindings(b, call, d, |d.ids|);
    assert d.ids[..|d.ids|] == d.ids;
  }

  lemma BuiltChild(b: Board, call: Call, d: Draw, after: Board, i: nat)
    requires ValidBoard(b) && Fresh(b, d, |call.plan.children|) && i < |call.plan.children| && DistinctKeys(call.plan.children)
    requires KnownDependencies(call.plan.children, NewIds(call, d))
    requires after.tasks == Created(b, call, d, |d.ids|).tasks && after.links == FinalLinks(b, call, d)
    requires after.bindings == Created(b, call, d, |d.ids|).bindings
    ensures ChildMatches(after, call, (set t | t in d.ids), call.plan.children[i], d.ids[i])
  {
    hide Created, IdByKey, ChildTasks, FinalLinks, KnownDependencies, DistinctKeys;
    var t := d.ids[i];
    CreatedTasks(b, call, d, |d.ids|);
    BuiltParents(b, call, d, t);
    BuiltOwners(b, call, d, t);
    BuiltDependencies(b, call, d, {t});
    ExpectedInside(call.plan.children, NewIds(call, d));
    DrawnMap(b, call.plan.children, d);
    assert after.tasks[t] == NewTask(call.plan.children[i], d.now);
    TodoAllowed();
  }

  lemma TodoAllowed()
    ensures TODO in MATERIALIZED
  {
  }

  lemma BuiltNames(b: Board, call: Call, d: Draw)
    requires Fresh(b, d, |call.plan.children|) && DistinctKeys(call.plan.children)
    ensures NamesChildren(call.plan, NewIds(call, d))
    ensures ChildIds(call.plan.children, NewIds(call, d)) == set t | t in d.ids
  {
    var children, m := call.plan.children, NewIds(call, d);
    NewIdsAt(b, call, d);
    NewIdsNamed(call, d);
    IdsOfKeys(children, m, d.ids);
  }

  lemma NewIdsNamed(call: Call, d: Draw)
    requires |d.ids| == |call.plan.children| && DistinctKeys(call.plan.children)
    ensures |NewIds(call, d)| == |call.plan.children|
    ensures forall c :: c in call.plan.children ==> c.key in NewIds(call, d)
  {
    hide IdByKey, ChildTasks;
    DrawnSets(call.plan.children, d.ids);
    assert |NewIds(call, d)| == |NewIds(call, d).Keys|;
    forall c | c in call.plan.children ensures c.key in NewIds(call, d) { assert c.key in FP.Keys(call.plan.children); }
  }

  lemma IdsOfKeys(children: seq<FP.Child>, m: map<JsString, TaskId>, ids: seq<TaskId>)
    requires |ids| == |children| && forall c :: c in children ==> c.key in m
    requires forall i :: 0 <= i < |ids| ==> children[i].key in m && m[children[i].key] == ids[i]
    ensures ChildIds(children, m) == set t | t in ids
  {
    forall t | t in ids ensures t in ChildIds(children, m) {
      var i :| 0 <= i < |ids| && ids[i] == t;
      assert children[i] in children;
    }
  }

  lemma BuiltBoard(h: Externals, b: Board, call: Call, d: Draw)
    requires FirstCall(h, b, call, d) && DistinctKeys(call.plan.children) && ApplyTo(h, b, call, d).result.Some?
    ensures KnownDependencies(call.plan.children, NewIds(call, d))
    ensures var after := ApplyTo(h, b, call, d).board;
            && after.tasks == Created(b, call, d, |d.ids|).tasks && after.bindings == Created(b, call, d, |d.ids|).bindings
            && after.links == FinalLinks(b, call, d)
  {
    hide ParentSnapshot, ApprovalFence, OrchestratorFence, IdByKey, LinkAll, DistinctKeys, ChildTasks, FinalLinks, KnownDependencies, Created;
    FirstApplicationExact(h, b, call, d);
    RowsDefined(b, call, d);
  }

  lemma BuiltChildren(b: Board, call: Call, d: Draw, after: Board)
    requires ValidBoard(b) && Fresh(b, d, |call.plan.children|) && DistinctKeys(call.plan.children)
    requires KnownDependencies(call.plan.children, NewIds(call, d))
    requires after.tasks == Created(b, call, d, |d.ids|).tasks && after.links == FinalLinks(b, call, d)
    requires after.bindings == Created(b, call, d, |d.ids|).bindings
    ensures forall c :: c in call.plan.children ==>
              c.key in NewIds(call, d) && ChildMatches(after, call, (set t | t in d.ids), c, NewIds(call, d)[c.key])
  {
    hide ChildMatches, Created, FinalLinks, NewIds, KnownDependencies, DistinctKeys, ValidBoard;
    NewIdsAt(b, call, d);
    var children := call.plan.children;
    forall c | c in children
      ensures c.key in NewIds(call, d) && ChildMatches(after, call, (set t | t in d.ids), c, NewIds(call, d)[c.key])
    {
      var i :| 0 <= i < |children| && children[i] == c;
      BuiltChild(b, call, d, after, i);
    }
  }

  lemma NewIdsAt(b: Board, call: Call, d: Draw)
    requires Fresh(b, d, |call.plan.children|) && DistinctKeys(call.plan.children)
    ensures forall i :: 0 <= i < |d.ids| ==>
              call.plan.children[i].key in NewIds(call, d) && NewIds(call, d)[call.plan.children[i].key] == d.ids[i]
    ensures forall t :: t in NewIds(call, d).Values <==> t in d.ids
  {
    DrawnMap(b, call.plan.children, d);
  }

  /** Everything the retry checks holds of the board the first application leaves. */
  lemma BuiltIsMaterialized(h: Externals, b: Board, call: Call, d: Draw, m: Marker)
    requires FirstCall(h, b, call, d) && DistinctKeys(call.plan.children) && ApplyTo(h, b, call, d).result.Some?
    requires SameAuthority(call, m) && m.children == ChildTasks(call.plan.children, d.ids)
    ensures Materialized(ApplyTo(h, b, call, d).board, call, m)
  {
    hide ApplyTo, ChildMatches, ParentSnapshot, ApprovalFence, OrchestratorFence, IdByKey, DistinctKeys, ChildTasks, FinalLinks,
      KnownDependencies, SameAuthority, NamesChildren, SubtasksOf, DependenciesAt, ExpectedDependencies, ValidBoard, Created;
    var after, children, byKey := ApplyTo(h, b, call, d).board, call.plan.children, NewIds(call, d);
    var ids := set t | t in d.ids;
    BuiltBoard(h, b, call, d);
    DrawnSets(children, d.ids);
    BuiltNames(b, call, d);
    BuiltSubtasks(b, call, d);
    BuiltDependencies(b, call, d, ids);
    NewIdsAt(b, call, d);
    AllInside(children, byKey, ids);
    BuiltChildren(b, call, d, after);
    assert IdByKey(m.children) == byKey;
  }

  lemma AllInside(children: seq<FP.Child>, byKey: map<JsString, TaskId>, ids: set<TaskId>)
    requires KnownDependencies(children, byKey) && forall t :: t in byKey.Values ==> t in ids
    ensures DependenciesAt(ExpectedDependencies(children, byKey), ids) == ExpectedDependencies(children, byKey)
  {
    ExpectedInside(children, byKey);
  }

  // ---- retries converge ----

  /** Between two calls the children keep their specification, links and owner; their progress, the parent's text,
      sessions, comments and everything else may change. */
  ghost predicate Undisturbed(b: Board, b': Board, parent: TaskId, ids: set<TaskId>, o: OrchestratorId) {
    && EventsOf(b'.events, parent) == EventsOf(b.events, parent)
    && (forall t :: t in ids ==> SameSpec(b, b', t))
    && (forall l :: Concerns(l, parent, ids) ==> (l in b'.links <==> l in b.links))
    && (forall t :: t in ids ==> PrimaryOwners(b', t) <= PrimaryOwners(b, t) + {o})
  }

  predicate SameSpec(b: Board, b': Board, t: TaskId) {
    t in b.tasks ==>
      t in b'.tasks && b'.tasks[t].status in MATERIALIZED
      && b'.tasks[t] == b.tasks[t].(status := b'.tasks[t].status, updatedAt := b'.tasks[t].updatedAt)
  }

  predicate Concerns(l: Link, parent: TaskId, ids: set<TaskId>) {
    l.parentId in ids || l.childId in ids || (l.linkType.Subtask? && l.parentId == parent)
  }

  predicate SameApplication(a: Call, b: Call) {
    a.plan == b.plan && a.planHash == b.planHash && a.orchestratorId == b.orchestratorId
  }

  lemma ChildPersists(b: Board, b': Board, call: Call, call': Call, ids: set<TaskId>, c: FP.Child, t: TaskId)
    requires Undisturbed(b, b', call.plan.parentTaskId, ids, call.orchestratorId) && SameApplication(call, call')
    requires t in ids && ChildMatches(b, call, ids, c, t)
    ensures ChildMatches(b', call', ids, c, t)
  {
    assert SameSpec(b, b', t);
    forall p ensures p in ParentsOf(b'.links, t) <==> p in ParentsOf(b.links, t) {
      assert Concerns(Link(p, t, Subtask), call.plan.parentTaskId, ids);
      assert p in ParentsOf(b.links, t) <==> Link(p, t, Subtask) in b.links;
      assert p in ParentsOf(b'.links, t) <==> Link(p, t, Subtask) in b'.links;
    }
    forall l | l in DependenciesAt(b'.links, {t}) ensures l in DependenciesAt(b.links, {t}) {
      assert Concerns(l, call.plan.parentTaskId, ids);
    }
  }

  lemma LinksPersist(b: Board, b': Board, parent: TaskId, ids: set<TaskId>, some: set<TaskId>, o: OrchestratorId)
    requires Undisturbed(b, b', parent, ids, o) && some <= ids
    ensures SubtasksOf(b'.links, parent) == SubtasksOf(b.links, parent)
    ensures DependenciesAt(b'.links, some) == DependenciesAt(b.links, some)
  {
    forall t ensures t in SubtasksOf(b'.links, parent) <==> t in SubtasksOf(b.links, parent) {
      assert Concerns(Link(parent, t, Subtask), parent, ids);
      assert t in SubtasksOf(b.links, parent) <==> Link(parent, t, Subtask) in b.links;
      assert t in SubtasksOf(b'.links, parent) <==> Link(parent, t, Subtask) in b'.links;
    }
    forall l ensures l in DependenciesAt(b'.links, some) <==> l in DependenciesAt(b.links, some) {
      assert l.parentId in some || l.childId in some ==> Concerns(l, parent, ids);
    }
  }

  lemma MaterializedPersists(b: Board, b': Board, call: Call, call': Call, m: Marker)
    requires Undisturbed(b, b', call.plan.parentTaskId, IdsOf(m.children), call.orchestratorId) && SameApplication(call, call')
    requires Materialized(b, call, m)
    ensures Materialized(b', call', m)
  {
    hide ChildMatches, Undisturbed, IdByKey, SubtasksOf, DependenciesAt, KnownDependencies, ExpectedDependencies, IdsOf;
    var ids, byKey := IdsOf(m.children), IdByKey(m.children);
    IdsAreDrawn(m.children);
    LinksPersist(b, b', call.plan.parentTaskId, ids, ChildIds(call.plan.children, byKey), call.orchestratorId);
    forall c | c in call.plan.children ensures ChildMatches(b', call', ids, c, byKey[c.key]) {
      ChildPersists(b, b', call, call', ids, c, byKey[c.key]);
    }
  }

  lemma {:induction false} ReboundMeans(b: Board, call: Call, byKey: map<JsString, TaskId>, n: nat)
    requires n <= |call.plan.children| && NamesChildren(call.plan, byKey)
    ensures var after, o := Rebound(b, call, byKey, n), call.orchestratorId;
            && after == b.(bindings := after.bindings)
            && (forall k :: k in b.bindings ==> k in after.bindings)
            && (forall k :: k in after.bindings ==>
                  (k in b.bindings && after.bindings[k] == b.bindings[k])
                  || (k.1 == o && k.0 in ChildIds(call.plan.children, byKey) && after.bindings[k] == Primary))
            && (forall i :: 0 <= i < n ==> IsPrimary(after, byKey[call.plan.children[i].key], o))
  {
    if n > 0 {
      ReboundMeans(b, call, byKey, n - 1);
      assert call.plan.children[n - 1] in call.plan.children;
    }
  }

  predicate IsPrimary(b: Board, t: TaskId, o: OrchestratorId) {
    (t, o) in b.bindings && b.bindings[(t, o)].Primary?
  }

  /** A retry gives the rows of the tasks the first application made, and touches nothing but lost bindings. */
  ghost predicate Converged(b: Board, call: Call, ids: seq<TaskId>, r: Outcome)
    requires |ids| == |call.plan.children|
  {
    && r.result.Some? && !r.result.value.applied && |r.result.value.children| == |ids|
    && (forall i :: 0 <= i < |ids| ==>
          ids[i] in b.tasks && r.result.value.children[i] == Row(call.plan.children[i].key, ids[i], b.tasks[ids[i]]))
    && r.board == b.(bindings := r.board.bindings)
    && (forall i :: 0 <= i < |ids| ==> IsPrimary(r.board, ids[i], call.orchestratorId))
    && ((forall i :: 0 <= i < |ids| ==> IsPrimary(b, ids[i], call.orchestratorId)) ==> r.board == b)
  }

  lemma RetryIds(b: Board, call: Call, m: Marker, ids: seq<TaskId>)
    requires |ids| == |call.plan.children| && DistinctKeys(call.plan.children) && m.children == ChildTasks(call.plan.children, ids)
    requires Materialized(b, call, m)
    ensures var byKey := IdByKey(m.children);
            && (forall i :: 0 <= i < |ids| ==>
                  call.plan.children[i].key in byKey && byKey[call.plan.children[i].key] == ids[i] && ids[i] in b.tasks)
            && NamesChildren(call.plan, byKey) && ChildIds(call.plan.children, byKey) == set t | t in ids
  {
    hide ChildMatches, SubtasksOf, DependenciesAt, KnownDependencies, ExpectedDependencies, IdByKey, Rebound;
    var children, byKey := call.plan.children, IdByKey(m.children);
    FP.KeysInjective(children);
    forall i | 0 <= i < |ids| ensures children[i].key in byKey && byKey[children[i].key] == ids[i] && ids[i] in b.tasks {
      IdByKeyAt(m.children, i);
      assert children[i] in children;
      MatchUnbound(b, call, byKey, 0, IdsOf(m.children), children[i], ids[i]);
    }
    IdsOfKeys(children, byKey, ids);
  }

  lemma NothingRebound(b: Board, call: Call, byKey: map<JsString, TaskId>, ids: seq<TaskId>)
    requires NamesChildren(call.plan, byKey) && ChildIds(call.plan.children, byKey) == set t | t in ids
    requires forall i :: 0 <= i < |ids| ==> IsPrimary(b, ids[i], call.orchestratorId)
    ensures Rebound(b, call, byKey, |call.plan.children|) == b
  {
    hide Rebound, ChildIds;
    var after := Rebound(b, call, byKey, |call.plan.children|);
    ReboundMeans(b, call, byKey, |call.plan.children|);
    forall k | k in after.bindings ensures k in b.bindings && after.bindings[k] == b.bindings[k] {
      if k.0 in ChildIds(call.plan.children, byKey) && k.1 == call.orchestratorId {
        var i :| 0 <= i < |ids| && ids[i] == k.0;
        assert IsPrimary(b, ids[i], call.orchestratorId);
      }
    }
  }

  lemma RetryRows(b: Board, call: Call, m: Marker, ids: seq<TaskId>)
    requires |ids| == |call.plan.children| && DistinctKeys(call.plan.children) && m.children == ChildTasks(call.plan.children, ids)
    requires Materialized(b, call, m)
    ensures Converged(b, call, ids, Retried(b, call, m))
  {
    hide Materialized, DistinctKeys, ChildTasks, IdByKey, Rebound, NamesChildren, ChildIds;
    RetryIds(b, call, m, ids);
    var byKey := IdByKey(m.children);
    ReboundMeans(b, call, byKey, |ids|);
    if forall i :: 0 <= i < |ids| ==> IsPrimary(b, ids[i], call.orchestratorId) {
      NothingRebound(b, call, byKey, ids);
    }
  }

  /** A retry by the same orchestrator, in whatever session and generation is now active, succeeds exactly when the
      plan has children with distinct keys that are not empty; it then returns the tasks of the first application,
      and creates nothing. Otherwise it changes nothing. */
  lemma RetryConverges(h: Externals, b: Board, call: Call, d: Draw, b': Board, call': Call, d': Draw)
    requires FirstCall(h, b, call, d) && ApplyTo(h, b, call, d).result.Some?
    requires Undisturbed(ApplyTo(h, b, call, d).board, b', call.plan.parentTaskId, (set t | t in d.ids), call.orchestratorId)
    requires SameApplication(call, call') && ApprovalFence(h, call') && OrchestratorFence(b', call')
    requires |d'.ids| == |call'.plan.children|
    ensures var r := ApplyTo(h, b', call', d');
            if RetryableKeys(call.plan.children) then Converged(b', call', d.ids, r) else r == Outcome(b', None)
  {
    hide FirstCall, ApprovalFence, OrchestratorFence, Materialized, ChildTasks, IdsOf, FirstApplied, Retried, Converged;
    FreshDraw(h, b, call, d);
    AuthorityReadable(h, b, call, d);
    AuthorityStays(ApplyTo(h, b, call, d).board, b', call.plan.parentTaskId, (set t | t in d.ids), call.orchestratorId);
    if RetryableKeys(call.plan.children) {
      var m := FindAuthority(b', call.plan.parentTaskId).marker;
      DrawnSets(call.plan.children, d.ids);
      BuiltIsMaterialized(h, b, call, d, m);
      MaterializedPersists(ApplyTo(h, b, call, d).board, b', call, call', m);
      RetryRows(b', call', m, d.ids);
    }
  }

  lemma FreshDraw(h: Externals, b: Board, call: Call, d: Draw)
    requires FirstCall(h, b, call, d)
    ensures |d.ids| == |call.plan.children|
  {
  }

  lemma AuthorityStays(b: Board, b': Board, parent: TaskId, ids: set<TaskId>, o: OrchestratorId)
    requires Undisturbed(b, b', parent, ids, o)
    ensures FindAuthority(b', parent) == FindAuthority(b, parent)
  {
  }

  // ---- plans that no retry finds ----

  lemma {:induction false} NoDependencyLinks(children: seq<FP.Child>, byKey: map<JsString, TaskId>)
    requires forall c :: c in children ==> c.dependsOn == []
    ensures KnownDependencies(children, byKey) && AllDependencyLinks(children, byKey) == []
    decreases |children|
  {
    if children != [] {
      NoDependencyLinks(children[..|children| - 1], byKey);
      assert children[|children| - 1] in children;
    }
  }

  lemma IndependentIsApplied(h: Externals, b: Board, call: Call, d: Draw)
    requires FirstCall(h, b, call, d) && BodiesAllowed(h, call.plan.children)
    requires forall c :: c in call.plan.children ==> c.dependsOn == []
    ensures ApplyTo(h, b, call, d).result.Some?
  {
    hide ApprovalFence, OrchestratorFence, ParentSnapshot, BodiesAllowed, KnownDependencies, AllDependencyLinks, SubtasksOf, Created;
    RowsDefined(b, call, d);
    NoDependencyLinks(call.plan.children, NewIds(call, d));
  }

  /** Whoever calls, a board whose authority cannot be read refuses every call for the parent. */
  lemma UnreadableRefuses(h: Externals, b: Board, call: Call, d: Draw)
    requires |d.ids| == |call.plan.children| && FindAuthority(b, call.plan.parentTaskId).Refused?
    ensures ApplyTo(h, b, call, d) == Outcome(b, None)
  {
    hide ApprovalFence, OrchestratorFence;
  }

  const PARENT: TaskId := Ascii("parent")
  const OWNER: OrchestratorId := Ascii("owner")
  const SESSION: JsString := Ascii("session")
  const REPO: JsString := Ascii("/repo")

  /** A board with one task, bound to an orchestrator with an active session. */
  function SmallBoard(): Board {
    Board(map[PARENT := Task([], [], [], [], TODO, 0)], {}, map[(PARENT, OWNER) := Primary], [], [], map[OWNER := REPO],
          map[SESSION := Session(OWNER, 1, true)])
  }

  /** A plan for it, written by hand. */
  function HandMade(h: Externals, children: seq<FP.Child>): FP.Plan {
    FP.Plan(PARENT, FP.Snapshot(PARENT, 0, h.sha(Body.Normalize([]))), REPO, [], children, [])
  }

  function HandMadeCall(h: Externals, json: JsString, children: seq<FP.Child>): Call {
    Call(HandMade(h, children), json, h.sha(json), h.sha(json), h.sha(json), OWNER, SESSION, 1)
  }

  lemma HandMadeIsFirst(h: Externals, json: JsString, children: seq<FP.Child>, d: Draw)
    requires FP.Sha256(h.sha(json)) && h.read(json) == Some(HandMade(h, children))
    requires Fresh(SmallBoard(), d, |children|)
    ensures FirstCall(h, SmallBoard(), HandMadeCall(h, json, children), d)
  {
    hide Body.Normalize, FP.Sha256;
    var b := SmallBoard();
    assert PARENT != [] && OWNER != [];
    assert PrimaryOwners(b, PARENT) == {OWNER} by { assert (PARENT, OWNER) in b.bindings; }
    NoCycleWithoutLinks();
  }

  lemma NoCycleWithoutLinks()
    ensures Acyclic({})
  {
  }

  /** A plan without children passes the fences and is applied; then nothing can be applied to the parent again. */
  lemma EmptyPlanNeverRetried(h: Externals, json: JsString, again: Call, d: Draw)
    requires FP.Sha256(h.sha(json)) && h.read(json) == Some(HandMade(h, []))
    requires again.plan.parentTaskId == PARENT && |d.ids| == |again.plan.children|
    ensures var call, first := HandMadeCall(h, json, []), Draw([], 0);
            && FirstCall(h, SmallBoard(), call, first) && ApplyTo(h, SmallBoard(), call, first).result.Some?
            && var after := ApplyTo(h, SmallBoard(), call, first).board;
               OrchestratorFence(after, call) && ApplyTo(h, after, again, d) == Outcome(after, None)
  {
    hide FirstCall, ApplyTo, FP.Sha256, FindAuthority;
    var call, first := HandMadeCall(h, json, []), Draw([], 0);
    HandMadeIsFirst(h, json, [], first);
    HandMadeFails(h, json, [], first, again, d);
  }

  /** A plan with two children of one key passes the fences and is applied, when the store allows their body; then
      nothing can be applied to the parent again. */
  lemma TwinKeysNeverRetried(h: Externals, json: JsString, again: Call, d: Draw)
    requires var twin := FP.Child(Ascii("a"), [], [], [], [], [], [], []);
             FP.Sha256(h.sha(json)) && h.read(json) == Some(HandMade(h, [twin, twin])) && h.verifyAllowed(ChildBody(twin))
    requires again.plan.parentTaskId == PARENT && |d.ids| == |again.plan.children|
    ensures var twin := FP.Child(Ascii("a"), [], [], [], [], [], [], []);
            var call, first := HandMadeCall(h, json, [twin, twin]), Draw([Ascii("x"), Ascii("y")], 0);
            && FirstCall(h, SmallBoard(), call, first) && ApplyTo(h, SmallBoard(), call, first).result.Some?
            && var after := ApplyTo(h, SmallBoard(), call, first).board;
               OrchestratorFence(after, call) && ApplyTo(h, after, again, d) == Outcome(after, None)
  {
    hide FirstCall, ApplyTo, FP.Sha256, FindAuthority, ChildBody;
    var twin := FP.Child(Ascii("a"), [], [], [], [], [], [], []);
    var children, first := [twin, twin], Draw([Ascii("x"), Ascii("y")], 0);
    assert Fresh(SmallBoard(), first, 2) by {
      assert Ascii("x")[0] != Ascii("y")[0] && |Ascii("x")| == |Ascii("y")| == 1 && |PARENT| == 6;
    }
    assert FP.Keys(children) == {Ascii("a")};
    HandMadeIsFirst(h, json, children, first);
    HandMadeFails(h, json, children, first, again, d);
  }

  lemma HandMadeFails(h: Externals, json: JsString, children: seq<FP.Child>, first: Draw, again: Call, d: Draw)
    requires FirstCall(h, SmallBoard(), HandMadeCall(h, json, children), first) && BodiesAllowed(h, children)
    requires (forall c :: c in children ==> c.dependsOn == []) && !RetryableKeys(children)
    requires again.plan.parentTaskId == PARENT && |d.ids| == |again.plan.children|
    ensures var call := HandMadeCall(h, json, children);
            && |first.ids| == |children| && ApplyTo(h, SmallBoard(), call, first).result.Some?
            && var after := ApplyTo(h, SmallBoard(), call, first).board;
               OrchestratorFence(after, call) && ApplyTo(h, after, again, d) == Outcome(after, None)
  {
    hide ApplyTo, FP.Sha256, FindAuthority, RetryableKeys, ParentSnapshot, OrchestratorFence, BodiesAllowed;
    var call := HandMadeCall(h, json, children);
    IndependentIsApplied(h, SmallBoard(), call, first);
    AuthorityReadable(h, SmallBoard(), call, first);
    UnreadableRefuses(h, ApplyTo(h, SmallBoard(), call, first).board, again, d);
    FenceStays(h, SmallBoard(), call, first);
  }

  /** The first application leaves the caller's fence standing. */
  lemma FenceStays(h: Externals, b: Board, call: Call, d: Draw)
    requires FirstCall(h, b, call, d) && ApplyTo(h, b, call, d).result.Some?
    ensures OrchestratorFence(ApplyTo(h, b, call, d).board, call)
  {
    hide ApprovalFence, LinkAll, KnownDependencies, AllDependencyLinks, IdByKey, NewMarker, BodiesAllowed;
    RowsDefined(b, call, d);
    CreatedKeeps(b, call, d, |d.ids|);
  }

  lemma {:induction false} CreatedKeeps(b: Board, call: Call, d: Draw, n: nat)
    requires n <= |d.ids| == |call.plan.children| && Fresh(b, d, |d.ids|) && call.plan.parentTaskId in b.tasks
    ensures var after := Created(b, call, d, n);
            && after.orchestrators == b.orchestrators && after.sessions == b.sessions
            && PrimaryOwners(after, call.plan.parentTaskId) == PrimaryOwners(b, call.plan.parentTaskId)
  {
    if n > 0 { CreatedKeeps(b, call, d, n - 1); }
  }

  // ---- runs ----

  /** One step of the board: an application, or anything that adds no authority event. */
  ghost predicate Next(h: Externals, b: Board, b': Board) {
    b'.events == b.events || exists call, d :: ByApply(h, b, call, d, b')
  }

  ghost predicate ByApply(h: Externals, b: Board, call: Call, d: Draw, b': Board) {
    |d.ids| == |call.plan.children| && b' == ApplyTo(h, b, call, d).board
  }

  ghost predicate Run(h: Externals, bs: seq<Board>) {
    forall i :: 0 <= i < |bs| - 1 ==> Next(h, bs[i], bs[i + 1])
  }

  lemma ApplyEvents(h: Externals, b: Board, call: Call, d: Draw, t: TaskId)
    requires |d.ids| == |call.plan.children|
    ensures var before, after := EventsOf(b.events, t), EventsOf(ApplyTo(h, b, call, d).board.events, t);
            after == before || (before == [] && |after| == 1)
  {
    hide Materialized, ParentSnapshot, ApprovalFence, OrchestratorFence, LinkAll, KnownDependencies, IdByKey, NewMarker, Created, SubtasksOf,
      Rebound;
    var parent := call.plan.parentTaskId;
    RowsDefined(b, call, d);
    CreatedHolds(b, call, d, |d.ids|);
    if FindAuthority(b, parent).Absent? {
      if ApplyTo(h, b, call, d).result.Some? {
        var e := AuthorityEvent(parent, Some(NewMarker(call, NewIds(call, d))));
        EventsOfAppend(b.events, e, t);
        assert ApplyTo(h, b, call, d).board.events == b.events + [e];
      }
    } else if ApplyTo(h, b, call, d).result.Some? {
      var m := FindAuthority(b, parent).marker;
      MaterializedNames(b, call, m);
      ReboundOwners(b, call, IdByKey(m.children), |call.plan.children|, t);
    }
  }

  lemma MaterializedNames(b: Board, call: Call, m: Marker)
    requires Materialized(b, call, m)
    ensures SameAuthority(call, m) && NamesChildren(call.plan, IdByKey(m.children))
  {
  }

  lemma StepEvents(h: Externals, b: Board, b': Board, t: TaskId)
    requires Next(h, b, b')
    ensures EventsOf(b'.events, t) == EventsOf(b.events, t) || (EventsOf(b.events, t) == [] && |EventsOf(b'.events, t)| == 1)
  {
    hide ApplyTo;
    if b'.events != b.events {
      var call, d :| ByApply(h, b, call, d, b');
      ApplyEvents(h, b, call, d, t);
    }
  }

  /** Over any run a parent gets at most one authority event, and keeps it. */
  lemma {:induction false} OneAuthority(h: Externals, bs: seq<Board>, i: nat, j: nat, t: TaskId)
    requires Run(h, bs) && i <= j < |bs|
    ensures |EventsOf(bs[i].events, t)| <= 1 ==> |EventsOf(bs[j].events, t)| <= 1
    ensures EventsOf(bs[i].events, t) != [] ==> EventsOf(bs[j].events, t) == EventsOf(bs[i].events, t)
    decreases j - i
  {
    hide Next;
    if i < j {
      OneAuthority(h, bs, i, j - 1, t);
      assert Next(h, bs[j - 1], bs[j - 1 + 1]);
      StepEvents(h, bs[j - 1], bs[j], t);
    }
  }

  /** A successful call leaves its marker as the only authority event, naming the tasks it returned. */
  ghost predicate LeavesMarker(call: Call, r: Outcome, m: Marker) {
    && EventsOf(r.board.events, call.plan.parentTaskId) == [AuthorityEvent(call.plan.parentTaskId, Some(m))] && SameAuthority(call, m)
    && r.result.Some? && forall row :: row in r.result.value.children ==>
         row.key in IdByKey(m.children) && IdByKey(m.children)[row.key] == row.taskId
  }

  lemma {:induction false} IdByKeyOfMap(made: seq<ChildTask>, byKey: map<JsString, TaskId>)
    requires forall c :: c in made ==> c.key in byKey && byKey[c.key] == c.taskId
    ensures forall k :: k in IdByKey(made) ==> k in byKey && IdByKey(made)[k] == byKey[k]
    decreases |made|
  {
    if made != [] {
      assert made == made[..|made| - 1] + [made[|made| - 1]];
      IdByKeyOfMap(made[..|made| - 1], byKey);
    }
  }

  lemma {:induction false} EventsOfTask(events: seq<AuthorityEvent>, t: TaskId)
    ensures forall e :: e in EventsOf(events, t) ==> e.taskId == t
  {
    if events != [] { EventsOfTask(events[..|events| - 1], t); }
  }

  lemma FirstLeavesMarker(h: Externals, b: Board, call: Call, d: Draw) returns (m: Marker)
    requires |d.ids| == |call.plan.children| && ApplyTo(h, b, call, d).result.Some? && FindAuthority(b, call.plan.parentTaskId).Absent?
    ensures LeavesMarker(call, ApplyTo(h, b, call, d), m)
  {
    hide ParentSnapshot, ApprovalFence, OrchestratorFence, LinkAll, KnownDependencies, AllDependencyLinks, IdByKey, Created, SubtasksOf,
      ChildTasks, NewMarker, BodiesAllowed, Rows, SameAuthority, EventsOf;
    RowsDefined(b, call, d);
    CreatedHolds(b, call, d, |d.ids|);
    var byKey := NewIds(call, d);
    m := NewMarker(call, byKey);
    NoneBefore(b, call.plan.parentTaskId);
    EventsOfAppend(b.events, AuthorityEvent(call.plan.parentTaskId, Some(m)), call.plan.parentTaskId);
    MarkerMap(call, byKey);
    RowsNamed(Created(b, call, d, |d.ids|), call.plan, byKey);
  }

  lemma NoneBefore(b: Board, t: TaskId)
    requires FindAuthority(b, t).Absent?
    ensures EventsOf(b.events, t) == []
  {
  }

  lemma RowsNamed(b: Board, plan: FP.Plan, byKey: map<JsString, TaskId>)
    requires forall c :: c in plan.children ==> c.key in byKey && byKey[c.key] in b.tasks
    ensures forall row :: row in Rows(b, plan, byKey) ==>
              row.key in byKey && byKey[row.key] == row.taskId && exists c :: c in plan.children && c.key == row.key
  {
    var rows := Rows(b, plan, byKey);
    forall row | row in rows
      ensures row.key in byKey && byKey[row.key] == row.taskId && exists c :: c in plan.children && c.key == row.key
    {
      var i :| 0 <= i < |rows| && rows[i] == row;
      assert plan.children[i] in plan.children;
    }
  }

  lemma MarkerMap(call: Call, byKey: map<JsString, TaskId>)
    requires forall c :: c in call.plan.children ==> c.key in byKey
    ensures SameAuthority(call, NewMarker(call, byKey))
    ensures var again := IdByKey(NewMarker(call, byKey).children);
            forall c :: c in call.plan.children ==> c.key in again && again[c.key] == byKey[c.key]
  {
    hide IdByKey;
    var m := NewMarker(call, byKey);
    IdByKeyOfMap(m.children, byKey);
    MarkerKeys(call, byKey);
    forall c | c in call.plan.children ensures c.key in KeysOf(m.children) { assert c.key in FP.Keys(call.plan.children); }
  }

  lemma RetryLeavesMarker(h: Externals, b: Board, call: Call, d: Draw) returns (m: Marker)
    requires |d.ids| == |call.plan.children| && ApplyTo(h, b, call, d).result.Some? && !FindAuthority(b, call.plan.parentTaskId).Absent?
    ensures LeavesMarker(call, ApplyTo(h, b, call, d), m)
  {
    hide ApprovalFence, OrchestratorFence, FirstApplied, IdByKey, Rebound, Materialized;
    var parent := call.plan.parentTaskId;
    m := FindAuthority(b, parent).marker;
    MaterializedNames(b, call, m);
    EventsOfTask(b.events, parent);
    assert EventsOf(b.events, parent)[0] in EventsOf(b.events, parent);
    ReboundOwners(b, call, IdByKey(m.children), |call.plan.children|, parent);
  }

  lemma SuccessLeavesMarker(h: Externals, b: Board, call: Call, d: Draw) returns (m: Marker)
    requires |d.ids| == |call.plan.children| && ApplyTo(h, b, call, d).result.Some?
    ensures LeavesMarker(call, ApplyTo(h, b, call, d), m)
  {
    hide ApplyTo, LeavesMarker;
    if FindAuthority(b, call.plan.parentTaskId).Absent? {
      m := FirstLeavesMarker(h, b, call, d);
    } else {
      m := RetryLeavesMarker(h, b, call, d);
    }
  }

  /** A call whose marker is someone else's or another plan's is refused. */
  lemma ForeignCallRefused(h: Externals, b: Board, call: Call, d: Draw, m: Marker)
    requires |d.ids| == |call.plan.children| && EventsOf(b.events, call.plan.parentTaskId) == [AuthorityEvent(call.plan.parentTaskId, Some(m))]
    requires !SameAuthority(call, m)
    ensures ApplyTo(h, b, call, d) == Outcome(b, None)
  {
    hide ApprovalFence, OrchestratorFence;
  }

  /** Over any run, once a call has succeeded for a parent every later success is a retry of the same plan by the
      same orchestrator, and names the same tasks. */
  lemma AppliedOnce(h: Externals, bs: seq<Board>, i: nat, j: nat, call: Call, d: Draw, call': Call, d': Draw)
    requires Run(h, bs) && i < j < |bs| && call'.plan.parentTaskId == call.plan.parentTaskId
    requires ByApply(h, bs[i], call, d, bs[i + 1]) && ApplyTo(h, bs[i], call, d).result.Some?
    requires |d'.ids| == |call'.plan.children| && ApplyTo(h, bs[j], call', d').result.Some?
    ensures call'.planHash == call.planHash && call'.orchestratorId == call.orchestratorId
    ensures var first, again := ApplyTo(h, bs[i], call, d).result.value, ApplyTo(h, bs[j], call', d').result.value;
            !again.applied && forall x, y :: x in first.children && y in again.children && x.key == y.key ==> x.taskId == y.taskId
  {
    hide ApplyTo, IdByKey;
    var parent := call.plan.parentTaskId;
    var m := SuccessLeavesMarker(h, bs[i], call, d);
    OneAuthority(h, bs, i + 1, j, parent);
    var m' := SuccessLeavesMarker(h, bs[j], call', d');
    ApplyEvents(h, bs[j], call', d', parent);
    assert m' == m;
    RetryIsNotApplied(h, bs[j], call', d');
  }

  lemma RetryIsNotApplied(h: Externals, b: Board, call: Call, d: Draw)
    requires |d.ids| == |call.plan.children| && EventsOf(b.events, call.plan.parentTaskId) != []
    ensures ApplyTo(h, b, call, d).result.Some? ==> !ApplyTo(h, b, call, d).result.value.applied
  {
    hide ApprovalFence, OrchestratorFence, Materialized;
  }

  /** With a hash that tells texts apart, calls with one plan hash have one plan. */
  lemma SameHashSamePlan(h: Externals, a: Call, b: Call)
    requires (forall x, y :: h.sha(x) == h.sha(y) ==> x == y) && ApprovalFence(h, a) && ApprovalFence(h, b) && a.planHash == b.planHash
    ensures a.plan == b.plan
  {
    assert a.canonicalJson == b.canonicalJson;
  }
}
