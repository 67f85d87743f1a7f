/** What an application leaves on the board and what a retry demands of it, in terms of tasks, links, bindings and events. */
module FanoutApplyMeaning {
  import opened JsStrings
  import opened Wrappers
  import opened Board
  import opened FanoutApply
  import P = FanoutApplyProofs
  import Body = FanoutParentBody
  import FP = FanoutPlan

  // ---- who may apply ----

  /** The caller holds the parent alone, in an active session of the plan's repository, with the plan that was approved. */
  predicate MayApply(h: Externals, b: Board, call: Call) {
    && h.read(call.canonicalJson) == Some(call.plan)
    && call.approvedPlanHash == call.planHash == call.innerPlanHash == h.sha(call.canonicalJson)
    && |call.planHash| == 64
    && call.orchestratorId in b.orchestrators && b.orchestrators[call.orchestratorId] == call.plan.repoCommonDir
    && call.sessionId in b.sessions && b.sessions[call.sessionId].active && call.generation >= 1
    && b.sessions[call.sessionId].orchestratorId == call.orchestratorId && b.sessions[call.sessionId].generation == call.generation
    && (call.plan.parentTaskId, call.orchestratorId) in b.bindings
    && forall k :: k in b.bindings && k.0 == call.plan.parentTaskId ==> (b.bindings[k].Primary? <==> k.1 == call.orchestratorId)
  }

  /** No call succeeds, and none changes the board, without that authority. */
  lemma ActsWithAuthority(h: Externals, b: Board, call: Call, d: Draw)
    requires |d.ids| == |call.plan.children|
    ensures ApplyTo(h, b, call, d).result.Some? ==> MayApply(h, b, call)
    ensures ApplyTo(h, b, call, d).result.None? ==> ApplyTo(h, b, call, d).board == b
  {
    hide FindAuthority, Retried, FirstApplied;
    if ApplyTo(h, b, call, d).result.Some? {
      OwnedAlone(b, call);
    } else {
      RefusalKeeps(h, b, call, d);
    }
  }

  lemma OwnedAlone(b: Board, call: Call)
    requires PrimaryOwners(b, call.plan.parentTaskId) == {call.orchestratorId}
    ensures (call.plan.parentTaskId, call.orchestratorId) in b.bindings
    ensures forall k :: k in b.bindings && k.0 == call.plan.parentTaskId ==> (b.bindings[k].Primary? <==> k.1 == call.orchestratorId)
  {
    assert call.orchestratorId in PrimaryOwners(b, call.plan.parentTaskId);
    forall k | k in b.bindings && k.0 == call.plan.parentTaskId && b.bindings[k].Primary? ensures k.1 == call.orchestratorId {
      assert k.1 in PrimaryOwners(b, call.plan.parentTaskId);
    }
  }

  lemma RefusalKeeps(h: Externals, b: Board, call: Call, d: Draw)
    requires |d.ids| == |call.plan.children| && ApplyTo(h, b, call, d).result.None?
    ensures ApplyTo(h, b, call, d).board == b
  {
    hide ApprovalFence, OrchestratorFence, Materialized, ParentSnapshot, SubtasksOf, BodiesAllowed, KnownDependencies, LinkAll, Created;
  }

  // ---- the text of a child task ----

  /** The body names the worktree on its first line and shows the child's body below an empty line. */
  predicate BodyShows(text: JsString, worktree: JsString, body: JsString) {
    text == Ascii("cwd: ") + worktree + Ascii("\n\n") + body
  }

  lemma BodySays(c: FP.Child)
    ensures BodyShows(ChildBody(c), c.worktree, c.body)
  {
  }

  /** Children whose worktrees have no line feed are told apart by their task bodies. */
  lemma BodyTells(a: FP.Child, b: FP.Child)
    requires ChildBody(a) == ChildBody(b) && '\n' as int !in a.worktree && '\n' as int !in b.worktree
    ensures a.worktree == b.worktree && a.body == b.body
  {
    var x, y := a.worktree + [Body.LF, Body.LF] + a.body, b.worktree + [Body.LF, Body.LF] + b.body;
    assert ChildBody(a) == CWD + x && ChildBody(b) == CWD + y;
    assert x == ChildBody(a)[5..] && y == ChildBody(b)[5..];
    assert x[|a.worktree|] == y[|b.worktree|] == '\n' as int;
    assert x == y;
    assert a.worktree == x[..|a.worktree|] && b.worktree == y[..|b.worktree|];
    assert a.body == x[|a.worktree| + 2..] && b.body == y[|b.worktree| + 2..];
  }

  // ---- tasks and links ----

  predicate SpecShows(t: Task, c: FP.Child) {
    t.title == c.title && t.tenant == c.tenant && t.profile == c.profile && BodyShows(t.body, c.worktree, c.body)
  }

  /** The link leads from a dependency's task to the task of the child that waits for it. */
  predicate Planned(children: seq<FP.Child>, ids: seq<TaskId>, l: Link)
    requires |ids| == |children|
  {
    exists i, j :: 0 <= i < |ids| && 0 <= j < |ids| && children[j].key in children[i].dependsOn && l == Link(ids[j], ids[i], DependsOn)
  }

  predicate Names(children: seq<FP.Child>, ids: seq<TaskId>, byKey: map<JsString, TaskId>) {
    |ids| == |children| && (forall k :: k in byKey ==> P.InKeys(children, k))
    && forall i :: 0 <= i < |children| ==> children[i].key in byKey && byKey[children[i].key] == ids[i]
  }

  lemma ExpectedIsPlanned(children: seq<FP.Child>, ids: seq<TaskId>, byKey: map<JsString, TaskId>, l: Link)
    requires Names(children, ids, byKey) && KnownDependencies(children, byKey)
    ensures l in ExpectedDependencies(children, byKey) <==> Planned(children, ids, l)
  {
    if l in ExpectedDependencies(children, byKey) {
      var c, d :| c in children && d in c.dependsOn && l == Link(byKey[d], byKey[c.key], DependsOn);
      var i :| 0 <= i < |children| && children[i] == c;
      assert d in byKey && P.InKeys(children, d);
      var j :| 0 <= j < |children| && children[j].key == d;
      assert l == Link(ids[j], ids[i], DependsOn);
    }
    if Planned(children, ids, l) {
      var i, j :| 0 <= i < |ids| && 0 <= j < |ids| && children[j].key in children[i].dependsOn && l == Link(ids[j], ids[i], DependsOn);
      assert children[i] in children;
    }
  }

  // ---- what the first application leaves ----

  ghost predicate TasksAdded(b: Board, after: Board, children: seq<FP.Child>, ids: seq<TaskId>, now: nat)
    requires |ids| == |children|
  {
    && (forall t :: t in after.tasks <==> t in b.tasks || t in ids)
    && (forall t :: t in b.tasks ==> t in after.tasks && after.tasks[t] == b.tasks[t])
    && forall i :: 0 <= i < |ids| ==> ids[i] in after.tasks && SpecShows(after.tasks[ids[i]], children[i])
                                      && after.tasks[ids[i]].status == Ascii("todo") && after.tasks[ids[i]].updatedAt == now
  }

  ghost predicate LinksAdded(before: set<Link>, after: set<Link>, parent: TaskId, children: seq<FP.Child>, ids: seq<TaskId>)
    requires |ids| == |children|
  {
    forall l :: l in after <==>
      l in before || (l.linkType.Subtask? && l.parentId == parent && l.childId in ids) || Planned(children, ids, l)
  }

  predicate MarkerFor(call: Call, m: Marker, ids: seq<TaskId>)
    requires |ids| == |call.plan.children|
  {
    && m.parentTaskId == call.plan.parentTaskId && m.planHash == call.planHash && m.orchestratorId == call.orchestratorId
    && m.sessionId == call.sessionId && m.generation == call.generation && |m.children| == |ids|
    && forall i :: 0 <= i < |ids| ==> m.children[i].key == call.plan.children[i].key && m.children[i].taskId == ids[i]
  }

  predicate RowsShow(b: Board, children: seq<FP.Child>, ids: seq<TaskId>, rows: seq<Row>) {
    |rows| == |ids| == |children| && forall i :: 0 <= i < |ids| ==>
      rows[i].key == children[i].key && rows[i].taskId == ids[i] && ids[i] in b.tasks && rows[i].task == b.tasks[ids[i]]
  }

  lemma FirstMarker(b: Board, call: Call, d: Draw)
    requires Fresh(b, d, |call.plan.children|) && P.DistinctKeys(call.plan.children)
    ensures Names(call.plan.children, d.ids, P.NewIds(call, d))
    ensures MarkerFor(call, NewMarker(call, P.NewIds(call, d)), d.ids)
  {
    hide NewMarker, P.NewIds;
    NamesDrawn(b, call, d);
    MarkerLists(call, P.NewIds(call, d), d.ids);
  }

  lemma NamesDrawn(b: Board, call: Call, d: Draw)
    requires Fresh(b, d, |call.plan.children|) && P.DistinctKeys(call.plan.children)
    ensures Names(call.plan.children, d.ids, P.NewIds(call, d))
  {
    hide IdByKey, ChildTasks;
    P.DrawnMap(b, call.plan.children, d);
  }

  lemma NamesAll(children: seq<FP.Child>, ids: seq<TaskId>, byKey: map<JsString, TaskId>)
    requires Names(children, ids, byKey)
    ensures forall c :: c in children ==> c.key in byKey
  {
  }

  lemma MarkerLists(call: Call, byKey: map<JsString, TaskId>, ids: seq<TaskId>)
    requires Names(call.plan.children, ids, byKey)
    ensures (forall c :: c in call.plan.children ==> c.key in byKey) && MarkerFor(call, NewMarker(call, byKey), ids)
  {
    NamesAll(call.plan.children, ids, byKey);
    var children := call.plan.children;
    forall i | 0 <= i < |children| ensures children[i] in children {
    }
  }

  lemma RowsListed(b: Board, plan: FP.Plan, byKey: map<JsString, TaskId>, ids: seq<TaskId>)
    requires Names(plan.children, ids, byKey)
    requires forall c :: c in plan.children ==> c.key in byKey && byKey[c.key] in b.tasks
    ensures RowsShow(b, plan.children, ids, Rows(b, plan, byKey))
  {
    forall i | 0 <= i < |plan.children| ensures plan.children[i] in plan.children {
    }
  }

  lemma FirstLinks(b: Board, call: Call, d: Draw)
    requires Fresh(b, d, |call.plan.children|) && P.DistinctKeys(call.plan.children)
    requires KnownDependencies(call.plan.children, P.NewIds(call, d))
    ensures LinksAdded(b.links, P.FinalLinks(b, call, d), call.plan.parentTaskId, call.plan.children, d.ids)
  {
    hide KnownDependencies, ExpectedDependencies, P.NewIds;
    NamesDrawn(b, call, d);
    forall l ensures l in ExpectedDependencies(call.plan.children, P.NewIds(call, d)) <==> Planned(call.plan.children, d.ids, l) {
      ExpectedIsPlanned(call.plan.children, d.ids, P.NewIds(call, d), l);
    }
    assert forall l: Link :: l in P.NewSubtasks(call.plan.parentTaskId, d.ids)
                             <==> l.linkType.Subtask? && l.parentId == call.plan.parentTaskId && l.childId in d.ids;
  }

  lemma FirstTasks(b: Board, call: Call, d: Draw)
    requires Fresh(b, d, |call.plan.children|)
    ensures TasksAdded(b, Created(b, call, d, |d.ids|), call.plan.children, d.ids, d.now)
  {
    hide Created;
    CreatedHolds(b, call, d, |d.ids|);
    assert d.ids[..|d.ids|] == d.ids;
    P.CreatedTasks(b, call, d, |d.ids|);
    forall i | 0 <= i < |d.ids| ensures SpecShows(NewTask(call.plan.children[i], d.now), call.plan.children[i]) {
      BodySays(call.plan.children[i]);
    }
  }

  /** The first application adds one task for each child, the links of the plan, the caller's bindings, one comment and one
      event with the same marker, and returns the new tasks; nothing else changes. */
  lemma FirstSays(h: Externals, b: Board, call: Call, d: Draw)
    requires P.FirstCall(h, b, call, d) && P.DistinctKeys(call.plan.children) && ApplyTo(h, b, call, d).result.Some?
    ensures |d.ids| == |call.plan.children|
    ensures var Outcome(after, r) := ApplyTo(h, b, call, d);
            && r.value.applied && RowsShow(after, call.plan.children, d.ids, r.value.children)
            && TasksAdded(b, after, call.plan.children, d.ids, d.now)
            && LinksAdded(b.links, after.links, call.plan.parentTaskId, call.plan.children, d.ids)
            && P.BindingFacts(b.bindings, call.orchestratorId, d.ids, after.bindings)
            && after.orchestrators == b.orchestrators && after.sessions == b.sessions
    ensures var after := ApplyTo(h, b, call, d).board;
            exists m :: MarkerFor(call, m, d.ids) && after.comments == b.comments + [(call.plan.parentTaskId, m)]
                        && after.events == b.events + [AuthorityEvent(call.plan.parentTaskId, Some(m))]
  {
    hide ApprovalFence, OrchestratorFence, ParentSnapshot, SubtasksOf, BodiesAllowed, KnownDependencies, LinkAll, Created, IdByKey, ChildTasks,
      AllDependencyLinks, Rows, NewMarker, Names, MarkerFor, RowsShow, TasksAdded, LinksAdded, P.BindingFacts, P.DistinctKeys, P.FinalLinks;
    var byKey, created := P.NewIds(call, d), Created(b, call, d, |d.ids|);
    P.BuiltBoard(h, b, call, d);
    RowsDefined(b, call, d);
    FirstMarker(b, call, d);
    FirstTasks(b, call, d);
    FirstLinks(b, call, d);
    RowsListed(created, call.plan, byKey, d.ids);
    P.CreatedBindings(b, call, d, |d.ids|);
    assert d.ids[..|d.ids|] == d.ids;
    FenceHolds(h, b, call);
    P.CreatedKeeps(b, call, d, |d.ids|);
    CreatedHolds(b, call, d, |d.ids|);
    var after := ApplyTo(h, b, call, d).board;
    SameTasks(b, created, after, call.plan.children, d.ids, d.now);
    SameRows(created, after, call.plan.children, d.ids, Rows(created, call.plan, byKey));
    var m := NewMarker(call, byKey);
    assert after.events == b.events + [AuthorityEvent(call.plan.parentTaskId, Some(m))];
  }

  lemma SameTasks(b: Board, x: Board, y: Board, children: seq<FP.Child>, ids: seq<TaskId>, now: nat)
    requires |ids| == |children| && x.tasks == y.tasks && TasksAdded(b, x, children, ids, now)
    ensures TasksAdded(b, y, children, ids, now)
  {
  }

  lemma SameRows(x: Board, y: Board, children: seq<FP.Child>, ids: seq<TaskId>, rows: seq<Row>)
    requires x.tasks == y.tasks && RowsShow(x, children, ids, rows)
    ensures RowsShow(y, children, ids, rows)
  {
  }

  // ---- what a retry demands ----

  /** A child task may be at work, waiting or finished; it may not be in any other state. */
  predicate Progress(status: JsString) {
    || status == Ascii("todo") || status == Ascii("ready") || status == Ascii("blocked") || status == Ascii("review")
    || status == Ascii("needs-integration") || status == Ascii("done") || status == Ascii("archived")
  }

  /** The task still is the child's: its text, its only parent, and nobody else's. */
  ghost predicate StillThe(b: Board, call: Call, c: FP.Child, t: TaskId) {
    && t in b.tasks && SpecShows(b.tasks[t], c) && Progress(b.tasks[t].status)
    && (forall p :: Link(p, t, Subtask) in b.links <==> p == call.plan.parentTaskId)
    && forall o :: (t, o) in b.bindings && b.bindings[(t, o)].Primary? ==> o == call.orchestratorId
  }

  /** The marker is the caller's and lists the children with these tasks. */
  predicate Lists(m: Marker, call: Call, ids: seq<TaskId>) {
    && m.parentTaskId == call.plan.parentTaskId && m.planHash == call.planHash && m.orchestratorId == call.orchestratorId
    && |ids| == |call.plan.children| == |m.children|
    && forall i :: 0 <= i < |ids| ==> ChildTask(call.plan.children[i].key, ids[i]) in m.children
  }

  /** The board still shows the plan on these tasks. */
  ghost predicate Intact(b: Board, call: Call, ids: seq<TaskId>) {
    && |ids| == |call.plan.children|
    && (forall t :: Link(call.plan.parentTaskId, t, Subtask) in b.links <==> t in ids)
    && (forall i :: 0 <= i < |ids| ==> StillThe(b, call, call.plan.children[i], ids[i]))
    && P.KnownNames(call.plan.children)
    && forall l: Link :: l.linkType.DependsOn? && (l.parentId in ids || l.childId in ids) ==> (l in b.links <==> Planned(call.plan.children, ids, l))
  }

  lemma StatusIsProgress(status: JsString)
    ensures status in MATERIALIZED <==> Progress(status)
  {
  }

  lemma SubtasksAre(links: set<Link>, parent: TaskId, ids: seq<TaskId>)
    ensures SubtasksOf(links, parent) == (set t | t in ids) <==> forall t :: Link(parent, t, Subtask) in links <==> t in ids
  {
    forall t ensures t in SubtasksOf(links, parent) <==> Link(parent, t, Subtask) in links {
    }
    if SubtasksOf(links, parent) == (set t | t in ids) {
      forall t ensures Link(parent, t, Subtask) in links <==> t in ids {
        assert t in SubtasksOf(links, parent) <==> t in (set x | x in ids);
      }
    }
  }

  lemma ParentsAre(links: set<Link>, t: TaskId, parent: TaskId)
    ensures ParentsOf(links, t) == {parent} <==> forall p :: Link(p, t, Subtask) in links <==> p == parent
  {
    forall p ensures p in ParentsOf(links, t) <==> Link(p, t, Subtask) in links {
    }
    if ParentsOf(links, t) == {parent} {
      forall p ensures Link(p, t, Subtask) in links <==> p == parent { assert p in ParentsOf(links, t) <==> p in {parent}; }
    }
  }

  lemma OwnersAre(b: Board, t: TaskId, o: OrchestratorId)
    ensures PrimaryOwners(b, t) <= {o} <==> forall x :: (t, x) in b.bindings && b.bindings[(t, x)].Primary? ==> x == o
  {
    forall x ensures x in PrimaryOwners(b, t) <==> (t, x) in b.bindings && b.bindings[(t, x)].Primary? {
      if (t, x) in b.bindings && b.bindings[(t, x)].Primary? { assert (t, x).1 in PrimaryOwners(b, t); }
    }
  }

  lemma ChildStill(b: Board, call: Call, ids: set<TaskId>, c: FP.Child, t: TaskId)
    ensures ChildMatches(b, call, ids, c, t)
            <==> StillThe(b, call, c, t) && forall l :: l in DependenciesAt(b.links, {t}) ==> l.parentId in ids && l.childId in ids
  {
    hide ParentsOf, PrimaryOwners, DependenciesAt, ChildBody;
    ParentsAre(b.links, t, call.plan.parentTaskId);
    OwnersAre(b, t, call.orchestratorId);
    BodySays(c);
    if t in b.tasks { StatusIsProgress(b.tasks[t].status); }
  }

  lemma KnownAre(children: seq<FP.Child>, ids: seq<TaskId>, byKey: map<JsString, TaskId>)
    requires Names(children, ids, byKey)
    ensures KnownDependencies(children, byKey) <==> P.KnownNames(children)
  {
    forall k ensures k in byKey <==> k in FP.Keys(children) {
      if k in byKey {
        assert P.InKeys(children, k);
        var i :| 0 <= i < |children| && children[i].key == k;
        assert children[i] in children;
      }
    }
    NamesAll(children, ids, byKey);
  }

  lemma DependenciesAre(links: set<Link>, children: seq<FP.Child>, ids: seq<TaskId>, byKey: map<JsString, TaskId>)
    requires |ids| == |children| && Names(children, ids, byKey) && KnownDependencies(children, byKey)
    ensures DependenciesAt(links, set t | t in ids) == ExpectedDependencies(children, byKey)
            <==> forall l: Link :: l.linkType.DependsOn? && (l.parentId in ids || l.childId in ids) ==> (l in links <==> Planned(children, ids, l))
  {
    hide ExpectedDependencies, KnownDependencies, Names;
    var at, expected := DependenciesAt(links, set t | t in ids), ExpectedDependencies(children, byKey);
    forall l ensures l in expected <==> Planned(children, ids, l) { ExpectedIsPlanned(children, ids, byKey, l); }
    forall l: Link ensures l in at <==> l in links && l.linkType.DependsOn? && (l.parentId in ids || l.childId in ids) {
    }
    forall l | Planned(children, ids, l) ensures l.linkType.DependsOn? && l.parentId in ids && l.childId in ids {
    }
    if at == expected {
      forall l: Link | l.linkType.DependsOn? && (l.parentId in ids || l.childId in ids) ensures l in links <==> Planned(children, ids, l) {
        assert l in at <==> l in expected;
      }
    }
  }

  lemma IntactIsMaterialized(b: Board, call: Call, m: Marker, ids: seq<TaskId>)
    requires |ids| == |call.plan.children| && Names(call.plan.children, ids, IdByKey(m.children))
    requires SameAuthority(call, m) && NamesChildren(call.plan, IdByKey(m.children)) && IdsOf(m.children) == set t | t in ids
    ensures Materialized(b, call, m) <==> Intact(b, call, ids)
  {
    hide ChildMatches, StillThe, SubtasksOf, DependenciesAt, KnownDependencies, ExpectedDependencies, IdByKey, IdsOf, Planned, P.KnownNames;
    var children, byKey := call.plan.children, IdByKey(m.children);
    SubtasksAre(b.links, call.plan.parentTaskId, ids);
    P.IdsOfKeys(children, byKey, ids);
    KnownAre(children, ids, byKey);
    if KnownDependencies(children, byKey) { DependenciesAre(b.links, children, ids, byKey); }
    ChildrenStill(b, call, ids, byKey);
    if Intact(b, call, ids) {
      EndsInside(b, call, ids);
    }
  }

  /** Every child matches exactly when it is still the child's and no dependency leads out. */
  lemma ChildrenStill(b: Board, call: Call, ids: seq<TaskId>, byKey: map<JsString, TaskId>)
    requires |ids| == |call.plan.children| && Names(call.plan.children, ids, byKey)
    ensures forall c :: c in call.plan.children ==> c.key in byKey
    ensures (forall c :: c in call.plan.children ==> ChildMatches(b, call, (set t | t in ids), c, byKey[c.key]))
            <==> forall i :: 0 <= i < |ids| ==>
                   StillThe(b, call, call.plan.children[i], ids[i])
                   && forall l :: l in DependenciesAt(b.links, {ids[i]}) ==> l.parentId in ids && l.childId in ids
  {
    hide ChildMatches, StillThe, DependenciesAt;
    var children, inside := call.plan.children, set t | t in ids;
    NamesAll(children, ids, byKey);
    forall i | 0 <= i < |ids|
      ensures ChildMatches(b, call, inside, children[i], ids[i])
              <==> StillThe(b, call, children[i], ids[i])
                   && forall l :: l in DependenciesAt(b.links, {ids[i]}) ==> l.parentId in ids && l.childId in ids
    {
      ChildStill(b, call, inside, children[i], ids[i]);
    }
    if forall c :: c in children ==> ChildMatches(b, call, inside, c, byKey[c.key]) {
      forall i | 0 <= i < |ids| ensures ChildMatches(b, call, inside, children[i], ids[i]) { assert children[i] in children; }
    }
  }

  lemma EndsInside(b: Board, call: Call, ids: seq<TaskId>)
    requires |ids| == |call.plan.children| && Intact(b, call, ids)
    ensures forall i, l :: 0 <= i < |ids| && l in DependenciesAt(b.links, {ids[i]}) ==> l.parentId in ids && l.childId in ids
  {
    hide StillThe, P.KnownNames;
    forall i, l | 0 <= i < |ids| && l in DependenciesAt(b.links, {ids[i]}) ensures l.parentId in ids && l.childId in ids {
      assert Planned(call.plan.children, ids, l);
    }
  }

  // ---- the marker's list ----

  lemma MarkerDistinct(made: seq<ChildTask>)
    requires |KeysOf(made)| == |made|
    ensures forall i, j :: 0 <= i < j < |made| ==> made[i].key != made[j].key
    decreases |made|
  {
    if made != [] {
      var init, last := made[..|made| - 1], made[|made| - 1];
      assert made == init + [last];
      assert KeysOf(made) == KeysOf(init) + {last.key};
      FewKeys(init);
      assert last.key !in KeysOf(init);
      MarkerDistinct(init);
      forall i | 0 <= i < |init| ensures made[i].key in KeysOf(init) { assert init[i] in init; }
      forall i, j | 0 <= i < j < |made| ensures made[i].key != made[j].key {
        if j < |init| { assert init[i] == made[i] && init[j] == made[j]; }
      }
    }
  }

  lemma {:induction false} FewKeys(made: seq<ChildTask>)
    ensures |KeysOf(made)| <= |made|
    decreases |made|
  {
    if made != [] {
      var init, last := made[..|made| - 1], made[|made| - 1];
      assert made == init + [last];
      assert KeysOf(made) == KeysOf(init) + {last.key};
      FewKeys(init);
    }
  }

  lemma ListedAt(made: seq<ChildTask>, c: ChildTask)
    requires |KeysOf(made)| == |made| && c in made
    ensures c.key in IdByKey(made) && IdByKey(made)[c.key] == c.taskId
  {
    MarkerDistinct(made);
    var i :| 0 <= i < |made| && made[i] == c;
    P.IdByKeyAt(made, i);
  }

  /** The map of a readable marker names the plan's children exactly when the marker lists them. */
  lemma ListsMeans(call: Call, m: Marker, ids: seq<TaskId>)
    requires P.DistinctKeys(call.plan.children) && |KeysOf(m.children)| == |m.children| && Lists(m, call, ids)
    ensures Names(call.plan.children, ids, IdByKey(m.children)) && NamesChildren(call.plan, IdByKey(m.children))
    ensures SameAuthority(call, m) && IdsOf(m.children) == set t | t in ids
  {
    hide IdByKey;
    var children, byKey := call.plan.children, IdByKey(m.children);
    forall i | 0 <= i < |ids| ensures children[i].key in byKey && byKey[children[i].key] == ids[i] {
      ListedAt(m.children, ChildTask(children[i].key, ids[i]));
    }
    forall c | c in children ensures c.key in byKey {
      var i :| 0 <= i < |children| && children[i] == c;
      assert byKey[children[i].key] == ids[i];
    }
    assert FP.Keys(children) <= byKey.Keys;
    SameSizeSameSet(FP.Keys(children), byKey.Keys);
    assert |byKey.Keys| == |byKey|;
    forall k | k in byKey ensures P.InKeys(children, k) {
      assert k in FP.Keys(children);
      var c :| c in children && c.key == k;
      var i :| 0 <= i < |children| && children[i] == c;
      assert children[i].key == k;
    }
    forall t ensures t in IdsOf(m.children) <==> t in ids {
      if t in ids {
        var i :| 0 <= i < |ids| && ids[i] == t;
        assert ChildTask(children[i].key, ids[i]) in m.children;
      }
      if t in IdsOf(m.children) {
        var c :| c in m.children && c.taskId == t;
        ListedAt(m.children, c);
        assert P.InKeys(children, c.key);
        var i :| 0 <= i < |children| && children[i].key == c.key;
        assert byKey[children[i].key] == ids[i];
      }
    }
  }

  lemma SameSizeSameSet(a: set<JsString>, b: set<JsString>)
    requires a <= b && |a| == |b|
    ensures a == b
  {
    assert |b - a| == |b| - |a|;
  }

  lemma NamedIsListed(call: Call, m: Marker) returns (ids: seq<TaskId>)
    requires SameAuthority(call, m) && NamesChildren(call.plan, IdByKey(m.children)) && |KeysOf(m.children)| == |m.children|
    ensures Lists(m, call, ids)
  {
    hide IdByKey;
    var children, byKey := call.plan.children, IdByKey(m.children);
    ids := seq(|children|, i requires 0 <= i < |children| => if children[i].key in byKey then byKey[children[i].key] else []);
    assert |byKey| == |byKey.Keys|;
    forall i | 0 <= i < |ids| ensures ChildTask(children[i].key, ids[i]) in m.children {
      assert children[i] in children;
      assert children[i].key in KeysOf(m.children);
      var c :| c in m.children && c.key == children[i].key;
      ListedAt(m.children, c);
      assert c == ChildTask(children[i].key, ids[i]);
    }
  }

  // ---- the retry ----

  predicate SeenMarker(b: Board, call: Call, m: Marker) {
    EventsOf(b.events, call.plan.parentTaskId) == [AuthorityEvent(call.plan.parentTaskId, Some(m))]
  }

  /** A call that finds a marker succeeds exactly when the caller may apply, the marker can be read and is the caller's, and
      the board still shows the plan on the tasks it lists. */
  lemma RetryExactly(h: Externals, b: Board, call: Call, d: Draw, m: Marker)
    requires |d.ids| == |call.plan.children| && P.DistinctKeys(call.plan.children) && SeenMarker(b, call, m)
    requires ApprovalFence(h, call) && OrchestratorFence(b, call)
    ensures ApplyTo(h, b, call, d).result.Some?
            <==> ParseAuthority(Some(m)).Some? && exists ids :: Lists(m, call, ids) && Intact(b, call, ids)
  {
    hide ApprovalFence, OrchestratorFence, Intact, Lists, Names, NamesChildren, SameAuthority, IdByKey, IdsOf, P.DistinctKeys, Retried, MarkerSchema;
    if ParseAuthority(Some(m)).Some? {
      RetriedExactly(b, call, m);
      RetriedMaterialized(b, call, m);
    }
  }

  lemma RetriedMaterialized(b: Board, call: Call, m: Marker)
    ensures Retried(b, call, m).result.Some? <==> Materialized(b, call, m)
    ensures Materialized(b, call, m) ==> SameAuthority(call, m) && NamesChildren(call.plan, IdByKey(m.children))
  {
    hide IdByKey, ChildMatches, KnownDependencies, SubtasksOf;
  }

  lemma RetriedExactly(b: Board, call: Call, m: Marker)
    requires P.DistinctKeys(call.plan.children) && ParseAuthority(Some(m)).Some?
    ensures Materialized(b, call, m) <==> exists ids :: Lists(m, call, ids) && Intact(b, call, ids)
  {
    hide Materialized, Intact, Lists, Names, NamesChildren, SameAuthority, IdByKey, IdsOf, P.DistinctKeys, Retried, MarkerSchema;
    if Materialized(b, call, m) {
      RetriedMaterialized(b, call, m);
      var ids := NamedIsListed(call, m);
      ListedLength(m, call, ids);
      ListsMeans(call, m, ids);
      IntactIsMaterialized(b, call, m, ids);
    }
    if ids :| Lists(m, call, ids) && Intact(b, call, ids) {
      ListedLength(m, call, ids);
      ListsMeans(call, m, ids);
      IntactIsMaterialized(b, call, m, ids);
    }
  }

  lemma ListedLength(m: Marker, call: Call, ids: seq<TaskId>)
    requires Lists(m, call, ids)
    ensures |ids| == |call.plan.children|
  {
  }

  /** A successful retry shows the listed tasks as they stand and only restores the caller's bindings. */
  lemma RetrySays(h: Externals, b: Board, call: Call, d: Draw, m: Marker, ids: seq<TaskId>)
    requires |d.ids| == |call.plan.children| && P.DistinctKeys(call.plan.children) && SeenMarker(b, call, m) && Lists(m, call, ids)
    requires ApplyTo(h, b, call, d).result.Some?
    ensures var Outcome(after, r) := ApplyTo(h, b, call, d);
            && !r.value.applied && RowsShow(b, call.plan.children, ids, r.value.children)
            && after == b.(bindings := after.bindings)
            && (forall i :: 0 <= i < |ids| ==> P.IsPrimary(after, ids[i], call.orchestratorId))
            && (forall k :: k in after.bindings ==> (k in b.bindings && after.bindings[k] == b.bindings[k])
                                                    || (k.1 == call.orchestratorId && k.0 in ids && after.bindings[k] == Primary))
            && forall k :: k in b.bindings ==> k in after.bindings
  {
    hide ApprovalFence, OrchestratorFence, Materialized, IdByKey, Rebound, NamesChildren, P.DistinctKeys, FirstApplied, Rows, RowsShow, MarkerSchema,
      Names, Lists;
    RetriedMaterialized(b, call, m);
    ListsMeans(call, m, ids);
    var byKey := IdByKey(m.children);
    ListedLength(m, call, ids);
    MatchedExist(b, call, m);
    NamesAt(call.plan.children, ids, byKey);
    P.IdsOfKeys(call.plan.children, byKey, ids);
    P.ReboundMeans(b, call, byKey, |call.plan.children|);
    RowsListed(b, call.plan, byKey, ids);
  }

  lemma NamesAt(children: seq<FP.Child>, ids: seq<TaskId>, byKey: map<JsString, TaskId>)
    requires Names(children, ids, byKey)
    ensures |ids| == |children| && forall c :: c in children ==> c.key in byKey
    ensures forall i :: 0 <= i < |ids| ==> children[i].key in byKey && byKey[children[i].key] == ids[i]
  {
  }

  lemma MatchedExist(b: Board, call: Call, m: Marker)
    requires Materialized(b, call, m)
    ensures var byKey := IdByKey(m.children);
            forall c :: c in call.plan.children ==> c.key in byKey && byKey[c.key] in b.tasks
  {
    hide IdByKey, KnownDependencies, SubtasksOf;
  }
}
