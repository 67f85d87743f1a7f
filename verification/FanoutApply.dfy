/** Applying an approved fan-out plan to the board: once, and converging on retry. */
module FanoutApply {
  import opened JsStrings
  import opened Wrappers
  import opened Board
  import Body = FanoutParentBody
  import FP = FanoutPlan

  /** SHA-256 of a text's UTF-8 bytes, JSON.parse of a plan text, and whether the store allows the verify directive of a
      task body. */
  datatype Externals = Externals(sha: JsString -> JsString, read: JsString -> Option<FP.Plan>, verifyAllowed: JsString -> bool)

  datatype Call = Call(
    plan: FP.Plan,
    canonicalJson: JsString,
    planHash: JsString,
    innerPlanHash: JsString,
    approvedPlanHash: JsString,
    orchestratorId: OrchestratorId,
    sessionId: JsString,
    generation: int)

  datatype Row = Row(key: JsString, taskId: TaskId, task: Task)
  datatype Applied = Applied(applied: bool, children: seq<Row>)
  datatype Outcome = Outcome(board: Board, result: Option<Applied>)

  /** What the store draws for new tasks: unused ids, and the clock. */
  datatype Draw = Draw(ids: seq<TaskId>, now: nat)

  predicate Fresh(b: Board, d: Draw, n: nat) {
    |d.ids| == n && (forall i :: 0 <= i < n ==> d.ids[i] != [] && d.ids[i] !in b.tasks)
    && forall i, j :: 0 <= i < j < n ==> d.ids[i] != d.ids[j]
  }

  // ---- fences ----

  predicate ApprovalFence(h: Externals, call: Call) {
    && FP.Sha256(call.approvedPlanHash) && call.approvedPlanHash == call.planHash
    && h.sha(call.canonicalJson) == call.planHash && call.innerPlanHash == call.planHash
    && h.read(call.canonicalJson) == Some(call.plan) && call.generation > 0
  }

  function PrimaryOwners(b: Board, t: TaskId): set<OrchestratorId> {
    set k | k in b.bindings && k.0 == t && b.bindings[k].Primary? :: k.1
  }

  predicate OrchestratorFence(b: Board, call: Call) {
    && call.orchestratorId in b.orchestrators && b.orchestrators[call.orchestratorId] == call.plan.repoCommonDir
    && call.sessionId in b.sessions
    && b.sessions[call.sessionId] == Session(call.orchestratorId, call.generation, true)
    && PrimaryOwners(b, call.plan.parentTaskId) == {call.orchestratorId}
  }

  predicate ParentSnapshot(h: Externals, b: Board, plan: FP.Plan) {
    && plan.parentTaskId in b.tasks && plan.parentSnapshot.taskId == plan.parentTaskId
    && plan.parentSnapshot.updatedAt == b.tasks[plan.parentTaskId].updatedAt
    && plan.parentSnapshot.bodyHash == h.sha(Body.Normalize(b.tasks[plan.parentTaskId].body))
  }

  // ---- authority events ----

  function EventsOf(events: seq<AuthorityEvent>, t: TaskId): seq<AuthorityEvent> {
    if events == [] then []
    else
      var e := events[|events| - 1];
      EventsOf(events[..|events| - 1], t) + (if e.taskId == t then [e] else [])
  }

  function KeysOf(children: seq<ChildTask>): set<JsString> { set c | c in children :: c.key }
  function IdsOf(children: seq<ChildTask>): set<TaskId> { set c | c in children :: c.taskId }

  predicate MarkerSchema(m: Marker) {
    && m.parentTaskId != [] && FP.Sha256(m.planHash) && m.orchestratorId != [] && m.sessionId != [] && m.generation > 0
    && m.children != [] && forall c :: c in m.children ==> c.key != [] && c.taskId != []
  }

  /** parseAuthority: None when the event is refused. */
  function ParseAuthority(payload: Option<Marker>): Option<Marker> {
    if payload.Some? && MarkerSchema(payload.value) && |KeysOf(payload.value.children)| == |payload.value.children|
       && |IdsOf(payload.value.children)| == |payload.value.children|
    then payload else None
  }

  /** Whether the parent has no authority event, one that can be read, or anything else. */
  datatype Authority = Absent | Marked(marker: Marker) | Refused

  function FindAuthority(b: Board, t: TaskId): Authority {
    var events := EventsOf(b.events, t);
    if events == [] then Absent
    else if |events| > 1 || ParseAuthority(events[0].payload).None? then Refused
    else Marked(ParseAuthority(events[0].payload).value)
  }

  // ---- the retry ----

  const CWD: JsString := Ascii("cwd: ")
  const TODO: JsString := Ascii("todo")
  const MATERIALIZED: set<JsString> :=
    {TODO, Ascii("ready"), Ascii("blocked"), Ascii("review"), Ascii("needs-integration"), Ascii("done"), Ascii("archived")}

  function ChildBody(c: FP.Child): JsString { CWD + c.worktree + [Body.LF, Body.LF] + c.body }

  /** new Map over [key, taskId] pairs: the last of a key wins. */
  function IdByKey(children: seq<ChildTask>): (m: map<JsString, TaskId>)
    ensures m.Keys == KeysOf(children)
  {
    if children == [] then map[]
    else
      var last := children[|children| - 1];
      assert children == children[..|children| - 1] + [last];
      IdByKey(children[..|children| - 1])[last.key := last.taskId]
  }

  function SubtasksOf(links: set<Link>, t: TaskId): set<TaskId> {
    set l | l in links && l.linkType.Subtask? && l.parentId == t :: l.childId
  }

  function ParentsOf(links: set<Link>, t: TaskId): set<TaskId> {
    set l | l in links && l.linkType.Subtask? && l.childId == t :: l.parentId
  }

  /** The depends-on links at some of the tasks. */
  function DependenciesAt(links: set<Link>, ids: set<TaskId>): set<Link> {
    set l | l in links && l.linkType.DependsOn? && (l.parentId in ids || l.childId in ids)
  }

  /** Every dependency names a child with a task. */
  predicate KnownDependencies(children: seq<FP.Child>, byKey: map<JsString, TaskId>) {
    forall c, d :: c in children && d in c.dependsOn ==> c.key in byKey && d in byKey
  }

  function ExpectedDependencies(children: seq<FP.Child>, byKey: map<JsString, TaskId>): set<Link>
    requires KnownDependencies(children, byKey)
  {
    set c, d | c in children && d in c.dependsOn :: Link(byKey[d], byKey[c.key], DependsOn)
  }

  /** A child task is what the plan says, whatever its progress. */
  predicate ChildMatches(b: Board, call: Call, ids: set<TaskId>, c: FP.Child, t: TaskId) {
    && t in b.tasks && b.tasks[t].title == c.title && b.tasks[t].body == ChildBody(c)
    && b.tasks[t].tenant == c.tenant && b.tasks[t].profile == c.profile && b.tasks[t].status in MATERIALIZED
    && ParentsOf(b.links, t) == {call.plan.parentTaskId}
    && (forall l :: l in DependenciesAt(b.links, {t}) ==> l.parentId in ids && l.childId in ids)
    && PrimaryOwners(b, t) <= {call.orchestratorId}
  }

  predicate NamesChildren(plan: FP.Plan, byKey: map<JsString, TaskId>) {
    |byKey| == |plan.children| && forall c :: c in plan.children ==> c.key in byKey
  }

  predicate SameAuthority(call: Call, m: Marker) {
    m.parentTaskId == call.plan.parentTaskId && m.planHash == call.planHash && m.orchestratorId == call.orchestratorId
  }

  function ChildIds(children: seq<FP.Child>, byKey: map<JsString, TaskId>): set<TaskId>
    requires forall c :: c in children ==> c.key in byKey
  {
    set c | c in children :: byKey[c.key]
  }

  /** Every check of materializedResult. */
  predicate Materialized(b: Board, call: Call, m: Marker) {
    var byKey := IdByKey(m.children);
    && SameAuthority(call, m) && NamesChildren(call.plan, byKey)
    && SubtasksOf(b.links, call.plan.parentTaskId) == IdsOf(m.children)
    && (forall c :: c in call.plan.children ==> ChildMatches(b, call, IdsOf(m.children), c, byKey[c.key]))
    && KnownDependencies(call.plan.children, byKey)
    && DependenciesAt(b.links, ChildIds(call.plan.children, byKey)) == ExpectedDependencies(call.plan.children, byKey)
  }

  /** The first `n` children bound to the caller. */
  function Rebound(b: Board, call: Call, byKey: map<JsString, TaskId>, n: nat): Board
    requires n <= |call.plan.children| && NamesChildren(call.plan, byKey)
  {
    if n == 0 then b
    else
      var done := Rebound(b, call, byKey, n - 1);
      done.(bindings := done.bindings[(byKey[call.plan.children[n - 1].key], call.orchestratorId) := Primary])
  }

  function Rows(b: Board, plan: FP.Plan, byKey: map<JsString, TaskId>): seq<Row>
    requires forall c :: c in plan.children ==> c.key in byKey && byKey[c.key] in b.tasks
  {
    seq(|plan.children|, i requires 0 <= i < |plan.children| && plan.children[i] in plan.children =>
      Row(plan.children[i].key, byKey[plan.children[i].key], b.tasks[byKey[plan.children[i].key]]))
  }

  ghost function Retried(b: Board, call: Call, m: Marker): Outcome {
    if !Materialized(b, call, m) then Outcome(b, None)
    else
      var byKey := IdByKey(m.children);
      Outcome(Rebound(b, call, byKey, |call.plan.children|), Some(Applied(false, Rows(b, call.plan, byKey))))
  }

  // ---- the first application ----

  function NewTask(c: FP.Child, now: nat): Task { Task(c.title, ChildBody(c), c.tenant, c.profile, TODO, now) }

  /** The first `n` children created, linked under the parent and bound. */
  function Created(b: Board, call: Call, d: Draw, n: nat): Board
    requires n <= |call.plan.children| && n <= |d.ids|
  {
    if n == 0 then b
    else
      var done, id := Created(b, call, d, n - 1), d.ids[n - 1];
      done.(
        tasks := done.tasks[id := NewTask(call.plan.children[n - 1], d.now)],
        links := done.links + {Link(call.plan.parentTaskId, id, Subtask)},
        bindings := done.bindings[(id, call.orchestratorId) := Primary])
  }

  function ChildTasks(children: seq<FP.Child>, ids: seq<TaskId>): seq<ChildTask>
    requires |ids| == |children|
  {
    seq(|ids|, i requires 0 <= i < |ids| => ChildTask(children[i].key, ids[i]))
  }

  function DependencyLinks(c: FP.Child, byKey: map<JsString, TaskId>): seq<Link>
    requires forall d :: d in c.dependsOn ==> c.key in byKey && d in byKey
  {
    seq(|c.dependsOn|, i requires 0 <= i < |c.dependsOn| && c.dependsOn[i] in c.dependsOn =>
      Link(byKey[c.dependsOn[i]], byKey[c.key], DependsOn))
  }

  /** The links of all children in the order of the plan. */
  function AllDependencyLinks(children: seq<FP.Child>, byKey: map<JsString, TaskId>): seq<Link>
    requires KnownDependencies(children, byKey)
  {
    if children == [] then []
    else
      var init, last := children[..|children| - 1], children[|children| - 1];
      AllDependencyLinks(init, byKey) + DependencyLinks(last, byKey)
  }

  function NewMarker(call: Call, byKey: map<JsString, TaskId>): Marker
    requires forall c :: c in call.plan.children ==> c.key in byKey
  {
    Marker(call.plan.parentTaskId, call.planHash, call.orchestratorId, call.sessionId, call.generation,
      seq(|call.plan.children|, i requires 0 <= i < |call.plan.children| && call.plan.children[i] in call.plan.children =>
        ChildTask(call.plan.children[i].key, byKey[call.plan.children[i].key])))
  }

  /** What the first application leaves once its links are in. */
  function Finished(created: Board, links: set<Link>, call: Call, byKey: map<JsString, TaskId>): Board
    requires forall c :: c in call.plan.children ==> c.key in byKey
  {
    var m := NewMarker(call, byKey);
    created.(links := links, comments := created.comments + [(call.plan.parentTaskId, m)],
             events := created.events + [AuthorityEvent(call.plan.parentTaskId, Some(m))])
  }

  lemma {:induction false} CreatedHolds(b: Board, call: Call, d: Draw, n: nat)
    requires n <= |call.plan.children| && n <= |d.ids|
    ensures var after := Created(b, call, d, n);
            (forall t :: t in after.tasks <==> t in b.tasks || t in d.ids[..n])
            && after.events == b.events && after.comments == b.comments && after.orchestrators == b.orchestrators
  {
    if n > 0 {
      CreatedHolds(b, call, d, n - 1);
      assert d.ids[..n] == d.ids[..n - 1] + [d.ids[n - 1]];
    }
  }

  lemma {:induction false} IdsAreDrawn(children: seq<ChildTask>)
    ensures forall k :: k in IdByKey(children) ==> IdByKey(children)[k] in IdsOf(children)
    decreases |children|
  {
    if children != [] {
      IdsAreDrawn(children[..|children| - 1]);
      assert children == children[..|children| - 1] + [children[|children| - 1]];
    }
  }

  lemma RowsDefined(b: Board, call: Call, d: Draw)
    requires |d.ids| == |call.plan.children|
    ensures var byKey := IdByKey(ChildTasks(call.plan.children, d.ids));
            forall c :: c in call.plan.children ==>
              c.key in byKey && byKey[c.key] in Created(b, call, d, |d.ids|).tasks
  {
    var made := ChildTasks(call.plan.children, d.ids);
    CreatedHolds(b, call, d, |d.ids|);
    IdsAreDrawn(made);
    forall c | c in call.plan.children ensures c.key in KeysOf(made) {
      var i :| 0 <= i < |call.plan.children| && call.plan.children[i] == c;
      assert made[i] in made;
    }
    forall t | t in IdsOf(made) ensures t in d.ids[..|d.ids|] {
    }
  }

  /** The store would create a task for every child. */
  predicate BodiesAllowed(h: Externals, children: seq<FP.Child>) {
    forall c :: c in children ==> h.verifyAllowed(ChildBody(c))
  }

  ghost function FirstApplied(h: Externals, b: Board, call: Call, d: Draw): Outcome
    requires |d.ids| == |call.plan.children|
  {
    if !ParentSnapshot(h, b, call.plan) || SubtasksOf(b.links, call.plan.parentTaskId) != {} then Outcome(b, None)
    else if !BodiesAllowed(h, call.plan.children) then Outcome(b, None)
    else
      var created := Created(b, call, d, |d.ids|);
      var byKey := IdByKey(ChildTasks(call.plan.children, d.ids));
      RowsDefined(b, call, d);
      if !KnownDependencies(call.plan.children, byKey) then Outcome(b, None)
      else
        var links := LinkAll(created.links, AllDependencyLinks(call.plan.children, byKey));
        if links.None? then Outcome(b, None)
        else Outcome(Finished(created, links.value, call, byKey), Some(Applied(true, Rows(created, call.plan, byKey))))
  }

  /** applyFanoutPlan. */
  ghost function ApplyTo(h: Externals, b: Board, call: Call, d: Draw): Outcome
    requires |d.ids| == |call.plan.children|
  {
    if !ApprovalFence(h, call) || !OrchestratorFence(b, call) then Outcome(b, None)
    else
      match FindAuthority(b, call.plan.parentTaskId)
      case Refused => Outcome(b, None)
      case Marked(m) => Retried(b, call, m)
      case Absent => FirstApplied(h, b, call, d)
  }

  // ---- the steps on the store ----

  lemma {:induction false} ReboundOwners(b: Board, call: Call, byKey: map<JsString, TaskId>, n: nat, t: TaskId)
    requires n <= |call.plan.children| && NamesChildren(call.plan, byKey)
    ensures var after := Rebound(b, call, byKey, n);
            && PrimaryOwners(after, t) - {call.orchestratorId} == PrimaryOwners(b, t) - {call.orchestratorId}
            && after == b.(bindings := after.bindings)
  {
    if n > 0 { ReboundOwners(b, call, byKey, n - 1, t); }
  }

  lemma MatchUnbound(b: Board, call: Call, byKey: map<JsString, TaskId>, n: nat, ids: set<TaskId>, c: FP.Child, t: TaskId)
    requires n <= |call.plan.children| && NamesChildren(call.plan, byKey)
    ensures ChildMatches(Rebound(b, call, byKey, n), call, ids, c, t) <==> ChildMatches(b, call, ids, c, t)
    ensures ChildMatches(b, call, ids, c, t) ==> t in b.tasks
  {
    hide Rebound, PrimaryOwners, NamesChildren;
    ReboundOwners(b, call, byKey, n, t);
    OnlyOwner(PrimaryOwners(b, t), PrimaryOwners(Rebound(b, call, byKey, n), t), call.orchestratorId);
  }

  lemma OnlyOwner(a: set<OrchestratorId>, b: set<OrchestratorId>, o: OrchestratorId)
    requires a - {o} == b - {o}
    ensures a <= {o} <==> b <= {o}
  {
    assert a <= {o} <==> a - {o} == {};
    assert b <= {o} <==> b - {o} == {};
  }

  lemma ReboundNext(b: Board, call: Call, byKey: map<JsString, TaskId>, n: nat)
    requires n < |call.plan.children| && NamesChildren(call.plan, byKey)
    ensures Rebound(b, call, byKey, 0) == b
    ensures var done := Rebound(b, call, byKey, n);
            Rebound(b, call, byKey, n + 1)
            == done.(bindings := done.bindings[(byKey[call.plan.children[n].key], call.orchestratorId) := Primary])
  {
  }

  lemma ReboundNone(b: Board, call: Call, byKey: map<JsString, TaskId>)
    requires NamesChildren(call.plan, byKey)
    ensures Rebound(b, call, byKey, 0) == b
  {
  }

  lemma ObservedNone(links: set<Link>, children: seq<FP.Child>, byKey: map<JsString, TaskId>)
    ensures DependenciesAt(links, ChildIds(children[..0], byKey)) == {}
  {
  }

  lemma ObservedNext(links: set<Link>, children: seq<FP.Child>, byKey: map<JsString, TaskId>, i: nat)
    requires i < |children| && forall c :: c in children ==> c.key in byKey
    ensures DependenciesAt(links, ChildIds(children[..i + 1], byKey))
         == DependenciesAt(links, ChildIds(children[..i], byKey)) + DependenciesAt(links, {byKey[children[i].key]})
  {
    assert children[..i + 1] == children[..i] + [children[i]];
    assert ChildIds(children[..i + 1], byKey) == ChildIds(children[..i], byKey) + {byKey[children[i].key]};
  }

  /** materializedResult: checks and rebinds child by child; the caller's transaction undoes a refusal. */
  method MaterializedResult(store: KanbanStore, call: Call, m: Marker) returns (r: Option<Applied>)
    requires call.orchestratorId in store.board.orchestrators
    modifies store
    ensures r.Some? <==> Materialized(old(store.board), call, m)
    ensures r.Some? ==> Outcome(store.board, r) == Retried(old(store.board), call, m)
  {
    hide ChildMatches, Rebound, DependenciesAt, SubtasksOf, IdsOf, SameAuthority, KnownDependencies, ExpectedDependencies, IdByKey, PrimaryOwners,
      ParentsOf;
    ghost var b := store.board;
    var plan := call.plan;
    if !SameAuthority(call, m) { return None; }
    var byKey := IdByKey(m.children);
    if !NamesChildren(plan, byKey) { return None; }
    var ids := IdsOf(m.children);
    if SubtasksOf(store.board.links, plan.parentTaskId) != ids { return None; }
    var rows: seq<Row> := [];
    var observed: set<Link> := {};
    ReboundNone(b, call, byKey);
    ObservedNone(b.links, plan.children, byKey);
    for i := 0 to |plan.children|
      invariant store.board == Rebound(b, call, byKey, i) && store.board == b.(bindings := store.board.bindings)
      invariant forall k :: 0 <= k < i ==> ChildMatches(b, call, ids, plan.children[k], byKey[plan.children[k].key])
      invariant forall k :: 0 <= k < i ==> byKey[plan.children[k].key] in b.tasks
      invariant |rows| == i && forall k :: 0 <= k < i ==>
        rows[k] == Row(plan.children[k].key, byKey[plan.children[k].key], b.tasks[byKey[plan.children[k].key]])
      invariant observed == DependenciesAt(b.links, ChildIds(plan.children[..i], byKey))
    {
      var c := plan.children[i];
      var t := byKey[c.key];
      MatchUnbound(b, call, byKey, i, ids, c, t);
      if !ChildMatches(store.board, call, ids, c, t) { return None; }
      rows := rows + [Row(c.key, t, store.board.tasks[t])];
      observed := observed + DependenciesAt(store.board.links, {t});
      ObservedNext(b.links, plan.children, byKey, i);
      ReboundNext(b, call, byKey, i);
      var bound := store.BindTaskToOrchestrator(t, call.orchestratorId, Primary);
    }
    assert plan.children[..|plan.children|] == plan.children;
    if !KnownDependencies(plan.children, byKey) { return None; }
    if observed != ExpectedDependencies(plan.children, byKey) { return None; }
    r := Some(Applied(false, rows));
    assert rows == Rows(b, plan, byKey);
  }

  lemma CreatedNext(b: Board, call: Call, d: Draw, n: nat)
    requires n < |call.plan.children| == |d.ids|
    ensures Created(b, call, d, 0) == b
    ensures var done, id := Created(b, call, d, n), d.ids[n];
            Created(b, call, d, n + 1) == done.(
              tasks := done.tasks[id := NewTask(call.plan.children[n], d.now)],
              links := done.links + {Link(call.plan.parentTaskId, id, Subtask)},
              bindings := done.bindings[(id, call.orchestratorId) := Primary])
  {
  }

  lemma ByKeyNext(children: seq<FP.Child>, ids: seq<TaskId>, n: nat)
    requires n < |children| == |ids|
    ensures IdByKey(ChildTasks(children[..n + 1], ids[..n + 1])) == IdByKey(ChildTasks(children[..n], ids[..n]))[children[n].key := ids[n]]
  {
    var made := ChildTasks(children[..n + 1], ids[..n + 1]);
    assert made[..n] == ChildTasks(children[..n], ids[..n]);
  }

  /** The first loop: every child becomes a task under the parent, bound to the caller, unless the store refuses a body. */
  method CreateChildren(store: KanbanStore, h: Externals, call: Call, d: Draw) returns (r: Option<map<JsString, TaskId>>)
    requires Fresh(store.board, d, |call.plan.children|)
    requires call.plan.parentTaskId in store.board.tasks && call.orchestratorId in store.board.orchestrators
    modifies store
    ensures r.Some? <==> BodiesAllowed(h, call.plan.children)
    ensures r.Some? ==> store.board == Created(old(store.board), call, d, |d.ids|)
                        && r.value == IdByKey(ChildTasks(call.plan.children, d.ids))
  {
    hide Created, NewTask, IdByKey, ChildTasks, ChildBody;
    ghost var b := store.board;
    var children := call.plan.children;
    var taskByKey := map[];
    NoneCreated(b, call, d);
    for i := 0 to |children|
      invariant forall k :: 0 <= k < i ==> h.verifyAllowed(ChildBody(children[k]))
      invariant store.board == Created(b, call, d, i)
      invariant taskByKey == IdByKey(ChildTasks(children[..i], d.ids[..i]))
    {
      CreatedHolds(b, call, d, i);
      CreatedNext(b, call, d, i);
      ByKeyNext(children, d.ids, i);
      var made := store.CreateTask(NewTask(children[i], d.now), d.ids[i], h.verifyAllowed(ChildBody(children[i])));
      if !made {
        assert children[i] in children;
        return None;
      }
      var linked := store.LinkTasks(call.plan.parentTaskId, d.ids[i], Subtask);
      var bound := store.BindTaskToOrchestrator(d.ids[i], call.orchestratorId, Primary);
      taskByKey := taskByKey[children[i].key := d.ids[i]];
    }
    assert children[..|children|] == children && d.ids[..|children|] == d.ids;
    return Some(taskByKey);
  }

  lemma NoneCreated(b: Board, call: Call, d: Draw)
    requires |d.ids| == |call.plan.children|
    ensures Created(b, call, d, 0) == b
    ensures IdByKey(ChildTasks(call.plan.children[..0], d.ids[..0])) == map[]
  {
  }

  lemma {:induction false} LinkAllPrefix(links: set<Link>, done: seq<Link>, left: seq<Link>)
    ensures LinkAll(links, done + left).Some? ==> LinkAll(links, done).Some?
    decreases |left|
  {
    hide ClosesCycle;
    if left == [] {
      assert done + left == done;
    } else {
      var shorter := left[..|left| - 1];
      LinkAllPrefix(links, done, shorter);
      assert (done + left)[..|done + left| - 1] == done + shorter;
    }
  }

  lemma LinkAllNext(links: set<Link>, done: seq<Link>, e: Link)
    requires LinkAll(links, done).Some? && e.linkType.DependsOn?
    ensures var at := LinkAll(links, done).value;
            LinkAll(links, done + [e]) == if ClosesCycle(at, e.parentId, e.childId) then None else Some(at + {e})
  {
    hide ClosesCycle;
    assert (done + [e])[..|done|] == done;
  }

  lemma {:induction false} LinksPrefix(children: seq<FP.Child>, byKey: map<JsString, TaskId>, i: nat)
    requires i <= |children| && KnownDependencies(children, byKey)
    ensures KnownDependencies(children[..i], byKey)
    ensures AllDependencyLinks(children[..i], byKey) <= AllDependencyLinks(children, byKey)
    decreases |children| - i
  {
    if i == |children| {
      assert children[..i] == children;
    } else {
      LinksPrefix(children, byKey, i + 1);
      assert children[..i + 1][..i] == children[..i];
    }
  }

  /** A refused link refuses the whole list. */
  lemma RefusedEarly(links: set<Link>, done: seq<Link>, whole: seq<Link>)
    requires done <= whole && LinkAll(links, done).None?
    ensures LinkAll(links, whole).None?
  {
    LinkAllPrefix(links, done, whole[|done|..]);
    assert done + whole[|done|..] == whole;
  }

  predicate KnownUpTo(c: FP.Child, byKey: map<JsString, TaskId>, k: nat)
    requires k <= |c.dependsOn|
  {
    forall d :: d in c.dependsOn[..k] ==> c.key in byKey && d in byKey
  }

  /** The links of the children before `i` and the first `k` of child `i`. */
  function LinksUpTo(children: seq<FP.Child>, byKey: map<JsString, TaskId>, i: nat, k: nat): seq<Link>
    requires i < |children| && k <= |children[i].dependsOn| && KnownDependencies(children[..i], byKey)
    requires KnownUpTo(children[i], byKey, k)
  {
    AllDependencyLinks(children[..i], byKey)
    + seq(k, n requires 0 <= n < k && children[i].dependsOn[..k][n] in children[i].dependsOn[..k] =>
        Link(byKey[children[i].dependsOn[n]], byKey[children[i].key], DependsOn))
  }

  lemma KnownFewer(c: FP.Child, byKey: map<JsString, TaskId>, k: nat)
    requires k < |c.dependsOn| && KnownUpTo(c, byKey, k + 1)
    ensures KnownUpTo(c, byKey, k) && c.dependsOn[k] in byKey && c.key in byKey
  {
    assert c.dependsOn[..k + 1] == c.dependsOn[..k] + [c.dependsOn[k]];
    assert c.dependsOn[k] in c.dependsOn[..k + 1];
    forall d | d in c.dependsOn[..k] ensures c.key in byKey && d in byKey { assert d in c.dependsOn[..k + 1]; }
  }

  lemma LinksUpToNext(children: seq<FP.Child>, byKey: map<JsString, TaskId>, i: nat, k: nat)
    requires i < |children| && k < |children[i].dependsOn| && KnownDependencies(children[..i], byKey)
    requires KnownUpTo(children[i], byKey, k + 1)
    ensures KnownUpTo(children[i], byKey, k) && children[i].dependsOn[k] in byKey && children[i].key in byKey
    ensures LinksUpTo(children, byKey, i, k + 1)
         == LinksUpTo(children, byKey, i, k) + [Link(byKey[children[i].dependsOn[k]], byKey[children[i].key], DependsOn)]
  {
    hide KnownDependencies, AllDependencyLinks;
    KnownFewer(children[i], byKey, k);
  }

  lemma LinksUpToPrefix(children: seq<FP.Child>, byKey: map<JsString, TaskId>, i: nat, k: nat)
    requires i < |children| && k <= |children[i].dependsOn| && KnownDependencies(children, byKey)
    requires KnownDependencies(children[..i], byKey) && KnownUpTo(children[i], byKey, k)
    ensures LinksUpTo(children, byKey, i, k) <= AllDependencyLinks(children, byKey)
  {
    LinksPrefix(children, byKey, i + 1);
    var some := children[..i + 1];
    assert some[..i] == children[..i];
    assert LinksUpTo(children, byKey, i, k) <= AllDependencyLinks(some, byKey);
  }

  lemma LinksUpToAll(children: seq<FP.Child>, byKey: map<JsString, TaskId>, i: nat)
    requires i < |children| && KnownDependencies(children[..i], byKey)
    requires forall d :: d in children[i].dependsOn ==> children[i].key in byKey && d in byKey
    ensures KnownDependencies(children[..i + 1], byKey)
    ensures children[i].dependsOn[..|children[i].dependsOn|] == children[i].dependsOn
    ensures LinksUpTo(children, byKey, i, |children[i].dependsOn|) == AllDependencyLinks(children[..i + 1], byKey)
  {
    assert children[..i + 1] == children[..i] + [children[i]];
    assert children[..i + 1][..i] == children[..i];
    assert children[i].dependsOn[..|children[i].dependsOn|] == children[i].dependsOn;
  }

  /** The second loop: every dependency becomes a link, unless it is unknown or the store refuses it. */
  method LinkDependencies(store: KanbanStore, children: seq<FP.Child>, byKey: map<JsString, TaskId>) returns (ok: bool)
    requires forall k :: k in byKey ==> byKey[k] in store.board.tasks
    modifies store
    ensures ok <==> KnownDependencies(children, byKey)
                    && LinkAll(old(store.board).links, AllDependencyLinks(children, byKey)).Some?
    ensures ok ==> store.board == old(store.board).(
                     links := LinkAll(old(store.board).links, AllDependencyLinks(children, byKey)).value)
  {
    hide LinkAll, ClosesCycle, AllDependencyLinks, LinksUpTo;
    ghost var b := store.board;
    NoLinks(b.links, byKey);
    assert children[..0] == [];
    for i := 0 to |children|
      invariant KnownDependencies(children[..i], byKey)
      invariant LinkAll(b.links, AllDependencyLinks(children[..i], byKey)) == Some(store.board.links)
      invariant store.board == b.(links := store.board.links)
    {
      var c := children[i];
      assert c in children;
      LinksUpToNone(children, byKey, i);
      for k := 0 to |c.dependsOn|
        invariant KnownUpTo(c, byKey, k)
        invariant LinkAll(b.links, LinksUpTo(children, byKey, i, k)) == Some(store.board.links)
        invariant store.board == b.(links := store.board.links)
      {
        assert c.dependsOn[k] in c.dependsOn;
        if c.key !in byKey || c.dependsOn[k] !in byKey { return false; }
        assert c.dependsOn[..k + 1] == c.dependsOn[..k] + [c.dependsOn[k]];
        LinksUpToNext(children, byKey, i, k);
        LinkAllNext(b.links, LinksUpTo(children, byKey, i, k), Link(byKey[c.dependsOn[k]], byKey[c.key], DependsOn));
        var linked := store.LinkTasks(byKey[c.dependsOn[k]], byKey[c.key], DependsOn);
        if !linked {
          if KnownDependencies(children, byKey) {
            LinksUpToPrefix(children, byKey, i, k + 1);
            RefusedEarly(b.links, LinksUpTo(children, byKey, i, k + 1), AllDependencyLinks(children, byKey));
          }
          return false;
        }
      }
      assert c.dependsOn[..|c.dependsOn|] == c.dependsOn;
      LinksUpToAll(children, byKey, i);
    }
    assert children[..|children|] == children;
    return true;
  }

  lemma NoLinks(links: set<Link>, byKey: map<JsString, TaskId>)
    ensures LinkAll(links, AllDependencyLinks([], byKey)) == Some(links)
  {
  }

  lemma LinksUpToNone(children: seq<FP.Child>, byKey: map<JsString, TaskId>, i: nat)
    requires i < |children| && KnownDependencies(children[..i], byKey)
    ensures LinksUpTo(children, byKey, i, 0) == AllDependencyLinks(children[..i], byKey)
  {
  }

  lemma FenceHolds(h: Externals, b: Board, call: Call)
    requires OrchestratorFence(b, call)
    ensures call.orchestratorId in b.orchestrators
    ensures ParentSnapshot(h, b, call.plan) ==> call.plan.parentTaskId in b.tasks
  {
  }

  lemma IdsCreated(b: Board, call: Call, d: Draw)
    requires |d.ids| == |call.plan.children|
    ensures var byKey := IdByKey(ChildTasks(call.plan.children, d.ids));
            forall k :: k in byKey ==> byKey[k] in Created(b, call, d, |d.ids|).tasks
  {
    hide IdByKey;
    IdsAreDrawn(ChildTasks(call.plan.children, d.ids));
    CreatedHolds(b, call, d, |d.ids|);
  }

  /** applyFanoutPlan: a refusal leaves the board as it was. */
  method ApplyFanoutPlan(store: KanbanStore, h: Externals, call: Call, d: Draw) returns (r: Option<Applied>)
    requires Fresh(store.board, d, |call.plan.children|)
    modifies store
    ensures Outcome(store.board, r) == ApplyTo(h, old(store.board), call, d)
  {
    hide ApprovalFence, OrchestratorFence, Materialized, Created, LinkAll, KnownDependencies, AllDependencyLinks, ParentSnapshot, SubtasksOf,
      BodiesAllowed;
    if !ApprovalFence(h, call) { return None; }
    var before := store.board;
    if !OrchestratorFence(store.board, call) { return None; }
    match FindAuthority(store.board, call.plan.parentTaskId) {
      case Refused => return None;
      case Marked(m) =>
        FenceHolds(h, before, call);
        r := MaterializedResult(store, call, m);
      case Absent =>
        if !ParentSnapshot(h, store.board, call.plan) { return None; }
        if SubtasksOf(store.board.links, call.plan.parentTaskId) != {} { return None; }
        FenceHolds(h, before, call);
        var tasks := CreateChildren(store, h, call, d);
        if tasks.None? {
          r := None;
        } else {
          RowsDefined(before, call, d);
          IdsCreated(before, call, d);
          var created := store.board;
          var linked := LinkDependencies(store, call.plan.children, tasks.value);
          if linked {
            var marker := NewMarker(call, tasks.value);
            store.AddComment(call.plan.parentTaskId, marker);
            store.AddEvent(call.plan.parentTaskId, marker);
            r := Some(Applied(true, Rows(created, call.plan, tasks.value)));
          } else {
            r := None;
          }
        }
    }
    if r.None? { store.board := before; }
  }
}
