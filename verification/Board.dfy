/** The kanban board as far as fan-out uses it, and the store operations on it. */
module Board {
  import opened JsStrings
  import opened Wrappers

  type TaskId = JsString
  type OrchestratorId = JsString

  datatype Task = Task(title: JsString, body: JsString, tenant: JsString, profile: JsString, status: JsString, updatedAt: nat)
  datatype LinkType = Subtask | DependsOn
  datatype Link = Link(parentId: TaskId, childId: TaskId, linkType: LinkType)
  datatype Role = Primary | Collaborator | Observer
  datatype Session = Session(orchestratorId: OrchestratorId, generation: int, active: bool)
  datatype ChildTask = ChildTask(key: JsString, taskId: TaskId)

  datatype Marker = Marker(
    parentTaskId: TaskId,
    planHash: JsString,
    orchestratorId: OrchestratorId,
    sessionId: JsString,
    generation: int,
    children: seq<ChildTask>)

  /** A fanout_plan_applied event; the payload is None when it is not a marker. */
  datatype AuthorityEvent = AuthorityEvent(taskId: TaskId, payload: Option<Marker>)

  /** Links are unique rows; bindings are those not released. */
  datatype Board = Board(
    tasks: map<TaskId, Task>,
    links: set<Link>,
    bindings: map<(TaskId, OrchestratorId), Role>,
    events: seq<AuthorityEvent>,
    comments: seq<(TaskId, Marker)>,
    orchestrators: map<OrchestratorId, JsString>,
    sessions: map<JsString, Session>)

  /** Foreign keys: rows refer to existing tasks; ids are not empty. */
  predicate ValidBoard(b: Board) {
    && (forall l :: l in b.links ==> l.parentId in b.tasks && l.childId in b.tasks)
    && (forall k :: k in b.bindings ==> k.0 in b.tasks)
    && (forall t :: t in b.tasks ==> t != [])
    && (forall o :: o in b.orchestrators ==> o != [])
    && (forall s :: s in b.sessions ==> s != [])
  }

  // ---- reachability over depends-on links ----

  predicate Step(links: set<Link>, a: TaskId, b: TaskId) { Link(a, b, DependsOn) in links }

  predicate Path(links: set<Link>, p: seq<TaskId>) {
    p != [] && forall k :: 0 <= k < |p| - 1 ==> Step(links, p[k], p[k + 1])
  }

  predicate PathFromTo(links: set<Link>, p: seq<TaskId>, a: TaskId, b: TaskId) {
    Path(links, p) && p[0] == a && p[|p| - 1] == b
  }

  ghost predicate Reaches(links: set<Link>, a: TaskId, b: TaskId) {
    exists p :: PathFromTo(links, p, a, b)
  }

  lemma ReachesSelf(links: set<Link>, a: TaskId)
    ensures Reaches(links, a, a)
  {
    assert PathFromTo(links, [a], a, a);
  }

  lemma ReachesStep(links: set<Link>, a: TaskId, b: TaskId, c: TaskId)
    requires Reaches(links, a, b) && Step(links, b, c)
    ensures Reaches(links, a, c)
  {
    var p :| PathFromTo(links, p, a, b);
    var q := p + [c];
    forall k | 0 <= k < |q| - 1 ensures Step(links, q[k], q[k + 1]) {
      if k < |p| - 1 { assert Step(links, p[k], p[k + 1]); }
    }
    assert PathFromTo(links, q, a, c);
  }

  /** A set closed under links holds everything its members reach. */
  lemma {:induction false} ClosedHoldsReachable(links: set<Link>, s: set<TaskId>, p: seq<TaskId>)
    requires Path(links, p) && p[0] in s && forall x, y :: x in s && Step(links, x, y) ==> y in s
    ensures p[|p| - 1] in s
    decreases |p|
  {
    if |p| > 1 {
      assert Step(links, p[0], p[1]);
      forall k | 0 <= k < |p[1..]| - 1 ensures Step(links, p[1..][k], p[1..][k + 1]) {
        assert Step(links, p[k + 1], p[k + 2]);
      }
      ClosedHoldsReachable(links, s, p[1..]);
    }
  }

  function Targets(links: set<Link>): set<TaskId> { set l | l in links :: l.childId }

  /** The children of a task, as rows in some order. */
  method ChildRows(links: set<Link>, current: TaskId) returns (rows: seq<TaskId>)
    ensures forall x :: x in rows <==> Step(links, current, x)
  {
    rows := [];
    var left := set l | l in links && l.parentId == current && l.linkType.DependsOn?;
    while left != {}
      invariant left <= links
      invariant forall l :: l in left ==> l.parentId == current && l.linkType.DependsOn?
      invariant forall x :: Step(links, current, x) <==> x in rows || Link(current, x, DependsOn) in left
      decreases left
    {
      var l :| l in left;
      assert l == Link(current, l.childId, DependsOn);
      rows := rows + [l.childId];
      left := left - {l};
    }
  }

  /** The depth-first search with a stack finds a path exactly when there is one. */
  method HasDependsOnPath(links: set<Link>, startId: TaskId, targetId: TaskId) returns (found: bool)
    ensures found <==> Reaches(links, startId, targetId)
  {
    hide Reaches, Step;
    var stack := [startId];
    var visited: set<TaskId> := {};
    ghost var universe := Targets(links) + {startId};
    ReachesSelf(links, startId);
    while stack != []
      invariant startId in visited || startId in stack
      invariant targetId !in visited
      invariant forall x :: x in visited || x in stack ==> x in universe && Reaches(links, startId, x)
      invariant forall x, y :: x in visited && Step(links, x, y) ==> y in visited || y in stack
      decreases universe - visited, |stack|
    {
      var currentId := stack[|stack| - 1];
      ghost var before := stack;
      stack := stack[..|stack| - 1];
      assert before == stack + [currentId];
      if currentId == targetId { return true; }
      if currentId in visited { continue; }
      visited := visited + {currentId};
      var rows := ChildRows(links, currentId);
      ghost var popped := stack;
      for i := 0 to |rows|
        invariant forall x :: x in stack ==> x in popped || (x in rows && x in universe && Reaches(links, startId, x))
        invariant forall x :: x in popped ==> x in stack
        invariant forall x :: x in rows[..i] ==> x in visited || x in stack
      {
        StepStays(links, currentId, rows[i]);
        ReachesStep(links, startId, currentId, rows[i]);
        if rows[i] !in visited {
          stack := stack + [rows[i]];
        }
        assert rows[..i + 1] == rows[..i] + [rows[i]];
      }
      assert rows[..|rows|] == rows;
    }
    NothingReached(links, visited, startId, targetId);
    return false;
  }

  lemma StepStays(links: set<Link>, a: TaskId, b: TaskId)
    requires Step(links, a, b)
    ensures b in Targets(links)
  {
  }

  lemma NothingReached(links: set<Link>, visited: set<TaskId>, a: TaskId, b: TaskId)
    requires a in visited && b !in visited && forall x, y :: x in visited && Step(links, x, y) ==> y in visited
    ensures !Reaches(links, a, b)
  {
    forall p | PathFromTo(links, p, a, b) ensures false {
      ClosedHoldsReachable(links, visited, p);
    }
  }

  // ---- the store keeps the depends-on links acyclic ----

  /** Linking `child` after `parent` is refused when it would close a cycle. */
  ghost predicate ClosesCycle(links: set<Link>, parentId: TaskId, childId: TaskId) {
    parentId == childId || Reaches(links, childId, parentId)
  }

  ghost predicate Acyclic(links: set<Link>) {
    forall x, y :: Step(links, x, y) ==> !Reaches(links, y, x)
  }

  lemma ReachesTransitive(links: set<Link>, a: TaskId, b: TaskId, c: TaskId)
    requires Reaches(links, a, b) && Reaches(links, b, c)
    ensures Reaches(links, a, c)
  {
    var p :| PathFromTo(links, p, a, b);
    var q :| PathFromTo(links, q, b, c);
    var r := p + q[1..];
    forall k | 0 <= k < |r| - 1 ensures Step(links, r[k], r[k + 1]) {
      if k < |p| - 1 { assert Step(links, p[k], p[k + 1]); }
      else { assert Step(links, q[k - |p| + 1], q[k - |p| + 2]); }
    }
    assert PathFromTo(links, r, a, c);
  }

  lemma ReachesMore(links: set<Link>, more: set<Link>, a: TaskId, b: TaskId)
    requires links <= more && Reaches(links, a, b)
    ensures Reaches(more, a, b)
  {
    var p :| PathFromTo(links, p, a, b);
    forall k | 0 <= k < |p| - 1 ensures Step(more, p[k], p[k + 1]) { assert Step(links, p[k], p[k + 1]); }
    assert PathFromTo(more, p, a, b);
  }

  lemma StepReaches(links: set<Link>, a: TaskId, b: TaskId)
    requires Step(links, a, b)
    ensures Reaches(links, a, b)
  {
    ReachesSelf(links, a);
    ReachesStep(links, a, a, b);
  }

  /** A path that may use one new link from `a` to `b`, which does not close a cycle, uses it at most once. */
  lemma {:induction false} PathWithNewLink(links: set<Link>, a: TaskId, b: TaskId, p: seq<TaskId>)
    requires !Reaches(links, b, a) && Path(links + {Link(a, b, DependsOn)}, p)
    ensures Reaches(links, p[0], p[|p| - 1]) || (Reaches(links, p[0], a) && Reaches(links, b, p[|p| - 1]))
    decreases |p|
  {
    hide Reaches;
    var more := links + {Link(a, b, DependsOn)};
    if |p| == 1 {
      ReachesSelf(links, p[0]);
    } else {
      assert Step(more, p[0], p[1]);
      forall k | 0 <= k < |p[1..]| - 1 ensures Step(more, p[1..][k], p[1..][k + 1]) {
        assert Step(more, p[k + 1], p[k + 2]);
      }
      PathWithNewLink(links, a, b, p[1..]);
      if Step(links, p[0], p[1]) {
        StepReaches(links, p[0], p[1]);
        if Reaches(links, p[1], p[|p| - 1]) { ReachesTransitive(links, p[0], p[1], p[|p| - 1]); }
        else { ReachesTransitive(links, p[0], p[1], a); }
      } else {
        ReachesSelf(links, a);
      }
    }
  }

  lemma NewLinkReaches(links: set<Link>, a: TaskId, b: TaskId, x: TaskId, y: TaskId)
    requires !Reaches(links, b, a) && Reaches(links + {Link(a, b, DependsOn)}, x, y)
    ensures Reaches(links, x, y) || (Reaches(links, x, a) && Reaches(links, b, y))
  {
    var p :| PathFromTo(links + {Link(a, b, DependsOn)}, p, x, y);
    PathWithNewLink(links, a, b, p);
  }

  /** Every link the store accepts keeps the links acyclic. */
  lemma LinkKeepsAcyclic(links: set<Link>, e: Link)
    requires Acyclic(links) && !(e.linkType.DependsOn? && ClosesCycle(links, e.parentId, e.childId))
    ensures Acyclic(links + {e})
  {
    hide Reaches;
    var more := links + {e};
    if e.linkType.Subtask? {
      SameStepsAcyclic(links, more);
    } else {
      var a, b := e.parentId, e.childId;
      assert more == links + {Link(a, b, DependsOn)};
      forall x, y | Step(more, x, y) ensures !Reaches(more, y, x) {
        if Reaches(more, y, x) {
          NewLinkReaches(links, a, b, y, x);
          if Step(links, x, y) {
            StepReaches(links, x, y);
            if !Reaches(links, y, x) {
              ReachesTransitive(links, b, x, y);
              ReachesTransitive(links, b, y, a);
            }
          }
        }
      }
    }
  }

  lemma SameStepsAcyclic(links: set<Link>, more: set<Link>)
    requires Acyclic(links) && forall x, y :: Step(more, x, y) ==> Step(links, x, y)
    ensures Acyclic(more)
  {
    forall x, y | Step(more, x, y) ensures !Reaches(more, y, x) {
      forall p | PathFromTo(more, p, y, x) ensures false {
        forall k | 0 <= k < |p| - 1 ensures Step(links, p[k], p[k + 1]) { assert Step(more, p[k], p[k + 1]); }
        assert PathFromTo(links, p, y, x);
      }
    }
  }

  lemma FewerLinksAcyclic(links: set<Link>, more: set<Link>)
    requires links <= more && Acyclic(more)
    ensures Acyclic(links)
  {
    SameStepsAcyclic(more, links);
  }

  function LinkSet(edges: seq<Link>): set<Link> { set e | e in edges }

  /** Linking one after the other; None when the store refuses one. */
  ghost function LinkAll(links: set<Link>, edges: seq<Link>): Option<set<Link>> {
    if edges == [] then Some(links)
    else
      var done, e := LinkAll(links, edges[..|edges| - 1]), edges[|edges| - 1];
      if done.None? || (e.linkType.DependsOn? && ClosesCycle(done.value, e.parentId, e.childId)) then None
      else Some(done.value + {e})
  }

  /** Linking in any order succeeds exactly when all links together are acyclic. */
  lemma {:induction false} LinkAllExact(links: set<Link>, edges: seq<Link>)
    requires Acyclic(links)
    ensures LinkAll(links, edges).Some? <==> Acyclic(links + LinkSet(edges))
    ensures LinkAll(links, edges).Some? ==> LinkAll(links, edges).value == links + LinkSet(edges)
    decreases |edges|
  {
    hide Reaches, Acyclic;
    if edges == [] {
      assert links + LinkSet(edges) == links;
    } else {
      var init, e := edges[..|edges| - 1], edges[|edges| - 1];
      LinkAllExact(links, init);
      assert edges == init + [e];
      var before, after := links + LinkSet(init), links + LinkSet(edges);
      assert after == before + {e};
      if LinkAll(links, edges).Some? { LinkKeepsAcyclic(before, e); }
      if Acyclic(after) {
        FewerLinksAcyclic(before, after);
        if e.linkType.DependsOn? { AcyclicLinkAccepted(before, e); }
      }
    }
  }

  lemma AcyclicLinkAccepted(links: set<Link>, e: Link)
    requires Acyclic(links + {e}) && e.linkType.DependsOn?
    ensures !ClosesCycle(links, e.parentId, e.childId)
  {
    hide Reaches;
    assert Step(links + {e}, e.parentId, e.childId);
    if Reaches(links, e.childId, e.parentId) { ReachesMore(links, links + {e}, e.childId, e.parentId); }
    if e.parentId == e.childId { ReachesSelf(links + {e}, e.parentId); }
  }

  // ---- store operations on a board ----

  class KanbanStore {
    var board: Board

    constructor (board: Board)
      ensures this.board == board
    {
      this.board := board;
    }

    /** `id` stands for the random id the store draws until it is unused; `bodyAllowed` says that the body's verify
        directive is not a reserved word. */
    method CreateTask(task: Task, id: TaskId, bodyAllowed: bool) returns (accepted: bool)
      requires id !in board.tasks
      modifies this
      ensures accepted <==> bodyAllowed
      ensures board == if accepted then old(board).(tasks := old(board).tasks[id := task]) else old(board)
    {
      if !bodyAllowed { return false; }
      board := board.(tasks := board.tasks[id := task]);
      return true;
    }

    method LinkTasks(parentId: TaskId, childId: TaskId, linkType: LinkType) returns (accepted: bool)
      modifies this
      ensures accepted <==> parentId in old(board).tasks && childId in old(board).tasks
                            && !(linkType.DependsOn? && ClosesCycle(old(board).links, parentId, childId))
      ensures board == if accepted then old(board).(links := old(board).links + {Link(parentId, childId, linkType)}) else old(board)
    {
      if linkType.DependsOn? {
        if parentId == childId { return false; }
        var path := HasDependsOnPath(board.links, childId, parentId);
        if path { return false; }
      }
      if parentId !in board.tasks || childId !in board.tasks { return false; }
      board := board.(links := board.links + {Link(parentId, childId, linkType)});
      return true;
    }

    method BindTaskToOrchestrator(taskId: TaskId, orchestratorId: OrchestratorId, role: Role) returns (accepted: bool)
      modifies this
      ensures accepted <==> taskId in old(board).tasks && orchestratorId in old(board).orchestrators
      ensures board == if accepted then old(board).(bindings := old(board).bindings[(taskId, orchestratorId) := role]) else old(board)
    {
      if taskId !in board.tasks || orchestratorId !in board.orchestrators { return false; }
      accepted := true;
      board := board.(bindings := board.bindings[(taskId, orchestratorId) := role]);
    }

    method AddComment(taskId: TaskId, marker: Marker)
      modifies this
      ensures board == old(board).(comments := old(board).comments + [(taskId, marker)])
    {
      board := board.(comments := board.comments + [(taskId, marker)]);
    }

    method AddEvent(taskId: TaskId, marker: Marker)
      modifies this
      ensures board == old(board).(events := old(board).events + [AuthorityEvent(taskId, Some(marker))])
    {
      board := board.(events := board.events + [AuthorityEvent(taskId, Some(marker))]);
    }
  }
}
