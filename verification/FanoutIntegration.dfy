/** The read-only gate before a fan-out's branches are integrated, and what a ready decision guarantees. */
module FanoutIntegration {
  import opened Ordering
  import opened JsStrings
  import opened Wrappers
  import opened FanoutPaths
  import B = Board
  import A = FanoutApply
  import FP = FanoutPlan
  import O = FanoutOwnership

  datatype TaskRow = TaskRow(id: B.TaskId, task: B.Task, completedAt: Option<int>)

  /** `reviewerPassed`: the run's meta is a reviewer's with a passed verification. */
  datatype Run = Run(id: int, taskId: B.TaskId, status: JsString, startedAt: int, endedAt: Option<int>, reviewerPassed: bool)

  datatype BoardEvidence = BoardEvidence(
    key: JsString,
    task: Option<TaskRow>,
    bindings: seq<(B.OrchestratorId, B.Role)>,
    runs: seq<Run>,
    links: seq<B.Link>)

  datatype GitEvidence = GitEvidence(
    key: JsString,
    worktree: JsString,
    registeredWorktree: Option<JsString>,
    repoCommonDir: JsString,
    branch: Option<JsString>,
    head: JsString,
    clean: bool,
    mainIsAncestor: bool,
    changedPaths: seq<JsString>)

  datatype Input = Input(
    call: A.Call,
    authority: Option<B.Marker>,
    orchestrator: Option<(B.OrchestratorId, JsString)>,
    session: Option<(JsString, B.Session)>,
    parentBindings: seq<(B.OrchestratorId, B.Role)>,
    children: seq<BoardEvidence>,
    repoCommonDir: JsString,
    objectFormat: JsString,
    mainRef: JsString,
    mainHead: JsString,
    mainHeadAfterProbe: JsString,
    gitChildren: seq<GitEvidence>)

  datatype ChildDecision = ChildDecision(
    key: JsString,
    taskId: B.TaskId,
    verificationRunId: int,
    branch: JsString,
    head: JsString,
    worktree: JsString,
    changedPaths: seq<JsString>)

  // ---- fences ----

  function PrimaryIds(bindings: seq<(B.OrchestratorId, B.Role)>): seq<B.OrchestratorId> {
    if bindings == [] then []
    else (if bindings[0].1.Primary? then [bindings[0].0] else []) + PrimaryIds(bindings[1..])
  }

  predicate CallerFence(input: Input) {
    var call := input.call;
    && call.generation > 0 && input.orchestrator == Some((call.orchestratorId, call.plan.repoCommonDir))
    && input.session == Some((call.sessionId, B.Session(call.orchestratorId, call.generation, true)))
    && PrimaryIds(input.parentBindings) == [call.orchestratorId]
  }

  predicate AuthorityNamesRequired(input: Input) {
    && input.authority.Some? && A.SameAuthority(input.call, input.authority.value)
    && |A.IdByKey(input.authority.value.children)| == |input.call.plan.requiredChildren|
    && forall key :: key in input.call.plan.requiredChildren ==> key in A.IdByKey(input.authority.value.children)
  }

  predicate Hex(s: JsString, n: nat) {
    |s| == n && forall i :: 0 <= i < n ==> 0x30 <= s[i] <= 0x39 || 0x61 <= s[i] <= 0x66
  }

  const SHA1: JsString := Ascii("sha1")
  const SHA256: JsString := Ascii("sha256")
  const DONE: JsString := Ascii("done")
  const RUNNING: JsString := Ascii("running")
  const HEADS: JsString := Ascii("refs/heads/")

  predicate ObjectFormat(format: JsString) { format == SHA1 || format == SHA256 }
  predicate ObjectId(format: JsString, id: JsString) { Hex(id, if format == SHA1 then 40 else 64) }

  predicate StableMain(input: Input) {
    && ObjectFormat(input.objectFormat) && input.repoCommonDir == input.call.plan.repoCommonDir
    && ObjectId(input.objectFormat, input.mainHead) && input.mainHeadAfterProbe == input.mainHead
  }

  predicate ExactEvidence(input: Input) {
    var n := |input.call.plan.requiredChildren|;
    && |input.children| == n == |input.gitChildren|
    && |set e | e in input.children :: e.key| == n == |set e | e in input.gitChildren :: e.key|
  }

  // ---- one child ----

  /** The first entry with the given key. */
  function Find<T>(entries: seq<T>, keyOf: T -> JsString, key: JsString): (r: Option<T>)
    ensures r.None? <==> forall e :: e in entries ==> keyOf(e) != key
    ensures r.Some? ==> r.value in entries && keyOf(r.value) == key
  {
    if entries == [] then None else if keyOf(entries[0]) == key then Some(entries[0]) else Find(entries[1..], keyOf, key)
  }

  function FindChild(children: seq<FP.Child>, key: JsString): (r: Option<FP.Child>) {
    Find(children, (c: FP.Child) => c.key, key)
  }

  function FindBoard(evidence: seq<BoardEvidence>, key: JsString): (r: Option<BoardEvidence>) {
    Find(evidence, (e: BoardEvidence) => e.key, key)
  }

  function FindGit(evidence: seq<GitEvidence>, key: JsString): (r: Option<GitEvidence>) {
    Find(evidence, (e: GitEvidence) => e.key, key)
  }

  predicate Later(a: Run, b: Run) { a.startedAt > b.startedAt || (a.startedAt == b.startedAt && a.id > b.id) }

  /** The head of the runs sorted by descending start and id. */
  function Latest(runs: seq<Run>): (r: Run)
    requires runs != []
    ensures r in runs && forall x :: x in runs ==> !Later(x, r)
  {
    if |runs| == 1 then runs[0]
    else
      var rest := Latest(runs[1..]);
      assert runs == [runs[0]] + runs[1..];
      if Later(rest, runs[0]) then rest else runs[0]
  }

  function SubtaskParents(links: seq<B.Link>, t: B.TaskId): seq<B.TaskId> {
    if links == [] then []
    else (if links[0].linkType.Subtask? && links[0].childId == t then [links[0].parentId] else []) + SubtaskParents(links[1..], t)
  }

  predicate DoneAsPlanned(input: Input, c: FP.Child, row: TaskRow) {
    row.task.title == c.title && row.task.body == A.ChildBody(c) && row.task.tenant == c.tenant && row.task.profile == c.profile
    && row.task.status == DONE && row.completedAt.Some?
  }

  predicate VerifiedRun(e: BoardEvidence, row: TaskRow) {
    e.runs != [] && (forall r :: r in e.runs ==> r.status != RUNNING)
    && var latest := Latest(e.runs);
      && latest.taskId == row.id && latest.status == DONE && latest.endedAt.Some?
      && row.completedAt.Some? && row.completedAt.value >= latest.endedAt.value && latest.reviewerPassed
  }

  /** assertBoardChild: the run that verified the child. */
  function BoardChild(input: Input, key: JsString, taskId: B.TaskId): Option<Run> {
    var c, e := FindChild(input.call.plan.children, key), FindBoard(input.children, key);
    if c.None? || e.None? || e.value.task.None? || e.value.task.value.id != taskId then None
    else
      var row := e.value.task.value;
      if DoneAsPlanned(input, c.value, row) && PrimaryIds(e.value.bindings) == [input.call.orchestratorId]
         && SubtaskParents(e.value.links, taskId) == [input.call.plan.parentTaskId] && VerifiedRun(e.value, row)
      then Some(Latest(e.value.runs))
      else None
  }

  predicate PathOwned(path: JsString, ownership: seq<JsString>) {
    && path != [] && 0 !in path && path[0] != SLASH && path != DOT && path != DOT_DOT
    && (forall i :: 0 <= i < |Split(path)| ==> Name(Split(path)[i]))
    && exists owned :: owned in ownership && IsSameOrDescendant(path, owned)
  }

  function BranchOf(mainRef: JsString): JsString {
    if HEADS <= mainRef then mainRef[|HEADS|..] else mainRef
  }

  /** assertGitChild: the evidence with its changed paths as a sorted set. */
  function GitChild(input: Input, key: JsString): Option<GitEvidence> {
    var c, e := FindChild(input.call.plan.children, key), FindGit(input.gitChildren, key);
    if c.None? || e.None? then None
    else
      var paths := FP.UniqueSorted(e.value.changedPaths);
      if e.value.worktree == c.value.worktree && e.value.registeredWorktree == Some(c.value.worktree)
         && e.value.repoCommonDir == input.call.plan.repoCommonDir
         && e.value.branch.Some? && e.value.branch.value != [] && e.value.branch.value != BranchOf(input.mainRef)
         && ObjectId(input.objectFormat, e.value.head) && e.value.clean && e.value.mainIsAncestor
         && forall p :: p in paths ==> PathOwned(p, c.value.ownership)
      then Some(e.value.(changedPaths := paths))
      else None
  }

  function Decide(input: Input, key: JsString, taskId: B.TaskId): Option<ChildDecision> {
    var board, git := BoardChild(input, key, taskId), GitChild(input, key);
    if board.None? || git.None? || git.value.branch.None? then None
    else
      var g := git.value;
      Some(ChildDecision(key, taskId, board.value.id, g.branch.value, g.head, g.worktree, g.changedPaths))
  }

  function Decisions(input: Input, required: seq<JsString>, byKey: map<JsString, B.TaskId>): Option<seq<ChildDecision>>
    requires forall key :: key in required ==> key in byKey
  {
    if required == [] then Some([])
    else
      var first, rest := Decide(input, required[0], byKey[required[0]]), Decisions(input, required[1..], byKey);
      if first.None? || rest.None? then None else Some([first.value] + rest.value)
  }

  // ---- dependencies ----

  function Lookup(byKey: map<JsString, B.TaskId>, key: JsString): Option<B.TaskId> {
    if key in byKey then Some(byKey[key]) else None
  }

  /** The pairs the plan expects, in the order of the plan; a name without a task has no id. */
  function ExpectedPairs(cs: seq<FP.Child>, byKey: map<JsString, B.TaskId>): seq<(Option<B.TaskId>, Option<B.TaskId>)> {
    if cs == [] then []
    else
      MapSeq(d => (Lookup(byKey, d), Lookup(byKey, cs[0].key)), cs[0].dependsOn) + ExpectedPairs(cs[1..], byKey)
  }

  function DependencyRows(es: seq<BoardEvidence>): set<B.Link> {
    set e, l | e in es && l in e.links && l.linkType.DependsOn? :: l
  }

  function PairSet(rows: set<B.Link>): set<(Option<B.TaskId>, Option<B.TaskId>)> {
    set l | l in rows :: (Some(l.parentId), Some(l.childId))
  }

  /** The observed links, as a sorted set, are the expected ones, as a sorted list. */
  predicate DependenciesAsPlanned(input: Input, byKey: map<JsString, B.TaskId>) {
    var rows, expected := DependencyRows(input.children), ExpectedPairs(input.call.plan.children, byKey);
    && (forall l :: l in rows ==> l.parentId in byKey.Values && l.childId in byKey.Values)
    && multiset(PairSet(rows)) == multiset(expected)
  }

  /** evaluateFanoutIntegrationGate: the children's decisions when ready. */
  function Gate(h: A.Externals, input: Input): Option<seq<ChildDecision>> {
    if !A.ApprovalFence(h, input.call) || !CallerFence(input) || !AuthorityNamesRequired(input) || !StableMain(input)
       || !ExactEvidence(input) then None
    else
      var byKey := A.IdByKey(input.authority.value.children);
      var decisions := Decisions(input, input.call.plan.requiredChildren, byKey);
      if decisions.None? || !DependenciesAsPlanned(input, byKey)
         || |set d | d in decisions.value :: d.branch| != |decisions.value| then None
      else decisions
  }

  // ---- what ready guarantees ----

  /** Owned paths are proper paths under an owned path. */
  lemma PathOwnedMeans(path: JsString, ownership: seq<JsString>)
    ensures PathOwned(path, ownership)
            <==> 0 !in path && Proper(Split(path)) && exists owned :: owned in ownership && IsSameOrDescendant(path, owned)
  {
    hide IsSameOrDescendant;
    SplitWhole([]);
    SplitWhole(DOT);
    SplitWhole(DOT_DOT);
    if path != [] && path[0] == SLASH { assert Split(path)[0] == []; }
  }

  lemma {:induction false} DecisionsAt(input: Input, required: seq<JsString>, byKey: map<JsString, B.TaskId>, i: nat)
    requires (forall key :: key in required ==> key in byKey) && Decisions(input, required, byKey).Some? && i < |required|
    ensures |Decisions(input, required, byKey).value| == |required| && required[i] in byKey
    ensures Decide(input, required[i], byKey[required[i]]) == Some(Decisions(input, required, byKey).value[i])
    decreases |required|
  {
    hide Decide;
    if i > 0 { DecisionsAt(input, required[1..], byKey, i - 1); }
    else if |required| > 1 { DecisionsAt(input, required[1..], byKey, 0); }
  }

  /** A ready child's changed paths are owned by it alone. */
  lemma ReadyChildOwns(h: A.Externals, input: Input, i: nat, path: JsString)
    requires Gate(h, input).Some? && i < |input.call.plan.requiredChildren|
    ensures |Gate(h, input).value| == |input.call.plan.requiredChildren|
    ensures var d := Gate(h, input).value[i];
            && d.key == input.call.plan.requiredChildren[i]
            && (path in d.changedPaths ==> O.Owns(O.Owners(FP.Claims(input.call.plan.children)), d.key, path))
  {
    hide IsSameOrDescendant, FP.UniqueSorted, BoardChild;
    var plan := input.call.plan;
    var byKey := A.IdByKey(input.authority.value.children);
    DecisionsAt(input, plan.requiredChildren, byKey, i);
    var d := Gate(h, input).value[i];
    if path in d.changedPaths {
      var c := FindChild(plan.children, d.key).value;
      assert PathOwned(path, c.ownership);
      var owned :| owned in c.ownership && IsSameOrDescendant(path, owned);
      O.OwnersAreClaims(FP.Claims(plan.children));
      var k :| 0 <= k < |plan.children| && plan.children[k] == c;
      assert FP.Claims(plan.children)[k] == O.Claim(c.key, c.ownership);
      assert O.Holds(FP.Claims(plan.children), O.Owner(c.key, owned));
    }
  }

  /** One path equals, contains or lies inside the other. */
  predicate Overlap(a: JsString, b: JsString) { IsSameOrDescendant(a, b) || IsSameOrDescendant(b, a) }

  /** When the gate is ready for a plan made by createFanoutPlan, every changed path is in scope, and no changed path
      of one child equals, contains or lies inside a changed path of another. */
  lemma ReadyIsDisjoint(h: A.Externals, input: Input, planned: FP.Plan, worktreesRoot: JsString, i: nat, j: nat, p: JsString, q: JsString)
    requires FP.PlanOf(planned, worktreesRoot) == Some(input.call.plan) && Gate(h, input).Some?
    requires i < |Gate(h, input).value| && j < |Gate(h, input).value| && i != j
    requires p in Gate(h, input).value[i].changedPaths && q in Gate(h, input).value[j].changedPaths
    ensures O.InScope(input.call.plan.scopeRoots, p) && O.InScope(input.call.plan.scopeRoots, q)
    ensures !Overlap(p, q)
  {
    hide FP.PlanOf, Gate, IsSameOrDescendant, O.Owns, O.InScope, O.OneOwner, O.Partition, FP.DependencyGraph;
    FP.AcceptedPlan(planned, worktreesRoot);
    var plan := input.call.plan;
    var owners := O.Owners(FP.Claims(plan.children));
    GateSize(h, input);
    ReadyChildOwns(h, input, i, p);
    ReadyChildOwns(h, input, j, q);
    O.OwnedInScope(plan.scopeRoots, owners, Gate(h, input).value[i].key, p);
    O.OwnedInScope(plan.scopeRoots, owners, Gate(h, input).value[j].key, q);
    RequiredDistinct(plan, i, j);
    if IsSameOrDescendant(p, q) { SharedOwner(plan.scopeRoots, owners, plan.requiredChildren[i], plan.requiredChildren[j], p, q); }
    if IsSameOrDescendant(q, p) { SharedOwner(plan.scopeRoots, owners, plan.requiredChildren[j], plan.requiredChildren[i], q, p); }
  }

  lemma GateSize(h: A.Externals, input: Input)
    requires Gate(h, input).Some?
    ensures |Gate(h, input).value| == |input.call.plan.requiredChildren|
  {
    var required := input.call.plan.requiredChildren;
    if required != [] { DecisionsAt(input, required, A.IdByKey(input.authority.value.children), 0); }
  }

  lemma {:induction false} SetOfFewer(values: seq<JsString>, i: nat, j: nat)
    requires i < j < |values| && values[i] == values[j]
    ensures |set x | x in values| < |values|
  {
    var without := values[..j] + values[j + 1..];
    forall x | x in values ensures x in without {
      var k :| 0 <= k < |values| && values[k] == x;
      assert without[if k < j then k else if k == j then i else k - 1] == x;
    }
    assert (set x | x in values) == (set x | x in without);
    SetAtMost(without);
  }

  lemma {:induction false} SetAtMost(values: seq<JsString>)
    ensures |set x | x in values| <= |values|
    decreases |values|
  {
    if values != [] {
      var init, last := values[..|values| - 1], values[|values| - 1];
      SetAtMost(init);
      assert values == init + [last];
      assert (set x | x in values) == (set x | x in init) + {last};
    }
  }

  lemma RequiredDistinct(plan: FP.Plan, i: nat, j: nat)
    requires FP.PlanChecks(plan.scopeRoots, plan.children, plan.requiredChildren)
    requires i < |plan.requiredChildren| && j < |plan.requiredChildren| && i != j
    ensures plan.requiredChildren[i] != plan.requiredChildren[j]
  {
    if plan.requiredChildren[i] == plan.requiredChildren[j] {
      SetOfFewer(plan.requiredChildren, if i < j then i else j, if i < j then j else i);
    }
  }

  /** A path inside another has its owner. */
  lemma SharedOwner(scopeRoots: seq<JsString>, owners: seq<O.Owner>, a: JsString, b: JsString, p: JsString, q: JsString)
    requires O.Partition(scopeRoots, owners) && O.Owns(owners, a, p) && O.Owns(owners, b, q) && IsSameOrDescendant(p, q)
    ensures a == b
  {
    hide IsSameOrDescendant;
    var o :| o in owners && o.childKey == b && IsSameOrDescendant(q, o.path);
    DescendantTransitive(p, q, o.path);
    assert O.Owns(owners, b, p);
    O.OwnedInScope(scopeRoots, owners, a, p);
    assert O.OneOwner(owners, p);
  }

  /** The run a ready decision names is a passed review, and the task's latest run. */
  lemma ReadyIsVerified(h: A.Externals, input: Input, i: nat)
    requires Gate(h, input).Some? && i < |Gate(h, input).value|
    ensures var d := Gate(h, input).value[i];
            exists e :: e in input.children && e.key == d.key && IsVerifiedBy(e, d)
  {
    hide FP.UniqueSorted, PathOwned, Latest;
    GateSize(h, input);
    DecisionsAt(input, input.call.plan.requiredChildren, A.IdByKey(input.authority.value.children), i);
    var d := Gate(h, input).value[i];
    var e := FindBoard(input.children, d.key).value;
    assert IsVerifiedBy(e, d);
  }

  lemma ReadyBranchesDiffer(h: A.Externals, input: Input, i: nat, j: nat)
    requires Gate(h, input).Some? && i < j < |Gate(h, input).value|
    ensures Gate(h, input).value[i].branch != Gate(h, input).value[j].branch
  {
    hide Decisions;
    var ds := Gate(h, input).value;
    var branches := MapSeq((x: ChildDecision) => x.branch, ds);
    assert (set x | x in ds :: x.branch) == set b | b in branches by {
      forall b | b in branches ensures b in set x | x in ds :: x.branch {
        var k :| 0 <= k < |branches| && branches[k] == b;
        assert ds[k] in ds;
      }
      forall x | x in ds ensures x.branch in branches {
        var k :| 0 <= k < |ds| && ds[k] == x;
        assert branches[k] == x.branch;
      }
    }
    if ds[i].branch == ds[j].branch { SetOfFewer(branches, i, j); }
  }

  lemma {:induction false} PairsExpected(cs: seq<FP.Child>, byKey: map<JsString, B.TaskId>, pair: (Option<B.TaskId>, Option<B.TaskId>))
    ensures pair in ExpectedPairs(cs, byKey) <==> exists c, d :: c in cs && d in c.dependsOn && pair == (Lookup(byKey, d), Lookup(byKey, c.key))
    decreases |cs|
  {
    if cs != [] {
      PairsExpected(cs[1..], byKey, pair);
      assert cs == [cs[0]] + cs[1..];
      var own := MapSeq(d => (Lookup(byKey, d), Lookup(byKey, cs[0].key)), cs[0].dependsOn);
      forall d | d in cs[0].dependsOn ensures (Lookup(byKey, d), Lookup(byKey, cs[0].key)) in own {
        var k :| 0 <= k < |cs[0].dependsOn| && cs[0].dependsOn[k] == d;
        assert own[k] == (Lookup(byKey, d), Lookup(byKey, cs[0].key));
      }
    }
  }

  /** When the gate is ready, the depends-on links at the children are exactly the plan's. */
  lemma ReadyDependencies(h: A.Externals, input: Input)
    requires Gate(h, input).Some?
    ensures var byKey := A.IdByKey(input.authority.value.children);
            && A.KnownDependencies(input.call.plan.children, byKey)
            && DependencyRows(input.children) == A.ExpectedDependencies(input.call.plan.children, byKey)
  {
    hide Decisions, A.IdByKey, ExpectedPairs, DependencyRows;
    var cs, byKey, rows := input.call.plan.children, A.IdByKey(input.authority.value.children), DependencyRows(input.children);
    RowsAreDependencies(input.children);
    forall pair ensures pair in PairSet(rows) <==> pair in ExpectedPairs(cs, byKey) {
      assert pair in multiset(PairSet(rows)) <==> pair in multiset(ExpectedPairs(cs, byKey));
    }
    forall c, d | c in cs && d in c.dependsOn ensures c.key in byKey && d in byKey {
      PairsExpected(cs, byKey, (Lookup(byKey, d), Lookup(byKey, c.key)));
    }
    forall l ensures l in rows <==> l in A.ExpectedDependencies(cs, byKey) {
      PairsExpected(cs, byKey, (Some(l.parentId), Some(l.childId)));
      if l in rows { assert (Some(l.parentId), Some(l.childId)) in PairSet(rows); }
    }
  }

  lemma RowsAreDependencies(es: seq<BoardEvidence>)
    ensures forall l :: l in DependencyRows(es) ==> l.linkType.DependsOn?
  {
  }

  /** A passed review of the task, not running, later than which the task has no run. */
  predicate IsVerifiedBy(e: BoardEvidence, d: ChildDecision) {
    exists r :: r in e.runs && r.id == d.verificationRunId && r.taskId == d.taskId && r.reviewerPassed && r.status == DONE
      && forall x :: x in e.runs ==> !Later(x, r) && x.status != RUNNING
  }
}
