/** What the evidence says when the integration gate is ready, and exactly when it is. */
module FanoutEvidence {
  import opened Ordering
  import opened JsStrings
  import opened Wrappers
  import opened FanoutPaths
  import opened FanoutIntegration
  import B = Board
  import A = FanoutApply
  import FP = FanoutPlan
  import O = FanoutOwnership
  import M = FanoutPlanMeaning
  import Q = FanoutApplyProofs

  /** The changed path is made of proper names and lies under an owned path. */
  predicate OwnedPath(path: JsString, ownership: seq<JsString>) {
    0 !in path && Proper(Split(path)) && exists owned :: owned in ownership && IsSameOrDescendant(path, owned)
  }

  /** The Git evidence of a child agrees with its plan and the repository, and every file it changed is its own. */
  predicate GitInOrder(input: Input, c: FP.Child, e: GitEvidence) {
    && e.worktree == c.worktree && e.registeredWorktree == Some(c.worktree) && e.repoCommonDir == input.call.plan.repoCommonDir
    && e.branch.Some? && e.branch.value != [] && NotOnMain(e.branch.value, input.mainRef)
    && |e.head| == (if input.objectFormat == SHA1 then 40 else 64)
    && (forall i :: 0 <= i < |e.head| ==> 0x30 <= e.head[i] <= 0x39 || 0x61 <= e.head[i] <= 0x66)
    && e.clean && e.mainIsAncestor
    && forall p :: p in e.changedPaths ==> OwnedPath(p, c.ownership)
  }

  /** The branch is not the one the main ref names, with or without refs/heads/ in front. */
  predicate NotOnMain(branch: JsString, mainRef: JsString) {
    if HEADS <= mainRef then HEADS + branch != mainRef else branch != mainRef
  }

  /** The board's evidence of a child: the task as planned and done, its one owner and one parent, and its latest run a
      passed review that ended before the task was completed. */
  predicate BoardInOrder(input: Input, c: FP.Child, e: BoardEvidence, taskId: B.TaskId) {
    && e.task.Some? && e.task.value.id == taskId && e.task.value.completedAt.Some?
    && e.task.value.task.title == c.title && e.task.value.task.tenant == c.tenant && e.task.value.task.profile == c.profile
    && e.task.value.task.body == Ascii("cwd: ") + c.worktree + [0x0A, 0x0A] + c.body && e.task.value.task.status == Ascii("done")
    && OnlyPrimary(e.bindings, input.call.orchestratorId)
    && OnlyParent(e.links, taskId, input.call.plan.parentTaskId)
    && (forall r :: r in e.runs ==> r.status != Ascii("running"))
    && exists i :: 0 <= i < |e.runs| && LatestAt(e.runs, i) && Reviewed(e.runs[i], taskId, e.task.value.completedAt.value)
  }

  /** The run at `i` started last; of runs that started together it has the highest id, and it is the first of its id. */
  predicate LatestAt(runs: seq<Run>, i: nat)
    requires i < |runs|
  {
    && (forall j :: 0 <= j < |runs| ==> !StartedAfter(runs[j], runs[i]))
    && forall j :: 0 <= j < i ==> StartedAfter(runs[i], runs[j])
  }

  predicate StartedAfter(a: Run, b: Run) { a.startedAt > b.startedAt || (a.startedAt == b.startedAt && a.id > b.id) }

  /** A passed review of the task that ended before the task was completed. */
  predicate Reviewed(r: Run, taskId: B.TaskId, completedAt: int) {
    r.taskId == taskId && r.status == Ascii("done") && r.endedAt.Some? && r.endedAt.value <= completedAt && r.reviewerPassed
  }

  /** Exactly one binding is primary, and it is this orchestrator's. */
  predicate OnlyPrimary(bindings: seq<(B.OrchestratorId, B.Role)>, o: B.OrchestratorId) {
    exists i :: 0 <= i < |bindings| && bindings[i] == (o, B.Primary)
      && forall j :: 0 <= j < |bindings| && bindings[j].1.Primary? ==> j == i
  }

  /** Exactly one subtask link leads to the task, and it comes from this parent. */
  predicate OnlyParent(links: seq<B.Link>, t: B.TaskId, parent: B.TaskId) {
    exists i :: 0 <= i < |links| && links[i] == B.Link(parent, t, B.Subtask)
      && forall j :: 0 <= j < |links| && links[j].linkType.Subtask? && links[j].childId == t ==> j == i
  }

  lemma {:induction false} PrimaryExactly(bindings: seq<(B.OrchestratorId, B.Role)>, o: B.OrchestratorId)
    ensures PrimaryIds(bindings) == [] <==> forall j :: 0 <= j < |bindings| ==> !bindings[j].1.Primary?
    ensures PrimaryIds(bindings) == [o] <==> OnlyPrimary(bindings, o)
    decreases |bindings|
  {
    if bindings != [] {
      var head, rest := bindings[0], bindings[1..];
      PrimaryExactly(rest, o);
      assert forall j :: 0 <= j < |bindings| ==> bindings[j] == if j == 0 then head else rest[j - 1];
      if head.1.Primary? {
        assert PrimaryIds(bindings)[1..] == PrimaryIds(rest) && PrimaryIds(bindings)[0] == head.0;
        assert forall j :: 0 <= j < |rest| ==> rest[j] == bindings[j + 1];
        if OnlyPrimary(bindings, o) {
          var i :| 0 <= i < |bindings| && bindings[i] == (o, B.Primary)
            && forall j :: 0 <= j < |bindings| && bindings[j].1.Primary? ==> j == i;
        }
      } else {
        assert PrimaryIds(bindings) == PrimaryIds(rest);
        PrimaryShift(bindings, o);
      }
    }
  }

  lemma PrimaryShift(bindings: seq<(B.OrchestratorId, B.Role)>, o: B.OrchestratorId)
    requires bindings != [] && !bindings[0].1.Primary?
    ensures OnlyPrimary(bindings[1..], o) <==> OnlyPrimary(bindings, o)
  {
    var rest := bindings[1..];
    if OnlyPrimary(rest, o) {
      var i :| 0 <= i < |rest| && rest[i] == (o, B.Primary) && forall j :: 0 <= j < |rest| && rest[j].1.Primary? ==> j == i;
      assert bindings[i + 1] == (o, B.Primary);
      forall j | 0 <= j < |bindings| && bindings[j].1.Primary? ensures j == i + 1 { assert bindings[j] == rest[j - 1]; }
    }
    if OnlyPrimary(bindings, o) {
      var i :| 0 <= i < |bindings| && bindings[i] == (o, B.Primary)
        && forall j :: 0 <= j < |bindings| && bindings[j].1.Primary? ==> j == i;
      assert rest[i - 1] == (o, B.Primary);
      forall j | 0 <= j < |rest| && rest[j].1.Primary? ensures j == i - 1 { assert bindings[j + 1] == rest[j]; }
    }
  }

  predicate LinksTo(l: B.Link, t: B.TaskId) { l.linkType.Subtask? && l.childId == t }

  lemma {:induction false} ParentExactly(links: seq<B.Link>, t: B.TaskId, parent: B.TaskId)
    ensures SubtaskParents(links, t) == [] <==> forall j :: 0 <= j < |links| ==> !LinksTo(links[j], t)
    ensures SubtaskParents(links, t) == [parent] <==> OnlyParent(links, t, parent)
    decreases |links|
  {
    if links != [] {
      var head, rest := links[0], links[1..];
      ParentExactly(rest, t, parent);
      assert forall j :: 0 <= j < |links| ==> links[j] == if j == 0 then head else rest[j - 1];
      if LinksTo(head, t) {
        assert SubtaskParents(links, t)[1..] == SubtaskParents(rest, t) && SubtaskParents(links, t)[0] == head.parentId;
        assert forall j :: 0 <= j < |rest| ==> rest[j] == links[j + 1];
        if OnlyParent(links, t, parent) {
          var i :| 0 <= i < |links| && links[i] == B.Link(parent, t, B.Subtask)
            && forall j :: 0 <= j < |links| && LinksTo(links[j], t) ==> j == i;
        }
      } else {
        assert SubtaskParents(links, t) == SubtaskParents(rest, t);
        ParentShift(links, t, parent);
      }
    }
  }

  lemma ParentShift(links: seq<B.Link>, t: B.TaskId, parent: B.TaskId)
    requires links != [] && !LinksTo(links[0], t)
    ensures OnlyParent(links[1..], t, parent) <==> OnlyParent(links, t, parent)
  {
    var rest := links[1..];
    if OnlyParent(rest, t, parent) {
      var i :| 0 <= i < |rest| && rest[i] == B.Link(parent, t, B.Subtask) && forall j :: 0 <= j < |rest| && LinksTo(rest[j], t) ==> j == i;
      assert links[i + 1] == B.Link(parent, t, B.Subtask);
      forall j | 0 <= j < |links| && LinksTo(links[j], t) ensures j == i + 1 { assert links[j] == rest[j - 1]; }
    }
    if OnlyParent(links, t, parent) {
      var i :| 0 <= i < |links| && links[i] == B.Link(parent, t, B.Subtask) && forall j :: 0 <= j < |links| && LinksTo(links[j], t) ==> j == i;
      assert rest[i - 1] == B.Link(parent, t, B.Subtask);
      forall j | 0 <= j < |rest| && LinksTo(rest[j], t) ensures j == i - 1 { assert links[j + 1] == rest[j]; }
    }
  }

  lemma {:induction false} LatestPlace(runs: seq<Run>) returns (i: nat)
    requires runs != []
    ensures i < |runs| && runs[i] == Latest(runs) && LatestAt(runs, i)
    decreases |runs|
  {
    if |runs| == 1 {
      i := 0;
    } else {
      var rest := runs[1..];
      var k := LatestPlace(rest);
      assert forall j :: 0 <= j < |runs| ==> runs[j] == if j == 0 then runs[0] else rest[j - 1];
      i := if Later(Latest(rest), runs[0]) then k + 1 else 0;
    }
  }

  lemma LaterNotLatest(runs: seq<Run>, i: nat, j: nat)
    requires i < j < |runs| && LatestAt(runs, i)
    ensures !LatestAt(runs, j)
  {
    assert !StartedAfter(runs[j], runs[i]);
  }

  lemma OneLatest(runs: seq<Run>, i: nat, j: nat)
    requires i < |runs| && j < |runs| && LatestAt(runs, i) && LatestAt(runs, j)
    ensures i == j
  {
    if i < j { LaterNotLatest(runs, i, j); }
    if j < i { LaterNotLatest(runs, j, i); }
  }

  // ---- one child ----

  lemma NotOnMainExactly(branch: JsString, mainRef: JsString)
    ensures branch != BranchOf(mainRef) <==> NotOnMain(branch, mainRef)
  {
    if HEADS <= mainRef {
      assert mainRef == HEADS + mainRef[|HEADS|..];
      assert (HEADS + branch)[|HEADS|..] == branch;
    }
  }

  lemma PathsOwned(e: GitEvidence, c: FP.Child)
    ensures (forall p :: p in FP.UniqueSorted(e.changedPaths) ==> PathOwned(p, c.ownership))
       <==> forall p :: p in e.changedPaths ==> OwnedPath(p, c.ownership)
  {
    hide PathOwned, OwnedPath, FP.UniqueSorted;
    FP.UniqueSortedMembers(e.changedPaths);
    forall p ensures PathOwned(p, c.ownership) <==> OwnedPath(p, c.ownership) { OwnedExactly(p, c.ownership); }
  }

  lemma OwnedExactly(path: JsString, ownership: seq<JsString>)
    ensures PathOwned(path, ownership) <==> OwnedPath(path, ownership)
  {
    hide PathOwned;
    PathOwnedMeans(path, ownership);
  }

  /** The check of a child's Git evidence accepts exactly evidence in order, and hands on what it says. */
  lemma GitExactly(input: Input, key: JsString, c: FP.Child, e: GitEvidence)
    requires ObjectFormat(input.objectFormat)
    requires FindChild(input.call.plan.children, key) == Some(c) && FindGit(input.gitChildren, key) == Some(e)
    ensures GitChild(input, key).Some? <==> GitInOrder(input, c, e)
    ensures GitChild(input, key).Some? ==> GitChild(input, key).value == e.(changedPaths := FP.UniqueSorted(e.changedPaths))
  {
    hide PathOwned, OwnedPath, FP.UniqueSorted, FindChild, FindGit, BranchOf, NotOnMain;
    PathsOwned(e, c);
    if e.branch.Some? { NotOnMainExactly(e.branch.value, input.mainRef); }
    FormatsDiffer();
  }

  lemma FormatsDiffer()
    ensures SHA1 != SHA256
  {
    assert |SHA1| == 4 && |SHA256| == 6;
  }

  lemma RunExactly(e: BoardEvidence, row: TaskRow)
    requires row.completedAt.Some?
    ensures VerifiedRun(e, row)
       <==> (forall r :: r in e.runs ==> r.status != Ascii("running"))
            && exists i :: 0 <= i < |e.runs| && LatestAt(e.runs, i) && Reviewed(e.runs[i], row.id, row.completedAt.value)
    ensures forall i :: 0 <= i < |e.runs| && LatestAt(e.runs, i) ==> e.runs[i] == Latest(e.runs)
  {
    hide Latest, LatestAt;
    if e.runs != [] {
      var k := LatestPlace(e.runs);
      forall i | 0 <= i < |e.runs| && LatestAt(e.runs, i) ensures i == k { OneLatest(e.runs, i, k); }
    }
  }

  lemma BodyText(c: FP.Child)
    ensures A.ChildBody(c) == Ascii("cwd: ") + c.worktree + [0x0A, 0x0A] + c.body
  {
  }

  lemma BoardExactly(input: Input, key: JsString, taskId: B.TaskId, c: FP.Child, e: BoardEvidence)
    requires FindChild(input.call.plan.children, key) == Some(c) && FindBoard(input.children, key) == Some(e)
    ensures BoardChild(input, key, taskId).Some? <==> BoardInOrder(input, c, e, taskId)
    ensures BoardChild(input, key, taskId).Some? ==> BoardChild(input, key, taskId).value == Latest(e.runs)
  {
    hide FindChild, FindBoard, OnlyPrimary, OnlyParent, PrimaryIds, SubtaskParents, VerifiedRun, LatestAt, Reviewed, Latest, A.ChildBody;
    BodyText(c);
    PrimaryExactly(e.bindings, input.call.orchestratorId);
    ParentExactly(e.links, taskId, input.call.plan.parentTaskId);
    if e.task.Some? && e.task.value.completedAt.Some? { RunExactly(e, e.task.value); }
  }

  // ---- evidence by key ----

  function GitKey(e: GitEvidence): JsString { e.key }
  function BoardKey(e: BoardEvidence): JsString { e.key }

  lemma {:induction false} Places(keys: seq<JsString>, values: seq<JsString>)
    requires |set k | k in keys| == |keys| == |values| && FP.NoDuplicates(values)
    requires forall v :: v in values ==> v in keys
    ensures multiset(keys) == multiset(values)
  {
    M.DistinctSize(keys);
    M.DistinctSize(values);
    var a, b := set v | v in values, set k | k in keys;
    SubsetSameSize(a, b);
    forall x ensures x in keys <==> x in values { assert x in keys <==> x in b; assert x in values <==> x in a; }
    M.SameSetSameMultiset(keys, values);
  }

  lemma SubsetSameSize(a: set<JsString>, b: set<JsString>)
    requires a <= b && |a| == |b|
    ensures a == b
  {
    assert b == a + (b - a);
    assert |b| == |a| + |b - a|;
  }

  lemma GitKeys(es: seq<GitEvidence>)
    ensures (set e | e in es :: e.key) == set k | k in MapSeq(GitKey, es)
    ensures forall k :: k in MapSeq(GitKey, es) <==> FindGit(es, k).Some?
  {
    hide Find;
    var keys := MapSeq(GitKey, es);
    forall e | e in es ensures e.key in keys {
      var i :| 0 <= i < |es| && es[i] == e;
      assert keys[i] == e.key;
    }
    forall k | k in keys ensures exists e :: e in es && e.key == k {
      var i :| 0 <= i < |es| && keys[i] == k;
      assert es[i] in es;
    }
  }

  lemma BoardKeys(es: seq<BoardEvidence>)
    ensures (set e | e in es :: e.key) == set k | k in MapSeq(BoardKey, es)
    ensures forall k :: k in MapSeq(BoardKey, es) <==> FindBoard(es, k).Some?
  {
    hide Find;
    var keys := MapSeq(BoardKey, es);
    forall e | e in es ensures e.key in keys {
      var i :| 0 <= i < |es| && es[i] == e;
      assert keys[i] == e.key;
    }
    forall k | k in keys ensures exists e :: e in es && e.key == k {
      var i :| 0 <= i < |es| && keys[i] == k;
      assert es[i] in es;
    }
  }

  /** With one piece of evidence for each key, whatever has the key is what is found. */
  lemma GitFound(es: seq<GitEvidence>, e: GitEvidence)
    requires e in es && FP.NoDuplicates(MapSeq(GitKey, es))
    ensures FindGit(es, e.key) == Some(e)
  {
    hide Find;
    var keys := MapSeq(GitKey, es);
    M.DistinctSize(keys);
    var f := FindGit(es, e.key).value;
    var i :| 0 <= i < |es| && es[i] == e;
    var j :| 0 <= j < |es| && es[j] == f;
    assert keys[i] == keys[j];
  }

  lemma BoardFound(es: seq<BoardEvidence>, e: BoardEvidence)
    requires e in es && FP.NoDuplicates(MapSeq(BoardKey, es))
    ensures FindBoard(es, e.key) == Some(e)
  {
    hide Find;
    var keys := MapSeq(BoardKey, es);
    M.DistinctSize(keys);
    var f := FindBoard(es, e.key).value;
    var i :| 0 <= i < |es| && es[i] == e;
    var j :| 0 <= j < |es| && es[j] == f;
    assert keys[i] == keys[j];
  }

  lemma ChildFound(cs: seq<FP.Child>, c: FP.Child)
    requires c in cs && |FP.Keys(cs)| == |cs|
    ensures FindChild(cs, c.key) == Some(c)
  {
    hide Find, FP.Keys;
    FP.SameKeySameChild(cs, c, FindChild(cs, c.key).value);
  }

  // ---- the whole gate ----

  /** The call names the plan it was approved for, by its hash and by its text. */
  predicate Approved(h: A.Externals, call: A.Call) {
    && |call.planHash| == 64 && (forall i :: 0 <= i < 64 ==> 0x30 <= call.planHash[i] <= 0x39 || 0x61 <= call.planHash[i] <= 0x66)
    && call.approvedPlanHash == call.planHash && call.innerPlanHash == call.planHash && h.sha(call.canonicalJson) == call.planHash
    && h.read(call.canonicalJson) == Some(call.plan) && call.generation > 0
  }

  /** The caller is the orchestrator of the repository, in its active session, and the one owner of the parent. */
  predicate CallerInOrder(input: Input) {
    var call := input.call;
    && input.orchestrator == Some((call.orchestratorId, call.plan.repoCommonDir))
    && input.session == Some((call.sessionId, B.Session(call.orchestratorId, call.generation, true)))
    && OnlyPrimary(input.parentBindings, call.orchestratorId)
  }

  /** The authority is this application's and names exactly the required children. */
  ghost predicate AuthorityInOrder(input: Input, m: B.Marker) {
    && m.parentTaskId == input.call.plan.parentTaskId && m.planHash == input.call.planHash
    && m.orchestratorId == input.call.orchestratorId
    && forall k :: k in input.call.plan.requiredChildren <==> exists t :: t in m.children && t.key == k
  }

  /** The repository is the plan's and its main branch stood still. */
  predicate MainInOrder(input: Input) {
    && (input.objectFormat == Ascii("sha1") || input.objectFormat == Ascii("sha256"))
    && input.repoCommonDir == input.call.plan.repoCommonDir
    && |input.mainHead| == (if input.objectFormat == Ascii("sha1") then 40 else 64)
    && (forall i :: 0 <= i < |input.mainHead| ==> 0x30 <= input.mainHead[i] <= 0x39 || 0x61 <= input.mainHead[i] <= 0x66)
    && input.mainHeadAfterProbe == input.mainHead
  }

  /** There is one piece of each kind of evidence for each required child, and no other. */
  predicate OneEach(input: Input) {
    && multiset(MapSeq(BoardKey, input.children)) == multiset(input.call.plan.requiredChildren)
    && multiset(MapSeq(GitKey, input.gitChildren)) == multiset(input.call.plan.requiredChildren)
  }

  ghost predicate ChildInOrder(input: Input, m: B.Marker, key: JsString) {
    exists c, b, e, t ::
      && c in input.call.plan.children && c.key == key && b in input.children && b.key == key
      && e in input.gitChildren && e.key == key && t in m.children && t.key == key
      && BoardInOrder(input, c, b, t.taskId) && GitInOrder(input, c, e)
  }

  predicate Observed(input: Input, l: B.Link) {
    l.linkType.DependsOn? && exists b :: b in input.children && l in b.links
  }

  ghost predicate Planned(input: Input, m: B.Marker, l: B.Link) {
    exists c, t, u :: c in input.call.plan.children && t in m.children && u in m.children && t.key in c.dependsOn && u.key == c.key
      && l == B.Link(t.taskId, u.taskId, B.DependsOn)
  }

  predicate BranchesDiffer(input: Input) {
    forall e, f :: e in input.gitChildren && f in input.gitChildren && e.key != f.key ==> e.branch != f.branch
  }

  /** What the gate demands, all of it said of its input. */
  ghost predicate InOrder(h: A.Externals, input: Input) {
    && Approved(h, input.call) && CallerInOrder(input) && MainInOrder(input) && OneEach(input) && BranchesDiffer(input)
    && input.authority.Some? && AuthorityInOrder(input, input.authority.value)
    && (forall key :: key in input.call.plan.requiredChildren ==> ChildInOrder(input, input.authority.value, key))
    && forall l :: Observed(input, l) <==> Planned(input, input.authority.value, l)
  }

  lemma {:induction false} DecisionsExactly(input: Input, required: seq<JsString>, byKey: map<JsString, B.TaskId>)
    requires forall key :: key in required ==> key in byKey
    ensures Decisions(input, required, byKey).Some? <==> forall key :: key in required ==> Decide(input, key, byKey[key]).Some?
    decreases |required|
  {
    hide Decide;
    if required != [] {
      DecisionsExactly(input, required[1..], byKey);
      assert required == [required[0]] + required[1..];
    }
  }

  /** What an authority that can be read guarantees. */
  predicate ReadableMarker(m: B.Marker) { A.ParseAuthority(Some(m)) == Some(m) }

  function TaskKey(t: B.ChildTask): JsString { t.key }

  lemma MarkerDistinct(m: B.Marker, i: nat, j: nat)
    requires ReadableMarker(m) && i < |m.children| && j < |m.children| && i != j
    ensures m.children[i].key != m.children[j].key && m.children[i].taskId != m.children[j].taskId
  {
    var keys, ids := MapSeq(TaskKey, m.children), MapSeq((t: B.ChildTask) => t.taskId, m.children);
    assert A.KeysOf(m.children) == set k | k in keys by {
      forall t | t in m.children ensures t.key in keys {
        var n :| 0 <= n < |m.children| && m.children[n] == t;
        assert keys[n] == t.key;
      }
      forall k | k in keys ensures k in A.KeysOf(m.children) {
        var n :| 0 <= n < |keys| && keys[n] == k;
        assert m.children[n] in m.children;
      }
    }
    assert A.IdsOf(m.children) == set k | k in ids by {
      forall t | t in m.children ensures t.taskId in ids {
        var n :| 0 <= n < |m.children| && m.children[n] == t;
        assert ids[n] == t.taskId;
      }
      forall k | k in ids ensures k in A.IdsOf(m.children) {
        var n :| 0 <= n < |ids| && ids[n] == k;
        assert m.children[n] in m.children;
      }
    }
    M.DistinctSize(keys);
    M.DistinctSize(ids);
    assert keys[i] == m.children[i].key && keys[j] == m.children[j].key;
    assert ids[i] == m.children[i].taskId && ids[j] == m.children[j].taskId;
  }

  lemma MarkerLookup(m: B.Marker, t: B.ChildTask)
    requires ReadableMarker(m) && t in m.children
    ensures var byKey := A.IdByKey(m.children); t.key in byKey && byKey[t.key] == t.taskId
  {
    hide A.IdByKey, ReadableMarker;
    forall i, j | 0 <= i < j < |m.children| ensures m.children[i].key != m.children[j].key { MarkerDistinct(m, i, j); }
    var i :| 0 <= i < |m.children| && m.children[i] == t;
    Q.IdByKeyAt(m.children, i);
  }

  lemma MarkerKey(m: B.Marker, key: JsString)
    requires ReadableMarker(m)
    ensures key in A.IdByKey(m.children) <==> exists t :: t in m.children && t.key == key
    ensures key in A.IdByKey(m.children) ==> B.ChildTask(key, A.IdByKey(m.children)[key]) in m.children
  {
    hide A.IdByKey, ReadableMarker;
    assert key in A.IdByKey(m.children) <==> key in A.KeysOf(m.children);
    if key in A.IdByKey(m.children) {
      var t :| t in m.children && t.key == key;
      MarkerLookup(m, t);
      assert t == B.ChildTask(key, A.IdByKey(m.children)[key]);
    }
  }

  lemma MarkerInjective(m: B.Marker, a: JsString, b: JsString)
    requires ReadableMarker(m) && a in A.IdByKey(m.children) && b in A.IdByKey(m.children)
    requires A.IdByKey(m.children)[a] == A.IdByKey(m.children)[b]
    ensures a == b
  {
    hide A.IdByKey, ReadableMarker;
    MarkerKey(m, a);
    MarkerKey(m, b);
    var id := A.IdByKey(m.children)[a];
    var i :| 0 <= i < |m.children| && m.children[i] == B.ChildTask(a, id);
    var j :| 0 <= j < |m.children| && m.children[j] == B.ChildTask(b, id);
    if i != j { MarkerDistinct(m, i, j); }
  }

  // ---- dependencies ----

  type Pair = (Option<B.TaskId>, Option<B.TaskId>)

  function PairOf(byKey: map<JsString, B.TaskId>, c: FP.Child, d: JsString): Pair { (Lookup(byKey, d), Lookup(byKey, c.key)) }

  predicate DistinctPairs(pairs: seq<Pair>) { forall i, j :: 0 <= i < j < |pairs| ==> pairs[i] != pairs[j] }

  lemma {:induction false} PairOnce(pairs: seq<Pair>, x: Pair)
    requires DistinctPairs(pairs)
    ensures multiset(pairs)[x] == if x in pairs then 1 else 0
    decreases |pairs|
  {
    if pairs != [] {
      var init, last := pairs[..|pairs| - 1], pairs[|pairs| - 1];
      PairOnce(init, x);
      assert pairs == init + [last];
      assert last !in init;
    }
  }

  lemma PairsJoin(a: seq<Pair>, b: seq<Pair>)
    requires DistinctPairs(a) && DistinctPairs(b) && forall x :: x in a ==> x !in b
    ensures DistinctPairs(a + b)
  {
    forall i, j | 0 <= i < j < |a + b| ensures (a + b)[i] != (a + b)[j] {
      if i < |a| <= j { assert a[i] in a && b[j - |a|] in b; }
    }
  }

  /** Names that differ have tasks that differ. */
  ghost predicate TellsApart(byKey: map<JsString, B.TaskId>) {
    forall a, b :: a in byKey && b in byKey && byKey[a] == byKey[b] ==> a == b
  }

  lemma OwnPairs(c: FP.Child, byKey: map<JsString, B.TaskId>)
    requires TellsApart(byKey) && M.AllDistinct(c.dependsOn) && forall d :: d in c.dependsOn ==> d in byKey
    ensures DistinctPairs(MapSeq(d => PairOf(byKey, c, d), c.dependsOn))
  {
    var own := MapSeq(d => PairOf(byKey, c, d), c.dependsOn);
    forall i, j | 0 <= i < j < |own| ensures own[i] != own[j] {
      assert c.dependsOn[i] in byKey && c.dependsOn[j] in byKey;
    }
  }

  lemma ExpectedNext(cs: seq<FP.Child>, byKey: map<JsString, B.TaskId>)
    requires cs != []
    ensures ExpectedPairs(cs, byKey) == MapSeq(d => PairOf(byKey, cs[0], d), cs[0].dependsOn) + ExpectedPairs(cs[1..], byKey)
  {
    assert MapSeq(d => PairOf(byKey, cs[0], d), cs[0].dependsOn)
        == MapSeq(d => (Lookup(byKey, d), Lookup(byKey, cs[0].key)), cs[0].dependsOn);
  }

  /** What makes the expected pairs differ. */
  ghost predicate Orderly(cs: seq<FP.Child>, byKey: map<JsString, B.TaskId>) {
    && TellsApart(byKey) && (forall i, j :: 0 <= i < j < |cs| ==> cs[i].key != cs[j].key)
    && (forall c :: c in cs ==> c.key in byKey && M.AllDistinct(c.dependsOn))
    && forall c, d :: c in cs && d in c.dependsOn ==> d in byKey
  }

  lemma {:induction false} ExpectedDistinct(cs: seq<FP.Child>, byKey: map<JsString, B.TaskId>)
    requires Orderly(cs, byKey)
    ensures DistinctPairs(ExpectedPairs(cs, byKey))
    decreases |cs|
  {
    hide ExpectedPairs;
    if cs == [] {
      NothingExpected(byKey);
    } else {
      var rest := cs[1..];
      assert cs == [cs[0]] + rest;
      ExpectedDistinct(rest, byKey);
      OwnPairs(cs[0], byKey);
      ExpectedNext(cs, byKey);
      var own := MapSeq(d => PairOf(byKey, cs[0], d), cs[0].dependsOn);
      forall x | x in own ensures x !in ExpectedPairs(rest, byKey) {
        PairsExpected(rest, byKey, x);
      }
      PairsJoin(own, ExpectedPairs(rest, byKey));
    }
  }

  lemma NothingExpected(byKey: map<JsString, B.TaskId>)
    ensures ExpectedPairs([], byKey) == []
  {
  }

  /** The links at the children are the plan's exactly when, as pairs, each observed one is expected and each expected
      one observed. */
  lemma DependenciesExactly(input: Input, byKey: map<JsString, B.TaskId>)
    requires Orderly(input.call.plan.children, byKey)
    ensures DependenciesAsPlanned(input, byKey)
       <==> forall a, b :: B.Link(a, b, B.DependsOn) in DependencyRows(input.children)
                           <==> (Some(a), Some(b)) in ExpectedPairs(input.call.plan.children, byKey)
  {
    hide ExpectedPairs, DependencyRows, Orderly;
    var cs, rows := input.call.plan.children, DependencyRows(input.children);
    var expected := ExpectedPairs(cs, byKey);
    RowsAreDependencies(input.children);
    ExpectedDistinct(cs, byKey);
    ExpectedKnown(cs, byKey);
    forall x ensures multiset(expected)[x] == if x in expected then 1 else 0 { PairOnce(expected, x); }
    forall x ensures multiset(PairSet(rows))[x] == if x in PairSet(rows) then 1 else 0 {}
    forall a, b ensures (Some(a), Some(b)) in PairSet(rows) <==> B.Link(a, b, B.DependsOn) in rows {
      if B.Link(a, b, B.DependsOn) in rows { assert (Some(a), Some(b)) in PairSet(rows); }
    }
    if DependenciesAsPlanned(input, byKey) {
      forall a, b ensures B.Link(a, b, B.DependsOn) in rows <==> (Some(a), Some(b)) in expected {
        assert (Some(a), Some(b)) in multiset(PairSet(rows)) <==> (Some(a), Some(b)) in multiset(expected);
      }
    }
    if forall a, b :: B.Link(a, b, B.DependsOn) in rows <==> (Some(a), Some(b)) in expected {
      forall x ensures x in PairSet(rows) <==> x in expected {
        if x in expected { assert x == (Some(x.0.value), Some(x.1.value)); }
      }
      assert multiset(PairSet(rows)) == multiset(expected);
      forall l | l in rows ensures l.parentId in byKey.Values && l.childId in byKey.Values {
        assert B.Link(l.parentId, l.childId, B.DependsOn) == l;
        assert (Some(l.parentId), Some(l.childId)) in expected;
      }
    }
  }

  lemma ExpectedKnown(cs: seq<FP.Child>, byKey: map<JsString, B.TaskId>)
    requires Orderly(cs, byKey)
    ensures forall x :: x in ExpectedPairs(cs, byKey) ==> x.0.Some? && x.1.Some? && x.0.value in byKey.Values && x.1.value in byKey.Values
  {
    hide ExpectedPairs;
    forall x | x in ExpectedPairs(cs, byKey)
      ensures x.0.Some? && x.1.Some? && x.0.value in byKey.Values && x.1.value in byKey.Values
    {
      PairsExpected(cs, byKey, x);
      var c, d :| c in cs && d in c.dependsOn && x == (Lookup(byKey, d), Lookup(byKey, c.key));
      assert d in byKey && c.key in byKey;
    }
  }

  // ---- exactly when the gate is ready ----

  /** What a plan made by createFanoutPlan guarantees the gate. */
  ghost predicate Sound(plan: FP.Plan) {
    && |FP.Keys(plan.children)| == |plan.children| && FP.NoDuplicates(plan.requiredChildren)
    && (forall k :: k in plan.requiredChildren <==> k in FP.Keys(plan.children))
    && forall c :: c in plan.children ==> FP.NoDuplicates(c.dependsOn) && forall d :: d in c.dependsOn ==> d in FP.Keys(plan.children)
  }

  lemma ChecksAreSound(plan: FP.Plan)
    requires FP.PlanChecks(plan.scopeRoots, plan.children, plan.requiredChildren)
    ensures Sound(plan)
  {
    hide FP.DependencyGraph, FP.Keys, FP.Worktrees, FP.Claims, FP.KeySeq, FP.NoDuplicates, SortBy, O.Partition, O.Owners;
    SortBySorts(FP.KeySeq(plan.children), FP.Identity);
    SortBySorts(plan.requiredChildren, FP.Identity);
    M.KeysOfSeq(plan.children);
    forall k ensures k in plan.requiredChildren <==> k in FP.KeySeq(plan.children) {
      assert k in SortBy(plan.requiredChildren, FP.Identity) <==> k in plan.requiredChildren;
    }
  }

  lemma PlansAreSound(planned: FP.Plan, worktreesRoot: JsString)
    requires FP.PlanOf(planned, worktreesRoot).Some?
    ensures Sound(FP.PlanOf(planned, worktreesRoot).value)
  {
    hide FP.PlanOf, FP.PlanChecks, Sound;
    FP.AcceptedPlan(planned, worktreesRoot);
    ChecksAreSound(FP.PlanOf(planned, worktreesRoot).value);
  }

  lemma KeyIn(cs: seq<FP.Child>, key: JsString)
    ensures key in FP.Keys(cs) <==> exists c :: c in cs && c.key == key
  {
  }

  lemma FencesExactly(h: A.Externals, input: Input)
    ensures A.ApprovalFence(h, input.call) && CallerFence(input) <==> Approved(h, input.call) && CallerInOrder(input)
  {
    hide PrimaryIds, OnlyPrimary;
    PrimaryExactly(input.parentBindings, input.call.orchestratorId);
  }

  lemma MainExactly(input: Input)
    ensures StableMain(input) <==> MainInOrder(input)
  {
  }

  lemma AuthorityExactly(input: Input)
    requires input.authority.Some? && ReadableMarker(input.authority.value) && Sound(input.call.plan)
    ensures AuthorityNamesRequired(input) <==> AuthorityInOrder(input, input.authority.value)
  {
    hide A.IdByKey, ReadableMarker, FP.Keys;
    var m, required := input.authority.value, input.call.plan.requiredChildren;
    var byKey := A.IdByKey(m.children);
    forall k ensures k in byKey <==> exists t :: t in m.children && t.key == k { MarkerKey(m, k); }
    var names := set k | k in required;
    assert |byKey| == |byKey.Keys|;
    if AuthorityNamesRequired(input) {
      assert names <= byKey.Keys;
      SubsetSameSize(names, byKey.Keys);
      forall k ensures k in required <==> k in byKey { assert k in required <==> k in names; }
    }
    if AuthorityInOrder(input, m) {
      assert byKey.Keys == names;
    }
  }

  lemma EvidenceExactly(input: Input)
    requires FP.NoDuplicates(input.call.plan.requiredChildren)
    ensures OneEach(input)
       <==> ExactEvidence(input) && forall k :: k in input.call.plan.requiredChildren ==>
              FindBoard(input.children, k).Some? && FindGit(input.gitChildren, k).Some?
    ensures OneEach(input) ==> FP.NoDuplicates(MapSeq(BoardKey, input.children)) && FP.NoDuplicates(MapSeq(GitKey, input.gitChildren))
  {
    hide FindBoard, FindGit, MapSeq;
    var required, boards, gits := input.call.plan.requiredChildren, MapSeq(BoardKey, input.children), MapSeq(GitKey, input.gitChildren);
    GitKeys(input.gitChildren);
    BoardKeys(input.children);
    if OneEach(input) {
      SameMembers(boards, required);
      SameMembers(gits, required);
      assert (set k | k in boards) == (set k | k in required) == (set k | k in gits);
    }
    if ExactEvidence(input) && forall k :: k in required ==> k in boards && k in gits {
      Places(boards, required);
      Places(gits, required);
    }
  }

  /** The evidence of one child, as the checks look it up. */
  lemma Looked(input: Input, m: B.Marker, key: JsString, c: FP.Child, b: BoardEvidence, e: GitEvidence, t: B.ChildTask)
    requires Sound(input.call.plan) && ReadableMarker(m) && OneEach(input)
    requires c in input.call.plan.children && c.key == key && b in input.children && b.key == key
    requires e in input.gitChildren && e.key == key && t in m.children && t.key == key
    ensures FindChild(input.call.plan.children, key) == Some(c) && FindBoard(input.children, key) == Some(b)
    ensures FindGit(input.gitChildren, key) == Some(e)
    ensures key in A.IdByKey(m.children) && A.IdByKey(m.children)[key] == t.taskId
  {
    EvidenceExactly(input);
    hide A.IdByKey, ReadableMarker, FP.Keys, OneEach, FindChild, FindBoard, FindGit;
    ChildFound(input.call.plan.children, c);
    BoardFound(input.children, b);
    GitFound(input.gitChildren, e);
    MarkerLookup(m, t);
  }

  lemma Found(input: Input, m: B.Marker, key: JsString) returns (c: FP.Child, b: BoardEvidence, e: GitEvidence)
    requires Sound(input.call.plan) && ReadableMarker(m) && OneEach(input)
    requires key in input.call.plan.requiredChildren && key in A.IdByKey(m.children)
    ensures c in input.call.plan.children && c.key == key && b in input.children && b.key == key
    ensures e in input.gitChildren && e.key == key && B.ChildTask(key, A.IdByKey(m.children)[key]) in m.children
  {
    EvidenceExactly(input);
    MarkerKey(m, key);
    KeyIn(input.call.plan.children, key);
    hide A.IdByKey, ReadableMarker, FP.Keys, OneEach;
    c :| c in input.call.plan.children && c.key == key;
    b, e := FindBoard(input.children, key).value, FindGit(input.gitChildren, key).value;
  }

  lemma DecideExactly(input: Input, m: B.Marker, key: JsString)
    requires Sound(input.call.plan) && ReadableMarker(m) && OneEach(input) && ObjectFormat(input.objectFormat)
    requires key in input.call.plan.requiredChildren && key in A.IdByKey(m.children)
    ensures Decide(input, key, A.IdByKey(m.children)[key]).Some? <==> ChildInOrder(input, m, key)
  {
    hide A.IdByKey, ReadableMarker, FP.Keys, BoardInOrder, GitInOrder, BoardChild, GitChild, OneEach, FindChild, FindBoard, FindGit,
      ObjectFormat, Sound;
    var id := A.IdByKey(m.children)[key];
    var c, b, e := Found(input, m, key);
    Looked(input, m, key, c, b, e, B.ChildTask(key, id));
    BoardExactly(input, key, id, c, b);
    GitExactly(input, key, c, e);
    GitHasBranch(input, c, e);
    if ChildInOrder(input, m, key) {
      var c', b', e', t :| c' in input.call.plan.children && c'.key == key && b' in input.children && b'.key == key
        && e' in input.gitChildren && e'.key == key && t in m.children && t.key == key
        && BoardInOrder(input, c', b', t.taskId) && GitInOrder(input, c', e');
      Looked(input, m, key, c', b', e', t);
    }
  }

  lemma GitHasBranch(input: Input, c: FP.Child, e: GitEvidence)
    ensures GitInOrder(input, c, e) ==> e.branch.Some?
  {
  }

  lemma PlanOrderly(input: Input, m: B.Marker)
    requires Sound(input.call.plan) && ReadableMarker(m) && AuthorityInOrder(input, m)
    ensures Orderly(input.call.plan.children, A.IdByKey(m.children))
  {
    hide A.IdByKey, ReadableMarker, FP.Keys;
    var cs, byKey := input.call.plan.children, A.IdByKey(m.children);
    forall a, b | a in byKey && b in byKey && byKey[a] == byKey[b] ensures a == b { MarkerInjective(m, a, b); }
    FP.KeysInjective(cs);
    forall k | k in FP.Keys(cs) ensures k in byKey { MarkerKey(m, k); }
    forall c | c in cs ensures c.key in byKey && M.AllDistinct(c.dependsOn) {
      KeyIn(cs, c.key);
      M.DistinctSize(c.dependsOn);
    }
  }

  lemma PlannedPairs(input: Input, m: B.Marker, a: B.TaskId, b: B.TaskId)
    requires Orderly(input.call.plan.children, A.IdByKey(m.children)) && ReadableMarker(m)
    ensures (Some(a), Some(b)) in ExpectedPairs(input.call.plan.children, A.IdByKey(m.children))
       <==> Planned(input, m, B.Link(a, b, B.DependsOn))
  {
    hide A.IdByKey, ReadableMarker, ExpectedPairs;
    var cs, byKey := input.call.plan.children, A.IdByKey(m.children);
    PairsExpected(cs, byKey, (Some(a), Some(b)));
    if (Some(a), Some(b)) in ExpectedPairs(cs, byKey) {
      var c, d :| c in cs && d in c.dependsOn && (Some(a), Some(b)) == (Lookup(byKey, d), Lookup(byKey, c.key));
      MarkerKey(m, d);
      MarkerKey(m, c.key);
      var t, u := B.ChildTask(d, a), B.ChildTask(c.key, b);
      assert t in m.children && u in m.children && t.key in c.dependsOn;
    }
    if Planned(input, m, B.Link(a, b, B.DependsOn)) {
      var c, t, u :| c in cs && t in m.children && u in m.children && t.key in c.dependsOn && u.key == c.key
        && B.Link(a, b, B.DependsOn) == B.Link(t.taskId, u.taskId, B.DependsOn);
      MarkerLookup(m, t);
      MarkerLookup(m, u);
      assert (Some(a), Some(b)) == (Lookup(byKey, t.key), Lookup(byKey, c.key));
    }
  }

  lemma LinksExactly(input: Input, m: B.Marker)
    requires Sound(input.call.plan) && ReadableMarker(m) && AuthorityInOrder(input, m)
    ensures DependenciesAsPlanned(input, A.IdByKey(m.children)) <==> forall l :: Observed(input, l) <==> Planned(input, m, l)
  {
    hide A.IdByKey, ReadableMarker, ExpectedPairs, DependenciesAsPlanned, Sound, AuthorityInOrder, Planned, Observed, Orderly;
    var byKey := A.IdByKey(m.children);
    PlanOrderly(input, m);
    DependenciesExactly(input, byKey);
    forall l ensures Observed(input, l) <==> l in DependencyRows(input.children) { ObservedRow(input, l); }
    forall a, b
      ensures (Some(a), Some(b)) in ExpectedPairs(input.call.plan.children, byKey) <==> Planned(input, m, B.Link(a, b, B.DependsOn))
    {
      PlannedPairs(input, m, a, b);
    }
    forall l ensures Planned(input, m, l) ==> l.linkType.DependsOn? { PlannedKind(input, m, l); }
    forall l ensures Observed(input, l) ==> l.linkType.DependsOn? { ObservedRow(input, l); }
    if DependenciesAsPlanned(input, byKey) {
      forall l ensures Observed(input, l) <==> Planned(input, m, l) {
        if l.linkType.DependsOn? { assert l == B.Link(l.parentId, l.childId, B.DependsOn); }
      }
    }
  }

  lemma PlannedKind(input: Input, m: B.Marker, l: B.Link)
    ensures Planned(input, m, l) ==> l.linkType.DependsOn?
  {
  }

  lemma ObservedRow(input: Input, l: B.Link)
    ensures Observed(input, l) <==> l in DependencyRows(input.children)
    ensures Observed(input, l) ==> l.linkType.DependsOn?
  {
  }

  /** The gate is ready for a plan made by createFanoutPlan and an authority that was read, exactly when its input is in
      order: approval, caller, repository, one done and reviewed task and one clean branch of its own files for each
      child, and the plan's dependencies on the board. */
  lemma ReadyExactly(h: A.Externals, input: Input, planned: FP.Plan, worktreesRoot: JsString)
    requires FP.PlanOf(planned, worktreesRoot) == Some(input.call.plan)
    requires input.authority.Some? ==> ReadableMarker(input.authority.value)
    ensures Gate(h, input).Some? <==> InOrder(h, input)
  {
    hide FP.PlanOf, A.ApprovalFence, CallerFence, AuthorityNamesRequired, StableMain, ExactEvidence, DependenciesAsPlanned, Decisions,
      A.IdByKey, Approved, CallerInOrder, AuthorityInOrder, MainInOrder, OneEach, ChildInOrder, Observed, Planned, BranchesDiffer, Sound,
      ReadableMarker;
    PlansAreSound(planned, worktreesRoot);
    FencesExactly(h, input);
    MainExactly(input);
    if input.authority.Some? && AuthorityNamesRequired(input) {
      var m := input.authority.value;
      AuthorityExactly(input);
      DecidedExactly(input, m);
      LinksExactly(input, m);
      RequiredNamed(input);
      if StableMain(input) && ExactEvidence(input) && Decisions(input, input.call.plan.requiredChildren, A.IdByKey(m.children)).Some? {
        BranchesExactly(input, m);
      }
    } else {
      NoAuthority(input);
      if input.authority.Some? { AuthorityExactly(input); }
    }
  }

  lemma RequiredNamed(input: Input)
    requires AuthorityNamesRequired(input)
    ensures input.authority.Some?
    ensures forall key :: key in input.call.plan.requiredChildren ==> key in A.IdByKey(input.authority.value.children)
  {
  }

  lemma NoAuthority(input: Input)
    ensures input.authority.None? ==> !AuthorityNamesRequired(input)
  {
  }

  lemma DecidedExactly(input: Input, m: B.Marker)
    requires input.authority == Some(m) && AuthorityNamesRequired(input) && ReadableMarker(m) && Sound(input.call.plan)
    ensures forall key :: key in input.call.plan.requiredChildren ==> key in A.IdByKey(m.children)
    ensures StableMain(input) ==>
              (ExactEvidence(input) && Decisions(input, input.call.plan.requiredChildren, A.IdByKey(m.children)).Some?
               <==> OneEach(input) && forall key :: key in input.call.plan.requiredChildren ==> ChildInOrder(input, m, key))
  {
    hide A.IdByKey, ExactEvidence, Decisions, OneEach, ChildInOrder, ReadableMarker, Decide, FP.Keys, FindBoard, FindGit;
    var required, byKey := input.call.plan.requiredChildren, A.IdByKey(m.children);
    DecisionsExactly(input, required, byKey);
    EvidenceExactly(input);
    forall key | key in required && Decide(input, key, byKey[key]).Some?
      ensures FindBoard(input.children, key).Some? && FindGit(input.gitChildren, key).Some?
    {
      DecideFinds(input, key, byKey[key]);
    }
    if OneEach(input) && StableMain(input) {
      forall key | key in required ensures Decide(input, key, byKey[key]).Some? <==> ChildInOrder(input, m, key) {
        DecideExactly(input, m, key);
      }
    }
  }

  lemma DecideFinds(input: Input, key: JsString, taskId: B.TaskId)
    requires Decide(input, key, taskId).Some?
    ensures FindBoard(input.children, key).Some? && FindGit(input.gitChildren, key).Some?
  {
    hide FindBoard, FindGit, FindChild, PathOwned, DoneAsPlanned, VerifiedRun;
  }

  /** The decisions name the branches of the evidence, key by key. */
  ghost predicate Aligned(input: Input, ds: seq<ChildDecision>) {
    |ds| == |input.call.plan.requiredChildren| && forall i :: 0 <= i < |ds| ==> BranchAt(input, ds[i], input.call.plan.requiredChildren[i])
  }

  lemma DistinctBranchesDiffer(input: Input, ds: seq<ChildDecision>)
    requires OneEach(input) && FP.NoDuplicates(input.call.plan.requiredChildren) && Aligned(input, ds)
    requires M.AllDistinct(MapSeq(BranchName, ds))
    ensures BranchesDiffer(input)
  {
    hide OneEach, BranchAt, FP.NoDuplicates;
    var branches := MapSeq(BranchName, ds);
    forall e, f | e in input.gitChildren && f in input.gitChildren && e.key != f.key ensures e.branch != f.branch {
      var i := RequiredPlace(input, e);
      var j := RequiredPlace(input, f);
      SameEvidence(input, e, ds[i], e.key);
      SameEvidence(input, f, ds[j], f.key);
      assert branches[i] == ds[i].branch && branches[j] == ds[j].branch;
    }
  }

  lemma DifferingBranchesDistinct(input: Input, ds: seq<ChildDecision>)
    requires M.AllDistinct(input.call.plan.requiredChildren) && Aligned(input, ds) && BranchesDiffer(input)
    ensures M.AllDistinct(MapSeq(BranchName, ds))
  {
    var branches, required := MapSeq(BranchName, ds), input.call.plan.requiredChildren;
    forall i, j | 0 <= i < j < |branches| ensures branches[i] != branches[j] {
      assert BranchAt(input, ds[i], required[i]) && BranchAt(input, ds[j], required[j]);
      var e :| e in input.gitChildren && e.key == required[i] && e.branch == Some(ds[i].branch);
      var f :| f in input.gitChildren && f.key == required[j] && f.branch == Some(ds[j].branch);
    }
  }

  lemma BranchesExactly(input: Input, m: B.Marker)
    requires input.authority == Some(m) && AuthorityNamesRequired(input) && ReadableMarker(m) && Sound(input.call.plan) && StableMain(input)
    requires ExactEvidence(input) && (forall key :: key in input.call.plan.requiredChildren ==> key in A.IdByKey(m.children))
    requires Decisions(input, input.call.plan.requiredChildren, A.IdByKey(m.children)).Some?
    ensures var ds := Decisions(input, input.call.plan.requiredChildren, A.IdByKey(m.children)).value;
            |set d | d in ds :: d.branch| == |ds| <==> BranchesDiffer(input)
  {
    hide A.IdByKey, Decisions, ReadableMarker, AuthorityNamesRequired, ExactEvidence, FP.Keys, StableMain, OneEach, BranchesDiffer, BranchAt,
      M.AllDistinct;
    var required, byKey := input.call.plan.requiredChildren, A.IdByKey(m.children);
    var ds := Decisions(input, required, byKey).value;
    DecidedExactly(input, m);
    DecidedSize(input, required, byKey);
    BranchSet(ds);
    M.DistinctSize(MapSeq(BranchName, ds));
    M.DistinctSize(required);
    forall i | 0 <= i < |ds| ensures BranchAt(input, ds[i], required[i]) { DecidedBranch(input, m, i); }
    if M.AllDistinct(MapSeq(BranchName, ds)) { DistinctBranchesDiffer(input, ds); }
    if BranchesDiffer(input) { DifferingBranchesDistinct(input, ds); }
  }

  function BranchName(d: ChildDecision): JsString { d.branch }

  lemma BranchSet(ds: seq<ChildDecision>)
    ensures (set d | d in ds :: d.branch) == set b | b in MapSeq(BranchName, ds)
  {
    var branches := MapSeq(BranchName, ds);
    forall d | d in ds ensures d.branch in branches {
      var i :| 0 <= i < |ds| && ds[i] == d;
      assert branches[i] == d.branch;
    }
    forall b | b in branches ensures exists d :: d in ds && d.branch == b {
      var i :| 0 <= i < |ds| && branches[i] == b;
      assert ds[i] in ds;
    }
  }

  ghost predicate BranchAt(input: Input, d: ChildDecision, key: JsString) {
    exists e :: e in input.gitChildren && e.key == key && e.branch == Some(d.branch)
  }

  lemma DecidedSize(input: Input, required: seq<JsString>, byKey: map<JsString, B.TaskId>)
    requires (forall key :: key in required ==> key in byKey) && Decisions(input, required, byKey).Some?
    ensures |Decisions(input, required, byKey).value| == |required|
  {
    if required != [] { DecisionsAt(input, required, byKey, 0); }
  }

  lemma DecidedBranch(input: Input, m: B.Marker, i: nat)
    requires StableMain(input)
    requires forall key :: key in input.call.plan.requiredChildren ==> key in A.IdByKey(m.children)
    requires Decisions(input, input.call.plan.requiredChildren, A.IdByKey(m.children)).Some? && i < |input.call.plan.requiredChildren|
    ensures var ds := Decisions(input, input.call.plan.requiredChildren, A.IdByKey(m.children)).value;
            i < |ds| && BranchAt(input, ds[i], input.call.plan.requiredChildren[i])
  {
    hide A.IdByKey, Find, PathOwned, BoardChild;
    var required := input.call.plan.requiredChildren;
    DecisionsAt(input, required, A.IdByKey(m.children), i);
    var e := FindGit(input.gitChildren, required[i]).value;
    assert e in input.gitChildren && e.key == required[i];
  }

  lemma RequiredPlace(input: Input, e: GitEvidence) returns (i: nat)
    requires OneEach(input) && e in input.gitChildren
    ensures i < |input.call.plan.requiredChildren| && input.call.plan.requiredChildren[i] == e.key
  {
    var keys, required := MapSeq(GitKey, input.gitChildren), input.call.plan.requiredChildren;
    SameMembers(keys, required);
    var k :| 0 <= k < |keys| && input.gitChildren[k] == e;
    assert keys[k] in required;
    i :| 0 <= i < |required| && required[i] == e.key;
  }

  lemma SameEvidence(input: Input, e: GitEvidence, d: ChildDecision, key: JsString)
    requires OneEach(input) && FP.NoDuplicates(input.call.plan.requiredChildren) && e in input.gitChildren && e.key == key
    requires BranchAt(input, d, key)
    ensures e.branch == Some(d.branch)
  {
    EvidenceExactly(input);
    hide FindGit, OneEach;
    var f :| f in input.gitChildren && f.key == key && f.branch == Some(d.branch);
    GitFound(input.gitChildren, e);
    GitFound(input.gitChildren, f);
  }

  // ---- what the decisions say ----

  /** A decision passes on the one piece of Git evidence with its key, and the run that reviewed its task. */
  ghost predicate Faithful(input: Input, d: ChildDecision, c: FP.Child, b: BoardEvidence, e: GitEvidence) {
    && c in input.call.plan.children && c.key == d.key && GitInOrder(input, c, e) && BoardInOrder(input, c, b, d.taskId)
    && e in input.gitChildren && e.key == d.key && (forall f :: f in input.gitChildren && f.key == d.key ==> f == e)
    && b in input.children && b.key == d.key && (forall x :: x in input.children && x.key == d.key ==> x == b)
    && d.head == e.head && Some(d.branch) == e.branch && d.worktree == e.worktree == c.worktree && e.clean && e.mainIsAncestor
    && (forall p :: p in d.changedPaths <==> p in e.changedPaths) && M.Ascending(d.changedPaths)
    && exists i :: 0 <= i < |b.runs| && LatestAt(b.runs, i) && b.runs[i].id == d.verificationRunId
  }

  lemma DecisionSays(input: Input, m: B.Marker, key: JsString, d: ChildDecision)
    returns (c: FP.Child, b: BoardEvidence, e: GitEvidence)
    requires Sound(input.call.plan) && ReadableMarker(m) && OneEach(input) && ObjectFormat(input.objectFormat)
    requires key in input.call.plan.requiredChildren && key in A.IdByKey(m.children)
    requires Decide(input, key, A.IdByKey(m.children)[key]) == Some(d)
    ensures d.key == key && B.ChildTask(key, d.taskId) in m.children && Faithful(input, d, c, b, e)
  {
    var id := A.IdByKey(m.children)[key];
    c, b, e := Found(input, m, key);
    Looked(input, m, key, c, b, e, B.ChildTask(key, id));
    OthersSame(input, key, b, e);
    hide A.IdByKey, ReadableMarker, FP.Keys, BoardInOrder, GitInOrder, BoardChild, GitChild, OneEach, FindChild, FindBoard, FindGit,
      ObjectFormat, Sound, FP.UniqueSorted, M.Ascending, LatestAt, Decide;
    Decided(input, key, id, d);
    BoardExactly(input, key, id, c, b);
    GitExactly(input, key, c, e);
    GitSays(input, c, e);
    FP.UniqueSortedMembers(e.changedPaths);
    M.UniqueSortedAscends(e.changedPaths);
    BoardHasRuns(input, c, b, id);
    var i := LatestPlace(b.runs);
  }

  lemma Decided(input: Input, key: JsString, taskId: B.TaskId, d: ChildDecision)
    requires Decide(input, key, taskId) == Some(d)
    ensures BoardChild(input, key, taskId).Some? && GitChild(input, key).Some? && GitChild(input, key).value.branch == Some(d.branch)
    ensures var g := GitChild(input, key).value;
            d == ChildDecision(key, taskId, BoardChild(input, key, taskId).value.id, d.branch, g.head, g.worktree, g.changedPaths)
  {
    hide BoardChild, GitChild;
  }

  lemma GitSays(input: Input, c: FP.Child, e: GitEvidence)
    requires GitInOrder(input, c, e)
    ensures e.worktree == c.worktree && e.clean && e.mainIsAncestor && e.branch.Some?
  {
  }

  lemma BoardHasRuns(input: Input, c: FP.Child, b: BoardEvidence, taskId: B.TaskId)
    requires BoardInOrder(input, c, b, taskId)
    ensures b.runs != []
  {
  }

  lemma OthersSame(input: Input, key: JsString, b: BoardEvidence, e: GitEvidence)
    requires OneEach(input) && FP.NoDuplicates(input.call.plan.requiredChildren)
    requires FindBoard(input.children, key) == Some(b) && FindGit(input.gitChildren, key) == Some(e)
    ensures forall f :: f in input.gitChildren && f.key == key ==> f == e
    ensures forall x :: x in input.children && x.key == key ==> x == b
  {
    EvidenceExactly(input);
    hide OneEach, FindBoard, FindGit;
    forall f | f in input.gitChildren && f.key == key ensures f == e { GitFound(input.gitChildren, f); }
    forall x | x in input.children && x.key == key ensures x == b { BoardFound(input.children, x); }
  }

  /** When the gate is ready, the i-th decision is about the i-th required child and says what its evidence says. */
  lemma ReadySays(h: A.Externals, input: Input, planned: FP.Plan, worktreesRoot: JsString, i: nat)
    returns (c: FP.Child, b: BoardEvidence, e: GitEvidence)
    requires FP.PlanOf(planned, worktreesRoot) == Some(input.call.plan) && Gate(h, input).Some?
    requires input.authority.Some? && ReadableMarker(input.authority.value) && i < |input.call.plan.requiredChildren|
    ensures |Gate(h, input).value| == |input.call.plan.requiredChildren|
    ensures var d := Gate(h, input).value[i];
            d.key == input.call.plan.requiredChildren[i] && B.ChildTask(d.key, d.taskId) in input.authority.value.children
            && Faithful(input, d, c, b, e)
  {
    hide FP.PlanOf, A.ApprovalFence, CallerFence, DependenciesAsPlanned, A.IdByKey, Sound, ReadableMarker, Decide, Decisions, ExactEvidence,
      OneEach, Faithful;
    PlansAreSound(planned, worktreesRoot);
    var m := input.authority.value;
    DecidedExactly(input, m);
    GateSize(h, input);
    DecisionsAt(input, input.call.plan.requiredChildren, A.IdByKey(m.children), i);
    c, b, e := DecisionSays(input, m, input.call.plan.requiredChildren[i], Gate(h, input).value[i]);
  }

  /** When the gate is ready, every file the evidence of a child lists as changed is in scope, and no file of one child
      equals, contains or lies inside a file of another. */
  lemma ReadyEvidenceDisjoint(h: A.Externals, input: Input, planned: FP.Plan, worktreesRoot: JsString, e: GitEvidence, f: GitEvidence,
                              p: JsString, q: JsString)
    requires FP.PlanOf(planned, worktreesRoot) == Some(input.call.plan) && Gate(h, input).Some?
    requires input.authority.Some? && ReadableMarker(input.authority.value)
    requires e in input.gitChildren && f in input.gitChildren && e.key != f.key && p in e.changedPaths && q in f.changedPaths
    ensures O.InScope(input.call.plan.scopeRoots, p) && O.InScope(input.call.plan.scopeRoots, q)
    ensures !Overlap(p, q)
  {
    hide FP.PlanOf, Gate, InOrder, Overlap, O.InScope, Faithful, ReadableMarker;
    ReadyExactly(h, input, planned, worktreesRoot);
    OneEachInOrder(h, input);
    var i := RequiredPlace(input, e);
    var j := RequiredPlace(input, f);
    var c, b, e' := ReadySays(h, input, planned, worktreesRoot, i);
    var c', b', f' := ReadySays(h, input, planned, worktreesRoot, j);
    FaithfulPaths(input, Gate(h, input).value[i], c, b, e', e, p);
    FaithfulPaths(input, Gate(h, input).value[j], c', b', f', f, q);
    ReadyIsDisjoint(h, input, planned, worktreesRoot, i, j, p, q);
  }

  lemma OneEachInOrder(h: A.Externals, input: Input)
    requires InOrder(h, input)
    ensures OneEach(input)
  {
  }

  lemma FaithfulPaths(input: Input, d: ChildDecision, c: FP.Child, b: BoardEvidence, e: GitEvidence, f: GitEvidence, p: JsString)
    requires Faithful(input, d, c, b, e) && f in input.gitChildren && f.key == d.key && p in f.changedPaths
    ensures p in d.changedPaths
  {
    hide GitInOrder, BoardInOrder;
  }
}
