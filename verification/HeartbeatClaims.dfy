/** What the answers of bootstrap and stop mean: which files, processes and signals of the run they rest on. */
module HeartbeatClaims {
  import opened Wrappers
  import opened HeartbeatLifecycle

  // ---- what a process has seen and done ----

  predicate StepOf(steps: seq<Step>, j: int, i: int, p: Proc) { 0 <= j < i <= |steps| && steps[j].Move? && steps[j].p == p }

  ghost predicate SawAbsent(ss: seq<State>, steps: seq<Step>, i: nat, p: Proc)
    requires |ss| == |steps| + 1
  {
    exists j :: StepOf(steps, j, i, p) && ss[j].pidfile.Absent?
  }

  ghost predicate SawRecord(ss: seq<State>, steps: seq<Step>, i: nat, p: Proc, r: Record)
    requires |ss| == |steps| + 1
  {
    exists j :: StepOf(steps, j, i, p) && ss[j].pidfile == Holds(r)
  }

  /** A step at which the pidfile held the record, and a later one at which its process was live. */
  ghost predicate SawThenLive(ss: seq<State>, steps: seq<Step>, i: nat, p: Proc, r: Record)
    requires |ss| == |steps| + 1
  {
    exists k :: StepOf(steps, k, i, p) && SawRecord(ss, steps, k, p, r) && r.proc in ss[k].live
  }

  ghost predicate SawThenGone(ss: seq<State>, steps: seq<Step>, i: nat, p: Proc, r: Record)
    requires |ss| == |steps| + 1
  {
    exists k :: StepOf(steps, k, i, p) && SawRecord(ss, steps, k, p, r) && r.proc !in ss[k].live
  }

  ghost predicate Sent(steps: seq<Step>, i: nat, p: Proc, x: Proc, force: bool) {
    exists j :: StepOf(steps, j, i, p) && steps[j].effect == Signal(x, force)
  }

  ghost predicate SpawnedPid(steps: seq<Step>, i: nat, p: Proc, pid: nat) {
    exists j :: StepOf(steps, j, i, p) && steps[j].effect.SpawnDaemon? && steps[j].effect.child.pid == pid
  }

  ghost predicate SpawnedWith(steps: seq<Step>, i: nat, d: Proc, token: nat) {
    exists j :: 0 <= j < i <= |steps| && steps[j].Move? && steps[j].effect == SpawnDaemon(d, token)
  }

  /** The daemon saw the lock it was spawned under. */
  ghost predicate SawItsLock(ss: seq<State>, steps: seq<Step>, i: nat, d: Proc)
    requires |ss| == |steps| + 1
  {
    exists k :: StepOf(steps, k, i, d) && ss[k].lock.Holds? && SpawnedWith(steps, k, d, ss[k].lock.value.token)
  }

  /** The pidfile was absent, or held the record of a process that was gone. */
  ghost predicate SawNobody(ss: seq<State>, steps: seq<Step>, i: nat, p: Proc)
    requires |ss| == |steps| + 1
  {
    SawAbsent(ss, steps, i, p) || exists r :: SawThenGone(ss, steps, i, p, r)
  }

  /** What an answer rests on. */
  ghost predicate Grounded(ss: seq<State>, steps: seq<Step>, i: nat, p: Proc, o: Outcome)
    requires |ss| == |steps| + 1
  {
    match o
    case Failed => true
    case Started(r) => SawThenLive(ss, steps, i, p, r)
    case NotRunning => SawAbsent(ss, steps, i, p)
    case Stale(r) => SawThenGone(ss, steps, i, p, r)
    case Stopped(r) => SawRecord(ss, steps, i, p, r) && Sent(steps, i, p, r.proc, false)
  }

  // ---- every program point keeps the history it needs ----

  /** A process is stopped because its record was read, or because it has the pid of the daemon that was spawned. */
  ghost predicate Targeted(ss: seq<State>, steps: seq<Step>, i: nat, p: Proc, record: Record, why: Why)
    requires |ss| == |steps| + 1
  {
    match why
    case StopCommand => SawRecord(ss, steps, i, p, record)
    case DaemonFailed(child, _) => SawRecord(ss, steps, i, p, record) && (child.Some? ==> SpawnedPid(steps, i, p, child.value))
    case SpawnFailed => SpawnedPid(steps, i, p, record.proc.pid)
  }

  ghost predicate AfterKnows(ss: seq<State>, steps: seq<Step>, i: nat, p: Proc, after: Then)
    requires |ss| == |steps| + 1
  {
    match after
    case SpawnNext => SawNobody(ss, steps, i, p)
    case FinishWith(o) => Grounded(ss, steps, i, p, o)
    case StopSpawned(child, _) => child.Some? ==> SpawnedPid(steps, i, p, child.value)
  }

  ghost predicate PointKnows(ss: seq<State>, steps: seq<Step>, i: nat, p: Proc, at: Point)
    requires |ss| == |steps| + 1
  {
    match at
    case ReadPidfile => true
    case CheckExisting(e) => SawRecord(ss, steps, i, p, e)
    case Remove(e, after) => AfterKnows(ss, steps, i, p, after)
    case Unlink(e, after) => AfterKnows(ss, steps, i, p, after)
    case Spawn => SawNobody(ss, steps, i, p)
    case Poll(pid) => SpawnedPid(steps, i, p, pid)
    case PollPidfile(pid, _) => SpawnedPid(steps, i, p, pid)
    case PollCheck(pid, _, e) => SpawnedPid(steps, i, p, pid) && SawRecord(ss, steps, i, p, e)
    case Fail(child, _) => child.Some? ==> SpawnedPid(steps, i, p, child.value)
    case KillCheck(e, why) => !why.StopCommand? && Targeted(ss, steps, i, p, e, why)
    case Term(e, why) => Targeted(ss, steps, i, p, e, why)
    case WaitTerm(e, why) => Targeted(ss, steps, i, p, e, why) && Sent(steps, i, p, e.proc, false)
    case KillRecheck(e, why) => Targeted(ss, steps, i, p, e, why) && Sent(steps, i, p, e.proc, false)
    case Kill(e, why) => Targeted(ss, steps, i, p, e, why) && Sent(steps, i, p, e.proc, false)
    case WaitKill(e, why) => Targeted(ss, steps, i, p, e, why) && Sent(steps, i, p, e.proc, false)
    case Release(o) => Grounded(ss, steps, i, p, o)
    case UnlinkOwn(o) => Grounded(ss, steps, i, p, o)
  }

  ghost predicate Knows(ss: seq<State>, steps: seq<Step>, i: nat, p: Proc, pc: Pc)
    requires |ss| == |steps| + 1
  {
    match pc
    case Critical(_, _, at) => PointKnows(ss, steps, i, p, at)
    case Done(o) => Grounded(ss, steps, i, p, o)
    case DaemonStart(token) => SpawnedWith(steps, i, p, token)
    case DaemonChecked => SawItsLock(ss, steps, i, p)
    case _ => true
  }

  /** What was seen and done stays seen and done. */
  lemma HistoryStays(ss: seq<State>, steps: seq<Step>, i: nat, p: Proc)
    requires |ss| == |steps| + 1 && i < |steps|
    ensures SawAbsent(ss, steps, i, p) ==> SawAbsent(ss, steps, i + 1, p)
    ensures forall r :: SawRecord(ss, steps, i, p, r) ==> SawRecord(ss, steps, i + 1, p, r)
    ensures forall r :: SawThenLive(ss, steps, i, p, r) ==> SawThenLive(ss, steps, i + 1, p, r)
    ensures forall r :: SawThenGone(ss, steps, i, p, r) ==> SawThenGone(ss, steps, i + 1, p, r)
    ensures forall x, force :: Sent(steps, i, p, x, force) ==> Sent(steps, i + 1, p, x, force)
    ensures forall pid :: SpawnedPid(steps, i, p, pid) ==> SpawnedPid(steps, i + 1, p, pid)
    ensures forall token :: SpawnedWith(steps, i, p, token) ==> SpawnedWith(steps, i + 1, p, token)
    ensures SawItsLock(ss, steps, i, p) ==> SawItsLock(ss, steps, i + 1, p)
  {
    assert forall j :: StepOf(steps, j, i, p) ==> StepOf(steps, j, i + 1, p);
  }

  lemma PartsStay(ss: seq<State>, steps: seq<Step>, i: nat, p: Proc)
    requires |ss| == |steps| + 1 && i < |steps|
    ensures SawNobody(ss, steps, i, p) ==> SawNobody(ss, steps, i + 1, p)
    ensures forall o :: Grounded(ss, steps, i, p, o) ==> Grounded(ss, steps, i + 1, p, o)
    ensures forall record, why :: Targeted(ss, steps, i, p, record, why) ==> Targeted(ss, steps, i + 1, p, record, why)
  {
    HistoryStays(ss, steps, i, p);
    hide SawAbsent, SawRecord, SawThenLive, SawThenGone, Sent, SpawnedPid, SpawnedWith, SawItsLock;
    if SawNobody(ss, steps, i, p) && !SawAbsent(ss, steps, i, p) {
      var r :| SawThenGone(ss, steps, i, p, r);
      assert SawThenGone(ss, steps, i + 1, p, r);
    }
  }

  lemma AfterStays(ss: seq<State>, steps: seq<Step>, i: nat, p: Proc, after: Then)
    requires |ss| == |steps| + 1 && i < |steps| && AfterKnows(ss, steps, i, p, after)
    ensures AfterKnows(ss, steps, i + 1, p, after)
  {
    PartsStay(ss, steps, i, p);
    HistoryStays(ss, steps, i, p);
    hide SawAbsent, SawRecord, SawThenLive, SawThenGone, Sent, SpawnedPid, SpawnedWith, SawItsLock, SawNobody, Grounded, Targeted;
  }

  lemma KnowsStays(ss: seq<State>, steps: seq<Step>, i: nat, p: Proc, pc: Pc)
    requires |ss| == |steps| + 1 && i < |steps| && Knows(ss, steps, i, p, pc)
    ensures Knows(ss, steps, i + 1, p, pc)
  {
    PartsStay(ss, steps, i, p);
    HistoryStays(ss, steps, i, p);
    hide SawAbsent, SawRecord, SawThenLive, SawThenGone, Sent, SpawnedPid, SpawnedWith, SawItsLock, SawNobody, Grounded, Targeted,
      AfterKnows;
    if pc.Critical? && (pc.at.Remove? || pc.at.Unlink?) { AfterStays(ss, steps, i, p, pc.at.after); }
  }

  /** What the step at `i` of a process adds to its history. */
  lemma StepSees(ss: seq<State>, steps: seq<Step>, i: nat, p: Proc)
    requires |ss| == |steps| + 1 && i < |steps| && steps[i].Move? && steps[i].p == p
    ensures ss[i].pidfile.Absent? ==> SawAbsent(ss, steps, i + 1, p)
    ensures ss[i].pidfile.Holds? ==> SawRecord(ss, steps, i + 1, p, ss[i].pidfile.value)
    ensures forall r :: SawRecord(ss, steps, i, p, r) ==>
              if r.proc in ss[i].live then SawThenLive(ss, steps, i + 1, p, r) else SawThenGone(ss, steps, i + 1, p, r)
    ensures steps[i].effect.Signal? ==> Sent(steps, i + 1, p, steps[i].effect.target, steps[i].effect.force)
    ensures steps[i].effect.SpawnDaemon? ==> SpawnedPid(steps, i + 1, p, steps[i].effect.child.pid)
    ensures ss[i].lock.Holds? && SpawnedWith(steps, i, p, ss[i].lock.value.token) ==> SawItsLock(ss, steps, i + 1, p)
  {
    hide SawRecord, SpawnedWith;
    assert StepOf(steps, i, i + 1, p);
    if ss[i].pidfile.Holds? { RecordSeen(ss, steps, i, p); }
  }

  lemma RecordSeen(ss: seq<State>, steps: seq<Step>, i: nat, p: Proc)
    requires |ss| == |steps| + 1 && StepOf(steps, i, i + 1, p) && ss[i].pidfile.Holds?
    ensures SawRecord(ss, steps, i + 1, p, ss[i].pidfile.value)
  {
  }

  lemma ThrownKnows(ss: seq<State>, steps: seq<Step>, i: nat, p: Proc, op: Op, at: Point)
    requires |ss| == |steps| + 1 && PointKnows(ss, steps, i, p, at)
    ensures PointKnows(ss, steps, i, p, Thrown(op, at))
  {
    hide SawAbsent, SawRecord, SawThenLive, SawThenGone, Sent, SpawnedPid;
  }

  lemma AfterRemoveKnows(ss: seq<State>, steps: seq<Step>, i: nat, p: Proc, after: Then)
    requires |ss| == |steps| + 1 && AfterKnows(ss, steps, i, p, after)
    ensures PointKnows(ss, steps, i, p, AfterRemove(after))
  {
    hide SawAbsent, SawRecord, SawThenLive, SawThenGone, Sent, SpawnedPid;
  }

  lemma EndedKnows(ss: seq<State>, steps: seq<Step>, i: nat, p: Proc, record: Record, why: Why)
    requires |ss| == |steps| + 1 && Targeted(ss, steps, i, p, record, why)
    requires why.StopCommand? ==> Sent(steps, i, p, record.proc, false)
    ensures PointKnows(ss, steps, i, p, Ended(record, why))
  {
    hide SawAbsent, SawRecord, SawThenLive, SawThenGone, Sent, SpawnedPid;
  }

  lemma ReadingKnows(ss: seq<State>, steps: seq<Step>, i: nat, p: Proc, op: Op, lock: Lock, at: Point, to: Point)
    requires at.ReadPidfile? || at.CheckExisting? || at.Spawn?
    requires |ss| == |steps| + 1 && i < |steps| && steps[i].Move? && steps[i].p == p
    requires PointKnows(ss, steps, i, p, at) && PointKnows(ss, steps, i + 1, p, at)
    requires Advances(ss[i], p, op, lock, at, steps[i].effect, to)
    ensures PointKnows(ss, steps, i + 1, p, to)
  {
    StepSees(ss, steps, i, p);
    hide SawAbsent, SawRecord, SawThenLive, SawThenGone, Sent, SpawnedPid, PidsUnique, AfterRemove, Ended, Targeted;
    if at.CheckExisting? && at.record.proc !in ss[i].live { assert SawThenGone(ss, steps, i + 1, p, at.record); }
  }

  lemma PollingKnows(ss: seq<State>, steps: seq<Step>, i: nat, p: Proc, op: Op, lock: Lock, at: Point, to: Point)
    requires at.Poll? || at.PollPidfile? || at.PollCheck?
    requires |ss| == |steps| + 1 && i < |steps| && steps[i].Move? && steps[i].p == p
    requires PointKnows(ss, steps, i, p, at) && PointKnows(ss, steps, i + 1, p, at)
    requires Advances(ss[i], p, op, lock, at, steps[i].effect, to)
    ensures PointKnows(ss, steps, i + 1, p, to)
  {
    StepSees(ss, steps, i, p);
    hide SawAbsent, SawRecord, SawThenLive, SawThenGone, Sent, SpawnedPid, PidsUnique, AfterRemove, Ended, AfterKnows, Targeted;
  }

  lemma RemovingKnows(ss: seq<State>, steps: seq<Step>, i: nat, p: Proc, op: Op, lock: Lock, at: Point, to: Point)
    requires at.Remove? || at.Unlink? || at.Fail?
    requires |ss| == |steps| + 1 && i < |steps| && steps[i].Move? && steps[i].p == p
    requires PointKnows(ss, steps, i, p, at) && PointKnows(ss, steps, i + 1, p, at)
    requires Advances(ss[i], p, op, lock, at, steps[i].effect, to)
    ensures PointKnows(ss, steps, i + 1, p, to)
  {
    StepSees(ss, steps, i, p);
    hide SawAbsent, SawRecord, SawThenLive, SawThenGone, Sent, SpawnedPid, PidsUnique, AfterRemove, Ended;
    match at {
      case Remove(e, after) => AfterRemoveKnows(ss, steps, i + 1, p, after);
      case Unlink(e, after) => AfterRemoveKnows(ss, steps, i + 1, p, after);
      case Fail(child, started) => AfterRemoveKnows(ss, steps, i + 1, p, StopSpawned(child, started));
    }
  }

  lemma StoppingKnows(ss: seq<State>, steps: seq<Step>, i: nat, p: Proc, op: Op, lock: Lock, at: Point, to: Point)
    requires at.KillCheck? || at.Term? || at.WaitTerm? || at.KillRecheck? || at.Kill? || at.WaitKill?
    requires |ss| == |steps| + 1 && i < |steps| && steps[i].Move? && steps[i].p == p
    requires PointKnows(ss, steps, i, p, at) && PointKnows(ss, steps, i + 1, p, at)
    requires Advances(ss[i], p, op, lock, at, steps[i].effect, to)
    ensures PointKnows(ss, steps, i + 1, p, to)
  {
    StepSees(ss, steps, i, p);
    hide SawAbsent, SawRecord, SawThenLive, SawThenGone, Sent, SpawnedPid, PidsUnique, AfterRemove, Ended, AfterKnows, Grounded, Targeted;
    if (at.KillCheck? || at.WaitTerm? || at.KillRecheck? || at.WaitKill?) && to == Ended(at.record, at.why) {
      EndedKnows(ss, steps, i + 1, p, at.record, at.why);
    }
  }

  lemma AdvancesKnows(ss: seq<State>, steps: seq<Step>, i: nat, p: Proc, op: Op, lock: Lock, at: Point, to: Point)
    requires |ss| == |steps| + 1 && i < |steps| && steps[i].Move? && steps[i].p == p
    requires PointKnows(ss, steps, i, p, at) && Advances(ss[i], p, op, lock, at, steps[i].effect, to)
    ensures PointKnows(ss, steps, i + 1, p, to)
  {
    KnowsStays(ss, steps, i, p, Critical(op, lock, at));
    Proceeds(ss[i], p, op, lock, at, steps[i].effect, to);
    hide PointKnows, Advances;
    if at.ReadPidfile? || at.CheckExisting? || at.Spawn? {
      ReadingKnows(ss, steps, i, p, op, lock, at, to);
    } else if at.Poll? || at.PollPidfile? || at.PollCheck? {
      PollingKnows(ss, steps, i, p, op, lock, at, to);
    } else if at.Remove? || at.Unlink? || at.Fail? {
      RemovingKnows(ss, steps, i, p, op, lock, at, to);
    } else {
      StoppingKnows(ss, steps, i, p, op, lock, at, to);
    }
  }

  lemma Proceeds(s: State, p: Proc, op: Op, lock: Lock, at: Point, effect: Effect, to: Point)
    requires Advances(s, p, op, lock, at, effect, to)
    ensures !at.Release? && !at.UnlinkOwn?
  {
  }

  lemma MoveKnows(ss: seq<State>, steps: seq<Step>, i: nat, p: Proc)
    requires |ss| == |steps| + 1 && i < |steps| && steps[i].Move? && steps[i].p == p
    requires p in ss[i].live && Knows(ss, steps, i, p, ss[i].live[p]) && Moves(ss[i], p, ss[i].live[p], steps[i].effect, steps[i].pc)
    ensures Knows(ss, steps, i + 1, p, steps[i].pc)
  {
    var pc := ss[i].live[p];
    KnowsStays(ss, steps, i, p, pc);
    hide SawAbsent, SawRecord, SawThenLive, SawThenGone, Sent, SpawnedPid, SpawnedWith, SawItsLock, Advances, AfterKnows, Targeted;
    match pc {
      case Critical(op, lock, at) =>
        if at.Release? || at.UnlinkOwn? {
        } else if Advances(ss[i], p, op, lock, at, steps[i].effect, steps[i].pc.at) {
          AdvancesKnows(ss, steps, i, p, op, lock, at, steps[i].pc.at);
        } else {
          ThrownKnows(ss, steps, i + 1, p, op, at);
        }
      case DaemonStart(token) => StepSees(ss, steps, i, p);
      case _ =>
    }
  }

  /** In every chain from an initial state each process has the history its program point needs. */
  lemma {:induction false} ChainKnows(ss: seq<State>, steps: seq<Step>, i: nat, p: Proc)
    requires Chain(ss, steps) && Initial(ss[0]) && i < |ss| && p in ss[i].live
    ensures Knows(ss, steps, i, p, ss[i].live[p])
    decreases i
  {
    hide Moves, Knows, PidsUnique, FilesKnown;
    if i == 0 {
      EntryKnows(ss, steps, 0, p, ss[0].live[p]);
    } else {
      var k := i - 1;
      var step := steps[k];
      assert Allowed(ss[k], step) && ss[i] == After(ss[k], step);
      if step.Move? && step.p == p {
        ChainKnows(ss, steps, k, p);
        MoveKnows(ss, steps, k, p);
        SpawnedIsNew(ss[k], step);
      } else if step.Start? && step.p == p {
        EntryKnows(ss, steps, i, p, step.pc);
      } else if step.Move? && step.effect.SpawnDaemon? && step.effect.child == p {
        SpawnKnows(ss, steps, k, p);
      } else {
        ChainKnows(ss, steps, k, p);
        KnowsStays(ss, steps, k, p, ss[k].live[p]);
      }
    }
  }

  lemma EntryKnows(ss: seq<State>, steps: seq<Step>, i: nat, p: Proc, pc: Pc)
    requires |ss| == |steps| + 1 && Entry(pc)
    ensures Knows(ss, steps, i, p, pc)
  {
  }

  lemma SpawnKnows(ss: seq<State>, steps: seq<Step>, k: nat, d: Proc)
    requires |ss| == |steps| + 1 && k < |steps| && steps[k].Move? && steps[k].effect.SpawnDaemon? && steps[k].effect.child == d
    ensures Knows(ss, steps, k + 1, d, DaemonStart(steps[k].effect.token))
  {
    assert steps[k].effect == SpawnDaemon(d, steps[k].effect.token);
  }

  // ---- what the answers rest on ----

  /** A stop that answers not-running saw the pidfile absent. */
  lemma NotRunningSawNothing(ss: seq<State>, steps: seq<Step>, i: nat, p: Proc)
    requires Chain(ss, steps) && Initial(ss[0]) && i < |ss| && p in ss[i].live && ss[i].live[p] == Done(NotRunning)
    ensures exists j :: StepOf(steps, j, i, p) && ss[j].pidfile.Absent?
  {
    ChainKnows(ss, steps, i, p);
  }

  /** An operation that reports a process stopped read its record and sent it SIGTERM. */
  lemma StoppedWasSignalled(ss: seq<State>, steps: seq<Step>, i: nat, p: Proc, r: Record)
    requires Chain(ss, steps) && Initial(ss[0]) && i < |ss| && p in ss[i].live && ss[i].live[p] == Done(Stopped(r))
    ensures exists j :: StepOf(steps, j, i, p) && steps[j].effect == Signal(r.proc, false)
    ensures exists j :: StepOf(steps, j, i, p) && ss[j].pidfile == Holds(r)
  {
    ChainKnows(ss, steps, i, p);
  }

  /** A bootstrap that reports a daemon started read its record, and afterwards saw its process live. */
  lemma StartedWasLive(ss: seq<State>, steps: seq<Step>, i: nat, p: Proc, r: Record)
    requires Chain(ss, steps) && Initial(ss[0]) && i < |ss| && p in ss[i].live && ss[i].live[p] == Done(Started(r))
    ensures exists j, k :: StepOf(steps, j, k, p) && StepOf(steps, k, i, p) && ss[j].pidfile == Holds(r) && r.proc in ss[k].live
  {
    ChainKnows(ss, steps, i, p);
    var k :| StepOf(steps, k, i, p) && SawRecord(ss, steps, k, p, r) && r.proc in ss[k].live;
    var j :| StepOf(steps, j, k, p) && ss[j].pidfile == Holds(r);
  }

  /** An operation that reports a stale pidfile read the record, and afterwards saw its process gone. */
  lemma StaleWasGone(ss: seq<State>, steps: seq<Step>, i: nat, p: Proc, r: Record)
    requires Chain(ss, steps) && Initial(ss[0]) && i < |ss| && p in ss[i].live && ss[i].live[p] == Done(Stale(r))
    ensures exists j, k :: StepOf(steps, j, k, p) && StepOf(steps, k, i, p) && ss[j].pidfile == Holds(r) && r.proc !in ss[k].live
  {
    ChainKnows(ss, steps, i, p);
    var k :| StepOf(steps, k, i, p) && SawRecord(ss, steps, k, p, r) && r.proc !in ss[k].live;
    var j :| StepOf(steps, j, k, p) && ss[j].pidfile == Holds(r);
  }

  /** A signal goes to a process whose record the sender read, or to the pid of the daemon it spawned, and SIGKILL only
      after SIGTERM. */
  lemma SignalHasTarget(ss: seq<State>, steps: seq<Step>, k: nat)
    requires Chain(ss, steps) && Initial(ss[0]) && k < |steps| && steps[k].Move? && steps[k].effect.Signal?
    ensures var p, x := steps[k].p, steps[k].effect.target;
            && ((exists j :: StepOf(steps, j, k, p) && ss[j].pidfile.Holds? && ss[j].pidfile.value.proc == x)
                || exists j :: StepOf(steps, j, k, p) && steps[j].effect.SpawnDaemon? && steps[j].effect.child.pid == x.pid)
            && (steps[k].effect.force ==> exists j :: StepOf(steps, j, k, p) && steps[j].effect == Signal(x, false))
  {
    var p, x := steps[k].p, steps[k].effect.target;
    assert Allowed(ss[k], steps[k]);
    ChainKnows(ss, steps, k, p);
    SignalPoint(ss[k], p, ss[k].live[p], steps[k].effect, steps[k].pc);
    var at := ss[k].live[p].at;
    if at.why.SpawnFailed? {
      assert SpawnedPid(steps, k, p, x.pid);
    } else {
      assert SawRecord(ss, steps, k, p, at.record);
    }
  }

  lemma SignalPoint(s: State, p: Proc, pc: Pc, effect: Effect, pc': Pc)
    requires Moves(s, p, pc, effect, pc') && effect.Signal?
    ensures pc.Critical? && (pc.at.Term? || pc.at.Kill?) && pc.at.record.proc == effect.target && (pc.at.Kill? <==> effect.force)
  {
  }

  /** A daemon is spawned only after the pidfile was absent, or held the record of a process that was gone. */
  lemma SpawnSawNobody(ss: seq<State>, steps: seq<Step>, k: nat)
    requires Chain(ss, steps) && Initial(ss[0]) && k < |steps| && steps[k].Move? && steps[k].effect.SpawnDaemon?
    ensures SawNobody(ss, steps, k, steps[k].p)
  {
    assert Allowed(ss[k], steps[k]);
    ChainKnows(ss, steps, k, steps[k].p);
  }

  /** A daemon creates the pidfile only after it saw the lock with the token it was spawned with. */
  lemma DaemonSawItsLock(ss: seq<State>, steps: seq<Step>, k: nat)
    requires Chain(ss, steps) && Initial(ss[0]) && k < |steps| && steps[k].Move? && steps[k].effect.CreatePidfile?
    ensures SawItsLock(ss, steps, k, steps[k].p)
  {
    assert Allowed(ss[k], steps[k]);
    ChainKnows(ss, steps, k, steps[k].p);
    CreatorChecked(ss[k], steps[k].p, ss[k].live[steps[k].p], steps[k].effect, steps[k].pc);
  }

  lemma CreatorChecked(s: State, p: Proc, pc: Pc, effect: Effect, pc': Pc)
    requires Moves(s, p, pc, effect, pc') && effect.CreatePidfile?
    ensures pc.DaemonChecked?
  {
  }

  // ---- an operation that meets a live daemon ----

  /** Where an operation can be that read the record `r` of a live process. */
  predicate Met(op: Op, r: Record, pc: Pc) {
    match pc
    case Critical(op', _, at) => op' == op && MetAt(op, r, at)
    case Done(o) => MetEnd(op, r, o)
    case _ => false
  }

  predicate MetEnd(op: Op, r: Record, o: Outcome) { o.Failed? || (op.Stop? && o == Stopped(r)) }

  predicate MetAt(op: Op, r: Record, at: Point) {
    match at
    case Release(o) => MetEnd(op, r, o)
    case UnlinkOwn(o) => MetEnd(op, r, o)
    case Term(e, why) => op.Stop? && e == r && why.StopCommand?
    case WaitTerm(e, why) => op.Stop? && e == r && why.StopCommand?
    case KillRecheck(e, why) => op.Stop? && e == r && why.StopCommand?
    case Kill(e, why) => op.Stop? && e == r && why.StopCommand?
    case WaitKill(e, why) => op.Stop? && e == r && why.StopCommand?
    case Remove(e, after) => op.Stop? && e == r && after == FinishWith(Stopped(r))
    case Unlink(e, after) => op.Stop? && e == r && after == FinishWith(Stopped(r))
    case _ => false
  }

  lemma MetMoves(s: State, p: Proc, op: Op, r: Record, pc: Pc, effect: Effect, pc': Pc)
    requires Met(op, r, pc) && Moves(s, p, pc, effect, pc')
    ensures Met(op, r, pc') && !effect.SpawnDaemon? && (op.Bootstrap? ==> effect.Nothing? || effect.UnlinkLock?)
  {
    hide PidsUnique, IsStart;
  }

  /** The operation read the record at step `j` and, at its next step `k`, its process was live. */
  predicate ReadLive(ss: seq<State>, steps: seq<Step>, j: nat, k: nat, p: Proc, op: Op, r: Record)
    requires |ss| == |steps| + 1
  {
    && j < k < |steps| && steps[j].Move? && steps[j].p == p && steps[k].Move? && steps[k].p == p
    && (forall m :: j < m < k ==> !(steps[m].Move? && steps[m].p == p))
    && p in ss[j].live && ss[j].live[p].Critical? && ss[j].live[p].op == op && ss[j].live[p].at.ReadPidfile?
    && ss[j].pidfile == Holds(r) && r.proc in ss[k].live
  }

  lemma IdsKept(s: State, step: Step)
    requires s.live.Keys <= s.used && Allowed(s, step)
    ensures After(s, step).live.Keys <= After(s, step).used && s.used <= After(s, step).used
    ensures forall p :: p in s.used && p in After(s, step).live ==> p in s.live
    ensures forall p :: p in s.live && p in After(s, step).live && !(step.Move? && step.p == p) ==> After(s, step).live[p] == s.live[p]
  {
    hide Moves;
  }

  lemma {:induction false} IdsInChain(ss: seq<State>, steps: seq<Step>, i: nat)
    requires Chain(ss, steps) && Initial(ss[0]) && i < |ss|
    ensures ss[i].live.Keys <= ss[i].used
    decreases i
  {
    hide Allowed, After;
    if i > 0 {
      IdsInChain(ss, steps, i - 1);
      assert Allowed(ss[i - 1], steps[i - 1]);
      IdsKept(ss[i - 1], steps[i - 1]);
    }
  }

  /** While a process takes no step it stays where it is. */
  lemma {:induction false} Rests(ss: seq<State>, steps: seq<Step>, a: nat, b: nat, p: Proc)
    requires Chain(ss, steps) && Initial(ss[0]) && a <= b < |ss| && p in ss[a].used && p in ss[b].live
    requires forall m :: a <= m < b ==> !(steps[m].Move? && steps[m].p == p)
    ensures p in ss[a].live && ss[b].live[p] == ss[a].live[p]
    decreases b - a
  {
    hide Allowed, After;
    if a < b {
      IdsInChain(ss, steps, a);
      assert Allowed(ss[a], steps[a]) && ss[a + 1] == After(ss[a], steps[a]);
      IdsKept(ss[a], steps[a]);
      Rests(ss, steps, a + 1, b, p);
    }
  }

  lemma FirstStepMeets(s: State, p: Proc, op: Op, r: Record, pc: Pc, effect: Effect, pc': Pc)
    requires pc.Critical? && pc.op == op && pc.at == CheckExisting(r) && r.proc in s.live && Moves(s, p, pc, effect, pc')
    ensures Met(op, r, pc') && effect.Nothing?
  {
  }

  lemma ReadingMoves(s: State, p: Proc, op: Op, r: Record, pc: Pc, effect: Effect, pc': Pc)
    requires pc.Critical? && pc.op == op && pc.at.ReadPidfile? && s.pidfile == Holds(r) && Moves(s, p, pc, effect, pc')
    ensures pc'.Critical? && pc'.op == op && (pc'.at == CheckExisting(r) || pc'.at == Release(Failed))
  {
  }

  /** From the step at which it saw the process live the operation is committed. */
  lemma {:induction false} StaysMet(ss: seq<State>, steps: seq<Step>, j: nat, k: nat, i: nat, p: Proc, op: Op, r: Record)
    requires Chain(ss, steps) && Initial(ss[0]) && ReadLive(ss, steps, j, k, p, op, r) && k < i < |ss| && p in ss[i].live
    ensures Met(op, r, ss[i].live[p])
    decreases i
  {
    hide Moves, Met;
    var m := i - 1;
    assert Allowed(ss[m], steps[m]) && ss[i] == After(ss[m], steps[m]);
    assert Allowed(ss[k], steps[k]);
    UsedLater(ss, steps, k, m, p);
    IdsInChain(ss, steps, m);
    IdsKept(ss[m], steps[m]);
    if m == k {
      MeetsAt(ss, steps, j, k, p, op, r);
      SpawnedIsNew(ss[k], steps[k]);
    } else {
      StaysMet(ss, steps, j, k, m, p, op, r);
      if steps[m].Move? && steps[m].p == p {
        MetMoves(ss[m], p, op, r, ss[m].live[p], steps[m].effect, steps[m].pc);
        SpawnedIsNew(ss[m], steps[m]);
      }
    }
  }

  lemma {:induction false} UsedLater(ss: seq<State>, steps: seq<Step>, a: nat, b: nat, p: Proc)
    requires Chain(ss, steps) && Initial(ss[0]) && a <= b < |ss| && p in ss[a].live
    ensures p in ss[b].used
    decreases b - a
  {
    hide Allowed, After;
    IdsInChain(ss, steps, b);
    if a == b {
    } else {
      UsedLater(ss, steps, a, b - 1, p);
      IdsInChain(ss, steps, b - 1);
      assert Allowed(ss[b - 1], steps[b - 1]) && ss[b - 1 + 1] == After(ss[b - 1], steps[b - 1]);
      IdsKept(ss[b - 1], steps[b - 1]);
    }
  }

  lemma MeetsAt(ss: seq<State>, steps: seq<Step>, j: nat, k: nat, p: Proc, op: Op, r: Record)
    requires Chain(ss, steps) && Initial(ss[0]) && ReadLive(ss, steps, j, k, p, op, r)
    ensures Met(op, r, steps[k].pc) && !steps[k].effect.SpawnDaemon? && (op.Bootstrap? ==> steps[k].effect.Nothing? || steps[k].effect.UnlinkLock?)
  {
    hide Moves, Met;
    assert Allowed(ss[j], steps[j]) && ss[j + 1] == After(ss[j], steps[j]);
    assert Allowed(ss[k], steps[k]);
    ReadingMoves(ss[j], p, op, r, ss[j].live[p], steps[j].effect, steps[j].pc);
    SpawnedIsNew(ss[j], steps[j]);
    IdsInChain(ss, steps, j + 1);
    Rests(ss, steps, j + 1, k, p);
    if ss[k].live[p].at == CheckExisting(r) {
      FirstStepMeets(ss[k], p, op, r, ss[k].live[p], steps[k].effect, steps[k].pc);
    } else {
      FailedMeets(op, r, ss[k].live[p]);
      MetMoves(ss[k], p, op, r, ss[k].live[p], steps[k].effect, steps[k].pc);
    }
  }

  lemma FailedMeets(op: Op, r: Record, pc: Pc)
    requires pc.Critical? && pc.op == op && pc.at == Release(Failed)
    ensures Met(op, r, pc)
  {
  }

  /** An operation that read the record of a live process fails or, when it is a stop, reports that very process stopped,
      after SIGTERM. */
  lemma LiveDaemonIsStopped(ss: seq<State>, steps: seq<Step>, j: nat, k: nat, i: nat, p: Proc, op: Op, r: Record)
    requires Chain(ss, steps) && Initial(ss[0]) && ReadLive(ss, steps, j, k, p, op, r)
    requires k < i < |ss| && p in ss[i].live && ss[i].live[p].Done?
    ensures var o := ss[i].live[p].outcome;
            o == Failed
            || (op == Stop && o == Stopped(r) && exists m :: StepOf(steps, m, i, p) && steps[m].effect == Signal(r.proc, false))
  {
    StaysMet(ss, steps, j, k, i, p, op, r);
    if ss[i].live[p].outcome == Stopped(r) { StoppedWasSignalled(ss, steps, i, p, r); }
  }

  /** It spawns nothing, and a bootstrap touches nothing but its lock. */
  lemma LiveDaemonIsLeft(ss: seq<State>, steps: seq<Step>, j: nat, k: nat, m: nat, p: Proc, op: Op, r: Record)
    requires Chain(ss, steps) && Initial(ss[0]) && ReadLive(ss, steps, j, k, p, op, r)
    requires k <= m < |steps| && steps[m].Move? && steps[m].p == p
    ensures !steps[m].effect.SpawnDaemon? && (op == Bootstrap ==> steps[m].effect.Nothing? || steps[m].effect.UnlinkLock?)
  {
    hide Moves, Met;
    assert Allowed(ss[m], steps[m]);
    if m == k {
      MeetsAt(ss, steps, j, k, p, op, r);
    } else {
      StaysMet(ss, steps, j, k, m, p, op, r);
      MetMoves(ss[m], p, op, r, ss[m].live[p], steps[m].effect, steps[m].pc);
    }
  }

  // ---- what success leaves behind ----

  /** After a success the lock is not the caller's, and the record of a process reported stopped or stale is not in the
      pidfile. */
  predicate Tidy(s: State, p: Proc, pc: Pc) {
    match pc
    case Critical(_, _, at) =>
      && (at.Release? ==> NoTrace(s, at.outcome)) && (at.UnlinkOwn? ==> NoTrace(s, at.outcome))
      && (at.Remove? ==> Names(at.record, at.after)) && (at.Unlink? ==> Names(at.record, at.after))
    case Done(o) => NoTrace(s, o) && (!o.Failed? ==> !OwnsLock(s, p))
    case _ => true
  }

  /** What is reported after a removal is the process whose record is removed. */
  predicate Names(record: Record, after: Then) {
    after.FinishWith? && (after.outcome.Stopped? || after.outcome.Stale?) ==> after.outcome.record == record
  }

  predicate OwnsLock(s: State, p: Proc) { s.lock == Partial(p) || (s.lock.Holds? && s.lock.value.proc == p) }

  predicate NoTrace(s: State, o: Outcome) { o.Stopped? || o.Stale? ==> s.pidfile != Holds(o.record) }

  lemma TraceStaysAway(s: State, step: Step, o: Outcome)
    requires Inv(s) && Allowed(s, step) && OutcomeFits(s, o) && NoTrace(s, o)
    ensures NoTrace(After(s, step), o)
  {
    hide Inv, PidsUnique, AcquireMoves, CriticalMoves;
    if step.Move? && step.effect.FillPidfile? { WriterIsLive(s, step); }
  }

  lemma WriterIsLive(s: State, step: Step)
    requires Inv(s) && Allowed(s, step) && step.Move? && step.effect.FillPidfile?
    ensures step.effect.record.proc in s.live
  {
    assert ProcFits(s, step.p, s.live[step.p]);
  }

  lemma LockStaysAway(s: State, step: Step, p: Proc)
    requires Inv(s) && Allowed(s, step) && !OwnsLock(s, p) && !(step.Move? && step.p == p)
    ensures !OwnsLock(After(s, step), p)
  {
    hide PointFits;
    if step.Move? { assert ProcFits(s, step.p, s.live[step.p]); }
  }

  lemma OutcomeKnown(s: State, p: Proc)
    requires Inv(s) && p in s.live
    ensures s.live[p].Done? ==> OutcomeFits(s, s.live[p].outcome)
    ensures s.live[p].Critical? && s.live[p].at.Release? ==> OutcomeFits(s, s.live[p].at.outcome)
    ensures s.live[p].Critical? && s.live[p].at.UnlinkOwn? ==> OutcomeFits(s, s.live[p].at.outcome)
    ensures s.live[p].Critical? ==> s.lock == Holds(s.live[p].lock) && s.live[p].lock.proc == p
  {
    assert ProcFits(s, p, s.live[p]);
  }

  lemma BystanderTidy(s: State, step: Step, p: Proc)
    requires Inv(s) && Allowed(s, step) && p in s.live && !(step.Move? && step.p == p) && Tidy(s, p, s.live[p])
    ensures Tidy(After(s, step), p, s.live[p])
  {
    OutcomeKnown(s, p);
    hide Inv, Allowed, After, NoTrace, OwnsLock, OutcomeFits;
    match s.live[p] {
      case Critical(_, _, at) =>
        if at.Release? || at.UnlinkOwn? { TraceStaysAway(s, step, at.outcome); }
      case Done(o) =>
        TraceStaysAway(s, step, o);
        if !o.Failed? { LockStaysAway(s, step, p); }
      case _ =>
    }
  }

  lemma {:induction false} RunTidy(ss: seq<State>, steps: seq<Step>, i: nat, p: Proc)
    requires Run(ss, steps) && i < |ss| && p in ss[i].live
    ensures Tidy(ss[i], p, ss[i].live[p])
    decreases i
  {
    hide Inv, Tidy, Timely, Moves, PidsUnique, FilesKnown;
    if i == 0 {
      EntryTidy(ss[0], p, ss[0].live[p]);
    } else {
      var k := i - 1;
      var step := steps[k];
      RunInv(ss, steps, k);
      assert Allowed(ss[k], step) && ss[i] == After(ss[k], step);
      if step.Move? && step.p == p {
        RunTidy(ss, steps, k, p);
        MoverTidy(ss[k], p, step.effect, step.pc);
        SpawnedIsNew(ss[k], step);
      } else if step.Start? && step.p == p {
        EntryTidy(ss[i], p, step.pc);
      } else if step.Move? && step.effect.SpawnDaemon? && step.effect.child == p {
        EntryTidy(ss[i], p, DaemonStart(step.effect.token));
      } else {
        RunTidy(ss, steps, k, p);
        BystanderTidy(ss[k], step, p);
      }
    }
  }

  lemma EntryTidy(s: State, p: Proc, pc: Pc)
    requires Entry(pc) || pc.DaemonStart?
    ensures Tidy(s, p, pc)
  {
  }

  lemma MoverTidy(s: State, p: Proc, effect: Effect, pc: Pc)
    requires Inv(s) && Allowed(s, Move(p, effect, pc)) && Tidy(s, p, s.live[p])
    ensures Tidy(After(s, Move(p, effect, pc)), p, pc)
  {
    OutcomeKnown(s, p);
    hide Inv, PidsUnique;
    if s.live[p].Critical? { CriticalTidy(s, p, effect, pc); }
  }

  lemma CriticalTidy(s: State, p: Proc, effect: Effect, pc: Pc)
    requires Inv(s) && Allowed(s, Move(p, effect, pc)) && s.live[p].Critical? && Tidy(s, p, s.live[p])
    ensures Tidy(After(s, Move(p, effect, pc)), p, pc)
  {
    OutcomeKnown(s, p);
    PointKnown(s, p);
    hide Inv, PidsUnique;
  }

  /** A success leaves the lock to others, and no record of a process it reports stopped or stale. */
  lemma SuccessLeavesNoTrace(ss: seq<State>, steps: seq<Step>, i: nat, p: Proc)
    requires Run(ss, steps) && i < |ss| && p in ss[i].live && ss[i].live[p].Done?
    ensures var o, s := ss[i].live[p].outcome, ss[i];
            && (o != Failed ==> s.lock != Partial(p) && !(s.lock.Holds? && s.lock.value.proc == p))
            && (o.Stopped? || o.Stale? ==> s.pidfile != Holds(o.record))
  {
    RunTidy(ss, steps, i, p);
  }

  // ---- the usual run ----

  /** An operation that has come to its answer gives the lock back. */
  lemma Finishes(ss: seq<State>, steps: seq<Step>, p: Proc) returns (ss': seq<State>, steps': seq<Step>)
    requires Chain(ss, steps)
    requires var s := ss[|steps|];
             p in s.live && s.live[p].Critical? && s.live[p].at.Release? && s.lock == Holds(s.live[p].lock)
    ensures |ss'| == |steps'| + 1 && Chain(ss', steps') && ss'[0] == ss[0]
    ensures var s := ss[|steps|]; ss'[|steps'|] == s.(live := s.live[p := Done(s.live[p].at.outcome)], lock := Absent)
  {
    var c := ss[|steps|].live[p];
    hide Chain;
    ss', steps' := Extend(ss, steps, Move(p, Nothing, Critical(c.op, c.lock, UnlinkOwn(c.at.outcome))));
    ss', steps' := Extend(ss', steps', Move(p, UnlinkLock, Done(c.at.outcome)));
  }

  /** The daemon that was spawned comes up in time. */
  lemma ComesUp(ss: seq<State>, steps: seq<Step>, p: Proc, r: Record) returns (ss': seq<State>, steps': seq<Step>)
    requires Chain(ss, steps)
    requires var s := ss[|steps|];
             p in s.live && r.proc in s.live && s.live[p].Critical? && s.live[p].at == Poll(r.proc.pid) && s.pidfile == Holds(r)
    ensures |ss'| == |steps'| + 1 && Chain(ss', steps') && ss'[0] == ss[0]
    ensures var s := ss[|steps|]; ss'[|steps'|] == s.(live := s.live[p := s.live[p].(at := Release(Started(r)))])
  {
    var pid, started := r.proc.pid, Some(r.proc.start);
    hide Chain;
    ss', steps' := CriticalStep(ss, steps, p, Nothing, PollPidfile(pid, started));
    ss', steps' := CriticalStep(ss', steps', p, Nothing, PollCheck(pid, started, r));
    ss', steps' := CriticalStep(ss', steps', p, Nothing, Release(Started(r)));
  }

  /** A stop reads the record of a live daemon and sends SIGTERM. */
  lemma Signals(ss: seq<State>, steps: seq<Step>, q: Proc, r: Record) returns (ss': seq<State>, steps': seq<Step>)
    requires Chain(ss, steps)
    requires var s := ss[|steps|];
             q in s.live && r.proc in s.live && s.live[q].Critical? && s.live[q].op == Stop && s.live[q].at == ReadPidfile
             && s.pidfile == Holds(r) && r.proc != q
    ensures |ss'| == |steps'| + 1 && Chain(ss', steps') && ss'[0] == ss[0]
    ensures var s := ss[|steps|]; ss'[|steps'|] == s.(live := s.live[q := s.live[q].(at := WaitTerm(r, StopCommand))])
  {
    hide Chain;
    ss', steps' := CriticalStep(ss, steps, q, Nothing, CheckExisting(r));
    ss', steps' := CriticalStep(ss', steps', q, Nothing, Term(r, StopCommand));
    ss', steps' := CriticalStep(ss', steps', q, Signal(r.proc, false), WaitTerm(r, StopCommand));
  }

  /** The daemon leaves its loop, removes its record and ends. */
  lemma Leaves(ss: seq<State>, steps: seq<Step>, r: Record) returns (ss': seq<State>, steps': seq<Step>)
    requires Chain(ss, steps)
    requires var s := ss[|steps|]; r.proc in s.live && s.live[r.proc] == DaemonLooping(r) && s.pidfile == Holds(r)
    ensures |ss'| == |steps'| + 1 && Chain(ss', steps') && ss'[0] == ss[0]
    ensures var s := ss[|steps|]; ss'[|steps'|] == s.(live := s.live - {r.proc}, pidfile := Absent)
  {
    var s := ss[|steps|];
    hide Chain;
    ss', steps' := FindsRecord(ss, steps, r);
    ss', steps' := Extend(ss', steps', Move(r.proc, UnlinkPidfile, Done(Failed)));
    ss', steps' := Extend(ss', steps', Exit(r.proc));
    assert ss'[|steps'|].live == s.live - {r.proc};
  }

  lemma FindsRecord(ss: seq<State>, steps: seq<Step>, r: Record) returns (ss': seq<State>, steps': seq<Step>)
    requires Chain(ss, steps)
    requires var s := ss[|steps|]; r.proc in s.live && s.live[r.proc] == DaemonLooping(r) && s.pidfile == Holds(r)
    ensures |ss'| == |steps'| + 1 && Chain(ss', steps') && ss'[0] == ss[0]
    ensures var s := ss[|steps|]; ss'[|steps'|] == s.(live := s.live[r.proc := DaemonUnlink(r)])
  {
    var s := ss[|steps|];
    hide Chain;
    ss', steps' := Extend(ss, steps, Move(r.proc, Nothing, DaemonRemove(r)));
    ss', steps' := Extend(ss', steps', Move(r.proc, Nothing, DaemonUnlink(r)));
    assert ss'[|steps'|].live == s.live[r.proc := DaemonUnlink(r)];
  }

  lemma SeesGone(ss: seq<State>, steps: seq<Step>, q: Proc, r: Record) returns (ss': seq<State>, steps': seq<Step>)
    requires Chain(ss, steps)
    requires var s := ss[|steps|];
             q in s.live && r.proc !in s.live && s.live[q].Critical? && s.live[q].at == WaitTerm(r, StopCommand) && s.pidfile.Absent?
    ensures |ss'| == |steps'| + 1 && Chain(ss', steps') && ss'[0] == ss[0]
    ensures var s := ss[|steps|]; ss'[|steps'|] == s.(live := s.live[q := s.live[q].(at := Release(Stopped(r)))])
  {
    hide Chain;
    ss', steps' := CriticalStep(ss, steps, q, Nothing, Remove(r, FinishWith(Stopped(r))));
    ss', steps' := CriticalStep(ss', steps', q, Nothing, Release(Stopped(r)));
  }

  lemma Starts(s: State, p: Proc, d: Proc, r: Record) returns (ss: seq<State>, steps: seq<Step>)
    requires p in s.live && s.live[p] == Acquiring(Bootstrap, 0) && Unused(s, d) && d != p && r.proc == d
    requires s.lock.Absent? && s.pidfile.Absent?
    ensures |ss| == |steps| + 1 && Chain(ss, steps) && ss[0] == s
    ensures ss[|steps|] == State(s.live[p := Done(Started(r))][d := DaemonLooping(r)], s.used + {d}, Absent, Holds(r))
  {
    hide Allowed, After;
    ss, steps := [s], [];
    ss, steps := TakesFreeLock(ss, steps, p, Lock(p, 0, 0));
    ss, steps := Spawns(ss, steps, p, d);
    ss, steps := ComesToLoop(ss, steps, d, r);
    ss, steps := ComesUp(ss, steps, p, r);
    ss, steps := Finishes(ss, steps, p);
    assert ss[|steps|].live == s.live[p := Done(Started(r))][d := DaemonLooping(r)];
  }

  /** A bootstrap on a free session starts a daemon and says so; a stop afterwards ends it and says so; the lock and the
      pidfile are gone. */
  lemma UsualRun(s: State, p: Proc, q: Proc, d: Proc) returns (ss: seq<State>, steps: seq<Step>, m: nat)
    requires Initial(s) && p in s.live && s.live[p] == Acquiring(Bootstrap, 0) && q in s.live && s.live[q] == Acquiring(Stop, 0)
    requires s.lock.Absent? && s.pidfile.Absent? && Unused(s, d)
    ensures m < |steps| && |ss| == |steps| + 1 && Chain(ss, steps) && ss[0] == s
    ensures var r := Record(d, 0);
            && p in ss[m].live && ss[m].live[p] == Done(Started(r)) && d in ss[m].live && ss[m].live[d] == DaemonLooping(r)
            && var last := ss[|steps|];
               q in last.live && last.live[q] == Done(Stopped(r)) && d !in last.live && last.lock.Absent? && last.pidfile.Absent?
  {
    var r := Record(d, 0);
    NotYet(s, p, q, d);
    hide Allowed, After, PidsUnique, FilesKnown, Unused;
    ss, steps := Starts(s, p, d, r);
    m := |steps|;
    var more, moves := StopsLive(ss[m], q, r);
    JoinChains(ss, steps, more, moves);
    ss, steps := ss + more[1..], steps + moves;
  }

  lemma NotYet(s: State, p: Proc, q: Proc, d: Proc)
    requires Initial(s) && p in s.live && q in s.live && Unused(s, d)
    ensures d != p && d != q && d !in s.live
  {
  }

  lemma StopsLive(s: State, q: Proc, r: Record) returns (ss: seq<State>, steps: seq<Step>)
    requires q in s.live && s.live[q] == Acquiring(Stop, 0) && r.proc in s.live && s.live[r.proc] == DaemonLooping(r) && r.proc != q
    requires s.lock.Absent? && s.pidfile == Holds(r)
    ensures steps != [] && |ss| == |steps| + 1 && Chain(ss, steps) && ss[0] == s
    ensures var last := ss[|steps|];
            q in last.live && last.live[q] == Done(Stopped(r)) && r.proc !in last.live && last.lock.Absent? && last.pidfile.Absent?
  {
    hide Allowed, After;
    ss, steps := [s], [];
    ss, steps := TakesFreeLock(ss, steps, q, Lock(q, 1, 0));
    ss, steps := Signals(ss, steps, q, r);
    ss, steps := Leaves(ss, steps, r);
    ss, steps := SeesGone(ss, steps, q, r);
    ss, steps := Finishes(ss, steps, q);
  }

  lemma JoinChains(ss: seq<State>, steps: seq<Step>, more: seq<State>, moves: seq<Step>)
    requires Chain(ss, steps) && Chain(more, moves) && more[0] == ss[|steps|]
    ensures Chain(ss + more[1..], steps + moves)
    ensures (ss + more[1..])[|steps|] == ss[|steps|] && (ss + more[1..])[|steps + moves|] == more[|moves|] && (ss + more[1..])[0] == ss[0]
  {
    hide Allowed, After;
    var all, whole := ss + more[1..], steps + moves;
    forall i | 0 <= i < |whole| ensures Allowed(all[i], whole[i]) && all[i + 1] == After(all[i], whole[i]) {
      if i < |steps| {
        assert all[i] == ss[i] && all[i + 1] == ss[i + 1] && whole[i] == steps[i];
      } else {
        var k := i - |steps|;
        assert all[i] == more[k] && all[i + 1] == more[k + 1] && whole[i] == moves[k];
      }
    }
  }
}
