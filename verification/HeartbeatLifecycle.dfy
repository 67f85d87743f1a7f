/** The heartbeat lifecycle of one provider session: CLI operations, daemons and unrelated processes interleave over
    the lock file and the pidfile. A process is a pid and a start time; a pid is used again, the pair never. */
module HeartbeatLifecycle {
  import opened Wrappers

  datatype Proc = Proc(pid: nat, start: nat)
  datatype Record = Record(proc: Proc, createdAt: nat)
  datatype Lock = Lock(proc: Proc, token: nat, createdAt: nat)

  /** A file is created empty by one process and filled in a later step. */
  datatype File<T> = Absent | Partial(creator: Proc) | Holds(value: T)

  datatype Op = Bootstrap | Stop
  datatype Outcome = Failed | Started(record: Record) | NotRunning | Stale(record: Record) | Stopped(record: Record)

  /** What follows the removal of a pidfile. */
  datatype Then = SpawnNext | FinishWith(outcome: Outcome) | StopSpawned(child: Option<nat>, started: Option<nat>)

  /** On whose behalf a process is being stopped. */
  datatype Why = StopCommand | DaemonFailed(child: Option<nat>, started: Option<nat>) | SpawnFailed

  /** The program points of bootstrap and stop while they hold the lock. */
  datatype Point =
    | ReadPidfile
    | CheckExisting(record: Record)
    | Remove(record: Record, after: Then)
    | Unlink(record: Record, after: Then)
    | Spawn
    | Poll(pid: nat)
    | PollPidfile(pid: nat, started: Option<nat>)
    | PollCheck(pid: nat, started: Option<nat>, record: Record)
    | Fail(child: Option<nat>, started: Option<nat>)
    | KillCheck(record: Record, why: Why)
    | Term(record: Record, why: Why)
    | WaitTerm(record: Record, why: Why)
    | KillRecheck(record: Record, why: Why)
    | Kill(record: Record, why: Why)
    | WaitKill(record: Record, why: Why)
    | Release(outcome: Outcome)
    | UnlinkOwn(outcome: Outcome)

  datatype Pc =
    | Other
    | Acquiring(op: Op, attempt: nat)
    | WritingLock(op: Op, lock: Lock)
    | WrittenLock(op: Op, lock: Lock)
    | LockTaken(op: Op, attempt: nat)
    | LockSeen(op: Op, attempt: nat, existing: Lock)
    | LockStale(op: Op, attempt: nat, existing: Lock)
    | LockUnlink(op: Op, attempt: nat, existing: Lock)
    | Critical(op: Op, lock: Lock, at: Point)
    | DaemonStart(token: nat)
    | DaemonChecked
    | DaemonWriting(record: Record)
    | DaemonWritten(record: Record)
    | DaemonLooping(record: Record)
    | DaemonRemove(record: Record)
    | DaemonUnlink(record: Record)
    | Done(outcome: Outcome)

  datatype State = State(live: map<Proc, Pc>, used: set<Proc>, lock: File<Lock>, pidfile: File<Record>)

  datatype Effect =
    | Nothing
    | CreateLock
    | FillLock(lock: Lock)
    | UnlinkLock
    | CreatePidfile
    | FillPidfile(record: Record)
    | UnlinkPidfile
    | SpawnDaemon(child: Proc, token: nat)
    | Signal(target: Proc, force: bool)

  /** A process starts, takes a step of its program, or ends for whatever reason. */
  datatype Step = Start(p: Proc, pc: Pc) | Move(p: Proc, effect: Effect, pc: Pc) | Exit(p: Proc)

  // ---- the programs ----

  /** What getProcessStartTime answers for a pid. */
  predicate IsStart(s: State, pid: nat, started: Option<nat>) {
    if started.Some? then Proc(pid, started.value) in s.live else forall p :: p in s.live ==> p.pid != pid
  }

  function AfterRemove(after: Then): Point {
    match after
    case SpawnNext => Spawn
    case FinishWith(outcome) => Release(outcome)
    case StopSpawned(child, started) =>
      if child.None? || started.None? then Release(Failed)
      else KillCheck(Record(Proc(child.value, started.value), 0), SpawnFailed)
  }

  /** Where stopping a process leads once the process is given up on or gone. */
  function Ended(record: Record, why: Why): Point {
    match why
    case StopCommand => Remove(record, FinishWith(Stopped(record)))
    case DaemonFailed(child, started) => Remove(record, StopSpawned(child, started))
    case SpawnFailed => Release(Failed)
  }

  /** Where an exception at a point leads: to the catch block after the spawn, otherwise to the release. */
  function Thrown(op: Op, at: Point): Point {
    match at
    case Spawn => Fail(None, None)
    case Poll(pid) => Fail(Some(pid), None)
    case PollPidfile(pid, started) => Fail(Some(pid), started)
    case PollCheck(pid, started, _) => Fail(Some(pid), started)
    case _ => Release(Failed)
  }

  /** One step of bootstrap or stop under the lock, without exceptions. */
  predicate Advances(s: State, p: Proc, op: Op, lock: Lock, at: Point, effect: Effect, to: Point) {
    match at
    case ReadPidfile =>
      effect == Nothing
      && ((s.pidfile.Absent? && to == (if op.Bootstrap? then Spawn else Release(NotRunning)))
          || (s.pidfile.Holds? && to == CheckExisting(s.pidfile.value)))
    case CheckExisting(e) =>
      effect == Nothing
      && to == (if e.proc in s.live then (if op.Bootstrap? then Release(Failed) else Term(e, StopCommand))
                else Remove(e, if op.Bootstrap? then SpawnNext else FinishWith(Stale(e))))
    case Remove(e, after) =>
      effect == Nothing && !s.pidfile.Partial? && to == (if s.pidfile == Holds(e) then Unlink(e, after) else AfterRemove(after))
    case Unlink(e, after) => effect == UnlinkPidfile && !s.pidfile.Absent? && to == AfterRemove(after)
    case Spawn => effect.SpawnDaemon? && effect.token == lock.token && to == Poll(effect.child.pid)
    case Poll(pid) => effect == Nothing && to.PollPidfile? && to.pid == pid && IsStart(s, pid, to.started)
    case PollPidfile(pid, started) =>
      effect == Nothing
      && ((s.pidfile.Absent? && (to == Fail(Some(pid), started) || (started.Some? && to == Poll(pid))))
          || (s.pidfile.Holds? && to == PollCheck(pid, started, s.pidfile.value)))
    case PollCheck(pid, started, e) =>
      effect == Nothing
      && (if e.proc in s.live then to == Release(Started(e)) else to == Poll(pid) || to == Fail(Some(pid), started))
    case Fail(child, started) =>
      effect == Nothing
      && ((s.pidfile.Absent? && to == AfterRemove(StopSpawned(child, started)))
          || (s.pidfile.Holds? && to == KillCheck(s.pidfile.value, DaemonFailed(child, started))))
    case KillCheck(e, why) => effect == Nothing && to == if e.proc in s.live then Term(e, why) else Ended(e, why)
    case Term(e, why) => effect == Signal(e.proc, false) && to == WaitTerm(e, why)
    case WaitTerm(e, why) =>
      effect == Nothing && (if e.proc in s.live then to == at || to == KillRecheck(e, why) else to == Ended(e, why))
    case KillRecheck(e, why) =>
      effect == Nothing
      && to == (if e.proc in s.live then Kill(e, why) else if why.StopCommand? then WaitKill(e, why) else Ended(e, why))
    case Kill(e, why) => effect == Signal(e.proc, true) && to == WaitKill(e, why)
    case WaitKill(e, why) =>
      effect == Nothing
      && (if e.proc in s.live then to == at || to == (if why.StopCommand? then Release(Failed) else Ended(e, why))
          else to == Ended(e, why))
    case Release(o) => false
    case UnlinkOwn(o) => false
  }

  /** One step of a process that holds the lock. */
  predicate CriticalMoves(s: State, p: Proc, op: Op, lock: Lock, at: Point, effect: Effect, pc: Pc) {
    if at.Release? then
      effect == Nothing
      && (pc == Done(Failed)
          || (!s.lock.Partial? && pc == if s.lock == Holds(lock) then Critical(op, lock, UnlinkOwn(at.outcome)) else Done(at.outcome)))
    else if at.UnlinkOwn? then
      (effect == UnlinkLock && !s.lock.Absent? && pc == Done(at.outcome)) || (effect == Nothing && pc == Done(Failed))
    else
      pc.Critical? && pc.op == op && pc.lock == lock
      && (Advances(s, p, op, lock, at, effect, pc.at) || (effect == Nothing && pc.at == Thrown(op, at)))
  }

  /** One step of acquireOperationLock. */
  predicate AcquireMoves(s: State, p: Proc, pc: Pc, effect: Effect, pc': Pc) {
    match pc
    case Acquiring(op, n) =>
      if n >= 3 then effect == Nothing && pc' == Done(Failed)
      else if s.lock.Absent? then effect == CreateLock && pc'.WritingLock? && pc'.op == op && pc'.lock.proc == p
      else effect == Nothing && pc' == LockTaken(op, n)
    case WritingLock(op, lock) =>
      (effect == FillLock(lock) && pc' == WrittenLock(op, lock)) || (effect == UnlinkLock && pc' == Done(Failed))
    case WrittenLock(op, lock) =>
      (effect == Nothing && pc' == Critical(op, lock, ReadPidfile)) || (effect == UnlinkLock && pc' == Done(Failed))
    case LockTaken(op, n) =>
      effect == Nothing
      && pc' == (match s.lock
                 case Absent => Acquiring(op, n + 1)
                 case Partial(_) => Done(Failed)
                 case Holds(existing) => LockSeen(op, n, existing))
    case LockSeen(op, n, existing) =>
      effect == Nothing && pc' == if existing.proc in s.live then Done(Failed) else LockStale(op, n, existing)
    case LockStale(op, n, existing) =>
      effect == Nothing
      && pc' == if s.lock.Partial? then Done(Failed) else if s.lock == Holds(existing) then LockUnlink(op, n, existing) else Acquiring(op, n + 1)
    case LockUnlink(op, n, existing) =>
      if s.lock.Absent? then effect == Nothing && pc' == Done(Failed) else effect == UnlinkLock && pc' == Acquiring(op, n + 1)
    case _ => false
  }

  /** One step of runHeartbeatDaemon. */
  predicate DaemonMoves(s: State, p: Proc, pc: Pc, effect: Effect, pc': Pc) {
    match pc
    case DaemonStart(token) =>
      effect == Nothing && pc' == if s.lock.Holds? && s.lock.value.token == token then DaemonChecked else Done(Failed)
    case DaemonChecked =>
      if s.pidfile.Absent? then effect == CreatePidfile && pc'.DaemonWriting? && pc'.record.proc == p
      else effect == Nothing && pc' == Done(Failed)
    case DaemonWriting(r) =>
      (effect == FillPidfile(r) && pc' == DaemonWritten(r)) || (effect == UnlinkPidfile && pc' == Done(Failed))
    case DaemonWritten(r) =>
      (effect == Nothing && pc' == DaemonLooping(r)) || (effect == UnlinkPidfile && pc' == Done(Failed))
    case DaemonLooping(r) => effect == Nothing && (pc' == pc || pc' == DaemonRemove(r))
    case DaemonRemove(r) =>
      effect == Nothing && (pc' == Done(Failed) || (s.pidfile == Holds(r) && pc' == DaemonUnlink(r)))
    case DaemonUnlink(r) => effect == (if s.pidfile.Absent? then Nothing else UnlinkPidfile) && pc' == Done(Failed)
    case _ => false
  }

  predicate Moves(s: State, p: Proc, pc: Pc, effect: Effect, pc': Pc) {
    match pc
    case Critical(op, lock, at) => CriticalMoves(s, p, op, lock, at, effect, pc')
    case Other => effect == Nothing && pc' == Other
    case Done(_) => false
    case _ => AcquireMoves(s, p, pc, effect, pc') || DaemonMoves(s, p, pc, effect, pc')
  }

  // ---- the transition system ----

  /** A new process: its identity was never used, and no live process has its pid. */
  predicate Unused(s: State, p: Proc) {
    p !in s.used && forall q :: q in s.live ==> q.pid != p.pid
  }

  predicate Entry(pc: Pc) { pc == Other || (pc.Acquiring? && pc.attempt == 0) }

  predicate Allowed(s: State, step: Step) {
    match step
    case Start(p, pc) => Unused(s, p) && Entry(pc)
    case Move(p, effect, pc) =>
      p in s.live && Moves(s, p, s.live[p], effect, pc) && (effect.SpawnDaemon? ==> Unused(s, effect.child))
    case Exit(p) => p in s.live
  }

  function LockAfter(s: State, p: Proc, effect: Effect): File<Lock> {
    match effect
    case CreateLock => Partial(p)
    case FillLock(lock) => Holds(lock)
    case UnlinkLock => Absent
    case _ => s.lock
  }

  function PidfileAfter(s: State, p: Proc, effect: Effect): File<Record> {
    match effect
    case CreatePidfile => Partial(p)
    case FillPidfile(record) => Holds(record)
    case UnlinkPidfile => Absent
    case _ => s.pidfile
  }

  function After(s: State, step: Step): State {
    match step
    case Start(p, pc) => s.(live := s.live[p := pc], used := s.used + {p})
    case Exit(p) => s.(live := s.live - {p})
    case Move(p, effect, pc) =>
      var moved := s.(live := s.live[p := pc], lock := LockAfter(s, p, effect), pidfile := PidfileAfter(s, p, effect));
      if effect.SpawnDaemon? then
        moved.(live := moved.live[effect.child := DaemonStart(effect.token)], used := moved.used + {effect.child})
      else moved
  }

  predicate HoldsLock(pc: Pc) { pc.WrittenLock? || pc.Critical? }

  /** A lock that was found stale and compared belongs to no live process when it is unlinked. */
  predicate UnlinksNobodys(s: State, step: Step) {
    step.Move? && step.effect.UnlinkLock? && step.p in s.live && s.live[step.p].LockUnlink?
    ==> forall q :: q in s.live ==> !HoldsLock(s.live[q]) && !s.live[q].WritingLock?
  }

  /** A process sent SIGKILL is gone when the wait for it is over. */
  predicate KilledIsGone(s: State, step: Step) {
    step.Move? && step.p in s.live && s.live[step.p].Critical? && s.live[step.p].at.WaitKill?
    && step.pc.Critical? && step.pc.at.Remove?
    ==> s.live[step.p].at.record.proc !in s.live
  }

  predicate Timely(s: State, step: Step) { UnlinksNobodys(s, step) && KilledIsGone(s, step) }

  // ---- the invariant ----

  predicate Dead(s: State, p: Proc) { p in s.used && p !in s.live }

  predicate PidsUnique(s: State) {
    s.live.Keys <= s.used && forall p, q :: p in s.live && q in s.live && p.pid == q.pid ==> p == q
  }

  predicate FilesKnown(s: State) {
    (s.lock.Holds? ==> s.lock.value.proc in s.used) && (s.pidfile.Holds? ==> s.pidfile.value.proc in s.used)
  }

  predicate OwnsPidfile(pc: Pc) {
    pc.DaemonWritten? || pc.DaemonLooping? || pc.DaemonRemove? || pc.DaemonUnlink?
  }

  predicate LockFits(s: State, p: Proc, pc: Pc) {
    && (HoldsLock(pc) ==> pc.lock.proc == p && s.lock == Holds(pc.lock))
    && (pc.WritingLock? ==> pc.lock.proc == p && s.lock == Partial(p))
    && (pc.LockSeen? ==> pc.existing.proc in s.used)
    && (pc.LockStale? || pc.LockUnlink? ==> Dead(s, pc.existing.proc))
  }

  predicate PidfileFits(s: State, p: Proc, pc: Pc) {
    && (OwnsPidfile(pc) ==> pc.record.proc == p && s.pidfile == Holds(pc.record))
    && (pc.DaemonWriting? ==> pc.record.proc == p && s.pidfile == Partial(p))
  }

  /** Claims about a process that is gone. */
  predicate OutcomeFits(s: State, o: Outcome) { o.Stale? || o.Stopped? ==> Dead(s, o.record.proc) }

  predicate ChildFits(s: State, child: Option<nat>, started: Option<nat>) {
    child.Some? && started.Some? ==> Proc(child.value, started.value) in s.used
  }

  predicate AfterFits(s: State, after: Then) {
    (after.FinishWith? ==> OutcomeFits(s, after.outcome)) && (after.StopSpawned? ==> ChildFits(s, after.child, after.started))
  }

  predicate WhyFits(s: State, why: Why) { why.DaemonFailed? ==> ChildFits(s, why.child, why.started) }

  predicate PointFits(s: State, at: Point) {
    match at
    case CheckExisting(e) => e.proc in s.used
    case Remove(e, after) => Dead(s, e.proc) && AfterFits(s, after)
    case Unlink(e, after) => Dead(s, e.proc) && s.pidfile == Holds(e) && AfterFits(s, after)
    case PollPidfile(pid, started) => ChildFits(s, Some(pid), started)
    case PollCheck(pid, started, e) => e.proc in s.used && ChildFits(s, Some(pid), started)
    case Fail(child, started) => ChildFits(s, child, started)
    case KillCheck(e, why) => e.proc in s.used && WhyFits(s, why)
    case Term(e, why) => e.proc in s.used && WhyFits(s, why)
    case WaitTerm(e, why) => e.proc in s.used && WhyFits(s, why)
    case KillRecheck(e, why) => e.proc in s.used && WhyFits(s, why)
    case Kill(e, why) => e.proc in s.used && WhyFits(s, why)
    case WaitKill(e, why) => e.proc in s.used && WhyFits(s, why)
    case Release(o) => OutcomeFits(s, o)
    case UnlinkOwn(o) => OutcomeFits(s, o)
    case _ => true
  }

  predicate ProcFits(s: State, p: Proc, pc: Pc) {
    && LockFits(s, p, pc) && PidfileFits(s, p, pc)
    && (pc.Critical? ==> PointFits(s, pc.at)) && (pc.Done? ==> OutcomeFits(s, pc.outcome))
  }

  predicate Inv(s: State) {
    PidsUnique(s) && FilesKnown(s) && forall p :: p in s.live ==> ProcFits(s, p, s.live[p])
  }

  // ---- what the invariant says ----

  /** At most one live process holds the lock. */
  lemma OneHolder(s: State, p: Proc, q: Proc)
    requires Inv(s) && p in s.live && q in s.live && HoldsLock(s.live[p]) && HoldsLock(s.live[q])
    ensures p == q
  {
    assert ProcFits(s, p, s.live[p]) && ProcFits(s, q, s.live[q]);
  }

  /** A daemon in its loop has its own record in the pidfile, so at most one daemon loops. */
  lemma OneLoop(s: State, p: Proc, q: Proc)
    requires Inv(s) && p in s.live && q in s.live && s.live[p].DaemonLooping? && s.live[q].DaemonLooping?
    ensures s.pidfile == Holds(s.live[p].record) && s.live[p].record.proc == p
    ensures p == q
  {
    assert ProcFits(s, p, s.live[p]) && ProcFits(s, q, s.live[q]);
  }

  // ---- the invariant is kept ----

  /** A process unlinks only its own file, an empty one it created, or one that belongs to no live process, the pidfile
      only under the lock. */
  predicate EffectFits(s: State, p: Proc, effect: Effect) {
    match effect
    case CreateLock => s.lock.Absent?
    case FillLock(lock) => s.lock == Partial(p) && lock.proc == p
    case UnlinkLock =>
      s.lock == Partial(p) || (s.lock.Holds? && s.lock.value.proc == p)
      || forall q :: q in s.live ==> !HoldsLock(s.live[q]) && !s.live[q].WritingLock?
    case CreatePidfile => s.pidfile.Absent?
    case FillPidfile(record) => s.pidfile == Partial(p) && record.proc == p
    case UnlinkPidfile =>
      s.pidfile == Partial(p)
      || (s.pidfile.Holds? && (s.pidfile.value.proc == p || (Dead(s, s.pidfile.value.proc) && p in s.live && HoldsLock(s.live[p]))))
    case _ => true
  }

  lemma MoveEffect(s: State, p: Proc, effect: Effect, pc: Pc)
    requires Inv(s) && Allowed(s, Move(p, effect, pc)) && Timely(s, Move(p, effect, pc))
    ensures EffectFits(s, p, effect)
  {
    hide Thrown, AfterRemove, Ended, IsStart, PidsUnique;
    assert ProcFits(s, p, s.live[p]);
  }

  lemma StepKeepsIds(s: State, step: Step)
    requires Inv(s) && Allowed(s, step)
    ensures PidsUnique(After(s, step))
    ensures s.used <= After(s, step).used
    ensures forall x :: Dead(s, x) ==> Dead(After(s, step), x)
  {
    hide Moves, ProcFits;
  }

  lemma BystanderFits(s: State, step: Step, q: Proc)
    requires Inv(s) && Allowed(s, step) && (step.Move? ==> EffectFits(s, step.p, step.effect))
    requires q in s.live && q != step.p
    ensures q in After(s, step).live && After(s, step).live[q] == s.live[q] && ProcFits(After(s, step), q, s.live[q])
  {
    hide Moves, PidsUnique;
    assert ProcFits(s, q, s.live[q]);
    if step.p in s.live { assert ProcFits(s, step.p, s.live[step.p]); }
    StepKeepsIds(s, step);
    KnownIsUsed(s, q);
    KnownIsUsed(s, step.p);
  }

  lemma KnownIsUsed(s: State, p: Proc)
    requires PidsUnique(s)
    ensures p in s.live ==> p in s.used
  {
  }

  lemma AcquirerFits(s: State, p: Proc, effect: Effect, pc: Pc)
    requires Inv(s) && p in s.live && !s.live[p].Critical? && AcquireMoves(s, p, s.live[p], effect, pc)
    ensures ProcFits(After(s, Move(p, effect, pc)), p, pc)
  {
    hide PidsUnique;
    assert ProcFits(s, p, s.live[p]);
    KnownIsUsed(s, p);
  }

  lemma DaemonFits(s: State, p: Proc, effect: Effect, pc: Pc)
    requires Inv(s) && p in s.live && !s.live[p].Critical? && DaemonMoves(s, p, s.live[p], effect, pc)
    ensures ProcFits(After(s, Move(p, effect, pc)), p, pc)
  {
    hide PidsUnique;
    assert ProcFits(s, p, s.live[p]);
  }

  lemma PointAdvances(s: State, p: Proc, op: Op, lock: Lock, at: Point, effect: Effect, to: Point)
    requires Inv(s) && p in s.live && s.live[p] == Critical(op, lock, at) && Advances(s, p, op, lock, at, effect, to)
    requires at.WaitKill? && to.Remove? ==> at.record.proc !in s.live
    requires effect.SpawnDaemon? ==> Unused(s, effect.child)
    ensures PointFits(After(s, Move(p, effect, Critical(op, lock, to))), to)
  {
    hide Inv;
    var next := After(s, Move(p, effect, Critical(op, lock, to)));
    PointKnown(s, p);
    StepDead(s, Move(p, effect, Critical(op, lock, to)));
  }

  lemma PointKnown(s: State, p: Proc)
    requires Inv(s) && p in s.live && s.live[p].Critical?
    ensures PointFits(s, s.live[p].at) && s.live[p].lock.proc == p && s.lock == Holds(s.live[p].lock)
    ensures FilesKnown(s) && forall q :: q in s.live ==> q in s.used
  {
    assert ProcFits(s, p, s.live[p]);
  }

  lemma StepDead(s: State, step: Step)
    requires step.Move? && step.p in s.live && (step.effect.SpawnDaemon? ==> Unused(s, step.effect.child))
    ensures s.used <= After(s, step).used
    ensures forall x :: Dead(s, x) ==> Dead(After(s, step), x)
  {
  }

  lemma MoverFits(s: State, p: Proc, effect: Effect, pc: Pc)
    requires Inv(s) && Allowed(s, Move(p, effect, pc)) && Timely(s, Move(p, effect, pc))
    ensures ProcFits(After(s, Move(p, effect, pc)), p, pc)
  {
    hide Inv, AcquireMoves, DaemonMoves, Advances, PointFits;
    match s.live[p] {
      case Critical(op, lock, at) =>
        PointKnown(s, p);
        StepDead(s, Move(p, effect, pc));
        if at.Release? || at.UnlinkOwn? {
          ReleaseFits(s, p, effect, pc);
        } else if Advances(s, p, op, lock, at, effect, pc.at) {
          PointAdvances(s, p, op, lock, at, effect, pc.at);
          AdvancesKeepsLock(s, p, op, lock, at, effect, pc.at);
        } else {
          ThrownFits(s, op, at);
          ThrownFitsNext(s, p, effect, pc);
        }
      case Other =>
      case Done(_) =>
      case _ =>
        if AcquireMoves(s, p, s.live[p], effect, pc) { AcquirerFits(s, p, effect, pc); }
        else { DaemonFits(s, p, effect, pc); }
    }
  }

  lemma AdvancesKeepsLock(s: State, p: Proc, op: Op, lock: Lock, at: Point, effect: Effect, to: Point)
    requires Advances(s, p, op, lock, at, effect, to)
    ensures effect.Nothing? || effect.Signal? || effect.SpawnDaemon? || effect.UnlinkPidfile?
  {
  }

  lemma ReleaseFits(s: State, p: Proc, effect: Effect, pc: Pc)
    requires Inv(s) && Allowed(s, Move(p, effect, pc)) && s.live[p].Critical? && (s.live[p].at.Release? || s.live[p].at.UnlinkOwn?)
    ensures ProcFits(After(s, Move(p, effect, pc)), p, pc)
  {
    hide Inv;
    PointKnown(s, p);
  }

  lemma ThrownFits(s: State, op: Op, at: Point)
    requires PointFits(s, at)
    ensures PointFits(s, Thrown(op, at))
  {
  }

  lemma ThrownFitsNext(s: State, p: Proc, effect: Effect, pc: Pc)
    requires p in s.live && pc.Critical? && effect.Nothing? && PointFits(s, pc.at) && (pc.at.Fail? || pc.at.Release?)
    ensures PointFits(After(s, Move(p, effect, pc)), pc.at)
  {
  }

  lemma EntryFits(s: State, step: Step)
    requires Inv(s) && Allowed(s, step)
    ensures step.Start? ==> ProcFits(After(s, step), step.p, step.pc)
    ensures step.Move? && step.effect.SpawnDaemon? ==> ProcFits(After(s, step), step.effect.child, DaemonStart(step.effect.token))
  {
  }

  lemma TimelyKeepsInv(s: State, step: Step)
    requires Inv(s) && Allowed(s, step) && Timely(s, step)
    ensures Inv(After(s, step))
  {
    hide ProcFits, Moves, Timely, EffectFits;
    var next := After(s, step);
    StepKeepsIds(s, step);
    EntryFits(s, step);
    if step.Move? {
      MoveEffect(s, step.p, step.effect, step.pc);
      MoverFits(s, step.p, step.effect, step.pc);
      FilesStayKnown(s, step);
    }
    forall q | q in next.live ensures ProcFits(next, q, next.live[q]) {
      if q in s.live && q != step.p { BystanderFits(s, step, q); }
    }
  }

  /** A step of any program keeps the invariant exactly when it is timely: it unlinks no live process's lock, and does
      not treat a process as gone that is not. */
  lemma StepKeepsInv(s: State, step: Step)
    requires Inv(s) && Allowed(s, step)
    ensures Inv(After(s, step)) <==> Timely(s, step)
  {
    hide Inv, Moves;
    if Timely(s, step) { TimelyKeepsInv(s, step); }
    if Inv(After(s, step)) && step.Move? {
      if !UnlinksNobodys(s, step) { LockLost(s, step); }
      if !KilledIsGone(s, step) { NotGone(s, step); }
    }
  }

  lemma LockLost(s: State, step: Step)
    requires Allowed(s, step) && !UnlinksNobodys(s, step)
    ensures !Inv(After(s, step))
  {
    hide Moves, PointFits, PidsUnique, FilesKnown;
    var q :| q in s.live && (HoldsLock(s.live[q]) || s.live[q].WritingLock?);
    var next := After(s, step);
    assert q in next.live && next.live[q] == s.live[q] && next.lock == Absent;
    assert !ProcFits(next, q, next.live[q]);
  }

  lemma NotGone(s: State, step: Step)
    requires Allowed(s, step) && !KilledIsGone(s, step)
    ensures !Inv(After(s, step))
  {
    hide PidsUnique, FilesKnown, LockFits, PidfileFits;
    var next := After(s, step);
    assert step.pc.at.record == s.live[step.p].at.record;
    assert !ProcFits(next, step.p, next.live[step.p]);
  }

  lemma FilesStayKnown(s: State, step: Step)
    requires Inv(s) && step.Move? && step.p in s.live && EffectFits(s, step.p, step.effect)
    ensures FilesKnown(After(s, step))
  {
    KnownIsUsed(s, step.p);
  }

  // ---- runs ----

  /** Any processes about to start an operation or doing something else, and whatever files earlier processes left. */
  predicate Initial(s: State) {
    PidsUnique(s) && FilesKnown(s) && forall p :: p in s.live ==> Entry(s.live[p])
  }

  predicate Chain(ss: seq<State>, steps: seq<Step>) {
    |ss| == |steps| + 1 && forall i :: 0 <= i < |steps| ==> Allowed(ss[i], steps[i]) && ss[i + 1] == After(ss[i], steps[i])
  }

  predicate Run(ss: seq<State>, steps: seq<Step>) {
    Chain(ss, steps) && Initial(ss[0]) && forall i :: 0 <= i < |steps| ==> Timely(ss[i], steps[i])
  }

  lemma {:induction false} RunInv(ss: seq<State>, steps: seq<Step>, i: nat)
    requires Run(ss, steps) && i < |ss|
    ensures Inv(ss[i])
  {
    hide Allowed, After, Timely;
    if i == 0 {
      InitialInv(ss[0]);
    } else {
      RunInv(ss, steps, i - 1);
      StepKeepsInv(ss[i - 1], steps[i - 1]);
    }
  }

  /** From an initial state the invariant holds throughout exactly when every step is timely. */
  lemma InvExactly(ss: seq<State>, steps: seq<Step>)
    requires Chain(ss, steps) && Initial(ss[0])
    ensures (forall i :: 0 <= i < |ss| ==> Inv(ss[i])) <==> forall i :: 0 <= i < |steps| ==> Timely(ss[i], steps[i])
  {
    hide Allowed, After, Timely, Inv, Initial;
    if forall i :: 0 <= i < |steps| ==> Timely(ss[i], steps[i]) {
      forall i | 0 <= i < |ss| ensures Inv(ss[i]) { RunInv(ss, steps, i); }
    }
    if forall i :: 0 <= i < |ss| ==> Inv(ss[i]) {
      forall i | 0 <= i < |steps| ensures Timely(ss[i], steps[i]) {
        assert ss[i + 1] == After(ss[i], steps[i]);
        StepKeepsInv(ss[i], steps[i]);
      }
    }
  }

  lemma InitialInv(s: State)
    requires Initial(s)
    ensures Inv(s)
  {
  }

  /** In every state of every run at most one live process holds the lifecycle lock, at most one daemon loops, and it
      has its own record in the pidfile. */
  lemma Safety(ss: seq<State>, steps: seq<Step>, i: nat, p: Proc, q: Proc)
    requires Run(ss, steps) && i < |ss| && p in ss[i].live && q in ss[i].live
    ensures HoldsLock(ss[i].live[p]) && HoldsLock(ss[i].live[q]) ==> p == q
    ensures ss[i].live[p].DaemonLooping? ==> ss[i].pidfile == Holds(ss[i].live[p].record) && ss[i].live[p].record.proc == p
    ensures ss[i].live[p].DaemonLooping? && ss[i].live[q].DaemonLooping? ==> p == q
  {
    hide Run, Inv;
    RunInv(ss, steps, i);
    if HoldsLock(ss[i].live[p]) && HoldsLock(ss[i].live[q]) { OneHolder(ss[i], p, q); }
    if ss[i].live[p].DaemonLooping? {
      OneLoop(ss[i], p, p);
      if ss[i].live[q].DaemonLooping? { OneLoop(ss[i], p, q); }
    }
  }

  /** An operation that reports a process stopped or stale is right, then and forever. */
  lemma {:induction false} ClaimsHold(ss: seq<State>, steps: seq<Step>, i: nat, j: nat, p: Proc)
    requires Run(ss, steps) && i <= j < |ss| && p in ss[i].live && ss[i].live[p].Done?
    requires ss[i].live[p].outcome.Stopped? || ss[i].live[p].outcome.Stale?
    ensures ss[i].live[p].outcome.record.proc !in ss[j].live
    decreases j
  {
    hide Allowed, After, Timely;
    RunInv(ss, steps, i);
    assert ProcFits(ss[i], p, ss[i].live[p]);
    DeadFrom(ss, steps, i, j, ss[i].live[p].outcome.record.proc);
  }

  lemma {:induction false} DeadFrom(ss: seq<State>, steps: seq<Step>, i: nat, j: nat, x: Proc)
    requires Run(ss, steps) && i <= j < |ss| && Dead(ss[i], x)
    ensures Dead(ss[j], x)
    decreases j - i
  {
    hide Allowed, After, Timely, Dead;
    if i < j {
      DeadFrom(ss, steps, i, j - 1, x);
      RunInv(ss, steps, j - 1);
      StepKeepsIds(ss[j - 1], steps[j - 1]);
    }
  }

  // ---- signals follow a check ----

  predicate AboutToSignal(pc: Pc, x: Proc) {
    pc.Critical? && (pc.at.Term? || pc.at.Kill?) && pc.at.record.proc == x
  }

  /** The last step of `p` before `k` was step `j`, in whose state `x` was the live process of its pid. */
  predicate CheckedAt(ss: seq<State>, steps: seq<Step>, j: nat, k: nat, p: Proc, x: Proc) {
    && j < k <= |steps| < |ss| && steps[j].Move? && steps[j].p == p && x in ss[j].live
    && forall i :: j < i < k ==> steps[i].p != p
  }

  lemma CheckPrecedes(s: State, p: Proc, effect: Effect, pc: Pc, x: Proc)
    requires Allowed(s, Move(p, effect, pc)) && AboutToSignal(pc, x)
    ensures x in s.live
  {
  }

  lemma {:induction false} SignallerChecked(ss: seq<State>, steps: seq<Step>, k: nat, p: Proc, x: Proc)
    requires Run(ss, steps) && k < |ss| && p in ss[k].live && AboutToSignal(ss[k].live[p], x)
    ensures exists j :: CheckedAt(ss, steps, j, k, p, x)
  {
    hide Timely, Moves;
    assert k > 0;
    var step := steps[k - 1];
    assert ss[k] == After(ss[k - 1], step) && Allowed(ss[k - 1], step);
    if step.Move? && step.p == p {
      SpawnedIsNew(ss[k - 1], step);
      CheckPrecedes(ss[k - 1], p, step.effect, step.pc, x);
      assert CheckedAt(ss, steps, k - 1, k, p, x);
    } else {
      SignallerChecked(ss, steps, k - 1, p, x);
      var j :| CheckedAt(ss, steps, j, k - 1, p, x);
      assert CheckedAt(ss, steps, j, k, p, x);
    }
  }

  lemma SpawnedIsNew(s: State, step: Step)
    requires Allowed(s, step) && step.Move?
    ensures step.p in After(s, step).live && After(s, step).live[step.p] == step.pc
  {
    hide Moves;
  }

  /** A signal is sent to a pid only after the sender's preceding step saw the process of the record live on it. */
  lemma SignalFollowsCheck(ss: seq<State>, steps: seq<Step>, k: nat)
    requires Run(ss, steps) && k < |steps| && steps[k].Move? && steps[k].effect.Signal?
    ensures exists j :: CheckedAt(ss, steps, j, k, steps[k].p, steps[k].effect.target)
  {
    hide Timely;
    var p, x := steps[k].p, steps[k].effect.target;
    assert Allowed(ss[k], steps[k]);
    assert AboutToSignal(ss[k].live[p], x);
    SignallerChecked(ss, steps, k, p, x);
  }

  // ---- both timing conditions are needed ----

  lemma Extend(ss: seq<State>, steps: seq<Step>, step: Step) returns (ss': seq<State>, steps': seq<Step>)
    requires Chain(ss, steps) && Allowed(ss[|steps|], step)
    ensures |ss'| == |steps'| + 1 && Chain(ss', steps') && ss'[0] == ss[0] && ss'[|steps'|] == After(ss[|steps|], step)
  {
    hide Allowed, After;
    ss', steps' := ss + [After(ss[|steps|], step)], steps + [step];
  }

  /** A process finds the lock stale, compares it and is about to unlink it. */
  lemma FindsStale(ss: seq<State>, steps: seq<Step>, p: Proc) returns (ss': seq<State>, steps': seq<Step>)
    requires Chain(ss, steps)
    requires var s := ss[|steps|];
             p in s.live && s.live[p].Acquiring? && s.live[p].attempt == 0 && s.lock.Holds? && s.lock.value.proc !in s.live
    ensures Chain(ss', steps') && ss'[0] == ss[0]
    ensures var s := ss[|steps|];
            ss'[|steps'|] == s.(live := s.live[p := LockUnlink(s.live[p].op, 0, s.lock.value)])
  {
    var s := ss[|steps|];
    hide Chain;
    var op, existing := s.live[p].op, s.lock.value;
    ss', steps' := Extend(ss, steps, Move(p, Nothing, LockTaken(op, 0)));
    ss', steps' := Extend(ss', steps', Move(p, Nothing, LockSeen(op, 0, existing)));
    ss', steps' := Extend(ss', steps', Move(p, Nothing, LockStale(op, 0, existing)));
    ss', steps' := Extend(ss', steps', Move(p, Nothing, LockUnlink(op, 0, existing)));
  }

  /** A process about to unlink takes the lock. */
  lemma TakesLock(ss: seq<State>, steps: seq<Step>, p: Proc, lock: Lock) returns (ss': seq<State>, steps': seq<Step>)
    requires Chain(ss, steps) && lock.proc == p
    requires var s := ss[|steps|]; p in s.live && s.live[p].LockUnlink? && s.live[p].attempt == 0 && !s.lock.Absent?
    ensures Chain(ss', steps') && ss'[0] == ss[0]
    ensures var s := ss[|steps|];
            ss'[|steps'|] == s.(live := s.live[p := WrittenLock(s.live[p].op, lock)], lock := Holds(lock))
  {
    var op := ss[|steps|].live[p].op;
    hide Chain;
    ss', steps' := Extend(ss, steps, Move(p, UnlinkLock, Acquiring(op, 1)));
    ss', steps' := Extend(ss', steps', Move(p, CreateLock, WritingLock(op, lock)));
    ss', steps' := Extend(ss', steps', Move(p, FillLock(lock), WrittenLock(op, lock)));
  }

  /** From the start: two operations find the lock of a process that is gone, both compare it, one replaces it, and the
      other unlinks the new one. Both end up holding the lock. */
  lemma LateUnlinkTwoHolders(s: State, p: Proc, q: Proc) returns (ss: seq<State>, steps: seq<Step>)
    requires Initial(s) && p in s.live && q in s.live && p != q && s.live[p].Acquiring? && s.live[q].Acquiring?
    requires s.lock.Holds? && s.lock.value.proc !in s.live
    ensures Chain(ss, steps) && ss[0] == s
    ensures var last := ss[|steps|]; p in last.live && q in last.live && HoldsLock(last.live[p]) && HoldsLock(last.live[q])
  {
    hide PidsUnique, FilesKnown, Allowed, After;
    ss, steps := [s], [];
    ss, steps := FindsStale(ss, steps, p);
    ss, steps := FindsStale(ss, steps, q);
    ss, steps := TakesLock(ss, steps, q, Lock(q, 0, 0));
    ss, steps := TakesLock(ss, steps, p, Lock(p, 1, 0));
  }

  /** A step under the lock that spawns nothing. */
  lemma CriticalStep(ss: seq<State>, steps: seq<Step>, p: Proc, effect: Effect, to: Point) returns (ss': seq<State>, steps': seq<Step>)
    requires Chain(ss, steps) && p in ss[|steps|].live && ss[|steps|].live[p].Critical?
    requires var s := ss[|steps|];
             var c := s.live[p];
             Advances(s, p, c.op, c.lock, c.at, effect, to) && !effect.SpawnDaemon?
    ensures |ss'| == |steps'| + 1 && Chain(ss', steps') && ss'[0] == ss[0]
    ensures var s := ss[|steps|];
            var c := s.live[p];
            ss'[|steps'|] == s.(live := s.live[p := Critical(c.op, c.lock, to)], pidfile := PidfileAfter(s, p, effect))
  {
    var s := ss[|steps|];
    var c := s.live[p];
    hide Chain;
    AdvancesKeepsLock(s, p, c.op, c.lock, c.at, effect, to);
    AdvancesBeforeRelease(s, p, c.op, c.lock, c.at, effect, to);
    hide Advances;
    ss', steps' := Extend(ss, steps, Move(p, effect, Critical(c.op, c.lock, to)));
  }

  lemma AdvancesBeforeRelease(s: State, p: Proc, op: Op, lock: Lock, at: Point, effect: Effect, to: Point)
    requires Advances(s, p, op, lock, at, effect, to)
    ensures !at.Release? && !at.UnlinkOwn?
  {
  }

  /** An operation takes a free lock. */
  lemma TakesFreeLock(ss: seq<State>, steps: seq<Step>, p: Proc, lock: Lock) returns (ss': seq<State>, steps': seq<Step>)
    requires Chain(ss, steps) && lock.proc == p
    requires var s := ss[|steps|]; p in s.live && s.live[p].Acquiring? && s.live[p].attempt == 0 && s.lock.Absent?
    ensures Chain(ss', steps') && ss'[0] == ss[0]
    ensures var s := ss[|steps|];
            ss'[|steps'|] == s.(live := s.live[p := Critical(s.live[p].op, lock, ReadPidfile)], lock := Holds(lock))
  {
    var op := ss[|steps|].live[p].op;
    hide Chain;
    ss', steps' := Extend(ss, steps, Move(p, CreateLock, WritingLock(op, lock)));
    ss', steps' := Extend(ss', steps', Move(p, FillLock(lock), WrittenLock(op, lock)));
    ss', steps' := Extend(ss', steps', Move(p, Nothing, Critical(op, lock, ReadPidfile)));
  }

  /** It finds no pidfile and spawns a daemon. */
  lemma Spawns(ss: seq<State>, steps: seq<Step>, p: Proc, d: Proc) returns (ss': seq<State>, steps': seq<Step>)
    requires Chain(ss, steps) && d != p
    requires var s := ss[|steps|];
             p in s.live && s.live[p].Critical? && s.live[p].op == Bootstrap && s.live[p].at == ReadPidfile && s.pidfile.Absent?
             && Unused(s, d)
    ensures Chain(ss', steps') && ss'[0] == ss[0]
    ensures var s := ss[|steps|];
            ss'[|steps'|] == s.(live := s.live[p := s.live[p].(at := Poll(d.pid))][d := DaemonStart(s.live[p].lock.token)],
                                used := s.used + {d})
  {
    var s := ss[|steps|];
    var lock := s.live[p].lock;
    hide Chain;
    ss', steps' := CriticalStep(ss, steps, p, Nothing, Spawn);
    assert ss'[|steps'|] == s.(live := s.live[p := Critical(Bootstrap, lock, Spawn)]);
    ss', steps' := Extend(ss', steps', Move(p, SpawnDaemon(d, lock.token), Critical(Bootstrap, lock, Poll(d.pid))));
  }

  /** The operation gives up on the daemon before its pidfile appears. */
  lemma GivesUp(ss: seq<State>, steps: seq<Step>, p: Proc, d: Proc) returns (ss': seq<State>, steps': seq<Step>)
    requires Chain(ss, steps)
    requires var s := ss[|steps|];
             p in s.live && d in s.live && s.live[p].Critical? && s.live[p].at == Poll(d.pid) && s.pidfile.Absent?
    ensures Chain(ss', steps') && ss'[0] == ss[0]
    ensures var s := ss[|steps|];
            ss'[|steps'|] == s.(live := s.live[p := s.live[p].(at := Fail(Some(d.pid), Some(d.start)))])
  {
    var child, started := Some(d.pid), Some(d.start);
    hide Chain;
    ss', steps' := CriticalStep(ss, steps, p, Nothing, PollPidfile(d.pid, started));
    ss', steps' := CriticalStep(ss', steps', p, Nothing, Fail(child, started));
  }

  /** A daemon started under the lock comes to loop. */
  lemma ComesToLoop(ss: seq<State>, steps: seq<Step>, d: Proc, r: Record) returns (ss': seq<State>, steps': seq<Step>)
    requires Chain(ss, steps) && r.proc == d
    requires var s := ss[|steps|];
             d in s.live && s.live[d].DaemonStart? && s.pidfile.Absent? && s.lock.Holds? && s.lock.value.token == s.live[d].token
    ensures Chain(ss', steps') && ss'[0] == ss[0]
    ensures var s := ss[|steps|]; ss'[|steps'|] == s.(live := s.live[d := DaemonLooping(r)], pidfile := Holds(r))
  {
    hide Chain;
    ss', steps' := Extend(ss, steps, Move(d, Nothing, DaemonChecked));
    ss', steps' := Extend(ss', steps', Move(d, CreatePidfile, DaemonWriting(r)));
    ss', steps' := Extend(ss', steps', Move(d, FillPidfile(r), DaemonWritten(r)));
    ss', steps' := Extend(ss', steps', Move(d, Nothing, DaemonLooping(r)));
  }

  /** The operation that gave up sends the daemon SIGTERM. */
  lemma Terminates(ss: seq<State>, steps: seq<Step>, p: Proc, d: Proc, r: Record) returns (ss': seq<State>, steps': seq<Step>)
    requires Chain(ss, steps) && r.proc == d && d != p
    requires var s := ss[|steps|];
             p in s.live && d in s.live && s.live[p].Critical? && s.live[p].at.Fail? && s.pidfile == Holds(r)
    ensures Chain(ss', steps') && ss'[0] == ss[0]
    ensures var s := ss[|steps|];
            var at := s.live[p].at;
            ss'[|steps'|] == s.(live := s.live[p := s.live[p].(at := WaitTerm(r, DaemonFailed(at.child, at.started)))])
  {
    var c := ss[|steps|].live[p];
    var why := DaemonFailed(c.at.child, c.at.started);
    hide Chain;
    ss', steps' := CriticalStep(ss, steps, p, Nothing, KillCheck(r, why));
    ss', steps' := CriticalStep(ss', steps', p, Nothing, Term(r, why));
    ss', steps' := CriticalStep(ss', steps', p, Signal(d, false), WaitTerm(r, why));
  }

  /** It waits in vain and sends SIGKILL. */
  lemma Kills(ss: seq<State>, steps: seq<Step>, p: Proc, d: Proc, r: Record) returns (ss': seq<State>, steps': seq<Step>)
    requires Chain(ss, steps) && r.proc == d && d != p
    requires var s := ss[|steps|];
             p in s.live && d in s.live && s.live[p].Critical? && s.live[p].at.WaitTerm? && s.live[p].at.record == r
    ensures Chain(ss', steps') && ss'[0] == ss[0]
    ensures var s := ss[|steps|];
            ss'[|steps'|] == s.(live := s.live[p := s.live[p].(at := WaitKill(r, s.live[p].at.why))])
  {
    var why := ss[|steps|].live[p].at.why;
    hide Chain;
    ss', steps' := CriticalStep(ss, steps, p, Nothing, KillRecheck(r, why));
    ss', steps' := CriticalStep(ss', steps', p, Nothing, Kill(r, why));
    ss', steps' := CriticalStep(ss', steps', p, Signal(d, true), WaitKill(r, why));
  }

  lemma RemovesRecord(ss: seq<State>, steps: seq<Step>, p: Proc, d: Proc, r: Record) returns (ss': seq<State>, steps': seq<Step>)
    requires Chain(ss, steps) && r.proc == d && d != p
    requires var s := ss[|steps|];
             p in s.live && d in s.live && s.live[p].Critical? && s.live[p].at.WaitKill? && s.live[p].at.why.DaemonFailed?
             && s.live[p].at.record == r && s.pidfile == Holds(r)
    ensures Chain(ss', steps') && ss'[0] == ss[0]
    ensures var s, last := ss[|steps|], ss'[|steps'|]; d in last.live && last.live[d] == s.live[d] && last.pidfile.Absent?
  {
    var c := ss[|steps|].live[p];
    var after := StopSpawned(c.at.why.child, c.at.why.started);
    hide Chain;
    ss', steps' := CriticalStep(ss, steps, p, Nothing, Remove(r, after));
    ss', steps' := CriticalStep(ss', steps', p, Nothing, Unlink(r, after));
    ss', steps' := CriticalStep(ss', steps', p, UnlinkPidfile, AfterRemove(after));
  }

  /** From the start: a bootstrap gives up on the daemon it spawned, kills it, and when the daemon outlives the wait
      removes the record of a daemon that still loops. */
  lemma SurvivorLosesRecord(s: State, p: Proc, d: Proc) returns (ss: seq<State>, steps: seq<Step>)
    requires Initial(s) && p in s.live && s.live[p] == Acquiring(Bootstrap, 0) && Unused(s, d)
    requires s.lock.Absent? && s.pidfile.Absent?
    ensures Chain(ss, steps) && ss[0] == s
    ensures var last := ss[|steps|]; d in last.live && last.live[d].DaemonLooping? && last.pidfile.Absent?
  {
    hide FilesKnown, Allowed, After;
    var lock, r := Lock(p, 0, 0), Record(d, 0);
    ss, steps := [s], [];
    ss, steps := TakesFreeLock(ss, steps, p, lock);
    ss, steps := Spawns(ss, steps, p, d);
    ss, steps := GivesUp(ss, steps, p, d);
    ss, steps := ComesToLoop(ss, steps, d, r);
    ss, steps := Terminates(ss, steps, p, d, r);
    ss, steps := Kills(ss, steps, p, d, r);
    ss, steps := RemovesRecord(ss, steps, p, d, r);
  }

  /** Both runs can start. */
  lemma InitialExamples()
    ensures var s := State(map[Proc(1, 1) := Acquiring(Bootstrap, 0), Proc(2, 1) := Acquiring(Stop, 0)],
                           {Proc(1, 1), Proc(2, 1), Proc(3, 1)}, Holds(Lock(Proc(3, 1), 0, 0)), Absent);
            Initial(s) && s.lock.value.proc !in s.live
    ensures var s := State(map[Proc(1, 1) := Acquiring(Bootstrap, 0)], {Proc(1, 1)}, Absent, Absent);
            Initial(s) && Unused(s, Proc(2, 1))
  {
  }
}
