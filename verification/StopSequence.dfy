/** Stopping a process: SIGTERM, poll, SIGKILL, poll, and a verdict that never runs ahead of the evidence. */
module StopSequence {
  import opened Wrappers

  datatype Observation = Alive | Gone | Unobservable
  datatype SendResult = Delivered | NoProcess | Unsignalable
  datatype Signal = Term | Kill
  datatype Event = Observed(o: Observation) | Sent(signal: Signal, r: SendResult)
  datatype Verdict = AlreadyExited | CannotSignal | Terminated | Killed | KillUnconfirmed

  predicate Stopped(v: Verdict) { v.Terminated? || v.Killed? }

  /** Observations, send results and the passing of time, all arbitrary but fixed in advance. */
  class World {
    const observations: nat -> Observation
    const sends: Signal -> SendResult
    const pauses: nat -> nat
    var observed: nat
    var waits: nat
    var now: int
    var log: seq<Event>

    constructor (observations: nat -> Observation, sends: Signal -> SendResult, pauses: nat -> nat, now: int)
      ensures this.observations == observations && this.sends == sends && this.pauses == pauses && log == [] && this.now == now
    {
      this.observations, this.sends, this.pauses, this.now := observations, sends, pauses, now;
      observed, waits, log := 0, 0, [];
    }

    method Observe() returns (o: Observation)
      modifies this
      ensures o == observations(old(observed)) && observed == old(observed) + 1 && log == old(log) + [Observed(o)]
      ensures now == old(now) && waits == old(waits)
    {
      o := observations(observed);
      observed := observed + 1;
      log := log + [Observed(o)];
    }

    method Send(signal: Signal) returns (r: SendResult)
      modifies this
      ensures r == sends(signal) && log == old(log) + [Sent(signal, r)]
      ensures now == old(now) && waits == old(waits) && observed == old(observed)
    {
      r := sends(signal);
      log := log + [Sent(signal, r)];
    }

    /** A wait takes at least its time. */
    method Wait(ms: nat)
      modifies this
      ensures now == old(now) + ms + pauses(old(waits)) && waits == old(waits) + 1
      ensures log == old(log) && observed == old(observed)
    {
      now := now + ms + pauses(waits);
      waits := waits + 1;
    }
  }

  // ---- polling ----

  function Events(os: seq<Observation>): (es: seq<Event>)
    ensures |es| == |os| && forall i :: 0 <= i < |os| ==> es[i] == Observed(os[i])
  {
    seq(|os|, i requires 0 <= i < |os| => Observed(os[i]))
  }

  /** A poll stops at the first Gone. */
  predicate Poll(os: seq<Observation>) {
    os != [] && Gone !in os[..|os| - 1]
  }

  predicate SawGone(os: seq<Observation>) { os != [] && os[|os| - 1].Gone? }
  predicate SawAlive(os: seq<Observation>) { Alive in os }

  /** So many observations fit into the time when each wait takes at least `tick`. */
  predicate Timely(n: nat, tick: nat, maxWait: nat) { n >= 2 ==> (n - 2) * tick < maxWait }

  /** Each wait advances the clock: an interval of zero is allowed where waiting takes time by itself. */
  ghost predicate Advances(w: World, interval: nat, tick: nat) {
    tick > 0 && forall k :: interval + w.pauses(k) >= tick
  }

  method PollUntilDeadline(w: World, interval: nat, maxWait: nat, ghost tick: nat)
    returns (gone: bool, everAlive: bool, ghost os: seq<Observation>)
    requires Advances(w, interval, tick)
    modifies w
    ensures Poll(os) && w.log == old(w.log) + Events(os)
    ensures gone == SawGone(os) && (everAlive <==> SawAlive(os))
    ensures Timely(|os|, tick, maxWait)
    ensures w.now >= old(w.now) && (!gone ==> w.now >= old(w.now) + maxWait)
  {
    var deadline := w.now + maxWait;
    everAlive := false;
    os := [];
    while true
      invariant Gone !in os && (everAlive <==> SawAlive(os)) && w.log == old(w.log) + Events(os)
      invariant w.now >= deadline - maxWait + |os| * tick
      invariant |os| >= 1 ==> (|os| - 1) * tick < maxWait
      decreases deadline - w.now
    {
      var observation := w.Observe();
      ghost var before := os;
      os := os + [observation];
      assert Events(os) == Events(before) + [Observed(observation)];
      assert os[..|os| - 1] == before;
      if observation == Gone {
        gone := true;
        return;
      }
      if observation == Alive { everAlive := true; }
      if w.now >= deadline {
        gone := false;
        return;
      }
      assert |os| * tick == |before| * tick + tick;
      w.Wait(interval);
    }
  }

  // ---- the sequence ----

  /** What happened, phase by phase. */
  datatype Story = Story(
    initial: Observation,
    term: Option<SendResult>,
    termPoll: seq<Observation>,
    kill: Option<SendResult>,
    killPoll: seq<Observation>)

  /** A phase follows exactly when the one before calls for it. */
  predicate Told(s: Story) {
    && (s.term.Some? <==> s.initial.Alive?)
    && (if s.term == Some(Delivered) then Poll(s.termPoll) else s.termPoll == [])
    && (s.kill.Some? <==> s.termPoll != [] && !SawGone(s.termPoll) && SawAlive(s.termPoll))
    && (if s.kill == Some(Delivered) then Poll(s.killPoll) else s.killPoll == [])
  }

  function SentEvent(signal: Signal, r: Option<SendResult>): seq<Event> {
    if r.None? then [] else [Sent(signal, r.value)]
  }

  function Trace(s: Story): seq<Event> {
    [Observed(s.initial)] + SentEvent(Term, s.term) + Events(s.termPoll) + SentEvent(Kill, s.kill) + Events(s.killPoll)
  }

  function SendFailure(r: SendResult): Verdict
    requires !r.Delivered?
  {
    if r.NoProcess? then AlreadyExited else CannotSignal
  }

  function VerdictOf(s: Story): Verdict {
    if s.initial.Gone? then AlreadyExited
    else if s.term.None? then CannotSignal
    else if !s.term.value.Delivered? then SendFailure(s.term.value)
    else if SawGone(s.termPoll) then Terminated
    else if s.kill.None? then CannotSignal
    else if !s.kill.value.Delivered? then SendFailure(s.kill.value)
    else if SawGone(s.killPoll) then Killed
    else if SawAlive(s.killPoll) then KillUnconfirmed
    else CannotSignal
  }

  /** Each phase appends its events. */
  lemma TraceGrows(s: Story, os: seq<Observation>, r: SendResult)
    requires s.kill.None? && s.killPoll == []
    ensures s.term.None? && s.termPoll == [] ==> Trace(s.(term := Some(r))) == Trace(s) + [Sent(Term, r)]
    ensures s.termPoll == [] ==> Trace(s.(termPoll := os)) == Trace(s) + Events(os)
    ensures Trace(s.(kill := Some(r))) == Trace(s) + [Sent(Kill, r)]
    ensures Trace(s.(kill := Some(r), killPoll := os)) == Trace(s) + [Sent(Kill, r)] + Events(os)
  {
    assert Events([]) == [];
  }

  lemma TraceStarts(initial: Observation)
    ensures Trace(Story(initial, None, [], None, [])) == [Observed(initial)]
  {
    assert Events([]) == [];
  }

  /** What follows a log and a trace. */
  lemma Follows(log: seq<Event>, trace: seq<Event>, more: seq<Event>)
    ensures log + (trace + more) == log + trace + more
  {
  }

  method RunStopSequence(w: World, interval: nat, maxWait: nat, ghost tick: nat) returns (v: Verdict, ghost s: Story)
    requires Advances(w, interval, tick)
    modifies w
    ensures Told(s) && w.log == old(w.log) + Trace(s) && v == VerdictOf(s)
    ensures Timely(|s.termPoll|, tick, maxWait) && Timely(|s.killPoll|, tick, maxWait)
    ensures s.termPoll != [] && !SawGone(s.termPoll) ==> w.now >= old(w.now) + maxWait
    ensures s.killPoll != [] && !SawGone(s.killPoll) ==> w.now >= old(w.now) + 2 * maxWait
  {
    hide Trace, Timely, Poll, Events, Advances, SawAlive;
    ghost var log := w.log;
    var initial := w.Observe();
    TraceStarts(initial);
    NoPoll(tick, maxWait);
    s := Story(initial, None, [], None, []);
    if initial == Gone { return AlreadyExited, s; }
    if initial == Unobservable { return CannotSignal, s; }

    var termSend := w.Send(Term);
    TraceGrows(s, [], termSend);
    Follows(log, Trace(s), [Sent(Term, termSend)]);
    s := s.(term := Some(termSend));
    if termSend == NoProcess { return AlreadyExited, s; }
    if termSend == Unsignalable { return CannotSignal, s; }

    var gone, everAlive, os := PollUntilDeadline(w, interval, maxWait, tick);
    TraceGrows(s, os, termSend);
    Follows(log, Trace(s), Events(os));
    s := s.(termPoll := os);
    PollNotEmpty(os);
    if gone { return Terminated, s; }
    if !everAlive { return CannotSignal, s; }

    var killSend := w.Send(Kill);
    TraceGrows(s, [], killSend);
    Follows(log, Trace(s), [Sent(Kill, killSend)]);
    ghost var before := s;
    s := s.(kill := Some(killSend));
    if killSend == NoProcess { return AlreadyExited, s; }
    if killSend == Unsignalable { return CannotSignal, s; }

    gone, everAlive, os := PollUntilDeadline(w, interval, maxWait, tick);
    TraceGrows(before, os, killSend);
    Follows(log, Trace(s), Events(os));
    s := s.(killPoll := os);
    if gone { return Killed, s; }
    if everAlive { return KillUnconfirmed, s; }
    return CannotSignal, s;
  }

  lemma NoPoll(tick: nat, maxWait: nat)
    ensures Timely(0, tick, maxWait)
  {
  }

  lemma PollNotEmpty(os: seq<Observation>)
    requires Poll(os)
    ensures os != []
  {
  }

  // ---- evidence ----

  predicate SentAt(t: seq<Event>, i: nat, signal: Signal) { i < |t| && t[i].Sent? && t[i].signal == signal }

  /** Each signal is sent at most once, and SIGTERM comes first. */
  lemma SignalsAtMostOnce(s: Story, i: nat, j: nat, signal: Signal)
    requires Told(s) && SentAt(Trace(s), i, signal) && SentAt(Trace(s), j, signal)
    ensures i == j
    ensures signal.Term? ==> i == 1
  {
    TraceAt(s, i);
    TraceAt(s, j);
  }

  /** The place of an event tells its phase. */
  lemma TraceAt(s: Story, i: nat)
    requires Told(s) && i < |Trace(s)| && Trace(s)[i].Sent?
    ensures if Trace(s)[i].signal.Term? then i == 1 && s.term == Some(Trace(s)[i].r)
            else i == 2 + |s.termPoll| && s.kill == Some(Trace(s)[i].r)
  {
  }

  /** A process is reported stopped only after it was seen gone, as the last event, following a delivered signal. */
  lemma StoppedHasEvidence(s: Story)
    requires Told(s) && Stopped(VerdictOf(s))
    ensures var t := Trace(s);
            && t[|t| - 1] == Observed(Gone)
            && exists i: nat :: i < |t| - 1 && t[i] == Sent(if VerdictOf(s).Killed? then Kill else Term, Delivered)
  {
    var t := Trace(s);
    if VerdictOf(s).Killed? {
      assert t[2 + |s.termPoll|] == Sent(Kill, Delivered);
    } else {
      assert t[1] == Sent(Term, Delivered);
    }
  }

  /** SIGKILL is sent only after SIGTERM was delivered and the process seen alive since, and never gone. */
  lemma KillNeedsAlive(s: Story, k: nat)
    requires Told(s) && SentAt(Trace(s), k, Kill)
    ensures k >= 2 && Trace(s)[1] == Sent(Term, Delivered)
    ensures exists i :: 1 < i < k && Trace(s)[i] == Observed(Alive)
    ensures forall i :: 0 <= i < k ==> Trace(s)[i] != Observed(Gone)
  {
    var t, os := Trace(s), s.termPoll;
    TraceAt(s, k);
    var a :| 0 <= a < |os| && os[a] == Alive;
    assert t[2 + a] == Observed(Alive);
    forall i | 0 <= i < k ensures t[i] != Observed(Gone) {
      if i >= 2 {
        assert t[i] == Observed(os[i - 2]);
        assert os[i - 2] == Gone ==> i - 2 == |os| - 1 by { assert i - 2 < |os| - 1 ==> os[i - 2] in os[..|os| - 1]; }
      }
    }
  }

  /** Whoever was seen gone after a delivered signal is reported stopped: the verdict loses no evidence. */
  lemma GoneIsReported(s: Story, i: nat)
    requires Told(s) && i < |Trace(s)| && Trace(s)[i] == Observed(Gone) && i > 0
    ensures Stopped(VerdictOf(s)) && i == |Trace(s)| - 1
  {
    var t := Trace(s);
    var k := 2 + |s.termPoll|;
    if i < k {
      assert t[i] == Observed(s.termPoll[i - 2]);
      LastOnly(s.termPoll, i - 2);
    } else {
      assert i != k;
      assert t[i] == Observed(s.killPoll[i - k - 1]);
      LastOnly(s.killPoll, i - k - 1);
    }
  }

  lemma LastOnly(os: seq<Observation>, i: nat)
    requires Poll(os) && i < |os| && os[i] == Gone
    ensures i == |os| - 1 && SawGone(os)
  {
  }

  predicate SentWith(t: seq<Event>, r: SendResult) { exists i :: 0 <= i < |t| && t[i].Sent? && t[i].r == r }
  predicate First(t: seq<Event>, o: Observation) { t != [] && t[0] == Observed(o) }
  predicate Last(t: seq<Event>, o: Observation) { t != [] && t[|t| - 1] == Observed(o) }
  predicate OnlyAfter(t: seq<Event>, i: nat, o: Observation) { i < |t| - 1 && forall j :: i < j < |t| ==> t[j] == Observed(o) }
  predicate SeenAfter(t: seq<Event>, i: nat, o: Observation) { exists j :: i < j < |t| && t[j] == Observed(o) }

  predicate SignalledAt(t: seq<Event>, i: nat, signal: Signal) { i < |t| && t[i] == Sent(signal, Delivered) }

  /** The verdict read off the events. Gone at the start or no process behind a signal: it had exited by itself. Gone as the last
      event: stopped by the last signal. Alive after SIGKILL and not gone: unconfirmed. Not to be observed at the start or at
      all after the last signal, or not to be signalled: nothing can be said. */
  ghost predicate Justified(t: seq<Event>, v: Verdict) {
    && (v.AlreadyExited? <==> First(t, Gone) || SentWith(t, NoProcess))
    && (v.Terminated? <==> Last(t, Gone) && (exists i: nat :: SignalledAt(t, i, Term)) && forall i: nat :: !SentAt(t, i, Kill))
    && (v.Killed? <==> Last(t, Gone) && exists i: nat :: SignalledAt(t, i, Kill))
    && (v.KillUnconfirmed? <==> !Last(t, Gone) && exists i: nat :: SignalledAt(t, i, Kill) && SeenAfter(t, i, Alive))
    && (v.CannotSignal? <==>
          || First(t, Unobservable) || SentWith(t, Unsignalable)
          || exists i: nat, signal :: SignalledAt(t, i, signal) && OnlyAfter(t, i, Unobservable))
  }

  /** The places of a trace, phase by phase. */
  lemma TracePlaces(s: Story)
    requires Told(s)
    ensures var t, n, m := Trace(s), |s.termPoll|, |s.killPoll|;
            && |t| == 1 + (if s.term.Some? then 1 else 0) + n + (if s.kill.Some? then 1 else 0) + m
            && t[0] == Observed(s.initial)
            && (s.term.Some? ==> t[1] == Sent(Term, s.term.value))
            && (forall i :: 2 <= i < 2 + n ==> t[i] == Observed(s.termPoll[i - 2]))
            && (s.kill.Some? ==> s.term == Some(Delivered) && n > 0 && t[2 + n] == Sent(Kill, s.kill.value))
            && (m > 0 ==> s.kill == Some(Delivered))
            && (forall i :: 3 + n <= i < 3 + n + m ==> t[i] == Observed(s.killPoll[i - 3 - n]))
  {
  }

  /** Where the signals are. */
  lemma SignalPlaces(s: Story)
    requires Told(s)
    ensures var t, n := Trace(s), |s.termPoll|;
            && (forall r :: SentWith(t, r) <==> s.term == Some(r) || s.kill == Some(r))
            && (forall i: nat :: SignalledAt(t, i, Term) <==> i == 1 && s.term == Some(Delivered))
            && (forall i: nat :: SignalledAt(t, i, Kill) <==> i == 2 + n && s.kill == Some(Delivered))
            && (s.kill.Some? <==> exists i: nat :: SentAt(t, i, Kill))
  {
    hide Trace, Told;
    var t, n := Trace(s), |s.termPoll|;
    TracePlaces(s);
    TermFirst(s);
    assert s.term.Some? ==> t[1].Sent?;
    if s.kill.Some? { assert SentAt(t, 2 + n, Kill) && t[2 + n].Sent?; }
    forall i: nat | SignalledAt(t, i, Term) || SignalledAt(t, i, Kill) || SentAt(t, i, Kill)
      ensures if t[i].signal.Term? then i == 1 else i == 2 + n && s.kill.Some?
    {
      SentPlace(s, i);
    }
    forall i | 0 <= i < |t| && t[i].Sent? ensures s.term == Some(t[i].r) || s.kill == Some(t[i].r) { SentPlace(s, i); }
  }

  lemma TermFirst(s: Story)
    requires Told(s)
    ensures s.termPoll != [] ==> s.term == Some(Delivered)
    ensures s.term.None? ==> s.kill.None?
  {
  }

  lemma SentPlace(s: Story, i: nat)
    requires Told(s) && i < |Trace(s)| && Trace(s)[i].Sent?
    ensures if Trace(s)[i].signal.Term? then i == 1 && s.term == Some(Trace(s)[i].r) else i == 2 + |s.termPoll| && s.kill == Some(Trace(s)[i].r)
  {
    TraceAt(s, i);
  }

  predicate AllUnobservable(os: seq<Observation>) { os != [] && forall i :: 0 <= i < |os| ==> os[i].Unobservable? }

  lemma PollEnds(os: seq<Observation>)
    requires os != [] ==> Poll(os)
    ensures AllUnobservable(os) <==> os != [] && !SawGone(os) && !SawAlive(os)
  {
    forall i | 0 <= i < |os| - 1 ensures !os[i].Gone? { assert os[i] in os[..|os| - 1]; }
    if !SawAlive(os) {
      forall i | 0 <= i < |os| ensures !os[i].Alive? { assert os[i] in os; }
    }
  }

  /** What the polls saw is what the trace shows behind the signals. */
  lemma PollPlaces(s: Story)
    requires Told(s)
    ensures var t, n := Trace(s), |s.termPoll|;
            && (Last(t, Gone) <==> s.initial.Gone? || (s.kill.None? && SawGone(s.termPoll)) || SawGone(s.killPoll))
            && (s.kill == Some(Delivered) ==> (SeenAfter(t, 2 + n, Alive) <==> SawAlive(s.killPoll)))
            && (s.term == Some(Delivered) ==> (OnlyAfter(t, 1, Unobservable) <==> s.kill.None? && AllUnobservable(s.termPoll)))
            && (s.kill == Some(Delivered) ==> (OnlyAfter(t, 2 + n, Unobservable) <==> AllUnobservable(s.killPoll)))
  {
    var t, n, m := Trace(s), |s.termPoll|, |s.killPoll|;
    hide Trace;
    TracePlaces(s);
    if s.kill == Some(Delivered) {
      assert forall j :: 0 <= j < m ==> t[3 + n + j] == Observed(s.killPoll[j]);
    }
    assert forall j :: 0 <= j < n ==> t[2 + j] == Observed(s.termPoll[j]);
    if s.kill.Some? { assert t[2 + n].Sent?; }
  }

  /** The verdict is the one the events justify, and no other. */
  lemma VerdictJustified(s: Story)
    requires Told(s)
    ensures Justified(Trace(s), VerdictOf(s))
  {
    hide Trace, Last, SeenAfter, OnlyAfter, SignalledAt, SentWith, SentAt, AllUnobservable;
    TracePlaces(s);
    SignalPlaces(s);
    PollPlaces(s);
    PollEnds(s.termPoll);
    PollEnds(s.killPoll);
    var t, n := Trace(s), |s.termPoll|;
    forall i: nat, signal | SignalledAt(t, i, signal) ensures i == if signal.Term? then 1 else 2 + n {
      assert if signal.Term? then SignalledAt(t, i, Term) else SignalledAt(t, i, Kill);
    }
    assert s.term == Some(Delivered) ==> SignalledAt(t, 1, Term);
    assert s.kill == Some(Delivered) ==> SignalledAt(t, 2 + n, Kill);
  }

  /** The most observations one poll can make. */
  function PollLimit(tick: nat, maxWait: nat): nat
    requires tick > 0
  {
    if maxWait == 0 then 1 else 2 + (maxWait - 1) / tick
  }

  /** The whole sequence is bounded: two polls, the first observation and two signals. */
  lemma ObservationsBounded(s: Story, tick: nat, maxWait: nat)
    requires Told(s) && tick > 0 && Timely(|s.termPoll|, tick, maxWait) && Timely(|s.killPoll|, tick, maxWait)
    ensures |Trace(s)| <= 2 * PollLimit(tick, maxWait) + 3
  {
    PollBounded(|s.termPoll|, tick, maxWait);
    PollBounded(|s.killPoll|, tick, maxWait);
  }

  lemma PollBounded(n: nat, tick: nat, maxWait: nat)
    requires tick > 0
    ensures Timely(n, tick, maxWait) <==> n <= PollLimit(tick, maxWait)
  {
    if n >= 2 && maxWait > 0 { AtMostQuotient(n - 2, tick, maxWait - 1); }
  }

  lemma AtMostQuotient(a: nat, b: nat, c: nat)
    requires b > 0
    ensures a * b <= c <==> a <= c / b
  {
    var q := c / b;
    assert c == q * b + c % b;
    if a <= q { ProductGrows(a, q, b); } else { ProductGrows(q + 1, a, b); }
  }

  lemma {:induction false} ProductGrows(a: nat, q: nat, b: nat)
    requires a <= q
    ensures a * b <= q * b
    decreases q
  {
    if a < q { ProductGrows(a, q - 1, b); }
  }
}
