/** Correlating a lost run with the end of the runtime generation it was bound to. */
module InterruptionClassifier {
  import opened JsStrings
  import opened Wrappers
  import opened RuntimeStatus
  import opened StatusValidator
  import C = CanonicalJson

  datatype Binding = Binding(provider: Provider, runtimeKey: JsString, identity: Identity)

  datatype Input = Input(binding: Binding, status: Status, runStartedAt: int, terminalObservedAt: int, nowMs: int)

  /** The parts of the correlation that do not merely copy the input. */
  datatype Correlation = Correlation(transitionKind: State, transitionObservedAt: int, deltaMs: int)

  function RuntimeKey(provider: Provider): JsString {
    if provider.Codex? then Ascii("external-shared-runtime/codex/even-shared")
    else Ascii("external-shared-runtime/claude/even-claude")
  }

  function DistanceFromInterval(point: int, start: int, end: int): int {
    if point < start then start - point
    else if point > end then point - end
    else 0
  }

  predicate JsSafe(n: int) { -C.MAX_SAFE_INTEGER <= n <= C.MAX_SAFE_INTEGER }

  /** The input is about the status's runtime and its times make sense. */
  predicate Applicable(input: Input) {
    && input.status.provider == input.binding.provider && RuntimeKey(input.status.provider) == input.binding.runtimeKey
    && JsSafe(input.runStartedAt) && JsSafe(input.terminalObservedAt) && JsSafe(input.nowMs)
    && 0 <= input.runStartedAt <= input.terminalObservedAt
  }

  function IntervalStart(t: Transition): Option<int> { if t.kind.Stopped? then t.stoppedAt else t.lastSeenAt }
  function IntervalEnd(t: Transition): Option<int> { if t.kind.Stopped? then t.stoppedAt else t.replacementFirstSeenAt }

  /** What one turn of the loop returns, or None to continue. */
  function MatchOf(input: Input, t: Transition): Option<Correlation>
    requires ValidIdentity(input.binding.identity) && Named(t.oldIdentity)
  {
    if !(t.kind.Stopped? || t.kind.Replaced?) || t.oldIdentity.None?
       || IdentityText(t.oldIdentity.value) != IdentityText(input.binding.identity)
       || input.nowMs > t.expiresAt || (t.kind.Stopped? && t.source.EndpointObserver?) then None
    else
      var start, end := IntervalStart(t), IntervalEnd(t);
      if start.None? || end.None? then None
      else
        var intersectsRun := end.value >= input.runStartedAt && start.value <= input.terminalObservedAt;
        var deltaMs := DistanceFromInterval(input.terminalObservedAt, start.value, end.value);
        if !intersectsRun || deltaMs > CORRELATION_MS then None
        else Some(Correlation(t.kind, end.value, deltaMs))
  }

  predicate AllNamed(ts: seq<Transition>) { forall i :: 0 <= i < |ts| ==> Named(ts[i].oldIdentity) }

  /** The first match in list order. */
  function FirstMatch(input: Input, ts: seq<Transition>): Option<Correlation>
    requires ValidIdentity(input.binding.identity) && AllNamed(ts)
  {
    if ts == [] then None
    else if MatchOf(input, ts[0]).Some? then MatchOf(input, ts[0])
    else FirstMatch(input, ts[1..])
  }

  method Classify(input: Input) returns (r: Option<Correlation>)
    requires ValidIdentity(input.binding.identity) && AllNamed(input.status.transitions)
    ensures r == if Applicable(input) then FirstMatch(input, input.status.transitions) else None
  {
    if !Applicable(input) { return None; }
    var ts := input.status.transitions;
    for n := 0 to |ts|
      invariant FirstMatch(input, ts) == FirstMatch(input, ts[n..])
    {
      var found := MatchOf(input, ts[n]);
      assert ts[n..][1..] == ts[n + 1..];
      if found.Some? { return found; }
    }
    return None;
  }

  // ---- on a validated status ----

  lemma ValidNamed(st: Status)
    requires ValidStatus(st)
    ensures AllNamed(st.transitions)
  {
    forall i | 0 <= i < |st.transitions| ensures Named(st.transitions[i].oldIdentity) { PartiesValid(st.transitions[i]); }
  }

  /** The transition confirms the interruption: it ends the bound generation, it has not expired, and the end lies at or
      near the end of the run. A stop is a single moment. A replacement happened somewhere between the last sight of the
      old generation and the first sight of the new one. */
  predicate Confirms(input: Input, t: Transition) {
    && t.oldIdentity == Some(input.binding.identity) && input.nowMs <= t.expiresAt
    && match t.kind
       case Stopped =>
         t.stoppedAt.Some? && input.runStartedAt <= t.stoppedAt.value <= input.terminalObservedAt <= t.stoppedAt.value + CORRELATION_MS
       case Replaced =>
         t.lastSeenAt.Some? && t.replacementFirstSeenAt.Some?
         && t.lastSeenAt.value <= input.terminalObservedAt && input.runStartedAt <= t.replacementFirstSeenAt.value
         && input.terminalObservedAt <= t.replacementFirstSeenAt.value + CORRELATION_MS
       case Running => false
       case Unknown => false
  }

  /** The moment by which the old generation was gone. */
  function GoneAt(t: Transition): int {
    match t
    case Transition(_, Stopped, _, _, _, Some(at), _, _, _, _) => at
    case Transition(_, Replaced, _, _, _, _, Some(at), _, _, _) => at
    case _ => 0
  }

  function Max0(n: int): int { if n < 0 then 0 else n }

  /** A match is a confirming transition, its delta the distance past the interval's end. */
  lemma MatchMeans(input: Input, t: Transition)
    requires ValidIdentity(input.binding.identity) && ValidTransition(t)
    ensures Named(t.oldIdentity)
    ensures MatchOf(input, t).Some? <==> Confirms(input, t)
    ensures Confirms(input, t) ==>
              MatchOf(input, t) == Some(Correlation(t.kind, GoneAt(t), Max0(input.terminalObservedAt - GoneAt(t))))
    ensures MatchOf(input, t).Some? ==> 0 <= MatchOf(input, t).value.deltaMs <= CORRELATION_MS
  {
    hide IdentityText;
    PartiesValid(t);
    if t.oldIdentity.Some? { IdentityTextInjective(t.oldIdentity.value, input.binding.identity); }
  }

  lemma SameEndClashes(input: Input, a: Transition, b: Transition)
    requires ValidTransition(a) && ValidTransition(b) && Confirms(input, a) && Confirms(input, b)
    ensures !Pair(a, b)
  {
  }

  /** At most one transition of a validated status confirms. */
  lemma OneMatch(input: Input, i: nat, j: nat)
    requires ValidStatus(input.status) && i < |input.status.transitions| && j < |input.status.transitions|
    requires Confirms(input, input.status.transitions[i]) && Confirms(input, input.status.transitions[j])
    ensures i == j
  {
    hide ValidTransition, SameSubject;
    var ts := input.status.transitions;
    SameEndClashes(input, ts[i], ts[j]);
    SameEndClashes(input, ts[j], ts[i]);
  }

  lemma {:induction false} FirstMatchIsAMatch(input: Input, ts: seq<Transition>)
    requires ValidIdentity(input.binding.identity) && AllNamed(ts)
    ensures FirstMatch(input, ts).Some? ==> exists t :: t in ts && Named(t.oldIdentity) && MatchOf(input, t) == FirstMatch(input, ts)
    ensures FirstMatch(input, ts).None? ==> forall t :: t in ts && Named(t.oldIdentity) ==> MatchOf(input, t).None?
  {
    hide MatchOf;
    if ts != [] {
      FirstMatchIsAMatch(input, ts[1..]);
      assert ts == [ts[0]] + ts[1..];
      assert ts[0] in ts;
      if MatchOf(input, ts[0]).None? && FirstMatch(input, ts).Some? {
        var t :| t in ts[1..] && Named(t.oldIdentity) && MatchOf(input, t) == FirstMatch(input, ts);
        assert t in ts;
      }
    }
  }

  /** The classifier answers Some exactly when a transition confirms, with that transition's data; so any
      reordering of the transitions gives the same answer. */
  lemma AnswerIsOrderFree(input: Input, ts: seq<Transition>)
    requires ValidIdentity(input.binding.identity) && ValidStatus(input.status)
    requires multiset(ts) == multiset(input.status.transitions)
    ensures AllNamed(ts) && AllNamed(input.status.transitions)
    ensures FirstMatch(input, ts) == FirstMatch(input, input.status.transitions)
    ensures FirstMatch(input, ts).Some? <==> exists t :: t in input.status.transitions && Confirms(input, t)
  {
    hide MatchOf, Confirms, ValidStatus, ValidTransition;
    var original := input.status.transitions;
    StatusTransitionsValid(input.status);
    ValidNamed(input.status);
    forall t | t in ts ensures t in original { assert t in multiset(original); }
    forall t | t in original ensures t in ts { assert t in multiset(ts); }
    forall i | 0 <= i < |ts| ensures Named(ts[i].oldIdentity) { assert ts[i] in original; PartiesValid(ts[i]); }
    FirstMatchIsAMatch(input, ts);
    FirstMatchIsAMatch(input, original);
    forall t | t in original ensures MatchOf(input, t).Some? <==> Confirms(input, t) { MatchMeans(input, t); }
    if FirstMatch(input, ts).Some? && FirstMatch(input, original).Some? {
      var a :| a in ts && Named(a.oldIdentity) && MatchOf(input, a) == FirstMatch(input, ts);
      var b :| b in original && Named(b.oldIdentity) && MatchOf(input, b) == FirstMatch(input, original);
      var i :| 0 <= i < |original| && original[i] == a;
      var j :| 0 <= j < |original| && original[j] == b;
      OneMatch(input, i, j);
    }
  }

  lemma StatusTransitionsValid(st: Status)
    requires ValidStatus(st)
    ensures forall t :: t in st.transitions ==> ValidTransition(t)
  {
  }
}
