/** The cross-record checks of the status validator: neighbour checks and tables filled in loops, proved to
    accept exactly the statuses in which the rules hold of all pairs. */
module StatusValidator {
  import opened Ordering
  import opened JsStrings
  import opened Wrappers
  import opened RuntimeStatus
  import C = CanonicalJson

  datatype Code = SchemaInvalid | ValueInvalid | ArrayOrderInvalid
  datatype Verdict = Accept | Reject(code: Code)

  // ---- what a valid status is ----

  predicate Terminal(t: Transition) { !t.kind.Running? }

  /** Running transitions of one revision start the same generation. */
  predicate RunningPair(a: Transition, b: Transition)
    requires ValidTransition(a) && ValidTransition(b)
  {
    a.kind.Running? && b.kind.Running? && a.revision == b.revision ==> SameSubject(a.newIdentity.value, b.newIdentity.value)
  }

  /** Terminal transitions of one revision report one observation of one generation. */
  predicate TerminalPair(a: Transition, b: Transition) {
    Terminal(a) && Terminal(b) && a.revision == b.revision ==>
      && a.kind == b.kind && a.newIdentity == b.newIdentity && SameObservation(a, b)
      && a.oldIdentity.Some? == b.oldIdentity.Some?
      && (a.oldIdentity.Some? ==> SameSubject(a.oldIdentity.value, b.oldIdentity.value))
  }

  /** No identity ends twice, and no generation ends in two revisions. */
  predicate ConsumedPair(a: Transition, b: Transition) {
    Terminal(a) && Terminal(b) && a.oldIdentity.Some? && b.oldIdentity.Some? ==>
      && a.oldIdentity != b.oldIdentity
      && (SameSubject(a.oldIdentity.value, b.oldIdentity.value) ==> a.revision == b.revision)
  }

  predicate Pair(a: Transition, b: Transition)
    requires ValidTransition(a) && ValidTransition(b)
  {
    RunningPair(a, b) && TerminalPair(a, b) && ConsumedPair(a, b)
  }

  predicate AllValid(ts: seq<Transition>) { forall i :: 0 <= i < |ts| ==> ValidTransition(ts[i]) }

  predicate Consistent(ts: seq<Transition>)
    requires AllValid(ts)
  {
    forall i, j :: 0 <= i < j < |ts| ==> Pair(ts[i], ts[j])
  }

  predicate PartiesOfProvider(t: Transition, provider: Provider) {
    && (t.oldIdentity.Some? ==> IdentityOfProvider(t.oldIdentity.value, provider))
    && (t.newIdentity.Some? ==> IdentityOfProvider(t.newIdentity.value, provider))
  }

  predicate OfProvider(ts: seq<Transition>, provider: Provider) {
    forall i :: 0 <= i < |ts| ==> PartiesOfProvider(ts[i], provider)
  }

  predicate Consumed(ts: seq<Transition>, id: Identity) {
    exists i :: 0 <= i < |ts| && Terminal(ts[i]) && ts[i].oldIdentity == Some(id)
  }

  predicate AllAttested(attestations: seq<Attestation>, provider: Provider) {
    forall i :: 0 <= i < |attestations| ==> ValidAttestation(attestations[i], provider)
  }

  /** Attestations are strictly ordered by canonical text and name one generation with different models. */
  predicate AttestationPair(a: Attestation, b: Attestation)
    requires ValidIdentity(a.identity) && ValidIdentity(b.identity)
  {
    && LexLess(Utf8(IdentityText(a.identity)), Utf8(IdentityText(b.identity)))
    && SameSubject(a.identity, b.identity)
    && a.identity.runtimeModelId != b.identity.runtimeModelId
  }

  predicate LiveAttestation(st: Status, a: Attestation) {
    a.statusRevision <= st.revision && a.observedAt <= st.observedAt && !Consumed(st.transitions, a.identity)
  }

  predicate ValidAttestations(st: Status)
    requires AllAttested(st.attestations, st.provider)
  {
    var xs := st.attestations;
    && (forall i :: 0 <= i < |xs| ==> LiveAttestation(st, xs[i]))
    && (forall i, j :: 0 <= i < j < |xs| ==> AttestationPair(xs[i], xs[j]))
  }

  /** A later revision is not observed earlier, and one revision is observed at one time. */
  predicate TimesAgree(xs: seq<Attestation>) {
    forall a, b :: a in xs && b in xs ==> TimePair(a, b)
  }

  predicate TimePair(a: Attestation, b: Attestation) {
    && (a.statusRevision < b.statusRevision ==> a.observedAt <= b.observedAt)
    && (a.statusRevision == b.statusRevision ==> a.observedAt == b.observedAt)
  }

  function KeyBytes(t: Transition): seq<int>
    requires ValidTransition(t)
  {
    Utf8(TransitionKeyText(t))
  }

  predicate OrderPair(a: Transition, b: Transition)
    requires ValidTransition(a) && ValidTransition(b)
  {
    && a.revision <= b.revision && a.observedAt <= b.observedAt
    && (a.revision == b.revision ==>
          LexLess(KeyBytes(a), KeyBytes(b)) && a.kind == b.kind && a.observedAt == b.observedAt)
  }

  predicate WithinStatus(st: Status, t: Transition) { t.revision <= st.revision && t.observedAt <= st.observedAt }

  predicate ValidOrder(st: Status)
    requires AllValid(st.transitions)
  {
    var ts := st.transitions;
    && (forall i :: 0 <= i < |ts| ==> WithinStatus(st, ts[i]))
    && (forall i, j :: 0 <= i < j < |ts| ==> OrderPair(ts[i], ts[j]))
  }

  predicate ValidState(st: Status) {
    var ts := st.transitions;
    && ts != [] && ts[|ts| - 1].kind == st.state
    && (st.state.Running? ==> st.attestations != [])
    && (!st.state.Running? ==>
          && st.attestations == []
          && (exists i :: 0 <= i < |ts| && ts[i].revision == st.revision)
          && (forall i :: 0 <= i < |ts| && ts[i].revision == st.revision ==>
                ts[i].kind == st.state && ts[i].observedAt == st.observedAt))
  }

  predicate ValidHeader(st: Status) {
    && PositiveInteger(st.revision) && SafeInteger(st.observedAt) && SafeInteger(st.expiresAt)
    && ExactExpiry(st.observedAt, STATUS_TTL_MS, st.expiresAt)
    && |st.attestations| <= MAX_ATTESTATIONS && |st.transitions| <= MAX_TRANSITIONS
  }

  predicate ValidStatus(st: Status) {
    && ValidHeader(st) && AllAttested(st.attestations, st.provider) && AllValid(st.transitions)
    && OfProvider(st.transitions, st.provider) && Consistent(st.transitions)
    && ValidAttestations(st) && TimesAgree(st.attestations) && ValidOrder(st) && ValidState(st)
  }

  // ---- the tables of the transition loop ----

  datatype Batch = Batch(kind: State, anchor: JsString, oldSubject: Option<Identity>, observation: JsString)

  /** The running table holds, for each revision seen, the identity last started there. */
  ghost predicate TracksRunning(ts: seq<Transition>, n: nat, table: map<int, Identity>)
    requires AllValid(ts) && n <= |ts|
  {
    && (forall k :: 0 <= k < n && ts[k].kind.Running? ==>
          ts[k].revision in table && SameSubject(table[ts[k].revision], ts[k].newIdentity.value))
    && (forall r :: r in table ==>
          exists k :: 0 <= k < n && ts[k].kind.Running? && ts[k].revision == r && ts[k].newIdentity == Some(table[r]))
  }

  ghost predicate Describes(b: Batch, t: Transition)
    requires ValidTransition(t)
  {
    && Terminal(t) && b.kind == t.kind && b.anchor == AnchorText(t.newIdentity) && b.observation == ObservationText(t)
    && b.oldSubject.Some? == t.oldIdentity.Some?
    && (t.oldIdentity.Some? ==> SameSubject(b.oldSubject.value, t.oldIdentity.value))
  }

  /** The batch table holds, for each revision with a terminal transition, what all of them report. */
  ghost predicate TracksTerminal(ts: seq<Transition>, n: nat, table: map<int, Batch>)
    requires AllValid(ts) && n <= |ts|
  {
    && (forall k :: 0 <= k < n && Terminal(ts[k]) ==> ts[k].revision in table && Describes(table[ts[k].revision], ts[k]))
    && (forall r :: r in table ==> exists k :: 0 <= k < n && Terminal(ts[k]) && ts[k].revision == r)
  }

  predicate Ends(t: Transition) { Terminal(t) && t.oldIdentity.Some? }

  function EndedText(t: Transition): JsString
    requires ValidTransition(t) && Ends(t)
  {
    IdentityText(t.oldIdentity.value)
  }

  function EndedSubject(t: Transition): JsString
    requires ValidTransition(t) && Ends(t)
  {
    SubjectText(t.oldIdentity.value)
  }

  /** The texts of the identities ended so far. */
  ghost predicate TracksTexts(ts: seq<Transition>, n: nat, texts: set<JsString>)
    requires AllValid(ts) && n <= |ts|
  {
    && (forall k :: 0 <= k < n && Ends(ts[k]) ==> EndedText(ts[k]) in texts)
    && (forall x :: x in texts ==> exists k :: 0 <= k < n && Ends(ts[k]) && EndedText(ts[k]) == x)
  }

  /** The revision in which each generation ended. */
  ghost predicate TracksRevisions(ts: seq<Transition>, n: nat, revisions: map<JsString, int>)
    requires AllValid(ts) && n <= |ts|
  {
    && (forall k :: 0 <= k < n && Ends(ts[k]) ==>
          EndedSubject(ts[k]) in revisions && revisions[EndedSubject(ts[k])] == ts[k].revision)
    && (forall x :: x in revisions.Keys ==> exists k :: 0 <= k < n && Ends(ts[k]) && EndedSubject(ts[k]) == x)
  }

  lemma RunningStep(ts: seq<Transition>, n: nat, table: map<int, Identity>)
    requires AllValid(ts) && n < |ts| && ts[n].kind.Running? && TracksRunning(ts, n, table)
    ensures var t := ts[n];
            var agrees := t.revision in table ==> SameSubject(table[t.revision], t.newIdentity.value);
            && (agrees <==> forall k :: 0 <= k < n ==> RunningPair(ts[k], t))
            && (agrees ==> TracksRunning(ts, n + 1, table[t.revision := t.newIdentity.value]))
  {
    hide ValidTransition;
    var t := ts[n];
    assert t.newIdentity.Some? by { RunningHasNew(t); }
    if t.revision in table && !SameSubject(table[t.revision], t.newIdentity.value) {
      var k :| 0 <= k < n && ts[k].kind.Running? && ts[k].revision == t.revision && ts[k].newIdentity == Some(table[t.revision]);
      assert !RunningPair(ts[k], t);
    } else {
      var next := table[t.revision := t.newIdentity.value];
      forall r | r in next
        ensures exists k :: 0 <= k < n + 1 && ts[k].kind.Running? && ts[k].revision == r && ts[k].newIdentity == Some(next[r])
      {
        if r == t.revision {
          assert ts[n].newIdentity == Some(next[r]);
        } else {
          var k :| 0 <= k < n && ts[k].kind.Running? && ts[k].revision == r && ts[k].newIdentity == Some(table[r]);
          assert 0 <= k < n + 1 && ts[k].newIdentity == Some(next[r]);
        }
      }
    }
  }

  lemma RunningHasNew(t: Transition)
    requires ValidTransition(t) && t.kind.Running?
    ensures t.newIdentity.Some? && t.oldIdentity.None?
  {
  }

  predicate Matches(b: Batch, t: Transition)
    requires ValidTransition(t)
  {
    && b.kind == t.kind && b.anchor == AnchorText(t.newIdentity) && b.observation == ObservationText(t)
    && b.oldSubject.Some? == t.oldIdentity.Some?
    && (b.oldSubject.Some? && t.oldIdentity.Some? ==> SameSubject(b.oldSubject.value, t.oldIdentity.value))
  }

  function BatchOf(t: Transition): Batch
    requires ValidTransition(t)
  {
    Batch(t.kind, AnchorText(t.newIdentity), t.oldIdentity, ObservationText(t))
  }

  lemma TerminalStep(ts: seq<Transition>, n: nat, table: map<int, Batch>)
    requires AllValid(ts) && n < |ts| && Terminal(ts[n]) && TracksTerminal(ts, n, table)
    ensures var t := ts[n];
            && (t.revision in table ==> (Matches(table[t.revision], t) <==> forall k :: 0 <= k < n ==> TerminalPair(ts[k], t)))
            && (t.revision in table && Matches(table[t.revision], t) ==> TracksTerminal(ts, n + 1, table))
            && (t.revision !in table ==>
                  (forall k :: 0 <= k < n ==> TerminalPair(ts[k], t))
                  && TracksTerminal(ts, n + 1, table[t.revision := BatchOf(t)]))
  {
    hide ValidTransition, AnchorText, ObservationText, IdentityText;
    var t := ts[n];
    forall k | 0 <= k < n && Terminal(ts[k]) && ts[k].revision == t.revision
      ensures t.revision in table && (Matches(table[t.revision], t) <==> TerminalPair(ts[k], t))
    {
      DescribedPair(table[t.revision], ts[k], t);
    }
    if t.revision in table {
      var k :| 0 <= k < n && Terminal(ts[k]) && ts[k].revision == t.revision;
      assert Matches(table[t.revision], t) <==> TerminalPair(ts[k], t);
    }
  }

  lemma DescribedPair(b: Batch, a: Transition, t: Transition)
    requires ValidTransition(a) && ValidTransition(t) && Describes(b, a) && Terminal(t) && a.revision == t.revision
    ensures Matches(b, t) <==> TerminalPair(a, t)
  {
    hide AnchorText, ObservationText;
    AnchorTextInjective(a.newIdentity, t.newIdentity);
    ObservationTextTells(a, t);
  }

  lemma EndedTells(a: Transition, b: Transition)
    requires ValidTransition(a) && Ends(a) && ValidTransition(b) && Ends(b)
    ensures EndedText(a) == EndedText(b) <==> a.oldIdentity == b.oldIdentity
    ensures EndedSubject(a) == EndedSubject(b) <==> SameSubject(a.oldIdentity.value, b.oldIdentity.value)
  {
    IdentityTextInjective(a.oldIdentity.value, b.oldIdentity.value);
    SubjectTextTells(a.oldIdentity.value, b.oldIdentity.value);
  }

  predicate SameEnd(a: Transition, b: Transition) {
    Ends(a) && Ends(b) && a.oldIdentity == b.oldIdentity
  }

  predicate SplitEnd(a: Transition, b: Transition) {
    Ends(a) && Ends(b) && SameSubject(a.oldIdentity.value, b.oldIdentity.value) && a.revision != b.revision
  }

  lemma ConsumedCases(a: Transition, b: Transition)
    ensures ConsumedPair(a, b) <==> !SameEnd(a, b) && !SplitEnd(a, b)
  {
  }

  /** The text look-up finds exactly the earlier end of the same identity. */
  lemma TextStep(ts: seq<Transition>, n: nat, texts: set<JsString>)
    requires AllValid(ts) && n < |ts| && Ends(ts[n]) && TracksTexts(ts, n, texts)
    ensures EndedText(ts[n]) in texts <==> exists k :: 0 <= k < n && SameEnd(ts[k], ts[n])
    ensures TracksTexts(ts, n + 1, texts + {EndedText(ts[n])})
  {
    hide ValidTransition, EndedText;
    var t := ts[n];
    if EndedText(t) in texts {
      var k :| 0 <= k < n && Ends(ts[k]) && EndedText(ts[k]) == EndedText(t);
      EndedTells(ts[k], t);
      assert SameEnd(ts[k], t);
    }
    if k :| 0 <= k < n && SameEnd(ts[k], t) {
      EndedTells(ts[k], t);
    }
    forall x | x in texts + {EndedText(t)} ensures exists k :: 0 <= k < n + 1 && Ends(ts[k]) && EndedText(ts[k]) == x {
      if x in texts {
        var k :| 0 <= k < n && Ends(ts[k]) && EndedText(ts[k]) == x;
      } else {
        assert Ends(ts[n]) && EndedText(ts[n]) == x;
      }
    }
  }

  /** The revision look-up finds exactly an earlier end of the same generation in another revision. */
  lemma RevisionStep(ts: seq<Transition>, n: nat, revisions: map<JsString, int>)
    requires AllValid(ts) && n < |ts| && Ends(ts[n]) && TracksRevisions(ts, n, revisions)
    ensures var clash := EndedSubject(ts[n]) in revisions && revisions[EndedSubject(ts[n])] != ts[n].revision;
            && (clash <==> exists k :: 0 <= k < n && SplitEnd(ts[k], ts[n]))
            && (!clash ==> TracksRevisions(ts, n + 1, revisions[EndedSubject(ts[n]) := ts[n].revision]))
  {
    hide ValidTransition, EndedSubject, SameSubject;
    var t := ts[n];
    if EndedSubject(t) in revisions && revisions[EndedSubject(t)] != t.revision {
      var k :| 0 <= k < n && Ends(ts[k]) && EndedSubject(ts[k]) == EndedSubject(t);
      EndedTells(ts[k], t);
      assert SplitEnd(ts[k], t);
    } else {
      RevisionTracks(ts, n, revisions);
    }
    if k :| 0 <= k < n && SplitEnd(ts[k], t) {
      EndedTells(ts[k], t);
    }
  }

  lemma RevisionTracks(ts: seq<Transition>, n: nat, revisions: map<JsString, int>)
    requires AllValid(ts) && n < |ts| && Ends(ts[n]) && TracksRevisions(ts, n, revisions)
    requires EndedSubject(ts[n]) in revisions ==> revisions[EndedSubject(ts[n])] == ts[n].revision
    ensures TracksRevisions(ts, n + 1, revisions[EndedSubject(ts[n]) := ts[n].revision])
  {
    hide ValidTransition, EndedSubject;
    var next := revisions[EndedSubject(ts[n]) := ts[n].revision];
    forall x | x in next.Keys ensures exists k :: 0 <= k < n + 1 && Ends(ts[k]) && EndedSubject(ts[k]) == x {
      if x in revisions.Keys {
        var k :| 0 <= k < n && Ends(ts[k]) && EndedSubject(ts[k]) == x;
      } else {
        assert Ends(ts[n]) && EndedSubject(ts[n]) == x;
      }
    }
  }

  lemma PartiesValid(t: Transition)
    requires ValidTransition(t)
    ensures Named(t.oldIdentity) && Named(t.newIdentity)
  {
  }

  /** Adding one transition to a consistent prefix. */
  lemma ConsistentStep(ts: seq<Transition>, n: nat)
    requires AllValid(ts) && n < |ts|
    ensures Consistent(ts[..n + 1]) <==> Consistent(ts[..n]) && forall k :: 0 <= k < n ==> Pair(ts[k], ts[n])
  {
    hide ValidTransition, Pair;
    var longer, shorter := ts[..n + 1], ts[..n];
    if Consistent(longer) {
      forall k | 0 <= k < n ensures Pair(ts[k], ts[n]) { assert Pair(longer[k], longer[n]); }
      forall i, j | 0 <= i < j < n ensures Pair(shorter[i], shorter[j]) { assert Pair(longer[i], longer[j]); }
    }
    if Consistent(shorter) && forall k :: 0 <= k < n ==> Pair(ts[k], ts[n]) {
      forall i, j | 0 <= i < j < n + 1 ensures Pair(longer[i], longer[j]) {
        if j < n { assert Pair(shorter[i], shorter[j]); }
      }
    }
  }

  lemma InconsistentPrefix(ts: seq<Transition>, k: nat, n: nat)
    requires AllValid(ts) && k < n < |ts| && !Pair(ts[k], ts[n])
    ensures !Consistent(ts)
  {
  }

  /** The loop over transitions: accepts exactly consistent ones, and returns the consumed texts. */
  method CheckTransitions(ts: seq<Transition>, provider: Provider) returns (accepted: bool, consumedIdentities: set<JsString>)
    requires AllValid(ts)
    ensures accepted <==> OfProvider(ts, provider) && Consistent(ts)
    ensures accepted ==> forall id :: ValidIdentity(id) ==> (IdentityText(id) in consumedIdentities <==> Consumed(ts, id))
  {
    hide ValidTransition, Pair, IdentityText, EndedText, EndedSubject, TracksRunning, TracksTerminal, TracksTexts, TracksRevisions, IdentityOfProvider,
         SameEnd, SplitEnd,
         Matches, BatchOf;
    consumedIdentities := {};
    var consumedGenerationRevisions: map<JsString, int> := map[];
    var terminalBatches: map<int, Batch> := map[];
    var runningBatchSubjects: map<int, Identity> := map[];
    TablesStart(ts);
    for n := 0 to |ts|
      invariant OfProvider(ts[..n], provider) && Consistent(ts[..n])
      invariant TracksRunning(ts, n, runningBatchSubjects)
      invariant TracksTerminal(ts, n, terminalBatches)
      invariant TracksTexts(ts, n, consumedIdentities) && TracksRevisions(ts, n, consumedGenerationRevisions)
    {
      var transition := ts[n];
      ConsistentStep(ts, n);
      TablesKeep(ts, n, runningBatchSubjects, terminalBatches, consumedIdentities, consumedGenerationRevisions);
      PairCases(ts, n);
      if !PartiesOfProvider(transition, provider) { return false, {}; }
      if transition.kind.Running? {
        RunningHasNew(transition);
        RunningStep(ts, n, runningBatchSubjects);
        if transition.revision in runningBatchSubjects
           && !SameSubject(runningBatchSubjects[transition.revision], transition.newIdentity.value) {
          RejectedAt(ts, n);
          return false, {};
        }
        runningBatchSubjects := runningBatchSubjects[transition.revision := transition.newIdentity.value];
        continue;
      }
      TerminalStep(ts, n, terminalBatches);
      if transition.revision !in terminalBatches {
        terminalBatches := terminalBatches[transition.revision := BatchOf(transition)];
      } else if !Matches(terminalBatches[transition.revision], transition) {
        RejectedAt(ts, n);
        return false, {};
      }
      if transition.oldIdentity.Some? {
        TextStep(ts, n, consumedIdentities);
        RevisionStep(ts, n, consumedGenerationRevisions);
        var oldIdentity := EndedText(transition);
        if oldIdentity in consumedIdentities { RejectedAt(ts, n); return false, {}; }
        consumedIdentities := consumedIdentities + {oldIdentity};
        var subjectKey := EndedSubject(transition);
        if subjectKey in consumedGenerationRevisions && consumedGenerationRevisions[subjectKey] != transition.revision {
          RejectedAt(ts, n);
          return false, {};
        }
        consumedGenerationRevisions := consumedGenerationRevisions[subjectKey := transition.revision];
      }
    }
    assert ts[..|ts|] == ts;
    ConsumedTexts(ts, consumedIdentities);
    return true, consumedIdentities;
  }

  lemma TablesStart(ts: seq<Transition>)
    requires AllValid(ts)
    ensures TracksRunning(ts, 0, map[]) && TracksTerminal(ts, 0, map[])
    ensures TracksTexts(ts, 0, {}) && TracksRevisions(ts, 0, map[])
  {
  }

  lemma RunningKeeps(ts: seq<Transition>, n: nat, table: map<int, Identity>)
    requires AllValid(ts) && n < |ts| && TracksRunning(ts, n, table) && !ts[n].kind.Running?
    ensures TracksRunning(ts, n + 1, table)
  {
    hide ValidTransition, SameSubject;
    forall r | r in table
      ensures exists k :: 0 <= k < n + 1 && ts[k].kind.Running? && ts[k].revision == r && ts[k].newIdentity == Some(table[r])
    {
      var k :| 0 <= k < n && ts[k].kind.Running? && ts[k].revision == r && ts[k].newIdentity == Some(table[r]);
    }
  }

  lemma TerminalKeeps(ts: seq<Transition>, n: nat, table: map<int, Batch>)
    requires AllValid(ts) && n < |ts| && TracksTerminal(ts, n, table) && !Terminal(ts[n])
    ensures TracksTerminal(ts, n + 1, table)
  {
    hide ValidTransition, Describes, Terminal;
    forall r | r in table ensures exists k :: 0 <= k < n + 1 && Terminal(ts[k]) && ts[k].revision == r {
      var k :| 0 <= k < n && Terminal(ts[k]) && ts[k].revision == r;
    }
  }

  lemma TextsKeep(ts: seq<Transition>, n: nat, texts: set<JsString>)
    requires AllValid(ts) && n < |ts| && TracksTexts(ts, n, texts) && !Ends(ts[n])
    ensures TracksTexts(ts, n + 1, texts)
  {
    hide ValidTransition, EndedText, Ends;
    forall x | x in texts ensures exists k :: 0 <= k < n + 1 && Ends(ts[k]) && EndedText(ts[k]) == x {
      var k :| 0 <= k < n && Ends(ts[k]) && EndedText(ts[k]) == x;
    }
  }

  lemma RevisionsKeep(ts: seq<Transition>, n: nat, revisions: map<JsString, int>)
    requires AllValid(ts) && n < |ts| && TracksRevisions(ts, n, revisions) && !Ends(ts[n])
    ensures TracksRevisions(ts, n + 1, revisions)
  {
    hide ValidTransition, EndedSubject, Ends;
    forall x | x in revisions.Keys ensures exists k :: 0 <= k < n + 1 && Ends(ts[k]) && EndedSubject(ts[k]) == x {
      var k :| 0 <= k < n && Ends(ts[k]) && EndedSubject(ts[k]) == x;
    }
  }

  /** A transition leaves alone the tables it does not belong in. */
  lemma TablesKeep(ts: seq<Transition>, n: nat, running: map<int, Identity>, terminal: map<int, Batch>,
                   texts: set<JsString>, revisions: map<JsString, int>)
    requires AllValid(ts) && n < |ts|
    requires TracksRunning(ts, n, running) && TracksTerminal(ts, n, terminal)
    requires TracksTexts(ts, n, texts) && TracksRevisions(ts, n, revisions)
    ensures Terminal(ts[n]) ==> TracksRunning(ts, n + 1, running)
    ensures !Terminal(ts[n]) ==> TracksTerminal(ts, n + 1, terminal)
    ensures !Ends(ts[n]) ==> TracksTexts(ts, n + 1, texts) && TracksRevisions(ts, n + 1, revisions)
  {
    hide ValidTransition, TracksRunning, TracksTerminal, TracksTexts, TracksRevisions, Ends, AllValid;
    if Terminal(ts[n]) { RunningKeeps(ts, n, running); } else { TerminalKeeps(ts, n, terminal); }
    if !Ends(ts[n]) {
      TextsKeep(ts, n, texts);
      RevisionsKeep(ts, n, revisions);
    }
  }

  /** Which of the rules can fail for the transition at `n`. */
  lemma PairCases(ts: seq<Transition>, n: nat)
    requires AllValid(ts) && n < |ts|
    ensures !Terminal(ts[n]) ==> forall k :: 0 <= k < n ==> (Pair(ts[k], ts[n]) <==> RunningPair(ts[k], ts[n]))
    ensures Terminal(ts[n]) ==>
              forall k :: 0 <= k < n ==>
                (Pair(ts[k], ts[n]) <==> TerminalPair(ts[k], ts[n]) && !SameEnd(ts[k], ts[n]) && !SplitEnd(ts[k], ts[n]))
    ensures !Ends(ts[n]) ==> forall k :: 0 <= k < n ==> !SameEnd(ts[k], ts[n]) && !SplitEnd(ts[k], ts[n])
  {
    hide ValidTransition, SameSubject;
    forall k | 0 <= k < n ensures ConsumedPair(ts[k], ts[n]) <==> !SameEnd(ts[k], ts[n]) && !SplitEnd(ts[k], ts[n]) {
      ConsumedCases(ts[k], ts[n]);
    }
  }

  lemma RejectedAt(ts: seq<Transition>, n: nat)
    requires AllValid(ts) && n < |ts| && exists k :: 0 <= k < n && !Pair(ts[k], ts[n])
    ensures !Consistent(ts)
  {
  }

  lemma ConsumedTexts(ts: seq<Transition>, texts: set<JsString>)
    requires AllValid(ts) && TracksTexts(ts, |ts|, texts)
    ensures forall id :: ValidIdentity(id) ==> (IdentityText(id) in texts <==> Consumed(ts, id))
  {
    hide ValidTransition, IdentityText, ValidIdentity, TracksTexts;
    forall id | ValidIdentity(id) ensures IdentityText(id) in texts <==> Consumed(ts, id) {
      ConsumedText(ts, texts, id);
    }
  }

  lemma EndedIs(t: Transition, id: Identity)
    requires ValidTransition(t) && Ends(t) && ValidIdentity(id)
    ensures EndedText(t) == IdentityText(id) <==> t.oldIdentity == Some(id)
  {
    IdentityTextInjective(t.oldIdentity.value, id);
  }

  lemma ConsumedText(ts: seq<Transition>, texts: set<JsString>, id: Identity)
    requires AllValid(ts) && TracksTexts(ts, |ts|, texts) && ValidIdentity(id)
    ensures IdentityText(id) in texts <==> Consumed(ts, id)
  {
    hide ValidTransition, IdentityText, ValidIdentity, EndedText, EndedSubject;
    if IdentityText(id) in texts {
      var k :| 0 <= k < |ts| && Ends(ts[k]) && EndedText(ts[k]) == IdentityText(id);
      EndedIs(ts[k], id);
      assert Terminal(ts[k]) && ts[k].oldIdentity == Some(id);
    }
    if Consumed(ts, id) {
      var k :| 0 <= k < |ts| && Terminal(ts[k]) && ts[k].oldIdentity == Some(id);
      EndedIs(ts[k], id);
      assert Ends(ts[k]);
    }
  }

  // ---- attestations ----

  predicate Neighbours(a: Attestation, b: Attestation)
    requires ValidIdentity(a.identity) && ValidIdentity(b.identity)
  {
    LexLess(Utf8(IdentityText(a.identity)), Utf8(IdentityText(b.identity))) && SameSubject(a.identity, b.identity)
  }

  /** Neighbours compose; that models differ follows from the texts differing. */
  lemma NeighboursCompose(a: Attestation, b: Attestation, c: Attestation, provider: Provider)
    requires ValidAttestation(a, provider) && ValidAttestation(b, provider) && ValidAttestation(c, provider)
    requires Neighbours(a, b) && Neighbours(b, c)
    ensures AttestationPair(a, c)
  {
    hide IdentityText, Utf8, LexLess;
    LexLessTransitive(Utf8(IdentityText(a.identity)), Utf8(IdentityText(b.identity)), Utf8(IdentityText(c.identity)));
    ModelsDiffer(a, c, provider);
  }

  lemma ModelsDiffer(a: Attestation, b: Attestation, provider: Provider)
    requires ValidAttestation(a, provider) && ValidAttestation(b, provider) && Neighbours(a, b)
    ensures AttestationPair(a, b)
  {
    if a.identity.runtimeModelId == b.identity.runtimeModelId {
      assert a.identity == b.identity;
      LexReflexive(Utf8(IdentityText(a.identity)));
      assert false;
    }
  }

  /** The neighbour check on attestations accepts exactly when the rules hold of all pairs. */
  method CheckAttestations(st: Status, consumedIdentities: set<JsString>) returns (r: Verdict)
    requires AllAttested(st.attestations, st.provider)
    requires forall id :: ValidIdentity(id) ==> (IdentityText(id) in consumedIdentities <==> Consumed(st.transitions, id))
    ensures r.Accept? <==> ValidAttestations(st)
  {
    hide IdentityText, Utf8, LexLess, Consumed, SameSubject;
    var xs := st.attestations;
    for index := 0 to |xs|
      invariant forall i :: 0 <= i < index ==> LiveAttestation(st, xs[i])
      invariant forall i, j :: 0 <= i < j < index ==> AttestationPair(xs[i], xs[j])
    {
      var current := xs[index];
      if current.statusRevision > st.revision || current.observedAt > st.observedAt
         || IdentityText(current.identity) in consumedIdentities {
        assert !LiveAttestation(st, xs[index]);
        return Reject(ValueInvalid);
      }
      if index > 0 {
        var previous := xs[index - 1];
        if !LexLess(Utf8(IdentityText(previous.identity)), Utf8(IdentityText(current.identity))) {
          assert !AttestationPair(xs[index - 1], xs[index]);
          return Reject(ArrayOrderInvalid);
        }
        if !SameSubject(previous.identity, current.identity) {
          assert !AttestationPair(xs[index - 1], xs[index]);
          return Reject(ValueInvalid);
        }
        if previous.identity.runtimeModelId == current.identity.runtimeModelId {
          assert !AttestationPair(xs[index - 1], xs[index]);
          return Reject(ValueInvalid);
        }
        forall i | 0 <= i < index ensures AttestationPair(xs[i], xs[index]) {
          if i < index - 1 {
            assert AttestationPair(xs[i], xs[index - 1]);
            NeighboursCompose(xs[i], xs[index - 1], xs[index], st.provider);
          }
        }
      }
    }
    return Accept;
  }

  function RevisionKey(a: Attestation): seq<int> { [a.statusRevision] }

  lemma SortedByRevision(xs: seq<Attestation>)
    ensures var sorted := SortBy(xs, RevisionKey);
            && (forall i, j :: 0 <= i < j < |sorted| ==> sorted[i].statusRevision <= sorted[j].statusRevision)
            && (forall x :: x in sorted <==> x in xs)
  {
    var sorted := SortBy(xs, RevisionKey);
    SortBySorts(xs, RevisionKey);
    forall i, j | 0 <= i < j < |sorted| ensures sorted[i].statusRevision <= sorted[j].statusRevision {
      assert LexLeq(RevisionKey(sorted[i]), RevisionKey(sorted[j]));
    }
  }

  /** Sorting by revision and comparing neighbours decides the rule for all pairs. */
  method CheckAttestationTimes(attestations: seq<Attestation>) returns (accepted: bool)
    ensures accepted <==> TimesAgree(attestations)
  {
    var sorted := SortBy(attestations, RevisionKey);
    SortedByRevision(attestations);
    hide SortBy;
    var index := 1;
    while index < |sorted|
      invariant 1 <= index
      invariant forall i, j :: 0 <= i < j < index && j < |sorted| ==>
                  sorted[i].observedAt <= sorted[j].observedAt
                  && (sorted[i].statusRevision == sorted[j].statusRevision ==> sorted[i].observedAt == sorted[j].observedAt)
    {
      var previous, current := sorted[index - 1], sorted[index];
      if previous.observedAt > current.observedAt
         || (previous.statusRevision == current.statusRevision && previous.observedAt != current.observedAt) {
        assert previous in attestations && current in attestations && !TimePair(previous, current);
        return false;
      }
      index := index + 1;
    }
    forall a, b | a in attestations && b in attestations ensures TimePair(a, b) {
      var i :| 0 <= i < |sorted| && sorted[i] == a;
      var j :| 0 <= j < |sorted| && sorted[j] == b;
    }
    return true;
  }

  // ---- transitions ----

  lemma OrderComposes(a: Transition, b: Transition, c: Transition)
    requires ValidTransition(a) && ValidTransition(b) && ValidTransition(c) && OrderPair(a, b) && OrderPair(b, c)
    ensures OrderPair(a, c)
  {
    hide KeyBytes, LexLess;
    if a.revision == c.revision {
      LexLessTransitive(KeyBytes(a), KeyBytes(b), KeyBytes(c));
    }
  }

  /** The neighbour check on transitions accepts exactly when the rules hold of all pairs. */
  method CheckOrder(st: Status) returns (r: Verdict)
    requires AllValid(st.transitions)
    ensures r.Accept? <==> ValidOrder(st)
  {
    hide ValidTransition, KeyBytes, LexLess;
    var ts := st.transitions;
    for index := 0 to |ts|
      invariant forall i :: 0 <= i < index ==> WithinStatus(st, ts[i])
      invariant forall i, j :: 0 <= i < j < index ==> OrderPair(ts[i], ts[j])
    {
      var current := ts[index];
      if current.revision > st.revision || current.observedAt > st.observedAt {
        assert !WithinStatus(st, ts[index]);
        return Reject(ValueInvalid);
      }
      if index > 0 {
        var previous := ts[index - 1];
        if previous.revision > current.revision {
          assert !OrderPair(ts[index - 1], ts[index]);
          return Reject(ArrayOrderInvalid);
        }
        if previous.revision == current.revision && !LexLess(KeyBytes(previous), KeyBytes(current)) {
          assert !OrderPair(ts[index - 1], ts[index]);
          return Reject(ArrayOrderInvalid);
        }
        if previous.revision == current.revision && previous.kind != current.kind {
          assert !OrderPair(ts[index - 1], ts[index]);
          return Reject(ValueInvalid);
        }
        if previous.observedAt > current.observedAt
           || (previous.revision == current.revision && previous.observedAt != current.observedAt) {
          assert !OrderPair(ts[index - 1], ts[index]);
          return Reject(ValueInvalid);
        }
        forall i | 0 <= i < index ensures OrderPair(ts[i], ts[index]) {
          if i < index - 1 {
            assert OrderPair(ts[i], ts[index - 1]);
            OrderComposes(ts[i], ts[index - 1], ts[index]);
          }
        }
      }
    }
    return Accept;
  }

  /** The validator accepts exactly the valid statuses. */
  method ValidateStatus(st: Status, expectedProvider: Option<Provider>) returns (r: Verdict)
    ensures r.Accept? <==> ValidStatus(st) && (expectedProvider.Some? ==> expectedProvider.value == st.provider)
  {
    hide ValidAttestation, ValidTransition, ValidAttestations, ValidOrder, Consistent, TimesAgree, OfProvider, IdentityText;
    if expectedProvider.Some? && expectedProvider.value != st.provider { return Reject(SchemaInvalid); }
    if !(PositiveInteger(st.revision) && SafeInteger(st.observedAt) && SafeInteger(st.expiresAt)) {
      return Reject(ValueInvalid);
    }
    if !ExactExpiry(st.observedAt, STATUS_TTL_MS, st.expiresAt) { return Reject(ValueInvalid); }
    if |st.attestations| > MAX_ATTESTATIONS || |st.transitions| > MAX_TRANSITIONS { return Reject(SchemaInvalid); }
    if !AllAttested(st.attestations, st.provider) { return Reject(ValueInvalid); }
    if !AllValid(st.transitions) { return Reject(ValueInvalid); }
    var consistent, consumedIdentities := CheckTransitions(st.transitions, st.provider);
    if !consistent { return Reject(ValueInvalid); }
    r := CheckAttestations(st, consumedIdentities);
    if r.Reject? { return; }
    var timely := CheckAttestationTimes(st.attestations);
    if !timely { return Reject(ValueInvalid); }
    r := CheckOrder(st);
    if r.Reject? { return; }
    if !ValidState(st) { return Reject(ValueInvalid); }
    return Accept;
  }
}
