/** What the transitions of a valid status tell: one event for each revision, of which every transition is the view of one
    model. */
module StatusHistory {
  import opened Ordering
  import opened JsStrings
  import opened Wrappers
  import opened RuntimeStatus
  import opened StatusValidator

  /** A generation: an identity without its model. */
  datatype Generation = Generation(
    generationId: JsString,
    writerPid: int,
    writerProcessStart: JsString,
    runtimePid: int,
    runtimeProcessStart: JsString,
    bootNonce: JsString,
    endpointIdentityHash: JsString,
    startedAt: int)

  function GenerationOf(id: Identity): Generation {
    Generation(id.generationId, id.writerPid, id.writerProcessStart, id.runtimePid, id.runtimeProcessStart, id.bootNonce,
               id.endpointIdentityHash, id.startedAt)
  }

  /** What happened in one revision, and when it was observed. */
  datatype Happening =
    | Began(generation: Generation, observedAt: int)
    | Ended(
        kind: State,
        ended: Option<Generation>,
        successor: Option<Identity>,
        lastSeenAt: Option<int>,
        stoppedAt: Option<int>,
        replacementFirstSeenAt: Option<int>,
        source: Source,
        observedAt: int)

  type History = map<int, Happening>

  /** The transition reports the happening. */
  predicate Reports(t: Transition, h: Happening) {
    t.observedAt == h.observedAt
    && match h
       case Began(generation, _) => t.kind == Running && t.newIdentity.Some? && GenerationOf(t.newIdentity.value) == generation
       case Ended(kind, ended, successor, lastSeenAt, stoppedAt, replacementFirstSeenAt, source, _) =>
         && t.kind == kind && kind != Running && t.newIdentity == successor
         && t.lastSeenAt == lastSeenAt && t.stoppedAt == stoppedAt && t.replacementFirstSeenAt == replacementFirstSeenAt
         && t.source == source
         && (ended.None? <==> t.oldIdentity.None?)
         && (ended.Some? && t.oldIdentity.Some? ==> GenerationOf(t.oldIdentity.value) == ended.value)
  }

  /** Both end the same generation. */
  predicate SameEnding(a: Happening, b: Happening) { a.Ended? && b.Ended? && a.ended.Some? && a.ended == b.ended }

  /** Later revisions are not observed earlier, and a generation ends once. */
  predicate Sound(history: History) {
    && (forall r, q :: r in history && q in history && r < q ==> history[r].observedAt <= history[q].observedAt)
    && forall r, q :: r in history && q in history && SameEnding(history[r], history[q]) ==> r == q
  }

  predicate Explains(history: History, ts: seq<Transition>) {
    Sound(history) && forall i :: 0 <= i < |ts| ==> ts[i].revision in history && Reports(ts[i], history[ts[i].revision])
  }

  /** By revision, within one by the bytes of the key; nobody's end is listed twice. */
  predicate Listed(ts: seq<Transition>)
    requires AllValid(ts)
  {
    && (forall i, j :: 0 <= i < j < |ts| ==>
          ts[i].revision < ts[j].revision || (ts[i].revision == ts[j].revision && LexLess(KeyBytes(ts[i]), KeyBytes(ts[j]))))
    && forall i, j :: 0 <= i < j < |ts| && ts[i].kind != Running && ts[j].kind != Running && ts[i].oldIdentity.Some? ==>
         ts[i].oldIdentity != ts[j].oldIdentity
  }

  function HappeningOf(t: Transition): Happening {
    match t.kind
    case Running => Began(if t.newIdentity.Some? then GenerationOf(t.newIdentity.value) else NOBODY, t.observedAt)
    case _ => Ended(t.kind, if t.oldIdentity.Some? then Some(GenerationOf(t.oldIdentity.value)) else None, t.newIdentity, t.lastSeenAt,
                    t.stoppedAt, t.replacementFirstSeenAt, t.source, t.observedAt)
  }

  const NOBODY: Generation := Generation([], 0, [], 0, [], [], [], 0)

  lemma SameGeneration(a: Identity, b: Identity)
    ensures SameSubject(a, b) <==> GenerationOf(a) == GenerationOf(b)
  {
  }

  lemma ReportsItself(t: Transition)
    requires ValidTransition(t)
    ensures Reports(t, HappeningOf(t))
  {
  }

  /** Two transitions fit together in one revision exactly when they report the same. */
  lemma SameRevision(a: Transition, b: Transition)
    requires ValidTransition(a) && ValidTransition(b) && a.revision == b.revision
    ensures RunningPair(a, b) && TerminalPair(a, b) && a.kind == b.kind && a.observedAt == b.observedAt
            <==> HappeningOf(a) == HappeningOf(b)
  {
    hide ValidTransition, SameSubject;
    Parties(a);
    Parties(b);
    if a.newIdentity.Some? && b.newIdentity.Some? { SameGeneration(a.newIdentity.value, b.newIdentity.value); }
    if a.oldIdentity.Some? && b.oldIdentity.Some? { SameGeneration(a.oldIdentity.value, b.oldIdentity.value); }
  }

  lemma Parties(t: Transition)
    requires ValidTransition(t)
    ensures t.kind.Running? ==> t.newIdentity.Some?
  {
  }

  lemma ReportsOnly(t: Transition, h: Happening)
    requires ValidTransition(t) && Reports(t, h)
    ensures HappeningOf(t) == h
  {
    hide ValidTransition;
    Parties(t);
  }

  // ---- from the rules to a history ----

  /** The revision's first transition. */
  function FirstOf(ts: seq<Transition>, revision: int): (i: nat)
    requires exists k :: 0 <= k < |ts| && ts[k].revision == revision
    ensures i < |ts| && ts[i].revision == revision
  {
    if ts[0].revision == revision then 0
    else
      assert exists k :: 0 <= k < |ts[1..]| && ts[1..][k].revision == revision by {
        var k :| 0 <= k < |ts| && ts[k].revision == revision;
        assert ts[1..][k - 1] == ts[k];
      }
      1 + FirstOf(ts[1..], revision)
  }

  function HistoryOf(ts: seq<Transition>): (history: History)
    ensures forall r :: r in history <==> exists k :: 0 <= k < |ts| && ts[k].revision == r
    ensures forall r :: r in history ==> exists k :: 0 <= k < |ts| && ts[k].revision == r && history[r] == HappeningOf(ts[k])
  {
    map r | r in (set t | t in ts :: t.revision) && (exists k :: 0 <= k < |ts| && ts[k].revision == r) :: HappeningOf(ts[FirstOf(ts, r)])
  }

  /** Neighbouring rules put together: all transitions of a revision report one happening. */
  lemma OneHappening(ts: seq<Transition>, i: nat, j: nat)
    requires AllValid(ts) && Consistent(ts) && OrdersFit(ts) && i < |ts| && j < |ts| && ts[i].revision == ts[j].revision
    ensures HappeningOf(ts[i]) == HappeningOf(ts[j])
  {
    hide ValidTransition, TerminalPair, RunningPair, ConsumedPair, KeyBytes;
    if i < j { SameRevision(ts[i], ts[j]); }
    if j < i { SameRevision(ts[j], ts[i]); }
  }

  predicate OrdersFit(ts: seq<Transition>)
    requires AllValid(ts)
  {
    forall i, j :: 0 <= i < j < |ts| ==> OrderPair(ts[i], ts[j])
  }

  lemma SoundPair(ts: seq<Transition>, i: nat, j: nat)
    requires AllValid(ts) && Consistent(ts) && OrdersFit(ts) && i < |ts| && j < |ts|
    ensures var a, b := HappeningOf(ts[i]), HappeningOf(ts[j]);
            && (ts[i].revision < ts[j].revision ==> a.observedAt <= b.observedAt)
            && (SameEnding(a, b) ==> ts[i].revision == ts[j].revision)
  {
    hide ValidTransition, TerminalPair, RunningPair, KeyBytes, SameSubject;
    if ts[i].oldIdentity.Some? && ts[j].oldIdentity.Some? {
      SameGeneration(ts[i].oldIdentity.value, ts[j].oldIdentity.value);
      SameGeneration(ts[j].oldIdentity.value, ts[i].oldIdentity.value);
    }
  }

  lemma HistoryExplains(ts: seq<Transition>)
    requires AllValid(ts) && Consistent(ts) && OrdersFit(ts)
    ensures Explains(HistoryOf(ts), ts)
  {
    hide ValidTransition, Consistent, OrdersFit, Reports, HappeningOf, HistoryOf, SameEnding;
    var history := HistoryOf(ts);
    forall i | 0 <= i < |ts| ensures ts[i].revision in history && Reports(ts[i], history[ts[i].revision]) {
      var k :| 0 <= k < |ts| && ts[k].revision == ts[i].revision && history[ts[i].revision] == HappeningOf(ts[k]);
      OneHappening(ts, i, k);
      ReportsItself(ts[i]);
    }
    forall r, q | r in history && q in history
      ensures r < q ==> history[r].observedAt <= history[q].observedAt
      ensures SameEnding(history[r], history[q]) ==> r == q
    {
      var i :| 0 <= i < |ts| && ts[i].revision == r && history[r] == HappeningOf(ts[i]);
      var j :| 0 <= j < |ts| && ts[j].revision == q && history[q] == HappeningOf(ts[j]);
      SoundPair(ts, i, j);
    }
  }

  // ---- from a history to the rules ----

  lemma ExplainedPair(history: History, ts: seq<Transition>, i: nat, j: nat)
    requires AllValid(ts) && Explains(history, ts) && Listed(ts) && i < j < |ts|
    ensures Pair(ts[i], ts[j]) && OrderPair(ts[i], ts[j])
  {
    hide ValidTransition, SameSubject, KeyBytes, LexLess, Reports, HappeningOf;
    var a, b := ts[i], ts[j];
    ReportsOnly(a, history[a.revision]);
    ReportsOnly(b, history[b.revision]);
    Observed(a);
    Observed(b);
    EndsOf(a);
    EndsOf(b);
    if a.revision == b.revision { SameRevision(a, b); } else { Apart(a, b); }
    if a.oldIdentity.Some? && b.oldIdentity.Some? { SameGeneration(a.oldIdentity.value, b.oldIdentity.value); }
  }

  lemma Observed(t: Transition)
    ensures HappeningOf(t).observedAt == t.observedAt
  {
  }

  lemma EndsOf(t: Transition)
    ensures HappeningOf(t).Ended? <==> Terminal(t)
    ensures Terminal(t) && t.oldIdentity.Some? ==> HappeningOf(t).ended == Some(GenerationOf(t.oldIdentity.value))
  {
  }

  lemma Apart(a: Transition, b: Transition)
    requires ValidTransition(a) && ValidTransition(b) && a.revision != b.revision
    ensures RunningPair(a, b) && TerminalPair(a, b)
  {
  }

  lemma ListedOrder(ts: seq<Transition>)
    requires AllValid(ts) && Consistent(ts) && OrdersFit(ts)
    ensures Listed(ts)
  {
    hide ValidTransition, SameSubject, KeyBytes, LexLess;
  }

  /** The rules on all pairs of transitions hold exactly when some history explains the transitions and they are listed in
      order: each revision has one happening, observed at one time, later ones not earlier; every generation ends at most
      once; and nobody's end is listed twice. */
  lemma ConsistentExactly(ts: seq<Transition>)
    requires AllValid(ts)
    ensures Consistent(ts) && OrdersFit(ts) <==> Listed(ts) && exists history :: Explains(history, ts)
  {
    hide ValidTransition, Pair, OrderPair, Listed, Explains;
    if Consistent(ts) && OrdersFit(ts) {
      HistoryExplains(ts);
      ListedOrder(ts);
    }
    if Listed(ts) && exists history :: Explains(history, ts) {
      var history :| Explains(history, ts);
      forall i, j | 0 <= i < j < |ts| ensures Pair(ts[i], ts[j]) && OrderPair(ts[i], ts[j]) { ExplainedPair(history, ts, i, j); }
    }
  }
}
