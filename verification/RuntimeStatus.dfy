/** The external runtime generation status: its records, the field rules, and the canonical texts by which the
    validator compares identities. */
module RuntimeStatus {
  import opened Ordering
  import opened JsStrings
  import opened Wrappers
  import J = JsonGrammar
  import C = CanonicalJson
  import S = StrictJson

  datatype Provider = Codex | Claude
  datatype State = Running | Stopped | Replaced | Unknown
  datatype ReadbackSource = CodexAppliedModel | ClaudeRuntimeModel
  datatype Source = OwnerWait | HostSupervisor | EndpointObserver

  datatype Identity = Identity(
    generationId: JsString,
    runtimeModelId: JsString,
    modelReadbackSource: ReadbackSource,
    writerPid: int,
    writerProcessStart: JsString,
    runtimePid: int,
    runtimeProcessStart: JsString,
    bootNonce: JsString,
    endpointIdentityHash: JsString,
    startedAt: int)

  datatype Attestation = Attestation(
    provider: Provider,
    statusRevision: int,
    identity: Identity,
    observedAt: int,
    expiresAt: int)

  datatype Transition = Transition(
    revision: int,
    kind: State,
    oldIdentity: Option<Identity>,
    newIdentity: Option<Identity>,
    lastSeenAt: Option<int>,
    stoppedAt: Option<int>,
    replacementFirstSeenAt: Option<int>,
    observedAt: int,
    expiresAt: int,
    source: Source)

  datatype Status = Status(
    provider: Provider,
    revision: int,
    state: State,
    attestations: seq<Attestation>,
    transitions: seq<Transition>,
    observedAt: int,
    expiresAt: int)

  const STATUS_TTL_MS := 180_000
  const TRANSITION_TTL_MS := 86_400_000
  const MAX_ATTESTATIONS := 32
  const MAX_TRANSITIONS := 256
  const CORRELATION_MS := 30_000

  // ---- field rules ----

  predicate SafeInteger(n: int) { 0 <= n <= C.MAX_SAFE_INTEGER }
  predicate PositiveInteger(n: int) { SafeInteger(n) && n != 0 }

  predicate ExactExpiry(observedAt: int, ttlMs: int, expiresAt: int) {
    observedAt + ttlMs <= C.MAX_SAFE_INTEGER && expiresAt == observedAt + ttlMs
  }

  predicate Letter(c: int) { 0x41 <= c <= 0x5A || 0x61 <= c <= 0x7A }
  predicate LowerHex(c: int) { J.Digit(c) || 0x61 <= c <= 0x66 }
  predicate Printable(s: JsString) { forall i :: 0 <= i < |s| ==> 0x20 <= s[i] < 0x7F }

  predicate Hex32(s: JsString) { |s| == 32 && forall i :: 0 <= i < |s| ==> LowerHex(s[i]) }

  predicate ModelId(s: JsString) {
    1 <= |s| <= 200
    && forall i :: 0 <= i < |s| ==> Letter(s[i]) || 0x2D <= s[i] <= 0x3A || s[i] == 0x5F || s[i] == 0x40 || s[i] == 0x2B
  }

  /** "darwin-ps-lstart:" and a date; of the date the model keeps that it is printable ASCII. */
  predicate ProcessStart(s: JsString) { Ascii("darwin-ps-lstart:") <= s && Printable(s) }

  predicate IdentityHash(s: JsString) {
    |s| == 71 && s[..7] == Ascii("sha256:") && forall i :: 7 <= i < |s| ==> LowerHex(s[i])
  }

  predicate ValidIdentity(id: Identity) {
    && Hex32(id.generationId) && ModelId(id.runtimeModelId)
    && ProcessStart(id.writerProcessStart) && ProcessStart(id.runtimeProcessStart)
    && Hex32(id.bootNonce) && IdentityHash(id.endpointIdentityHash)
    && PositiveInteger(id.writerPid) && PositiveInteger(id.runtimePid) && SafeInteger(id.startedAt)
  }

  predicate IdentityOfProvider(id: Identity, provider: Provider) {
    && id.modelReadbackSource == (if provider.Codex? then CodexAppliedModel else ClaudeRuntimeModel)
    && (provider.Codex? ==> id.writerPid != id.runtimePid)
  }

  predicate ValidAttestation(a: Attestation, provider: Provider) {
    && a.provider == provider && SafeInteger(a.observedAt) && SafeInteger(a.expiresAt)
    && ValidIdentity(a.identity) && IdentityOfProvider(a.identity, a.provider)
    && ExactExpiry(a.observedAt, STATUS_TTL_MS, a.expiresAt)
    && a.identity.startedAt <= a.observedAt && PositiveInteger(a.statusRevision)
  }

  /** Present times never decrease, whatever is absent in between. */
  predicate Ordered(values: seq<Option<int>>) {
    forall i, j :: 0 <= i < j < |values| && values[i].Some? && values[j].Some? ==> values[i].value <= values[j].value
  }

  method TimesAreOrdered(values: seq<Option<int>>) returns (ordered: bool)
    ensures ordered <==> Ordered(values)
  {
    var previous: Option<int> := None;
    for i := 0 to |values|
      invariant Ordered(values[..i])
      invariant previous.None? ==> forall k :: 0 <= k < i ==> values[k].None?
      invariant previous.Some? ==> exists k :: 0 <= k < i && values[k] == previous
      invariant previous.Some? ==> forall k :: 0 <= k < i && values[k].Some? ==> values[k].value <= previous.value
    {
      if values[i].None? { continue; }
      if previous.Some? && previous.value > values[i].value {
        return false;
      }
      previous := values[i];
    }
    assert values[..|values|] == values;
    return true;
  }

  function StartOf(id: Option<Identity>): Option<int> {
    if id.None? then None else Some(id.value.startedAt)
  }

  predicate AtMost(a: Option<int>, b: Option<int>) {
    a.Some? && b.Some? ==> a.value <= b.value
  }

  predicate ValidTime(t: Option<int>, observedAt: int) {
    t.Some? ==> SafeInteger(t.value) && t.value <= observedAt
  }

  predicate ValidParty(id: Option<Identity>, observedAt: int) {
    id.Some? ==> ValidIdentity(id.value) && id.value.startedAt <= observedAt
  }

  predicate ValidTransition(t: Transition) {
    var oldStart, newStart := StartOf(t.oldIdentity), StartOf(t.newIdentity);
    && ValidParty(t.oldIdentity, t.observedAt) && ValidParty(t.newIdentity, t.observedAt)
    && ValidTime(t.lastSeenAt, t.observedAt) && ValidTime(t.stoppedAt, t.observedAt)
    && ValidTime(t.replacementFirstSeenAt, t.observedAt)
    && SafeInteger(t.observedAt) && SafeInteger(t.expiresAt) && ExactExpiry(t.observedAt, TRANSITION_TTL_MS, t.expiresAt)
    && Ordered([oldStart, t.lastSeenAt, newStart, t.replacementFirstSeenAt])
    && Ordered([oldStart, t.lastSeenAt, t.stoppedAt])
    && PositiveInteger(t.revision)
    && match t.kind
       case Running =>
         t.oldIdentity.None? && t.newIdentity.Some? && t.lastSeenAt.None? && t.stoppedAt.None?
         && t.replacementFirstSeenAt.None?
       case Stopped =>
         t.oldIdentity.Some? && t.newIdentity.None? && t.lastSeenAt.Some? && t.stoppedAt.Some?
         && t.replacementFirstSeenAt.None? && AtMost(oldStart, t.lastSeenAt) && AtMost(t.lastSeenAt, t.stoppedAt)
         && !t.source.EndpointObserver?
       case Replaced =>
         t.oldIdentity.Some? && t.newIdentity.Some? && t.lastSeenAt.Some? && t.stoppedAt.None?
         && t.replacementFirstSeenAt.Some? && AtMost(oldStart, t.lastSeenAt) && AtMost(t.lastSeenAt, newStart)
         && AtMost(newStart, t.replacementFirstSeenAt) && !SameSubject(t.oldIdentity.value, t.newIdentity.value)
       case Unknown =>
         t.stoppedAt.None? && AtMost(oldStart, t.lastSeenAt) && AtMost(newStart, t.replacementFirstSeenAt)
         && AtMost(t.lastSeenAt, t.replacementFirstSeenAt)
  }

  /** The same generation: every identity field but the model and its source. */
  predicate SameSubject(a: Identity, b: Identity) {
    && a.generationId == b.generationId && a.writerPid == b.writerPid && a.writerProcessStart == b.writerProcessStart
    && a.runtimePid == b.runtimePid && a.runtimeProcessStart == b.runtimeProcessStart && a.bootNonce == b.bootNonce
    && a.endpointIdentityHash == b.endpointIdentityHash && a.startedAt == b.startedAt
  }

  // ---- canonical texts ----

  const KIND := Ascii("kind")
  const GENERATION_ID := Ascii("generationId")
  const RUNTIME_MODEL_ID := Ascii("runtimeModelId")
  const MODEL_READBACK_SOURCE := Ascii("modelReadbackSource")
  const WRITER_PID := Ascii("writerPid")
  const WRITER_PROCESS_START := Ascii("writerProcessStart")
  const RUNTIME_PID := Ascii("runtimePid")
  const RUNTIME_PROCESS_START := Ascii("runtimeProcessStart")
  const BOOT_NONCE := Ascii("bootNonce")
  const ENDPOINT_IDENTITY_HASH := Ascii("endpointIdentityHash")
  const STARTED_AT := Ascii("startedAt")
  const SHARED_RUNTIME := Ascii("external-shared-runtime")

  function ReadbackText(r: ReadbackSource): JsString {
    match r
    case CodexAppliedModel => Ascii("codex-applied-model")
    case ClaudeRuntimeModel => Ascii("claude-runtime-model")
  }

  function SourceText(s: Source): JsString {
    match s
    case OwnerWait => Ascii("owner-wait")
    case HostSupervisor => Ascii("host-supervisor")
    case EndpointObserver => Ascii("endpoint-observer")
  }

  function StateText(s: State): JsString {
    match s
    case Running => Ascii("running")
    case Stopped => Ascii("stopped")
    case Replaced => Ascii("replaced")
    case Unknown => Ascii("unknown")
  }

  function Number(n: int): J.Json { J.Num(n as real) }

  function SubjectMembers(id: Identity): map<JsString, J.Json> {
    map[
      KIND := J.Str(SHARED_RUNTIME),
      GENERATION_ID := J.Str(id.generationId),
      WRITER_PID := Number(id.writerPid),
      WRITER_PROCESS_START := J.Str(id.writerProcessStart),
      RUNTIME_PID := Number(id.runtimePid),
      RUNTIME_PROCESS_START := J.Str(id.runtimeProcessStart),
      BOOT_NONCE := J.Str(id.bootNonce),
      ENDPOINT_IDENTITY_HASH := J.Str(id.endpointIdentityHash),
      STARTED_AT := Number(id.startedAt)]
  }

  function IdentityJson(id: Identity): J.Json {
    J.Obj(SubjectMembers(id)[RUNTIME_MODEL_ID := J.Str(id.runtimeModelId)]
          [MODEL_READBACK_SOURCE := J.Str(ReadbackText(id.modelReadbackSource))])
  }

  function PartyJson(id: Option<Identity>): J.Json {
    if id.None? then J.Null else IdentityJson(id.value)
  }

  function TimeJson(t: Option<int>): J.Json {
    if t.None? then J.Null else Number(t.value)
  }

  predicate Named(p: Option<Identity>) { p.Some? ==> ValidIdentity(p.value) }

  function IdentityText(id: Identity): JsString
    requires ValidIdentity(id)
  {
    IdentityEncodable(id);
    C.Encode(IdentityJson(id))
  }

  function SubjectText(id: Identity): JsString
    requires ValidIdentity(id)
  {
    IdentityEncodable(id);
    C.Encode(J.Obj(SubjectMembers(id)))
  }

  function AnchorText(id: Option<Identity>): JsString
    requires Named(id)
  {
    if id.Some? then IdentityText(id.value) else C.Encode(J.Null)
  }

  function ObservationJson(t: Transition): J.Json {
    J.Arr([TimeJson(t.lastSeenAt), TimeJson(t.stoppedAt), TimeJson(t.replacementFirstSeenAt), Number(t.observedAt),
           J.Str(SourceText(t.source))])
  }

  function ObservationText(t: Transition): JsString
    requires ValidTransition(t)
  {
    ObservationEncodable(t);
    C.Encode(ObservationJson(t))
  }

  function TransitionKeyText(t: Transition): JsString
    requires Named(t.oldIdentity) && Named(t.newIdentity)
  {
    KeyEncodable(t);
    C.Encode(J.Arr([J.Str(StateText(t.kind)), PartyJson(t.oldIdentity), PartyJson(t.newIdentity)]))
  }

  // ---- the texts tell identities apart ----

  lemma {:induction false} PrintableIsScalar(s: JsString)
    requires Printable(s)
    ensures ScalarString(s)
    decreases |s|
  {
    if s != [] { PrintableIsScalar(s[1..]); }
  }

  lemma IdentityTextsPrintable(id: Identity)
    requires ValidIdentity(id)
    ensures Printable(id.generationId) && Printable(id.runtimeModelId) && Printable(id.writerProcessStart)
    ensures Printable(id.runtimeProcessStart) && Printable(id.bootNonce) && Printable(id.endpointIdentityHash)
  {
    assert forall i :: 0 <= i < 7 ==> id.endpointIdentityHash[i] == id.endpointIdentityHash[..7][i];
  }

  lemma SubjectNamesPrintable()
    ensures Printable(KIND) && Printable(GENERATION_ID) && Printable(WRITER_PID) && Printable(WRITER_PROCESS_START)
    ensures Printable(RUNTIME_PID) && Printable(RUNTIME_PROCESS_START)
  {
  }

  lemma MoreSubjectNamesPrintable()
    ensures Printable(BOOT_NONCE) && Printable(ENDPOINT_IDENTITY_HASH) && Printable(STARTED_AT) && Printable(SHARED_RUNTIME)
  {
  }

  lemma ModelNamesPrintable(r: ReadbackSource)
    ensures Printable(RUNTIME_MODEL_ID) && Printable(MODEL_READBACK_SOURCE) && Printable(ReadbackText(r))
  {
  }

  lemma SourcePrintable(source: Source)
    ensures Printable(SourceText(source))
  {
  }

  lemma StatePrintable(state: State)
    ensures Printable(StateText(state))
  {
  }

  lemma WordsPrintable(source: Source, state: State)
    ensures Printable(SourceText(source)) && Printable(StateText(state))
  {
    hide Printable, SourceText, StateText;
    SourcePrintable(source);
    StatePrintable(state);
  }

  /** The member names differ in length or in their first letter. */
  lemma NamesDistinct()
    ensures |KIND| == 4 && |GENERATION_ID| == 12 && |RUNTIME_MODEL_ID| == 14 && |MODEL_READBACK_SOURCE| == 19
    ensures |WRITER_PID| == 9 && |WRITER_PROCESS_START| == 18 && |RUNTIME_PID| == 10 && |RUNTIME_PROCESS_START| == 19
    ensures |BOOT_NONCE| == 9 && |ENDPOINT_IDENTITY_HASH| == 20 && |STARTED_AT| == 9
    ensures MODEL_READBACK_SOURCE[0] == 0x6D && RUNTIME_PROCESS_START[0] == 0x72
    ensures WRITER_PID[0] == 0x77 && BOOT_NONCE[0] == 0x62 && STARTED_AT[0] == 0x73
    ensures forall a, b :: SourceText(a) == SourceText(b) ==> a == b
    ensures forall a, b :: ReadbackText(a) == ReadbackText(b) ==> a == b
  {
    forall a: Source, b: Source | SourceText(a) == SourceText(b) ensures a == b {
      assert |SourceText(a)| == |SourceText(b)|;
    }
    forall a: ReadbackSource, b: ReadbackSource | ReadbackText(a) == ReadbackText(b) ensures a == b {
      assert |ReadbackText(a)| == |ReadbackText(b)|;
    }
  }

  lemma SubjectEncodable(id: Identity)
    requires ValidIdentity(id)
    ensures C.Encodable(J.Obj(SubjectMembers(id)))
  {
    hide ScalarString, Printable;
    IdentityTextsPrintable(id);
    SubjectNamesPrintable();
    MoreSubjectNamesPrintable();
    forall s: JsString | Printable(s) ensures ScalarString(s) { PrintableIsScalar(s); }
  }

  lemma IdentityEncodable(id: Identity)
    requires ValidIdentity(id)
    ensures C.Encodable(IdentityJson(id)) && C.Encodable(J.Obj(SubjectMembers(id)))
  {
    hide ScalarString, Printable, SubjectMembers, ReadbackText;
    SubjectEncodable(id);
    IdentityTextsPrintable(id);
    ModelNamesPrintable(id.modelReadbackSource);
    forall s: JsString | Printable(s) ensures ScalarString(s) { PrintableIsScalar(s); }
  }

  lemma ObservationEncodable(t: Transition)
    requires ValidTransition(t)
    ensures C.Encodable(ObservationJson(t))
  {
    WordsPrintable(t.source, t.kind);
    PrintableIsScalar(SourceText(t.source));
  }

  lemma KeyEncodable(t: Transition)
    requires Named(t.oldIdentity) && Named(t.newIdentity)
    ensures C.Encodable(J.Arr([J.Str(StateText(t.kind)), PartyJson(t.oldIdentity), PartyJson(t.newIdentity)]))
  {
    WordsPrintable(OwnerWait, t.kind);
    PrintableIsScalar(StateText(t.kind));
    if t.oldIdentity.Some? { IdentityEncodable(t.oldIdentity.value); }
    if t.newIdentity.Some? { IdentityEncodable(t.newIdentity.value); }
  }

  lemma SubjectMembersTell(a: Identity, b: Identity)
    requires SubjectMembers(a) == SubjectMembers(b)
    ensures SameSubject(a, b)
  {
    NamesDistinct();
    var m, n := SubjectMembers(a), SubjectMembers(b);
    assert m[GENERATION_ID] == J.Str(a.generationId) && n[GENERATION_ID] == J.Str(b.generationId);
    assert m[WRITER_PID] == Number(a.writerPid) && n[WRITER_PID] == Number(b.writerPid);
    assert m[WRITER_PROCESS_START] == J.Str(a.writerProcessStart) && n[WRITER_PROCESS_START] == J.Str(b.writerProcessStart);
    assert m[RUNTIME_PID] == Number(a.runtimePid) && n[RUNTIME_PID] == Number(b.runtimePid);
    assert m[RUNTIME_PROCESS_START] == J.Str(a.runtimeProcessStart)
        && n[RUNTIME_PROCESS_START] == J.Str(b.runtimeProcessStart);
    assert m[BOOT_NONCE] == J.Str(a.bootNonce) && n[BOOT_NONCE] == J.Str(b.bootNonce);
    assert m[ENDPOINT_IDENTITY_HASH] == J.Str(a.endpointIdentityHash)
        && n[ENDPOINT_IDENTITY_HASH] == J.Str(b.endpointIdentityHash);
    assert m[STARTED_AT] == Number(a.startedAt) && n[STARTED_AT] == Number(b.startedAt);
  }

  lemma IdentityJsonTells(a: Identity, b: Identity)
    requires IdentityJson(a) == IdentityJson(b)
    ensures a == b
  {
    NamesDistinct();
    var m, n := IdentityJson(a).members, IdentityJson(b).members;
    assert m[RUNTIME_MODEL_ID] == J.Str(a.runtimeModelId) && n[RUNTIME_MODEL_ID] == J.Str(b.runtimeModelId);
    assert m[MODEL_READBACK_SOURCE] == J.Str(ReadbackText(a.modelReadbackSource))
        && n[MODEL_READBACK_SOURCE] == J.Str(ReadbackText(b.modelReadbackSource));
    forall k | k in SubjectMembers(a).Keys ensures SubjectMembers(a)[k] == SubjectMembers(b)[k] {
      assert m[k] == SubjectMembers(a)[k] && n[k] == SubjectMembers(b)[k];
    }
    assert SubjectMembers(a) == SubjectMembers(b);
    SubjectMembersTell(a, b);
  }

  /** String equality of canonical encodings is equality of identities ... */
  lemma IdentityTextInjective(a: Identity, b: Identity)
    requires ValidIdentity(a) && ValidIdentity(b)
    ensures IdentityText(a) == IdentityText(b) <==> a == b
  {
    hide ValidIdentity, IdentityJson;
    IdentityEncodable(a);
    IdentityEncodable(b);
    if IdentityText(a) == IdentityText(b) {
      C.CanonicalInjective(IdentityJson(a), IdentityJson(b));
      IdentityJsonTells(a, b);
    }
  }

  /** ... and of subject keys is having the same subject. */
  lemma SubjectTextTells(a: Identity, b: Identity)
    requires ValidIdentity(a) && ValidIdentity(b)
    ensures SubjectText(a) == SubjectText(b) <==> SameSubject(a, b)
  {
    IdentityEncodable(a);
    IdentityEncodable(b);
    if SameSubject(a, b) { assert SubjectMembers(a) == SubjectMembers(b); }
    if SubjectText(a) == SubjectText(b) {
      C.CanonicalInjective(J.Obj(SubjectMembers(a)), J.Obj(SubjectMembers(b)));
      SubjectMembersTell(a, b);
    }
  }

  lemma AnchorTextInjective(a: Option<Identity>, b: Option<Identity>)
    requires Named(a) && Named(b)
    ensures AnchorText(a) == AnchorText(b) <==> a == b
  {
    if a.Some? { IdentityEncodable(a.value); }
    if b.Some? { IdentityEncodable(b.value); }
    if AnchorText(a) == AnchorText(b) {
      C.CanonicalInjective(PartyJson(a), PartyJson(b));
      if a.Some? && b.Some? { IdentityJsonTells(a.value, b.value); }
    }
  }

  predicate SameObservation(a: Transition, b: Transition) {
    && a.lastSeenAt == b.lastSeenAt && a.stoppedAt == b.stoppedAt
    && a.replacementFirstSeenAt == b.replacementFirstSeenAt && a.observedAt == b.observedAt && a.source == b.source
  }

  lemma ObservationTextTells(a: Transition, b: Transition)
    requires ValidTransition(a) && ValidTransition(b)
    ensures ObservationText(a) == ObservationText(b) <==> SameObservation(a, b)
  {
    hide ValidTransition;
    ObservationEncodable(a);
    ObservationEncodable(b);
    if SameObservation(a, b) { assert ObservationJson(a) == ObservationJson(b); }
    if ObservationText(a) == ObservationText(b) {
      C.CanonicalInjective(ObservationJson(a), ObservationJson(b));
      NamesDistinct();
      var x, y := ObservationJson(a).items, ObservationJson(b).items;
      assert x[0] == y[0] && x[1] == y[1] && x[2] == y[2] && x[3] == y[3] && x[4] == y[4];
    }
  }
}
