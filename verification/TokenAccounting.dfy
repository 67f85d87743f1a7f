/** Token counts and the two accumulators of native usage. */
module TokenAccounting {
  import opened JsStrings
  import opened Wrappers

  datatype Four = Four(input: nat, output: nat, cacheCreation: nat, cacheRead: nat)

  const ZERO: Four := Four(0, 0, 0, 0)

  function Plus(a: Four, b: Four): Four {
    Four(a.input + b.input, a.output + b.output, a.cacheCreation + b.cacheCreation, a.cacheRead + b.cacheRead)
  }

  predicate AtMost(a: Four, b: Four) {
    a.input <= b.input && a.output <= b.output && a.cacheCreation <= b.cacheCreation && a.cacheRead <= b.cacheRead
  }

  predicate IsZeroTokens(f: Four) { f == ZERO }

  /** Everything sent as prompt. */
  function InputSideTotal(f: Four): nat { f.input + f.cacheCreation + f.cacheRead }

  /** Four disjoint counts, and parts of output and cacheCreation that a provider may not report. */
  datatype Tokens = Tokens(four: Four, reasoning: Option<nat>, oneHour: Option<nat>)

  const NOTHING: Tokens := Tokens(ZERO, None, None)

  function AddOptional(a: Option<nat>, b: Option<nat>): Option<nat> {
    if b.None? then a else Some((if a.Some? then a.value else 0) + b.value)
  }

  function Accumulate(t: Tokens, d: Tokens): Tokens {
    Tokens(Plus(t.four, d.four), AddOptional(t.reasoning, d.reasoning), AddOptional(t.oneHour, d.oneHour))
  }

  datatype Entry = Entry(model: JsString, tokens: Tokens)

  // ---- by model ----

  type ModelTable = map<JsString, Tokens>

  function AddModel(m: ModelTable, e: Entry): ModelTable {
    m[e.model := Accumulate(if e.model in m then m[e.model] else NOTHING, e.tokens)]
  }

  class ModelTokenAccumulator {
    var byModel: ModelTable

    constructor ()
      ensures byModel == map[]
    {
      byModel := map[];
    }

    method Add(model: JsString, delta: Tokens)
      modifies this
      ensures byModel == AddModel(old(byModel), Entry(model, delta))
    {
      var current := if model in byModel then byModel[model] else NOTHING;
      current := current.(four := Plus(current.four, delta.four));
      if delta.reasoning.Some? {
        current := current.(reasoning := Some((if current.reasoning.Some? then current.reasoning.value else 0) + delta.reasoning.value));
      }
      if delta.oneHour.Some? {
        current := current.(oneHour := Some((if current.oneHour.Some? then current.oneHour.value else 0) + delta.oneHour.value));
      }
      byModel := byModel[model := current];
    }
  }

  /** Adding a list of entries. */
  function AddModels(m: ModelTable, es: seq<Entry>): ModelTable {
    if es == [] then m else AddModel(AddModels(m, es[..|es| - 1]), es[|es| - 1])
  }

  /** What a list of entries spends on one model; None when it names the model nowhere. */
  function SpentOn(es: seq<Entry>, model: JsString): Option<Tokens> {
    if es == [] then None
    else
      var rest, e := SpentOn(es[..|es| - 1], model), es[|es| - 1];
      if e.model != model then rest else Some(Accumulate(if rest.Some? then rest.value else NOTHING, e.tokens))
  }

  /** The accumulator holds for each model exactly what was spent on it. */
  lemma {:induction false} ModelsHoldSpent(es: seq<Entry>, model: JsString)
    ensures model in AddModels(map[], es) <==> SpentOn(es, model).Some?
    ensures model in AddModels(map[], es) ==> SpentOn(es, model) == Some(AddModels(map[], es)[model])
    decreases |es|
  {
    if es != [] {
      ModelsHoldSpent(es[..|es| - 1], model);
      ModelsHoldSpent(es[..|es| - 1], es[|es| - 1].model);
    }
  }

  // ---- by provider, model and effort ----

  datatype Provider = Claude | Codex
  datatype Effort = Low | Medium | High | XHigh | Max
  datatype ExecutionId = ExecutionId(provider: Provider, model: JsString, effort: Option<Effort>)
  datatype Execution = Execution(turns: nat, tokens: Tokens)

  type ExecutionTable = map<ExecutionId, Execution>

  function ProviderText(p: Provider): JsString { if p.Claude? then Ascii("claude") else Ascii("codex") }

  function EffortText(e: Option<Effort>): JsString {
    match e
    case None => Ascii("unset")
    case Some(Low) => Ascii("low")
    case Some(Medium) => Ascii("medium")
    case Some(High) => Ascii("high")
    case Some(XHigh) => Ascii("xhigh")
    case Some(Max) => Ascii("max")
  }

  const SLASH: CodeUnit := 0x2F

  /** executionKey: the text under which executions are counted. */
  function ExecutionKey(id: ExecutionId): JsString {
    ProviderText(id.provider) + [SLASH] + id.model + [SLASH] + EffortText(id.effort)
  }

  lemma EffortHasNoSlash(e: Option<Effort>)
    ensures SLASH !in EffortText(e)
  {
    var t := EffortText(e);
    assert forall i :: 0 <= i < |t| ==> t[i] != SLASH;
  }

  /** The part after the last slash is determined by the whole. */
  lemma LastSlash(a: JsString, x: JsString, b: JsString, y: JsString)
    requires SLASH !in x && SLASH !in y && a + [SLASH] + x == b + [SLASH] + y
    ensures a == b && x == y
  {
    var s := a + [SLASH] + x;
    assert s[|a|] == SLASH && s[|b|] == SLASH;
    assert a == s[..|a|] && x == s[|a| + 1..];
    assert b == s[..|b|] && y == s[|b| + 1..];
  }

  lemma EffortTextInjective(a: Option<Effort>, b: Option<Effort>)
    requires EffortText(a) == EffortText(b)
    ensures a == b
  {
    assert |Ascii("low")| == 3 && |Ascii("max")| == 3 && Ascii("low")[0] != Ascii("max")[0];
    assert Ascii("unset")[0] != Ascii("xhigh")[0];
  }

  /** The key tells executions apart, whatever the model is called. */
  lemma ExecutionKeyInjective(a: ExecutionId, b: ExecutionId)
    requires ExecutionKey(a) == ExecutionKey(b)
    ensures a == b
  {
    EffortHasNoSlash(a.effort);
    EffortHasNoSlash(b.effort);
    var x, y := ProviderText(a.provider) + [SLASH] + a.model, ProviderText(b.provider) + [SLASH] + b.model;
    LastSlash(x, EffortText(a.effort), y, EffortText(b.effort));
    EffortTextInjective(a.effort, b.effort);
    assert x[1] == ProviderText(a.provider)[1] && y[1] == ProviderText(b.provider)[1];
    assert a.model == x[|ProviderText(a.provider)| + 1..] && b.model == y[|ProviderText(b.provider)| + 1..];
  }

  function AddExecution(m: ExecutionTable, id: ExecutionId, tokens: Tokens, newTurn: bool): ExecutionTable {
    var current := if id in m then m[id] else Execution(0, NOTHING);
    m[id := Execution(current.turns + (if newTurn then 1 else 0), Accumulate(current.tokens, tokens))]
  }

  /** One turn's entries; a turn counts once for each execution it spends on. */
  function AddTurnEntries(m: ExecutionTable, p: Provider, effort: Option<Effort>, es: seq<Entry>, seen: set<ExecutionId>): ExecutionTable
    decreases |es|
  {
    if es == [] then m
    else if IsZeroTokens(es[0].tokens.four) then AddTurnEntries(m, p, effort, es[1..], seen)
    else
      var id := ExecutionId(p, es[0].model, effort);
      AddTurnEntries(AddExecution(m, id, es[0].tokens, id !in seen), p, effort, es[1..], seen + {id})
  }

  function WithTurn(m: ExecutionTable, p: Provider, effort: Option<Effort>, es: seq<Entry>): ExecutionTable {
    AddTurnEntries(m, p, effort, es, {})
  }

  class ExecutionTokenAccumulator {
    var byExecution: ExecutionTable

    constructor ()
      ensures byExecution == map[]
    {
      byExecution := map[];
    }

    method AddTurn(provider: Provider, effort: Option<Effort>, entries: seq<Entry>)
      modifies this
      ensures byExecution == WithTurn(old(byExecution), provider, effort, entries)
    {
      var seen: set<ExecutionId> := {};
      assert entries[0..] == entries;
      for i := 0 to |entries|
        invariant AddTurnEntries(byExecution, provider, effort, entries[i..], seen)
                  == WithTurn(old(byExecution), provider, effort, entries)
      {
        var entry := entries[i];
        assert entries[i..][0] == entry && entries[i..][1..] == entries[i + 1..];
        if IsZeroTokens(entry.tokens.four) { continue; }
        var id := ExecutionId(provider, entry.model, effort);
        var current := if id in byExecution then byExecution[id] else Execution(0, NOTHING);
        current := current.(tokens := Accumulate(current.tokens, entry.tokens));
        if id !in seen {
          current := current.(turns := current.turns + 1);
          seen := seen + {id};
        } else {
          assert seen + {id} == seen;
        }
        byExecution := byExecution[id := current];
      }
    }
  }

  // ---- sums over a table ----

  ghost function Sum<K(!new), V>(m: map<K, V>, f: (K, V) -> Four): Four {
    if m == map[] then ZERO
    else
      var k :| k in m;
      Plus(f(k, m[k]), Sum(m - {k}, f))
  }

  lemma {:induction false} SumAny<K(!new), V>(m: map<K, V>, f: (K, V) -> Four, k: K)
    requires k in m
    ensures Sum(m, f) == Plus(f(k, m[k]), Sum(m - {k}, f))
    decreases m
  {
    var c :| c in m && Sum(m, f) == Plus(f(c, m[c]), Sum(m - {c}, f));
    assert Sum(m, f) == Plus(f(c, m[c]), Sum(m - {c}, f));
    if c != k {
      SumAny(m - {c}, f, k);
      SumAny(m - {k}, f, c);
      var rest := m - {c} - {k};
      assert m - {k} - {c} == rest;
      assert Sum(m - {c}, f) == Plus(f(k, m[k]), Sum(rest, f));
      assert Sum(m - {k}, f) == Plus(f(c, m[c]), Sum(rest, f));
      assert Sum(m, f) == Plus(f(k, m[k]), Sum(m - {k}, f));
    } else {
      assert m - {c} == m - {k};
      assert Sum(m, f) == Plus(f(k, m[k]), Sum(m - {k}, f));
    }
  }

  /** Setting one entry changes the sum by the difference at that entry. */
  lemma SumSet<K(!new), V>(m: map<K, V>, f: (K, V) -> Four, k: K, v: V)
    ensures Plus(Sum(m[k := v], f), if k in m then f(k, m[k]) else ZERO) == Plus(Sum(m, f), f(k, v))
  {
    SumAny(m[k := v], f, k);
    if k in m {
      SumAny(m, f, k);
      assert m[k := v] - {k} == m - {k};
    } else {
      assert m[k := v] - {k} == m;
    }
  }

  function FourOf(model: JsString, t: Tokens): Four { t.four }

  /** The sum over all models. */
  ghost function AllModels(m: ModelTable): Four { Sum(m, FourOf) }

  lemma AddModelSum(m: ModelTable, e: Entry)
    ensures AllModels(AddModel(m, e)) == Plus(AllModels(m), e.tokens.four)
  {
    SumSet(m, FourOf, e.model, AddModel(m, e)[e.model]);
  }

  /** The executions of one model, or of all. */
  function OnModel(model: Option<JsString>): (ExecutionId, Execution) -> Four {
    (id: ExecutionId, x: Execution) => if model.None? || model == Some(id.model) then x.tokens.four else ZERO
  }

  ghost function AllExecutions(m: ExecutionTable, model: Option<JsString>): Four { Sum(m, OnModel(model)) }

  lemma AddExecutionSum(m: ExecutionTable, id: ExecutionId, tokens: Tokens, newTurn: bool, model: Option<JsString>)
    ensures AllExecutions(AddExecution(m, id, tokens, newTurn), model)
            == if model.None? || model == Some(id.model) then Plus(AllExecutions(m, model), tokens.four) else AllExecutions(m, model)
  {
    hide Sum;
    var x := AddExecution(m, id, tokens, newTurn)[id];
    SumSet(m, OnModel(model), id, x);
    assert x.tokens.four == Plus(if id in m then m[id].tokens.four else ZERO, tokens.four);
    assert model.None? || model == Some(id.model) ==> OnModel(model)(id, x) == x.tokens.four;
  }

  function TurnsAsInput(id: ExecutionId, x: Execution): Four { Four(x.turns, 0, 0, 0) }

  ghost function AllTurns(m: ExecutionTable): nat { Sum(m, TurnsAsInput).input }

  lemma AddExecutionTurns(m: ExecutionTable, id: ExecutionId, tokens: Tokens, newTurn: bool)
    ensures AllTurns(AddExecution(m, id, tokens, newTurn)) == AllTurns(m) + if newTurn then 1 else 0
  {
    hide Sum, Accumulate;
    SumSet(m, TurnsAsInput, id, AddExecution(m, id, tokens, newTurn)[id]);
  }

  // ---- time ----

  datatype TimeSpan = TimeSpan(first: Option<int>, last: Option<int>)

  function Observe(s: TimeSpan, ms: Option<int>): TimeSpan {
    if ms.None? then s
    else TimeSpan(if s.first.None? || ms.value < s.first.value then ms else s.first,
                  if s.last.None? || ms.value > s.last.value then ms else s.last)
  }

  function DurationMs(s: TimeSpan): Option<int> {
    if s.first.None? || s.last.None? then None else Some(s.last.value - s.first.value)
  }

  lemma ObserveIdempotent(s: TimeSpan, ms: Option<int>)
    ensures Observe(Observe(s, ms), ms) == Observe(s, ms)
  {
  }
}
