/** Codex usage: differences of cumulative counters that may start over. */
module CodexUsage {
  import opened JsStrings
  import opened Wrappers
  import opened TokenAccounting

  /** A cumulative snapshot. `cached` is part of `input`, `reasoning` part of `output` and may be missing. */
  datatype Totals = Totals(input: nat, cached: nat, cacheWrite: nat, output: nat, reasoning: Option<nat>)

  const ZERO_TOTALS: Totals := Totals(0, 0, 0, 0, Some(0))

  /** The rows of a rollout that matter, with their fields read. */
  datatype Row =
    | TurnContext(model: Option<JsString>, effort: Option<Effort>)
    | SessionMeta(model: Option<JsString>)
    | TokenCount(totals: Totals, timestampMs: Option<int>, window: Option<nat>)
    | OtherRow

  datatype Turn = Turn(
    provider: Provider,
    model: Option<JsString>,
    effort: Option<Effort>,
    contextTokens: nat,
    tokens: Tokens,
    timestampMs: Option<int>)

  datatype State = State(
    perModel: ModelTable,
    perExecution: ExecutionTable,
    turnSeries: seq<Turn>,
    span: TimeSpan,
    currentModel: Option<JsString>,
    currentEffort: Option<Effort>,
    previous: Totals,
    turns: nat,
    sawTokenCount: bool,
    mainInputTokens: nat,
    contextTokens: nat,
    contextModel: Option<JsString>,
    currentTurnContextModel: Option<JsString>,
    contextEffort: Option<Effort>,
    contextWindowTokens: Option<nat>)

  const START: State :=
    State(map[], map[], [], TimeSpan(None, None), None, None, ZERO_TOTALS, 0, false, 0, 0, None, None, None, None)

  datatype Reason = LogUnreadable | NoUsageRecords
  datatype Observation = Unavailable(reason: Reason) | Observed(usage: State)

  // ---- one token count ----

  /** Some cumulative counter went down: another counter started. */
  predicate Reset(previous: Totals, totals: Totals) {
    totals.input < previous.input || totals.cached < previous.cached
    || totals.cacheWrite < previous.cacheWrite || totals.output < previous.output
  }

  function Base(previous: Totals, totals: Totals): Totals { if Reset(previous, totals) then ZERO_TOTALS else previous }

  function ReasoningDelta(previous: Totals, totals: Totals): Option<int> {
    var reasoningReset := totals.reasoning.Some? && previous.reasoning.Some? && totals.reasoning.value < previous.reasoning.value;
    var base := if Reset(previous, totals) || reasoningReset then Some(0) else previous.reasoning;
    if totals.reasoning.None? || base.None? then None else Some(totals.reasoning.value - base.value)
  }

  /** The cached part of the difference exceeds its whole, or the reasoning part the output. */
  predicate Inconsistent(previous: Totals, totals: Totals) {
    var base, reasoning := Base(previous, totals), ReasoningDelta(previous, totals);
    totals.cached - base.cached > totals.input - base.input
    || (reasoning.Some? && reasoning.value > totals.output - base.output)
  }

  function Delta(previous: Totals, totals: Totals): Tokens
    requires !Inconsistent(previous, totals)
  {
    var base, reasoning := Base(previous, totals), ReasoningDelta(previous, totals);
    var cached := totals.cached - base.cached;
    Tokens(Four(totals.input - base.input - cached, totals.output - base.output, totals.cacheWrite - base.cacheWrite, cached),
           if reasoning.None? then None else Some(reasoning.value), None)
  }

  predicate NothingNew(previous: Totals, totals: Totals) {
    var base := Base(previous, totals);
    totals.input - base.input == 0 && totals.output - base.output == 0 && totals.cacheWrite - base.cacheWrite == 0
  }

  function ModelName(model: Option<JsString>): JsString { if model.Some? then model.value else Ascii("unknown") }

  /** What a token count that brings something new adds. */
  function Counted(st: State, row: Row, delta: Tokens): State
    requires row.TokenCount?
  {
    var entry := Entry(ModelName(st.currentModel), delta);
    var turnInput := InputSideTotal(delta.four);
    st.(perModel := AddModel(st.perModel, entry),
        perExecution := WithTurn(st.perExecution, Codex, st.currentEffort, [entry]),
        turnSeries := st.turnSeries
                      + [Turn(Codex, st.currentTurnContextModel, st.currentEffort, turnInput, delta, row.timestampMs)],
        turns := st.turns + 1,
        mainInputTokens := st.mainInputTokens + turnInput,
        contextTokens := turnInput,
        contextModel := st.currentTurnContextModel,
        contextEffort := st.currentEffort,
        contextWindowTokens := if row.window.Some? then row.window else st.contextWindowTokens)
  }

  /** One row; None when the log is unreadable from there on. */
  function Next(st: State, row: Row): Option<State> {
    match row
    case TurnContext(model, effort) =>
      Some(st.(currentTurnContextModel := model, currentModel := if model.Some? then model else st.currentModel,
               currentEffort := effort))
    case SessionMeta(model) => Some(st.(currentModel := if st.currentModel.Some? then st.currentModel else model))
    case OtherRow => Some(st)
    case TokenCount(totals, timestampMs, window) =>
      var seen := st.(sawTokenCount := true, span := Observe(st.span, timestampMs), previous := totals);
      if Inconsistent(st.previous, totals) then None
      else if NothingNew(st.previous, totals) then Some(seen)
      else Some(Counted(seen, row, Delta(st.previous, totals)))
  }

  function Collected(rows: seq<Row>): Option<State> {
    if rows == [] then Some(START)
    else
      var st := Collected(rows[..|rows| - 1]);
      if st.None? then None else Next(st.value, rows[|rows| - 1])
  }

  function Report(collected: Option<State>): Observation {
    if collected.None? then Unavailable(LogUnreadable)
    else if !collected.value.sawTokenCount || collected.value.perModel == map[] then Unavailable(NoUsageRecords)
    else Observed(collected.value)
  }

  lemma {:induction false} CollectedStops(rows: seq<Row>, i: nat)
    requires i <= |rows| && Collected(rows[..i]).None?
    ensures Collected(rows).None?
    decreases |rows| - i
  {
    if i == |rows| {
      assert rows[..i] == rows;
    } else {
      assert rows[..i + 1][..i] == rows[..i];
      CollectedStops(rows, i + 1);
    }
  }

  /** collectCodexNativeUsage on the rows of the rollout. */
  method CollectCodexNativeUsage(rows: seq<Row>) returns (r: Observation)
    ensures r == Report(Collected(rows))
  {
    hide Delta, Inconsistent, NothingNew, Observe, ModelName, InputSideTotal, AddModel, WithTurn;
    var tokens := new ModelTokenAccumulator();
    var executions := new ExecutionTokenAccumulator();
    var st := START;
    for i := 0 to |rows|
      invariant fresh(tokens) && fresh(executions)
      invariant Collected(rows[..i]) == Some(st.(perModel := tokens.byModel, perExecution := executions.byExecution))
    {
      assert rows[..i + 1][..i] == rows[..i];
      ghost var before := Collected(rows[..i]).value;
      match rows[i] {
        case TurnContext(model, effort) =>
          st := st.(currentTurnContextModel := model, currentEffort := effort);
          if model.Some? { st := st.(currentModel := model); }
        case SessionMeta(model) =>
          if st.currentModel.None? { st := st.(currentModel := model); }
        case OtherRow =>
        case TokenCount(totals, timestampMs, window) =>
          var previous := st.previous;
          st := st.(sawTokenCount := true, span := Observe(st.span, timestampMs), previous := totals);
          if Inconsistent(previous, totals) {
            CollectedStops(rows, i + 1);
            return Unavailable(LogUnreadable);
          }
          if NothingNew(previous, totals) { continue; }
          var delta := Delta(previous, totals);
          tokens.Add(ModelName(st.currentModel), delta);
          executions.AddTurn(Codex, st.currentEffort, [Entry(ModelName(st.currentModel), delta)]);
          var turnInput := InputSideTotal(delta.four);
          st := st.(turns := st.turns + 1, mainInputTokens := st.mainInputTokens + turnInput, contextTokens := turnInput,
                    contextModel := st.currentTurnContextModel, contextEffort := st.currentEffort);
          st := st.(turnSeries := st.turnSeries
                                  + [Turn(Codex, st.currentTurnContextModel, st.currentEffort, turnInput, delta, timestampMs)]);
          if window.Some? { st := st.(contextWindowTokens := window); }
      }
    }
    assert rows[..|rows|] == rows;
    st := st.(perModel := tokens.byModel, perExecution := executions.byExecution);
    if !st.sawTokenCount || st.perModel == map[] { return Unavailable(NoUsageRecords); }
    return Observed(st);
  }

  // ---- conservation ----

  /** The four cumulative counters. */
  datatype Counters = Counters(input: nat, cached: nat, cacheWrite: nat, output: nat)

  function CountersOf(f: Four): Counters { Counters(f.input + f.cacheRead, f.cacheRead, f.cacheCreation, f.output) }
  function Last(t: Totals): Counters { Counters(t.input, t.cached, t.cacheWrite, t.output) }
  function AddCounters(a: Counters, b: Counters): Counters {
    Counters(a.input + b.input, a.cached + b.cached, a.cacheWrite + b.cacheWrite, a.output + b.output)
  }

  function Snapshots(rows: seq<Row>): seq<Totals> {
    if rows == [] then []
    else
      var row := rows[|rows| - 1];
      Snapshots(rows[..|rows| - 1]) + (if row.TokenCount? then [row.totals] else [])
  }

  /** The last snapshots of all segments but the current one, added up. A segment ends where a counter goes down. */
  function ClosedSegments(ts: seq<Totals>): Counters {
    if |ts| < 2 then Counters(0, 0, 0, 0)
    else
      var closed := ClosedSegments(ts[..|ts| - 1]);
      if Reset(ts[|ts| - 2], ts[|ts| - 1]) then AddCounters(closed, Last(ts[|ts| - 2])) else closed
  }

  /** The last snapshots of all reset-free segments, added up. */
  function SegmentEnds(ts: seq<Totals>): Counters {
    if ts == [] then Counters(0, 0, 0, 0) else AddCounters(ClosedSegments(ts), Last(ts[|ts| - 1]))
  }

  predicate Previous(st: State, ts: seq<Totals>) { st.previous == if ts == [] then ZERO_TOTALS else ts[|ts| - 1] }

  /** A difference is what the counters grew by since the base. */
  lemma DeltaIsGrowth(previous: Totals, totals: Totals)
    requires !Inconsistent(previous, totals)
    ensures AddCounters(Last(Base(previous, totals)), CountersOf(Delta(previous, totals).four)) == Last(totals)
    ensures NothingNew(previous, totals) ==> Delta(previous, totals).four == ZERO
  {
  }

  lemma SegmentGrows(ts: seq<Totals>, totals: Totals, previous: Totals)
    requires previous == if ts == [] then ZERO_TOTALS else ts[|ts| - 1]
    ensures SegmentEnds(ts + [totals])
            == AddCounters(if Reset(previous, totals) then SegmentEnds(ts) else ClosedSegments(ts), Last(totals))
  {
    assert (ts + [totals])[..|ts|] == ts;
  }

  /** The segments grow by the difference. */
  lemma SegmentGrowth(ts: seq<Totals>, totals: Totals, previous: Totals)
    requires !Inconsistent(previous, totals) && previous == if ts == [] then ZERO_TOTALS else ts[|ts| - 1]
    ensures SegmentEnds(ts + [totals]) == AddCounters(SegmentEnds(ts), CountersOf(Delta(previous, totals).four))
  {
    hide Delta, Inconsistent, ClosedSegments;
    DeltaIsGrowth(previous, totals);
    SegmentGrows(ts, totals, previous);
    assert ts == [] ==> ClosedSegments(ts) == Counters(0, 0, 0, 0) by { NoSegments(); }
  }

  lemma CountersAdd(a: Four, b: Four)
    ensures CountersOf(Plus(a, b)) == AddCounters(CountersOf(a), CountersOf(b))
  {
  }

  /** One row adds to the models what it adds to the segments. */
  lemma RowConserves(st: State, row: Row, ts: seq<Totals>)
    requires Next(st, row).Some? && Previous(st, ts) && CountersOf(AllModels(st.perModel)) == SegmentEnds(ts)
    ensures var next, ts' := Next(st, row).value, if row.TokenCount? then ts + [row.totals] else ts;
            Previous(next, ts') && CountersOf(AllModels(next.perModel)) == SegmentEnds(ts')
  {
    hide AllModels, WithTurn, Observe, Delta, AddModel, SegmentEnds, AddCounters, CountersOf, Plus, Inconsistent, NothingNew;
    if row.TokenCount? {
      var delta := Delta(st.previous, row.totals);
      SegmentGrowth(ts, row.totals, st.previous);
      if NothingNew(st.previous, row.totals) {
        DeltaIsGrowth(st.previous, row.totals);
        CountersAdd(AllModels(st.perModel), delta.four);
        PlusZero(AllModels(st.perModel));
      } else {
        AddModelSum(st.perModel, Entry(ModelName(st.currentModel), delta));
        CountersAdd(AllModels(st.perModel), delta.four);
      }
    }
  }

  lemma PlusZero(a: Four)
    ensures Plus(a, ZERO) == a
  {
  }

  /** Summed over models, the counts are the final counters of the reset-free segments. */
  lemma {:induction false} Conservation(rows: seq<Row>)
    requires Collected(rows).Some?
    ensures CountersOf(AllModels(Collected(rows).value.perModel)) == SegmentEnds(Snapshots(rows))
    ensures Previous(Collected(rows).value, Snapshots(rows))
    decreases |rows|
  {
    hide AllModels, Next, SegmentEnds, CountersOf, Previous;
    if rows == [] {
      ConservedAtStart();
    } else {
      Conservation(rows[..|rows| - 1]);
      assert !rows[|rows| - 1].TokenCount? ==> Snapshots(rows) == Snapshots(rows[..|rows| - 1]);
      RowConserves(Collected(rows[..|rows| - 1]).value, rows[|rows| - 1], Snapshots(rows[..|rows| - 1]));
    }
  }

  lemma ConservedAtStart()
    ensures CountersOf(AllModels(START.perModel)) == SegmentEnds([]) && Previous(START, [])
  {
    NoModels();
    NoSegments();
  }

  lemma NoSegments()
    ensures SegmentEnds([]) == ClosedSegments([]) == Counters(0, 0, 0, 0)
  {
  }

  lemma NoModels()
    ensures AllModels(map[]) == ZERO
    ensures forall model :: AllExecutions(map[], model) == ZERO
    ensures AllTurns(map[]) == 0
  {
  }

  // ---- the aggregates agree ----

  function SeriesTotal(turns: seq<Turn>): Four {
    if turns == [] then ZERO else Plus(SeriesTotal(turns[..|turns| - 1]), turns[|turns| - 1].tokens.four)
  }

  /** Every turn of the series shows what it sent as its context. */
  predicate ContextsFit(turns: seq<Turn>) {
    forall i :: 0 <= i < |turns| ==> turns[i].contextTokens == InputSideTotal(turns[i].tokens.four)
  }

  ghost predicate Agree(st: State) {
    && AllExecutions(st.perExecution, None) == AllModels(st.perModel) == SeriesTotal(st.turnSeries)
    && InputSideTotal(AllModels(st.perModel)) == st.mainInputTokens
    && |st.turnSeries| == st.turns == AllTurns(st.perExecution) && ContextsFit(st.turnSeries)
    && (st.turns > 0 ==> st.contextTokens == st.turnSeries[st.turns - 1].contextTokens)
  }

  lemma OneEntryTurn(m: ExecutionTable, effort: Option<Effort>, e: Entry)
    requires !IsZeroTokens(e.tokens.four)
    ensures WithTurn(m, Codex, effort, [e]) == AddExecution(m, ExecutionId(Codex, e.model, effort), e.tokens, true)
  {
    hide AddExecution;
    var id := ExecutionId(Codex, e.model, effort);
    var none: set<ExecutionId> := {};
    assert [e][1..] == [];
    assert AddTurnEntries(AddExecution(m, id, e.tokens, true), Codex, effort, [], none + {id}) == AddExecution(m, id, e.tokens, true);
  }

  lemma CountedTables(st: State, row: Row, delta: Tokens)
    requires row.TokenCount? && !IsZeroTokens(delta.four)
    ensures var next := Counted(st, row, delta);
            && AllModels(next.perModel) == Plus(AllModels(st.perModel), delta.four)
            && AllExecutions(next.perExecution, None) == Plus(AllExecutions(st.perExecution, None), delta.four)
            && AllTurns(next.perExecution) == AllTurns(st.perExecution) + 1
  {
    hide AllModels, AllExecutions, AllTurns, AddModel, AddExecution, WithTurn, Plus;
    var entry := Entry(ModelName(st.currentModel), delta);
    AddModelSum(st.perModel, entry);
    OneEntryTurn(st.perExecution, st.currentEffort, entry);
    AddExecutionSum(st.perExecution, ExecutionId(Codex, entry.model, st.currentEffort), entry.tokens, true, None);
    AddExecutionTurns(st.perExecution, ExecutionId(Codex, entry.model, st.currentEffort), entry.tokens, true);
  }

  lemma CountedSeries(st: State, row: Row, delta: Tokens)
    requires row.TokenCount? && ContextsFit(st.turnSeries)
    ensures var next := Counted(st, row, delta);
            && SeriesTotal(next.turnSeries) == Plus(SeriesTotal(st.turnSeries), delta.four) && ContextsFit(next.turnSeries)
            && |next.turnSeries| == |st.turnSeries| + 1 && next.turns == st.turns + 1
            && next.turnSeries[|st.turnSeries|].contextTokens == next.contextTokens == InputSideTotal(delta.four)
            && next.mainInputTokens == st.mainInputTokens + InputSideTotal(delta.four)
  {
    hide AddModel, WithTurn, Plus, InputSideTotal;
    var next := Counted(st, row, delta);
    assert next.turnSeries[..|st.turnSeries|] == st.turnSeries;
  }

  lemma InputSidePlus(a: Four, b: Four)
    ensures InputSideTotal(Plus(a, b)) == InputSideTotal(a) + InputSideTotal(b)
  {
  }

  lemma CountedAgrees(st: State, row: Row, delta: Tokens)
    requires row.TokenCount? && Agree(st) && !IsZeroTokens(delta.four)
    ensures Agree(Counted(st, row, delta))
  {
    hide AllModels, AllExecutions, AllTurns, Counted, SeriesTotal, ContextsFit, Plus, InputSideTotal, IsZeroTokens;
    CountedTables(st, row, delta);
    CountedSeries(st, row, delta);
    InputSidePlus(AllModels(st.perModel), delta.four);
  }

  /** New tokens are never all zero. */
  lemma NewIsNotZero(previous: Totals, totals: Totals)
    requires !Inconsistent(previous, totals) && !NothingNew(previous, totals)
    ensures !IsZeroTokens(Delta(previous, totals).four)
  {
  }

  /** Two states with the same aggregates. */
  predicate SameTables(a: State, b: State) {
    && a.perModel == b.perModel && a.perExecution == b.perExecution && a.turnSeries == b.turnSeries && a.turns == b.turns
    && a.mainInputTokens == b.mainInputTokens && a.contextTokens == b.contextTokens
  }

  lemma SameTablesAgree(a: State, b: State)
    requires SameTables(a, b) && Agree(a)
    ensures Agree(b)
  {
    hide AllModels, AllExecutions, AllTurns, SeriesTotal, ContextsFit;
  }

  /** A row changes the aggregates only when it counts. */
  lemma RowTables(st: State, row: Row)
    requires Next(st, row).Some?
    ensures if row.TokenCount? && !NothingNew(st.previous, row.totals)
            then !Inconsistent(st.previous, row.totals)
                 && exists seen :: SameTables(st, seen) && Next(st, row).value == Counted(seen, row, Delta(st.previous, row.totals))
            else SameTables(st, Next(st, row).value)
  {
    hide Counted, Delta, Inconsistent, NothingNew;
    if row.TokenCount? {
      var seen := st.(sawTokenCount := true, span := Observe(st.span, row.timestampMs), previous := row.totals);
      assert SameTables(st, seen);
    }
  }

  lemma RowAgrees(st: State, row: Row)
    requires Agree(st) && Next(st, row).Some?
    ensures Agree(Next(st, row).value)
  {
    hide Agree, SameTables, Next, Counted, Delta, Inconsistent, NothingNew;
    RowTables(st, row);
    if row.TokenCount? && !NothingNew(st.previous, row.totals) {
      var delta := Delta(st.previous, row.totals);
      var seen :| SameTables(st, seen) && Next(st, row).value == Counted(seen, row, delta);
      NewIsNotZero(st.previous, row.totals);
      SameTablesAgree(st, seen);
      CountedAgrees(seen, row, delta);
    } else {
      SameTablesAgree(st, Next(st, row).value);
    }
  }

  /** Models, executions, the turn series and the running input all show the same tokens. */
  lemma {:induction false} AggregatesAgree(rows: seq<Row>)
    requires Collected(rows).Some?
    ensures Agree(Collected(rows).value)
    decreases |rows|
  {
    hide Next, AllModels, AllExecutions, AllTurns;
    if rows == [] {
      NoModels();
    } else {
      AggregatesAgree(rows[..|rows| - 1]);
      RowAgrees(Collected(rows[..|rows| - 1]).value, rows[|rows| - 1]);
    }
  }

  // ---- each model, each reasoning share ----

  ghost predicate ModelsFit(st: State) {
    && (forall model :: model in st.perModel ==> AllExecutions(st.perExecution, Some(model)) == st.perModel[model].four)
    && (forall model :: model !in st.perModel ==> AllExecutions(st.perExecution, Some(model)) == ZERO)
    && (forall model :: model in st.perModel && st.perModel[model].reasoning.Some? ==>
          st.perModel[model].reasoning.value <= st.perModel[model].four.output)
  }

  lemma CountedFits(st: State, row: Row, delta: Tokens)
    requires row.TokenCount? && ModelsFit(st) && !IsZeroTokens(delta.four)
    requires delta.reasoning.Some? ==> delta.reasoning.value <= delta.four.output
    ensures ModelsFit(Counted(st, row, delta))
  {
    hide AllModels, AllExecutions, AllTurns, AddExecution, WithTurn;
    var entry, next := Entry(ModelName(st.currentModel), delta), Counted(st, row, delta);
    OneEntryTurn(st.perExecution, st.currentEffort, entry);
    forall model
      ensures AllExecutions(next.perExecution, Some(model))
              == if model == entry.model then Plus(AllExecutions(st.perExecution, Some(model)), delta.four)
                 else AllExecutions(st.perExecution, Some(model))
    {
      AddExecutionSum(st.perExecution, ExecutionId(Codex, entry.model, st.currentEffort), delta, true, Some(model));
    }
  }

  /** For every model the executions add up to the model's tokens, and reasoning stays within output. */
  lemma {:induction false} ModelsAddUp(rows: seq<Row>)
    requires Collected(rows).Some?
    ensures ModelsFit(Collected(rows).value)
    decreases |rows|
  {
    hide AllExecutions, Counted;
    if rows == [] {
      NoModels();
    } else {
      var init, row := rows[..|rows| - 1], rows[|rows| - 1];
      ModelsAddUp(init);
      var st := Collected(init).value;
      if row.TokenCount? && !NothingNew(st.previous, row.totals) {
        NewIsNotZero(st.previous, row.totals);
        var seen := st.(sawTokenCount := true, span := Observe(st.span, row.timestampMs), previous := row.totals);
        CountedFits(seen, row, Delta(st.previous, row.totals));
      }
    }
  }

  // ---- repeated events ----

  predicate SameButSpan(a: Option<State>, b: Option<State>) {
    (a.None? <==> b.None?) && (a.Some? ==> b.value == a.value.(span := b.value.span))
  }

  lemma {:induction false} SpanDoesNotMatter(a: State, b: State, row: Row)
    requires b == a.(span := b.span)
    ensures SameButSpan(Next(a, row), Next(b, row))
  {
    hide AddModel, WithTurn, Observe, Inconsistent, NothingNew, Delta;
  }

  /** A snapshot read again brings nothing. */
  lemma RepeatIsIgnored(st: State, row: Row, again: Row)
    requires row.TokenCount? && again.TokenCount? && again.totals == row.totals && Next(st, row).Some?
    ensures SameButSpan(Next(st, row), Next(Next(st, row).value, again))
    ensures again.timestampMs == row.timestampMs ==> Next(Next(st, row).value, again) == Next(st, row)
  {
    hide AddModel, WithTurn, Delta;
    ObserveIdempotent(st.span, row.timestampMs);
  }

  /** Repeating a token count right after itself changes no count anywhere in the result. */
  lemma {:induction false} RepeatsDoNotCount(before: seq<Row>, row: Row, again: Row, rest: seq<Row>)
    requires row.TokenCount? && again.TokenCount? && again.totals == row.totals
    ensures SameButSpan(Collected(before + [row] + rest), Collected(before + [row, again] + rest))
    decreases |rest|
  {
    hide Next, Inconsistent;
    if rest == [] {
      assert before + [row] + rest == before + [row] && before + [row, again] + rest == before + [row] + [again];
      CollectedNext(before, row);
      CollectedNext(before + [row], again);
      if Collected(before + [row]).Some? { RepeatIsIgnored(Collected(before).value, row, again); }
    } else {
      var init, last := rest[..|rest| - 1], rest[|rest| - 1];
      RepeatsDoNotCount(before, row, again, init);
      assert before + [row] + rest == (before + [row] + init) + [last];
      assert before + [row, again] + rest == (before + [row, again] + init) + [last];
      CollectedNext(before + [row] + init, last);
      CollectedNext(before + [row, again] + init, last);
      if Collected(before + [row] + init).Some? {
        SpanDoesNotMatter(Collected(before + [row] + init).value, Collected(before + [row, again] + init).value, last);
      }
    }
  }

  lemma CollectedNext(rows: seq<Row>, row: Row)
    ensures Collected(rows + [row]) == if Collected(rows).None? then None else Next(Collected(rows).value, row)
  {
    assert (rows + [row])[..|rows|] == rows;
  }
}
