/** Which model, effort and turn the tokens of a rollout belong to, told from the rows alone. */
module CodexAttribution {
  import opened JsStrings
  import opened Wrappers
  import opened TokenAccounting
  import opened CodexUsage

  // ---- positions ----

  /** The last place where a row is of the kind, or -1. */
  function LastWhere(rows: seq<Row>, kind: Row -> bool): (k: int)
    ensures -1 <= k < |rows| && (k >= 0 ==> kind(rows[k]))
    ensures forall j :: k < j < |rows| ==> !kind(rows[j])
  {
    if rows == [] then -1
    else if kind(rows[|rows| - 1]) then |rows| - 1
    else LastWhere(rows[..|rows| - 1], kind)
  }

  /** The first place where a row is of the kind, or the number of rows. */
  function FirstWhere(rows: seq<Row>, kind: Row -> bool): (k: nat)
    ensures k <= |rows| && (k < |rows| ==> kind(rows[k]))
    ensures forall j :: 0 <= j < k ==> !kind(rows[j])
  {
    if rows == [] then 0
    else
      var k := FirstWhere(rows[..|rows| - 1], kind);
      if k < |rows| - 1 || kind(rows[|rows| - 1]) then k else |rows|
  }

  predicate IsTurn(row: Row) { row.TurnContext? }
  predicate NamesTurnModel(row: Row) { row.TurnContext? && row.model.Some? }
  predicate NamesSessionModel(row: Row) { row.SessionMeta? && row.model.Some? }
  predicate IsCount(row: Row) { row.TokenCount? }
  predicate ShowsWindow(row: Row) { row.TokenCount? && row.window.Some? }

  // ---- what the rows before a token count say about it ----

  /** The model of the last turn that names one, otherwise of the first session row that does, otherwise unknown. */
  function ChargedModel(before: seq<Row>): JsString {
    var turn, session := LastWhere(before, NamesTurnModel), FirstWhere(before, NamesSessionModel);
    if turn >= 0 then before[turn].model.value
    else if session < |before| then before[session].model.value
    else Ascii("unknown")
  }

  /** The model and the effort the last turn gives, if any. */
  function TurnModel(before: seq<Row>): Option<JsString> {
    var turn := LastWhere(before, IsTurn);
    if turn >= 0 then before[turn].model else None
  }

  function TurnEffort(before: seq<Row>): Option<Effort> {
    var turn := LastWhere(before, IsTurn);
    if turn >= 0 then before[turn].effort else None
  }

  /** The counters the rows stand at; all zero before the first snapshot. */
  function Standing(before: seq<Row>): Totals {
    var last := LastWhere(before, IsCount);
    if last >= 0 then before[last].totals else Totals(0, 0, 0, 0, Some(0))
  }

  datatype Growth = Growth(input: int, cached: int, cacheWrite: int, output: int, reasoning: Option<int>)

  /** No counter went down. */
  predicate Continues(p: Totals, t: Totals) {
    p.input <= t.input && p.cached <= t.cached && p.cacheWrite <= t.cacheWrite && p.output <= t.output
  }

  /** What a snapshot brings: everything when the counters started over, otherwise what each of them gained. */
  function GrowthOver(p: Totals, t: Totals): Growth {
    if !Continues(p, t) then Growth(t.input, t.cached, t.cacheWrite, t.output, if t.reasoning.Some? then Some(t.reasoning.value) else None)
    else Growth(t.input - p.input, t.cached - p.cached, t.cacheWrite - p.cacheWrite, t.output - p.output,
                if t.reasoning.None? || p.reasoning.None? then None
                else if t.reasoning.value < p.reasoning.value then Some(t.reasoning.value)
                else Some(t.reasoning.value - p.reasoning.value))
  }

  /** The parts do not exceed their wholes. */
  predicate Possible(g: Growth) { g.cached <= g.input && (g.reasoning.Some? ==> g.reasoning.value <= g.output) }

  predicate Brings(g: Growth) { g.input != 0 || g.cacheWrite != 0 || g.output != 0 }

  /** Every snapshot of the rollout is possible after what came before it. */
  predicate Readable(rows: seq<Row>) {
    rows == []
    || (Readable(rows[..|rows| - 1])
        && (rows[|rows| - 1].TokenCount? ==> Possible(GrowthOver(Standing(rows[..|rows| - 1]), rows[|rows| - 1].totals))))
  }

  // ---- the charges of a rollout ----

  datatype Charge = Charge(
    model: JsString, turnModel: Option<JsString>, effort: Option<Effort>, growth: Growth, timestampMs: Option<int>)

  /** The charge of each token count that brings something, in order. */
  function Charges(rows: seq<Row>): seq<Charge> {
    if rows == [] then []
    else
      var before, row := rows[..|rows| - 1], rows[|rows| - 1];
      if row.TokenCount? && Brings(GrowthOver(Standing(before), row.totals))
      then Charges(before)
           + [Charge(ChargedModel(before), TurnModel(before), TurnEffort(before), GrowthOver(Standing(before), row.totals), row.timestampMs)]
      else Charges(before)
  }

  /** The token counts that bring something. */
  function CountedRows(rows: seq<Row>): seq<Row> {
    if rows == [] then []
    else
      var before, row := rows[..|rows| - 1], rows[|rows| - 1];
      if row.TokenCount? && Brings(GrowthOver(Standing(before), row.totals)) then CountedRows(before) + [row] else CountedRows(before)
  }

  function Select(cs: seq<Charge>, who: Charge -> bool): seq<Charge> {
    if cs == [] then []
    else Select(cs[..|cs| - 1], who) + if who(cs[|cs| - 1]) then [cs[|cs| - 1]] else []
  }

  function ForModel(model: JsString): Charge -> bool { (c: Charge) => c.model == model }

  function ForExecution(id: ExecutionId): Charge -> bool {
    (c: Charge) => id.provider == Codex && id.model == c.model && id.effort == c.effort
  }

  function SumOf(cs: seq<Charge>, what: Charge -> int): int {
    if cs == [] then 0 else SumOf(cs[..|cs| - 1], what) + what(cs[|cs| - 1])
  }

  function Uncached(c: Charge): int { c.growth.input - c.growth.cached }
  function Cached(c: Charge): int { c.growth.cached }
  function CacheWritten(c: Charge): int { c.growth.cacheWrite }
  function Output(c: Charge): int { c.growth.output }
  function Reasoned(c: Charge): int { if c.growth.reasoning.Some? then c.growth.reasoning.value else 0 }
  function Prompt(c: Charge): int { c.growth.input + c.growth.cacheWrite }

  /** The tokens are the sums over the charges; reasoning is missing when none of them reports any. */
  predicate AddsUp(t: Tokens, cs: seq<Charge>) {
    && t.four.input == SumOf(cs, Uncached) && t.four.cacheRead == SumOf(cs, Cached)
    && t.four.cacheCreation == SumOf(cs, CacheWritten) && t.four.output == SumOf(cs, Output)
    && (t.reasoning.Some? <==> exists c :: c in cs && c.growth.reasoning.Some?)
    && (t.reasoning.Some? ==> t.reasoning.value == SumOf(cs, Reasoned))
    && t.oneHour == None
  }

  // ---- what the result shows ----

  ghost predicate ModelsShow(m: ModelTable, cs: seq<Charge>) {
    forall model ::
      && (model in m <==> Select(cs, ForModel(model)) != [])
      && (model in m ==> AddsUp(m[model], Select(cs, ForModel(model))))
  }

  ghost predicate ExecutionsShow(m: ExecutionTable, cs: seq<Charge>) {
    forall id ::
      && (id in m <==> Select(cs, ForExecution(id)) != [])
      && (id in m ==> m[id].turns == |Select(cs, ForExecution(id))| && AddsUp(m[id].tokens, Select(cs, ForExecution(id))))
  }

  /** A turn of the series shows its charge. */
  predicate TurnShows(turn: Turn, c: Charge) {
    && turn.provider == Codex && turn.model == c.turnModel && turn.effort == c.effort && turn.timestampMs == c.timestampMs
    && turn.contextTokens == Prompt(c) && AddsUp(turn.tokens, [c])
  }

  predicate SeriesShows(turns: seq<Turn>, cs: seq<Charge>) {
    |turns| == |cs| && forall k :: 0 <= k < |cs| ==> TurnShows(turns[k], cs[k])
  }

  /** The context is that of the last charge. */
  predicate ContextShows(st: State, cs: seq<Charge>) {
    if cs == [] then st.contextTokens == 0 && st.contextModel == None && st.contextEffort == None
    else
      var c := cs[|cs| - 1];
      st.contextTokens == Prompt(c) && st.contextModel == c.turnModel && st.contextEffort == c.effort
  }

  predicate Earliest(first: Option<int>, rows: seq<Row>) {
    && (first.None? ==> forall row :: row in rows && row.TokenCount? ==> row.timestampMs == None)
    && (first.Some? ==> exists row :: row in rows && row.TokenCount? && row.timestampMs == first)
    && (first.Some? ==> forall row :: row in rows && row.TokenCount? && row.timestampMs.Some? ==> first.value <= row.timestampMs.value)
  }

  predicate Latest(last: Option<int>, rows: seq<Row>) {
    && (last.None? ==> forall row :: row in rows && row.TokenCount? ==> row.timestampMs == None)
    && (last.Some? ==> exists row :: row in rows && row.TokenCount? && row.timestampMs == last)
    && (last.Some? ==> forall row :: row in rows && row.TokenCount? && row.timestampMs.Some? ==> row.timestampMs.value <= last.value)
  }

  /** The window shown by the last counted row that shows one. */
  function WindowOf(counted: seq<Row>): Option<nat> {
    var k := LastWhere(counted, ShowsWindow);
    if k >= 0 then counted[k].window else None
  }

  ghost predicate Shows(st: State, rows: seq<Row>) {
    && ModelsShow(st.perModel, Charges(rows)) && ExecutionsShow(st.perExecution, Charges(rows))
    && SeriesShows(st.turnSeries, Charges(rows)) && ContextShows(st, Charges(rows))
    && st.turns == |Charges(rows)| && st.mainInputTokens == SumOf(Charges(rows), Prompt)
    && Earliest(st.span.first, rows) && Latest(st.span.last, rows)
    && st.contextWindowTokens == WindowOf(CountedRows(rows))
  }

  // ---- the running names and counters ----

  /** What the state remembers for the next row is what the rows say. */
  predicate Remembers(st: State, rows: seq<Row>) {
    && ModelName(st.currentModel) == ChargedModel(rows) && st.currentTurnContextModel == TurnModel(rows)
    && (st.currentModel.None? <==> LastWhere(rows, NamesTurnModel) < 0 && FirstWhere(rows, NamesSessionModel) == |rows|)
    && st.currentEffort == TurnEffort(rows) && st.previous == Standing(rows)
    && (st.sawTokenCount <==> LastWhere(rows, IsCount) >= 0)
  }

  lemma LastGrows(before: seq<Row>, row: Row, kind: Row -> bool)
    ensures LastWhere(before + [row], kind) == if kind(row) then |before| else LastWhere(before, kind)
  {
    assert (before + [row])[..|before|] == before;
  }

  lemma FirstGrows(before: seq<Row>, row: Row, kind: Row -> bool)
    ensures FirstWhere(before + [row], kind)
            == if FirstWhere(before, kind) < |before| || kind(row) then FirstWhere(before, kind) else |before| + 1
  {
    assert (before + [row])[..|before|] == before;
  }

  lemma RowRemembered(st: State, before: seq<Row>, row: Row)
    requires Remembers(st, before) && Next(st, row).Some?
    ensures Remembers(Next(st, row).value, before + [row])
  {
    hide Delta, Inconsistent, NothingNew, AddModel, WithTurn, Observe, InputSideTotal, LastWhere, FirstWhere, Ascii;
    LastGrows(before, row, NamesTurnModel);
    LastGrows(before, row, IsTurn);
    LastGrows(before, row, IsCount);
    FirstGrows(before, row, NamesSessionModel);
    assert forall k :: 0 <= k < |before| ==> (before + [row])[k] == before[k];
  }

  // ---- one charge ----

  lemma GrowthIsDelta(p: Totals, t: Totals)
    ensures Inconsistent(p, t) <==> !Possible(GrowthOver(p, t))
    ensures NothingNew(p, t) <==> !Brings(GrowthOver(p, t))
    ensures !Inconsistent(p, t) ==>
              var d, g := Delta(p, t), GrowthOver(p, t);
              && d.four == Four(g.input - g.cached, g.output, g.cacheWrite, g.cached)
              && d.reasoning == (if g.reasoning.Some? then Some(g.reasoning.value) else None) && d.oneHour == None
  {
  }

  predicate Carries(d: Tokens, c: Charge) {
    && d.four.input == Uncached(c) && d.four.output == Output(c) && d.four.cacheCreation == CacheWritten(c)
    && d.four.cacheRead == Cached(c) && d.oneHour == None
    && (d.reasoning.Some? <==> c.growth.reasoning.Some?) && (d.reasoning.Some? ==> d.reasoning.value == c.growth.reasoning.value)
  }

  lemma SumOne(cs: seq<Charge>, c: Charge, what: Charge -> int)
    ensures SumOf(cs + [c], what) == SumOf(cs, what) + what(c)
  {
    assert (cs + [c])[..|cs|] == cs;
  }

  lemma SelectOne(cs: seq<Charge>, c: Charge, who: Charge -> bool)
    ensures Select(cs + [c], who) == if who(c) then Select(cs, who) + [c] else Select(cs, who)
  {
    assert (cs + [c])[..|cs|] == cs;
  }

  lemma {:induction false} NobodyReasoned(cs: seq<Charge>)
    requires forall c :: c in cs ==> c.growth.reasoning.None?
    ensures SumOf(cs, Reasoned) == 0
  {
    if cs != [] { NobodyReasoned(cs[..|cs| - 1]); }
  }

  lemma AddsOne(t: Tokens, cs: seq<Charge>, d: Tokens, c: Charge)
    requires AddsUp(t, cs) && Carries(d, c)
    ensures AddsUp(Accumulate(t, d), cs + [c])
  {
    hide SumOf;
    SumOne(cs, c, Uncached);
    SumOne(cs, c, Cached);
    SumOne(cs, c, CacheWritten);
    SumOne(cs, c, Output);
    SumOne(cs, c, Reasoned);
    if t.reasoning.None? { NobodyReasoned(cs); }
    assert c in cs + [c] && forall x :: x in cs ==> x in cs + [c];
  }

  lemma AddsNothing()
    ensures AddsUp(NOTHING, [])
  {
  }

  lemma ChargeModel(m: ModelTable, cs: seq<Charge>, d: Tokens, c: Charge)
    requires ModelsShow(m, cs) && Carries(d, c)
    ensures ModelsShow(AddModel(m, Entry(c.model, d)), cs + [c])
  {
    hide AddsUp, Select, Accumulate, Carries;
    var m' := AddModel(m, Entry(c.model, d));
    forall model
      ensures (model in m' <==> Select(cs + [c], ForModel(model)) != [])
              && (model in m' ==> AddsUp(m'[model], Select(cs + [c], ForModel(model))))
    {
      SelectOne(cs, c, ForModel(model));
      AddsNothing();
      if model == c.model {
        AddsOne(if model in m then m[model] else NOTHING, Select(cs, ForModel(model)), d, c);
      }
    }
  }

  lemma ChargeExecution(m: ExecutionTable, cs: seq<Charge>, d: Tokens, c: Charge)
    requires ExecutionsShow(m, cs) && Carries(d, c)
    ensures ExecutionsShow(AddExecution(m, ExecutionId(Codex, c.model, c.effort), d, true), cs + [c])
  {
    hide AddsUp, Select, Accumulate, Carries;
    var m' := AddExecution(m, ExecutionId(Codex, c.model, c.effort), d, true);
    forall id
      ensures (id in m' <==> Select(cs + [c], ForExecution(id)) != [])
              && (id in m' ==> m'[id].turns == |Select(cs + [c], ForExecution(id))|
                               && AddsUp(m'[id].tokens, Select(cs + [c], ForExecution(id))))
    {
      SelectOne(cs, c, ForExecution(id));
      AddsNothing();
      if id == ExecutionId(Codex, c.model, c.effort) {
        AddsOne(if id in m then m[id].tokens else NOTHING, Select(cs, ForExecution(id)), d, c);
      }
    }
  }

  lemma OneCharge(d: Tokens, c: Charge)
    requires Carries(d, c)
    ensures AddsUp(d, [c]) && InputSideTotal(d.four) == Prompt(c)
  {
    AddsNothing();
    AddsOne(NOTHING, [], d, c);
    assert [] + [c] == [c];
    assert Accumulate(NOTHING, d) == d;
  }

  // ---- one row ----

  predicate SpanShows(span: TimeSpan, rows: seq<Row>) { Earliest(span.first, rows) && Latest(span.last, rows) }

  lemma SpanGrows(span: TimeSpan, before: seq<Row>, row: Row)
    requires SpanShows(span, before)
    ensures SpanShows(if row.TokenCount? then Observe(span, row.timestampMs) else span, before + [row])
  {
    assert row in before + [row] && forall x :: x in before ==> x in before + [row];
    assert forall x :: x in before + [row] ==> x in before || x == row;
  }

  lemma WindowGrows(counted: seq<Row>, row: Row)
    requires row.TokenCount?
    ensures WindowOf(counted + [row]) == if row.window.Some? then row.window else WindowOf(counted)
  {
    assert (counted + [row])[..|counted|] == counted;
  }

  /** What a counted row adds to the tables. */
  lemma CountedShows(st: State, before: seq<Row>, row: Row, d: Tokens, c: Charge)
    requires row.TokenCount? && Carries(d, c) && d.four != ZERO
    requires c.model == ModelName(st.currentModel) && c.turnModel == st.currentTurnContextModel
    requires c.effort == st.currentEffort && c.timestampMs == row.timestampMs
    requires ModelsShow(st.perModel, Charges(before)) && ExecutionsShow(st.perExecution, Charges(before))
    requires SeriesShows(st.turnSeries, Charges(before)) && st.turns == |Charges(before)|
    requires st.mainInputTokens == SumOf(Charges(before), Prompt)
    requires st.contextWindowTokens == WindowOf(CountedRows(before))
    ensures var next, cs := Counted(st, row, d), Charges(before) + [c];
            && ModelsShow(next.perModel, cs) && ExecutionsShow(next.perExecution, cs) && SeriesShows(next.turnSeries, cs)
            && ContextShows(next, cs) && next.turns == |cs| && next.mainInputTokens == SumOf(cs, Prompt)
            && next.contextWindowTokens == WindowOf(CountedRows(before) + [row]) && next.span == st.span
  {
    hide ModelsShow, ExecutionsShow, AddModel, WithTurn, AddExecution, InputSideTotal, Prompt, AddsUp, Carries, SumOf, WindowOf, Charges,
      CountedRows, ModelName;
    ChargeModel(st.perModel, Charges(before), d, c);
    OneEntryTurn(st.perExecution, st.currentEffort, Entry(c.model, d));
    ChargeExecution(st.perExecution, Charges(before), d, c);
    OneCharge(d, c);
    SumOne(Charges(before), c, Prompt);
    WindowGrows(CountedRows(before), row);
  }

  lemma RowShows(st: State, before: seq<Row>, row: Row)
    requires Remembers(st, before) && Shows(st, before) && Next(st, row).Some?
    ensures Shows(Next(st, row).value, before + [row])
  {
    hide ModelsShow, ExecutionsShow, SeriesShows, Counted, Delta, Inconsistent, NothingNew, Observe, SumOf,
      GrowthOver, Possible, Brings, Earliest, Latest, WindowOf, LastWhere, FirstWhere, ModelName;
    assert (before + [row])[..|before|] == before;
    SpanGrows(st.span, before, row);
    if row.TokenCount? {
      GrowthIsDelta(st.previous, row.totals);
      if !NothingNew(st.previous, row.totals) {
        var seen := st.(sawTokenCount := true, span := Observe(st.span, row.timestampMs), previous := row.totals);
        var c := Charge(ChargedModel(before), TurnModel(before), TurnEffort(before), GrowthOver(st.previous, row.totals), row.timestampMs);
        NewIsNotZero(st.previous, row.totals);
        CountedShows(seen, before, row, Delta(st.previous, row.totals), c);
      }
    }
  }

  lemma StartShows()
    ensures Remembers(START, []) && Shows(START, [])
  {
  }

  /** Every table, turn and context of the result shows exactly the charges of the rows. */
  lemma {:induction false} Attributed(rows: seq<Row>)
    requires Collected(rows).Some?
    ensures Shows(Collected(rows).value, rows) && Remembers(Collected(rows).value, rows)
    decreases |rows|
  {
    hide Next, Shows, Remembers;
    if rows == [] {
      StartShows();
    } else {
      var before, row := rows[..|rows| - 1], rows[|rows| - 1];
      Attributed(before);
      RowRemembered(Collected(before).value, before, row);
      RowShows(Collected(before).value, before, row);
      assert before + [row] == rows;
    }
  }

  lemma ShowsModels(st: State, rows: seq<Row>)
    requires Shows(st, rows)
    ensures ModelsShow(st.perModel, Charges(rows))
  {
  }

  lemma StandsWhere(st: State, rows: seq<Row>)
    requires Remembers(st, rows)
    ensures st.previous == Standing(rows) && (st.sawTokenCount <==> LastWhere(rows, IsCount) >= 0)
  {
  }

  lemma {:induction false} ChargedIsCounted(rows: seq<Row>)
    requires Charges(rows) != []
    ensures LastWhere(rows, IsCount) >= 0
  {
    hide GrowthOver, Brings;
    var before, row := rows[..|rows| - 1], rows[|rows| - 1];
    if !row.TokenCount? { ChargedIsCounted(before); }
  }

  /** Some model is named exactly when there is a charge. */
  lemma SomeModel(m: ModelTable, cs: seq<Charge>)
    requires ModelsShow(m, cs)
    ensures m == map[] <==> cs == []
  {
    if cs != [] {
      var c := cs[|cs| - 1];
      assert Select(cs, ForModel(c.model)) != [];
      assert c.model in m;
    } else {
      forall model
        ensures model !in m
      {
        assert Select(cs, ForModel(model)) == [];
      }
    }
  }

  /** The rollout is read to its end exactly when no snapshot is impossible. */
  lemma {:induction false} ReadableExactly(rows: seq<Row>)
    ensures Collected(rows).Some? <==> Readable(rows)
    decreases |rows|
  {
    hide Shows, Remembers, GrowthOver, Possible, Delta, Inconsistent, NothingNew, Counted, Observe;
    if rows != [] {
      var before, row := rows[..|rows| - 1], rows[|rows| - 1];
      ReadableExactly(before);
      if Collected(before).Some? && row.TokenCount? {
        Attributed(before);
        StandsWhere(Collected(before).value, before);
        GrowthIsDelta(Standing(before), row.totals);
      }
    }
  }

  /** Usage is observed exactly for a readable rollout with a charge. */
  lemma ObservedExactly(rows: seq<Row>)
    ensures Report(Collected(rows)).Observed? <==> Readable(rows) && Charges(rows) != []
    ensures Report(Collected(rows)) == Unavailable(LogUnreadable) <==> !Readable(rows)
  {
    hide Shows, Remembers;
    ReadableExactly(rows);
    if Collected(rows).Some? {
      Attributed(rows);
      var st := Collected(rows).value;
      StandsWhere(st, rows);
      ShowsModels(st, rows);
      SomeModel(st.perModel, Charges(rows));
      if Charges(rows) != [] { ChargedIsCounted(rows); }
    }
  }
}
