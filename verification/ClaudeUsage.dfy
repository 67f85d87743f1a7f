/** Claude usage: rows of one response are grouped, the row with the largest output is kept, and the kept rows are
    added up for all groups and for the main session. */
module ClaudeUsage {
  import opened Ordering
  import opened JsStrings
  import opened Wrappers
  import opened TokenAccounting

  /** A usage object; `breakdown` splits cacheCreation into 5m and 1h parts. */
  datatype RawUsage = RawUsage(input: nat, output: nat, cacheCreation: nat, cacheRead: nat, breakdown: Option<(nat, nat)>)
  datatype Iteration = Iteration(isMessage: bool, model: Option<JsString>, usage: RawUsage)

  datatype Message = Message(
    model: Option<JsString>,
    advisorModel: Option<JsString>,
    iterations: seq<Option<Iteration>>,
    top: RawUsage,
    thinking: Option<nat>)

  datatype Response = Response(entries: seq<Entry>, totals: Four, latestMessageInput: nat, contextModel: Option<JsString>)

  // ---- one response ----

  /** The 1h part counts only when the parts add up. */
  function OneHour(u: RawUsage): nat {
    if u.breakdown.Some? && u.breakdown.value.0 + u.breakdown.value.1 == u.cacheCreation then u.breakdown.value.1 else 0
  }

  function ClaudeTokens(u: RawUsage): Tokens {
    Tokens(Four(u.input, u.output, u.cacheCreation, u.cacheRead), None, Some(OneHour(u)))
  }

  function Or<T>(a: Option<T>, b: Option<T>): Option<T> { if a.Some? then a else b }

  function MessageModel(m: Message): JsString { if m.model.Some? then m.model.value else Ascii("unknown") }

  /** The model an iteration is billed to. */
  function BilledModel(m: Message, it: Iteration): JsString {
    if it.isMessage then MessageModel(m) else Or(Or(m.advisorModel, it.model), Some(MessageModel(m))).value
  }

  function Present(its: seq<Option<Iteration>>): seq<Iteration> {
    if its == [] then []
    else
      var rest, last := Present(its[..|its| - 1]), its[|its| - 1];
      if last.None? then rest else rest + [last.value]
  }

  function Billed(m: Message, its: seq<Iteration>): (es: seq<Entry>)
    ensures |es| == |its|
  {
    seq(|its|, i requires 0 <= i < |its| => Entry(BilledModel(m, its[i]), ClaudeTokens(its[i].usage)))
  }

  function Total(es: seq<Entry>): Four {
    if es == [] then ZERO else Plus(Total(es[..|es| - 1]), es[|es| - 1].tokens.four)
  }

  /** The position of the last message iteration. */
  function LastMessage(its: seq<Iteration>): (r: Option<nat>)
    ensures r.Some? ==> r.value < |its| && its[r.value].isMessage && forall i :: r.value < i < |its| ==> !its[i].isMessage
    ensures r.None? ==> forall i :: 0 <= i < |its| ==> !its[i].isMessage
  {
    if its == [] then None
    else if its[|its| - 1].isMessage then Some(|its| - 1)
    else LastMessage(its[..|its| - 1])
  }

  function WithThinking(es: seq<Entry>, index: Option<nat>, thinking: Option<nat>): seq<Entry>
    requires index.Some? ==> index.value < |es|
  {
    if index.None? || thinking.None? then es
    else es[index.value := Entry(es[index.value].model, es[index.value].tokens.(reasoning := thinking))]
  }

  /** extractClaudeResponseUsage: all iterations are billed, the last message iteration is the context; the top-level
      usage stands in for iterations that carry nothing. */
  function Extracted(m: Message): Response {
    var its := Present(m.iterations);
    var billed, last := Billed(m, its), LastMessage(its);
    var fallback := IsZeroTokens(Total(billed));
    var entries := if fallback then [Entry(MessageModel(m), ClaudeTokens(m.top))] else billed;
    var context := if last.None? then 0 else InputSideTotal(ClaudeTokens(its[last.value].usage).four);
    Response(
      WithThinking(entries, if fallback then Some(0) else last, m.thinking),
      if fallback then ClaudeTokens(m.top).four else Total(billed),
      if context == 0 then InputSideTotal(ClaudeTokens(m.top).four) else context,
      if last.None? then m.model else Or(its[last.value].model, m.model))
  }

  method ExtractClaudeResponseUsage(m: Message) returns (r: Response)
    ensures r == Extracted(m)
  {
    hide ClaudeTokens, BilledModel;
    var entries: seq<Entry> := [];
    var totals := ZERO;
    var latestMessageInput := 0;
    var latestMessageModel: Option<JsString> := None;
    var messageEntryIndex: Option<nat> := None;
    var sawMessageIteration := false;
    for i := 0 to |m.iterations|
      invariant entries == Billed(m, Present(m.iterations[..i])) && totals == Total(entries)
      invariant messageEntryIndex == LastMessage(Present(m.iterations[..i])) && (sawMessageIteration <==> messageEntryIndex.Some?)
      invariant latestMessageInput == (if messageEntryIndex.None? then 0
        else InputSideTotal(ClaudeTokens(Present(m.iterations[..i])[messageEntryIndex.value].usage).four))
      invariant messageEntryIndex.Some? ==>
        latestMessageModel == Or(Present(m.iterations[..i])[messageEntryIndex.value].model, m.model)
    {
      ghost var before := Present(m.iterations[..i]);
      assert m.iterations[..i + 1][..i] == m.iterations[..i];
      if m.iterations[i].None? { continue; }
      var iteration := m.iterations[i].value;
      assert (before + [iteration])[..|before|] == before;
      var tokens := ClaudeTokens(iteration.usage);
      if iteration.isMessage {
        sawMessageIteration := true;
        latestMessageInput := InputSideTotal(tokens.four);
        latestMessageModel := Or(iteration.model, m.model);
        messageEntryIndex := Some(|entries|);
      }
      var entry := Entry(BilledModel(m, iteration), tokens);
      assert (entries + [entry])[..|entries|] == entries;
      entries := entries + [entry];
      totals := Plus(totals, tokens.four);
    }
    assert m.iterations[..|m.iterations|] == m.iterations;
    if IsZeroTokens(totals) {
      entries := [Entry(MessageModel(m), ClaudeTokens(m.top))];
      totals := ClaudeTokens(m.top).four;
      messageEntryIndex := Some(0);
    }
    if m.thinking.Some? && messageEntryIndex.Some? {
      var k := messageEntryIndex.value;
      entries := entries[k := Entry(entries[k].model, entries[k].tokens.(reasoning := m.thinking))];
    }
    r := Response(entries, totals,
      if latestMessageInput == 0 then InputSideTotal(ClaudeTokens(m.top).four) else latestMessageInput,
      if sawMessageIteration then latestMessageModel else m.model);
  }

  lemma {:induction false} ThinkingKeepsTotal(es: seq<Entry>, k: nat, thinking: Option<nat>)
    requires k < |es|
    ensures Total(WithThinking(es, Some(k), thinking)) == Total(es)
    decreases |es|
  {
    var es' := WithThinking(es, Some(k), thinking);
    var n := |es| - 1;
    if k < n {
      ThinkingKeepsTotal(es[..n], k, thinking);
      assert es'[..n] == WithThinking(es[..n], Some(k), thinking);
    } else {
      assert es'[..n] == es[..n];
    }
  }

  lemma OneEntryTotal(e: Entry)
    ensures Total([e]) == e.tokens.four
  {
    assert [e][..0] == [];
  }

  /** What a response bills to its models is its totals, with or without the top-level fallback. */
  lemma EntriesSumToTotals(m: Message)
    ensures Total(Extracted(m).entries) == Extracted(m).totals
  {
    hide ClaudeTokens, Billed, Total, WithThinking, MessageModel;
    var its := Present(m.iterations);
    var billed := Billed(m, its);
    var fallback := IsZeroTokens(Total(billed));
    var top := Entry(MessageModel(m), ClaudeTokens(m.top));
    var entries := if fallback then [top] else billed;
    var index := if fallback then Some(0) else LastMessage(its);
    OneEntryTotal(top);
    if index.Some? { ThinkingKeepsTotal(entries, index.value, m.thinking); } else { NoThinking(entries, m.thinking); }
  }

  lemma NoThinking(es: seq<Entry>, thinking: Option<nat>)
    ensures WithThinking(es, None, thinking) == es
  {
  }

  // ---- groups ----

  /** An assistant row with usage. */
  datatype Row = Row(
    requestId: Option<JsString>,
    messageId: Option<JsString>,
    uuid: Option<JsString>,
    timestampMs: Option<int>,
    message: Message,
    effort: Option<Effort>,
    sidechain: bool)

  /** A row and whether it is the parent session's own. */
  datatype Tagged = Tagged(row: Row, main: bool)

  datatype Group = Group(usage: Response, effort: Option<Effort>, main: bool, timestampMs: Option<int>, order: nat)

  /** A Map with its keys in insertion order. */
  datatype Groups = Groups(keys: seq<JsString>, table: map<JsString, Group>, span: TimeSpan)

  const COLON: CodeUnit := 0x3A

  function DedupKey(row: Row): Option<JsString> {
    var key := Or(Or(row.requestId, row.messageId), row.uuid);
    if key.None? then None else Some(key.value + [COLON] + (if row.messageId.Some? then row.messageId.value else []))
  }

  function NewGroup(t: Tagged, order: nat): Group {
    Group(Extracted(t.row.message), t.row.effort, t.main, t.row.timestampMs, order)
  }

  /** A later row of a group replaces the kept one when its output is larger. */
  function Merged(g: Group, t: Tagged): Group {
    var usage := Extracted(t.row.message);
    var kept := if usage.totals.output > g.usage.totals.output
                then g.(usage := usage, effort := t.row.effort, timestampMs := Or(t.row.timestampMs, g.timestampMs))
                else g;
    kept.(main := g.main || t.main)
  }

  function AddRow(gs: Groups, t: Tagged): Groups {
    var key := DedupKey(t.row);
    if key.None? then gs
    else
      var span := Observe(gs.span, t.row.timestampMs);
      if key.value in gs.table
      then Groups(gs.keys, gs.table[key.value := Merged(gs.table[key.value], t)], span)
      else Groups(gs.keys + [key.value], gs.table[key.value := NewGroup(t, |gs.keys|)], span)
  }

  const NO_GROUPS: Groups := Groups([], map[], TimeSpan(None, None))

  function Grouped(ts: seq<Tagged>): Groups {
    if ts == [] then NO_GROUPS else AddRow(Grouped(ts[..|ts| - 1]), ts[|ts| - 1])
  }

  // ---- the kept row is the first with the largest output ----

  function RowsOf(ts: seq<Tagged>, key: JsString): seq<Tagged> {
    if ts == [] then []
    else
      var t := ts[|ts| - 1];
      RowsOf(ts[..|ts| - 1], key) + (if DedupKey(t.row) == Some(key) then [t] else [])
  }

  function Output(t: Tagged): nat { Extracted(t.row.message).totals.output }

  predicate FirstLargest(rs: seq<Tagged>, b: nat) {
    b < |rs| && (forall i :: 0 <= i < |rs| ==> Output(rs[i]) <= Output(rs[b]))
    && forall i :: 0 <= i < b ==> Output(rs[i]) < Output(rs[b])
  }

  predicate HasMain(rs: seq<Tagged>) { exists i :: 0 <= i < |rs| && rs[i].main }

  predicate KeptAt(g: Group, rs: seq<Tagged>, b: nat) {
    FirstLargest(rs, b) && g.usage == Extracted(rs[b].row.message) && g.effort == rs[b].row.effort
  }

  /** A group shows the first row with the largest output, and is the main session's if one of its rows is. */
  ghost predicate ShowsRows(g: Group, rs: seq<Tagged>) {
    (exists b: nat :: KeptAt(g, rs, b)) && (g.main <==> HasMain(rs))
  }

  lemma MainGrows(rs: seq<Tagged>, t: Tagged)
    ensures HasMain(rs + [t]) <==> HasMain(rs) || t.main
  {
    if HasMain(rs) {
      var i :| 0 <= i < |rs| && rs[i].main;
      assert (rs + [t])[i].main;
    }
    if t.main { assert (rs + [t])[|rs|].main; }
  }

  lemma LargestGrows(rs: seq<Tagged>, t: Tagged, b: nat)
    requires FirstLargest(rs, b)
    ensures if Output(t) > Output(rs[b]) then FirstLargest(rs + [t], |rs|) else FirstLargest(rs + [t], b)
  {
    hide Output;
  }

  lemma MergeShows(g: Group, rs: seq<Tagged>, t: Tagged)
    requires ShowsRows(g, rs)
    ensures ShowsRows(Merged(g, t), rs + [t])
  {
    hide Extracted, FirstLargest, HasMain;
    var b: nat :| KeptAt(g, rs, b);
    LargestInside(rs, b);
    LargestGrows(rs, t, b);
    MainGrows(rs, t);
    assert KeptAt(Merged(g, t), rs + [t], if Output(t) > Output(rs[b]) then |rs| else b);
  }

  lemma LargestInside(rs: seq<Tagged>, b: nat)
    requires FirstLargest(rs, b)
    ensures b < |rs|
  {
  }

  /** For every key the group shows exactly the rows with that key, in whatever company they came. */
  lemma {:induction false} KeptIsFirstLargest(ts: seq<Tagged>, key: JsString)
    ensures key in Grouped(ts).table <==> RowsOf(ts, key) != []
    ensures key in Grouped(ts).table ==> ShowsRows(Grouped(ts).table[key], RowsOf(ts, key))
    decreases |ts|
  {
    hide Extracted, ShowsRows;
    if ts != [] {
      var init, t := ts[..|ts| - 1], ts[|ts| - 1];
      KeptIsFirstLargest(init, key);
      if DedupKey(t.row) == Some(key) {
        if key in Grouped(init).table { MergeShows(Grouped(init).table[key], RowsOf(init, key), t); }
        else {
          NewShows(t, |Grouped(init).keys|);
          assert RowsOf(ts, key) == [t];
        }
      } else {
        assert RowsOf(ts, key) == RowsOf(init, key);
      }
    }
  }

  lemma NewShows(t: Tagged, order: nat)
    ensures ShowsRows(NewGroup(t, order), [t])
    ensures [] + [t] == [t]
  {
    assert KeptAt(NewGroup(t, order), [t], 0);
    assert [t][0].main == t.main;
  }

  ghost predicate KeysFit(gs: Groups) {
    && (forall i, j :: 0 <= i < j < |gs.keys| ==> gs.keys[i] != gs.keys[j])
    && (forall k :: k in gs.table <==> k in gs.keys)
    && (forall i :: 0 <= i < |gs.keys| ==> gs.table[gs.keys[i]].order == i)
  }

  /** Keys are listed once, and a group's order is its place in the list. */
  lemma {:induction false} GroupedKeysFit(ts: seq<Tagged>)
    ensures KeysFit(Grouped(ts))
    decreases |ts|
  {
    hide Extracted;
    if ts != [] { GroupedKeysFit(ts[..|ts| - 1]); }
  }

  // ---- adding up the groups ----

  /** The entries of a response that carry tokens, when the response does. */
  function Spending(es: seq<Entry>): seq<Entry> {
    if es == [] then []
    else
      var e := es[|es| - 1];
      Spending(es[..|es| - 1]) + (if IsZeroTokens(e.tokens.four) then [] else [e])
  }

  predicate Billable(g: Group) { !IsZeroTokens(g.usage.totals) }

  function EntriesOf(g: Group): seq<Entry> { if Billable(g) then Spending(g.usage.entries) else [] }

  function Contributions(gs: seq<Group>): seq<Entry> {
    if gs == [] then [] else Contributions(gs[..|gs| - 1]) + EntriesOf(gs[|gs| - 1])
  }

  function CountBillable(gs: seq<Group>): nat {
    if gs == [] then 0 else CountBillable(gs[..|gs| - 1]) + (if Billable(gs[|gs| - 1]) then 1 else 0)
  }

  /** groups.values() in insertion order. */
  function Values(gs: Groups): seq<Group> {
    seq(|gs.keys|, i requires 0 <= i < |gs.keys| => if gs.keys[i] in gs.table then gs.table[gs.keys[i]] else EMPTY)
  }

  const EMPTY: Group := Group(Response([], ZERO, 0, None), None, false, None, 0)

  // ---- spending on a model forgets the order ----

  function JoinTokens(a: Option<Tokens>, b: Option<Tokens>): Option<Tokens> {
    if a.None? then b else if b.None? then a else Some(Accumulate(a.value, b.value))
  }

  lemma JoinCommutes(a: Option<Tokens>, b: Option<Tokens>, c: Option<Tokens>)
    ensures JoinTokens(a, b) == JoinTokens(b, a)
    ensures JoinTokens(JoinTokens(a, b), c) == JoinTokens(a, JoinTokens(b, c))
  {
  }

  function One(e: Entry, model: JsString): Option<Tokens> { if e.model == model then Some(e.tokens) else None }

  lemma SpentLast(es: seq<Entry>, e: Entry, model: JsString)
    ensures SpentOn(es + [e], model) == JoinTokens(SpentOn(es, model), One(e, model))
  {
    assert (es + [e])[..|es|] == es;
  }

  lemma {:induction false} SpentAppend(a: seq<Entry>, b: seq<Entry>, model: JsString)
    ensures SpentOn(a + b, model) == JoinTokens(SpentOn(a, model), SpentOn(b, model))
    decreases |b|
  {
    hide SpentOn, JoinTokens, One;
    if b == [] {
      assert a + b == a;
      SpentNothing(SpentOn(a, model), model);
    } else {
      var init, e := b[..|b| - 1], b[|b| - 1];
      SpentAppend(a, init, model);
      assert a + b == (a + init) + [e] && b == init + [e];
      SpentLast(a + init, e, model);
      SpentLast(init, e, model);
      JoinCommutes(SpentOn(a, model), SpentOn(init, model), One(e, model));
    }
  }

  lemma SpentNothing(a: Option<Tokens>, model: JsString)
    ensures JoinTokens(a, SpentOn([], model)) == a
  {
  }

  lemma SpentMoved(p: seq<Entry>, e: Entry, q: seq<Entry>, model: JsString)
    ensures SpentOn(p + [e] + q, model) == JoinTokens(SpentOn(p + q, model), One(e, model))
  {
    hide SpentOn, JoinTokens, One;
    SpentAppend(p, q, model);
    SpentAppend(p + [e], q, model);
    SpentLast(p, e, model);
    JoinCommutes(SpentOn(p, model), One(e, model), SpentOn(q, model));
    JoinCommutes(SpentOn(p, model), SpentOn(q, model), One(e, model));
    JoinCommutes(One(e, model), SpentOn(q, model), None);
  }

  lemma TakeOut(a: seq<Entry>, b: seq<Entry>) returns (j: nat)
    requires multiset(a) == multiset(b) && a != []
    ensures j < |b| && b[j] == a[|a| - 1] && multiset(a[..|a| - 1]) == multiset(b[..j] + b[j + 1..])
  {
    var init, e := a[..|a| - 1], a[|a| - 1];
    assert a == init + [e];
    assert e in multiset(b);
    j :| 0 <= j < |b| && b[j] == e;
    RemoveOne(b, j);
  }

  lemma {:induction false} SpentForgets(a: seq<Entry>, b: seq<Entry>, model: JsString)
    requires multiset(a) == multiset(b)
    ensures SpentOn(a, model) == SpentOn(b, model)
    decreases |a|
  {
    hide SpentOn, JoinTokens, One;
    SameMembers(a, b);
    if a != [] {
      var j := TakeOut(a, b);
      var init, e, p, q := a[..|a| - 1], a[|a| - 1], b[..j], b[j + 1..];
      SpentForgets(init, p + q, model);
      assert a == init + [e] && b == p + [e] + q;
      SpentLast(init, e, model);
      SpentMoved(p, e, q, model);
    } else {
      assert b == a;
    }
  }

  /** Permuted entries make the same table. */
  lemma ModelsForget(a: seq<Entry>, b: seq<Entry>)
    requires multiset(a) == multiset(b)
    ensures AddModels(map[], a) == AddModels(map[], b)
  {
    hide AddModels, SpentOn;
    forall model ensures model in AddModels(map[], a) <==> model in AddModels(map[], b)
      ensures model in AddModels(map[], a) && model in AddModels(map[], b) ==> AddModels(map[], a)[model] == AddModels(map[], b)[model]
    {
      ModelsHoldSpent(a, model);
      ModelsHoldSpent(b, model);
      SpentForgets(a, b, model);
    }
  }

  lemma {:induction false} ContributionsAppend(a: seq<Group>, b: seq<Group>)
    ensures Contributions(a + b) == Contributions(a) + Contributions(b)
    ensures CountBillable(a + b) == CountBillable(a) + CountBillable(b)
    decreases |b|
  {
    hide EntriesOf, Billable;
    if b == [] {
      assert a + b == a;
    } else {
      var init := b[..|b| - 1];
      ContributionsAppend(a, init);
      assert (a + b)[..|a + b| - 1] == a + init;
      assert Contributions(a) + Contributions(init) + EntriesOf(b[|b| - 1]) == Contributions(a) + Contributions(b);
    }
  }

  lemma ContributionsOne(g: Group)
    ensures Contributions([g]) == EntriesOf(g) && CountBillable([g]) == if Billable(g) then 1 else 0
  {
    assert [g][..0] == [];
  }

  /** What a group contributes, without its place. */
  function Content(g: Group): Group { g.(order := 0, timestampMs := None) }

  lemma GroupTaken(gs: seq<Group>, j: nat)
    requires j < |gs|
    ensures var rest := gs[..j] + gs[j + 1..];
            && multiset(Contributions(gs)) == multiset(Contributions(rest)) + multiset(EntriesOf(gs[j]))
            && CountBillable(gs) == CountBillable(rest) + if Billable(gs[j]) then 1 else 0
  {
    hide Contributions, CountBillable, EntriesOf, Billable;
    var p, q := gs[..j], gs[j + 1..];
    assert gs == p + ([gs[j]] + q);
    ContributionsAppend(p, [gs[j]] + q);
    ContributionsAppend([gs[j]], q);
    ContributionsAppend(p, q);
    ContributionsOne(gs[j]);
  }

  lemma ImagesTaken(a: seq<Group>, b: seq<Group>) returns (j: nat)
    requires multiset(MapSeq(Content, a)) == multiset(MapSeq(Content, b)) && a != []
    ensures j < |b| && Content(a[0]) == Content(b[j])
    ensures multiset(MapSeq(Content, a[..0] + a[1..])) == multiset(MapSeq(Content, b[..j] + b[j + 1..]))
  {
    hide MapSeq, Content;
    SameImageHead(a);
    j := FindImage(b, Content, MapSeq(Content, a), 0);
    RemoveMapped(Content, a, 0);
    RemoveMapped(Content, b, j);
  }

  lemma {:induction false} ContributionsForget(a: seq<Group>, b: seq<Group>)
    requires multiset(MapSeq(Content, a)) == multiset(MapSeq(Content, b))
    ensures multiset(Contributions(a)) == multiset(Contributions(b)) && CountBillable(a) == CountBillable(b)
    decreases |a|
  {
    hide Contributions, CountBillable, EntriesOf, Billable, MapSeq, Content;
    SameImageSize(a, b, Content);
    if a == [] {
      assert b == a;
    } else {
      var j := ImagesTaken(a, b);
      ContributionsForget(a[..0] + a[1..], b[..j] + b[j + 1..]);
      GroupTaken(a, 0);
      GroupTaken(b, j);
      SameContent(a[0], b[j]);
    }
  }

  lemma SameImageHead(a: seq<Group>)
    requires a != []
    ensures |MapSeq(Content, a)| == |a| && MapSeq(Content, a)[0] == Content(a[0])
  {
  }

  lemma SameContent(a: Group, b: Group)
    requires Content(a) == Content(b)
    ensures EntriesOf(a) == EntriesOf(b) && (Billable(a) <==> Billable(b))
  {
  }

  /** The rows of each response come in the same order; the responses may interleave differently. */
  ghost predicate SameResponses(a: seq<Tagged>, b: seq<Tagged>) {
    forall key :: RowsOf(a, key) == RowsOf(b, key)
  }

  lemma FirstLargestUnique(rs: seq<Tagged>, b: nat, c: nat)
    requires FirstLargest(rs, b) && FirstLargest(rs, c)
    ensures b == c
  {
    hide Output;
    assert Output(rs[c]) <= Output(rs[b]) <= Output(rs[c]);
  }

  lemma ShowsSame(g: Group, h: Group, rs: seq<Tagged>)
    requires ShowsRows(g, rs) && ShowsRows(h, rs)
    ensures Content(g) == Content(h)
  {
    hide Extracted, Output, FirstLargest;
    var b: nat, c: nat :| KeptAt(g, rs, b) && KeptAt(h, rs, c);
    FirstLargestUnique(rs, b, c);
  }

  lemma {:induction false} DistinctMultiset(s: seq<JsString>)
    requires forall i, j :: 0 <= i < j < |s| ==> s[i] != s[j]
    ensures multiset(s) == multiset(set x | x in s)
    decreases |s|
  {
    if s != [] {
      var init, last := s[..|s| - 1], s[|s| - 1];
      DistinctMultiset(init);
      assert s == init + [last];
      assert (set x | x in s) == (set x | x in init) + {last};
    }
  }

  function ContentAt(gs: Groups): JsString -> Group { k => if k in gs.table then Content(gs.table[k]) else EMPTY }

  lemma ValuesByKey(gs: Groups)
    requires KeysFit(gs)
    ensures MapSeq(Content, Values(gs)) == MapSeq(ContentAt(gs), gs.keys)
  {
    forall i | 0 <= i < |gs.keys| ensures gs.keys[i] in gs.table { assert gs.keys[i] in gs.keys; }
  }

  lemma SameKeys(a: Groups, b: Groups)
    requires KeysFit(a) && KeysFit(b) && forall k :: k in a.table <==> k in b.table
    ensures multiset(a.keys) == multiset(b.keys)
  {
    DistinctMultiset(a.keys);
    DistinctMultiset(b.keys);
    assert (set x | x in a.keys) == (set x | x in b.keys);
  }

  /** How responses interleave changes neither the tokens of a model nor the number of turns. */
  lemma InterleavingFree(a: seq<Tagged>, b: seq<Tagged>)
    requires SameResponses(a, b)
    ensures var x, y := Values(Grouped(a)), Values(Grouped(b));
            AddModels(map[], Contributions(x)) == AddModels(map[], Contributions(y)) && CountBillable(x) == CountBillable(y)
  {
    hide RowsOf, ShowsRows, AddModels, Contributions, CountBillable, Values, KeysFit, Content;
    var x, y := Grouped(a), Grouped(b);
    GroupedKeysFit(a);
    GroupedKeysFit(b);
    forall key ensures key in x.table <==> key in y.table
      ensures ContentAt(x)(key) == ContentAt(y)(key)
    {
      KeptIsFirstLargest(a, key);
      KeptIsFirstLargest(b, key);
      assert RowsOf(a, key) == RowsOf(b, key);
      if key in x.table && key in y.table { ShowsSame(x.table[key], y.table[key], RowsOf(a, key)); }
    }
    SameKeys(x, y);
    ValuesByKey(x);
    ValuesByKey(y);
    var same := (k: JsString) => k;
    assert MapSeq(same, x.keys) == x.keys && MapSeq(same, y.keys) == y.keys;
    MapForgets(x.keys, y.keys, same, ContentAt(x));
    assert MapSeq(ContentAt(x), y.keys) == MapSeq(ContentAt(y), y.keys);
    ContributionsForget(Values(x), Values(y));
    ModelsForget(Contributions(Values(x)), Contributions(Values(y)));
  }

  // ---- the main session ----

  /** timestamps decide when both are there and differ, otherwise the order of first appearance. */
  predicate IsLater(candidate: Group, current: Group) {
    if candidate.timestampMs.Some? && current.timestampMs.Some? && candidate.timestampMs != current.timestampMs
    then candidate.timestampMs.value > current.timestampMs.value
    else candidate.order > current.order
  }

  datatype Turn = Turn(
    model: Option<JsString>,
    effort: Option<Effort>,
    contextTokens: nat,
    totals: Four,
    oneHour: Option<nat>,
    reasoning: Option<nat>,
    timestampMs: Option<int>)

  datatype MainSession = MainSession(
    turns: nat,
    inputTokens: nat,
    latest: Option<Group>,
    span: TimeSpan,
    perModel: ModelTable,
    perExecution: ExecutionTable,
    turnSeries: seq<Turn>)

  const NO_SESSION: MainSession := MainSession(0, 0, None, TimeSpan(None, None), map[], map[], [])

  /** sumObserved of the two optional parts. */
  function SumOneHour(es: seq<Entry>): Option<nat> {
    if es == [] then None else AddOptional(SumOneHour(es[..|es| - 1]), es[|es| - 1].tokens.oneHour)
  }

  function SumReasoning(es: seq<Entry>): Option<nat> {
    if es == [] then None else AddOptional(SumReasoning(es[..|es| - 1]), es[|es| - 1].tokens.reasoning)
  }

  function TurnOf(g: Group): Turn {
    Turn(g.usage.contextModel, g.effort, g.usage.latestMessageInput, g.usage.totals, SumOneHour(g.usage.entries),
         SumReasoning(g.usage.entries), g.timestampMs)
  }

  function AddGroup(s: MainSession, g: Group): MainSession {
    MainSession(s.turns + 1, s.inputTokens + InputSideTotal(g.usage.totals),
      if s.latest.None? || IsLater(g, s.latest.value) then Some(g) else s.latest,
      Observe(s.span, g.timestampMs), AddModels(s.perModel, Spending(g.usage.entries)),
      WithTurn(s.perExecution, Claude, g.effort, g.usage.entries), s.turnSeries + [TurnOf(g)])
  }

  function Session(gs: seq<Group>): MainSession {
    if gs == [] then NO_SESSION else AddGroup(Session(gs[..|gs| - 1]), gs[|gs| - 1])
  }

  predicate MainTurn(g: Group) { g.main && Billable(g) }

  function MainGroups(gs: seq<Group>): seq<Group> {
    if gs == [] then []
    else
      var g := gs[|gs| - 1];
      MainGroups(gs[..|gs| - 1]) + (if MainTurn(g) then [g] else [])
  }

  datatype Reason = LogUnreadable | NoUsageRecords
  datatype Observation =
    | Unavailable(reason: Reason)
    | Observed(perModel: ModelTable, turns: nat, durationMs: Option<int>, mainSession: Option<MainSession>)

  function Report(gs: Groups): Observation {
    var values := Values(gs);
    if CountBillable(values) == 0 then Unavailable(NoUsageRecords)
    else
      var main := MainGroups(values);
      Observed(AddModels(map[], Contributions(values)), CountBillable(values), DurationMs(gs.span),
               if main == [] then None else Some(Session(main)))
  }

  // ---- the collector ----

  datatype File = TooLarge | Missing | Readable(rows: seq<Row>)

  function TagRows(rows: seq<Row>, parent: bool): seq<Tagged> {
    seq(|rows|, i requires 0 <= i < |rows| => Tagged(rows[i], parent && !rows[i].sidechain))
  }

  /** The rows of all readable files; the first file is the parent session's. */
  function AllRows(files: seq<File>): seq<Tagged> {
    if files == [] then []
    else
      var f := files[|files| - 1];
      AllRows(files[..|files| - 1]) + (if f.Readable? then TagRows(f.rows, |files| == 1) else [])
  }

  lemma GroupedNext(ts: seq<Tagged>, t: Tagged)
    ensures Grouped(ts + [t]) == AddRow(Grouped(ts), t)
  {
    assert (ts + [t])[..|ts|] == ts;
  }

  /** Reads the rows of one file into the groups. */
  method ReadRows(rows: seq<Row>, parent: bool, start: Groups, ghost before: seq<Tagged>) returns (groups: Groups)
    requires start == Grouped(before)
    ensures groups == Grouped(before + TagRows(rows, parent))
  {
    hide Extracted, Grouped;
    groups := start;
    assert before + TagRows(rows, parent)[..0] == before;
    for i := 0 to |rows|
      invariant groups == Grouped(before + TagRows(rows, parent)[..i])
    {
      var row := rows[i];
      var main := parent && !row.sidechain;
      ghost var done := before + TagRows(rows, parent)[..i];
      assert before + TagRows(rows, parent)[..i + 1] == done + [Tagged(row, main)];
      GroupedNext(done, Tagged(row, main));
      var dedupKey := DedupKey(row);
      if dedupKey.None? { continue; }
      var span := Observe(groups.span, row.timestampMs);
      var extracted := ExtractClaudeResponseUsage(row.message);
      if dedupKey.value !in groups.table {
        groups := Groups(groups.keys + [dedupKey.value],
          groups.table[dedupKey.value := Group(extracted, row.effort, main, row.timestampMs, |groups.keys|)], span);
        continue;
      }
      var existing := groups.table[dedupKey.value];
      if extracted.totals.output > existing.usage.totals.output {
        existing := existing.(usage := extracted, effort := row.effort, timestampMs := Or(row.timestampMs, existing.timestampMs));
      }
      existing := existing.(main := existing.main || main);
      groups := groups.(table := groups.table[dedupKey.value := existing], span := span);
    }
    assert TagRows(rows, parent)[..|rows|] == TagRows(rows, parent);
  }

  lemma {:induction false} AddModelsAppend(m: ModelTable, a: seq<Entry>, b: seq<Entry>)
    ensures AddModels(m, a + b) == AddModels(AddModels(m, a), b)
    decreases |b|
  {
    if b == [] {
      assert a + b == a;
    } else {
      var init := b[..|b| - 1];
      AddModelsAppend(m, a, init);
      assert (a + b)[..|a + b| - 1] == a + init;
    }
  }

  lemma SpendingNext(es: seq<Entry>, i: nat, m: ModelTable)
    requires i < |es|
    ensures AddModels(m, Spending(es[..i + 1]))
         == if IsZeroTokens(es[i].tokens.four) then AddModels(m, Spending(es[..i])) else AddModel(AddModels(m, Spending(es[..i])), es[i])
  {
    assert es[..i + 1][..i] == es[..i];
    var done := Spending(es[..i]);
    assert (done + [es[i]])[..|done|] == done;
    assert done + [] == done;
  }

  lemma MainGroupsNext(gs: seq<Group>, i: nat)
    requires i < |gs|
    ensures MainGroups(gs[..i + 1]) == MainGroups(gs[..i]) + (if MainTurn(gs[i]) then [gs[i]] else [])
    ensures MainTurn(gs[i]) ==> Session(MainGroups(gs[..i + 1])) == AddGroup(Session(MainGroups(gs[..i])), gs[i])
    ensures !MainTurn(gs[i]) ==> MainGroups(gs[..i + 1]) == MainGroups(gs[..i])
  {
    hide AddGroup, MainTurn;
    assert gs[..i + 1][..i] == gs[..i];
    var done := MainGroups(gs[..i]);
    assert (done + [gs[i]])[..|done|] == done;
  }

  lemma AllRowsNext(files: seq<File>, i: nat)
    requires i < |files|
    ensures AllRows(files[..i + 1]) == AllRows(files[..i]) + (if files[i].Readable? then TagRows(files[i].rows, i == 0) else [])
    ensures !files[i].Readable? ==> AllRows(files[..i + 1]) == AllRows(files[..i])
    ensures TooLarge in files[..i + 1] <==> TooLarge in files[..i] || files[i] == TooLarge
  {
    hide TagRows;
    assert files[..i + 1][..i] == files[..i];
    assert files[..i + 1] == files[..i] + [files[i]];
  }

  lemma ContributionsNext(gs: seq<Group>, i: nat)
    requires i < |gs|
    ensures AddModels(map[], Contributions(gs[..i + 1]))
         == if Billable(gs[i]) then AddModels(AddModels(map[], Contributions(gs[..i])), Spending(gs[i].usage.entries))
            else AddModels(map[], Contributions(gs[..i]))
    ensures CountBillable(gs[..i + 1]) == CountBillable(gs[..i]) + if Billable(gs[i]) then 1 else 0
  {
    hide AddModels, Billable, Spending;
    assert gs[..i + 1][..i] == gs[..i];
    AddModelsAppend(map[], Contributions(gs[..i]), Spending(gs[i].usage.entries));
    assert Contributions(gs[..i]) + [] == Contributions(gs[..i]);
  }

  /** Adds the entries that carry tokens. */
  method AddEntries(tokens: ModelTokenAccumulator, entries: seq<Entry>)
    modifies tokens
    ensures tokens.byModel == AddModels(old(tokens.byModel), Spending(entries))
  {
    for i := 0 to |entries|
      invariant tokens.byModel == AddModels(old(tokens.byModel), Spending(entries[..i]))
    {
      SpendingNext(entries, i, old(tokens.byModel));
      if IsZeroTokens(entries[i].tokens.four) { continue; }
      tokens.Add(entries[i].model, entries[i].tokens);
    }
    assert entries[..|entries|] == entries;
  }

  method BuildClaudeMainSession(groups: seq<Group>) returns (r: Option<MainSession>)
    ensures r == if MainGroups(groups) == [] then None else Some(Session(MainGroups(groups)))
  {
    hide MainTurn, MainGroups, Session, Spending, WithTurn, Observe, IsLater, TurnOf, AddModels;
    var tokens := new ModelTokenAccumulator();
    var executions := new ExecutionTokenAccumulator();
    var s := NO_SESSION;
    NoSession();
    for i := 0 to |groups|
      invariant fresh(tokens) && fresh(executions)
      invariant s.(perModel := tokens.byModel, perExecution := executions.byExecution) == Session(MainGroups(groups[..i]))
      invariant s.turns == |MainGroups(groups[..i])|
    {
      var group := groups[i];
      MainGroupsNext(groups, i);
      if !MainTurn(group) { continue; }
      s := s.(inputTokens := s.inputTokens + InputSideTotal(group.usage.totals), span := Observe(s.span, group.timestampMs));
      if s.latest.None? || IsLater(group, s.latest.value) { s := s.(latest := Some(group)); }
      AddEntries(tokens, group.usage.entries);
      executions.AddTurn(Claude, group.effort, group.usage.entries);
      s := s.(turns := s.turns + 1, turnSeries := s.turnSeries + [TurnOf(group)]);
    }
    assert groups[..|groups|] == groups;
    NoSession();
    if s.turns == 0 { return None; }
    return Some(s.(perModel := tokens.byModel, perExecution := executions.byExecution));
  }

  /** collectClaudeNativeUsage on the files of the session. */
  method CollectClaudeNativeUsage(files: seq<File>) returns (r: Observation)
    ensures r == if TooLarge in files then Unavailable(LogUnreadable) else Report(Grouped(AllRows(files)))
  {
    hide Grouped, TagRows, Billable, Spending, MainGroups, Session, AddModels, Contributions, CountBillable, AllRows, Values;
    var groups := NO_GROUPS;
    NothingGrouped();
    for i := 0 to |files|
      invariant groups == Grouped(AllRows(files[..i])) && TooLarge !in files[..i]
    {
      AllRowsNext(files, i);
      match files[i] {
        case TooLarge => return Unavailable(LogUnreadable);
        case Missing =>
        case Readable(rows) =>
          groups := ReadRows(rows, i == 0, groups, AllRows(files[..i]));
      }
    }
    assert files[..|files|] == files;
    var tokens := new ModelTokenAccumulator();
    var values := Values(groups);
    var turns := 0;
    assert values[..0] == [];
    for i := 0 to |values|
      invariant fresh(tokens) && tokens.byModel == AddModels(map[], Contributions(values[..i])) && turns == CountBillable(values[..i])
    {
      ContributionsNext(values, i);
      if !Billable(values[i]) { continue; }
      turns := turns + 1;
      AddEntries(tokens, values[i].usage.entries);
    }
    assert values[..|values|] == values;
    if turns == 0 { return Unavailable(NoUsageRecords); }
    var mainSession := BuildClaudeMainSession(values);
    return Observed(tokens.byModel, turns, DurationMs(groups.span), mainSession);
  }

  lemma NothingGrouped()
    ensures Grouped([]) == NO_GROUPS && AllRows([]) == [] && AddModels(map[], Contributions([])) == map[] && CountBillable([]) == 0
  {
  }

  lemma NoSession()
    ensures Session([]) == NO_SESSION && MainGroups([]) == []
  {
  }

  // ---- conservation ----

  lemma TotalLast(es: seq<Entry>, e: Entry)
    ensures Total(es + [e]) == Plus(Total(es), e.tokens.four)
    ensures Plus(Total(es), ZERO) == Total(es)
  {
    assert (es + [e])[..|es|] == es;
  }

  lemma PlusAssociates(a: Four, b: Four, c: Four)
    ensures Plus(a, Plus(b, c)) == Plus(Plus(a, b), c) && Plus(a, ZERO) == a
  {
  }

  lemma {:induction false} SpendingTotal(es: seq<Entry>)
    ensures Total(Spending(es)) == Total(es)
    decreases |es|
  {
    hide Total, Plus;
    if es != [] {
      var init, e := es[..|es| - 1], es[|es| - 1];
      SpendingTotal(init);
      assert es == init + [e];
      TotalLast(init, e);
      TotalLast(Spending(init), e);
      assert Spending(init) + [] == Spending(init);
    }
  }

  lemma {:induction false} AddModelsTotal(m: ModelTable, es: seq<Entry>)
    ensures AllModels(AddModels(m, es)) == Plus(AllModels(m), Total(es))
    decreases |es|
  {
    hide AllModels, AddModel;
    if es != [] {
      AddModelsTotal(m, es[..|es| - 1]);
      AddModelSum(AddModels(m, es[..|es| - 1]), es[|es| - 1]);
    }
  }

  function GroupsTotal(gs: seq<Group>): Four {
    if gs == [] then ZERO else Plus(GroupsTotal(gs[..|gs| - 1]), gs[|gs| - 1].usage.totals)
  }

  predicate Consistent(gs: seq<Group>) {
    forall i :: 0 <= i < |gs| ==> Total(gs[i].usage.entries) == gs[i].usage.totals
  }

  lemma {:induction false} TotalAppend(a: seq<Entry>, b: seq<Entry>)
    ensures Total(a + b) == Plus(Total(a), Total(b))
    decreases |b|
  {
    hide Total, Plus;
    if b == [] {
      assert a + b == a;
      NothingTotal();
      PlusAssociates(Total(a), ZERO, ZERO);
    } else {
      var init, e := b[..|b| - 1], b[|b| - 1];
      TotalAppend(a, init);
      assert a + b == (a + init) + [e] && b == init + [e];
      TotalLast(a + init, e);
      TotalLast(init, e);
      PlusAssociates(Total(a), Total(init), e.tokens.four);
    }
  }

  lemma {:induction false} ContributionsTotal(gs: seq<Group>)
    requires Consistent(gs)
    ensures Total(Contributions(gs)) == GroupsTotal(gs)
    decreases |gs|
  {
    hide Spending;
    if gs != [] {
      var init, g := gs[..|gs| - 1], gs[|gs| - 1];
      ContributionsTotal(init);
      TotalAppend(Contributions(init), EntriesOf(g));
      SpendingTotal(g.usage.entries);
    }
  }

  /** Every group is a response's extract, so its entries add up to its totals. */
  lemma {:induction false} GroupedConsistent(ts: seq<Tagged>)
    ensures Consistent(Values(Grouped(ts)))
  {
    hide Extracted, RowsOf;
    GroupedKeysFit(ts);
    var gs := Grouped(ts);
    forall i | 0 <= i < |gs.keys| ensures var r := gs.table[gs.keys[i]].usage; gs.keys[i] in gs.table && Total(r.entries) == r.totals {
      assert gs.keys[i] in gs.keys;
      KeptIsFirstLargest(ts, gs.keys[i]);
      var rs := RowsOf(ts, gs.keys[i]);
      var b: nat :| KeptAt(gs.table[gs.keys[i]], rs, b);
      EntriesSumToTotals(rs[b].row.message);
    }
  }

  /** Summed over models, the tokens are the totals of the kept rows. */
  lemma Conservation(ts: seq<Tagged>)
    ensures AllModels(AddModels(map[], Contributions(Values(Grouped(ts))))) == GroupsTotal(Values(Grouped(ts)))
  {
    hide Grouped, Contributions, AddModels, GroupsTotal, Total;
    GroupedConsistent(ts);
    ContributionsTotal(Values(Grouped(ts)));
    AddModelsTotal(map[], Contributions(Values(Grouped(ts))));
    assert AllModels(map[]) == ZERO;
  }

  // ---- the main session against the whole ----

  lemma {:induction false} SessionModels(gs: seq<Group>)
    requires forall g :: g in gs ==> Billable(g)
    ensures Session(gs).perModel == AddModels(map[], Contributions(gs)) && Session(gs).turns == |gs|
    decreases |gs|
  {
    hide AddModels, Spending, Billable, WithTurn;
    if gs != [] {
      SessionModels(gs[..|gs| - 1]);
      assert Billable(gs[|gs| - 1]);
      AddModelsAppend(map[], Contributions(gs[..|gs| - 1]), Spending(gs[|gs| - 1].usage.entries));
    } else {
      NothingGrouped();
    }
  }

  lemma {:induction false} MainGroupsAreMain(gs: seq<Group>)
    ensures forall g :: g in MainGroups(gs) ==> g in gs && MainTurn(g)
    decreases |gs|
  {
    if gs != [] { MainGroupsAreMain(gs[..|gs| - 1]); }
  }

  predicate Within(a: Option<Tokens>, b: Option<Tokens>) {
    a.Some? ==> b.Some? && AtMost(a.value.four, b.value.four)
  }

  lemma JoinWithin(a: Option<Tokens>, b: Option<Tokens>, c: Option<Tokens>)
    requires Within(a, b)
    ensures Within(JoinTokens(a, c), JoinTokens(b, c)) && Within(a, JoinTokens(b, c))
  {
  }

  lemma {:induction false} MainSpendsWithin(gs: seq<Group>, model: JsString)
    ensures Within(SpentOn(Contributions(MainGroups(gs)), model), SpentOn(Contributions(gs), model))
    decreases |gs|
  {
    hide SpentOn, Within, JoinTokens, EntriesOf, Billable, Spending;
    if gs == [] {
      NoneWithin(SpentOn(Contributions(gs), model));
    } else {
      var init, g := gs[..|gs| - 1], gs[|gs| - 1];
      MainSpendsWithin(init, model);
      SpentAppend(Contributions(init), EntriesOf(g), model);
      SpentAppend(Contributions(MainGroups(init)), EntriesOf(g), model);
      JoinWithin(SpentOn(Contributions(MainGroups(init)), model), SpentOn(Contributions(init), model), SpentOn(EntriesOf(g), model));
      MainGroupsNext(gs, |gs| - 1);
      assert gs[..|gs| - 1 + 1] == gs;
      ContributionsAppend(MainGroups(init), [g]);
      ContributionsOne(g);
    }
  }

  lemma NoneWithin(a: Option<Tokens>)
    ensures Within(a, a)
  {
  }

  /** For every model the main session spends at most what all sessions together do. */
  lemma MainAtMostOverall(gs: seq<Group>, model: JsString)
    ensures var main, all := Session(MainGroups(gs)).perModel, AddModels(map[], Contributions(gs));
            model in main ==> model in all && AtMost(main[model].four, all[model].four)
  {
    hide Session, AddModels, Contributions, SpentOn;
    MainGroupsAreMain(gs);
    SessionModels(MainGroups(gs));
    MainSpendsWithin(gs, model);
    ModelsHoldSpent(Contributions(gs), model);
    ModelsHoldSpent(Contributions(MainGroups(gs)), model);
  }

  // ---- the main session's own figures agree ----

  function SeriesTotal(turns: seq<Turn>): Four {
    if turns == [] then ZERO else Plus(SeriesTotal(turns[..|turns| - 1]), turns[|turns| - 1].totals)
  }

  lemma TotalFront(es: seq<Entry>)
    requires es != []
    ensures Total(es) == Plus(es[0].tokens.four, Total(es[1..]))
  {
    assert es == [es[0]] + es[1..];
    TotalAppend([es[0]], es[1..]);
    assert [es[0]][..0] == [];
  }

  lemma {:induction false} TurnTotal(m: ExecutionTable, effort: Option<Effort>, es: seq<Entry>, seen: set<ExecutionId>)
    ensures AllExecutions(AddTurnEntries(m, Claude, effort, es, seen), None) == Plus(AllExecutions(m, None), Total(es))
    decreases |es|
  {
    hide AllExecutions, AddExecution, Total;
    if es == [] {
      assert Total(es) == ZERO by { NothingTotal(); }
    } else {
      TotalFront(es);
      var id := ExecutionId(Claude, es[0].model, effort);
      if IsZeroTokens(es[0].tokens.four) {
        TurnTotal(m, effort, es[1..], seen);
      } else {
        AddExecutionSum(m, id, es[0].tokens, id !in seen, None);
        TurnTotal(AddExecution(m, id, es[0].tokens, id !in seen), effort, es[1..], seen + {id});
      }
    }
  }

  lemma NothingTotal()
    ensures Total([]) == ZERO && AllModels(map[]) == ZERO && AllExecutions(map[], None) == ZERO
  {
  }

  ghost predicate SessionAgrees(s: MainSession, gs: seq<Group>) {
    && AllModels(s.perModel) == AllExecutions(s.perExecution, None) == SeriesTotal(s.turnSeries) == GroupsTotal(gs)
    && s.inputTokens == InputSideTotal(AllModels(s.perModel)) && s.turns == |s.turnSeries| == |gs|
  }

  lemma GroupAgrees(s: MainSession, gs: seq<Group>, g: Group)
    requires SessionAgrees(s, gs) && Total(g.usage.entries) == g.usage.totals
    ensures SessionAgrees(AddGroup(s, g), gs + [g])
  {
    hide AllModels, AllExecutions, AddModels, AddTurnEntries, IsLater, Spending, Total;
    SpendingTotal(g.usage.entries);
    AddModelsTotal(s.perModel, Spending(g.usage.entries));
    TurnTotal(s.perExecution, g.effort, g.usage.entries, {});
    assert (gs + [g])[..|gs|] == gs;
    assert AddGroup(s, g).turnSeries[..|s.turnSeries|] == s.turnSeries;
  }

  /** Models, executions, the turn series and the input total of the main session show the same tokens. */
  lemma {:induction false} MainAggregatesAgree(gs: seq<Group>)
    requires Consistent(gs)
    ensures SessionAgrees(Session(gs), gs)
    decreases |gs|
  {
    hide AddGroup, AllModels, AllExecutions, Total;
    if gs == [] {
      NothingTotal();
    } else {
      MainAggregatesAgree(gs[..|gs| - 1]);
      GroupAgrees(Session(gs[..|gs| - 1]), gs[..|gs| - 1], gs[|gs| - 1]);
      assert gs[..|gs| - 1] + [gs[|gs| - 1]] == gs;
    }
  }

  // ---- the context row ----

  predicate Timed(gs: seq<Group>) { forall i :: 0 <= i < |gs| ==> gs[i].timestampMs.Some? }

  predicate InOrder(gs: seq<Group>) { forall i, j :: 0 <= i < j < |gs| ==> gs[i].order < gs[j].order }

  lemma LaterChains(x: Group, y: Group, z: Group)
    requires x.timestampMs.Some? && y.timestampMs.Some? && z.timestampMs.Some? && IsLater(x, y) && IsLater(y, z)
    ensures IsLater(x, z)
  {
  }

  lemma SessionLatest(init: seq<Group>, g: Group)
    ensures var before := Session(init).latest;
            Session(init + [g]).latest == if before.None? || IsLater(g, before.value) then Some(g) else before
  {
    hide WithTurn, AddModels, TurnOf, Observe, IsLater;
    assert (init + [g])[..|init|] == init;
  }

  /** When all timestamps are there, the context is that of the group last by (timestamp, first appearance). */
  lemma {:induction false} ContextIsLatest(gs: seq<Group>)
    requires gs != [] && Timed(gs) && InOrder(gs)
    ensures Session(gs).latest.Some? && Session(gs).latest.value in gs
    ensures forall g :: g in gs && g != Session(gs).latest.value ==> IsLater(Session(gs).latest.value, g)
    decreases |gs|
  {
    hide Session, IsLater;
    var init, g := gs[..|gs| - 1], gs[|gs| - 1];
    assert gs == init + [g];
    SessionLatest(init, g);
    if init == [] {
      NoSession();
    } else {
      ContextIsLatest(init);
      var x, y := Session(init).latest.value, Session(gs).latest.value;
      forall h | h in init && h != y ensures IsLater(y, h) {
        var i :| 0 <= i < |init| && init[i] == h;
        assert gs[i] == h;
        PlaceOf(gs, x);
        if h != x && IsLater(g, x) { LaterChains(g, x, h); }
      }
      PlaceOf(gs, x);
      NotLaterIsEarlier(g, x);
    }
  }

  lemma PlaceOf(gs: seq<Group>, g: Group)
    requires g in gs && Timed(gs) && InOrder(gs)
    ensures g.timestampMs.Some? && (g != gs[|gs| - 1] ==> g.order < gs[|gs| - 1].order)
  {
    var i :| 0 <= i < |gs| && gs[i] == g;
  }

  lemma NotLaterIsEarlier(a: Group, b: Group)
    requires a.timestampMs.Some? && b.timestampMs.Some?
    ensures !IsLater(a, b) && a.order != b.order ==> IsLater(b, a)
  {
  }

  lemma {:induction false} MainGroupsInOrder(gs: seq<Group>)
    requires InOrder(gs)
    ensures InOrder(MainGroups(gs))
    decreases |gs|
  {
    hide MainTurn;
    if gs != [] {
      var init := gs[..|gs| - 1];
      MainGroupsInOrder(init);
      MainGroupsKept(init);
      var main := MainGroups(init);
      forall i | 0 <= i < |main| ensures main[i].order < gs[|gs| - 1].order {
        assert main[i] in init;
        var k :| 0 <= k < |init| && init[k] == main[i];
        assert gs[k] == main[i];
      }
    }
  }

  lemma MainGroupsKept(gs: seq<Group>)
    ensures forall g :: g in MainGroups(gs) ==> g in gs
  {
    MainGroupsAreMain(gs);
  }

  /** Groups are listed by first appearance, so sorting the main groups by it changes nothing. */
  lemma ValuesInOrder(ts: seq<Tagged>)
    ensures InOrder(MainGroups(Values(Grouped(ts))))
  {
    hide Grouped, MainGroups;
    GroupedKeysFit(ts);
    var gs := Grouped(ts);
    forall i | 0 <= i < |gs.keys| ensures Values(gs)[i].order == i { assert gs.keys[i] in gs.keys; }
    MainGroupsInOrder(Values(gs));
  }
}
