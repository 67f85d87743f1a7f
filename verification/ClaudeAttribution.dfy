/** Which model, execution and turn the tokens of a Claude session belong to, told from the responses and their rows. */
module ClaudeAttribution {
  import opened JsStrings
  import opened Wrappers
  import opened TokenAccounting
  import opened ClaudeUsage

  // ---- one response ----

  predicate Carries(u: RawUsage) { u.input > 0 || u.output > 0 || u.cacheCreation > 0 || u.cacheRead > 0 }

  function Prompt(u: RawUsage): nat { u.input + u.cacheCreation + u.cacheRead }

  /** The name, or "unknown" when there is none. */
  predicate Named(model: JsString, name: Option<JsString>) {
    (name.Some? ==> model == name.value) && (name.None? ==> model == Ascii("unknown"))
  }

  /** A message is the message's model's; anything else is the advisor's, the iteration's own or, failing both, also the
      message's. */
  predicate PaidBy(model: JsString, m: Message, it: Iteration) {
    && (it.isMessage ==> Named(model, m.model))
    && (!it.isMessage && m.advisorModel.Some? ==> m.advisorModel == Some(model))
    && (!it.isMessage && m.advisorModel.None? && it.model.Some? ==> it.model == Some(model))
    && (!it.isMessage && m.advisorModel.None? && it.model.None? ==> Named(model, m.model))
  }

  /** The counts of a usage object; its one-hour part only when the parts make up the whole. */
  predicate Counts(t: Tokens, u: RawUsage) {
    && t.four.input == u.input && t.four.output == u.output && t.four.cacheCreation == u.cacheCreation && t.four.cacheRead == u.cacheRead
    && t.oneHour.Some?
    && match u.breakdown
       case None => t.oneHour.value == 0
       case Some((fiveMinutes, oneHour)) =>
         if fiveMinutes + oneHour == u.cacheCreation then t.oneHour.value == oneHour else t.oneHour.value == 0
  }

  predicate IsMessageAt(its: seq<Option<Iteration>>, p: nat) { p < |its| && its[p].Some? && its[p].value.isMessage }

  predicate LastMessageAt(its: seq<Option<Iteration>>, p: nat) {
    IsMessageAt(its, p) && forall q :: p < q < |its| ==> !IsMessageAt(its, q)
  }

  /** The places of the readable iterations. */
  predicate Places(its: seq<Option<Iteration>>, ps: seq<nat>) {
    && (forall k :: 0 <= k < |ps| ==> ps[k] < |its| && its[ps[k]].Some?)
    && (forall j, k :: 0 <= j < k < |ps| ==> ps[j] < ps[k])
    && forall p :: 0 <= p < |its| && its[p].Some? ==> p in ps
  }

  predicate BillsAt(e: Entry, m: Message, p: nat) {
    && p < |m.iterations| && m.iterations[p].Some?
    && PaidBy(e.model, m, m.iterations[p].value) && Counts(e.tokens, m.iterations[p].value.usage)
    && e.tokens.reasoning == if LastMessageAt(m.iterations, p) then m.thinking else None
  }

  predicate SomeCarries(m: Message) { exists p :: 0 <= p < |m.iterations| && m.iterations[p].Some? && Carries(m.iterations[p].value.usage) }

  /** Each iteration has its entry, and the thinking is the last message's; when no iteration carries anything the response's
      own counts stand alone. */
  ghost predicate Bills(m: Message, es: seq<Entry>) {
    if SomeCarries(m)
    then exists ps: seq<nat> :: Places(m.iterations, ps) && |es| == |ps| && forall k :: 0 <= k < |ps| ==> BillsAt(es[k], m, ps[k])
    else |es| == 1 && Named(es[0].model, m.model) && Counts(es[0].tokens, m.top) && es[0].tokens.reasoning == m.thinking
  }

  predicate ShowsContext(m: Message, r: Response) {
    && (forall p :: 0 <= p < |m.iterations| && LastMessageAt(m.iterations, p) ==>
          && r.latestMessageInput == (if Prompt(m.iterations[p].value.usage) > 0 then Prompt(m.iterations[p].value.usage) else Prompt(m.top))
          && r.contextModel == if m.iterations[p].value.model.Some? then m.iterations[p].value.model else m.model)
    && ((forall p :: 0 <= p < |m.iterations| ==> !IsMessageAt(m.iterations, p)) ==>
          r.latestMessageInput == Prompt(m.top) && r.contextModel == m.model)
  }

  function PlacesOf(its: seq<Option<Iteration>>): (ps: seq<nat>)
    ensures Places(its, ps) && |ps| == |Present(its)|
    ensures forall k :: 0 <= k < |ps| ==> its[ps[k]] == Some(Present(its)[k])
  {
    if its == [] then []
    else if its[|its| - 1].Some? then PlacesOf(its[..|its| - 1]) + [|its| - 1]
    else PlacesOf(its[..|its| - 1])
  }

  predicate AllZero(es: seq<Entry>) { forall k :: 0 <= k < |es| ==> IsZeroTokens(es[k].tokens.four) }

  lemma {:induction false} ZeroTotal(es: seq<Entry>)
    ensures IsZeroTokens(Total(es)) <==> AllZero(es)
    decreases |es|
  {
    hide Plus;
    if es != [] {
      var init := es[..|es| - 1];
      ZeroTotal(init);
      PlusZeroExactly(Total(init), es[|es| - 1].tokens.four);
      assert forall k :: 0 <= k < |init| ==> init[k] == es[k];
    }
  }

  lemma IsNothing(a: Four)
    ensures a == ZERO <==> a.input + a.output + a.cacheCreation + a.cacheRead == 0
  {
    var Four(input, output, cacheCreation, cacheRead) := a;
  }

  lemma PlusZeroExactly(a: Four, b: Four)
    ensures Plus(a, b) == ZERO <==> a == ZERO && b == ZERO
  {
    var c := Plus(a, b);
    IsNothing(a);
    IsNothing(b);
    IsNothing(c);
    assert c.input + c.output + c.cacheCreation + c.cacheRead
           == a.input + a.output + a.cacheCreation + a.cacheRead + b.input + b.output + b.cacheCreation + b.cacheRead;
  }

  lemma CountsNothing(u: RawUsage)
    ensures ClaudeTokens(u).four == ZERO <==> !Carries(u)
  {
  }

  lemma FallsBackExactly(m: Message)
    ensures IsZeroTokens(Total(Billed(m, Present(m.iterations)))) <==> !SomeCarries(m)
  {
    hide Places, Present, PlacesOf, ClaudeTokens, BilledModel, Carries, Total;
    var its, ps := Present(m.iterations), PlacesOf(m.iterations);
    var billed := Billed(m, its);
    ZeroTotal(billed);
    forall k | 0 <= k < |its| ensures ps[k] < |m.iterations| && m.iterations[ps[k]] == Some(its[k])
      ensures IsZeroTokens(billed[k].tokens.four) <==> !Carries(its[k].usage)
    {
      PlaceInside(m.iterations, ps, k);
      CountsNothing(its[k].usage);
    }
    if SomeCarries(m) {
      var p :| 0 <= p < |m.iterations| && m.iterations[p].Some? && Carries(m.iterations[p].value.usage);
      PlaceListed(m.iterations, ps, p);
      var k :| 0 <= k < |ps| && ps[k] == p;
      assert !IsZeroTokens(billed[k].tokens.four);
    } else {
      forall k | 0 <= k < |billed| ensures IsZeroTokens(billed[k].tokens.four) {
        assert !Carries(m.iterations[ps[k]].value.usage);
      }
    }
  }

  lemma PlaceListed(its: seq<Option<Iteration>>, ps: seq<nat>, p: nat)
    requires Places(its, ps) && p < |its| && its[p].Some?
    ensures p in ps
  {
  }

  lemma PlaceInside(its: seq<Option<Iteration>>, ps: seq<nat>, k: nat)
    requires Places(its, ps) && k < |ps|
    ensures ps[k] < |its| && its[ps[k]].Some?
  {
  }

  lemma PlacesRise(its: seq<Option<Iteration>>, ps: seq<nat>, j: nat, k: nat)
    requires Places(its, ps) && j < |ps| && k < |ps|
    ensures ps[j] < ps[k] <==> j < k
  {
  }

  /** Among the places of the readable iterations the last message is the last of the whole. */
  lemma LastPlace(all: seq<Option<Iteration>>, ps: seq<nat>, its: seq<Iteration>, k: nat)
    requires Places(all, ps) && |ps| == |its| && k < |ps|
    requires forall j :: 0 <= j < |ps| ==> ps[j] < |all| && all[ps[j]] == Some(its[j])
    ensures LastMessageAt(all, ps[k]) <==> its[k].isMessage && forall j :: k < j < |its| ==> !its[j].isMessage
  {
    hide Places;
    if its[k].isMessage && forall j :: k < j < |its| ==> !its[j].isMessage {
      forall q | ps[k] < q < |all| && all[q].Some? ensures !all[q].value.isMessage {
        PlaceListed(all, ps, q);
        var j :| 0 <= j < |ps| && ps[j] == q;
        PlacesRise(all, ps, k, j);
      }
    }
    if LastMessageAt(all, ps[k]) {
      forall j | k < j < |its| ensures !its[j].isMessage {
        PlacesRise(all, ps, k, j);
        assert !IsMessageAt(all, ps[j]);
      }
    }
  }

  /** The last message among the present iterations is the one at its place. */
  lemma LastMessagePlace(m: Message, k: nat)
    requires k < |Present(m.iterations)|
    ensures LastMessageAt(m.iterations, PlacesOf(m.iterations)[k]) <==> LastMessage(Present(m.iterations)) == Some(k)
  {
    hide Places, Present, PlacesOf, LastMessageAt;
    var its, ps := Present(m.iterations), PlacesOf(m.iterations);
    forall j | 0 <= j < |ps| ensures ps[j] < |m.iterations| && m.iterations[ps[j]] == Some(its[j]) {
      PlaceInside(m.iterations, ps, j);
    }
    LastPlace(m.iterations, ps, its, k);
    OnlyLast(its, k);
  }

  lemma OnlyLast(its: seq<Iteration>, k: nat)
    requires k < |its|
    ensures LastMessage(its) == Some(k) <==> its[k].isMessage && forall j :: k < j < |its| ==> !its[j].isMessage
  {
    hide LastMessage;
  }

  lemma EntryAt(m: Message, k: nat)
    requires k < |Present(m.iterations)|
    ensures var its := Present(m.iterations);
            BillsAt(WithThinking(Billed(m, its), LastMessage(its), m.thinking)[k], m, PlacesOf(m.iterations)[k])
  {
    hide Places, LastMessageAt, LastMessage, Present, PlacesOf;
    LastMessagePlace(m, k);
    PlaceInside(m.iterations, PlacesOf(m.iterations), k);
  }

  /** What a response is billed and what context it shows. */
  lemma ResponseExactly(m: Message)
    ensures Bills(m, Extracted(m).entries) && ShowsContext(m, Extracted(m))
  {
    ResponseBills(m);
    ResponseContext(m);
  }

  lemma ResponseBills(m: Message)
    ensures Bills(m, Extracted(m).entries)
  {
    hide BillsAt, Present, SomeCarries, Billed, Places, LastMessage;
    FallsBackExactly(m);
    var its, es := Present(m.iterations), Extracted(m).entries;
    if SomeCarries(m) {
      forall k | 0 <= k < |its| ensures BillsAt(es[k], m, PlacesOf(m.iterations)[k]) { EntryAt(m, k); }
      assert |es| == |PlacesOf(m.iterations)|;
    }
  }

  lemma ResponseContext(m: Message)
    ensures ShowsContext(m, Extracted(m))
  {
    hide Billed, Total, WithThinking, Places, LastMessageAt;
    var its, ps, r := Present(m.iterations), PlacesOf(m.iterations), Extracted(m);
    forall p | 0 <= p < |m.iterations| && LastMessageAt(m.iterations, p)
      ensures exists k :: 0 <= k < |its| && ps[k] == p && LastMessage(its) == Some(k)
    {
      AtMessage(m.iterations, p);
      PlaceListed(m.iterations, ps, p);
      var k :| 0 <= k < |ps| && ps[k] == p;
      LastMessagePlace(m, k);
    }
    if LastMessage(its).Some? {
      var k := LastMessage(its).value;
      PlaceInside(m.iterations, ps, k);
      assert IsMessageAt(m.iterations, ps[k]);
    }
  }

  lemma AtMessage(its: seq<Option<Iteration>>, p: nat)
    requires LastMessageAt(its, p)
    ensures p < |its| && its[p].Some?
  {
  }

  // ---- the items of the turns ----

  /** What one turn spends on one model. */
  datatype Item = Item(turn: nat, effort: Option<Effort>, model: JsString, tokens: Tokens)

  function ItemsOf(turn: nat, effort: Option<Effort>, es: seq<Entry>): seq<Item> {
    if es == [] then []
    else
      var e := es[|es| - 1];
      ItemsOf(turn, effort, es[..|es| - 1]) + if e.tokens.four == ZERO then [] else [Item(turn, effort, e.model, e.tokens)]
  }

  /** The entries of the groups that carry tokens, turn by turn. */
  function Items(gs: seq<Group>): seq<Item> {
    if gs == [] then []
    else Items(gs[..|gs| - 1]) + ItemsOf(|gs| - 1, gs[|gs| - 1].effort, gs[|gs| - 1].usage.entries)
  }

  function Select(xs: seq<Item>, who: Item -> bool): seq<Item> {
    if xs == [] then []
    else if who(xs[|xs| - 1]) then Select(xs[..|xs| - 1], who) + [xs[|xs| - 1]]
    else Select(xs[..|xs| - 1], who)
  }

  function ForModel(model: JsString): Item -> bool { (x: Item) => x.model == model }

  function ForExecution(id: ExecutionId): Item -> bool {
    (x: Item) => id.provider == Claude && x.model == id.model && x.effort == id.effort
  }

  function SumOf(xs: seq<Item>, what: Item -> nat): nat {
    if xs == [] then 0 else SumOf(xs[..|xs| - 1], what) + what(xs[|xs| - 1])
  }

  function Input(x: Item): nat { x.tokens.four.input }
  function Output(x: Item): nat { x.tokens.four.output }
  function CacheCreation(x: Item): nat { x.tokens.four.cacheCreation }
  function CacheRead(x: Item): nat { x.tokens.four.cacheRead }
  function Reasoning(x: Item): nat { if x.tokens.reasoning.Some? then x.tokens.reasoning.value else 0 }
  function OneHourPart(x: Item): nat { if x.tokens.oneHour.Some? then x.tokens.oneHour.value else 0 }

  /** The tokens are the sums over the items; an optional part is missing when no item reports it. */
  predicate AddsUp(t: Tokens, xs: seq<Item>) {
    && t.four.input == SumOf(xs, Input) && t.four.output == SumOf(xs, Output)
    && t.four.cacheCreation == SumOf(xs, CacheCreation) && t.four.cacheRead == SumOf(xs, CacheRead)
    && (t.reasoning.Some? <==> exists x :: x in xs && x.tokens.reasoning.Some?)
    && (t.oneHour.Some? <==> exists x :: x in xs && x.tokens.oneHour.Some?)
    && (t.reasoning.Some? ==> t.reasoning.value == SumOf(xs, Reasoning))
    && (t.oneHour.Some? ==> t.oneHour.value == SumOf(xs, OneHourPart))
  }

  function TurnsOf(xs: seq<Item>): set<nat> { set x | x in xs :: x.turn }

  ghost predicate ModelsShow(m: ModelTable, xs: seq<Item>) {
    forall model ::
      && (model in m <==> Select(xs, ForModel(model)) != [])
      && (model in m ==> AddsUp(m[model], Select(xs, ForModel(model))))
  }

  ghost predicate ExecutionsShow(m: ExecutionTable, xs: seq<Item>) {
    forall id ::
      && (id in m <==> Select(xs, ForExecution(id)) != [])
      && (id in m ==> m[id].turns == |TurnsOf(Select(xs, ForExecution(id)))| && AddsUp(m[id].tokens, Select(xs, ForExecution(id))))
  }

  lemma SumOne(xs: seq<Item>, x: Item, what: Item -> nat)
    ensures SumOf(xs + [x], what) == SumOf(xs, what) + what(x)
  {
    assert (xs + [x])[..|xs|] == xs;
  }

  lemma SelectOne(xs: seq<Item>, x: Item, who: Item -> bool)
    ensures Select(xs + [x], who) == if who(x) then Select(xs, who) + [x] else Select(xs, who)
  {
    assert (xs + [x])[..|xs|] == xs;
  }

  lemma {:induction false} NobodyReports(xs: seq<Item>)
    ensures (forall x :: x in xs ==> x.tokens.reasoning.None?) ==> SumOf(xs, Reasoning) == 0
    ensures (forall x :: x in xs ==> x.tokens.oneHour.None?) ==> SumOf(xs, OneHourPart) == 0
  {
    if xs != [] {
      NobodyReports(xs[..|xs| - 1]);
      assert xs[|xs| - 1] in xs;
    }
  }

  lemma AddsNothing()
    ensures AddsUp(NOTHING, [])
  {
  }

  lemma AddsOne(t: Tokens, xs: seq<Item>, x: Item)
    requires AddsUp(t, xs)
    ensures AddsUp(Accumulate(t, x.tokens), xs + [x])
  {
    hide SumOf;
    SumOne(xs, x, Input);
    SumOne(xs, x, Output);
    SumOne(xs, x, CacheCreation);
    SumOne(xs, x, CacheRead);
    SumOne(xs, x, Reasoning);
    SumOne(xs, x, OneHourPart);
    NobodyReports(xs);
    assert x in xs + [x] && forall y :: y in xs ==> y in xs + [x];
    assert forall y :: y in xs + [x] ==> y in xs || y == x;
  }

  lemma ItemToModel(m: ModelTable, xs: seq<Item>, x: Item)
    requires ModelsShow(m, xs)
    ensures ModelsShow(AddModel(m, Entry(x.model, x.tokens)), xs + [x])
  {
    hide AddsUp, Select, Accumulate;
    var m' := AddModel(m, Entry(x.model, x.tokens));
    forall model
      ensures (model in m' <==> Select(xs + [x], ForModel(model)) != [])
              && (model in m' ==> AddsUp(m'[model], Select(xs + [x], ForModel(model))))
    {
      SelectOne(xs, x, ForModel(model));
      AddsNothing();
      if model == x.model { AddsOne(if model in m then m[model] else NOTHING, Select(xs, ForModel(model)), x); }
    }
  }

  lemma TurnsOne(xs: seq<Item>, x: Item)
    ensures TurnsOf(xs + [x]) == TurnsOf(xs) + {x.turn}
  {
  }

  lemma ItemToExecution(m: ExecutionTable, xs: seq<Item>, x: Item, newTurn: bool)
    requires ExecutionsShow(m, xs)
    requires newTurn <==> x.turn !in TurnsOf(Select(xs, ForExecution(ExecutionId(Claude, x.model, x.effort))))
    ensures ExecutionsShow(AddExecution(m, ExecutionId(Claude, x.model, x.effort), x.tokens, newTurn), xs + [x])
  {
    hide AddsUp, Select, Accumulate, TurnsOf;
    var at := ExecutionId(Claude, x.model, x.effort);
    var m' := AddExecution(m, at, x.tokens, newTurn);
    forall id
      ensures (id in m' <==> Select(xs + [x], ForExecution(id)) != [])
              && (id in m' ==> m'[id].turns == |TurnsOf(Select(xs + [x], ForExecution(id)))|
                               && AddsUp(m'[id].tokens, Select(xs + [x], ForExecution(id))))
    {
      SelectOne(xs, x, ForExecution(id));
      AddsNothing();
      NoTurns();
      if id == at {
        AddsOne(if id in m then m[id].tokens else NOTHING, Select(xs, ForExecution(id)), x);
        TurnsOne(Select(xs, ForExecution(id)), x);
        OneMore(TurnsOf(Select(xs, ForExecution(id))), x.turn);
      }
    }
  }

  lemma NoTurns()
    ensures TurnsOf([]) == {}
  {
  }

  lemma OneMore(s: set<nat>, x: nat)
    ensures |s + {x}| == |s| + if x in s then 0 else 1
  {
    assert x in s ==> s + {x} == s;
  }

  // ---- one turn ----

  lemma {:induction false} EntriesToModels(m: ModelTable, xs: seq<Item>, turn: nat, effort: Option<Effort>, es: seq<Entry>)
    requires ModelsShow(m, xs)
    ensures ModelsShow(AddModels(m, Spending(es)), xs + ItemsOf(turn, effort, es))
    decreases |es|
  {
    hide ModelsShow, AddModel;
    if es == [] {
      assert xs + ItemsOf(turn, effort, es) == xs;
    } else {
      var init, e := es[..|es| - 1], es[|es| - 1];
      EntriesToModels(m, xs, turn, effort, init);
      if e.tokens.four == ZERO {
        assert Spending(es) == Spending(init) && ItemsOf(turn, effort, es) == ItemsOf(turn, effort, init);
      } else {
        var x := Item(turn, effort, e.model, e.tokens);
        ItemToModel(AddModels(m, Spending(init)), xs + ItemsOf(turn, effort, init), x);
        assert Spending(es)[..|Spending(es)| - 1] == Spending(init);
        assert xs + ItemsOf(turn, effort, es) == xs + ItemsOf(turn, effort, init) + [x];
      }
    }
  }

  /** The executions that an entry list has already reached in this turn. */
  ghost predicate Reached(seen: set<ExecutionId>, xs: seq<Item>, turn: nat, effort: Option<Effort>) {
    forall model ::
      var id := ExecutionId(Claude, model, effort);
      id in seen <==> turn in TurnsOf(Select(xs, ForExecution(id)))
  }

  lemma ReachedOne(seen: set<ExecutionId>, xs: seq<Item>, x: Item)
    requires Reached(seen, xs, x.turn, x.effort)
    ensures Reached(seen + {ExecutionId(Claude, x.model, x.effort)}, xs + [x], x.turn, x.effort)
  {
    hide Select, TurnsOf;
    forall model
      ensures var id := ExecutionId(Claude, model, x.effort);
              id in seen + {ExecutionId(Claude, x.model, x.effort)} <==> x.turn in TurnsOf(Select(xs + [x], ForExecution(id)))
    {
      var id := ExecutionId(Claude, model, x.effort);
      SelectOne(xs, x, ForExecution(id));
      TurnsOne(Select(xs, ForExecution(id)), x);
    }
  }

  lemma {:induction false} ItemsFront(turn: nat, effort: Option<Effort>, es: seq<Entry>)
    requires es != []
    ensures ItemsOf(turn, effort, es) == ItemsOf(turn, effort, [es[0]]) + ItemsOf(turn, effort, es[1..])
    decreases |es|
  {
    if |es| == 1 {
      assert es == [es[0]];
    } else {
      var init := es[..|es| - 1];
      ItemsFront(turn, effort, init);
      assert es[1..][..|es| - 2] == init[1..];
    }
  }

  lemma {:induction false} EntriesToExecutions(m: ExecutionTable, xs: seq<Item>, turn: nat, effort: Option<Effort>, es: seq<Entry>,
                                               seen: set<ExecutionId>)
    requires ExecutionsShow(m, xs) && Reached(seen, xs, turn, effort)
    ensures ExecutionsShow(AddTurnEntries(m, Claude, effort, es, seen), xs + ItemsOf(turn, effort, es))
    decreases |es|
  {
    hide ExecutionsShow, AddExecution, Reached, Select, TurnsOf;
    if es == [] {
      assert xs + ItemsOf(turn, effort, es) == xs;
    } else {
      ItemsFront(turn, effort, es);
      assert [es[0]][..0] == [];
      if es[0].tokens.four == ZERO {
        EntriesToExecutions(m, xs, turn, effort, es[1..], seen);
        assert ItemsOf(turn, effort, es) == ItemsOf(turn, effort, es[1..]);
      } else {
        var x, id := Item(turn, effort, es[0].model, es[0].tokens), ExecutionId(Claude, es[0].model, effort);
        ReachedAt(seen, xs, turn, effort, x.model);
        ItemToExecution(m, xs, x, id !in seen);
        ReachedOne(seen, xs, x);
        EntriesToExecutions(AddExecution(m, id, x.tokens, id !in seen), xs + [x], turn, effort, es[1..], seen + {id});
        assert xs + ItemsOf(turn, effort, es) == xs + [x] + ItemsOf(turn, effort, es[1..]);
      }
    }
  }

  lemma ReachedAt(seen: set<ExecutionId>, xs: seq<Item>, turn: nat, effort: Option<Effort>, model: JsString)
    requires Reached(seen, xs, turn, effort)
    ensures var id := ExecutionId(Claude, model, effort); id in seen <==> turn in TurnsOf(Select(xs, ForExecution(id)))
  {
  }

  lemma {:induction false} TurnsBelow(gs: seq<Group>)
    ensures forall x :: x in Items(gs) ==> x.turn < |gs|
  {
    if gs != [] {
      TurnsBelow(gs[..|gs| - 1]);
      TurnIs(|gs| - 1, gs[|gs| - 1].effort, gs[|gs| - 1].usage.entries);
    }
  }

  lemma {:induction false} TurnIs(turn: nat, effort: Option<Effort>, es: seq<Entry>)
    ensures forall x :: x in ItemsOf(turn, effort, es) ==> x.turn == turn
  {
    if es != [] { TurnIs(turn, effort, es[..|es| - 1]); }
  }

  lemma {:induction false} Selected(xs: seq<Item>, who: Item -> bool)
    ensures forall x :: x in Select(xs, who) ==> x in xs
  {
    if xs != [] { Selected(xs[..|xs| - 1], who); }
  }

  lemma NothingReached(gs: seq<Group>, effort: Option<Effort>)
    ensures Reached({}, Items(gs), |gs|, effort)
  {
    hide Select, Items;
    TurnsBelow(gs);
    forall model
      ensures |gs| !in TurnsOf(Select(Items(gs), ForExecution(ExecutionId(Claude, model, effort))))
    {
      Selected(Items(gs), ForExecution(ExecutionId(Claude, model, effort)));
    }
  }

  // ---- the tables ----

  /** The tables of the main session show the items of its turns: every model and every execution its own, and a turn counts
      once for each execution it spends on. */
  lemma {:induction false} SessionAttributed(gs: seq<Group>)
    ensures ModelsShow(Session(gs).perModel, Items(gs)) && ExecutionsShow(Session(gs).perExecution, Items(gs))
    decreases |gs|
  {
    hide ModelsShow, ExecutionsShow, Spending, AddModels, AddTurnEntries, TurnOf, IsLater, Observe, ItemsOf;
    if gs == [] {
      EmptyTables();
    } else {
      var init, g := gs[..|gs| - 1], gs[|gs| - 1];
      SessionAttributed(init);
      EntriesToModels(Session(init).perModel, Items(init), |init|, g.effort, g.usage.entries);
      NothingReached(init, g.effort);
      EntriesToExecutions(Session(init).perExecution, Items(init), |init|, g.effort, g.usage.entries, {});
    }
  }

  lemma EmptyTables()
    ensures ModelsShow(map[], []) && ExecutionsShow(map[], [])
  {
  }

  /** A group with nothing in its totals has no items. */
  lemma {:induction false} NothingSpent(turn: nat, effort: Option<Effort>, es: seq<Entry>)
    requires Total(es) == ZERO
    ensures ItemsOf(turn, effort, es) == []
  {
    hide Total;
    ZeroTotal(es);
    if es != [] {
      assert forall k :: 0 <= k < |es| - 1 ==> es[..|es| - 1][k] == es[k];
      ZeroTotal(es[..|es| - 1]);
      NothingSpent(turn, effort, es[..|es| - 1]);
    }
  }

  /** So does the table over all sessions. */
  lemma {:induction false} AllAttributed(gs: seq<Group>)
    requires Consistent(gs)
    ensures ModelsShow(AddModels(map[], Contributions(gs)), Items(gs))
    decreases |gs|
  {
    hide ModelsShow, Spending, AddModels, ItemsOf, Total;
    if gs == [] {
      EmptyTables();
      NothingGrouped();
    } else {
      var init, g := gs[..|gs| - 1], gs[|gs| - 1];
      AllAttributed(init);
      AddModelsAppend(map[], Contributions(init), EntriesOf(g));
      if Billable(g) {
        EntriesToModels(AddModels(map[], Contributions(init)), Items(init), |init|, g.effort, g.usage.entries);
      } else {
        NothingSpent(|init|, g.effort, g.usage.entries);
        assert Contributions(init) + EntriesOf(g) == Contributions(init);
        assert Items(gs) == Items(init);
      }
    }
  }

  // ---- the turns ----

  function Thought(e: Entry): Option<nat> { e.tokens.reasoning }
  function Kept(e: Entry): Option<nat> { e.tokens.oneHour }

  function SumReported(es: seq<Entry>, part: Entry -> Option<nat>): nat {
    if es == [] then 0
    else SumReported(es[..|es| - 1], part) + match part(es[|es| - 1]) case None => 0 case Some(n) => n
  }

  /** The sum of what is reported, missing when nothing is. */
  predicate Reports(total: Option<nat>, es: seq<Entry>, part: Entry -> Option<nat>) {
    && (total.Some? <==> exists k :: 0 <= k < |es| && part(es[k]).Some?)
    && (total.Some? ==> total.value == SumReported(es, part))
  }

  predicate TurnShows(t: Turn, g: Group) {
    && t.model == g.usage.contextModel && t.effort == g.effort && t.contextTokens == g.usage.latestMessageInput
    && t.totals == g.usage.totals && t.timestampMs == g.timestampMs
    && Reports(t.reasoning, g.usage.entries, Thought) && Reports(t.oneHour, g.usage.entries, Kept)
  }

  lemma {:induction false} PartsReported(es: seq<Entry>)
    ensures Reports(SumReasoning(es), es, Thought) && Reports(SumOneHour(es), es, Kept)
    ensures SumReasoning(es).None? ==> SumReported(es, Thought) == 0
    ensures SumOneHour(es).None? ==> SumReported(es, Kept) == 0
  {
    if es != [] {
      var init := es[..|es| - 1];
      PartsReported(init);
      assert forall k :: 0 <= k < |init| ==> init[k] == es[k];
      assert forall k :: 0 <= k < |es| ==> k == |es| - 1 || es[k] == init[k];
    }
  }

  /** Turn k of the series shows the k-th group. */
  lemma {:induction false} SeriesShows(gs: seq<Group>)
    ensures |Session(gs).turnSeries| == |gs|
    ensures forall k :: 0 <= k < |gs| ==> TurnShows(Session(gs).turnSeries[k], gs[k])
    decreases |gs|
  {
    hide AddModels, WithTurn, IsLater, Observe, Spending, Reports, SumReasoning, SumOneHour;
    if gs != [] {
      SeriesShows(gs[..|gs| - 1]);
      PartsReported(gs[|gs| - 1].usage.entries);
    }
  }

  // ---- times ----

  predicate EarliestOf(ms: Option<int>, times: seq<Option<int>>) {
    if ms.None? then forall k :: 0 <= k < |times| ==> times[k].None?
    else ms in times && forall k :: 0 <= k < |times| && times[k].Some? ==> ms.value <= times[k].value
  }

  predicate LatestOf(ms: Option<int>, times: seq<Option<int>>) {
    if ms.None? then forall k :: 0 <= k < |times| ==> times[k].None?
    else ms in times && forall k :: 0 <= k < |times| && times[k].Some? ==> times[k].value <= ms.value
  }

  predicate Spans(span: TimeSpan, times: seq<Option<int>>) { EarliestOf(span.first, times) && LatestOf(span.last, times) }

  lemma SpansOne(span: TimeSpan, times: seq<Option<int>>, ms: Option<int>)
    requires Spans(span, times)
    ensures Spans(Observe(span, ms), times + [ms])
  {
    var all := times + [ms];
    assert all[|times|] == ms && forall k :: 0 <= k < |times| ==> all[k] == times[k];
  }

  function TimesOf(gs: seq<Group>): seq<Option<int>> {
    if gs == [] then [] else TimesOf(gs[..|gs| - 1]) + [gs[|gs| - 1].timestampMs]
  }

  /** The times of the rows that belong to a response. */
  function RowTimes(ts: seq<Tagged>): seq<Option<int>> {
    if ts == [] then []
    else if DedupKey(ts[|ts| - 1].row).None? then RowTimes(ts[..|ts| - 1])
    else RowTimes(ts[..|ts| - 1]) + [ts[|ts| - 1].row.timestampMs]
  }

  /** The main session spans its turns. */
  lemma {:induction false} SessionSpans(gs: seq<Group>)
    ensures Spans(Session(gs).span, TimesOf(gs))
    decreases |gs|
  {
    hide AddModels, WithTurn, IsLater, Observe, Spending, Spans, TurnOf;
    if gs == [] {
      NothingSpans();
    } else {
      SessionSpans(gs[..|gs| - 1]);
      SpansOne(Session(gs[..|gs| - 1]).span, TimesOf(gs[..|gs| - 1]), gs[|gs| - 1].timestampMs);
    }
  }

  lemma NothingSpans()
    ensures Spans(TimeSpan(None, None), [])
  {
  }

  /** The observation spans all rows of all responses. */
  lemma {:induction false} RowsSpan(ts: seq<Tagged>)
    ensures Spans(Grouped(ts).span, RowTimes(ts))
    decreases |ts|
  {
    hide Merged, NewGroup, Observe, Spans, DedupKey;
    if ts == [] {
      NothingSpans();
    } else {
      RowsSpan(ts[..|ts| - 1]);
      SpansOne(Grouped(ts[..|ts| - 1]).span, RowTimes(ts[..|ts| - 1]), ts[|ts| - 1].row.timestampMs);
    }
  }

  /** The rows that raise the output of their response: the first one and every one with more than all before. */
  predicate Raises(rs: seq<Tagged>, i: nat)
    requires i < |rs|
  {
    forall j :: 0 <= j < i ==> Extracted(rs[j].row.message).totals.output < Extracted(rs[i].row.message).totals.output
  }

  /** The last timestamp among the rows that raise the output. */
  predicate TimedBy(ms: Option<int>, rs: seq<Tagged>) {
    if ms.None? then forall i :: 0 <= i < |rs| && Raises(rs, i) ==> rs[i].row.timestampMs.None?
    else exists i :: 0 <= i < |rs| && Raises(rs, i) && rs[i].row.timestampMs == ms
                     && forall j :: i < j < |rs| && Raises(rs, j) ==> rs[j].row.timestampMs.None?
  }

  /** The group holds the largest output so far. */
  predicate HoldsLargest(g: Group, rs: seq<Tagged>) {
    && (exists i :: 0 <= i < |rs| && ClaudeUsage.Output(rs[i]) == g.usage.totals.output)
    && forall i :: 0 <= i < |rs| ==> ClaudeUsage.Output(rs[i]) <= g.usage.totals.output
  }

  lemma RaisesBefore(rs: seq<Tagged>, t: Tagged, i: nat)
    requires i < |rs|
    ensures Raises(rs + [t], i) <==> Raises(rs, i)
  {
    hide Extracted;
    assert forall j :: 0 <= j <= i ==> (rs + [t])[j] == rs[j];
  }

  lemma RaisesLast(g: Group, rs: seq<Tagged>, t: Tagged)
    requires HoldsLargest(g, rs)
    ensures Raises(rs + [t], |rs|) <==> ClaudeUsage.Output(t) > g.usage.totals.output
  {
    hide Extracted;
    var all := rs + [t];
    assert all[|rs|] == t;
    assert forall j :: 0 <= j < |rs| ==> all[j] == rs[j];
    var i :| 0 <= i < |rs| && ClaudeUsage.Output(rs[i]) == g.usage.totals.output;
    assert all[i] == rs[i];
  }

  lemma TimeGrows(g: Group, rs: seq<Tagged>, t: Tagged)
    requires HoldsLargest(g, rs) && TimedBy(g.timestampMs, rs)
    ensures TimedBy(if ClaudeUsage.Output(t) > g.usage.totals.output then Or(t.row.timestampMs, g.timestampMs) else g.timestampMs, rs + [t])
  {
    hide Extracted, Raises, ClaudeUsage.Output, HoldsLargest;
    var all := rs + [t];
    RaisesLast(g, rs, t);
    forall i | 0 <= i < |rs| ensures all[i] == rs[i] && (Raises(all, i) <==> Raises(rs, i)) { RaisesBefore(rs, t, i); }
    if g.timestampMs.Some? {
      var i :| 0 <= i < |rs| && Raises(rs, i) && rs[i].row.timestampMs == g.timestampMs
               && forall j :: i < j < |rs| && Raises(rs, j) ==> rs[j].row.timestampMs.None?;
      assert Raises(all, i);
    }
  }

  lemma LargestGrows(g: Group, rs: seq<Tagged>, t: Tagged)
    requires HoldsLargest(g, rs)
    ensures HoldsLargest(Merged(g, t), rs + [t])
  {
    hide Extracted;
    var all, i :| all == rs + [t] && 0 <= i < |rs| && ClaudeUsage.Output(rs[i]) == g.usage.totals.output;
    assert all[i] == rs[i] && all[|rs|] == t;
  }

  ghost predicate Timely(gs: Groups, ts: seq<Tagged>, key: JsString) {
    key in gs.table ==> HoldsLargest(gs.table[key], RowsOf(ts, key)) && TimedBy(gs.table[key].timestampMs, RowsOf(ts, key))
  }

  lemma NewTimely(t: Tagged, order: nat)
    ensures HoldsLargest(NewGroup(t, order), [t]) && TimedBy(NewGroup(t, order).timestampMs, [t])
  {
    hide Extracted;
    assert [t][0] == t && Raises([t], 0);
  }

  lemma MergeTimely(g: Group, rs: seq<Tagged>, t: Tagged)
    requires HoldsLargest(g, rs) && TimedBy(g.timestampMs, rs)
    ensures HoldsLargest(Merged(g, t), rs + [t]) && TimedBy(Merged(g, t).timestampMs, rs + [t])
  {
    hide Extracted, HoldsLargest, TimedBy;
    LargestGrows(g, rs, t);
    TimeGrows(g, rs, t);
  }

  /** A group's time is the last one given by a row that raises its output. */
  lemma {:induction false} GroupTimes(ts: seq<Tagged>, key: JsString)
    ensures Timely(Grouped(ts), ts, key)
    decreases |ts|
  {
    hide HoldsLargest, TimedBy, Merged, NewGroup;
    if ts != [] {
      var init, t := ts[..|ts| - 1], ts[|ts| - 1];
      GroupTimes(init, key);
      if DedupKey(t.row) == Some(key) {
        if key in Grouped(init).table {
          MergeTimely(Grouped(init).table[key], RowsOf(init, key), t);
        } else {
          KeptIsFirstLargest(init, key);
          NewTimely(t, |Grouped(init).keys|);
          assert RowsOf(ts, key) == [t];
        }
      } else {
        assert RowsOf(ts, key) == RowsOf(init, key);
      }
    }
  }

  // ---- rows of one response ----

  /** The first identifier a row has. */
  function Identifier(row: Row): Option<JsString> {
    match row
    case Row(Some(id), _, _, _, _, _, _) => Some(id)
    case Row(None, Some(id), _, _, _, _, _) => Some(id)
    case Row(None, None, id, _, _, _, _) => id
  }

  function MessageId(row: Row): JsString { if row.messageId.Some? then row.messageId.value else [] }

  /** Identifiers are not empty. */
  predicate Readable(row: Row) { row.requestId != Some([]) && row.messageId != Some([]) && row.uuid != Some([]) }

  /** Two rows of one response: they agree on the first identifier they have and on the message's. */
  predicate Together(a: Row, b: Row) { Identifier(a) == Identifier(b) && MessageId(a) == MessageId(b) }

  /** A colon in the message's identifier, or in the first one behind its first character. */
  predicate HoldsColon(row: Row) {
    || ':' as int in MessageId(row)
    || (Identifier(row).Some? && exists k :: 0 < k < |Identifier(row).value| && Identifier(row).value[k] == ':' as int)
  }

  /** A row without an identifier belongs to no response. The key of any other tells its response from all others exactly when
      its identifiers hold no such colon. */
  lemma SameResponseExactly(a: Row)
    requires Readable(a)
    ensures DedupKey(a).None? <==> a.requestId.None? && a.messageId.None? && a.uuid.None?
    ensures forall b :: Together(a, b) ==> DedupKey(a) == DedupKey(b)
    ensures DedupKey(a).Some? ==>
              ((forall b :: Readable(b) && DedupKey(b) == DedupKey(a) ==> Together(a, b)) <==> !HoldsColon(a))
  {
    KeyText(a);
    forall b | Together(a, b) ensures DedupKey(a) == DedupKey(b) { KeyText(b); }
    if DedupKey(a).Some? {
      if HoldsColon(a) {
        var b := OtherResponse(a);
      } else {
        forall b | Readable(b) && DedupKey(b) == DedupKey(a) ensures Together(a, b) { NoOtherResponse(a, b); }
      }
    }
  }

  lemma KeyText(row: Row)
    ensures DedupKey(row) == if Identifier(row).None? then None else Some(Identifier(row).value + [COLON] + MessageId(row))
  {
  }

  lemma NoOtherResponse(a: Row, b: Row)
    requires Readable(b) && DedupKey(a).Some? && DedupKey(a) == DedupKey(b) && !HoldsColon(a)
    ensures Together(a, b)
  {
    KeyText(a);
    KeyText(b);
    var x, u, y, v := Identifier(a).value, MessageId(a), Identifier(b).value, MessageId(b);
    var s := x + [COLON] + u;
    assert s == y + [COLON] + v;
    assert |x| == |y| by { OneColon(x, u, s, |y|); }
    assert x == s[..|x|] && u == s[|x| + 1..] && y == s[..|y|] && v == s[|y| + 1..];
  }

  lemma OneColon(x: JsString, u: JsString, s: JsString, k: nat)
    requires s == x + [COLON] + u && 0 < k < |s| && s[k] == COLON
    requires COLON !in u && forall j :: 0 < j < |x| ==> x[j] != COLON
    ensures k == |x|
  {
    assert forall j :: 0 < j < |x| ==> s[j] == x[j];
    assert forall j :: |x| < j < |s| ==> s[j] == u[j - |x| - 1];
  }

  /** The key of another response, cut at another colon. */
  lemma OtherResponse(a: Row) returns (b: Row)
    requires DedupKey(a).Some? && HoldsColon(a)
    ensures Readable(b) && DedupKey(b) == DedupKey(a) && !Together(a, b)
  {
    KeyText(a);
    var x, u := Identifier(a).value, MessageId(a);
    var s := x + [COLON] + u;
    var k: nat;
    if ':' as int in u {
      var j :| 0 <= j < |u| && u[j] == ':' as int;
      k := |x| + 1 + j;
      assert s[k] == u[j];
    } else {
      k :| 0 < k < |x| && x[k] == ':' as int;
      assert s[k] == x[k];
    }
    b := Row(Some(s[..k]), if s[k + 1..] == [] then None else Some(s[k + 1..]), None, a.timestampMs, a.message, a.effort, a.sidechain);
    assert s == s[..k] + [s[k]] + s[k + 1..];
    KeyText(b);
  }

  /** With a colon in it two different responses can share a key. */
  lemma ColonJoinsResponses()
    ensures exists a, b: Row :: Identifier(a).Some? && DedupKey(a) == DedupKey(b) && Identifier(a) != Identifier(b)
  {
    var nothing := Message(None, None, [], RawUsage(0, 0, 0, 0, None), None);
    var a := Row(Some(Ascii("a")), Some(Ascii("b:c")), None, None, nothing, None, false);
    var b := Row(Some(Ascii("a:b")), Some(Ascii("c")), None, None, nothing, None, false);
    assert DedupKey(a).value == DedupKey(b).value == Ascii("a:b:c");
    assert |Ascii("a")| != |Ascii("a:b")|;
  }

  // ---- the turns of the main session ----

  /** The rows make a turn: one of them is the main session's, and the one with the most output, the first of those, carries
      tokens. */
  ghost predicate MakesTurn(rs: seq<Tagged>) {
    HasMain(rs) && exists b: nat :: FirstLargest(rs, b) && Extracted(rs[b].row.message).totals != ZERO
  }

  lemma TurnOfRows(g: Group, rs: seq<Tagged>)
    requires ShowsRows(g, rs)
    ensures MainTurn(g) <==> MakesTurn(rs)
  {
    hide Extracted, ClaudeUsage.Output, HasMain;
    var b: nat :| KeptAt(g, rs, b);
    forall c: nat | FirstLargest(rs, c) ensures c == b { FirstLargestUnique(rs, b, c); }
  }

  lemma {:induction false} InMainGroups(gs: seq<Group>)
    ensures forall g :: g in MainGroups(gs) <==> g in gs && MainTurn(g)
    decreases |gs|
  {
    hide MainTurn;
    if gs != [] {
      InMainGroups(gs[..|gs| - 1]);
      assert gs == gs[..|gs| - 1] + [gs[|gs| - 1]];
    }
  }

  /** The turns of the main session are exactly the responses whose rows make one. */
  lemma MainTurnsExactly(ts: seq<Tagged>, key: JsString)
    ensures key in Grouped(ts).table && Grouped(ts).table[key] in MainGroups(Values(Grouped(ts))) <==> MakesTurn(RowsOf(ts, key))
  {
    hide Grouped, MainGroups, ShowsRows, MainTurn, MakesTurn, RowsOf;
    var gs := Grouped(ts);
    KeptIsFirstLargest(ts, key);
    GroupedKeysFit(ts);
    InMainGroups(Values(gs));
    if key in gs.table {
      TurnOfRows(gs.table[key], RowsOf(ts, key));
      assert key in gs.keys;
      var i :| 0 <= i < |gs.keys| && gs.keys[i] == key;
      assert Values(gs)[i] == gs.table[key];
    } else {
      NoRowsNoTurn();
    }
  }

  lemma NoRowsNoTurn()
    ensures !MakesTurn([])
  {
    hide Extracted, ClaudeUsage.Output;
  }

  /** A row of the first response comes before all rows of the second. */
  predicate AppearsFirst(ts: seq<Tagged>, first: JsString, second: JsString) {
    exists p :: 0 <= p < |ts| && DedupKey(ts[p].row) == Some(first) && forall q :: 0 <= q <= p ==> DedupKey(ts[q].row) != Some(second)
  }

  lemma {:induction false} KnownKeys(ts: seq<Tagged>)
    ensures forall key :: key in Grouped(ts).keys <==> exists p :: 0 <= p < |ts| && DedupKey(ts[p].row) == Some(key)
    decreases |ts|
  {
    hide DedupKey, Merged, NewGroup;
    GroupedKeysFit(ts);
    if ts != [] {
      var init := ts[..|ts| - 1];
      KnownKeys(init);
      GroupedKeysFit(init);
      forall key ensures key in Grouped(ts).keys <==> exists p :: 0 <= p < |ts| && DedupKey(ts[p].row) == Some(key) {
        if key in Grouped(init).keys {
          var p :| 0 <= p < |init| && DedupKey(init[p].row) == Some(key);
          assert DedupKey(ts[p].row) == Some(key);
        }
        if exists p :: 0 <= p < |ts| && DedupKey(ts[p].row) == Some(key) {
          var p :| 0 <= p < |ts| && DedupKey(ts[p].row) == Some(key);
          assert p < |init| ==> init[p] == ts[p];
        }
      }
    }
  }

  lemma FirstStays(init: seq<Tagged>, t: Tagged, first: JsString, second: JsString)
    requires AppearsFirst(init, first, second)
    ensures AppearsFirst(init + [t], first, second)
  {
    hide DedupKey;
    var p :| 0 <= p < |init| && DedupKey(init[p].row) == Some(first) && forall q :: 0 <= q <= p ==> DedupKey(init[q].row) != Some(second);
    assert forall q :: 0 <= q <= p ==> (init + [t])[q] == init[q];
  }

  lemma NewIsLast(init: seq<Tagged>, t: Tagged, first: JsString, second: JsString)
    requires first in Grouped(init).keys && second !in Grouped(init).keys
    ensures AppearsFirst(init + [t], first, second)
  {
    hide DedupKey, Grouped;
    KnownKeys(init);
    var p :| 0 <= p < |init| && DedupKey(init[p].row) == Some(first);
    forall q | 0 <= q <= p ensures (init + [t])[q] == init[q] && DedupKey(init[q].row) != Some(second) {
    }
  }

  /** Responses, and so the turns, are listed in the order of their first rows. */
  lemma {:induction false} ResponsesByAppearance(ts: seq<Tagged>, i: nat, j: nat)
    requires i < j < |Grouped(ts).keys|
    ensures AppearsFirst(ts, Grouped(ts).keys[i], Grouped(ts).keys[j])
    decreases |ts|
  {
    hide DedupKey, Merged, NewGroup, AppearsFirst;
    var init, t := ts[..|ts| - 1], ts[|ts| - 1];
    assert ts == init + [t];
    GroupedKeysFit(ts);
    var known := Grouped(init).keys;
    if j < |known| {
      ResponsesByAppearance(init, i, j);
      FirstStays(init, t, known[i], known[j]);
    } else {
      var keys := Grouped(ts).keys;
      assert keys[i] == known[i];
      assert keys[j] !in known by {
        assert forall k :: 0 <= k < |known| ==> known[k] == keys[k] && keys[k] != keys[j];
      }
      NewIsLast(init, t, keys[i], keys[j]);
    }
  }

  /** With all timestamps there, the context of the session is that of its latest turn: the largest timestamp, and of those the
      response that appeared last. */
  lemma LatestByTime(ts: seq<Tagged>, gs: seq<Group>, g: Group)
    requires gs == MainGroups(Values(Grouped(ts))) && Timed(gs) && g in gs
    ensures Session(gs).latest.Some? && Session(gs).latest.value in gs
    ensures var latest := Session(gs).latest.value;
            g.timestampMs.Some? && latest.timestampMs.Some?
            && (g == latest || g.timestampMs.value < latest.timestampMs.value
                || (g.timestampMs == latest.timestampMs && g.order < latest.order))
  {
    hide Session, Grouped, MainGroups, Values;
    ValuesInOrder(ts);
    ContextIsLatest(gs);
  }

  // ---- files ----

  lemma {:induction false} RowsBefore(files: seq<File>, i: nat)
    requires i <= |files|
    ensures AllRows(files[..i]) <= AllRows(files)
    decreases |files| - i
  {
    hide TagRows;
    if i == |files| {
      assert files[..i] == files;
    } else {
      RowsBefore(files, i + 1);
      AllRowsNext(files, i);
    }
  }

  /** Row `j` of file `i` is read after the rows of all files before it, and is the main session's exactly when the file is
      the first and the row is no side chain's. */
  lemma RowsTagged(files: seq<File>, i: nat, j: nat)
    requires i < |files| && files[i].Readable? && j < |files[i].rows|
    ensures var at := |AllRows(files[..i])| + j;
            && at < |AllRows(files[..i + 1])| == |AllRows(files[..i])| + |files[i].rows| <= |AllRows(files)|
            && AllRows(files)[at].row == files[i].rows[j]
            && (AllRows(files)[at].main <==> i == 0 && !files[i].rows[j].sidechain)
  {
    hide AllRows;
    AllRowsNext(files, i);
    RowsBefore(files, i + 1);
  }
}
