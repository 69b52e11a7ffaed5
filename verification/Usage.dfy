/** What sessions spent: adding usages up, and the running totals a process rewrites as it goes. */
module Usage {
  import opened Text

  datatype Counts = Counts(
    requests: nat, input: nat, output: nat, cacheRead: nat, cacheWrite: nat,
    cacheWrite5m: nat, cacheWrite1h: nat, thinking: nat, webSearches: nat, webFetches: nat)

  const NOTHING := Counts(0, 0, 0, 0, 0, 0, 0, 0, 0, 0)

  datatype Cost = Cost(micros: nat, currency: string)

  datatype Totals = Totals(
    total: Counts,
    byModel: map<string, Counts>,
    subagents: Counts,
    contextTokens: Option<nat>,
    contextWindow: Option<nat>,
    cost: Option<Cost>,
    apiDuration: Option<nat>,
    linesAdded: Option<nat>,
    linesRemoved: Option<nat>,
    model: Option<string>,
    agentModel: Option<string>,
    agentEffort: Option<string>)

  const UNREPORTED := Totals(NOTHING, map[], NOTHING, None, None, None, None, None, None, None, None, None)

  function AddCounts(a: Counts, b: Counts): Counts {
    Counts(a.requests + b.requests, a.input + b.input, a.output + b.output, a.cacheRead + b.cacheRead,
           a.cacheWrite + b.cacheWrite, a.cacheWrite5m + b.cacheWrite5m, a.cacheWrite1h + b.cacheWrite1h,
           a.thinking + b.thinking, a.webSearches + b.webSearches, a.webFetches + b.webFetches)
  }

  function CountsOf(byModel: map<string, Counts>, model: string): Counts {
    if model in byModel then byModel[model] else NOTHING
  }

  function AddByModel(a: map<string, Counts>, b: map<string, Counts>): map<string, Counts> {
    a + map m | m in b :: AddCounts(CountsOf(a, m), b[m])
  }

  function Later<T>(mine: Option<T>, theirs: Option<T>): Option<T> {
    if theirs.Some? then theirs else mine
  }

  /** Costs add up in one currency; of two, the first is kept. */
  function AddCost(mine: Option<Cost>, theirs: Option<Cost>): Option<Cost> {
    if mine.Some? && theirs.Some? && mine.value.currency == theirs.value.currency then
      Some(mine.value.(micros := mine.value.micros + theirs.value.micros))
    else if mine.Some? then mine else theirs
  }

  function OrZero(a: Option<nat>): nat {
    if a.Some? then a.value else 0
  }

  function AddReported(a: Option<nat>, b: Option<nat>): Option<nat> {
    if a.None? && b.None? then None else Some(OrZero(a) + OrZero(b))
  }

  function Plus(a: Totals, b: Totals): Totals {
    Totals(AddCounts(a.total, b.total), AddByModel(a.byModel, b.byModel), AddCounts(a.subagents, b.subagents),
           Later(a.contextTokens, b.contextTokens), Later(a.contextWindow, b.contextWindow),
           AddCost(a.cost, b.cost), AddReported(a.apiDuration, b.apiDuration),
           AddReported(a.linesAdded, b.linesAdded), AddReported(a.linesRemoved, b.linesRemoved),
           Later(a.model, b.model), Later(a.agentModel, b.agentModel), Later(a.agentEffort, b.agentEffort))
  }

  /** Adding a session that reported nothing changes nothing. */
  lemma NothingIsNeutral(u: Totals)
    ensures Plus(u, UNREPORTED) == u && Plus(UNREPORTED, u) == u
  {
    assert AddByModel(u.byModel, map[]) == u.byModel == AddByModel(map[], u.byModel);
  }

  /** The third session's currency is the first's and not the second's. */
  predicate CurrenciesInterleave(a: Option<Cost>, b: Option<Cost>, c: Option<Cost>) {
    && a.Some? && b.Some? && c.Some?
    && a.value.currency == c.value.currency != b.value.currency
    && c.value.micros > 0
  }

  lemma CostsAssociateExactly(a: Option<Cost>, b: Option<Cost>, c: Option<Cost>)
    ensures AddCost(AddCost(a, b), c) == AddCost(a, AddCost(b, c)) <==> !CurrenciesInterleave(a, b, c)
  {
  }

  lemma CountsAssociate(a: Counts, b: Counts, c: Counts)
    ensures AddCounts(AddCounts(a, b), c) == AddCounts(a, AddCounts(b, c))
  {
  }

  lemma NothingAdds(a: Counts)
    ensures AddCounts(a, NOTHING) == a
  {
  }

  lemma CountOfSum(a: map<string, Counts>, b: map<string, Counts>, m: string)
    ensures CountsOf(AddByModel(a, b), m) == AddCounts(CountsOf(a, m), CountsOf(b, m))
  {
    hide AddCounts;
    NothingAdds(CountsOf(a, m));
    if m in b {
      assert AddByModel(a, b)[m] == AddCounts(CountsOf(a, m), b[m]);
    } else {
      assert m in AddByModel(a, b) <==> m in a;
    }
  }

  lemma ModelsAssociate(a: map<string, Counts>, b: map<string, Counts>, c: map<string, Counts>)
    ensures AddByModel(AddByModel(a, b), c) == AddByModel(a, AddByModel(b, c))
  {
    hide AddCounts;
    var ab, bc := AddByModel(a, b), AddByModel(b, c);
    var left, right := AddByModel(ab, c), AddByModel(a, bc);
    assert left.Keys == right.Keys;
    forall m | m in left ensures left[m] == right[m] {
      CountOfSum(a, b, m);
      CountOfSum(b, c, m);
      CountsAssociate(CountsOf(a, m), CountsOf(b, m), CountsOf(c, m));
    }
  }

  /** Usages can be grouped in any way exactly when their currencies do not interleave. */
  lemma PlusIsAssociativeExactly(a: Totals, b: Totals, c: Totals)
    ensures Plus(Plus(a, b), c) == Plus(a, Plus(b, c)) <==> !CurrenciesInterleave(a.cost, b.cost, c.cost)
  {
    hide AddCounts, AddByModel, AddCost;
    CountsAssociate(a.total, b.total, c.total);
    CountsAssociate(a.subagents, b.subagents, c.subagents);
    ModelsAssociate(a.byModel, b.byModel, c.byModel);
    CostsAssociateExactly(a.cost, b.cost, c.cost);
  }

  // ---- What a list of sessions comes to ------------------------------------------------------

  /** The sessions added up, one after another. */
  function SumOf(us: seq<Totals>): Totals {
    if us == [] then UNREPORTED else Plus(SumOf(us[..|us| - 1]), us[|us| - 1])
  }

  function Added<T>(items: seq<T>, f: T -> nat): nat {
    if items == [] then 0 else Added(items[..|items| - 1], f) + f(items[|items| - 1])
  }

  /** Ten sums, one for each count. */
  predicate AddedUp(sum: Counts, us: seq<Totals>, counts: Totals -> Counts) {
    && sum.requests == Added(us, (u: Totals) => counts(u).requests)
    && sum.input == Added(us, (u: Totals) => counts(u).input)
    && sum.output == Added(us, (u: Totals) => counts(u).output)
    && sum.cacheRead == Added(us, (u: Totals) => counts(u).cacheRead)
    && sum.cacheWrite == Added(us, (u: Totals) => counts(u).cacheWrite)
    && sum.cacheWrite5m == Added(us, (u: Totals) => counts(u).cacheWrite5m)
    && sum.cacheWrite1h == Added(us, (u: Totals) => counts(u).cacheWrite1h)
    && sum.thinking == Added(us, (u: Totals) => counts(u).thinking)
    && sum.webSearches == Added(us, (u: Totals) => counts(u).webSearches)
    && sum.webFetches == Added(us, (u: Totals) => counts(u).webFetches)
  }

  /** What the last session that reported one reported. */
  predicate LastReported<T(==)>(last: Option<T>, reports: seq<Option<T>>) {
    if last.None? then forall i :: 0 <= i < |reports| ==> reports[i].None?
    else exists k :: 0 <= k < |reports| && reports[k] == last && forall i :: k < i < |reports| ==> reports[i].None?
  }

  /** The sum of what was reported; nothing when nothing was. */
  predicate ReportsAdded(sum: Option<nat>, reports: seq<Option<nat>>) {
    if sum.None? then forall i :: 0 <= i < |reports| ==> reports[i].None?
    else (exists i :: 0 <= i < |reports| && reports[i].Some?)
         && sum.value == Added(reports, (r: Option<nat>) => if r.Some? then r.value else 0)
  }

  /** The costs in the currency that was reported first. */
  predicate CostsAdded(sum: Option<Cost>, costs: seq<Option<Cost>>) {
    if sum.None? then forall i :: 0 <= i < |costs| ==> costs[i].None?
    else
      && (exists k :: 0 <= k < |costs| && costs[k].Some? && costs[k].value.currency == sum.value.currency
                      && forall i :: 0 <= i < k ==> costs[i].None?)
      && sum.value.micros == Added(costs, (c: Option<Cost>) => if c.Some? && c.value.currency == sum.value.currency then c.value.micros else 0)
  }

  function Reports<T>(us: seq<Totals>, f: Totals -> T): (r: seq<T>)
    ensures |r| == |us| && forall i :: 0 <= i < |us| ==> r[i] == f(us[i])
  {
    seq(|us|, i requires 0 <= i < |us| => f(us[i]))
  }

  lemma {:induction false} AddedNext<T>(items: seq<T>, x: T, f: T -> nat)
    ensures Added(items + [x], f) == Added(items, f) + f(x)
  {
    assert (items + [x])[..|items|] == items;
  }

  lemma AddedUpNext(sum: Counts, us: seq<Totals>, u: Totals, counts: Totals -> Counts)
    requires AddedUp(sum, us, counts)
    ensures AddedUp(AddCounts(sum, counts(u)), us + [u], counts)
  {
    hide Added;
    AddedNext(us, u, (u: Totals) => counts(u).requests);
    AddedNext(us, u, (u: Totals) => counts(u).input);
    AddedNext(us, u, (u: Totals) => counts(u).output);
    AddedNext(us, u, (u: Totals) => counts(u).cacheRead);
    AddedNext(us, u, (u: Totals) => counts(u).cacheWrite);
    AddedNext(us, u, (u: Totals) => counts(u).cacheWrite5m);
    AddedNext(us, u, (u: Totals) => counts(u).cacheWrite1h);
    AddedNext(us, u, (u: Totals) => counts(u).thinking);
    AddedNext(us, u, (u: Totals) => counts(u).webSearches);
    AddedNext(us, u, (u: Totals) => counts(u).webFetches);
  }

  lemma LastReportedNext<T>(last: Option<T>, reports: seq<Option<T>>, x: Option<T>)
    requires LastReported(last, reports)
    ensures LastReported(Later(last, x), reports + [x])
  {
    var longer := reports + [x];
    if x.Some? {
      assert longer[|reports|] == x;
    } else if last.Some? {
      var k :| 0 <= k < |reports| && reports[k] == last && forall i :: k < i < |reports| ==> reports[i].None?;
      assert longer[k] == last;
    }
  }

  lemma ReportsAddedNext(sum: Option<nat>, reports: seq<Option<nat>>, x: Option<nat>)
    requires ReportsAdded(sum, reports)
    ensures ReportsAdded(AddReported(sum, x), reports + [x])
  {
    var longer, f := reports + [x], (r: Option<nat>) => if r.Some? then r.value else 0;
    AddedNext(reports, x, f);
    if sum.None? {
      NothingAdded(reports, f);
    } else {
      var i :| 0 <= i < |reports| && reports[i].Some?;
      assert longer[i] == reports[i];
    }
    assert longer[|reports|] == x;
  }

  lemma {:induction false} NothingAdded<T>(items: seq<T>, f: T -> nat)
    requires forall i :: 0 <= i < |items| ==> f(items[i]) == 0
    ensures Added(items, f) == 0
  {
    if items != [] {
      NothingAdded(items[..|items| - 1], f);
    }
  }

  lemma CostsAddedNext(sum: Option<Cost>, costs: seq<Option<Cost>>, x: Option<Cost>)
    requires CostsAdded(sum, costs)
    ensures CostsAdded(AddCost(sum, x), costs + [x])
  {
    var longer, now := costs + [x], AddCost(sum, x);
    assert longer[|costs|] == x;
    if now.Some? {
      var f := (c: Option<Cost>) => if c.Some? && c.value.currency == now.value.currency then c.value.micros else 0;
      AddedNext(costs, x, f);
      if sum.None? {
        NothingAdded(costs, f);
      } else {
        var k :| 0 <= k < |costs| && costs[k].Some? && costs[k].value.currency == sum.value.currency && forall i :: 0 <= i < k ==> costs[i].None?;
        assert longer[k] == costs[k];
        assert sum.value.currency == now.value.currency;
        SameAdded(costs, f, (c: Option<Cost>) => if c.Some? && c.value.currency == sum.value.currency then c.value.micros else 0);
      }
    }
  }

  lemma {:induction false} SameAdded<T>(items: seq<T>, f: T -> nat, g: T -> nat)
    requires forall i :: 0 <= i < |items| ==> f(items[i]) == g(items[i])
    ensures Added(items, f) == Added(items, g)
  {
    if items != [] {
      SameAdded(items[..|items| - 1], f, g);
    }
  }

  lemma ReportsNext<T>(us: seq<Totals>, u: Totals, f: Totals -> T)
    ensures Reports(us + [u], f) == Reports(us, f) + [f(u)]
  {
  }

  function OfModel(model: string): Totals -> Counts {
    (u: Totals) => CountsOf(u.byModel, model)
  }

  /** Each count is the sum of the sessions' counts, for all models and for each. */
  ghost predicate CountsAddUp(sum: Totals, us: seq<Totals>) {
    && AddedUp(sum.total, us, (u: Totals) => u.total)
    && AddedUp(sum.subagents, us, (u: Totals) => u.subagents)
    && (forall m :: AddedUp(CountsOf(sum.byModel, m), us, OfModel(m)))
  }

  /** The context, its window, the models and the effort are those last reported; durations and
      lines the sums of those reported; and the cost that of the sessions in the currency first
      reported. */
  ghost predicate ReportsAddUp(sum: Totals, us: seq<Totals>) {
    && LastReported(sum.contextTokens, Reports(us, (u: Totals) => u.contextTokens))
    && LastReported(sum.contextWindow, Reports(us, (u: Totals) => u.contextWindow))
    && LastReported(sum.model, Reports(us, (u: Totals) => u.model))
    && LastReported(sum.agentModel, Reports(us, (u: Totals) => u.agentModel))
    && LastReported(sum.agentEffort, Reports(us, (u: Totals) => u.agentEffort))
    && ReportsAdded(sum.apiDuration, Reports(us, (u: Totals) => u.apiDuration))
    && ReportsAdded(sum.linesAdded, Reports(us, (u: Totals) => u.linesAdded))
    && ReportsAdded(sum.linesRemoved, Reports(us, (u: Totals) => u.linesRemoved))
    && CostsAdded(sum.cost, Reports(us, (u: Totals) => u.cost))
  }

  lemma CountsAddUpNext(sum: Totals, us: seq<Totals>, u: Totals)
    requires CountsAddUp(sum, us)
    ensures CountsAddUp(Plus(sum, u), us + [u])
  {
    hide AddedUp, AddCounts, LastReported, ReportsAdded, CostsAdded, AddByModel;
    AddedUpNext(sum.total, us, u, (u: Totals) => u.total);
    AddedUpNext(sum.subagents, us, u, (u: Totals) => u.subagents);
    forall m ensures AddedUp(CountsOf(Plus(sum, u).byModel, m), us + [u], OfModel(m)) {
      CountOfSum(sum.byModel, u.byModel, m);
      AddedUpNext(CountsOf(sum.byModel, m), us, u, OfModel(m));
    }
  }

  lemma ReportsAddUpNext(sum: Totals, us: seq<Totals>, u: Totals)
    requires ReportsAddUp(sum, us)
    ensures ReportsAddUp(Plus(sum, u), us + [u])
  {
    hide AddedUp, AddCounts, LastReported, ReportsAdded, CostsAdded, AddByModel, Later, AddReported, AddCost;
    ReportsNext(us, u, (u: Totals) => u.contextTokens);
    LastReportedNext(sum.contextTokens, Reports(us, (u: Totals) => u.contextTokens), u.contextTokens);
    ReportsNext(us, u, (u: Totals) => u.contextWindow);
    LastReportedNext(sum.contextWindow, Reports(us, (u: Totals) => u.contextWindow), u.contextWindow);
    ReportsNext(us, u, (u: Totals) => u.model);
    LastReportedNext(sum.model, Reports(us, (u: Totals) => u.model), u.model);
    ReportsNext(us, u, (u: Totals) => u.agentModel);
    LastReportedNext(sum.agentModel, Reports(us, (u: Totals) => u.agentModel), u.agentModel);
    ReportsNext(us, u, (u: Totals) => u.agentEffort);
    LastReportedNext(sum.agentEffort, Reports(us, (u: Totals) => u.agentEffort), u.agentEffort);
    ReportsNext(us, u, (u: Totals) => u.apiDuration);
    ReportsAddedNext(sum.apiDuration, Reports(us, (u: Totals) => u.apiDuration), u.apiDuration);
    ReportsNext(us, u, (u: Totals) => u.linesAdded);
    ReportsAddedNext(sum.linesAdded, Reports(us, (u: Totals) => u.linesAdded), u.linesAdded);
    ReportsNext(us, u, (u: Totals) => u.linesRemoved);
    ReportsAddedNext(sum.linesRemoved, Reports(us, (u: Totals) => u.linesRemoved), u.linesRemoved);
    ReportsNext(us, u, (u: Totals) => u.cost);
    CostsAddedNext(sum.cost, Reports(us, (u: Totals) => u.cost), u.cost);
  }

  /** The sum of any sessions, field by field. */
  lemma {:induction false} SessionsAddUp(us: seq<Totals>)
    ensures CountsAddUp(SumOf(us), us) && ReportsAddUp(SumOf(us), us)
  {
    hide CountsAddUp, ReportsAddUp, Plus;
    if us == [] {
      NoCounts(us);
      NoReports();
    } else {
      var before, u := us[..|us| - 1], us[|us| - 1];
      SessionsAddUp(before);
      CountsAddUpNext(SumOf(before), before, u);
      ReportsAddUpNext(SumOf(before), before, u);
      assert us == before + [u];
    }
  }

  lemma {:induction false} NothingAddsUp(us: seq<Totals>, counts: Totals -> Counts)
    requires us == []
    ensures AddedUp(NOTHING, us, counts)
  {
  }

  lemma NoneOf(model: string)
    ensures CountsOf(UNREPORTED.byModel, model) == NOTHING
  {
  }

  lemma NoCounts(us: seq<Totals>)
    requires us == []
    ensures CountsAddUp(UNREPORTED, us)
  {
    hide AddedUp, CountsOf, OfModel;
    NothingAddsUp(us, (u: Totals) => u.total);
    NothingAddsUp(us, (u: Totals) => u.subagents);
    forall m ensures AddedUp(CountsOf(UNREPORTED.byModel, m), us, OfModel(m)) {
      NoneOf(m);
      NothingAddsUp(us, OfModel(m));
    }
  }

  lemma NoReports()
    ensures ReportsAddUp(UNREPORTED, [])
  {
    hide AddedUp;
  }

  // ---- Cost states -------------------------------------------------------------------------

  /** One record of a process's running totals; a process is known by its start. */
  datatype CostState = CostState(
    start: nat,
    cost: Option<Cost>,
    apiDuration: Option<nat>,
    linesAdded: Option<nat>,
    linesRemoved: Option<nat>)

  function Micros(cost: Option<Cost>): nat {
    if cost.Some? then cost.value.micros else 0
  }

  predicate Keeps(latest: map<nat, CostState>, state: CostState) {
    state.start in latest ==> Micros(state.cost) >= Micros(latest[state.start].cost)
  }

  function Noted(latest: map<nat, CostState>, state: CostState): map<nat, CostState> {
    if Keeps(latest, state) then latest[state.start := state] else latest
  }

  function Latest(states: seq<CostState>): map<nat, CostState> {
    if states == [] then map[] else Noted(Latest(states[..|states| - 1]), states[|states| - 1])
  }

  function Contribution(state: CostState): Totals {
    UNREPORTED.(cost := if Micros(state.cost) > 0 then state.cost else None,
                apiDuration := state.apiDuration, linesAdded := state.linesAdded, linesRemoved := state.linesRemoved)
  }

  predicate IsLargest(keys: set<nat>, r: nat) {
    r in keys && forall k :: k in keys ==> k <= r
  }

  predicate IsSmallest(keys: set<nat>, r: nat) {
    r in keys && forall k :: k in keys ==> r <= k
  }

  function Largest(keys: set<nat>): (r: nat)
    requires keys != {}
    ensures IsLargest(keys, r)
  {
    EndsExist(keys);
    var r: nat :| IsLargest(keys, r);
    r
  }

  lemma {:induction false} EndsExist(keys: set<nat>)
    requires keys != {}
    ensures (exists r: nat :: IsLargest(keys, r)) && exists r: nat :: IsSmallest(keys, r)
  {
    var k :| k in keys;
    var rest := keys - {k};
    assert forall j :: j in keys ==> j == k || j in rest;
    if rest == {} {
      assert IsLargest(keys, k) && IsSmallest(keys, k);
    } else {
      EndsExist(rest);
      var most: nat :| IsLargest(rest, most);
      var least: nat :| IsSmallest(rest, least);
      assert IsLargest(keys, if most < k then k else most);
      assert IsSmallest(keys, if k < least then k else least);
    }
  }

  /** The records of the processes `keys`, added in the order of their starts. */
  function AddAll(usage: Totals, latest: map<nat, CostState>, keys: set<nat>): Totals
    requires keys <= latest.Keys
    decreases |keys|
  {
    if keys == {} then usage
    else
      var last := Largest(keys);
      Plus(AddAll(usage, latest, keys - {last}), Contribution(latest[last]))
  }

  function Applied(usage: Totals, states: seq<CostState>): Totals {
    AddAll(usage, Latest(states), Latest(states).Keys)
  }

  class TokenUsage {
    var total: Counts
    var byModel: map<string, Counts>
    var subagents: Counts
    var contextTokens: Option<nat>
    var contextWindow: Option<nat>
    var cost: Option<Cost>
    var apiDuration: Option<nat>
    var linesAdded: Option<nat>
    var linesRemoved: Option<nat>
    var model: Option<string>
    var agentModel: Option<string>
    var agentEffort: Option<string>

    ghost function View(): Totals
      reads this
    {
      Totals(total, byModel, subagents, contextTokens, contextWindow, cost, apiDuration, linesAdded, linesRemoved,
             model, agentModel, agentEffort)
    }

    constructor ()
      ensures View() == UNREPORTED
    {
      total, byModel, subagents := NOTHING, map[], NOTHING;
      contextTokens, contextWindow, cost := None, None, None;
      apiDuration, linesAdded, linesRemoved := None, None, None;
      model, agentModel, agentEffort := None, None, None;
    }

    method AddModels(theirs: map<string, Counts>)
      modifies this`byModel
      ensures byModel == AddByModel(old(byModel), theirs)
    {
      var left := theirs.Keys;
      while left != {}
        invariant left <= theirs.Keys
        invariant byModel.Keys == old(byModel).Keys + (theirs.Keys - left)
        invariant forall m :: m in byModel ==>
                    byModel[m] == if m in theirs && m !in left then AddCounts(CountsOf(old(byModel), m), theirs[m])
                                  else CountsOf(old(byModel), m)
        decreases left
      {
        var name :| name in left;
        left := left - {name};
        byModel := byModel[name := AddCounts(CountsOf(byModel, name), theirs[name])];
      }
    }

    method TakeCost(theirs: Option<Cost>)
      modifies this`cost
      ensures cost == AddCost(old(cost), theirs)
    {
      if cost.Some? && theirs.Some? && cost.value.currency == theirs.value.currency {
        cost := Some(Cost(cost.value.micros + theirs.value.micros, cost.value.currency));
      } else if cost.None? {
        cost := theirs;
      }
    }

    method AddReports(other: Totals)
      modifies this`apiDuration, this`linesAdded, this`linesRemoved
      ensures apiDuration == AddReported(old(apiDuration), other.apiDuration)
      ensures linesAdded == AddReported(old(linesAdded), other.linesAdded)
      ensures linesRemoved == AddReported(old(linesRemoved), other.linesRemoved)
    {
      apiDuration := AddReported(apiDuration, other.apiDuration);
      linesAdded := AddReported(linesAdded, other.linesAdded);
      linesRemoved := AddReported(linesRemoved, other.linesRemoved);
    }

    method TakeLater(other: Totals)
      modifies this`contextTokens, this`contextWindow, this`model, this`agentModel, this`agentEffort
      ensures contextTokens == Later(old(contextTokens), other.contextTokens)
      ensures contextWindow == Later(old(contextWindow), other.contextWindow)
      ensures model == Later(old(model), other.model)
      ensures agentModel == Later(old(agentModel), other.agentModel)
      ensures agentEffort == Later(old(agentEffort), other.agentEffort)
    {
      contextTokens := Later(contextTokens, other.contextTokens);
      contextWindow := Later(contextWindow, other.contextWindow);
      model := Later(model, other.model);
      agentModel := Later(agentModel, other.agentModel);
      agentEffort := Later(agentEffort, other.agentEffort);
    }

    method Add(other: Totals)
      modifies this
      ensures View() == Plus(old(View()), other)
    {
      hide AddCounts, AddByModel, AddReported, Later, AddCost;
      total := AddCounts(total, other.total);
      subagents := AddCounts(subagents, other.subagents);
      AddModels(other.byModel);
      TakeCost(other.cost);
      AddReports(other);
      TakeLater(other);
    }

    /** Each process's latest totals. */
    method LatestOf(states: seq<CostState>) returns (latest: map<nat, CostState>)
      ensures latest == Latest(states)
    {
      latest := map[];
      for i := 0 to |states|
        invariant latest == Latest(states[..i])
      {
        var state := states[i];
        assert states[..i + 1][..i] == states[..i];
        if state.start !in latest || Micros(state.cost) >= Micros(latest[state.start].cost) {
          latest := latest[state.start := state];
        }
      }
      assert states[..|states|] == states;
    }

    method ApplyCostStates(states: seq<CostState>)
      modifies this
      ensures View() == Applied(old(View()), states)
    {
      hide Latest, Plus;
      var latest := LatestOf(states);
      ghost var before := View();
      var left := latest.Keys;
      while left != {}
        invariant left <= latest.Keys
        invariant forall k, j :: k in latest.Keys - left && j in left ==> k < j
        invariant View() == AddAll(before, latest, latest.Keys - left)
        decreases left
      {
        EndsExist(left);
        var next: nat :| next in left && IsSmallest(left, next);
        var done := latest.Keys - left;
        left := left - {next};
        assert latest.Keys - left == done + {next} && IsLargest(done + {next}, next);
        assert done + {next} - {next} == done;
        Add(Contribution(latest[next]));
      }
      assert latest.Keys - left == latest.Keys;
    }
  }

  // ---- What the cost states come to --------------------------------------------------------

  /** The process shows at most `micros` in its records. */
  predicate ShowsAtMost(states: seq<CostState>, start: nat, micros: nat) {
    forall i :: 0 <= i < |states| && states[i].start == start && states[i].cost.Some? ==> states[i].cost.value.micros <= micros
  }

  /** Record `k` is the last of those of its process that show its most. */
  predicate LastMost(states: seq<CostState>, start: nat, k: nat) {
    && k < |states| && states[k].start == start
    && var most := if states[k].cost.Some? then states[k].cost.value.micros else 0;
       && ShowsAtMost(states, start, most)
       && forall i :: k < i < |states| && states[i].start == start ==>
            most > if states[i].cost.Some? then states[i].cost.value.micros else 0
  }

  lemma MostStays(states: seq<CostState>, state: CostState, start: nat, k: nat)
    requires LastMost(states, start, k) && (state.start == start ==> Micros(state.cost) < Micros(states[k].cost))
    ensures LastMost(states + [state], start, k)
  {
  }

  lemma MostIsNew(states: seq<CostState>, state: CostState)
    requires ShowsAtMost(states, state.start, Micros(state.cost))
    ensures LastMost(states + [state], state.start, |states|)
  {
  }

  predicate HasRecord(states: seq<CostState>, start: nat) {
    exists k :: 0 <= k < |states| && states[k].start == start
  }

  lemma RecordsAppend(states: seq<CostState>, state: CostState, start: nat)
    ensures HasRecord(states + [state], start) <==> HasRecord(states, start) || state.start == start
  {
    var longer := states + [state];
    assert longer[|states|] == state;
    if HasRecord(states, start) {
      var k :| 0 <= k < |states| && states[k].start == start;
      assert longer[k] == states[k];
    }
  }

  lemma NoRecordShowsLittle(states: seq<CostState>, start: nat, micros: nat)
    requires !HasRecord(states, start)
    ensures ShowsAtMost(states, start, micros)
  {
  }

  /** Each process that has a record keeps the last one that shows its most. */
  lemma {:induction false} KeptIsLastMost(states: seq<CostState>, start: nat)
    ensures start in Latest(states) <==> HasRecord(states, start)
    ensures start in Latest(states) ==> exists k: nat :: k < |states| && LastMost(states, start, k) && states[k] == Latest(states)[start]
  {
    hide LastMost, HasRecord, ShowsAtMost;
    if states == [] {
      assert !HasRecord(states, start) by { NoRecords(start); }
    } else {
      var before, state := states[..|states| - 1], states[|states| - 1];
      assert states == before + [state];
      KeptIsLastMost(before, start);
      RecordsAppend(before, state, start);
      if start in Latest(before) {
        var k: nat :| k < |before| && LastMost(before, start, k) && before[k] == Latest(before)[start];
        StayOrNew(before, state, start, k);
      } else if state.start == start {
        NoRecordShowsLittle(before, start, Micros(state.cost));
        MostIsNew(before, state);
      }
    }
  }

  lemma NoRecords(start: nat)
    ensures !HasRecord([], start)
  {
  }

  lemma StayOrNew(states: seq<CostState>, state: CostState, start: nat, k: nat)
    requires LastMost(states, start, k)
    ensures if state.start == start && Micros(state.cost) >= Micros(states[k].cost) then LastMost(states + [state], start, |states|)
            else LastMost(states + [state], start, k) && (states + [state])[k] == states[k]
    ensures k < |states| && states[k].start == start
  {
    if state.start == start && Micros(state.cost) >= Micros(states[k].cost) {
      MostIsNew(states, state);
    } else {
      MostStays(states, state, start, k);
    }
  }

  lemma {:induction false} LatestOfMore(states: seq<CostState>, more: seq<CostState>, other: seq<CostState>)
    requires Latest(states) == Latest(other)
    ensures Latest(states + more) == Latest(other + more)
  {
    if more == [] {
      assert states + more == states && other + more == other;
    } else {
      var before := more[..|more| - 1];
      LatestOfMore(states, before, other);
      assert (states + more)[..|states + more| - 1] == states + before;
      assert (other + more)[..|other + more| - 1] == other + before;
    }
  }

  lemma {:induction false} LatestOfNext(states: seq<CostState>, a: CostState)
    ensures Latest(states + [a]) == Noted(Latest(states), a)
  {
    hide Noted;
    assert (states + [a])[..|states|] == states;
  }

  lemma {:induction false} LatestOfTwo(states: seq<CostState>, a: CostState, b: CostState)
    ensures Latest(states + [a, b]) == Noted(Noted(Latest(states), a), b)
  {
    hide Latest, Noted;
    LatestOfNext(states, a);
    LatestOfNext(states + [a], b);
    assert states + [a, b] == states + [a] + [b];
  }

  /** How the records of different processes interleave does not matter. */
  lemma SwapKeepsUsage(usage: Totals, states: seq<CostState>, a: CostState, b: CostState, more: seq<CostState>)
    requires a.start != b.start
    ensures Applied(usage, states + [a, b] + more) == Applied(usage, states + [b, a] + more)
  {
    LatestOfTwo(states, a, b);
    LatestOfTwo(states, b, a);
    assert Noted(Noted(Latest(states), a), b) == Noted(Noted(Latest(states), b), a);
    LatestOfMore(states + [a, b], more, states + [b, a]);
  }

  /** The most any record of the process shows. */
  function Most(states: seq<CostState>, start: nat): nat {
    if states == [] then 0
    else
      var before, state := Most(states[..|states| - 1], start), states[|states| - 1];
      if state.start == start && Micros(state.cost) > before then Micros(state.cost) else before
  }

  function SumOfMost(states: seq<CostState>, starts: set<nat>): nat
    decreases |starts|
  {
    if starts == {} then 0
    else SumOfMost(states, starts - {Largest(starts)}) + Most(states, Largest(starts))
  }

  lemma {:induction false} MostIsKept(states: seq<CostState>, start: nat)
    ensures Most(states, start) == if start in Latest(states) then Micros(Latest(states)[start].cost) else 0
  {
    if states != [] {
      MostIsKept(states[..|states| - 1], start);
    }
  }

  /** What the processes kept, the one with the largest start last. */
  function KeptReports(latest: map<nat, CostState>, keys: set<nat>, f: CostState -> Option<nat>): (r: seq<Option<nat>>)
    requires keys <= latest.Keys
    ensures |r| == |keys|
    decreases |keys|
  {
    if keys == {} then []
    else
      var last := Largest(keys);
      KeptReports(latest, keys - {last}, f) + [f(latest[last])]
  }

  /** The records change nothing but the cost, the duration and the lines; and those last three are
      added up over what each process kept. */
  lemma {:induction false} KeptAreAdded(usage: Totals, latest: map<nat, CostState>, keys: set<nat>)
    requires keys <= latest.Keys
    ensures var now := AddAll(usage, latest, keys);
            && now == usage.(cost := now.cost, apiDuration := now.apiDuration, linesAdded := now.linesAdded, linesRemoved := now.linesRemoved)
            && ReportsAdded(now.apiDuration, [usage.apiDuration] + KeptReports(latest, keys, (c: CostState) => c.apiDuration))
            && ReportsAdded(now.linesAdded, [usage.linesAdded] + KeptReports(latest, keys, (c: CostState) => c.linesAdded))
            && ReportsAdded(now.linesRemoved, [usage.linesRemoved] + KeptReports(latest, keys, (c: CostState) => c.linesRemoved))
    decreases |keys|
  {
    hide ReportsAdded, AddReported, AddCost, AddByModel, AddCounts;
    if keys == {} {
      OneReport(usage.apiDuration);
      OneReport(usage.linesAdded);
      OneReport(usage.linesRemoved);
    } else {
      var last := Largest(keys);
      var rest, c := keys - {last}, latest[last];
      var before := AddAll(usage, latest, rest);
      KeptAreAdded(usage, latest, rest);
      ContributionAdds(before, c);
      KeptNext(usage.apiDuration, latest, keys, (c: CostState) => c.apiDuration);
      KeptNext(usage.linesAdded, latest, keys, (c: CostState) => c.linesAdded);
      KeptNext(usage.linesRemoved, latest, keys, (c: CostState) => c.linesRemoved);
      ReportsAddedNext(before.apiDuration, [usage.apiDuration] + KeptReports(latest, rest, (c: CostState) => c.apiDuration), c.apiDuration);
      ReportsAddedNext(before.linesAdded, [usage.linesAdded] + KeptReports(latest, rest, (c: CostState) => c.linesAdded), c.linesAdded);
      ReportsAddedNext(before.linesRemoved, [usage.linesRemoved] + KeptReports(latest, rest, (c: CostState) => c.linesRemoved), c.linesRemoved);
    }
  }

  lemma OneReport(x: Option<nat>)
    ensures ReportsAdded(x, [x] + [])
  {
    var f := (r: Option<nat>) => if r.Some? then r.value else 0;
    AddedNext([], x, f);
    assert [] + [x] == [x] + [];
    assert ([x] + [])[0] == x;
  }

  lemma {:induction false} KeptNext(own: Option<nat>, latest: map<nat, CostState>, keys: set<nat>, f: CostState -> Option<nat>)
    requires keys <= latest.Keys && keys != {}
    ensures var last := Largest(keys);
            [own] + KeptReports(latest, keys, f) == [own] + KeptReports(latest, keys - {last}, f) + [f(latest[last])]
  {
  }

  lemma ContributionAdds(u: Totals, c: CostState)
    ensures var now := Plus(u, Contribution(c));
            && now == u.(cost := now.cost, apiDuration := now.apiDuration, linesAdded := now.linesAdded, linesRemoved := now.linesRemoved)
            && now.apiDuration == AddReported(u.apiDuration, c.apiDuration)
            && now.linesAdded == AddReported(u.linesAdded, c.linesAdded)
            && now.linesRemoved == AddReported(u.linesRemoved, c.linesRemoved)
  {
    hide AddReported;
    assert AddByModel(u.byModel, map[]) == u.byModel;
  }

  predicate AllIn(currency: string, cost: Option<Cost>) {
    cost.Some? ==> cost.value.currency == currency
  }

  /** In one currency, the cost is the sum over the processes of the most each shows. */
  lemma {:induction false} CostIsSumOfMost(usage: Totals, states: seq<CostState>, currency: string)
    requires AllIn(currency, usage.cost) && forall state :: state in states ==> AllIn(currency, state.cost)
    ensures var starts := set state | state in states :: state.start;
            var cost := Applied(usage, states).cost;
            && Micros(cost) == Micros(usage.cost) + SumOfMost(states, starts)
            && AllIn(currency, cost)
            && (cost.None? <==> usage.cost.None? && SumOfMost(states, starts) == 0)
  {
    var starts := set state | state in states :: state.start;
    forall start ensures start in starts <==> start in Latest(states) {
      KeptIsLastMost(states, start);
      if start in starts {
        var state :| state in states && state.start == start;
        var k :| 0 <= k < |states| && states[k] == state;
        assert HasRecord(states, start);
      }
    }
    forall start | start in Latest(states) ensures AllIn(currency, Latest(states)[start].cost) {
      KeptIsLastMost(states, start);
    }
    assert starts == Latest(states).Keys;
    CostOfAll(usage, states, starts, currency);
  }

  lemma {:induction false} CostOfAll(usage: Totals, states: seq<CostState>, starts: set<nat>, currency: string)
    requires starts <= Latest(states).Keys
    requires AllIn(currency, usage.cost) && forall start :: start in starts ==> AllIn(currency, Latest(states)[start].cost)
    ensures var cost := AddAll(usage, Latest(states), starts).cost;
            && Micros(cost) == Micros(usage.cost) + SumOfMost(states, starts)
            && AllIn(currency, cost)
            && (cost.None? <==> usage.cost.None? && SumOfMost(states, starts) == 0)
    decreases |starts|
  {
    if starts != {} {
      var last := Largest(starts);
      CostOfAll(usage, states, starts - {last}, currency);
      MostIsKept(states, last);
      var before := AddAll(usage, Latest(states), starts - {last});
      assert AddAll(usage, Latest(states), starts) == Plus(before, Contribution(Latest(states)[last]));
    }
  }
}
