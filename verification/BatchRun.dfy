/** `execute`: the lines of an accepted script run in order and independently. */
module BatchRun {
  import opened Text
  import Seqs
  import opened BatchParser

  /** What running one command gives: what it printed, or its error. */
  datatype Reply = Printed(output: string) | Refused(error: string)

  datatype Failure = CommandFailed(error: string) | NothingToBind

  datatype Outcome = Done(output: string, bound: Option<string>) | Failed(why: Failure) | Skipped(name: string)

  /** One line of the report. */
  datatype Line = Line(line: nat, outcome: Outcome)

  /** The commands of a batch, as the world answers them: a reply may depend on every call
      made so far, the last of which is the one it replies to. */
  type World = seq<seq<string>> -> Reply

  /** What a JSON value has under a key. */
  datatype Field = Absent | Holds(text: string) | NotText

  datatype Value = NotJson | Value(slug: Field, id: Field)

  /** What a line of output is as JSON. */
  type Json = string -> Value

  // ---- One line --------------------------------------------------------------------------

  /** `split_whitespace().last()`. */
  function LastWord(s: string): (w: Option<string>)
    ensures w.Some? ==> w.value != "" && forall i :: 0 <= i < |w.value| ==> !IsWhitespace(w.value[i])
    ensures w.None? <==> forall i :: 0 <= i < |s| ==> IsWhitespace(s[i])
    decreases |s|
  {
    if s == "" then None
    else if IsWhitespace(s[|s| - 1]) then LastWord(s[..|s| - 1])
    else if |s| == 1 || IsWhitespace(s[|s| - 2]) then Some([s[|s| - 1]])
    else Some(LastWord(s[..|s| - 1]).value + [s[|s| - 1]])
  }

  /** What `$name` stands for after a command printed `output`. */
  function BindingOf(output: string, json: Json): Option<string> {
    if Lines(output) == [] then None
    else
      var first := Trim(Lines(output)[0]);
      match json(first)
      case Value(slug, id) =>
        var held := if slug.Absent? then id else slug;
        if held.Holds? then Some(held.text) else None
      case NotJson => LastWord(first)
  }

  datatype Run = Run(vars: map<string, string>, lines: seq<Line>, calls: seq<seq<string>>)

  const START := Run(map[], [], [])

  /** The arguments with each variable replaced; the first variable without a value is the error. */
  function Resolve(tokens: seq<string>, vars: map<string, string>): Result<seq<string>, string> {
    if tokens == [] then Ok([])
    else
      var name := VariableOf(tokens[0]);
      if name.Some? && name.value !in vars then Err(name.value)
      else
        var value := if name.Some? then vars[name.value] else tokens[0];
        match Resolve(tokens[1..], vars)
        case Err(missing) => Err(missing)
        case Ok(rest) => Ok([value] + rest)
  }

  function Finished(bind: Option<string>, reply: Reply, json: Json): Outcome {
    match reply
    case Refused(error) => Failed(CommandFailed(error))
    case Printed(output) =>
      if bind.None? then Done(output, None)
      else
        match BindingOf(output, json)
        case Some(value) => Done(output, Some(value))
        case None => Failed(NothingToBind)
  }

  function Bindings(bind: Option<string>, o: Outcome): map<string, string> {
    if bind.Some? && o.Done? && o.bound.Some? then map[bind.value := o.bound.value] else map[]
  }

  function Step(item: Item, r: Run, world: World, json: Json): Run {
    match Resolve(item.tokens, r.vars)
    case Err(name) => r.(lines := r.lines + [Line(item.line, Skipped(name))])
    case Ok(argv) =>
      var calls := r.calls + [argv];
      var o := Finished(item.bind, world(calls), json);
      Run(r.vars + Bindings(item.bind, o), r.lines + [Line(item.line, o)], calls)
  }

  /** The run of the first `n` items. */
  function RunOf(items: seq<Item>, n: nat, world: World, json: Json): Run
    requires n <= |items|
  {
    if n == 0 then START else Step(items[n - 1], RunOf(items, n - 1, world, json), world, json)
  }

  // ---- The loop --------------------------------------------------------------------------

  function Executed(items: seq<Item>, world: World, json: Json): Run {
    RunOf(items, |items|, world, json)
  }

  /** The arguments put in so far, then the rest. */
  function PrependArgs(done: seq<string>, r: Result<seq<string>, string>): Result<seq<string>, string> {
    if r.Ok? then Ok(done + r.value) else r
  }

  lemma {:induction false} PrependArg(done: seq<string>, value: string, tokens: seq<string>, vars: map<string, string>)
    requires tokens != [] && var name := VariableOf(tokens[0]);
             if name.Some? then name.value in vars && value == vars[name.value] else value == tokens[0]
    ensures PrependArgs(done, Resolve(tokens, vars)) == PrependArgs(done + [value], Resolve(tokens[1..], vars))
  {
    var rest := Resolve(tokens[1..], vars);
    if rest.Ok? {
      Seqs.Assoc(done, [value], rest.value);
    }
  }

  lemma PrependNone(done: seq<string>, r: Result<seq<string>, string>)
    ensures PrependArgs([], r) == r
    ensures PrependArgs(done, Ok([])) == Ok(done)
  {
    Seqs.Neutral(done);
    if r.Ok? {
      Seqs.Neutral(r.value);
    }
  }

  /** The loop over one line's arguments: stops at the first variable that is not bound. */
  method Substitute(tokens: seq<string>, vars: map<string, string>) returns (r: Result<seq<string>, string>)
    ensures r == Resolve(tokens, vars)
  {
    var argv: seq<string> := [];
    assert tokens[0..] == tokens;
    PrependNone([], Resolve(tokens, vars));
    for k := 0 to |tokens|
      invariant Resolve(tokens, vars) == PrependArgs(argv, Resolve(tokens[k..], vars))
    {
      assert tokens[k..][1..] == tokens[k + 1..];
      var name := VariableOf(tokens[k]);
      if name.Some? && name.value !in vars {
        return Err(name.value);
      }
      var value := if name.Some? then vars[name.value] else tokens[k];
      PrependArg(argv, value, tokens[k..], vars);
      argv := argv + [value];
    }
    PrependNone(argv, Ok([]));
    return Ok(argv);
  }

  method Execute(items: seq<Item>, world: World, json: Json)
    returns (report: seq<Line>, calls: seq<seq<string>>)
    ensures report == Executed(items, world, json).lines
    ensures calls == Executed(items, world, json).calls
  {
    var vars: map<string, string> := map[];
    report, calls := [], [];
    for n := 0 to |items|
      invariant Run(vars, report, calls) == RunOf(items, n, world, json)
    {
      var item := items[n];
      var argv := Substitute(item.tokens, vars);
      if argv.Err? {
        report := report + [Line(item.line, Skipped(argv.error))];
      } else {
        calls := calls + [argv.value];
        var o := Finished(item.bind, world(calls), json);
        vars := vars + Bindings(item.bind, o);
        report := report + [Line(item.line, o)];
      }
    }
  }

  // ---- What a report says ----------------------------------------------------------------

  /** What line `j` produced for `name`, if it did. */
  function ProducedBy(items: seq<Item>, report: seq<Line>, j: nat, name: string): Option<string>
    requires j < |items| && j < |report|
  {
    if items[j].bind == Some(name) && report[j].outcome.Done? then report[j].outcome.bound else None
  }

  /** The value of `name` before line `i`: what the latest earlier line that produced one produced. */
  function ValueBefore(items: seq<Item>, report: seq<Line>, i: nat, name: string): (v: Option<string>)
    requires i <= |items| && i <= |report|
    ensures v.Some? <==> exists j :: 0 <= j < i && ProducedBy(items, report, j, name).Some?
  {
    if i == 0 then None
    else if ProducedBy(items, report, i - 1, name).Some? then ProducedBy(items, report, i - 1, name)
    else ValueBefore(items, report, i - 1, name)
  }

  /** A line's arguments with the latest values substituted. */
  function ArgvAt(items: seq<Item>, report: seq<Line>, i: nat, tokens: seq<string>): (argv: seq<string>)
    requires i <= |items| && i <= |report|
    ensures |argv| == |tokens|
  {
    if tokens == [] then []
    else
      var name := VariableOf(tokens[0]);
      var value := if name.Some? then ValueBefore(items, report, i, name.value) else None;
      [if value.Some? then value.value else tokens[0]] + ArgvAt(items, report, i, tokens[1..])
  }

  /** The calls of the first `n` lines: exactly those not skipped, in order. */
  function CallsOf(items: seq<Item>, report: seq<Line>, n: nat): seq<seq<string>>
    requires n <= |items| && n <= |report|
  {
    if n == 0 then []
    else
      var before := CallsOf(items, report, n - 1);
      if report[n - 1].outcome.Skipped? then before
      else before + [ArgvAt(items, report, n - 1, items[n - 1].tokens)]
  }

  /** Argument `k` of line `i` is the variable `name`, no earlier line produced a value for
      it, and the variables before it in the line have one. */
  ghost predicate FirstMissing(items: seq<Item>, report: seq<Line>, i: nat, k: nat, name: string)
    requires i < |items| && i <= |report| && k < |items[i].tokens|
  {
    && VariableOf(items[i].tokens[k]) == Some(name)
    && ValueBefore(items, report, i, name).None?
    && forall h, other :: 0 <= h < k && VariableOf(items[i].tokens[h]) == Some(other)
         ==> ValueBefore(items, report, i, other).Some?
  }

  lemma {:induction false} ValueBeforeFrame(items: seq<Item>, a: seq<Line>, b: seq<Line>, i: nat, name: string)
    requires i <= |items| && i <= |a| <= |b| && b[..|a|] == a
    ensures ValueBefore(items, a, i, name) == ValueBefore(items, b, i, name)
  {
    if i > 0 {
      ValueBeforeFrame(items, a, b, i - 1, name);
      assert b[i - 1] == b[..|a|][i - 1];
    }
  }

  lemma {:induction false} ArgvAtFrame(items: seq<Item>, a: seq<Line>, b: seq<Line>, i: nat, tokens: seq<string>)
    requires i <= |items| && i <= |a| <= |b| && b[..|a|] == a
    ensures ArgvAt(items, a, i, tokens) == ArgvAt(items, b, i, tokens)
  {
    if tokens != [] {
      ArgvAtFrame(items, a, b, i, tokens[1..]);
      var name := VariableOf(tokens[0]);
      if name.Some? { ValueBeforeFrame(items, a, b, i, name.value); }
    }
  }

  lemma {:induction false} CallsOfFrame(items: seq<Item>, a: seq<Line>, b: seq<Line>, n: nat)
    requires n <= |items| && n <= |a| <= |b| && b[..|a|] == a
    ensures CallsOf(items, a, n) == CallsOf(items, b, n)
  {
    if n > 0 {
      CallsOfFrame(items, a, b, n - 1);
      ArgvAtFrame(items, a, b, n - 1, items[n - 1].tokens);
      assert b[n - 1] == b[..|a|][n - 1];
    }
  }

  ghost predicate VarsAre(items: seq<Item>, r: Run, n: nat)
    requires n <= |items| && n <= |r.lines|
  {
    forall name :: ValueBefore(items, r.lines, n, name) == if name in r.vars then Some(r.vars[name]) else None
  }

  /** The first variable of `tokens` without a value before line `n`. */
  ghost predicate MissingIn(tokens: seq<string>, k: nat, name: string, vars: map<string, string>)
    requires k < |tokens|
  {
    && VariableOf(tokens[k]) == Some(name)
    && name !in vars
    && forall h, other :: 0 <= h < k && VariableOf(tokens[h]) == Some(other) ==> other in vars
  }

  lemma {:induction false} ResolveFindsFirstMissing(tokens: seq<string>, vars: map<string, string>, k: nat, name: string)
    requires k < |tokens| && MissingIn(tokens, k, name, vars)
    ensures Resolve(tokens, vars) == Err(name)
  {
    if k > 0 {
      assert tokens[1..][k - 1] == tokens[k];
      forall h, other | 0 <= h < k - 1 && VariableOf(tokens[1..][h]) == Some(other) ensures other in vars {
        assert tokens[1..][h] == tokens[h + 1];
      }
      ResolveFindsFirstMissing(tokens[1..], vars, k - 1, name);
    }
  }

  lemma {:induction false} ResolveFailsAtFirstMissing(tokens: seq<string>, vars: map<string, string>)
    requires Resolve(tokens, vars).Err?
    ensures exists k :: 0 <= k < |tokens| && MissingIn(tokens, k, Resolve(tokens, vars).error, vars)
  {
    var name := VariableOf(tokens[0]);
    if name.Some? && name.value !in vars {
      assert MissingIn(tokens, 0, name.value, vars);
    } else {
      ResolveFailsAtFirstMissing(tokens[1..], vars);
      var missing := Resolve(tokens[1..], vars).error;
      var k :| 0 <= k < |tokens[1..]| && MissingIn(tokens[1..], k, missing, vars);
      forall h, other | 0 <= h < k + 1 && VariableOf(tokens[h]) == Some(other) ensures other in vars {
        if h > 0 { assert tokens[h] == tokens[1..][h - 1]; }
      }
      assert MissingIn(tokens, k + 1, missing, vars);
    }
  }

  lemma {:induction false} ResolveSubstitutes(items: seq<Item>, r: Run, n: nat, tokens: seq<string>)
    requires n <= |items| && n <= |r.lines| && VarsAre(items, r, n)
    requires Resolve(tokens, r.vars).Ok?
    ensures Resolve(tokens, r.vars) == Ok(ArgvAt(items, r.lines, n, tokens))
  {
    if tokens != [] {
      ResolveSubstitutes(items, r, n, tokens[1..]);
    }
  }

  /** What every prefix of a run keeps. */
  ghost predicate RunInv(items: seq<Item>, r: Run, n: nat)
    requires n <= |items|
  {
    && |r.lines| == n
    && (forall i :: 0 <= i < n ==> r.lines[i].line == items[i].line)
    && VarsAre(items, r, n)
    && r.calls == CallsOf(items, r.lines, n)
  }

  lemma StepKeepsLines(items: seq<Item>, n: nat, r: Run, world: World, json: Json)
    requires n < |items| && RunInv(items, r, n)
    ensures var s := Step(items[n], r, world, json);
            |s.lines| == n + 1 && s.lines[..n] == r.lines && s.lines[n].line == items[n].line
    ensures var s := Step(items[n], r, world, json);
            s.vars == r.vars + (if s.lines[n].outcome.Skipped? then map[] else Bindings(items[n].bind, s.lines[n].outcome))
    ensures var s := Step(items[n], r, world, json);
            s.lines[n].outcome.Skipped? <==> Resolve(items[n].tokens, r.vars).Err?
  {
    assert r.vars + map[] == r.vars;
  }

  lemma StepKeepsVars(items: seq<Item>, n: nat, r: Run, world: World, json: Json)
    requires n < |items| && RunInv(items, r, n)
    ensures var s := Step(items[n], r, world, json); |s.lines| == n + 1 && VarsAre(items, s, n + 1)
  {
    StepKeepsLines(items, n, r, world, json);
    var s := Step(items[n], r, world, json);
    forall name
      ensures ValueBefore(items, s.lines, n + 1, name) == if name in s.vars then Some(s.vars[name]) else None
    {
      ValueBeforeFrame(items, r.lines, s.lines, n, name);
    }
  }

  lemma {:induction false} StepKeepsCalls(items: seq<Item>, n: nat, r: Run, world: World, json: Json)
    requires n < |items| && RunInv(items, r, n)
    ensures var s := Step(items[n], r, world, json); |s.lines| == n + 1 && s.calls == CallsOf(items, s.lines, n + 1)
  {
    StepKeepsLines(items, n, r, world, json);
    var s, tokens := Step(items[n], r, world, json), items[n].tokens;
    CallsOfFrame(items, r.lines, s.lines, n);
    if Resolve(tokens, r.vars).Ok? {
      ResolveSubstitutes(items, r, n, tokens);
      ArgvAtFrame(items, r.lines, s.lines, n, tokens);
    }
  }

  lemma StartInv(items: seq<Item>)
    ensures RunInv(items, START, 0)
  {
  }

  lemma {:induction false} RunKeepsInv(items: seq<Item>, n: nat, world: World, json: Json)
    requires n <= |items|
    ensures RunInv(items, RunOf(items, n, world, json), n)
  {
    hide Step, VarsAre, CallsOf, Bindings, Resolve;
    if n == 0 {
      StartInv(items);
    } else {
      var r := RunOf(items, n - 1, world, json);
      RunKeepsInv(items, n - 1, world, json);
      StepKeepsLines(items, n - 1, r, world, json);
      StepKeepsVars(items, n - 1, r, world, json);
      StepKeepsCalls(items, n - 1, r, world, json);
    }
  }

  lemma {:induction false} RunGrows(items: seq<Item>, i: nat, n: nat, world: World, json: Json)
    requires i <= n <= |items|
    ensures RunOf(items, i, world, json).lines <= RunOf(items, n, world, json).lines
    decreases n
  {
    hide Step, VarsAre, CallsOf, Bindings, Resolve;
    if i < n {
      RunGrows(items, i, n - 1, world, json);
      RunKeepsInv(items, n - 1, world, json);
      StepKeepsLines(items, n - 1, RunOf(items, n - 1, world, json), world, json);
    }
  }

  /** Every behaviour of the commands: one outcome per item, in order; and the calls made are
      exactly the lines not skipped, each variable replaced by the latest value an earlier
      line produced for it. */
  lemma {:induction false} EveryLineHasOneOutcome(items: seq<Item>, world: World, json: Json)
    ensures var r := Executed(items, world, json);
            && |r.lines| == |items|
            && (forall i :: 0 <= i < |items| ==> r.lines[i].line == items[i].line)
            && r.calls == CallsOf(items, r.lines, |items|)
  {
    RunKeepsInv(items, |items|, world, json);
  }

  /** A line is skipped for `name` exactly when `$name` is its first argument that no earlier
      line produced a value for. */
  lemma {:induction false} SkippedExactlyWhenMissing(items: seq<Item>, i: nat, name: string, world: World, json: Json)
    requires i < |items|
    ensures var report := Executed(items, world, json).lines;
            && |report| == |items|
            && (report[i].outcome == Skipped(name)
                <==> exists k :: 0 <= k < |items[i].tokens| && FirstMissing(items, report, i, k, name))
  {
    var r, s := RunOf(items, i, world, json), RunOf(items, i + 1, world, json);
    var report, tokens := Executed(items, world, json).lines, items[i].tokens;
    RunKeepsInv(items, i, world, json);
    RunKeepsInv(items, |items|, world, json);
    RunGrows(items, i, |items|, world, json);
    RunGrows(items, i + 1, |items|, world, json);
    StepKeepsLines(items, i, r, world, json);
    assert report[i] == s.lines[i];
    forall other ensures ValueBefore(items, report, i, other).Some? <==> other in r.vars {
      ValueBeforeFrame(items, r.lines, report, i, other);
    }
    assert forall k :: 0 <= k < |tokens| ==> (FirstMissing(items, report, i, k, name) <==> MissingIn(tokens, k, name, r.vars));
    if k :| 0 <= k < |tokens| && FirstMissing(items, report, i, k, name) {
      ResolveFindsFirstMissing(tokens, r.vars, k, name);
    }
    if report[i].outcome == Skipped(name) {
      ResolveFailsAtFirstMissing(tokens, r.vars);
    }
  }

  /** The static check explains every skip: in an accepted script a line is skipped for `name`
      exactly when `$name` is its first argument such that at least one earlier line binds
      `name` and none of those produced a value. */
  lemma SkipsAreExplained(text: string, i: nat, name: string, world: World, json: Json)
    requires Parse(text).Ok? && i < |Parse(text).value|
    ensures var items := Parse(text).value;
            var report := Executed(items, world, json).lines;
            && |report| == |items|
            && (report[i].outcome == Skipped(name)
                <==> (exists k :: 0 <= k < |items[i].tokens| && FirstMissing(items, report, i, k, name))
                     && (exists j :: 0 <= j < i && items[j].bind == Some(name))
                     && (forall j :: 0 <= j < i && items[j].bind == Some(name)
                           ==> ProducedBy(items, report, j, name).None?))
  {
    hide VariableOf, Refers, Parse, Executed, BoundBefore;
    var items := Parse(text).value;
    var report := Executed(items, world, json).lines;
    AcceptedScriptIsSound(text);
    SkippedExactlyWhenMissing(items, i, name, world, json);
    if k :| 0 <= k < |items[i].tokens| && FirstMissing(items, report, i, k, name) {
      VariableIs(items[i].tokens[k], name);
      VariableIsBound(items, i, k, name);
    }
  }

  lemma VariableIsBound(items: seq<Item>, i: nat, k: nat, name: string)
    requires i < |items| && ItemSound(items, i, {}) && k < |items[i].tokens| && Refers(items[i].tokens[k], name)
    ensures exists j :: 0 <= j < i && items[j].bind == Some(name)
  {
    hide Refers, RefusedAt;
    assert items[i].tokens[k] in items[i].tokens;
    assert BoundBefore(items, i, name);
  }

  // ---- What a variable stands for ----------------------------------------------------------

  /** The first line of an output: up to a newline, or all of it. */
  ghost predicate FirstLine(output: string, first: string) {
    '\n' !in first && ((output == first && first != "") || exists rest: string :: output == first + "\n" + rest)
  }

  ghost predicate LastWordIs(s: string, w: string) {
    exists before, after :: WordAmid(s, before, w, after)
  }

  predicate WordAmid(s: string, before: string, w: string, after: string) {
    && s == before + w + after && w != "" && (forall i :: 0 <= i < |w| ==> !IsWhitespace(w[i]))
    && (before != "" ==> IsWhitespace(before[|before| - 1])) && forall i :: 0 <= i < |after| ==> IsWhitespace(after[i])
  }

  /** What a first line binds: the string under `slug`, or without a `slug` under `id`, of JSON; else
      its last word. */
  ghost predicate LineBinds(first: string, json: Json, w: string) {
    match json(Trim(first))
    case Value(slug, id) => slug == Holds(w) || (slug == Absent && id == Holds(w))
    case NotJson => LastWordIs(first, w)
  }

  ghost predicate Binds(output: string, json: Json, w: string) {
    exists first :: FirstLine(output, first) && LineBinds(first, json, w)
  }

  /** Where the last word is, read off the characters. */
  lemma LastWordSpan(s: string, before: string, w: string, after: string)
    requires WordAmid(s, before, w, after)
    ensures var from, to := |before|, |s| - |after|;
            && from < to <= |s| && s[from..to] == w
            && (forall i :: to <= i < |s| ==> IsWhitespace(s[i]))
            && (forall i :: from <= i < to ==> !IsWhitespace(s[i]))
            && (from > 0 ==> IsWhitespace(s[from - 1]))
  {
    var from, to := |before|, |s| - |after|;
    assert forall i :: from <= i < to ==> s[i] == w[i - from];
    assert forall i :: to <= i < |s| ==> s[i] == after[i - to];
  }

  lemma MoreAfter(init: string, before: string, w: string, after: string, c: char)
    requires WordAmid(init, before, w, after) && IsWhitespace(c)
    ensures WordAmid(init + [c], before, w, after + [c])
  {
    assert init + [c] == before + w + (after + [c]);
  }

  lemma LongerWord(init: string, before: string, w: string, after: string, c: char)
    requires WordAmid(init, before, w, after) && !IsWhitespace(init[|init| - 1]) && !IsWhitespace(c)
    ensures WordAmid(init + [c], before, w + [c], "")
  {
    LastWordSpan(init, before, w, after);
    assert after == "";
    assert init + [c] == before + (w + [c]) + "";
  }

  lemma WordAlone(init: string, c: char)
    requires !IsWhitespace(c) && (init != "" ==> IsWhitespace(init[|init| - 1]))
    ensures WordAmid(init + [c], init, [c], "")
  {
    assert init + [c] == init + [c] + "";
  }

  lemma {:induction false} LastWordIsLast(s: string) returns (before: string, after: string)
    requires LastWord(s).Some?
    ensures WordAmid(s, before, LastWord(s).value, after)
    decreases |s|
  {
    hide WordAmid;
    var init, last := s[..|s| - 1], s[|s| - 1];
    assert s == init + [last];
    if IsWhitespace(last) {
      var more;
      before, more := LastWordIsLast(init);
      MoreAfter(init, before, LastWord(init).value, more, last);
      after := more + [last];
    } else if |s| == 1 || IsWhitespace(s[|s| - 2]) {
      WordAlone(init, last);
      before, after := init, "";
    } else {
      var more;
      before, more := LastWordIsLast(init);
      assert init[|init| - 1] == s[|s| - 2];
      LongerWord(init, before, LastWord(init).value, more, last);
      after := "";
    }
  }

  lemma OneLastWord(s: string, b: string, w: string, a: string, b': string, w': string, a': string)
    requires WordAmid(s, b, w, a) && WordAmid(s, b', w', a')
    ensures w == w'
  {
    LastWordSpan(s, b, w, a);
    LastWordSpan(s, b', w', a');
    var from, to, from', to' := |b|, |s| - |a|, |b'|, |s| - |a'|;
    assert to == to' by {
      assert to > 0 && !IsWhitespace(s[to - 1]) && !IsWhitespace(s[to' - 1]);
    }
    assert from == from';
  }

  lemma {:induction false} WordIsThere(s: string, before: string, w: string, after: string)
    requires WordAmid(s, before, w, after)
    ensures LastWord(s).Some?
  {
    LastWordSpan(s, before, w, after);
    assert !IsWhitespace(s[|before|]);
  }

  lemma {:induction false} LastWordExactly(s: string, w: string)
    ensures LastWord(s) == Some(w) <==> LastWordIs(s, w)
  {
    hide WordAmid, LastWord;
    if LastWordIs(s, w) {
      var b, a :| WordAmid(s, b, w, a);
      WordIsThere(s, b, w, a);
      var before, after := LastWordIsLast(s);
      OneLastWord(s, before, LastWord(s).value, after, b, w, a);
    } else if LastWord(s) == Some(w) {
      var before, after := LastWordIsLast(s);
    }
  }

  /** Whitespace around a line changes no last word. */
  lemma TrimKeepsLastWord(s: string, w: string)
    ensures LastWordIs(Trim(s), w) <==> LastWordIs(s, w)
  {
    var before, after := TrimParts(s);
    LastWordExactly(s, w);
    LastWordExactly(Trim(s), w);
    if LastWord(Trim(s)).Some? {
      var own := LastWord(Trim(s)).value;
      var b, a := LastWordIsLast(Trim(s));
      assert s == (before + b) + own + (a + after);
      assert WordAmid(s, before + b, own, a + after);
      LastWordExactly(s, own);
    }
  }

  lemma {:induction false} FirstOfLines(output: string)
    ensures output == "" ==> Lines(output) == [] && forall first :: !FirstLine(output, first)
    ensures output != "" ==> Lines(output) != [] && exists first :: FirstLine(output, first) && Trim(Lines(output)[0]) == Trim(first)
    ensures forall a, b :: FirstLine(output, a) && FirstLine(output, b) ==> a == b
  {
    forall a, b | FirstLine(output, a) && FirstLine(output, b) ensures a == b {
      FirstIsAt(output, a);
      FirstIsAt(output, b);
    }
    if output != "" {
      var n := IndexOf(output, '\n');
      var first := output[..n];
      if n < |output| {
        assert output == first + "\n" + output[n + 1..];
        StripThenTrim(first);
      } else {
        assert output == first;
      }
      assert FirstLine(output, first);
    }
  }

  lemma {:induction false} FirstIsAt(output: string, first: string)
    requires FirstLine(output, first)
    ensures first == output[..IndexOf(output, '\n')]
  {
    if rest: string :| output == first + "\n" + rest {
      IndexOfFirst(first, '\n', rest);
    }
  }

  lemma StripThenTrim(s: string)
    ensures Trim(StripCarriageReturn(s)) == Trim(s)
  {
    if s != "" && s[|s| - 1] == '\r' {
      var init := s[..|s| - 1];
      var before, after := TrimParts(init);
      assert s == init + "\r" && IsWhitespace('\r');
      if Trim(init) != "" {
        assert s == before + Trim(init) + (after + "\r");
        TrimDrops(before, Trim(init), after + "\r");
      } else {
        assert s == s + "";
        TrimStartDrops(s, "");
      }
    }
  }

  lemma BindingIs(output: string, json: Json, w: string)
    ensures BindingOf(output, json) == Some(w) <==> Binds(output, json, w)
  {
    hide FirstLine, LastWordIs, Lines, LastWord, Trim;
    FirstOfLines(output);
    if output != "" {
      var first :| FirstLine(output, first) && Trim(Lines(output)[0]) == Trim(first);
      LastWordExactly(Trim(first), w);
      TrimKeepsLastWord(first, w);
    }
  }

  /** What a line of the report tells is what its command replied: an error, or the output; and
      for a line that binds a name, what the first line of that output binds, or that it binds
      nothing. */
  lemma {:induction false} OutcomeTellsReply(items: seq<Item>, i: nat, world: World, json: Json)
    requires i < |items|
    ensures var report := Executed(items, world, json).lines;
            && |report| == |items|
            && (!report[i].outcome.Skipped? ==>
                  match world(CallsOf(items, report, i + 1))
                  case Refused(error) => report[i].outcome == Failed(CommandFailed(error))
                  case Printed(output) =>
                    if items[i].bind.None? then report[i].outcome == Done(output, None)
                    else && (forall w :: report[i].outcome == Done(output, Some(w)) <==> Binds(output, json, w))
                         && (report[i].outcome == Failed(NothingToBind) <==> forall w :: !Binds(output, json, w)))
  {
    hide Binds, BindingOf, CallsOf;
    var r, s := RunOf(items, i, world, json), RunOf(items, i + 1, world, json);
    var report := Executed(items, world, json).lines;
    RunKeepsInv(items, i, world, json);
    RunKeepsInv(items, i + 1, world, json);
    RunKeepsInv(items, |items|, world, json);
    RunGrows(items, i + 1, |items|, world, json);
    CallsOfFrame(items, s.lines, report, i + 1);
    StepKeepsLines(items, i, r, world, json);
    assert report[i] == s.lines[i];
    var reply := world(CallsOf(items, report, i + 1));
    if reply.Printed? {
      forall w ensures BindingOf(reply.output, json) == Some(w) <==> Binds(reply.output, json, w) {
        BindingIs(reply.output, json, w);
      }
    }
  }

  /** So a line that ends in a word binds that word, whatever is printed below it. */
  lemma AcknowledgedIsBound(before: string, w: string, rest: string, json: Json)
    requires w != "" && (forall i :: 0 <= i < |w| ==> !IsWhitespace(w[i])) && '\n' !in before
    requires json(Trim(before + " " + w)) == NotJson
    ensures Binds(before + " " + w + "\n" + rest, json, w)
  {
    var first := before + " " + w;
    assert IsWhitespace('\n');
    assert FirstLine(first + "\n" + rest, first);
    assert WordAmid(first, before + " ", w, "");
  }

  // ---- Report counts ---------------------------------------------------------------------

  function Applied(report: seq<Line>): nat {
    if report == [] then 0 else (if report[0].outcome.Done? then 1 else 0) + Applied(report[1..])
  }

  function FailedCount(report: seq<Line>): nat {
    if report == [] then 0 else (if report[0].outcome.Failed? then 1 else 0) + FailedCount(report[1..])
  }

  function SkippedCount(report: seq<Line>): nat {
    if report == [] then 0 else (if report[0].outcome.Skipped? then 1 else 0) + SkippedCount(report[1..])
  }

  lemma {:induction false} CountsAddUp(report: seq<Line>)
    ensures Applied(report) + FailedCount(report) + SkippedCount(report) == |report|
  {
    if report != [] {
      CountsAddUp(report[1..]);
    }
  }

  /** applied + failed + skipped is the number of items, and the commands run are the applied
      and the failed ones. */
  lemma {:induction false} CountsMatchCalls(items: seq<Item>, n: nat, world: World, json: Json)
    requires n <= |items|
    ensures var r := RunOf(items, n, world, json);
            && Applied(r.lines) + FailedCount(r.lines) + SkippedCount(r.lines) == n
            && |r.calls| == Applied(r.lines) + FailedCount(r.lines)
  {
    RunKeepsInv(items, n, world, json);
    var r := RunOf(items, n, world, json);
    CountsAddUp(r.lines);
    CallsCounted(items, r.lines, n);
    assert r.lines[..n] == r.lines;
  }

  lemma {:induction false} SkippedCountAppend(report: seq<Line>, line: Line)
    ensures SkippedCount(report + [line]) == SkippedCount(report) + (if line.outcome.Skipped? then 1 else 0)
  {
    if report == [] {
      assert report + [line] == [line];
    } else {
      assert (report + [line])[1..] == report[1..] + [line];
      SkippedCountAppend(report[1..], line);
    }
  }

  lemma {:induction false} CallsCounted(items: seq<Item>, report: seq<Line>, n: nat)
    requires n <= |items| && n <= |report|
    ensures |CallsOf(items, report, n)| + SkippedCount(report[..n]) == n
  {
    if n > 0 {
      CallsCounted(items, report, n - 1);
      assert report[..n] == report[..n - 1] + [report[n - 1]];
      SkippedCountAppend(report[..n - 1], report[n - 1]);
    }
  }
}
