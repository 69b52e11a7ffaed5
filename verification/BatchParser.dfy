/** `parse_script`: a whole script is checked before anything runs. */
module BatchParser {
  import opened Text
  import Seqs
  import opened BatchLexer
  import opened BatchGrammar

  /** One command: the 1-based line it starts at, what it binds, and its arguments. */
  datatype Item = Item(line: nat, bind: Option<string>, tokens: seq<string>)

  datatype Problem =
    | Unclosed(quote: LexError)
    | BadName(name: string)
    | BindingShape
    | NoCommand
    | HeredocOpen(tag: string)
    | RefusedNoun(noun: string)
    | DashValue
    | UnboundVariable(name: string)

  datatype ParseError = ParseError(line: nat, problem: Problem)

  const REFUSED_NOUNS: seq<string> := ["batch", "secrets"]

  predicate NameChar(c: char) {
    '0' <= c <= '9' || 'A' <= c <= 'Z' || 'a' <= c <= 'z' || c == '_'
  }

  predicate ValidName(name: string) {
    name != "" && forall i :: 0 <= i < |name| ==> NameChar(name[i])
  }

  /** The variable an argument stands for: the whole argument is `$name`. */
  function VariableOf(token: string): Option<string> {
    if token != "" && token[0] == '$' && ValidName(token[1..]) then Some(token[1..]) else None
  }

  // ---- The grammar, as functions ---------------------------------------------------------

  datatype Bound = Bound(bind: Option<string>, command: seq<Token>)

  /** Takes `$name =` off the front of a line. */
  function SplitBind(toks: seq<Token>): Result<Bound, Problem> {
    if toks == [] || toks[0].text == "" || toks[0].text[0] != '$' then Ok(Bound(None, toks))
    else
      var name := toks[0].text[1..];
      if |toks| > 1 && toks[1].text == "=" then
        if ValidName(name) then Ok(Bound(Some(name), toks[2..])) else Err(BadName(name))
      else if '=' in name then Err(BindingShape)
      else Ok(Bound(None, toks))
  }

  /** Some lines read, and the index of the line after them. */
  datatype Taken = Taken(values: seq<string>, next: nat)

  /** The lines of a heredoc, up to the line that holds only its tag. */
  function HeredocBody(lines: seq<string>, n: nat, tag: string): (t: Option<Taken>)
    ensures t.Some? ==> n < t.value.next <= |lines|
    decreases |lines| - n
  {
    if n >= |lines| then None
    else if TrimEnd(lines[n]) == tag then Some(Taken([], n + 1))
    else
      match HeredocBody(lines, n + 1, tag)
      case None => None
      case Some(Taken(body, next)) => Some(Taken([lines[n]] + body, next))
  }

  /** The argument values of `toks`, whose heredocs start at line index `n`. */
  function Values(toks: seq<Token>, lines: seq<string>, n: nat): (t: Result<Taken, Problem>)
    requires n <= |lines|
    ensures t.Ok? ==> n <= t.value.next <= |lines| && |t.value.values| == |toks|
    decreases |toks|
  {
    if toks == [] then Ok(Taken([], n))
    else if toks[0].heredoc.None? then PrependValue(toks[0].text, Values(toks[1..], lines, n))
    else
      match HeredocBody(lines, n, toks[0].heredoc.value)
      case None => Err(HeredocOpen(toks[0].heredoc.value))
      case Some(Taken(body, next)) => PrependValue(Join(body, '\n'), Values(toks[1..], lines, next))
  }

  function PrependValue(value: string, t: Result<Taken, Problem>): Result<Taken, Problem> {
    match t
    case Err(p) => Err(p)
    case Ok(Taken(values, next)) => Ok(Taken([value] + values, next))
  }

  /** The first argument that is not a flag. */
  function NounOf(values: seq<string>): Option<string> {
    if values == [] then None
    else if values[0] != "" && values[0][0] == '-' then NounOf(values[1..])
    else Some(values[0])
  }

  function FirstUnbound(values: seq<string>, bound: set<string>): Option<string> {
    if values == [] then None
    else
      match VariableOf(values[0])
      case Some(name) => if name in bound then FirstUnbound(values[1..], bound) else Some(name)
      case None => FirstUnbound(values[1..], bound)
  }

  /** What is refused about the arguments themselves. */
  function Refusal(values: seq<string>, bound: set<string>): Option<Problem> {
    var noun := NounOf(values);
    if noun.Some? && noun.value in REFUSED_NOUNS then Some(RefusedNoun(noun.value))
    else if "-" in values then Some(DashValue)
    else
      match FirstUnbound(values, bound)
      case Some(name) => Some(UnboundVariable(name))
      case None => None
  }

  datatype Parsed = Parsed(item: Item, next: nat)

  /** The command on line index `n`, when some names are bound. */
  function CommandAt(lines: seq<string>, n: nat, bound: set<string>): (p: Result<Parsed, Problem>)
    requires n < |lines|
    ensures p.Ok? ==> n < p.value.next <= |lines|
  {
    match Lex(Trim(lines[n]))
    case Err(e) => Err(Unclosed(e))
    case Ok(toks) =>
      match SplitBind(toks)
      case Err(p) => Err(p)
      case Ok(Bound(bind, command)) =>
        if command == [] then Err(NoCommand)
        else
          match Values(command, lines, n + 1)
          case Err(p) => Err(p)
          case Ok(Taken(values, next)) =>
            match Refusal(values, bound)
            case Some(p) => Err(p)
            case None => Ok(Parsed(Item(n + 1, bind, values), next))
  }

  predicate Skipped(line: string) {
    var raw := Trim(line);
    raw == "" || raw[0] == '#'
  }

  function BindSet(bind: Option<string>): set<string> {
    if bind.Some? then {bind.value} else {}
  }

  function PrependItems(done: seq<Item>, r: Result<seq<Item>, ParseError>): Result<seq<Item>, ParseError> {
    match r
    case Err(e) => Err(e)
    case Ok(items) => Ok(done + items)
  }

  function ParseFrom(lines: seq<string>, n: nat, bound: set<string>): Result<seq<Item>, ParseError>
    decreases |lines| - n
  {
    if n >= |lines| then Ok([])
    else if Skipped(lines[n]) then ParseFrom(lines, n + 1, bound)
    else
      match CommandAt(lines, n, bound)
      case Err(p) => Err(ParseError(n + 1, p))
      case Ok(Parsed(item, next)) =>
        PrependItems([item], ParseFrom(lines, next, bound + BindSet(item.bind)))
  }

  function Parse(text: string): Result<seq<Item>, ParseError> {
    ParseFrom(Lines(text), 0, {})
  }

  // ---- The parser, as the loops it is ----------------------------------------------------

  method TakeHeredoc(lines: seq<string>, from: nat, tag: string) returns (t: Option<Taken>)
    ensures t == HeredocBody(lines, from, tag)
  {
    var n := from;
    var body: seq<string> := [];
    ghost var whole := HeredocBody(lines, from, tag);
    assert whole.Some? ==> [] + whole.value.values == whole.value.values;
    while n < |lines|
      invariant from <= n
      invariant match HeredocBody(lines, n, tag)
                case None => HeredocBody(lines, from, tag) == None
                case Some(Taken(rest, next)) => HeredocBody(lines, from, tag) == Some(Taken(body + rest, next))
    {
      if TrimEnd(lines[n]) == tag {
        assert body + [] == body;
        return Some(Taken(body, n + 1));
      }
      ghost var more := HeredocBody(lines, n + 1, tag);
      if more.Some? {
        assert body + ([lines[n]] + more.value.values) == (body + [lines[n]]) + more.value.values;
      }
      body, n := body + [lines[n]], n + 1;
    }
    return None;
  }

  /** The values taken so far, then the rest. */
  function PrependValues(done: seq<string>, r: Result<Taken, Problem>): Result<Taken, Problem> {
    if r.Ok? then Ok(Taken(done + r.value.values, r.value.next)) else r
  }

  lemma PrependNext(done: seq<string>, value: string, r: Result<Taken, Problem>)
    ensures PrependValues(done, PrependValue(value, r)) == PrependValues(done + [value], r)
    ensures PrependValues([], r) == r
  {
    if r.Ok? {
      Seqs.Assoc(done, [value], r.value.values);
      Seqs.Neutral(r.value.values);
    }
  }

  lemma NothingToPrepend(done: seq<string>, problem: Problem)
    ensures PrependValues(done, Err(problem)) == Err(problem)
  {
  }

  lemma NoneLeft(done: seq<string>, next: nat)
    ensures PrependValues(done, Ok(Taken([], next))) == Ok(Taken(done, next))
  {
    Seqs.Neutral(done);
  }

  method TakeValues(toks: seq<Token>, lines: seq<string>, from: nat) returns (t: Result<Taken, Problem>)
    requires from <= |lines|
    ensures t == Values(toks, lines, from)
  {
    var n: nat := from;
    var tokens: seq<string> := [];
    hide PrependValues, Join;
    assert toks[0..] == toks;
    PrependNext([], "", Values(toks, lines, from));
    for k := 0 to |toks|
      invariant n <= |lines|
      invariant Values(toks, lines, from) == PrependValues(tokens, Values(toks[k..], lines, n))
    {
      assert toks[k..][1..] == toks[k + 1..];
      var value := toks[k].text;
      if toks[k].heredoc.Some? {
        var body := TakeHeredoc(lines, n, toks[k].heredoc.value);
        if body.None? {
          NothingToPrepend(tokens, HeredocOpen(toks[k].heredoc.value));
          return Err(HeredocOpen(toks[k].heredoc.value));
        }
        value, n := Join(body.value.values, '\n'), body.value.next;
      }
      PrependNext(tokens, value, Values(toks[k + 1..], lines, n));
      tokens := tokens + [value];
    }
    NoneLeft(tokens, n);
    return Ok(Taken(tokens, n));
  }

  lemma PrependItemsTwice(a: seq<Item>, b: seq<Item>, r: Result<seq<Item>, ParseError>)
    ensures PrependItems(a, PrependItems(b, r)) == PrependItems(a + b, r)
    ensures PrependItems([], r) == r
  {
    if r.Ok? {
      assert a + (b + r.value) == (a + b) + r.value;
      assert [] + r.value == r.value;
    }
  }

  method ParseScript(text: string) returns (r: Result<seq<Item>, ParseError>)
    ensures r == Parse(text)
  {
    var lines := Lines(text);
    var items: seq<Item> := [];
    var bound: set<string> := {};
    var n := 0;
    PrependItemsTwice([], [], Parse(text));
    while n < |lines|
      invariant Parse(text) == PrependItems(items, ParseFrom(lines, n, bound))
      decreases |lines| - n
    {
      var start := n;
      var raw := Trim(lines[n]);
      n := n + 1;
      if raw == "" || raw[0] == '#' {
        continue;
      }
      var toks := Tokenize(raw);
      if toks.Err? {
        return Err(ParseError(start + 1, Unclosed(toks.error)));
      }
      var split := SplitBind(toks.value);
      if split.Err? {
        return Err(ParseError(start + 1, split.error));
      }
      if split.value.command == [] {
        return Err(ParseError(start + 1, NoCommand));
      }
      var taken := TakeValues(split.value.command, lines, n);
      if taken.Err? {
        return Err(ParseError(start + 1, taken.error));
      }
      var refusal := Refusal(taken.value.values, bound);
      if refusal.Some? {
        return Err(ParseError(start + 1, refusal.value));
      }
      var item := Item(start + 1, split.value.bind, taken.value.values);
      ghost var before := bound;
      bound := bound + BindSet(item.bind);
      assert CommandAt(lines, start, before) == Ok(Parsed(item, taken.value.next));
      PrependItemsTwice(items, [item], ParseFrom(lines, taken.value.next, bound));
      items, n := items + [item], taken.value.next;
    }
    assert items + [] == items;
    return Ok(items);
  }

  // ---- What the checks look at -----------------------------------------------------------

  /** Blank, or a comment: nothing but whitespace before a `#`, or at all. */
  predicate Ignorable(line: string) {
    AllWhitespace(line) || exists k :: 0 <= k < |line| && line[k] == '#' && AllWhitespace(line[..k])
  }

  /** Blank lines and comments are skipped, and no others. */
  lemma SkippedExactly(line: string)
    ensures Skipped(line) <==> Ignorable(line)
  {
    var n := |Indent(line)|;
    var rest := line[n..];
    assert line == line[..n] + rest;
    if n == |line| {
      TrimStartDrops(line, "");
      assert line + "" == line;
    } else {
      var m := LastInk(rest);
      assert rest == rest[..m] + rest[m..];
      TrimDrops(line[..n], rest[..m], rest[m..]);
      assert line == line[..n] + rest[..m] + rest[m..];
      assert forall k :: 0 <= k < |line| && AllWhitespace(line[..k]) ==> k <= n by {
        forall k | n < k < |line| ensures !AllWhitespace(line[..k]) {
          assert line[..k][n] == line[n];
        }
      }
      assert !AllWhitespace(line);
      assert rest[..m][0] == line[n];
      assert forall k :: 0 <= k < n ==> IsWhitespace(line[k]);
      assert !IsWhitespace('#');
    }
  }

  lemma {:induction false} LastInk(s: string) returns (m: nat)
    requires s != "" && !IsWhitespace(s[0])
    ensures 0 < m <= |s| && !IsWhitespace(s[m - 1]) && AllWhitespace(s[m..])
  {
    m := |s|;
    while IsWhitespace(s[m - 1])
      invariant 0 < m <= |s| && AllWhitespace(s[m..])
      decreases m
    {
      assert s[m - 1..] == [s[m - 1]] + s[m..];
      m := m - 1;
    }
  }

  /** The noun is the first argument that does not start with a dash. */
  predicate NounAt(values: seq<string>, k: nat) {
    k < |values| && !(values[k] != "" && values[k][0] == '-') && forall j :: 0 <= j < k ==> values[j] != "" && values[j][0] == '-'
  }

  lemma {:induction false} NounOfIs(values: seq<string>)
    ensures NounOf(values).None? ==> forall k: nat :: !NounAt(values, k)
    ensures NounOf(values).Some? ==> exists k: nat :: NounAt(values, k) && values[k] == NounOf(values).value
    ensures forall k: nat :: NounAt(values, k) ==> NounOf(values) == Some(values[k])
  {
    if values != [] && values[0] != "" && values[0][0] == '-' {
      var rest := values[1..];
      NounOfIs(rest);
      forall k: nat ensures NounAt(values, k) <==> k > 0 && NounAt(rest, k - 1) {
        if k > 0 {
          assert NounAt(rest, k - 1) ==> forall j :: 0 < j < k ==> values[j] == rest[j - 1];
        }
      }
      if k: nat :| NounAt(rest, k) && rest[k] == NounOf(rest).value {
        assert NounAt(values, k + 1) && values[k + 1] == rest[k];
      }
    } else if values != [] {
      assert NounAt(values, 0);
    }
  }

  /** A noun that would read the batch's own input, or change what it may see. */
  predicate RefusedAt(values: seq<string>, k: nat) {
    NounAt(values, k) && (values[k] == "batch" || values[k] == "secrets")
  }

  lemma {:induction false} NounRefusal(values: seq<string>)
    ensures (NounOf(values).Some? && NounOf(values).value in REFUSED_NOUNS) <==> exists k: nat :: RefusedAt(values, k)
    ensures forall k: nat :: RefusedAt(values, k) ==> NounOf(values) == Some(values[k])
  {
    NounOfIs(values);
    assert REFUSED_NOUNS == ["batch", "secrets"];
    if NounOf(values).Some? {
      var k: nat :| NounAt(values, k) && values[k] == NounOf(values).value;
      assert RefusedAt(values, k) <==> NounOf(values).value in REFUSED_NOUNS;
    }
  }

  /** ASCII letters, digits and `_`, by their codes. */
  predicate IsName(name: string) {
    name != "" && forall i :: 0 <= i < |name| ==>
      var code := name[i] as int; 48 <= code <= 57 || 65 <= code <= 90 || code == 95 || 97 <= code <= 122
  }

  lemma NameIs(name: string)
    ensures ValidName(name) <==> IsName(name)
  {
  }

  /** An argument is a variable when all of it is `$` and a name. */
  predicate Refers(token: string, name: string) {
    IsName(name) && token == "$" + name
  }

  lemma VariableIs(token: string, name: string)
    ensures VariableOf(token) == Some(name) <==> Refers(token, name)
  {
    NameIs(name);
    if token != "" {
      NameIs(token[1..]);
      assert token == [token[0]] + token[1..];
    }
    assert ("$" + name)[1..] == name;
  }

  // ---- What an accepted script is --------------------------------------------------------

  /** `name` is bound by one of the first `i` items. */
  ghost predicate BoundBefore(items: seq<Item>, i: nat, name: string)
    requires i <= |items|
  {
    exists j :: 0 <= j < i && items[j].bind == Some(name)
  }

  /** What the static check promises of one item, given the names bound outside the list. */
  ghost predicate ItemSound(items: seq<Item>, i: nat, outside: set<string>)
    requires i < |items|
  {
    && items[i].tokens != []
    && "-" !in items[i].tokens
    && (forall k: nat :: !RefusedAt(items[i].tokens, k))
    && (items[i].bind.Some? ==> IsName(items[i].bind.value))
    && forall t, name :: t in items[i].tokens && Refers(t, name)
         ==> name in outside || BoundBefore(items, i, name)
  }

  lemma {:induction false} FirstUnboundFinds(values: seq<string>, bound: set<string>)
    ensures FirstUnbound(values, bound).None?
        <==> forall t, name :: t in values && Refers(t, name) ==> name in bound
    ensures FirstUnbound(values, bound).Some? ==>
              exists k: nat :: UnboundAt(values, bound, k) && Refers(values[k], FirstUnbound(values, bound).value)
  {
    hide Refers;
    if values != [] {
      var rest := values[1..];
      FirstUnboundFinds(rest, bound);
      assert values == [values[0]] + rest;
      forall name ensures VariableOf(values[0]) == Some(name) <==> Refers(values[0], name) {
        VariableIs(values[0], name);
      }
      var own := VariableOf(values[0]);
      if own.Some? && own.value !in bound {
        assert UnboundAt(values, bound, 0);
      } else if FirstUnbound(rest, bound).Some? {
        var k: nat :| UnboundAt(rest, bound, k) && Refers(rest[k], FirstUnbound(rest, bound).value);
        assert forall j :: 0 < j <= k + 1 ==> values[j] == rest[j - 1];
        assert UnboundAt(values, bound, k + 1);
      }
    }
  }

  /** The first argument that is a variable nothing binds. */
  ghost predicate UnboundAt(values: seq<string>, bound: set<string>, k: nat) {
    && k < |values|
    && (exists name :: Refers(values[k], name) && name !in bound)
    && forall j, name :: 0 <= j < k && Refers(values[j], name) ==> name in bound
  }

  /** An item in front: what it binds counts for the items after it. */
  lemma ItemSoundCons(first: Item, rest: seq<Item>, i: nat, outside: set<string>)
    requires i < |rest| && ItemSound(rest, i, outside + BindSet(first.bind))
    ensures ItemSound([first] + rest, i + 1, outside)
  {
    var items := [first] + rest;
    assert items[i + 1] == rest[i];
    forall t, name | t in rest[i].tokens && Refers(t, name)
      ensures name in outside || BoundBefore(items, i + 1, name)
    {
      if name !in outside {
        if name in BindSet(first.bind) {
          assert items[0].bind == Some(name);
        } else {
          var j :| 0 <= j < i && rest[j].bind == Some(name);
          assert items[j + 1].bind == Some(name);
        }
      }
    }
  }

  lemma CommandAtSound(lines: seq<string>, n: nat, outside: set<string>, rest: seq<Item>)
    requires n < |lines| && CommandAt(lines, n, outside).Ok?
    ensures var item := CommandAt(lines, n, outside).value.item;
            item.line == n + 1 && ItemSound([item] + rest, 0, outside)
  {
    var item := CommandAt(lines, n, outside).value.item;
    FirstUnboundFinds(item.tokens, outside);
    NounRefusal(item.tokens);
    if item.bind.Some? {
      NameIs(item.bind.value);
    }
    assert ([item] + rest)[0] == item;
  }

  ghost predicate AllSound(items: seq<Item>, outside: set<string>) {
    forall i :: 0 <= i < |items| ==> ItemSound(items, i, outside)
  }

  ghost predicate LinesIncrease(items: seq<Item>) {
    forall i, j :: 0 <= i < j < |items| ==> items[i].line < items[j].line
  }

  lemma LinesIncreaseCons(first: Item, rest: seq<Item>)
    requires LinesIncrease(rest) && forall i :: 0 <= i < |rest| ==> first.line < rest[i].line
    ensures LinesIncrease([first] + rest)
  {
  }

  lemma {:induction false} ParseFromSound(lines: seq<string>, n: nat, outside: set<string>)
    requires ParseFrom(lines, n, outside).Ok?
    ensures var items := ParseFrom(lines, n, outside).value;
            && AllSound(items, outside)
            && (forall i :: 0 <= i < |items| ==> n < items[i].line)
            && LinesIncrease(items)
    decreases |lines| - n
  {
    if n >= |lines| {
      assert ParseFrom(lines, n, outside) == Ok([]);
    } else if Skipped(lines[n]) {
      ParseFromSound(lines, n + 1, outside);
    } else {
      var Parsed(item, next) := CommandAt(lines, n, outside).value;
      var inside := outside + BindSet(item.bind);
      ParseFromSound(lines, next, inside);
      var rest := ParseFrom(lines, next, inside).value;
      CommandAtSound(lines, n, outside, rest);
      LinesIncreaseCons(item, rest);
      forall i | 0 <= i < |[item] + rest| ensures ItemSound([item] + rest, i, outside) {
        if i > 0 {
          ItemSoundCons(item, rest, i - 1, outside);
        }
      }
    }
  }

  /** Everything an accepted script is known to satisfy: no refused noun, no `-`, every
      variable bound by an earlier line, and line numbers that strictly increase. */
  lemma AcceptedScriptIsSound(text: string)
    requires Parse(text).Ok?
    ensures var items := Parse(text).value;
            AllSound(items, {}) && LinesIncrease(items)
  {
    ParseFromSound(Lines(text), 0, {});
  }
}
