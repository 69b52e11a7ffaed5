/** What is told of a script that is refused: the first problem, and the line of its command. */
module BatchProblems {
  import opened Text
  import Seqs
  import opened BatchLexer
  import opened BatchGrammar
  import opened BatchParser
  import opened BatchPrinter

  function NamesOf(cmds: seq<Command>): set<string> {
    if cmds == [] then {} else BindSet(cmds[0].bind) + NamesOf(cmds[1..])
  }

  ghost predicate Reads(cmds: seq<Command>) {
    (forall i :: 0 <= i < |cmds| ==> Printable(cmds[i])) && Admissible(cmds)
  }

  lemma {:induction false} AdmittedThen(cmds: seq<Command>, lines: seq<string>, n: nat, bound: set<string>)
    requires forall i :: 0 <= i < |cmds| ==> Printable(cmds[i])
    requires At(lines, n, ScriptLines(cmds)) && AdmitsFrom(cmds, bound)
    ensures ParseFrom(lines, n, bound)
         == PrependItems(ItemsFrom(cmds, n), ParseFrom(lines, n + |ScriptLines(cmds)|, bound + NamesOf(cmds)))
    decreases |cmds|
  {
    hide At, Printable, ParseFrom, PrependItems, LinesOf, ValuesOf, CommandAdmitted;
    var end := ParseFrom(lines, n + |ScriptLines(cmds)|, bound + NamesOf(cmds));
    PrependItemsTwice([], [], end);
    if cmds == [] {
      assert bound + NamesOf(cmds) == bound;
      assert ItemsFrom(cmds, n) == [];
    } else {
      var c, own, inside := cmds[0], LinesOf(cmds[0]), bound + BindSet(cmds[0].bind);
      AtSplit(lines, n, own, ScriptLines(cmds[1..]));
      AdmittedIsRead(c, lines, n, bound);
      AdmittedThen(cmds[1..], lines, n + |own|, inside);
      assert inside + NamesOf(cmds[1..]) == bound + NamesOf(cmds);
      PrependItemsTwice([Item(HeadLine(c, n) + 1, c.bind, ValuesOf(c.args))], ItemsFrom(cmds[1..], n + |own|), end);
    }
  }

  lemma StopsHere(items: seq<Item>, e: ParseError)
    ensures PrependItems(items, Err(e)) == Err(e)
  {
  }

  predicate AllClean(lines: seq<string>) {
    forall i :: 0 <= i < |lines| ==> CleanLine(lines[i])
  }

  /** Commands that are admitted, lines that are blank or comments, and the rest of the script. */
  function Script(cmds: seq<Command>, above: seq<string>, rest: seq<string>): seq<string> {
    ScriptLines(cmds) + above + rest
  }

  /** The index of the first line of that rest. */
  function Start(cmds: seq<Command>, above: seq<string>): nat {
    |ScriptLines(cmds)| + |above|
  }

  lemma {:induction false} Layout(cmds: seq<Command>, above: seq<string>, rest: seq<string>)
    ensures var lines := Script(cmds, above, rest);
            && At(lines, 0, ScriptLines(cmds)) && At(lines, |ScriptLines(cmds)|, above) && At(lines, Start(cmds, above), rest)
            && |lines| == Start(cmds, above) + |rest| && (rest != [] ==> lines[Start(cmds, above)] == rest[0])
  {
  }

  lemma ScriptClean(cmds: seq<Command>, above: seq<string>, rest: seq<string>)
    requires (forall i :: 0 <= i < |cmds| ==> Printable(cmds[i])) && AllIgnorable(above) && AllClean(rest)
    ensures Lines(Unlines(Script(cmds, above, rest))) == Script(cmds, above, rest)
  {
    hide CleanLine, Lines, Unlines, Ignorable, Printable, ScriptLines;
    ScriptIsClean(cmds);
    CleanConcat(ScriptLines(cmds), above);
    CleanConcat(ScriptLines(cmds) + above, rest);
    LinesUndoUnlines(Script(cmds, above, rest));
  }

  /** Commands that are admitted, and then a line on which there is a problem. */
  lemma {:induction false} StopsAt(cmds: seq<Command>, above: seq<string>, rest: seq<string>, problem: Problem)
    requires Reads(cmds) && AllIgnorable(above) && AllClean(rest) && rest != [] && !Skipped(rest[0])
    requires Start(cmds, above) < |Script(cmds, above, rest)|
    requires CommandAt(Script(cmds, above, rest), Start(cmds, above), NamesOf(cmds)) == Err(problem)
    ensures Parse(Unlines(Script(cmds, above, rest))) == Err(ParseError(Start(cmds, above) + 1, problem))
  {
    hide CleanLine, Ignorable, Skipped, CommandAt, Lines, Unlines, ScriptLines, AdmitsFrom, AdmissibleAt, Printable, ParseFrom, ItemsFrom, Script, At, AllClean;
    var lines, names := Script(cmds, above, rest), NamesOf(cmds);
    ScriptClean(cmds, above, rest);
    AdmitsIsAdmissible(cmds, {});
    Layout(cmds, above, rest);
    AdmittedThen(cmds, lines, 0, {});
    assert {} + names == names;
    IgnoredArePassed(lines, |ScriptLines(cmds)|, above, names);
    ProblemStops(lines, Start(cmds, above), names, problem);
    StopsHere(ItemsFrom(cmds, 0), ParseError(Start(cmds, above) + 1, problem));
  }

  lemma {:induction false} ProblemStops(lines: seq<string>, n: nat, bound: set<string>, problem: Problem)
    requires n < |lines| && !Skipped(lines[n]) && CommandAt(lines, n, bound) == Err(problem)
    ensures ParseFrom(lines, n, bound) == Err(ParseError(n + 1, problem))
  {
  }

  // ---- What is wrong with the arguments -----------------------------------------------------

  /** A refused noun is told before a dash, and that before a variable that nothing binds. */
  ghost predicate WrongArguments(values: seq<string>, bound: set<string>, problem: Problem) {
    match problem
    case RefusedNoun(noun) => exists k: nat :: RefusedAt(values, k) && values[k] == noun
    case DashValue => (forall k: nat :: !RefusedAt(values, k)) && "-" in values
    case UnboundVariable(name) =>
      && (forall k: nat :: !RefusedAt(values, k)) && "-" !in values
      && exists k: nat :: UnboundAt(values, bound, k) && Refers(values[k], name)
    case _ => false
  }

  lemma RefersToOne(token: string, a: string, b: string)
    requires Refers(token, a) && Refers(token, b)
    ensures a == b
  {
    assert token[1..] == a && token[1..] == b;
  }

  lemma RefusalIs(values: seq<string>, bound: set<string>, problem: Problem)
    requires WrongArguments(values, bound, problem)
    ensures Refusal(values, bound) == Some(problem)
  {
    hide Refers;
    NounRefusal(values);
    FirstUnboundFinds(values, bound);
    if problem.UnboundVariable? {
      var k: nat :| UnboundAt(values, bound, k) && Refers(values[k], problem.name);
      var name :| Refers(values[k], name) && name !in bound;
      assert values[k] in values;
      var j: nat :| UnboundAt(values, bound, j) && Refers(values[j], FirstUnbound(values, bound).value);
      assert j == k;
      RefersToOne(values[k], problem.name, FirstUnbound(values, bound).value);
    }
  }

  /** The lines of a command below those above it. */
  function OwnLines(c: Command): seq<string> {
    [HeaderOf(c)] + BodyOf(c.args)
  }

  lemma OwnLinesAreClean(c: Command, below: seq<string>)
    requires Printable(c) && AllClean(below)
    ensures AllClean(OwnLines(c) + below) && OwnLines(c) + below != [] && !Skipped((OwnLines(c) + below)[0])
  {
    hide CleanLine, Skipped, HeaderOf, BodyOf, Ignorable, PrintableArg;
    HeaderIsTrimmed(c);
    BodyIsClean(c.args);
    CleanConcat([HeaderOf(c)], BodyOf(c.args));
    CleanConcat(OwnLines(c), below);
    assert (OwnLines(c) + below)[0] == HeaderOf(c);
  }

  lemma {:induction false} CommandIsThere(cmds: seq<Command>, c: Command, below: seq<string>)
    ensures At(Script(cmds, c.above, OwnLines(c) + below), |ScriptLines(cmds)|, LinesOf(c))
  {
    hide ScriptLines, HeaderOf, BodyOf;
    assert Script(cmds, c.above, OwnLines(c) + below) == ScriptLines(cmds) + LinesOf(c) + below;
  }

  /** Of a command that reads as written, the first of its wrong arguments is told, at its line. */
  lemma {:induction false} WrongArgumentsAreTold(cmds: seq<Command>, c: Command, below: seq<string>, problem: Problem)
    requires Reads(cmds) && Printable(c) && HeadClear(c) && AllClean(below)
    requires WrongArguments(ValuesOf(c.args), NamesOf(cmds), problem)
    ensures Parse(Unlines(Script(cmds, c.above, OwnLines(c) + below))) == Err(ParseError(Start(cmds, c.above) + 1, problem))
  {
    hide Parse, Unlines, AllClean, Skipped, CommandAt, Refusal, WrongArguments, HeadClear, LinesOf, OwnLines, Script, Reads, At, PrintableArg, ScriptLines;
    var lines := Script(cmds, c.above, OwnLines(c) + below);
    CommandIsThere(cmds, c, below);
    ClearCommandReads(c, lines, |ScriptLines(cmds)|, NamesOf(cmds));
    RefusalIs(ValuesOf(c.args), NamesOf(cmds), problem);
    OwnLinesAreClean(c, below);
    Layout(cmds, c.above, OwnLines(c) + below);
    StopsAt(cmds, c.above, OwnLines(c) + below, problem);
  }

  // ---- What is wrong with the line -----------------------------------------------------------

  /** What the words of a line that starts with `$` tell: a binding whose name is none, one
      without a command, or a `=` that stands in the first word. */
  predicate WrongHead(words: seq<Spaced>, problem: Problem) {
    && words != [] && words[0].word.Text() != "" && words[0].word.Text()[0] == '$'
    && var name := words[0].word.Text()[1..];
       var binds := |words| > 1 && words[1].word.Text() == "=";
       match problem
       case BadName(bad) => binds && bad == name && !IsName(name)
       case NoCommand => binds && |words| == 2 && IsName(name)
       case BindingShape => !binds && '=' in name
       case _ => false
  }

  lemma {:induction false} WrongHeadIsTold(cmds: seq<Command>, above: seq<string>, indent: string, words: seq<Spaced>, below: seq<string>, problem: Problem)
    requires Reads(cmds) && AllIgnorable(above) && AllClean([indent + ShowWords(words)] + below)
    requires AllWhitespace(indent) && ValidWords(words) && WrongHead(words, problem) && words[0].word.Show()[..1] != "#"
    ensures Parse(Unlines(Script(cmds, above, [indent + ShowWords(words)] + below)))
         == Err(ParseError(Start(cmds, above) + 1, problem))
  {
    hide AllClean, AllIgnorable, Skipped, ShowWords, Lex, Trim, Written.Text, Written.Tag, Written.Show, ValidWords, CommandAt, Reads, Script, At, TokensOf, Parse, Unlines, WrongHead;
    var rest := [indent + ShowWords(words)] + below;
    assert words != [] by { assert WrongHead(words, problem); HeadIsWrong(words, problem); }
    WordLineReads(indent, words);
    Layout(cmds, above, rest);
    HeadIsWrong(words, problem);
    ErrorOfHead(Script(cmds, above, rest), Start(cmds, above), NamesOf(cmds), TokensOf(words), problem);
    StopsAt(cmds, above, rest, problem);
  }

  lemma {:induction false} HeadIsWrong(words: seq<Spaced>, problem: Problem)
    requires WrongHead(words, problem)
    ensures var toks := TokensOf(words);
            words != [] && if problem.NoCommand? then SplitBind(toks).Ok? && SplitBind(toks).value.command == [] else SplitBind(toks) == Err(problem)
  {
    hide Written.Text, Written.Tag;
    var toks := TokensOf(words);
    assert toks[0].text == words[0].word.Text() && (|words| > 1 ==> toks[1].text == words[1].word.Text());
    NameIs(words[0].word.Text()[1..]);
  }

  lemma {:induction false} ErrorOfHead(lines: seq<string>, n: nat, bound: set<string>, toks: seq<Token>, problem: Problem)
    requires n < |lines| && Lex(Trim(lines[n])) == Ok(toks)
    requires if problem.NoCommand? then SplitBind(toks).Ok? && SplitBind(toks).value.command == [] else SplitBind(toks) == Err(problem)
    ensures CommandAt(lines, n, bound) == Err(problem)
  {
  }

  /** A line up to a quote that nothing closes, without the whitespace around it. */
  predicate OpenLine(ink: string, words: seq<Spaced>, tail: Tail) {
    && ValidLine("", words, tail) && tail.Cut? && ink == ShowWords(words) + tail.Show()
    && ink != "" && !IsWhitespace(ink[0]) && ink[0] != '#' && !IsWhitespace(ink[|ink| - 1])
  }

  /** A quote that nothing closes is told, at its line. */
  lemma OpenQuoteIsTold(cmds: seq<Command>, above: seq<string>, indent: string, ink: string, words: seq<Spaced>, tail: Tail, below: seq<string>)
    requires Reads(cmds) && AllIgnorable(above) && AllWhitespace(indent) && OpenLine(ink, words, tail)
    requires AllClean([indent + ink] + below)
    ensures Parse(Unlines(Script(cmds, above, [indent + ink] + below)))
         == Err(ParseError(Start(cmds, above) + 1, Unclosed(tail.open.Error())))
  {
    hide AllClean, AllIgnorable, ShowWords, Tail.Show, Lex, ValidWords, CommandAt, Reads, Script, At, Parse, Unlines, Open.Error;
    var rest := [indent + ink] + below;
    assert indent + ink == indent + ink + "";
    TrimDrops(indent, ink, "");
    LineIs("", words, tail);
    Seqs.Neutral(ink);
    Layout(cmds, above, rest);
    ErrorOfLexing(Script(cmds, above, rest), Start(cmds, above), NamesOf(cmds), tail.open.Error());
    StopsAt(cmds, above, rest, Unclosed(tail.open.Error()));
  }

  lemma {:induction false} ErrorOfLexing(lines: seq<string>, n: nat, bound: set<string>, e: LexError)
    requires n < |lines| && Lex(Trim(lines[n])) == Err(e)
    ensures CommandAt(lines, n, bound) == Err(Unclosed(e))
  {
  }

  // ---- A heredoc that is not closed -----------------------------------------------------------

  /** No line below closes argument `j`, a heredoc. */
  predicate OpenHeredoc(c: Command, j: nat, below: seq<string>) {
    j < |c.args| && c.args[j].Here? && forall i :: 0 <= i < |below| ==> TrimEnd(below[i]) != c.args[j].tag
  }

  lemma {:induction false} NotClosed(lines: seq<string>, n: nat, tag: string)
    requires forall i :: n <= i < |lines| ==> TrimEnd(lines[i]) != tag
    ensures HeredocBody(lines, n, tag).None?
    decreases |lines| - n
  {
    if n < |lines| {
      NotClosed(lines, n + 1, tag);
    }
  }

  /** No line from `n` on closes the heredoc `tag`. */
  predicate NeverClosed(lines: seq<string>, n: nat, tag: string) {
    forall i :: n <= i < |lines| ==> TrimEnd(lines[i]) != tag
  }

  lemma {:induction false} TokensOfArgs(args: seq<Arg>)
    requires args != []
    ensures TokensOf(WordsOf(args)) == [args[0].Word().Reads()] + TokensOf(WordsOf(args[1..]))
  {
    hide Written.Reads, Arg.Word;
    assert WordsOf(args) == [Spaced(args[0].Word(), args[0].gap)] + WordsOf(args[1..]);
  }

  lemma {:induction false} FirstNotClosed(a: Arg, rest: seq<Token>, lines: seq<string>, n: nat)
    requires a.Here? && PrintableArg(a) && n <= |lines| && NeverClosed(lines, n, a.tag)
    ensures Values([a.Word().Reads()] + rest, lines, n) == Err(HeredocOpen(a.tag))
  {
    hide Values, HeredocBody;
    ArgIs(a);
    NotClosed(lines, n, a.tag);
    OpenValue(a.Word().Reads(), rest, lines, n, a.tag);
  }

  lemma {:induction false} ValuesNotClosed(args: seq<Arg>, j: nat, lines: seq<string>, n: nat)
    requires j < |args| && args[j].Here? && forall i :: 0 <= i < |args| ==> PrintableArg(args[i])
    requires At(lines, n, BodyOf(args[..j])) && NeverClosed(lines, n + |BodyOf(args[..j])|, args[j].tag)
    ensures Values(TokensOf(WordsOf(args)), lines, n) == Err(HeredocOpen(args[j].tag))
    decreases j
  {
    hide PrintableArg, BodyOfArg, Values, PrependValue, NeverClosed, Arg.Word, Written.Reads, TokensOf, WordsOf, Arg.Value;
    var rest := TokensOf(WordsOf(args[1..]));
    TokensOfArgs(args);
    if j == 0 {
      assert args[..0] == [];
      FirstNotClosed(args[0], rest, lines, n);
    } else {
      var head, body := BodyOfArg(args[0]), BodyOf(args[1..][..j - 1]);
      assert args[..j][0] == args[0] && args[..j][1..] == args[1..][..j - 1];
      assert BodyOf(args[..j]) == head + body;
      AtSplit(lines, n, head, body);
      ValuesNotClosed(args[1..], j - 1, lines, n + |head|);
      ArgReads(args[0], rest, lines, n);
      ErrorIsKept(args[0].Value(), HeredocOpen(args[j].tag));
    }
  }

  lemma ErrorIsKept(value: string, problem: Problem)
    ensures PrependValue(value, Err(problem)) == Err(problem)
  {
  }

  lemma {:induction false} OpenValue(t: Token, rest: seq<Token>, lines: seq<string>, n: nat, tag: string)
    requires n <= |lines| && t.heredoc == Some(tag) && HeredocBody(lines, n, tag).None?
    ensures Values([t] + rest, lines, n) == Err(HeredocOpen(tag))
  {
  }

  lemma {:induction false} ErrorOfValues(lines: seq<string>, n: nat, bound: set<string>, toks: seq<Token>, head: Bound, problem: Problem)
    requires n < |lines| && Lex(Trim(lines[n])) == Ok(toks) && SplitBind(toks) == Ok(head) && head.command != []
    requires Values(head.command, lines, n + 1) == Err(problem)
    ensures CommandAt(lines, n, bound) == Err(problem)
  {
  }

  /** The command's line, the heredocs of its first `j` arguments, and what is below. */
  function UpTo(c: Command, j: nat, below: seq<string>): seq<string>
    requires j <= |c.args|
  {
    [HeaderOf(c)] + (BodyOf(c.args[..j]) + below)
  }

  lemma UpToIsClean(c: Command, j: nat, below: seq<string>)
    requires Printable(c) && j <= |c.args| && AllClean(below)
    ensures AllClean(UpTo(c, j, below)) && !Skipped(UpTo(c, j, below)[0])
  {
    hide CleanLine, Skipped, HeaderOf, BodyOf, Ignorable, PrintableArg;
    HeaderIsTrimmed(c);
    BodyIsClean(c.args[..j]);
    CleanConcat(BodyOf(c.args[..j]), below);
    CleanConcat([HeaderOf(c)], BodyOf(c.args[..j]) + below);
  }

  lemma BelowIsThere(lines: seq<string>, n: nat, c: Command, j: nat, below: seq<string>)
    requires j <= |c.args| && At(lines, n, UpTo(c, j, below)) && |lines| == n + |UpTo(c, j, below)|
    ensures At(lines, n + 1, BodyOf(c.args[..j]))
    ensures OpenHeredoc(c, j, below) ==> NeverClosed(lines, n + 1 + |BodyOf(c.args[..j])|, c.args[j].tag)
  {
    hide HeaderOf, BodyOf, TrimEnd;
    AtSplit(lines, n, [HeaderOf(c)], BodyOf(c.args[..j]) + below);
    AtSplit(lines, n + 1, BodyOf(c.args[..j]), below);
    var m := n + 1 + |BodyOf(c.args[..j])|;
    assert lines[m..m + |below|] == below;
    assert forall i :: m <= i < |lines| ==> lines[i] == below[i - m];
  }

  lemma OpenHeredocAt(lines: seq<string>, n: nat, c: Command, j: nat, below: seq<string>, bound: set<string>)
    requires Printable(c) && HeadClear(c) && OpenHeredoc(c, j, below)
    requires At(lines, n, UpTo(c, j, below)) && |lines| == n + |UpTo(c, j, below)| && n < |lines| && lines[n] == HeaderOf(c)
    ensures CommandAt(lines, n, bound) == Err(HeredocOpen(c.args[j].tag))
  {
    hide Skipped, CommandAt, PrintableArg, HeadClear, BodyOf, HeaderOf, TokensOf, Lex, Trim, SplitBind, Values, TrimEnd, UpTo, At, Ignorable, NeverClosed, GapsApart, AllWhitespace, WordsOf, BindWords;
    HeaderIsTrimmed(c);
    BindReads(c);
    BelowIsThere(lines, n, c, j, below);
    ValuesNotClosed(c.args, j, lines, n + 1);
    var command := TokensOf(WordsOf(c.args));
    assert |command| > 0;
    ErrorOfValues(lines, n, bound, TokensOf(BindWords(c.bind) + WordsOf(c.args)), Bound(c.bind, command), HeredocOpen(c.args[j].tag));
  }

  /** The first heredoc that nothing closes is told, by its tag, at the line of its command. */
  lemma {:induction false} OpenHeredocIsTold(cmds: seq<Command>, c: Command, j: nat, below: seq<string>)
    requires Reads(cmds) && Printable(c) && HeadClear(c) && OpenHeredoc(c, j, below) && AllClean(below)
    ensures Parse(Unlines(Script(cmds, c.above, UpTo(c, j, below))))
         == Err(ParseError(Start(cmds, c.above) + 1, HeredocOpen(c.args[j].tag)))
  {
    hide AllClean, Skipped, CommandAt, PrintableArg, HeadClear, HeaderOf, TrimEnd, Reads, Script, UpTo, At, Parse, Unlines, ScriptLines, Ignorable, GapsApart;
    var rest := UpTo(c, j, below);
    Layout(cmds, c.above, rest);
    UpToIsClean(c, j, below);
    HeaderIsFirst(c, j, below);
    OpenHeredocAt(Script(cmds, c.above, rest), Start(cmds, c.above), c, j, below, NamesOf(cmds));
    StopsAt(cmds, c.above, rest, HeredocOpen(c.args[j].tag));
  }

  lemma HeaderIsFirst(c: Command, j: nat, below: seq<string>)
    requires j <= |c.args|
    ensures UpTo(c, j, below) != [] && UpTo(c, j, below)[0] == HeaderOf(c)
  {
  }
}
