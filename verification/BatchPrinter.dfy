/** A printer for batch scripts, and the round trip through `parse_script`. */
module BatchPrinter {
  import opened Text
  import Seqs
  import opened BatchLexer
  import opened BatchGrammar
  import opened BatchParser

  /** An argument, how it is written, in any quotes or as a heredoc, and the whitespace after it. */
  datatype Arg = Plain(word: Written, gap: string) | Here(tag: string, value: string, gap: string) {
    function Value(): string {
      if Plain? then word.Text() else value
    }

    function Word(): Written {
      if Plain? then word else HereWord(tag)
    }
  }

  /** A command, and what stands before it: lines that are blank or comments, and an indent. */
  datatype Command = Command(above: seq<string>, indent: string, bind: Option<string>, args: seq<Arg>)

  function BareWord(text: string): Written {
    Written([Bare(text)])
  }

  function HereWord(tag: string): Written {
    BareWord("<<" + tag)
  }

  // ---- Writing ---------------------------------------------------------------------------

  /** Whitespace that ends no line. */
  predicate Space(s: string) {
    AllWhitespace(s) && '\n' !in s
  }

  predicate PlainText(text: string) {
    text != "" && forall i :: 0 <= i < |text| ==> PlainChar(text[i])
  }

  /** A word on one line; or a tag that reads as itself and that no line of the value closes early. */
  predicate PrintableArg(a: Arg) {
    match a
    case Plain(word, _) => word.Valid() && word.Tag().None? && '\n' !in word.Show()
    case Here(tag, value, _) =>
      && PlainText(tag)
      && forall i :: 0 <= i < |Split(value, '\n')| ==>
           var piece := Split(value, '\n')[i];
           TrimEnd(piece) != tag && (piece != "" ==> piece[|piece| - 1] != '\r')
  }

  predicate GapsApart(args: seq<Arg>) {
    forall i :: 0 <= i < |args| ==> Space(args[i].gap) && (i < |args| - 1 ==> args[i].gap != "")
  }

  /** The last gap of a line must not end it as a carriage return would. */
  predicate EndsLine(s: string) {
    s != "" ==> s[|s| - 1] != '\r'
  }

  predicate Printable(c: Command) {
    && (forall i :: 0 <= i < |c.above| ==> Ignorable(c.above[i]) && CleanLine(c.above[i]))
    && Space(c.indent)
    && c.args != [] && GapsApart(c.args) && EndsLine(c.args[|c.args| - 1].gap)
    && (forall i :: 0 <= i < |c.args| ==> PrintableArg(c.args[i]))
    && (if c.bind.Some? then IsName(c.bind.value) else c.args[0].Word().Show()[..1] != "#")
  }

  function ValuesOf(args: seq<Arg>): (values: seq<string>)
    ensures |values| == |args|
    ensures forall i :: 0 <= i < |args| ==> values[i] == args[i].Value()
  {
    if args == [] then [] else [args[0].Value()] + ValuesOf(args[1..])
  }

  function WordsOf(args: seq<Arg>): (words: seq<Spaced>)
    ensures |words| == |args|
    ensures forall i :: 0 <= i < |args| ==> words[i] == Spaced(args[i].Word(), args[i].gap)
  {
    if args == [] then [] else [Spaced(args[0].Word(), args[0].gap)] + WordsOf(args[1..])
  }

  function BindWords(bind: Option<string>): seq<Spaced> {
    if bind.Some? then [Spaced(BareWord("$" + bind.value), " "), Spaced(BareWord("="), " ")] else []
  }

  function HeaderOf(c: Command): string {
    c.indent + ShowWords(BindWords(c.bind) + WordsOf(c.args))
  }

  function BodyOfArg(a: Arg): seq<string> {
    if a.Here? then Split(a.value, '\n') + [a.tag] else []
  }

  /** The lines under a command: each heredoc's text, then its tag. */
  function BodyOf(args: seq<Arg>): seq<string> {
    if args == [] then []
    else BodyOfArg(args[0]) + BodyOf(args[1..])
  }

  function LinesOf(c: Command): seq<string> {
    c.above + ([HeaderOf(c)] + BodyOf(c.args))
  }

  function ScriptLines(cmds: seq<Command>): seq<string> {
    if cmds == [] then [] else LinesOf(cmds[0]) + ScriptLines(cmds[1..])
  }

  /** The script, with lines that are blank or comments at its end. */
  function Print(cmds: seq<Command>, below: seq<string>): string {
    Unlines(ScriptLines(cmds) + below)
  }

  predicate AllIgnorable(lines: seq<string>) {
    forall i :: 0 <= i < |lines| ==> Ignorable(lines[i]) && CleanLine(lines[i])
  }

  /** What the script should read as, when its first line has index `n`. */
  function ItemsFrom(cmds: seq<Command>, n: nat): (items: seq<Item>)
    ensures |items| == |cmds|
    ensures forall i :: 0 <= i < |cmds| ==>
              items[i].bind == cmds[i].bind && items[i].tokens == ValuesOf(cmds[i].args) && items[i].line > n
  {
    if cmds == [] then []
    else [Item(n + |cmds[0].above| + 1, cmds[0].bind, ValuesOf(cmds[0].args))] + ItemsFrom(cmds[1..], n + |LinesOf(cmds[0])|)
  }

  /** Without a binding of its own, a line's first argument must not look like one. */
  predicate HeadClear(c: Command) {
    c.bind.None? && c.args != [] && c.args[0].Plain? && c.args[0].Value() != "" && c.args[0].Value()[0] == '$' ==>
      '=' !in c.args[0].Value() && !(|c.args| > 1 && c.args[1].Plain? && c.args[1].Value() == "=")
  }

  /** The commands the grammar admits after lines that bind `outside`. */
  predicate AdmitsFrom(cmds: seq<Command>, outside: set<string>) {
    cmds != [] ==>
      && CommandAdmitted(cmds[0], outside)
      && AdmitsFrom(cmds[1..], outside + BindSet(cmds[0].bind))
  }

  /** The same, without the parser's own functions: for each command, its first argument does
      not look like a binding, no argument is `-`, its noun is not refused, and each variable
      is bound by an earlier command. */
  ghost predicate Admissible(cmds: seq<Command>) {
    forall i :: 0 <= i < |cmds| ==> AdmissibleAt(cmds, i, {})
  }

  ghost predicate AdmissibleAt(cmds: seq<Command>, i: nat, outside: set<string>)
    requires i < |cmds|
  {
    var values := ValuesOf(cmds[i].args);
    && HeadClear(cmds[i])
    && "-" !in values
    && (forall k: nat :: !RefusedAt(values, k))
    && forall t, name :: t in values && Refers(t, name)
         ==> name in outside || exists j :: 0 <= j < i && cmds[j].bind == Some(name)
  }

  // ---- Reading back ----------------------------------------------------------------------

  predicate At(lines: seq<string>, n: nat, block: seq<string>) {
    n + |block| <= |lines| && lines[n..n + |block|] == block
  }

  lemma AtSplit(lines: seq<string>, n: nat, a: seq<string>, b: seq<string>)
    requires At(lines, n, a + b)
    ensures At(lines, n, a) && At(lines, n + |a|, b)
  {
    assert lines[n..n + |a|] == (a + b)[..|a|] == a;
    assert lines[n + |a|..n + |a| + |b|] == (a + b)[|a|..] == b;
  }

  lemma {:induction false} HeredocReads(lines: seq<string>, n: nat, pieces: seq<string>, tag: string)
    requires At(lines, n, pieces + [tag]) && TrimEnd(tag) == tag
    requires forall i :: 0 <= i < |pieces| ==> TrimEnd(pieces[i]) != tag
    ensures HeredocBody(lines, n, tag) == Some(Taken(pieces, n + |pieces| + 1))
    decreases |pieces|
  {
    assert lines[n] == lines[n..n + |pieces| + 1][0];
    if pieces == [] {
      assert lines[n] == tag;
    } else {
      assert lines[n] == pieces[0];
      assert pieces + [tag] == [pieces[0]] + (pieces[1..] + [tag]);
      AtSplit(lines, n, [pieces[0]], pieces[1..] + [tag]);
      HeredocReads(lines, n + 1, pieces[1..], tag);
      assert [pieces[0]] + pieces[1..] == pieces;
    }
  }

  lemma {:induction false} ValuesStep(t: Token, rest: seq<Token>, lines: seq<string>, n: nat)
    requires n <= |lines|
    ensures t.heredoc.None? ==> Values([t] + rest, lines, n) == PrependValue(t.text, Values(rest, lines, n))
    ensures t.heredoc.Some? && HeredocBody(lines, n, t.heredoc.value).Some? ==>
              var body := HeredocBody(lines, n, t.heredoc.value).value;
              Values([t] + rest, lines, n) == PrependValue(Join(body.values, '\n'), Values(rest, lines, body.next))
  {
    assert ([t] + rest)[1..] == rest;
  }

  lemma {:induction false} BareWordIs(text: string)
    requires PlainText(text)
    ensures BareWord(text).Valid() && BareWord(text).Show() == text && BareWord(text).Text() == text
    ensures BareWord(text).Tag() == if |text| >= 3 && text[0] == '<' && text[1] == '<' then Some(text[2..]) else None
  {
    OnePiece(Bare(text));
  }

  lemma ArgIs(a: Arg)
    requires PrintableArg(a)
    ensures a.Word().Valid() && '\n' !in a.Word().Show()
    ensures a.Here? ==> a.Word().Reads() == Token("<<" + a.tag, Some(a.tag)) && a.Word().Show() == "<<" + a.tag
    ensures a.Plain? ==> a.Word().Reads() == Token(a.Value(), None)
  {
    if a.Here? {
      assert !IsWhitespace('<') && IsWhitespace('\n');
      BareWordIs("<<" + a.tag);
      assert ("<<" + a.tag)[2..] == a.tag;
    }
  }

  /** One written argument reads as its value, and its heredoc as exactly its own lines. */
  lemma {:induction false} ArgReads(a: Arg, rest: seq<Token>, lines: seq<string>, n: nat)
    requires PrintableArg(a) && At(lines, n, BodyOfArg(a))
    ensures Values([a.Word().Reads()] + rest, lines, n)
         == PrependValue(a.Value(), Values(rest, lines, n + |BodyOfArg(a)|))
  {
    hide Values;
    ArgIs(a);
    ValuesStep(a.Word().Reads(), rest, lines, n);
    if a.Here? {
      var pieces := Split(a.value, '\n');
      TrimEndKeeps(a.tag);
      HeredocReads(lines, n, pieces, a.tag);
      JoinUndoesSplit(a.value, '\n');
    }
  }

  lemma ValuesReadCons(args: seq<Arg>, lines: seq<string>, n: nat, end: nat)
    requires args != [] && PrintableArg(args[0]) && At(lines, n, BodyOfArg(args[0]))
    requires Values(TokensOf(WordsOf(args[1..])), lines, n + |BodyOfArg(args[0])|)
          == Ok(Taken(ValuesOf(args[1..]), end))
    ensures Values(TokensOf(WordsOf(args)), lines, n) == Ok(Taken(ValuesOf(args), end))
  {
    hide Values, PrintableArg, At, BodyOfArg, Arg.Word, Arg.Value, Written.Reads;
    var rest := TokensOf(WordsOf(args[1..]));
    assert WordsOf(args) == [Spaced(args[0].Word(), args[0].gap)] + WordsOf(args[1..]);
    assert TokensOf(WordsOf(args)) == [args[0].Word().Reads()] + rest;
    ArgReads(args[0], rest, lines, n);
  }

  lemma {:induction false} ValuesRead(args: seq<Arg>, lines: seq<string>, n: nat)
    requires At(lines, n, BodyOf(args))
    requires forall a :: a in args ==> PrintableArg(a)
    ensures Values(TokensOf(WordsOf(args)), lines, n) == Ok(Taken(ValuesOf(args), n + |BodyOf(args)|))
  {
    hide HeredocBody, PrintableArg, At, BodyOfArg, Arg.Word, Arg.Value;
    if args == [] {
      assert WordsOf(args) == [] && TokensOf(WordsOf(args)) == [] && BodyOf(args) == [] && ValuesOf(args) == [];
    } else {
      var own, after := BodyOfArg(args[0]), BodyOf(args[1..]);
      AtSplit(lines, n, own, after);
      ValuesRead(args[1..], lines, n + |own|);
      ValuesReadCons(args, lines, n, n + |own| + |after|);
    }
  }

  lemma BindIs(name: string)
    requires IsName(name)
    ensures BareWord("$" + name).Valid() && BareWord("$" + name).Show() == "$" + name && BareWord("$" + name).Reads() == Token("$" + name, None)
    ensures BareWord("=").Valid() && BareWord("=").Show() == "=" && BareWord("=").Reads() == Token("=", None)
  {
    forall i | 0 <= i < |name| ensures PlainChar(name[i]) {
    }
    assert PlainChar('$') && PlainChar('=');
    BareWordIs("$" + name);
    BareWordIs("=");
  }

  /** The words of a printed line: valid, in one line, and not a comment. */
  lemma WordsAreValid(c: Command)
    requires Printable(c)
    ensures var words := BindWords(c.bind) + WordsOf(c.args);
            && ValidWords(words) && words != [] && words[0].word.Show()[..1] != "#"
            && (forall i :: 0 <= i < |words| ==> '\n' !in words[i].word.Show() && '\n' !in words[i].gap)
            && words[|words| - 1].gap == c.args[|c.args| - 1].gap
  {
    hide Written.Valid, Written.Show, PrintableArg, Arg.Word, Ignorable;
    var words := BindWords(c.bind) + WordsOf(c.args);
    if c.bind.Some? {
      BindIs(c.bind.value);
      NoNewlineInName(c.bind.value);
    }
    forall i | 0 <= i < |c.args| ensures c.args[i].Word().Valid() && '\n' !in c.args[i].Word().Show() {
      ArgIs(c.args[i]);
    }
  }

  lemma NoNewlineInName(name: string)
    requires IsName(name)
    ensures '\n' !in "$" + name && ("$" + name)[..1] == "$"
  {
  }

  /** The words of a line up to their last gap. */
  lemma {:induction false} WordsEnd(words: seq<Spaced>) returns (ink: string)
    requires words != [] && ValidWords(words)
    ensures ShowWords(words) == ink + words[|words| - 1].gap
    ensures ink != "" && !IsWhitespace(ink[|ink| - 1]) && words[0].word.Show() <= ink
  {
    hide Written.Show, Written.Valid, ValidWords, ShowWords;
    var first := words[0];
    WordsThen(words, "");
    Seqs.Neutral(ShowWords(words));
    Seqs.Neutral(ShowWords(words[1..]));
    RestIsValid(words);
    ShowStarts(first.word);
    ShowStops(first.word);
    ink := first.word.Show();
    if |words| == 1 {
      NoWords(words[1..], "");
      Seqs.Neutral(first.gap);
    } else {
      var rest := WordsEnd(words[1..]);
      ink := first.word.Show() + (first.gap + rest);
      assert ink[|ink| - 1] == rest[|rest| - 1];
      Seqs.Assoc(first.gap, rest, words[|words| - 1].gap);
      Seqs.Assoc(first.word.Show(), first.gap + rest, words[|words| - 1].gap);
    }
  }

  /** A line of words is trimmed and read as those words, unless it starts as a comment. */
  lemma {:induction false} WordLineReads(indent: string, words: seq<Spaced>)
    requires AllWhitespace(indent) && words != [] && ValidWords(words) && words[0].word.Show()[..1] != "#"
    ensures var line := indent + ShowWords(words);
            !Skipped(line) && Lex(Trim(line)) == Ok(TokensOf(words))
  {
    hide Lex, ValidWords, ShowWords, TokensOf, Written.Show;
    var ink := WordsEnd(words);
    var gap := words[|words| - 1].gap;
    StartOfWords(words, ink);
    GapIsSpace(words);
    assert indent + ShowWords(words) == indent + ink + gap;
    TrimDrops(indent, ink, gap);
    Unspaced(words, ink);
  }

  lemma HeaderIsTrimmed(c: Command)
    requires Printable(c)
    ensures !Skipped(HeaderOf(c)) && Lex(Trim(HeaderOf(c))) == Ok(TokensOf(BindWords(c.bind) + WordsOf(c.args)))
    ensures CleanLine(HeaderOf(c))
  {
    hide Lex, ValidWords, ShowWords, TokensOf, PrintableArg, Ignorable, Written.Show, Skipped, Trim;
    var words := BindWords(c.bind) + WordsOf(c.args);
    WordsAreValid(c);
    WordLineReads(c.indent, words);
    OneLineWords(words);
    var ink := WordsEnd(words);
    assert IsWhitespace('\r');
  }

  lemma GapIsSpace(words: seq<Spaced>)
    requires words != [] && ValidWords(words)
    ensures AllWhitespace(words[|words| - 1].gap)
  {
  }

  lemma StartOfWords(words: seq<Spaced>, ink: string)
    requires words != [] && ValidWords(words) && words[0].word.Show() <= ink && words[0].word.Show()[..1] != "#"
    ensures ink != "" && !IsWhitespace(ink[0]) && ink[0] != '#'
  {
    ShowStarts(words[0].word);
    var s := words[0].word.Show();
    assert s[..1] == [s[0]] && ink[0] == s[0];
  }

  function LastBare(words: seq<Spaced>): seq<Spaced>
    requires words != []
  {
    words[..|words| - 1] + [Spaced(words[|words| - 1].word, "")]
  }

  lemma {:induction false} LastBareIsValid(words: seq<Spaced>)
    requires words != [] && ValidWords(words)
    ensures ValidWords(LastBare(words)) && TokensOf(LastBare(words)) == TokensOf(words)
  {
    hide Written.Valid, Written.Reads;
  }

  lemma {:induction false} Unspaced(words: seq<Spaced>, ink: string)
    requires words != [] && ValidWords(words) && ShowWords(words) == ink + words[|words| - 1].gap
    ensures Lex(ink) == Ok(TokensOf(words))
  {
    hide ValidWords, ShowWords, TokensOf, LastBare, Lex;
    var bare := LastBare(words);
    LastBareIsValid(words);
    SameButLastGap(words, bare);
    SameFront(ShowWords(bare), ink, words[|words| - 1].gap);
    LineReads("", bare);
    Seqs.Neutral(ShowWords(bare));
  }

  lemma SameFront(a: string, b: string, end: string)
    requires a + end == b + end
    ensures a == b
  {
    assert |a| == |b| && a == (a + end)[..|a|] && b == (b + end)[..|b|];
  }

  lemma {:induction false} SameButLastGap(words: seq<Spaced>, bare: seq<Spaced>)
    requires words != [] && bare == LastBare(words)
    ensures ShowWords(words) == ShowWords(bare) + words[|words| - 1].gap
  {
    if |words| > 1 {
      assert bare[1..] == words[1..][..|words| - 2] + [Spaced(words[1..][|words| - 2].word, "")];
      SameButLastGap(words[1..], bare[1..]);
    } else {
      assert words[1..] == [] && bare[1..] == [];
    }
  }

  lemma {:induction false} OneLineWords(words: seq<Spaced>)
    requires forall i :: 0 <= i < |words| ==> '\n' !in words[i].word.Show() && '\n' !in words[i].gap
    ensures '\n' !in ShowWords(words)
  {
    if words != [] {
      OneLineWords(words[1..]);
    }
  }

  lemma BoundHeadReads(c: Command)
    requires Printable(c) && c.bind.Some?
    ensures SplitBind(TokensOf(BindWords(c.bind) + WordsOf(c.args))) == Ok(Bound(c.bind, TokensOf(WordsOf(c.args))))
  {
    hide PrintableArg, Ignorable, GapsApart, Written.Reads;
    var words := BindWords(c.bind) + WordsOf(c.args);
    var toks := TokensOf(words);
    BindIs(c.bind.value);
    NameIs(c.bind.value);
    assert words[0].word == BareWord("$" + c.bind.value) && words[1].word == BareWord("=");
    assert toks[0].text == "$" + c.bind.value && toks[0].text[1..] == c.bind.value;
    assert toks[1].text == "=";
    assert words[2..] == WordsOf(c.args);
    assert toks[2..] == TokensOf(WordsOf(c.args));
  }

  lemma {:induction false} FreeHeadReads(c: Command)
    requires c.bind.None? && c.args != [] && forall i :: 0 <= i < |c.args| ==> PrintableArg(c.args[i])
    ensures var toks := TokensOf(WordsOf(c.args));
            if HeadClear(c) then SplitBind(toks) == Ok(Bound(None, toks))
            else SplitBind(toks).Err? || SplitBind(toks).value.bind.Some?
  {
    hide Written.Reads, PrintableArg, Arg.Value;
    var toks, args := TokensOf(WordsOf(c.args)), c.args;
    ArgIs(args[0]);
    assert toks[0] == args[0].Word().Reads();
    if |args| > 1 {
      ArgIs(args[1]);
      assert toks[1] == args[1].Word().Reads();
      assert toks[1].text == "=" <==> args[1].Plain? && args[1].Value() == "=";
    }
    if args[0].Plain? && args[0].Value() != "" && args[0].Value()[0] == '$' {
      assert args[0].Value() == ['$'] + args[0].Value()[1..];
    }
  }

  /** What the front of a printed line reads as. */
  lemma BindReads(c: Command)
    requires Printable(c)
    ensures var toks := TokensOf(BindWords(c.bind) + WordsOf(c.args));
            if HeadClear(c) then SplitBind(toks) == Ok(Bound(c.bind, TokensOf(WordsOf(c.args))))
            else SplitBind(toks).Err? || SplitBind(toks).value.bind != c.bind
  {
    hide SplitBind, PrintableArg, Ignorable, TokensOf;
    if c.bind.Some? {
      BoundHeadReads(c);
    } else {
      FreeHeadReads(c);
      assert BindWords(c.bind) + WordsOf(c.args) == WordsOf(c.args);
    }
  }

  lemma {:induction false} CommandAtIs(lines: seq<string>, n: nat, bound: set<string>, toks: seq<Token>, head: Bound, taken: Taken)
    requires n < |lines| && Lex(Trim(lines[n])) == Ok(toks)
    requires SplitBind(toks) == Ok(head) && head.command != []
    requires Values(head.command, lines, n + 1) == Ok(taken)
    ensures CommandAt(lines, n, bound) ==
            match Refusal(taken.values, bound)
            case Some(p) => Err(p)
            case None => Ok(Parsed(Item(n + 1, head.bind, taken.values), taken.next))
  {
  }

  lemma HeadRefused(lines: seq<string>, n: nat, bound: set<string>, toks: seq<Token>)
    requires n < |lines| && Lex(Trim(lines[n])) == Ok(toks)
    ensures SplitBind(toks).Err? ==> CommandAt(lines, n, bound).Err?
    ensures CommandAt(lines, n, bound).Ok? ==>
              SplitBind(toks).Ok? && CommandAt(lines, n, bound).value.item.bind == SplitBind(toks).value.bind
  {
  }

  /** Where a command's own line is: below the lines above it. */
  function HeadLine(c: Command, n: nat): nat {
    n + |c.above|
  }

  lemma HeaderAt(c: Command, lines: seq<string>, n: nat)
    requires Printable(c) && At(lines, n, LinesOf(c))
    ensures At(lines, n, c.above) && HeadLine(c, n) < |lines| && At(lines, HeadLine(c, n) + 1, BodyOf(c.args))
    ensures !Skipped(lines[HeadLine(c, n)])
    ensures Lex(Trim(lines[HeadLine(c, n)])) == Ok(TokensOf(BindWords(c.bind) + WordsOf(c.args)))
  {
    hide Lex, Trim, Skipped, HeaderOf, BodyOf, TokensOf, Printable;
    var h := HeadLine(c, n);
    AtSplit(lines, n, c.above, [HeaderOf(c)] + BodyOf(c.args));
    AtSplit(lines, h, [HeaderOf(c)], BodyOf(c.args));
    assert lines[h] == lines[h..h + 1][0] == HeaderOf(c);
    HeaderIsTrimmed(c);
  }

  lemma ClearCommandReads(c: Command, lines: seq<string>, n: nat, bound: set<string>)
    requires Printable(c) && At(lines, n, LinesOf(c)) && HeadClear(c)
    ensures HeadLine(c, n) < |lines|
    ensures CommandAt(lines, HeadLine(c, n), bound) ==
            match Refusal(ValuesOf(c.args), bound)
            case Some(p) => Err(p)
            case None => Ok(Parsed(Item(HeadLine(c, n) + 1, c.bind, ValuesOf(c.args)), n + |LinesOf(c)|))
  {
    hide Values, SplitBind, Lex, Trim, Refusal, HeadClear, CommandAt, HeaderOf, BodyOf, PrintableArg, At, Ignorable;
    HeaderAt(c, lines, n);
    BindReads(c);
    ValuesRead(c.args, lines, HeadLine(c, n) + 1);
    var toks, command := TokensOf(BindWords(c.bind) + WordsOf(c.args)), TokensOf(WordsOf(c.args));
    assert |command| == |c.args| > 0;
    CommandAtIs(lines, HeadLine(c, n), bound, toks, Bound(c.bind, command),
                Taken(ValuesOf(c.args), HeadLine(c, n) + 1 + |BodyOf(c.args)|));
  }

  predicate CommandAdmitted(c: Command, bound: set<string>) {
    HeadClear(c) && Refusal(ValuesOf(c.args), bound).None?
  }

  lemma CommandReads(c: Command, lines: seq<string>, n: nat, bound: set<string>)
    requires Printable(c) && At(lines, n, LinesOf(c))
    ensures At(lines, n, c.above) && HeadLine(c, n) < |lines| && !Skipped(lines[HeadLine(c, n)])
    ensures if CommandAdmitted(c, bound)
            then CommandAt(lines, HeadLine(c, n), bound)
                 == Ok(Parsed(Item(HeadLine(c, n) + 1, c.bind, ValuesOf(c.args)), n + |LinesOf(c)|))
            else CommandAt(lines, HeadLine(c, n), bound).Err? || CommandAt(lines, HeadLine(c, n), bound).value.item.bind != c.bind
  {
    hide Lex, Trim, Skipped, SplitBind, Refusal, Printable, At, LinesOf, TokensOf;
    HeaderAt(c, lines, n);
    if HeadClear(c) {
      ClearCommandReads(c, lines, n, bound);
    } else {
      BindReads(c);
      HeadRefused(lines, HeadLine(c, n), bound, TokensOf(BindWords(c.bind) + WordsOf(c.args)));
    }
  }

  /** Lines that are blank or comments are passed over. */
  lemma {:induction false} IgnoredArePassed(lines: seq<string>, n: nat, above: seq<string>, bound: set<string>)
    requires At(lines, n, above) && forall i :: 0 <= i < |above| ==> Ignorable(above[i])
    ensures n + |above| <= |lines| && ParseFrom(lines, n, bound) == ParseFrom(lines, n + |above|, bound)
    decreases |above|
  {
    hide Skipped, CommandAt, Ignorable;
    if above != [] {
      assert lines[n] == lines[n..n + |above|][0] == above[0];
      SkippedExactly(lines[n]);
      assert above == [above[0]] + above[1..];
      AtSplit(lines, n, [above[0]], above[1..]);
      IgnoredArePassed(lines, n + 1, above[1..], bound);
    }
  }

  lemma {:induction false} ParseFromStep(lines: seq<string>, n: nat, bound: set<string>)
    requires n < |lines| && !Skipped(lines[n])
    ensures CommandAt(lines, n, bound).Err? ==> ParseFrom(lines, n, bound).Err?
    ensures CommandAt(lines, n, bound).Ok? ==>
              var p := CommandAt(lines, n, bound).value;
              ParseFrom(lines, n, bound)
              == PrependItems([p.item], ParseFrom(lines, p.next, bound + BindSet(p.item.bind)))
  {
  }

  lemma PrependCancels(item: Item, r: Result<seq<Item>, ParseError>, rest: seq<Item>)
    ensures PrependItems([item], r) == Ok([item] + rest) <==> r == Ok(rest)
  {
    if r.Ok? && [item] + r.value == [item] + rest {
      assert r.value == ([item] + r.value)[1..] == ([item] + rest)[1..] == rest;
    }
  }

  /** One admitted command in front: it is read, and what follows is read with what it binds. */
  lemma {:induction false} AdmittedIsRead(c: Command, lines: seq<string>, n: nat, bound: set<string>)
    requires Printable(c) && At(lines, n, LinesOf(c)) && CommandAdmitted(c, bound)
    ensures ParseFrom(lines, n, bound) ==
            PrependItems([Item(HeadLine(c, n) + 1, c.bind, ValuesOf(c.args))],
                         ParseFrom(lines, n + |LinesOf(c)|, bound + BindSet(c.bind)))
  {
    hide CommandAt, Skipped, ValuesOf, LinesOf, At, CommandAdmitted, ParseFrom, Ignorable, PrintableArg;
    CommandReads(c, lines, n, bound);
    IgnoredArePassed(lines, n, c.above, bound);
    ParseFromStep(lines, HeadLine(c, n), bound);
  }

  lemma {:induction false} OtherIsNotRead(c: Command, lines: seq<string>, n: nat, bound: set<string>)
    requires Printable(c) && At(lines, n, LinesOf(c)) && !CommandAdmitted(c, bound)
    ensures ParseFrom(lines, n, bound).Ok? ==> ParseFrom(lines, n, bound).value != [] && ParseFrom(lines, n, bound).value[0].bind != c.bind
  {
    hide CommandAt, Skipped, ValuesOf, LinesOf, At, CommandAdmitted, ParseFrom, Ignorable, PrintableArg;
    CommandReads(c, lines, n, bound);
    IgnoredArePassed(lines, n, c.above, bound);
    ParseFromStep(lines, HeadLine(c, n), bound);
  }

  /** From any line index on: the printed commands read back as themselves exactly when the
      grammar admits them. */
  lemma {:induction false} ParseFromReads(cmds: seq<Command>, below: seq<string>, lines: seq<string>, n: nat, bound: set<string>)
    requires forall i :: 0 <= i < |cmds| ==> Printable(cmds[i])
    requires At(lines, n, ScriptLines(cmds) + below) && n + |ScriptLines(cmds) + below| == |lines| && AllIgnorable(below)
    ensures ParseFrom(lines, n, bound) == Ok(ItemsFrom(cmds, n)) <==> AdmitsFrom(cmds, bound)
    decreases |cmds|
  {
    hide CommandAt, Skipped, Refusal, HeadClear, ValuesOf, LinesOf, Printable, At, CommandAdmitted, ParseFrom, Ignorable;
    AtSplit(lines, n, ScriptLines(cmds), below);
    if cmds == [] {
      IgnoredArePassed(lines, n, below, bound);
      EndOfLines(lines, bound);
    } else {
      var c, own := cmds[0], LinesOf(cmds[0]);
      assert ScriptLines(cmds) + below == own + (ScriptLines(cmds[1..]) + below);
      AtSplit(lines, n, own, ScriptLines(cmds[1..]) + below);
      if CommandAdmitted(c, bound) {
        var inside, item, next := bound + BindSet(c.bind), Item(n + |c.above| + 1, c.bind, ValuesOf(c.args)), n + |own|;
        AdmittedIsRead(c, lines, n, bound);
        ParseFromReads(cmds[1..], below, lines, next, inside);
        PrependCancels(item, ParseFrom(lines, next, inside), ItemsFrom(cmds[1..], next));
      } else {
        OtherIsNotRead(c, lines, n, bound);
      }
    }
  }

  lemma {:induction false} EndOfLines(lines: seq<string>, bound: set<string>)
    ensures ParseFrom(lines, |lines|, bound) == Ok([])
  {
  }

  lemma {:induction false} CleanConcat(a: seq<string>, b: seq<string>)
    requires forall i :: 0 <= i < |a| ==> CleanLine(a[i])
    requires forall i :: 0 <= i < |b| ==> CleanLine(b[i])
    ensures forall i :: 0 <= i < |a + b| ==> CleanLine((a + b)[i])
  {
  }

  lemma {:induction false} BodyIsClean(args: seq<Arg>)
    requires forall i :: 0 <= i < |args| ==> PrintableArg(args[i])
    ensures forall i :: 0 <= i < |BodyOf(args)| ==> CleanLine(BodyOf(args)[i])
  {
    if args != [] {
      BodyIsClean(args[1..]);
      if args[0].Here? {
        JoinUndoesSplit(args[0].value, '\n');
        assert IsWhitespace('\n') && IsWhitespace('\r');
        CleanConcat(Split(args[0].value, '\n'), [args[0].tag]);
        CleanConcat(Split(args[0].value, '\n') + [args[0].tag], BodyOf(args[1..]));
      }
    }
  }

  lemma {:induction false} ScriptIsClean(cmds: seq<Command>)
    requires forall i :: 0 <= i < |cmds| ==> Printable(cmds[i])
    ensures forall i :: 0 <= i < |ScriptLines(cmds)| ==> CleanLine(ScriptLines(cmds)[i])
  {
    hide CleanLine, Ignorable, PrintableArg, HeaderOf, BodyOf;
    if cmds != [] {
      HeaderIsTrimmed(cmds[0]);
      BodyIsClean(cmds[0].args);
      CleanConcat([HeaderOf(cmds[0])], BodyOf(cmds[0].args));
      CleanConcat(cmds[0].above, [HeaderOf(cmds[0])] + BodyOf(cmds[0].args));
      ScriptIsClean(cmds[1..]);
      CleanConcat(LinesOf(cmds[0]), ScriptLines(cmds[1..]));
    }
  }

  /** Admission command by command is the admission the static check describes. */
  lemma {:induction false} AdmitsIsAdmissible(cmds: seq<Command>, outside: set<string>)
    ensures AdmitsFrom(cmds, outside) <==> forall i :: 0 <= i < |cmds| ==> AdmissibleAt(cmds, i, outside)
  {
    if cmds != [] {
      var rest, inside := cmds[1..], outside + BindSet(cmds[0].bind);
      FirstUnboundFinds(ValuesOf(cmds[0].args), outside);
      NounRefusal(ValuesOf(cmds[0].args));
      AdmitsIsAdmissible(rest, inside);
      assert AdmissibleAt(cmds, 0, outside)
          <==> HeadClear(cmds[0]) && Refusal(ValuesOf(cmds[0].args), outside).None?;
      forall i | 1 <= i < |cmds| ensures AdmissibleAt(cmds, i, outside) <==> AdmissibleAt(rest, i - 1, inside) {
        assert cmds[i] == rest[i - 1];
        forall name
          ensures (name in outside || exists j :: 0 <= j < i && cmds[j].bind == Some(name))
             <==> (name in inside || exists j :: 0 <= j < i - 1 && rest[j].bind == Some(name))
        {
          if j :| 0 <= j < i && cmds[j].bind == Some(name) {
            assert j == 0 || rest[j - 1].bind == Some(name);
          }
          if j :| 0 <= j < i - 1 && rest[j].bind == Some(name) {
            assert cmds[j + 1].bind == Some(name);
          }
          assert name in BindSet(cmds[0].bind) ==> cmds[0].bind == Some(name);
        }
      }
      assert forall i :: 0 <= i < |rest| ==> (AdmissibleAt(rest, i, inside) <==> AdmissibleAt(cmds, i + 1, outside));
    }
  }

  /** The round trip: parsing what was printed gives back the same bindings and arguments, at
      the lines they were printed on, exactly for the lists the grammar admits. Blank lines and
      comments, anywhere between the commands, leave no trace but in the line numbers. */
  lemma {:induction false} ParseUndoesPrint(cmds: seq<Command>, below: seq<string>)
    requires (forall i :: 0 <= i < |cmds| ==> Printable(cmds[i])) && AllIgnorable(below)
    ensures Parse(Print(cmds, below)) == Ok(ItemsFrom(cmds, 0)) <==> Admissible(cmds)
  {
    hide Lines, Unlines, ParseFrom, ItemsFrom, AdmitsFrom, AdmissibleAt, ScriptLines, Printable, CleanLine, Ignorable;
    var lines := ScriptLines(cmds) + below;
    ScriptIsClean(cmds);
    CleanConcat(ScriptLines(cmds), below);
    LinesUndoUnlines(lines);
    ParseFromReads(cmds, below, lines, 0, {});
    AdmitsIsAdmissible(cmds, {});
  }

  /** A script of blank lines and comments only has no commands. */
  lemma {:induction false} OnlyComments(below: seq<string>)
    requires AllIgnorable(below)
    ensures Parse(Unlines(below)) == Ok([])
  {
    ParseUndoesPrint([], below);
    assert ScriptLines([]) + below == below;
  }

  lemma {:induction false} PrintedLinesIncrease(cmds: seq<Command>, n: nat)
    ensures LinesIncrease(ItemsFrom(cmds, n))
  {
    if cmds == [] {
      assert ItemsFrom(cmds, n) == [];
    } else {
      var next := n + |LinesOf(cmds[0])|;
      assert next >= n + 1;
      var first, rest := Item(n + |cmds[0].above| + 1, cmds[0].bind, ValuesOf(cmds[0].args)), ItemsFrom(cmds[1..], next);
      PrintedLinesIncrease(cmds[1..], next);
      LinesIncreaseCons(first, rest);
      assert ItemsFrom(cmds, n) == [first] + rest;
    }
  }
}
