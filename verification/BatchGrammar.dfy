/** The grammar of a batch line: how words are written, that what is written is what is read, and
    that every line the lexer does not refuse is written so. */
module BatchGrammar {
  import opened Text
  import Seqs
  import opened BatchLexer

  // ---- The grammar of a line ---------------------------------------------------------------

  /** Between double quotes: a character as it is, or an escape. */
  datatype Inner = Lit(c: char) | EscQuote | EscBackslash | EscNewline | EscOther(c: char) {
    predicate Valid() {
      && (Lit? ==> c != '"' && c != '\\')
      && (EscOther? ==> c != '"' && c != '\\' && c != 'n')
    }

    function Show(): string {
      match this
      case Lit(c) => [c]
      case EscQuote => "\\\""
      case EscBackslash => "\\\\"
      case EscNewline => "\\n"
      case EscOther(c) => ['\\', c]
    }

    /** Another character keeps its backslash. */
    function Text(): string {
      match this
      case Lit(c) => [c]
      case EscQuote => "\""
      case EscBackslash => "\\"
      case EscNewline => "\n"
      case EscOther(c) => ['\\', c]
    }
  }

  function ShowInners(inners: seq<Inner>): string {
    if inners == [] then "" else inners[0].Show() + ShowInners(inners[1..])
  }

  function TextOfInners(inners: seq<Inner>): string {
    if inners == [] then "" else inners[0].Text() + TextOfInners(inners[1..])
  }

  predicate ValidInners(inners: seq<Inner>) {
    forall i :: 0 <= i < |inners| ==> inners[i].Valid()
  }

  predicate PlainChar(c: char) {
    !IsWhitespace(c) && c != '"' && c != '\''
  }

  /** A stretch of a word. */
  datatype Piece = Bare(text: string) | Double(inners: seq<Inner>) | Single(text: string) {
    predicate Valid() {
      match this
      case Bare(text) => forall i :: 0 <= i < |text| ==> PlainChar(text[i])
      case Double(inners) => ValidInners(inners)
      case Single(text) => '\'' !in text
    }

    function Show(): string {
      match this
      case Bare(text) => text
      case Double(inners) => "\"" + ShowInners(inners) + "\""
      case Single(text) => "'" + text + "'"
    }

    function Text(): string {
      if Double? then TextOfInners(inners) else text
    }
  }

  function ShowPieces(pieces: seq<Piece>): string {
    if pieces == [] then "" else pieces[0].Show() + ShowPieces(pieces[1..])
  }

  function TextOfPieces(pieces: seq<Piece>): string {
    if pieces == [] then "" else pieces[0].Text() + TextOfPieces(pieces[1..])
  }

  predicate HasQuotes(pieces: seq<Piece>) {
    exists i :: 0 <= i < |pieces| && !pieces[i].Bare?
  }

  predicate ValidPieces(pieces: seq<Piece>) {
    forall i :: 0 <= i < |pieces| ==> pieces[i].Valid()
  }

  /** A word as it is written: the pieces that follow each other without whitespace. */
  datatype Written = Written(pieces: seq<Piece>) {
    predicate Valid() {
      ValidPieces(pieces) && Show() != ""
    }

    function Show(): string {
      ShowPieces(pieces)
    }

    function Text(): string {
      TextOfPieces(pieces)
    }

    /** Without quotes, `<<` and then a tag marks a heredoc. */
    function Tag(): Option<string> {
      if !HasQuotes(pieces) && |Text()| >= 3 && Text()[0] == '<' && Text()[1] == '<' then Some(Text()[2..]) else None
    }

    function Reads(): Token {
      Token(Text(), Tag())
    }
  }

  function ReadsOf(words: seq<Written>): (ts: seq<Token>)
    ensures |ts| == |words|
    ensures forall i :: 0 <= i < |ts| ==> ts[i] == words[i].Reads()
  {
    if words == [] then [] else [words[0].Reads()] + ReadsOf(words[1..])
  }

  lemma {:induction false} DoubleReads(inners: seq<Inner>, rest: string)
    requires ValidInners(inners)
    ensures ReadDouble(ShowInners(inners) + "\"" + rest) == Some(Stretch(TextOfInners(inners), rest))
  {
    if inners == [] {
      assert (ShowInners(inners) + "\"" + rest)[1..] == rest;
    } else {
      var tail := ShowInners(inners[1..]) + "\"" + rest;
      DoubleReads(inners[1..], rest);
      InnerReads(inners[0], tail);
      assert ShowInners(inners) + "\"" + rest == inners[0].Show() + tail;
    }
  }

  lemma {:induction false} InnerReads(inner: Inner, tail: string)
    requires inner.Valid()
    ensures ReadDouble(inner.Show() + tail) == PrependStretch(inner.Text(), ReadDouble(tail))
  {
    var written := inner.Show() + tail;
    if inner.Lit? {
      assert written[1..] == tail;
    } else {
      assert written[2..] == tail && written[0] == '\\';
      assert Unescape(written[1]) == inner.Text();
    }
  }

  lemma {:induction false} SingleReads(text: string, rest: string)
    requires '\'' !in text
    ensures ReadSingle(text + "'" + rest) == Some(Stretch(text, rest))
  {
    var written := text + "'" + rest;
    if text == "" {
      assert written[1..] == rest;
    } else {
      assert written[1..] == text[1..] + "'" + rest;
      SingleReads(text[1..], rest);
      assert [text[0]] + text[1..] == text;
    }
  }

  lemma {:induction false} BareReads(text: string, tail: string)
    requires forall i :: 0 <= i < |text| ==> PlainChar(text[i])
    ensures ReadWord(text + tail) == PrependWord(text, false, ReadWord(tail))
  {
    if text == "" {
      assert text + tail == tail;
      PrependNothing(ReadWord(tail), Ok([]));
    } else {
      BareReads(text[1..], tail);
      assert (text + tail)[1..] == text[1..] + tail;
      PrependWordTwice([text[0]], false, text[1..], false, ReadWord(tail));
      assert [text[0]] + text[1..] == text;
    }
  }

  lemma {:induction false} QuoteOpens(cs: string, s: Stretch)
    requires cs != "" && (cs[0] == '"' || cs[0] == '\'')
    requires (if cs[0] == '"' then ReadDouble(cs[1..]) else ReadSingle(cs[1..])) == Some(s)
    ensures ReadWord(cs) == PrependWord(s.text, true, ReadWord(s.rest))
  {
    hide ReadDouble, ReadSingle, PrependWord;
    Seqs.Neutral(s.text);
  }

  lemma {:induction false} PieceReads(piece: Piece, tail: string)
    requires piece.Valid()
    ensures ReadWord(piece.Show() + tail) == PrependWord(piece.Text(), !piece.Bare?, ReadWord(tail))
  {
    hide ReadDouble, ReadSingle, ReadWord, PrependWord;
    var written := piece.Show() + tail;
    match piece
    case Bare(text) => BareReads(text, tail);
    case Double(inners) =>
      DoubleReads(inners, tail);
      assert written[1..] == ShowInners(inners) + "\"" + tail;
      QuoteOpens(written, Stretch(TextOfInners(inners), tail));
    case Single(text) =>
      SingleReads(text, tail);
      assert written[1..] == text + "'" + tail;
      QuoteOpens(written, Stretch(text, tail));
  }

  /** In front of anything, the pieces of a word are read as their texts put together. */
  lemma {:induction false} PiecesRead(pieces: seq<Piece>, tail: string)
    requires ValidPieces(pieces)
    ensures ReadWord(ShowPieces(pieces) + tail) == PrependWord(TextOfPieces(pieces), HasQuotes(pieces), ReadWord(tail))
  {
    hide ReadWord, PrependWord;
    if pieces == [] {
      Seqs.Neutral(tail);
      PrependNothing(ReadWord(tail), Ok([]));
    } else {
      PiecesRead(pieces[1..], tail);
      PieceReads(pieces[0], ShowPieces(pieces[1..]) + tail);
      Seqs.Assoc(pieces[0].Show(), ShowPieces(pieces[1..]), tail);
      PrependWordTwice(pieces[0].Text(), !pieces[0].Bare?, TextOfPieces(pieces[1..]), HasQuotes(pieces[1..]), ReadWord(tail));
      QuotesInPieces(pieces);
    }
  }

  lemma QuotesInPieces(pieces: seq<Piece>)
    requires pieces != []
    ensures HasQuotes(pieces) <==> !pieces[0].Bare? || HasQuotes(pieces[1..])
  {
    if i :| 0 < i < |pieces| && !pieces[i].Bare? {
      assert !pieces[1..][i - 1].Bare?;
    }
  }

  predicate AllWhitespace(s: string) {
    forall i :: 0 <= i < |s| ==> IsWhitespace(s[i])
  }

  /** A word, and the whitespace after it. */
  datatype Spaced = Spaced(word: Written, gap: string)

  /** Only the last word can have nothing after it. */
  predicate ValidWords(words: seq<Spaced>) {
    forall i :: 0 <= i < |words| ==>
      words[i].word.Valid() && AllWhitespace(words[i].gap) && (i < |words| - 1 ==> words[i].gap != "")
  }

  function ShowWords(words: seq<Spaced>): string {
    if words == [] then "" else words[0].word.Show() + words[0].gap + ShowWords(words[1..])
  }

  function TokensOf(words: seq<Spaced>): (ts: seq<Token>)
    ensures |ts| == |words|
    ensures forall i :: 0 <= i < |ts| ==> ts[i] == words[i].word.Reads()
  {
    if words == [] then [] else [words[0].word.Reads()] + TokensOf(words[1..])
  }

  lemma {:induction false} GapIsPassed(gap: string, rest: string)
    requires AllWhitespace(gap)
    ensures Lex(gap + rest) == Lex(rest)
  {
    if gap == "" {
      Seqs.Neutral(rest);
    } else {
      assert (gap + rest)[1..] == gap[1..] + rest;
      GapIsPassed(gap[1..], rest);
    }
  }

  predicate WordEnds(rest: string) {
    rest == "" || IsWhitespace(rest[0])
  }

  lemma {:induction false} ShowStarts(word: Written)
    requires word.Valid()
    ensures word.Show() != "" && !IsWhitespace(word.Show()[0])
    decreases |word.pieces|
  {
    var pieces := word.pieces;
    if pieces[0].Show() == "" {
      ShowStarts(Written(pieces[1..]));
    } else {
      assert word.Show()[0] == pieces[0].Show()[0];
    }
  }

  lemma {:induction false} ShowStops(word: Written)
    requires word.Valid()
    ensures word.Show() != "" && !IsWhitespace(word.Show()[|word.Show()| - 1])
    decreases |word.pieces|
  {
    var first, rest := word.pieces[0].Show(), ShowPieces(word.pieces[1..]);
    if rest == "" {
      Seqs.Neutral(first);
    } else {
      ShowStops(Written(word.pieces[1..]));
      assert word.Show()[|word.Show()| - 1] == rest[|rest| - 1];
    }
  }

  lemma {:induction false} LexTakesWord(cs: string, w: Word)
    requires cs != "" && !IsWhitespace(cs[0]) && ReadWord(cs) == Ok(w)
    ensures Lex(cs) == PrependTokens([TokenOf(w.text, w.quoted)], Lex(w.rest))
  {
    hide ReadWord, TokenOf;
  }

  lemma TokenIsRead(word: Written)
    ensures TokenOf(word.Text(), HasQuotes(word.pieces)) == word.Reads()
  {
    hide HasQuotes;
  }

  lemma {:induction false} PrependedToEmpty(text: string, quoted: bool, rest: string)
    requires WordEnds(rest)
    ensures PrependWord(text, quoted, ReadWord(rest)) == Ok(Word(text, quoted, rest))
  {
    WordIsOver(text, quoted, rest);
  }

  lemma {:induction false} FirstWordReads(word: Written, rest: string)
    requires word.Valid() && WordEnds(rest)
    ensures Lex(word.Show() + rest) == PrependTokens([word.Reads()], Lex(rest))
  {
    hide Lex, ReadWord, PrependWord, PrependTokens, TokenOf, HasQuotes;
    var w := Word(word.Text(), HasQuotes(word.pieces), rest);
    PiecesRead(word.pieces, rest);
    PrependedToEmpty(w.text, w.quoted, rest);
    ShowStarts(word);
    assert (word.Show() + rest)[0] == word.Show()[0];
    TokenIsRead(word);
    LexTakesWord(word.Show() + rest, w);
  }

  lemma {:induction false} WordsThen(words: seq<Spaced>, tail: string)
    requires words != []
    ensures ShowWords(words) + tail == words[0].word.Show() + (words[0].gap + (ShowWords(words[1..]) + tail))
    ensures TokensOf(words) == [words[0].word.Reads()] + TokensOf(words[1..])
  {
  }

  lemma RestIsValid(words: seq<Spaced>)
    requires words != [] && ValidWords(words)
    ensures ValidWords(words[1..]) && (words[0].gap != "" || |words| == 1)
    ensures words[0].word.Valid() && AllWhitespace(words[0].gap)
    ensures |words| > 1 ==> words[1..][|words[1..]| - 1] == words[|words| - 1]
  {
  }

  /** In front of anything, words that all end in whitespace are read as their tokens. */
  lemma {:induction false} WordsRead(words: seq<Spaced>, tail: string)
    requires ValidWords(words) && (words != [] && tail != "" ==> words[|words| - 1].gap != "")
    ensures Lex(ShowWords(words) + tail) == PrependTokens(TokensOf(words), Lex(tail))
    decreases |words|
  {
    hide Lex, PrependTokens, ValidWords, TokensOf;
    if words == [] {
      Seqs.Neutral(tail);
      assert TokensOf(words) == [];
      PrependNothing(Err(UnclosedDouble), Lex(tail));
    } else {
      hide ShowWords;
      var first, more := words[0], ShowWords(words[1..]) + tail;
      WordsThen(words, tail);
      RestIsValid(words);
      if |words| == 1 {
        NoWords(words[1..], tail);
      }
      assert WordEnds(first.gap + more);
      FirstWordReads(first.word, first.gap + more);
      GapIsPassed(first.gap, more);
      WordsRead(words[1..], tail);
      PrependTokensTwice([first.word.Reads()], TokensOf(words[1..]), Lex(tail));
    }
  }

  lemma {:induction false} NoWords(words: seq<Spaced>, tail: string)
    requires words == []
    ensures ShowWords(words) + tail == tail && TokensOf(words) == []
  {
  }

  /** A line of words, whatever its quotes and gaps, is read as those words. */
  lemma {:induction false} LineReads(indent: string, words: seq<Spaced>)
    requires AllWhitespace(indent) && ValidWords(words)
    ensures Lex(indent + ShowWords(words)) == Ok(TokensOf(words))
  {
    GapIsPassed(indent, ShowWords(words));
    WordsRead(words, "");
    Seqs.Neutral(ShowWords(words));
    Seqs.Neutral(TokensOf(words));
  }

  // ---- Where a line is refused, and that it is nowhere else ---------------------------------

  /** What follows an opening quote when none closes it. */
  datatype Open = OpenDouble(inners: seq<Inner>, backslash: bool) | OpenSingle(text: string) {
    predicate Valid() {
      if OpenDouble? then ValidInners(inners) else '\'' !in text
    }

    function Show(): string {
      if OpenDouble? then "\"" + ShowInners(inners) + (if backslash then "\\" else "") else "'" + text
    }

    function Error(): LexError {
      if OpenDouble? then UnclosedDouble else UnclosedSingle
    }
  }

  lemma {:induction false} OpenDoubleReads(inners: seq<Inner>, backslash: bool)
    requires ValidInners(inners)
    ensures ReadDouble(ShowInners(inners) + if backslash then "\\" else "").None?
  {
    if inners != [] {
      var tail := ShowInners(inners[1..]) + if backslash then "\\" else "";
      OpenDoubleReads(inners[1..], backslash);
      InnerReads(inners[0], tail);
      assert ShowInners(inners) + (if backslash then "\\" else "") == inners[0].Show() + tail;
    }
  }

  lemma {:induction false} OpenSingleReads(text: string)
    requires '\'' !in text
    ensures ReadSingle(text).None?
  {
    if text != "" {
      OpenSingleReads(text[1..]);
    }
  }

  lemma {:induction false} OpenReads(open: Open)
    requires open.Valid()
    ensures ReadWord(open.Show()) == Err(open.Error())
  {
    hide ReadDouble, ReadSingle;
    if open.OpenDouble? {
      OpenDoubleReads(open.inners, open.backslash);
      assert open.Show()[1..] == ShowInners(open.inners) + if open.backslash then "\\" else "";
    } else {
      OpenSingleReads(open.text);
      assert open.Show()[1..] == open.text;
    }
  }

  /** A quote that nothing closes refuses the line. */
  lemma {:induction false} OpenLineIsRefused(indent: string, words: seq<Spaced>, pieces: seq<Piece>, open: Open)
    requires AllWhitespace(indent) && ValidWords(words) && ValidPieces(pieces) && open.Valid()
    requires words != [] ==> words[|words| - 1].gap != ""
    ensures Lex(indent + (ShowWords(words) + (ShowPieces(pieces) + open.Show()))) == Err(open.Error())
  {
    hide ReadWord, Lex, PrependWord, PrependTokens, ValidWords, ShowWords, ShowPieces, Open.Show, Open.Valid;
    var last := ShowPieces(pieces) + open.Show();
    GapIsPassed(indent, ShowWords(words) + last);
    WordsRead(words, last);
    PiecesRead(pieces, open.Show());
    OpenReads(open);
    BrokenWord(TextOfPieces(pieces), HasQuotes(pieces), open.Error());
    OpenStarts(pieces, open);
    LexRefusesWord(last, open.Error());
    RefusedAfter(TokensOf(words), open.Error());
  }

  lemma BrokenWord(text: string, quoted: bool, e: LexError)
    ensures PrependWord(text, quoted, Err(e)) == Err(e)
  {
  }

  lemma RefusedAfter(tokens: seq<Token>, e: LexError)
    ensures PrependTokens(tokens, Err(e)) == Err(e)
  {
  }

  lemma {:induction false} LexRefusesWord(cs: string, e: LexError)
    requires cs != "" && !IsWhitespace(cs[0]) && ReadWord(cs) == Err(e)
    ensures Lex(cs) == Err(e)
  {
    hide ReadWord;
  }

  lemma {:induction false} OpenStarts(pieces: seq<Piece>, open: Open)
    requires ValidPieces(pieces)
    ensures var last := ShowPieces(pieces) + open.Show(); last != "" && !IsWhitespace(last[0])
  {
    hide ValidPieces, ShowPieces, ShowInners, Written.Show, Written.Valid;
    if ShowPieces(pieces) != "" {
      WordOf(pieces);
      ShowStarts(Written(pieces));
    }
  }

  lemma {:induction false} DoubleIsWritten(cs: string) returns (inners: seq<Inner>, closed: bool, rest: string, backslash: bool)
    ensures ValidInners(inners)
    ensures cs == if closed then ShowInners(inners) + "\"" + rest else ShowInners(inners) + if backslash then "\\" else ""
    decreases |cs|
  {
    if cs == "" {
      return [], false, "", false;
    } else if cs[0] == '"' {
      assert cs == "" + "\"" + cs[1..];
      return [], true, cs[1..], false;
    } else if cs == "\\" {
      return [], false, "", true;
    }
    var first := if cs[0] != '\\' then Lit(cs[0]) else if cs[1] == '"' then EscQuote
                 else if cs[1] == '\\' then EscBackslash else if cs[1] == 'n' then EscNewline else EscOther(cs[1]);
    var more;
    more, closed, rest, backslash := DoubleIsWritten(cs[|first.Show()|..]);
    inners := [first] + more;
    assert inners[1..] == more && cs == first.Show() + cs[|first.Show()|..];
  }

  /** A word, and what ends it; or its pieces before a quote that nothing closes. */
  datatype Front = Whole(pieces: seq<Piece>, rest: string) | Broken(pieces: seq<Piece>, open: Open) {
    predicate Valid() {
      ValidPieces(pieces) && if Whole? then WordEnds(rest) else open.Valid()
    }

    function Show(): string {
      ShowPieces(pieces) + if Whole? then rest else open.Show()
    }
  }

  lemma {:induction false} WithPiece(piece: Piece, front: Front) returns (r: Front)
    requires piece.Valid() && front.Valid()
    ensures r.Valid() && r.Show() == piece.Show() + front.Show() && r.Whole? == front.Whole?
    ensures r.Whole? ==> r.rest == front.rest
    ensures r.Whole? && piece.Show() != "" ==> ShowPieces(r.pieces) != ""
  {
    var longer := [piece] + front.pieces;
    assert longer[1..] == front.pieces;
    r := if front.Whole? then Whole(longer, front.rest) else Broken(longer, front.open);
    Seqs.Assoc(piece.Show(), ShowPieces(front.pieces), if front.Whole? then front.rest else front.open.Show());
  }

  lemma NoPieces(cs: string, front: Front)
    requires front.pieces == [] && front.Valid() && cs == if front.Whole? then front.rest else front.open.Show()
    ensures front.Show() == cs
  {
    Seqs.Neutral(cs);
  }

  lemma {:induction false} SingleIsWritten(cs: string) returns (text: string, closed: bool, rest: string)
    ensures '\'' !in text && cs == (if closed then text + "'" + rest else text)
  {
    var n := IndexOf(cs, '\'');
    text, closed := cs[..n], n < |cs|;
    rest := if closed then cs[n + 1..] else "";
  }

  lemma {:induction false} WordIsWritten(cs: string) returns (front: Front)
    ensures front.Valid() && front.Show() == cs
    ensures front.Whole? ==> |front.rest| <= |cs| && (!WordEnds(cs) ==> ShowPieces(front.pieces) != "")
    decreases |cs|
  {
    hide Front.Show, ShowPieces, ValidInners, ShowInners, ValidPieces;
    if WordEnds(cs) {
      front := Whole([], cs);
      assert ValidPieces([]) by { NoneIsValid(); }
      NoPieces(cs, front);
      return;
    }
    var piece, rest: string;
    if cs[0] == '"' {
      var inners, closed, after, backslash := DoubleIsWritten(cs[1..]);
      assert cs == "\"" + cs[1..];
      if !closed {
        front := Broken([], OpenDouble(inners, backslash));
        assert ValidPieces([]) by { NoneIsValid(); }
        NoPieces(cs, front);
        return;
      }
      piece, rest := Double(inners), after;
    } else if cs[0] == '\'' {
      var text, closed, after := SingleIsWritten(cs[1..]);
      assert cs == "'" + cs[1..];
      if !closed {
        front := Broken([], OpenSingle(text));
        assert ValidPieces([]) by { NoneIsValid(); }
        NoPieces(cs, front);
        return;
      }
      piece, rest := Single(text), after;
    } else {
      piece, rest := Bare([cs[0]]), cs[1..];
    }
    assert cs == piece.Show() + rest;
    var tail := WordIsWritten(rest);
    front := WithPiece(piece, tail);
  }

  lemma NoneIsValid()
    ensures ValidPieces([]) && ValidWords([])
  {
  }

  /** What is left of a line behind its words: nothing, or a word with a quote nothing closes. */
  datatype Tail = End | Cut(pieces: seq<Piece>, open: Open) {
    predicate Valid() {
      Cut? ==> ValidPieces(pieces) && open.Valid()
    }

    function Show(): string {
      if End? then "" else ShowPieces(pieces) + open.Show()
    }
  }

  predicate ValidLine(indent: string, words: seq<Spaced>, tail: Tail) {
    AllWhitespace(indent) && ValidWords(words) && tail.Valid() && (words != [] && tail.Cut? ==> words[|words| - 1].gap != "")
  }

  /** A line is read as its words, or refused for the quote that nothing closes. */
  lemma {:induction false} LineIs(indent: string, words: seq<Spaced>, tail: Tail)
    requires ValidLine(indent, words, tail)
    ensures Lex(indent + (ShowWords(words) + tail.Show())) == if tail.End? then Ok(TokensOf(words)) else Err(tail.open.Error())
  {
    if tail.End? {
      LineReads(indent, words);
      Seqs.Neutral(ShowWords(words));
    } else {
      OpenLineIsRefused(indent, words, tail.pieces, tail.open);
    }
  }

  /** Every line is written so. So a line is refused exactly when a quote in it is never closed. */
  lemma {:induction false} EveryLineIsWritten(line: string) returns (indent: string, words: seq<Spaced>, tail: Tail)
    ensures ValidLine(indent, words, tail) && line == indent + (ShowWords(words) + tail.Show())
    ensures Lex(line) == if tail.End? then Ok(TokensOf(words)) else Err(tail.open.Error())
    decreases |line|
  {
    hide Lex, HasQuotes, ValidWords, ValidPieces, ShowWords, ShowPieces, Open.Show, TokensOf;
    indent := Indent(line);
    var cs := line[|indent|..];
    assert line == indent + cs;
    NoneIsValid();
    words, tail := [], End;
    NoWords(words, "");
    if cs != "" {
      var front := WordIsWritten(cs);
      if front.Broken? {
        tail := Cut(front.pieces, front.open);
        NoWords(words, tail.Show());
      } else {
        var gap, more;
        gap, more, tail := EveryLineIsWritten(front.rest);
        WordInFront(Written(front.pieces), front.rest, gap, more, tail);
        words := [Spaced(Written(front.pieces), gap)] + more;
      }
    }
    LineIs(indent, words, tail);
  }

  lemma WordInFrontIsValid(word: Written, gap: string, more: seq<Spaced>)
    requires word.Valid() && AllWhitespace(gap) && ValidWords(more) && (gap == "" ==> more == [])
    ensures ValidWords([Spaced(word, gap)] + more)
  {
    hide Written.Valid;
  }

  lemma {:induction false} WordInFront(word: Written, rest: string, gap: string, more: seq<Spaced>, tail: Tail)
    requires word.Valid() && WordEnds(rest) && ValidLine(gap, more, tail) && rest == gap + (ShowWords(more) + tail.Show())
    ensures var words := [Spaced(word, gap)] + more;
            ValidLine("", words, tail) && word.Show() + rest == ShowWords(words) + tail.Show()
  {
    hide ShowPieces, Written.Show, Written.Valid, Tail.Show, Tail.Valid, ValidWords, ShowWords;
    var words := [Spaced(word, gap)] + more;
    assert words[1..] == more && words[0] == Spaced(word, gap);
    WordsThen(words, tail.Show());
    GapSeparates(rest, gap, more, tail);
    WordInFrontIsValid(word, gap, more);
  }

  /** What there is behind a gap starts with no whitespace. */
  lemma {:induction false} InkStarts(words: seq<Spaced>, tail: Tail)
    requires ValidWords(words) && tail.Valid() && (words != [] || tail.Cut?)
    ensures var ink := ShowWords(words) + tail.Show(); ink != "" && !IsWhitespace(ink[0])
  {
    hide Written.Show, Written.Valid, ValidInners;
    if words != [] {
      WordsThen(words, tail.Show());
      RestIsValid(words);
      ShowStarts(words[0].word);
    } else if ShowPieces(tail.pieces) != "" {
      var word := Written(tail.pieces);
      assert word.Valid() && word.Show() == ShowPieces(tail.pieces) by { WordOf(tail.pieces); }
      ShowStarts(word);
    }
  }

  lemma {:induction false} WordOf(pieces: seq<Piece>)
    requires ValidPieces(pieces) && ShowPieces(pieces) != ""
    ensures Written(pieces).Valid() && Written(pieces).Show() == ShowPieces(pieces)
  {
  }

  lemma {:induction false} GapSeparates(rest: string, gap: string, more: seq<Spaced>, tail: Tail)
    requires WordEnds(rest) && ValidLine(gap, more, tail) && rest == gap + (ShowWords(more) + tail.Show())
    ensures gap == "" ==> more == [] && tail.End?
  {
    hide ShowWords, Tail.Show, ValidWords, Tail.Valid;
    if more != [] || tail.Cut? {
      InkStarts(more, tail);
      var ink := ShowWords(more) + tail.Show();
      assert rest[|gap|] == ink[0];
    }
  }

  function Indent(line: string): (indent: string)
    ensures indent <= line && AllWhitespace(indent)
    ensures |indent| < |line| ==> !IsWhitespace(line[|indent|])
  {
    if line == "" || !IsWhitespace(line[0]) then "" else [line[0]] + Indent(line[1..])
  }

  // ---- Quoting is undone -----------------------------------------------------------------

  function InnerOf(c: char): Inner {
    if c == '"' then EscQuote else if c == '\\' then EscBackslash else if c == '\n' then EscNewline else Lit(c)
  }

  /** Any string, written between double quotes. */
  function Quoted(s: string): Written {
    Written([Double(seq(|s|, i requires 0 <= i < |s| => InnerOf(s[i])))])
  }

  lemma {:induction false} QuotedIs(s: string)
    ensures Quoted(s).Valid() && Quoted(s).Text() == s && '\n' !in Quoted(s).Show()
    ensures HasQuotes(Quoted(s).pieces) && Quoted(s).Reads() == Token(s, None)
  {
    var inners := seq(|s|, i requires 0 <= i < |s| => InnerOf(s[i]));
    InnersOf(s, inners);
    OnePiece(Double(inners));
  }

  lemma {:induction false} OnePiece(piece: Piece)
    ensures ShowPieces([piece]) == piece.Show() && TextOfPieces([piece]) == piece.Text()
    ensures HasQuotes([piece]) <==> !piece.Bare?
  {
    assert [piece][1..] == [] && [piece][0] == piece;
    Seqs.Neutral(piece.Show());
    Seqs.Neutral(piece.Text());
  }

  lemma {:induction false} InnersOf(s: string, inners: seq<Inner>)
    requires |inners| == |s| && forall i :: 0 <= i < |s| ==> inners[i] == InnerOf(s[i])
    ensures ValidInners(inners) && TextOfInners(inners) == s && '\n' !in ShowInners(inners)
  {
    if s != "" {
      InnersOf(s[1..], inners[1..]);
      assert s == [s[0]] + s[1..];
    }
  }

  /** Quoting is undone for every list of strings: the tokens are those strings, and none of them
      is taken for a heredoc. */
  lemma QuotingIsUndone(values: seq<string>)
    ensures Lex(ShowWords(seq(|values|, i requires 0 <= i < |values| => Spaced(Quoted(values[i]), " "))))
         == Ok(seq(|values|, i requires 0 <= i < |values| => Token(values[i], None)))
  {
    var words := seq(|values|, i requires 0 <= i < |values| => Spaced(Quoted(values[i]), " "));
    forall i | 0 <= i < |values| ensures Quoted(values[i]).Valid() && Quoted(values[i]).Reads() == Token(values[i], None) {
      QuotedIs(values[i]);
    }
    LineReads("", words);
    Seqs.Neutral(ShowWords(words));
    assert TokensOf(words) == seq(|values|, i requires 0 <= i < |values| => Token(values[i], None));
  }
}
