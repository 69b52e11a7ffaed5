/** The tokenizer of a batch line: words split at whitespace, two quote styles, escapes, and
    the `<<TAG` mark of a heredoc. */
module BatchLexer {
  import opened Text
  import Seqs

  /** A word; `heredoc` names the tag of an unquoted `<<TAG`. */
  datatype Token = Token(text: string, heredoc: Option<string>)

  datatype LexError = UnclosedDouble | UnclosedSingle

  /** What a word reads as, whether a quote was seen in it, and what follows it. */
  datatype Word = Word(text: string, quoted: bool, rest: string)

  /** What a quoted stretch reads as, and what follows its closing quote. */
  datatype Stretch = Stretch(text: string, rest: string)

  // ---- The language, as functions -------------------------------------------------------

  /** What `\c` stands for between double quotes. */
  function Unescape(c: char): string {
    if c == '"' || c == '\\' then [c]
    else if c == 'n' then "\n"
    else ['\\', c]
  }

  function PrependStretch(text: string, s: Option<Stretch>): Option<Stretch> {
    match s
    case None => None
    case Some(Stretch(t, rest)) => Some(Stretch(text + t, rest))
  }

  /** The rest of a double-quoted stretch; `None` when it is never closed. */
  function ReadDouble(cs: string): (s: Option<Stretch>)
    ensures s.Some? ==> |s.value.rest| < |cs|
    decreases |cs|
  {
    if cs == "" then None
    else if cs[0] == '"' then Some(Stretch("", cs[1..]))
    else if cs[0] == '\\' then
      if |cs| == 1 then None else PrependStretch(Unescape(cs[1]), ReadDouble(cs[2..]))
    else PrependStretch([cs[0]], ReadDouble(cs[1..]))
  }

  /** The rest of a single-quoted stretch: nothing is an escape in it. */
  function ReadSingle(cs: string): (s: Option<Stretch>)
    ensures s.Some? ==> |s.value.rest| < |cs|
    decreases |cs|
  {
    if cs == "" then None
    else if cs[0] == '\'' then Some(Stretch("", cs[1..]))
    else PrependStretch([cs[0]], ReadSingle(cs[1..]))
  }

  function PrependWord(text: string, quoted: bool, w: Result<Word, LexError>): Result<Word, LexError> {
    match w
    case Err(e) => Err(e)
    case Ok(Word(t, q, rest)) => Ok(Word(text + t, quoted || q, rest))
  }

  /** One word: up to whitespace outside quotes, or the end. */
  function ReadWord(cs: string): (w: Result<Word, LexError>)
    ensures w.Ok? ==> |w.value.rest| <= |cs|
    ensures w.Ok? && cs != "" && !IsWhitespace(cs[0]) ==> |w.value.rest| < |cs|
    decreases |cs|
  {
    if cs == "" || IsWhitespace(cs[0]) then Ok(Word("", false, cs))
    else if cs[0] == '"' then AfterDouble("", cs[1..])
    else if cs[0] == '\'' then AfterSingle("", cs[1..])
    else PrependWord([cs[0]], false, ReadWord(cs[1..]))
  }

  /** The word whose double-quoted stretch has read `text` so far. */
  function AfterDouble(text: string, cs: string): (w: Result<Word, LexError>)
    ensures w.Ok? ==> |w.value.rest| < |cs|
    decreases |cs|
  {
    match ReadDouble(cs)
    case None => Err(UnclosedDouble)
    case Some(Stretch(t, rest)) => PrependWord(text + t, true, ReadWord(rest))
  }

  function AfterSingle(text: string, cs: string): (w: Result<Word, LexError>)
    ensures w.Ok? ==> |w.value.rest| < |cs|
    decreases |cs|
  {
    match ReadSingle(cs)
    case None => Err(UnclosedSingle)
    case Some(Stretch(t, rest)) => PrependWord(text + t, true, ReadWord(rest))
  }

  /** The tag of an unquoted `<<TAG` with a tag. */
  function HeredocTag(text: string): Option<string> {
    if |text| > 2 && text[..2] == "<<" then Some(text[2..]) else None
  }

  function TokenOf(text: string, quoted: bool): Token {
    Token(text, if quoted then None else HeredocTag(text))
  }

  function PrependTokens(out: seq<Token>, ts: Result<seq<Token>, LexError>): Result<seq<Token>, LexError> {
    match ts
    case Err(e) => Err(e)
    case Ok(rest) => Ok(out + rest)
  }

  /** The tokens of a line. */
  function Lex(cs: string): Result<seq<Token>, LexError>
    decreases |cs|
  {
    if cs == "" then Ok([])
    else if IsWhitespace(cs[0]) then Lex(cs[1..])
    else
      match ReadWord(cs)
      case Err(e) => Err(e)
      case Ok(Word(text, quoted, rest)) => PrependTokens([TokenOf(text, quoted)], Lex(rest))
  }

  // ---- The tokenizer, as the loops it is -------------------------------------------------

  lemma {:induction false} AfterDoubleGrows(text: string, cs: string)
    requires cs != "" && cs[0] != '"'
    ensures cs[0] == '\\' && |cs| > 1 ==> AfterDouble(text, cs) == AfterDouble(text + Unescape(cs[1]), cs[2..])
    ensures cs[0] != '\\' ==> AfterDouble(text, cs) == AfterDouble(text + [cs[0]], cs[1..])
  {
    if cs[0] == '\\' && |cs| > 1 {
      var s := ReadDouble(cs[2..]);
      if s.Some? { Seqs.Assoc(text, Unescape(cs[1]), s.value.text); }
    } else if cs[0] != '\\' {
      var s := ReadDouble(cs[1..]);
      if s.Some? { Seqs.Assoc(text, [cs[0]], s.value.text); }
    }
  }

  lemma {:induction false} AfterSingleGrows(text: string, cs: string)
    requires cs != "" && cs[0] != '\''
    ensures AfterSingle(text, cs) == AfterSingle(text + [cs[0]], cs[1..])
  {
    var s := ReadSingle(cs[1..]);
    if s.Some? { Seqs.Assoc(text, [cs[0]], s.value.text); }
  }

  lemma PrependTokensTwice(a: seq<Token>, b: seq<Token>, ts: Result<seq<Token>, LexError>)
    ensures PrependTokens(a, PrependTokens(b, ts)) == PrependTokens(a + b, ts)
  {
    if ts.Ok? { assert a + (b + ts.value) == (a + b) + ts.value; }
  }

  lemma PrependNothing(w: Result<Word, LexError>, ts: Result<seq<Token>, LexError>)
    ensures PrependWord("", false, w) == w
    ensures PrependTokens([], ts) == ts
  {
    if w.Ok? { assert "" + w.value.text == w.value.text; }
    if ts.Ok? { assert [] + ts.value == ts.value; }
  }

  /** A word so far, then more of it. */
  lemma PrependWordTwice(a: string, qa: bool, b: string, qb: bool, w: Result<Word, LexError>)
    ensures PrependWord(a, qa, PrependWord(b, qb, w)) == PrependWord(a + b, qa || qb, w)
  {
    if w.Ok? { Seqs.Assoc(a, b, w.value.text); }
  }

  /** Opening a quote inside a word that read `text` so far. */
  lemma {:induction false} StretchOpens(text: string, quoted: bool, cs: string)
    ensures PrependWord(text, quoted, AfterDouble("", cs)) == AfterDouble(text, cs)
    ensures PrependWord(text, quoted, AfterSingle("", cs)) == AfterSingle(text, cs)
  {
    var d, s := ReadDouble(cs), ReadSingle(cs);
    if d.Some? {
      assert "" + d.value.text == d.value.text;
      PrependWordTwice(text, quoted, d.value.text, true, ReadWord(d.value.rest));
    }
    if s.Some? {
      assert "" + s.value.text == s.value.text;
      PrependWordTwice(text, quoted, s.value.text, true, ReadWord(s.value.rest));
    }
  }

  /** The loop behind an opening `"`: appends to the word's buffer until the closing quote. */
  method TakeDouble(line: string, from: nat, buffer: string) returns (r: Option<(string, nat)>)
    requires from <= |line|
    ensures r.None? ==> AfterDouble(buffer, line[from..]) == Err(UnclosedDouble)
    ensures r.Some? ==> from < r.value.1 <= |line|
    ensures r.Some? ==>
              AfterDouble(buffer, line[from..]) == PrependWord(r.value.0, true, ReadWord(line[r.value.1..]))
  {
    var i, text := from, buffer;
    while i < |line|
      invariant from <= i <= |line|
      invariant AfterDouble(buffer, line[from..]) == AfterDouble(text, line[i..])
    {
      Seqs.DropTwice(line, i, 1);
      if line[i] == '"' {
        assert text + "" == text;
        return Some((text, i + 1));
      }
      AfterDoubleGrows(text, line[i..]);
      if line[i] == '\\' {
        if i + 1 == |line| {
          return None;
        }
        Seqs.DropTwice(line, i, 2);
        text, i := text + Unescape(line[i + 1]), i + 2;
      } else {
        text, i := text + [line[i]], i + 1;
      }
    }
    return None;
  }

  /** The loop behind an opening `'`. */
  method TakeSingle(line: string, from: nat, buffer: string) returns (r: Option<(string, nat)>)
    requires from <= |line|
    ensures r.None? ==> AfterSingle(buffer, line[from..]) == Err(UnclosedSingle)
    ensures r.Some? ==> from < r.value.1 <= |line|
    ensures r.Some? ==>
              AfterSingle(buffer, line[from..]) == PrependWord(r.value.0, true, ReadWord(line[r.value.1..]))
  {
    var i, text := from, buffer;
    while i < |line|
      invariant from <= i <= |line|
      invariant AfterSingle(buffer, line[from..]) == AfterSingle(text, line[i..])
    {
      Seqs.DropTwice(line, i, 1);
      if line[i] == '\'' {
        assert text + "" == text;
        return Some((text, i + 1));
      }
      AfterSingleGrows(text, line[i..]);
      text, i := text + [line[i]], i + 1;
    }
    return None;
  }

  /** One turn of the word loop: what the next character makes of the word read so far. */
  lemma {:induction false} WordGrows(text: string, quoted: bool, cs: string)
    requires cs != "" && !IsWhitespace(cs[0])
    ensures cs[0] == '"' ==> PrependWord(text, quoted, ReadWord(cs)) == AfterDouble(text, cs[1..])
    ensures cs[0] == '\'' ==> PrependWord(text, quoted, ReadWord(cs)) == AfterSingle(text, cs[1..])
    ensures cs[0] != '"' && cs[0] != '\'' ==>
              PrependWord(text, quoted, ReadWord(cs)) == PrependWord(text + [cs[0]], quoted, ReadWord(cs[1..]))
  {
    StretchOpens(text, quoted, cs[1..]);
    PrependWordTwice(text, quoted, [cs[0]], false, ReadWord(cs[1..]));
  }

  lemma {:induction false} WordIsOver(text: string, quoted: bool, cs: string)
    requires cs == "" || IsWhitespace(cs[0])
    ensures PrependWord(text, quoted, ReadWord(cs)) == Ok(Word(text, quoted, cs))
  {
    Seqs.Neutral(text);
  }

  /** The loop of one word, from a character that is not whitespace. */
  method TakeWord(line: string, from: nat) returns (w: Result<Word, LexError>, next: nat)
    requires from < |line| && !IsWhitespace(line[from])
    ensures w == ReadWord(line[from..])
    ensures w.Ok? ==> from < next <= |line| && w.value.rest == line[next..]
  {
    hide ReadWord, PrependWord, AfterDouble, AfterSingle;
    ghost var whole := ReadWord(line[from..]);
    var i, text, quoted := from, "", false;
    PrependNothing(whole, Ok([]));
    while i < |line| && !IsWhitespace(line[i])
      invariant from <= i <= |line| && (i == from ==> !IsWhitespace(line[i]))
      invariant whole == PrependWord(text, quoted, ReadWord(line[i..]))
      decreases |line| - i
    {
      var c := line[i];
      WordGrows(text, quoted, line[i..]);
      Seqs.DropTwice(line, i, 1);
      i := i + 1;
      if c == '"' {
        var taken := TakeDouble(line, i, text);
        if taken.None? {
          return Err(UnclosedDouble), i;
        }
        text, quoted, i := taken.value.0, true, taken.value.1;
      } else if c == '\'' {
        var taken := TakeSingle(line, i, text);
        if taken.None? {
          return Err(UnclosedSingle), i;
        }
        text, quoted, i := taken.value.0, true, taken.value.1;
      } else {
        text := text + [c];
      }
    }
    WordIsOver(text, quoted, line[i..]);
    return Ok(Word(text, quoted, line[i..])), i;
  }

  /** One pass over the line. */
  method Tokenize(line: string) returns (r: Result<seq<Token>, LexError>)
    ensures r == Lex(line)
  {
    var out: seq<Token> := [];
    var i := 0;
    assert line[i..] == line;
    PrependNothing(Err(UnclosedDouble), Lex(line));
    while i < |line|
      invariant 0 <= i <= |line|
      invariant Lex(line) == PrependTokens(out, Lex(line[i..]))
    {
      Seqs.DropTwice(line, i, 1);
      if IsWhitespace(line[i]) {
        i := i + 1;
      } else {
        var word, next := TakeWord(line, i);
        if word.Err? {
          return Err(word.error);
        }
        var token := TokenOf(word.value.text, word.value.quoted);
        PrependTokensTwice(out, [token], Lex(line[next..]));
        out, i := out + [token], next;
      }
    }
    assert out + [] == out;
    return Ok(out);
  }
}
