/** The string operations of Rust's standard library that the modelled code leans on.

    A Dafny `char` is a Unicode scalar value, as a Rust `char` is.
 */
module Text {

  datatype Option<+T> = None | Some(value: T)

  datatype Result<+T, +E> = Ok(value: T) | Err(error: E)

  /** The Unicode `White_Space` property, which `char::is_whitespace` and `str::trim` use. */
  predicate IsWhitespace(c: char) {
    || '\U{0009}' <= c <= '\U{000D}'
    || c == ' '
    || c == '\U{0085}'
    || c == '\U{00A0}'
    || c == '\U{1680}'
    || '\U{2000}' <= c <= '\U{200A}'
    || c == '\U{2028}' || c == '\U{2029}'
    || c == '\U{202F}'
    || c == '\U{205F}'
    || c == '\U{3000}'
  }

  function TrimStart(s: string): string {
    if s != "" && IsWhitespace(s[0]) then TrimStart(s[1..]) else s
  }

  function TrimEnd(s: string): string {
    if s != "" && IsWhitespace(s[|s| - 1]) then TrimEnd(s[..|s| - 1]) else s
  }

  function Trim(s: string): string {
    TrimEnd(TrimStart(s))
  }

  /** Where the first `c` of `s` is; `|s|` when there is none. */
  function IndexOf(s: string, c: char): (n: nat)
    ensures n <= |s|
    ensures n < |s| ==> s[n] == c
    ensures c !in s[..n]
  {
    if s == "" || s[0] == c then 0 else 1 + IndexOf(s[1..], c)
  }

  lemma {:induction false} IndexOfFirst(s: string, c: char, rest: string)
    requires c !in s
    ensures IndexOf(s + [c] + rest, c) == |s|
  {
    if s != "" {
      assert (s + [c] + rest)[1..] == s[1..] + [c] + rest;
      IndexOfFirst(s[1..], c, rest);
    }
  }

  function StripCarriageReturn(s: string): string {
    if s != "" && s[|s| - 1] == '\r' then s[..|s| - 1] else s
  }

  /** `str::lines`: a final newline ends the last line rather than starting another, and a
      carriage return is dropped only just before a newline. */
  function Lines(text: string): seq<string>
    decreases |text|
  {
    if text == "" then []
    else
      var n := IndexOf(text, '\n');
      if n == |text| then [text]
      else [StripCarriageReturn(text[..n])] + Lines(text[n + 1..])
  }

  /** Each line ended by a newline. */
  function Unlines(lines: seq<string>): string {
    if lines == [] then "" else lines[0] + "\n" + Unlines(lines[1..])
  }

  /** A line that `Lines` gives back as it was written. */
  predicate CleanLine(line: string) {
    '\n' !in line && (line != "" ==> line[|line| - 1] != '\r')
  }

  lemma {:induction false} LinesUndoUnlines(lines: seq<string>)
    requires forall i :: 0 <= i < |lines| ==> CleanLine(lines[i])
    ensures Lines(Unlines(lines)) == lines
  {
    if lines != [] {
      var text := Unlines(lines);
      var rest := Unlines(lines[1..]);
      assert text == lines[0] + ['\n'] + rest;
      IndexOfFirst(lines[0], '\n', rest);
      assert text[..|lines[0]|] == lines[0];
      assert text[|lines[0]| + 1..] == rest;
      LinesUndoUnlines(lines[1..]);
    }
  }

  /** `str::split`: always at least one piece. */
  function Split(value: string, c: char): (pieces: seq<string>)
    ensures |pieces| >= 1
    decreases |value|
  {
    var n := IndexOf(value, c);
    if n == |value| then [value] else [value[..n]] + Split(value[n + 1..], c)
  }

  /** `slice::join` with a one-character separator. */
  function Join(pieces: seq<string>, c: char): string {
    if pieces == [] then ""
    else if |pieces| == 1 then pieces[0]
    else pieces[0] + [c] + Join(pieces[1..], c)
  }

  lemma {:induction false} JoinUndoesSplit(value: string, c: char)
    ensures Join(Split(value, c), c) == value
    ensures forall i :: 0 <= i < |Split(value, c)| ==> c !in Split(value, c)[i]
    decreases |value|
  {
    var n := IndexOf(value, c);
    if n < |value| {
      JoinUndoesSplit(value[n + 1..], c);
      assert value == value[..n] + [c] + value[n + 1..];
      assert Split(value, c)[1..] == Split(value[n + 1..], c);
    } else {
      assert value[..n] == value;
    }
  }

  lemma {:induction false} SplitUndoesJoin(pieces: seq<string>, c: char)
    requires pieces != [] && forall i :: 0 <= i < |pieces| ==> c !in pieces[i]
    ensures Split(Join(pieces, c), c) == pieces
  {
    if |pieces| == 1 {
      assert Join(pieces, c) == pieces[0];
      assert IndexOf(pieces[0], c) == |pieces[0]|;
    } else {
      var value, rest := Join(pieces, c), Join(pieces[1..], c);
      assert value == pieces[0] + [c] + rest;
      IndexOfFirst(pieces[0], c, rest);
      assert value[..|pieces[0]|] == pieces[0] && value[|pieces[0]| + 1..] == rest;
      SplitUndoesJoin(pieces[1..], c);
    }
  }

  lemma {:induction false} TrimStartDrops(space: string, s: string)
    requires forall i :: 0 <= i < |space| ==> IsWhitespace(space[i])
    requires s == "" || !IsWhitespace(s[0])
    ensures TrimStart(space + s) == s
  {
    if space == "" {
      assert space + s == s;
    } else {
      assert (space + s)[1..] == space[1..] + s;
      TrimStartDrops(space[1..], s);
    }
  }

  lemma {:induction false} TrimEndDrops(s: string, space: string)
    requires forall i :: 0 <= i < |space| ==> IsWhitespace(space[i])
    requires s == "" || !IsWhitespace(s[|s| - 1])
    ensures TrimEnd(s + space) == s
  {
    if space == "" {
      assert s + space == s;
    } else {
      assert (s + space)[..|s + space| - 1] == s + space[..|space| - 1];
      TrimEndDrops(s, space[..|space| - 1]);
    }
  }

  /** Whitespace around a text that neither starts nor ends with any is trimmed. */
  lemma TrimDrops(before: string, s: string, after: string)
    requires forall i :: 0 <= i < |before| ==> IsWhitespace(before[i])
    requires forall i :: 0 <= i < |after| ==> IsWhitespace(after[i])
    requires s != "" && !IsWhitespace(s[0]) && !IsWhitespace(s[|s| - 1])
    ensures Trim(before + s + after) == s
  {
    assert before + s + after == before + (s + after);
    TrimStartDrops(before, s + after);
    TrimEndDrops(s, after);
  }

  lemma {:induction false} TrimStartParts(s: string) returns (before: string)
    ensures s == before + TrimStart(s) && forall i :: 0 <= i < |before| ==> IsWhitespace(before[i])
    ensures TrimStart(s) == "" || !IsWhitespace(TrimStart(s)[0])
  {
    if s != "" && IsWhitespace(s[0]) {
      var more := TrimStartParts(s[1..]);
      before := [s[0]] + more;
    } else {
      before := "";
    }
  }

  lemma {:induction false} TrimEndParts(s: string) returns (after: string)
    ensures s == TrimEnd(s) + after && forall i :: 0 <= i < |after| ==> IsWhitespace(after[i])
    ensures TrimEnd(s) == "" || !IsWhitespace(TrimEnd(s)[|TrimEnd(s)| - 1])
  {
    if s != "" && IsWhitespace(s[|s| - 1]) {
      var more := TrimEndParts(s[..|s| - 1]);
      after := more + [s[|s| - 1]];
    } else {
      after := "";
    }
  }

  /** A text is its trimmed self, with whitespace around it. */
  lemma TrimParts(s: string) returns (before: string, after: string)
    ensures s == before + Trim(s) + after
    ensures forall i :: 0 <= i < |before| ==> IsWhitespace(before[i])
    ensures forall i :: 0 <= i < |after| ==> IsWhitespace(after[i])
    ensures Trim(s) != "" ==> !IsWhitespace(Trim(s)[0]) && !IsWhitespace(Trim(s)[|Trim(s)| - 1])
  {
    before := TrimStartParts(s);
    after := TrimEndParts(TrimStart(s));
    if Trim(s) != "" {
      assert Trim(s)[0] == TrimStart(s)[0];
    }
  }

  lemma TrimKeeps(s: string)
    requires s != "" && !IsWhitespace(s[0]) && !IsWhitespace(s[|s| - 1])
    ensures Trim(s) == s
  {
  }

  lemma {:induction false} TrimEndKeeps(s: string)
    requires forall i :: 0 <= i < |s| ==> !IsWhitespace(s[i])
    ensures TrimEnd(s) == s
  {
  }
}
