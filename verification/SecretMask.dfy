/** `mask` and `copy_masked`: stored secrets are replaced in what a command prints. */
module SecretMask {
  import Seqs

  newtype byte = x: int | 0 <= x < 256

  type Bytes = seq<byte>

  const STAR: byte := 42
  const NEWLINE: byte := 10
  const MASK: Bytes := [STAR, STAR, STAR]

  // ---- The whole-text mask, as a function ------------------------------------------------

  /** The length of the longest non-empty secret `text` starts with; 0 when there is none. */
  function LongestAt(text: Bytes, secrets: seq<Bytes>): (n: nat)
    ensures n <= |text|
    ensures n > 0 ==> text[..n] in secrets
    ensures forall s :: s in secrets && s <= text ==> |s| <= n
  {
    if secrets == [] then 0
    else
      var n := LongestAt(text, secrets[1..]);
      assert secrets[0] <= text ==> text[..|secrets[0]|] == secrets[0];
      if secrets[0] <= text && |secrets[0]| > n then |secrets[0]| else n
  }

  function Mask(text: Bytes, secrets: seq<Bytes>): Bytes {
    if text == [] then []
    else
      var n := LongestAt(text, secrets);
      if n > 0 then MASK + Mask(text[n..], secrets) else [text[0]] + Mask(text[1..], secrets)
  }

  // ---- `mask`, as the scan it is ---------------------------------------------------------

  predicate LongestFirst(secrets: seq<Bytes>) {
    forall i, j :: 0 <= i < j < |secrets| ==> |secrets[i]| >= |secrets[j]|
  }

  function InsertAt(sorted: seq<Bytes>, at: nat, secret: Bytes): (r: seq<Bytes>)
    requires at <= |sorted| && LongestFirst(sorted)
    requires forall k :: 0 <= k < at ==> |sorted[k]| >= |secret|
    requires forall k :: at <= k < |sorted| ==> |sorted[k]| < |secret|
    ensures LongestFirst(r)
    ensures multiset(r) == multiset(sorted) + multiset{secret}
  {
    Seqs.MultisetOfParts(sorted[..at], secret, sorted[at..]);
    Seqs.CutAt(sorted, at);
    sorted[..at] + [secret] + sorted[at..]
  }

  /** `sort_by_key(Reverse(len))`. */
  method SortLongestFirst(secrets: seq<Bytes>) returns (sorted: seq<Bytes>)
    ensures LongestFirst(sorted)
    ensures multiset(sorted) == multiset(secrets)
  {
    sorted := [];
    for n := 0 to |secrets|
      invariant LongestFirst(sorted)
      invariant multiset(sorted) == multiset(secrets[..n])
    {
      var at := |sorted|;
      while at > 0 && |sorted[at - 1]| < |secrets[n]|
        invariant 0 <= at <= |sorted|
        invariant forall k :: at <= k < |sorted| ==> |sorted[k]| < |secrets[n]|
      {
        at := at - 1;
      }
      Seqs.MultisetOfNext(secrets, n);
      sorted := InsertAt(sorted, at, secrets[n]);
    }
    Seqs.CutAt(secrets, 0);
  }

  lemma {:induction false} LongestAtIs(text: Bytes, secrets: seq<Bytes>, n: nat)
    requires n <= |text| && (n > 0 ==> text[..n] in secrets)
    requires forall s :: s in secrets && s <= text ==> |s| <= n
    ensures LongestAt(text, secrets) == n
  {
    var m := LongestAt(text, secrets);
    if n > 0 { assert text[..n] <= text; }
    if m > 0 { assert text[..m] <= text; }
  }

  method FirstMatch(text: Bytes, sorted: seq<Bytes>) returns (n: nat)
    requires LongestFirst(sorted)
    ensures n == LongestAt(text, sorted)
  {
    for k := 0 to |sorted|
      invariant forall j :: 0 <= j < k ==> !(sorted[j] != [] && sorted[j] <= text)
    {
      if sorted[k] != [] && sorted[k] <= text {
        assert text[..|sorted[k]|] == sorted[k];
        LongestAtIs(text, sorted, |sorted[k]|);
        return |sorted[k]|;
      }
    }
    LongestAtIs(text, sorted, 0);
    return 0;
  }

  lemma {:induction false} MaskUnfolds(text: Bytes, secrets: seq<Bytes>)
    requires text != []
    ensures var n := LongestAt(text, secrets);
            Mask(text, secrets) == (if n > 0 then MASK else [text[0]]) + Mask(text[if n > 0 then n else 1..], secrets)
  {
  }

  lemma {:induction false} MaskHides(text: Bytes, i: nat, secrets: seq<Bytes>, out: Bytes, n: nat)
    requires i < |text| && n == LongestAt(text[i..], secrets) && n > 0
    ensures Seqs.Then(out, Mask(text[i..], secrets)) == Seqs.Then(out + MASK, Mask(text[i + n..], secrets))
  {
    hide Mask, Seqs.Then, LongestAt;
    MaskUnfolds(text[i..], secrets);
    Seqs.DropTwice(text, i, n);
    Seqs.ThenPiece(out, MASK, Mask(text[i + n..], secrets));
  }

  lemma {:induction false} MaskKeeps(text: Bytes, i: nat, secrets: seq<Bytes>, out: Bytes)
    requires i < |text| && LongestAt(text[i..], secrets) == 0
    ensures Seqs.Then(out, Mask(text[i..], secrets)) == Seqs.Then(out + [text[i]], Mask(text[i + 1..], secrets))
  {
    hide Mask, Seqs.Then, LongestAt;
    MaskUnfolds(text[i..], secrets);
    Seqs.DropTwice(text, i, 1);
    Seqs.ThenPiece(out, [text[i]], Mask(text[i + 1..], secrets));
  }

  method MaskText(text: Bytes, secrets: seq<Bytes>) returns (out: Bytes)
    ensures out == Mask(text, secrets)
  {
    hide Mask, Seqs.Then, LongestAt;
    var sorted := SortLongestFirst(secrets);
    SameSecrets(text, sorted, secrets);
    out := [];
    var i := 0;
    Seqs.CutAt(text, 0);
    Seqs.ThenNothing(Mask(text, sorted));
    while i < |text|
      invariant 0 <= i <= |text|
      invariant Mask(text, sorted) == Seqs.Then(out, Mask(text[i..], sorted))
    {
      var n := FirstMatch(text[i..], sorted);
      if n > 0 {
        MaskHides(text, i, sorted, out, n);
        out, i := out + MASK, i + n;
      } else {
        MaskKeeps(text, i, sorted, out);
        out, i := out + [text[i]], i + 1;
      }
    }
    assert text[i..] == [];
    MaskNothing(sorted);
    Seqs.ThenNothing(out);
  }

  lemma {:induction false} SameSecrets(text: Bytes, a: seq<Bytes>, b: seq<Bytes>)
    requires multiset(a) == multiset(b)
    ensures Mask(text, a) == Mask(text, b)
  {
    forall s ensures s in a <==> s in b {
      assert s in a <==> s in multiset(a);
      assert s in b <==> s in multiset(b);
    }
    MaskIgnoresOrder(text, a, b);
  }

  lemma {:induction false} MaskNothing(secrets: seq<Bytes>)
    ensures Mask([], secrets) == []
  {
  }

  /** Permuting or duplicating the secrets changes nothing. */
  lemma {:induction false} MaskIgnoresOrder(text: Bytes, a: seq<Bytes>, b: seq<Bytes>)
    requires forall s :: s in a <==> s in b
    ensures Mask(text, a) == Mask(text, b)
    decreases |text|
  {
    if text != [] {
      var n := LongestAt(text, a);
      LongestAtIs(text, b, n);
      MaskIgnoresOrder(if n > 0 then text[n..] else text[1..], a, b);
    }
  }

  // ---- Leftmost-longest ------------------------------------------------------------------

  /** A stretch of the text: a byte kept, or a secret hidden behind three stars. */
  datatype Piece = Keep(b: byte) | Hide(secret: Bytes) {
    function Source(): Bytes { if Keep? then [b] else secret }
    function Shown(): Bytes { if Keep? then [b] else [42, 42, 42] }
  }

  function Source(pieces: seq<Piece>): Bytes {
    if pieces == [] then [] else pieces[0].Source() + Source(pieces[1..])
  }

  function Shown(pieces: seq<Piece>): Bytes {
    if pieces == [] then [] else pieces[0].Shown() + Shown(pieces[1..])
  }

  /** A secret is hidden wherever one starts outside the ones hidden before it, and it is the
      longest of those that start there. */
  ghost predicate LeftmostLongest(pieces: seq<Piece>, secrets: seq<Bytes>) {
    pieces != [] ==>
      && (match pieces[0]
          case Keep(_) => forall s :: s in secrets && s != [] ==> !(s <= Source(pieces))
          case Hide(s) =>
            && s in secrets && s != []
            && forall longer :: longer in secrets && |longer| > |s| ==> !(longer <= Source(pieces)))
      && LeftmostLongest(pieces[1..], secrets)
  }

  /** `mask` is leftmost-longest replacement, whichever way it is cut up: outside the secrets
      hidden, the bytes are the text's own, in order. */
  lemma {:induction false} MaskIsLeftmostLongest(pieces: seq<Piece>, secrets: seq<Bytes>)
    requires LeftmostLongest(pieces, secrets)
    ensures Shown(pieces) == Mask(Source(pieces), secrets)
  {
    if pieces != [] {
      var text, n := Source(pieces), if pieces[0].Hide? then |pieces[0].secret| else 0;
      MaskIsLeftmostLongest(pieces[1..], secrets);
      if pieces[0].Hide? {
        assert text[..n] == pieces[0].secret && text[n..] == Source(pieces[1..]);
      } else {
        assert text[1..] == Source(pieces[1..]);
      }
      LongestAtIs(text, secrets, n);
    }
  }

  lemma {:induction false} SourceCons(first: Piece, rest: seq<Piece>)
    ensures Source([first] + rest) == first.Source() + Source(rest)
    ensures ([first] + rest)[1..] == rest
  {
  }

  lemma {:induction false} EveryTextIsCutUp(text: Bytes, secrets: seq<Bytes>) returns (pieces: seq<Piece>)
    ensures Source(pieces) == text && LeftmostLongest(pieces, secrets)
    ensures Shown(pieces) == Mask(text, secrets)
    decreases |text|
  {
    hide Mask, Shown, LongestAt;
    if text == [] {
      pieces := [];
    } else {
      var n := LongestAt(text, secrets);
      var first := if n > 0 then Hide(text[..n]) else Keep(text[0]);
      var rest := EveryTextIsCutUp(if n > 0 then text[n..] else text[1..], secrets);
      pieces := [first] + rest;
      SourceCons(first, rest);
      Seqs.CutAt(text, if n > 0 then n else 1);
      assert Source(pieces) == text;
    }
    MaskIsLeftmostLongest(pieces, secrets);
  }

  // ---- Streaming refines the whole-text mask ----------------------------------------------

  /** What `read_until` takes: up to and including the first newline, else everything. */
  function LineLength(text: Bytes): (n: nat)
    ensures n <= |text|
    ensures text != [] ==> n > 0
    ensures n < |text| ==> text[n - 1] == 10
    ensures forall k :: 0 <= k < n - 1 ==> text[k] != 10
  {
    if text == [] then 0 else if text[0] == NEWLINE then 1 else 1 + LineLength(text[1..])
  }

  /** The masked lines of `from`, when the first `served` of them are read and written. */
  function MaskLines(from: Bytes, secrets: seq<Bytes>, served: nat): Bytes
    decreases |from|
  {
    if from == [] || served == 0 then []
    else
      var n := LineLength(from);
      Mask(from[..n], secrets) + MaskLines(from[n..], secrets, served - 1)
  }

  /** The line that `read_until` takes at `at`. */
  function LineAt(text: Bytes, at: nat): (line: Bytes)
    requires at < |text|
    ensures 0 < |line| <= |text| - at
  {
    text[at..][..LineLength(text[at..])]
  }

  lemma {:induction false} MaskNextLine(from: Bytes, at: nat, secrets: seq<Bytes>, served: nat, to: Bytes)
    requires at < |from| && served > 0
    ensures var line := LineAt(from, at);
            Seqs.Then(to, MaskLines(from[at..], secrets, served))
            == Seqs.Then(to + Mask(line, secrets), MaskLines(from[at + |line|..], secrets, served - 1))
  {
    hide Mask, Seqs.Then, LineLength;
    var line := LineAt(from, at);
    Seqs.DropTwice(from, at, |line|);
    Seqs.ThenPiece(to, Mask(line, secrets), MaskLines(from[at + |line|..], secrets, served - 1));
  }

  lemma {:induction false} NoMoreLines(from: Bytes, at: nat, secrets: seq<Bytes>, served: nat)
    requires at <= |from| && (at == |from| || served == 0)
    ensures MaskLines(from[at..], secrets, served) == []
  {
  }

  /** The loop of `copy_masked`; `served` is how many lines are read and written before an
      error ends it. A byte stream has at most as many lines as bytes. */
  method CopyMasked(from: Bytes, secrets: seq<Bytes>, served: nat) returns (to: Bytes)
    ensures to == MaskLines(from, secrets, served)
  {
    hide Mask, MaskLines, LineAt, Seqs.Then;
    to := [];
    var at, lines := 0, 0;
    Seqs.CutAt(from, 0);
    Seqs.ThenNothing(MaskLines(from, secrets, served));
    while at < |from| && lines < served
      invariant 0 <= at <= |from| && lines <= served
      invariant MaskLines(from, secrets, served) == Seqs.Then(to, MaskLines(from[at..], secrets, served - lines))
      decreases |from| - at
    {
      MaskNextLine(from, at, secrets, served - lines, to);
      var line := LineAt(from, at);
      var masked := MaskText(line, secrets);
      to, at, lines := to + masked, at + |line|, lines + 1;
    }
    NoMoreLines(from, at, secrets, served - lines);
    Seqs.ThenNothing(to);
  }

  /** No newline before the last byte. */
  predicate OneLine(s: Bytes) {
    forall k :: 0 <= k < |s| - 1 ==> s[k] != NEWLINE
  }

  lemma LineEndsWithin(line: Bytes, rest: Bytes, n: nat)
    requires line != [] && line[|line| - 1] == NEWLINE && |line| < n <= |line + rest|
    ensures !OneLine((line + rest)[..n])
  {
    assert (line + rest)[..n][|line| - 1] == NEWLINE;
  }

  /** The longest secret at the front of a line is the longest one there in a longer text. */
  lemma {:induction false} LongestAtInLine(line: Bytes, rest: Bytes, secrets: seq<Bytes>)
    requires forall s :: s in secrets ==> OneLine(s)
    requires line != [] && line[|line| - 1] == NEWLINE
    ensures LongestAt(line, secrets) == LongestAt(line + rest, secrets)
  {
    var n := LongestAt(line + rest, secrets);
    if n > |line| {
      LineEndsWithin(line, rest, n);
      assert false;
    }
    Seqs.PrefixOfConcat(line, rest, n);
    forall s | s in secrets && s <= line ensures |s| <= n {
      Seqs.PrefixExtends(s, line, rest);
    }
    LongestAtIs(line, secrets, n);
  }

  /** A line masks as it does at the front of a longer text. */
  lemma {:induction false} MaskSplitsAtLine(line: Bytes, rest: Bytes, secrets: seq<Bytes>)
    requires forall s :: s in secrets ==> OneLine(s)
    requires line != [] ==> line[|line| - 1] == NEWLINE
    ensures Mask(line + rest, secrets) == Mask(line, secrets) + Mask(rest, secrets)
    decreases |line|
  {
    hide Mask, OneLine, LongestAt;
    if line == [] {
      Seqs.Neutral(rest);
      MaskNothing(secrets);
      Seqs.Neutral(Mask(rest, secrets));
    } else {
      var n := LongestAt(line, secrets);
      LongestAtInLine(line, rest, secrets);
      var head, cut := if n > 0 then MASK else [line[0]], if n > 0 then n else 1;
      MaskUnfolds(line + rest, secrets);
      MaskUnfolds(line, secrets);
      Seqs.PrefixOfConcat(line, rest, cut);
      MaskSplitsAtLine(line[cut..], rest, secrets);
      Seqs.Assoc(head, Mask(line[cut..], secrets), Mask(rest, secrets));
    }
  }

  lemma {:induction false} StreamIsMask(text: Bytes, secrets: seq<Bytes>, served: nat)
    requires served >= |text|
    requires forall s :: s in secrets ==> OneLine(s)
    ensures MaskLines(text, secrets, served) == Mask(text, secrets)
    decreases |text|
  {
    hide Mask, OneLine;
    if text == [] {
      MaskNothing(secrets);
    } else {
      var n := LineLength(text);
      Seqs.CutAt(text, n);
      StreamIsMask(text[n..], secrets, served - 1);
      if n == |text| {
        MaskNothing(secrets);
        Seqs.Neutral(Mask(text, secrets));
      } else {
        MaskSplitsAtLine(text[..n], text[n..], secrets);
      }
    }
  }

  lemma {:induction false} MaskEndsLine(line: Bytes, secrets: seq<Bytes>)
    requires line != [] && line[|line| - 1] == NEWLINE
    ensures var out := Mask(line, secrets); out != [] && (|out| >= 3 || out[|out| - 1] == NEWLINE)
    decreases |line|
  {
    var n := LongestAt(line, secrets);
    if n == 0 && |line| > 1 {
      MaskEndsLine(line[1..], secrets);
    }
  }

  lemma {:induction false} MaskLinesNonEmpty(text: Bytes, secrets: seq<Bytes>, served: nat)
    requires text != [] && served > 0
    ensures MaskLines(text, secrets, served) != []
  {
    assert text[..LineLength(text)] != [];
  }

  lemma NotTheMask(head: Bytes, tail: Bytes)
    requires head != [] && tail != [] && (|head| >= 3 || head[|head| - 1] == NEWLINE)
    ensures head + tail != MASK
  {
    assert (head + tail)[|head| - 1] == head[|head| - 1];
  }

  lemma {:induction false} OneMask(secret: Bytes, secrets: seq<Bytes>)
    requires secret in secrets && secret != []
    ensures Mask(secret, secrets) == MASK
  {
    LongestAtIs(secret, secrets, |secret|) by { assert secret[..|secret|] == secret; }
    MaskUnfolds(secret, secrets);
    assert secret[|secret|..] == [];
    MaskNothing(secrets);
  }

  lemma FirstLineThenRest(text: Bytes, secrets: seq<Bytes>, served: nat)
    requires text != [] && served > 0
    ensures var n := LineLength(text);
            MaskLines(text, secrets, served) == Mask(text[..n], secrets) + MaskLines(text[n..], secrets, served - 1)
  {
  }

  /** A secret with a newline before its last byte: streaming that secret does not hide it. */
  lemma {:induction false} StreamMissesSecretAcrossLines(secret: Bytes, secrets: seq<Bytes>)
    requires secret in secrets && !OneLine(secret)
    ensures Mask(secret, secrets) == MASK
    ensures MaskLines(secret, secrets, |secret|) != Mask(secret, secrets)
  {
    hide Mask, MaskLines, LineLength;
    OneMask(secret, secrets);
    var n := LineLength(secret);
    assert n < |secret| && secret[..n][n - 1] == NEWLINE;
    MaskEndsLine(secret[..n], secrets);
    var head, tail := Mask(secret[..n], secrets), MaskLines(secret[n..], secrets, |secret| - 1);
    FirstLineThenRest(secret, secrets, |secret|);
    MaskLinesNonEmpty(secret[n..], secrets, |secret| - 1);
    NotTheMask(head, tail);
  }

  /** Streaming a line at a time is masking the whole text, for every text, exactly when no
      secret has a newline before its last byte. */
  lemma StreamRefinesMask(secrets: seq<Bytes>)
    ensures (forall text, served: nat :: served >= |text| ==> MaskLines(text, secrets, served) == Mask(text, secrets))
        <==> (forall s :: s in secrets ==> OneLine(s))
  {
    if forall s :: s in secrets ==> OneLine(s) {
      forall text, served: nat | served >= |text| ensures MaskLines(text, secrets, served) == Mask(text, secrets) {
        StreamIsMask(text, secrets, served);
      }
    } else {
      var s :| s in secrets && !OneLine(s);
      StreamMissesSecretAcrossLines(s, secrets);
    }
  }
}
