/** No secret can be read in masked output, and exactly when one could. */
module MaskCompleteness {
  import opened SecretMask
  import Seqs

  /** `s` stands in `text` at byte `p`. */
  predicate StandsAt(s: Bytes, text: Bytes, p: nat) {
    p + |s| <= |text| && text[p..p + |s|] == s
  }

  ghost predicate Occurs(s: Bytes, text: Bytes) {
    exists p: nat :: StandsAt(s, text, p)
  }

  predicate TripleAt(s: Bytes, k: nat) {
    k + 3 <= |s| && s[k] == STAR && s[k + 1] == STAR && s[k + 2] == STAR
  }

  /** A secret the mask itself can spell: it starts or ends with `*`, or holds `***`. */
  ghost predicate Exposed(s: Bytes) {
    s != [] && (s[0] == STAR || s[|s| - 1] == STAR || exists k: nat :: TripleAt(s, k))
  }

  // ---- Soundness -------------------------------------------------------------------------

  lemma NoPrefixOfMask(u: Bytes, rest: Bytes)
    requires u != [] && u[|u| - 1] != STAR && !exists k: nat :: TripleAt(u, k)
    ensures !(u <= MASK + rest)
  {
    assert !TripleAt(u, 0);
  }

  lemma TailHasNoTriple(u: Bytes)
    requires u != [] && !exists k: nat :: TripleAt(u, k)
    ensures !exists k: nat :: TripleAt(u[1..], k)
  {
    forall k: nat ensures TripleAt(u[1..], k) ==> TripleAt(u, k + 1) {
    }
  }

  /** What the masked text starts with, the text starts with: no replacement fits in it. */
  lemma {:induction false} PrefixIsCopied(u: Bytes, text: Bytes, secrets: seq<Bytes>)
    requires u != [] && u[|u| - 1] != STAR && !exists k: nat :: TripleAt(u, k)
    requires u <= Mask(text, secrets)
    ensures u <= text && LongestAt(text, secrets) == 0
    decreases |text|
  {
    hide Mask;
    if text == [] {
      MaskNothing(secrets);
    } else {
      MaskUnfolds(text, secrets);
      var n := LongestAt(text, secrets);
      var out := Mask(text, secrets);
      if n > 0 {
        NoPrefixOfMask(u, Mask(text[n..], secrets));
      } else if |u| > 1 {
        assert u[1..] <= Mask(text[1..], secrets) by {
          assert out[1..] == Mask(text[1..], secrets);
        }
        TailHasNoTriple(u);
        PrefixIsCopied(u[1..], text[1..], secrets);
        assert u == [u[0]] + u[1..] && text == [text[0]] + text[1..];
      }
    }
  }

  lemma StandsAtPrefix(s: Bytes, text: Bytes, p: nat)
    requires p <= |text|
    ensures StandsAt(s, text, p) <==> s <= text[p..]
  {
    if StandsAt(s, text, p) {
      assert text[p..p + |s|] == text[p..][..|s|];
    }
    if s <= text[p..] {
      assert text[p..p + |s|] == text[p..][..|s|] == s;
    }
  }

  lemma StandsInTail(s: Bytes, head: Bytes, tail: Bytes, p: nat)
    requires StandsAt(s, head + tail, p) && p >= |head|
    ensures StandsAt(s, tail, p - |head|)
  {
    assert (head + tail)[p..p + |s|] == tail[p - |head|..p - |head| + |s|];
  }

  lemma {:induction false} SecretDoesNotStandAt(s: Bytes, text: Bytes, secrets: seq<Bytes>, p: nat)
    requires s in secrets && s != [] && !Exposed(s)
    ensures !StandsAt(s, Mask(text, secrets), p)
    decreases |text|
  {
    hide Mask;
    var out := Mask(text, secrets);
    if StandsAt(s, out, p) {
      assert s[0] == out[p..p + |s|][0] == out[p];
      if text == [] {
        MaskNothing(secrets);
      } else {
        MaskUnfolds(text, secrets);
        var n := LongestAt(text, secrets);
        var head, cut := if n > 0 then MASK else [text[0]], if n > 0 then n else 1;
        if p >= |head| {
          StandsInTail(s, head, Mask(text[cut..], secrets), p);
          SecretDoesNotStandAt(s, text[cut..], secrets, p - |head|);
        } else if p == 0 {
          StandsAtPrefix(s, out, 0);
          assert out[0..] == out;
          PrefixIsCopied(s, text, secrets);
        }
      }
    }
  }

  /** No secret can be read anywhere in the masked text, seams included, unless the mask
      itself can spell it. */
  lemma {:induction false} SecretsAreHidden(text: Bytes, secrets: seq<Bytes>)
    ensures forall s :: s in secrets && s != [] && !Exposed(s) ==> !Occurs(s, Mask(text, secrets))
  {
    forall s, p: nat | s in secrets && s != [] && !Exposed(s) ensures !StandsAt(s, Mask(text, secrets), p) {
      SecretDoesNotStandAt(s, text, secrets, p);
    }
  }

  // ---- Where it fails --------------------------------------------------------------------

  lemma {:induction false} NoMatchIsCopied(text: Bytes, n: nat, secrets: seq<Bytes>)
    requires n <= |text| && forall i :: 0 <= i < n ==> LongestAt(text[i..], secrets) == 0
    ensures Mask(text, secrets) == text[..n] + Mask(text[n..], secrets)
    decreases n
  {
    hide Mask;
    if n == 0 {
      Seqs.CutAt(text, 0);
      Seqs.Neutral(Mask(text, secrets));
    } else {
      MaskUnfolds(text, secrets);
      assert text[0..] == text;
      forall i | 0 <= i < n - 1 ensures LongestAt(text[1..][i..], secrets) == 0 {
        Seqs.DropTwice(text, 1, i);
      }
      NoMatchIsCopied(text[1..], n - 1, secrets);
      Seqs.DropTwice(text, 1, n - 1);
      Seqs.Assoc([text[0]], text[1..][..n - 1], Mask(text[n..], secrets));
      assert [text[0]] + text[1..][..n - 1] == text[..n];
    }
  }

  /** A text shorter than the only secret is copied. */
  lemma {:induction false} ShortIsCopied(text: Bytes, s: Bytes)
    requires |text| < |s|
    ensures Mask(text, [s]) == text
  {
    forall i | 0 <= i < |text| ensures LongestAt(text[i..], [s]) == 0 {
      LongestAtIs(text[i..], [s], 0);
    }
    NoMatchIsCopied(text, |text|, [s]);
    Seqs.CutAt(text, |text|);
    MaskNothing([s]);
    Seqs.Neutral(text);
  }

  /** Streamed, a text shorter than the only secret comes out as it went in. */
  lemma {:induction false} ShortIsStreamed(text: Bytes, s: Bytes, served: nat)
    requires |text| < |s| && served >= |text|
    ensures MaskLines(text, [s], served) == text
    decreases |text|
  {
    hide Mask, MaskLines, LineLength;
    if text == [] {
      NoMoreLines(text, 0, [s], served);
      Seqs.CutAt(text, 0);
    } else {
      var n := LineLength(text);
      FirstLineThenRest(text, [s], served);
      ShortIsCopied(text[..n], s);
      ShortIsStreamed(text[n..], s, served - 1);
      Seqs.CutAt(text, n);
    }
  }

  /** The only secret, when it has a newline before its last byte, streams out whole. */
  lemma {:induction false} StreamShowsSecret(s: Bytes, served: nat)
    requires !OneLine(s) && served >= |s|
    ensures MaskLines(s, [s], served) == s
    ensures Mask(s, [s]) == MASK
  {
    hide Mask, MaskLines, LineLength;
    var n := LineLength(s);
    assert n < |s|;
    FirstLineThenRest(s, [s], served);
    ShortIsCopied(s[..n], s);
    ShortIsStreamed(s[n..], s, served - 1);
    Seqs.CutAt(s, n);
    OneMask(s, [s]);
  }

  /** The only secret, then a text shorter than it. */
  lemma {:induction false} SecretThenShort(s: Bytes, tail: Bytes)
    requires s != [] && |tail| < |s|
    ensures Mask(s + tail, [s]) == MASK + tail
  {
    Seqs.PrefixOfConcat(s, tail, |s|);
    assert (s + tail)[..|s|] == s;
    forall t | t in [s] && t <= s + tail ensures |t| <= |s| {
      assert t == s;
    }
    LongestAtIs(s + tail, [s], |s|);
    MaskUnfolds(s + tail, [s]);
    assert (s + tail)[|s|..] == tail;
    ShortIsCopied(tail, s);
  }

  /** The secret starts nowhere in the first `n` bytes of the text. */
  predicate ClearBefore(text: Bytes, n: nat, s: Bytes) {
    n <= |text| && forall i: nat :: i < n ==> !StandsAt(s, text, i)
  }

  lemma NoMatchBefore(text: Bytes, n: nat, s: Bytes)
    requires ClearBefore(text, n, s)
    ensures forall i :: 0 <= i < n ==> LongestAt(text[i..], [s]) == 0
  {
    forall i | 0 <= i < n ensures LongestAt(text[i..], [s]) == 0 {
      assert !StandsAt(s, text, i);
      StandsAtPrefix(s, text, i);
      LongestAtIs(text[i..], [s], 0);
    }
  }

  lemma {:induction false} HeadSecretTail(head: Bytes, s: Bytes, tail: Bytes)
    requires s != [] && |tail| < |s| && ClearBefore(head + s + tail, |head|, s)
    ensures Mask(head + s + tail, [s]) == head + MASK + tail
  {
    hide Mask;
    var text := head + s + tail;
    NoMatchBefore(text, |head|, s);
    NoMatchIsCopied(text, |head|, [s]);
    assert text[..|head|] == head && text[|head|..] == s + tail;
    SecretThenShort(s, tail);
    Seqs.Assoc(head, MASK, tail);
  }

  lemma PieceOccurs(before: Bytes, s: Bytes, rest: Bytes)
    ensures Occurs(s, before + s + rest)
  {
    assert (before + s + rest)[|before|..|before| + |s|] == s;
    assert StandsAt(s, before + s + rest, |before|);
  }

  /** A secret that starts with `*` can be read behind its own mask. */
  lemma {:induction false} LeadingStarShows(s: Bytes)
    requires s != [] && s[0] == STAR
    ensures Occurs(s, Mask(s + s[1..], [s]))
  {
    hide Mask, Occurs;
    SecretThenShort(s, s[1..]);
    assert s == [STAR] + s[1..];
    assert MASK + s[1..] == [STAR, STAR] + s + [];
    PieceOccurs([STAR, STAR], s, []);
  }

  lemma ShiftedBytes(s: Bytes, u: Bytes, text: Bytes, i: nat)
    requires s != [] && u == s[..|s| - 1] && text == u + s + [] && i < |u| && StandsAt(s, text, i)
    ensures s[0] == s[i] == s[|s| - 1]
  {
    SameByte(s, text, i, 0);
    SameByte(s, text, i, |s| - 1);
  }

  lemma ClearBeforeEnd(s: Bytes, u: Bytes, text: Bytes)
    requires s != [] && s[0] != s[|s| - 1] && u == s[..|s| - 1] && text == u + s + []
    ensures ClearBefore(text, |u|, s)
  {
    forall i: nat | i < |u| ensures !StandsAt(s, text, i) {
      if StandsAt(s, text, i) {
        ShiftedBytes(s, u, text, i);
      }
    }
  }

  /** A secret that ends with `*` can be read in front of its own mask. */
  lemma {:induction false} TrailingStarShows(s: Bytes)
    requires s != [] && s[0] != STAR && s[|s| - 1] == STAR
    ensures Occurs(s, Mask(s[..|s| - 1] + s, [s]))
  {
    hide Mask, Occurs, ClearBefore;
    var u := s[..|s| - 1];
    ClearBeforeEnd(s, u, u + s + []);
    HeadSecretTail(u, s, []);
    Seqs.Neutral(u + s);
    assert u + MASK + [] == [] + s + [STAR, STAR];
    PieceOccurs([], s, [STAR, STAR]);
  }

  lemma {:induction false} FirstTriple(s: Bytes, k: nat) returns (x: nat)
    requires TripleAt(s, k)
    ensures TripleAt(s, x) && forall i: nat :: i < x ==> !TripleAt(s, i)
  {
    x := 0;
    while !TripleAt(s, x)
      invariant x <= k && forall i: nat :: i < x ==> !TripleAt(s, i)
      decreases k - x
    {
      x := x + 1;
    }
  }

  lemma EarlyTriple(s: Bytes, x: nat, tail: Bytes, i: nat)
    requires TripleAt(s, x) && i < x && StandsAt(s, s[..x] + s + tail, i)
    ensures TripleAt(s, i)
  {
    var text := s[..x] + s + tail;
    SameByte(s, text, i, x);
    SameByte(s, text, i, x + 1);
    SameByte(s, text, i, x + 2);
    assert s[i] == text[x + i] && s[i + 1] == text[x + (i + 1)] && s[i + 2] == text[x + (i + 2)];
  }

  /** Behind the part of the secret before its first `***`, the secret does not start early. */
  lemma NoEarlyStart(s: Bytes, x: nat, tail: Bytes)
    requires TripleAt(s, x) && forall i: nat :: i < x ==> !TripleAt(s, i)
    ensures ClearBefore(s[..x] + s + tail, x, s)
  {
    var text := s[..x] + s + tail;
    forall i: nat | i < x ensures !StandsAt(s, text, i) {
      if StandsAt(s, text, i) {
        EarlyTriple(s, x, tail, i);
      }
    }
  }

  /** A secret that holds `***` can be read around its own mask. */
  lemma {:induction false} TripleStarShows(s: Bytes, x: nat)
    requires TripleAt(s, x) && forall i: nat :: i < x ==> !TripleAt(s, i)
    ensures Mask(s[..x] + s + s[x + 3..], [s]) == s
  {
    hide Mask;
    NoEarlyStart(s, x, s[x + 3..]);
    HeadSecretTail(s[..x], s, s[x + 3..]);
    assert s[..x] + MASK + s[x + 3..] == s;
  }

  lemma SameByte(s: Bytes, text: Bytes, p: nat, k: nat)
    requires StandsAt(s, text, p) && k < |s|
    ensures s[k] == text[p + k]
  {
    assert text[p..p + |s|][k] == text[p + k];
  }

  ghost predicate Hides(text: Bytes, s: Bytes) {
    !Occurs(s, Mask(text, [s]))
  }

  /** With one secret stored, the mask hides it in every text exactly when it neither starts
      nor ends with `*` nor holds `***`. */
  lemma OneSecretIsHidden(s: Bytes)
    requires s != []
    ensures (forall text :: Hides(text, s)) <==> !Exposed(s)
  {
    hide Mask;
    if !Exposed(s) {
      forall text ensures Hides(text, s) {
        SecretsAreHidden(text, [s]);
      }
    } else if s[0] == STAR {
      LeadingStarShows(s);
      assert !Hides(s + s[1..], s);
    } else if s[|s| - 1] == STAR {
      TrailingStarShows(s);
      assert !Hides(s[..|s| - 1] + s, s);
    } else {
      var k: nat :| TripleAt(s, k);
      var x := FirstTriple(s, k);
      TripleStarShows(s, x);
      assert StandsAt(s, s, 0);
      assert !Hides(s[..x] + s + s[x + 3..], s);
    }
  }
}
