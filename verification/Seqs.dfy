/** Facts about sequences, each proved once and away from any other definition. */
module Seqs {
  lemma Assoc<T>(a: seq<T>, b: seq<T>, c: seq<T>)
    ensures a + (b + c) == (a + b) + c
  {
  }

  /** What a loop has put out so far, then what it has still to put out. */
  function Then<T>(done: seq<T>, todo: seq<T>): seq<T> {
    done + todo
  }

  lemma ThenPiece<T>(done: seq<T>, piece: seq<T>, todo: seq<T>)
    ensures Then(done, piece + todo) == Then(done + piece, todo)
  {
    Assoc(done, piece, todo);
  }

  lemma ThenNothing<T>(s: seq<T>)
    ensures Then(s, []) == s && Then([], s) == s
  {
  }

  lemma Neutral<T>(a: seq<T>)
    ensures [] + a == a && a + [] == a
  {
  }

  lemma DropTwice<T>(s: seq<T>, i: nat, k: nat)
    requires i + k <= |s|
    ensures s[i..][k..] == s[i + k..]
  {
  }

  lemma CutAt<T>(s: seq<T>, i: nat)
    requires i <= |s|
    ensures s == s[..i] + s[i..]
    ensures s[0..] == s && s[..|s|] == s && s[|s|..] == []
  {
  }

  lemma PrefixOfConcat<T>(a: seq<T>, b: seq<T>, n: nat)
    requires n <= |a|
    ensures (a + b)[..n] == a[..n]
    ensures (a + b)[n..] == a[n..] + b
  {
  }

  lemma PrefixExtends<T>(p: seq<T>, a: seq<T>, b: seq<T>)
    requires p <= a
    ensures p <= a + b
  {
  }

  lemma MultisetOfParts<T>(a: seq<T>, x: T, b: seq<T>)
    ensures multiset(a + [x] + b) == multiset(a + b) + multiset{x}
  {
  }

  lemma MultisetOfNext<T>(s: seq<T>, n: nat)
    requires n < |s|
    ensures multiset(s[..n + 1]) == multiset(s[..n]) + multiset{s[n]}
  {
    assert s[..n + 1] == s[..n] + [s[n]];
  }
}
