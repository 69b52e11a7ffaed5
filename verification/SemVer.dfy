/** The comparison of versions beside the precedence of item 11 of Semantic Versioning 2.0.0. */
module SemVer {
  import opened Text
  import opened Versions

  datatype Identifier = Numeric(n: nat) | Alpha(text: string)

  /** A version by its grammar; without a prerelease `pre` is empty. */
  datatype Release = Release(core: seq<nat>, pre: seq<Identifier>, build: seq<string>)

  predicate Allowed(c: char) {
    IsDigit(c) || 'a' <= c <= 'z' || 'A' <= c <= 'Z' || c == '-'
  }

  predicate ValidText(s: string) {
    s != "" && forall c :: c in s ==> Allowed(c)
  }

  predicate Valid(v: Release) {
    && |v.core| == 3
    && (forall i :: 0 <= i < |v.pre| && v.pre[i].Alpha? ==> ValidText(v.pre[i].text) && exists c :: c in v.pre[i].text && !IsDigit(c))
    && (forall i :: 0 <= i < |v.build| ==> ValidText(v.build[i]))
  }

  // ---- Precedence ---------------------------------------------------------------------------

  /** Element by element, until one differs; a proper prefix is first. */
  predicate Lex<T(==)>(less: (T, T) -> bool, a: seq<T>, b: seq<T>) {
    b != [] && (a == [] || less(a[0], b[0]) || (a[0] == b[0] && Lex(less, a[1..], b[1..])))
  }

  predicate NumberLess(a: nat, b: nat) {
    a < b
  }

  predicate CharLess(a: char, b: char) {
    a < b
  }

  /** Numbers by value, other identifiers in ASCII order, and any number before those. */
  predicate IdentifierLess(a: Identifier, b: Identifier) {
    match a
    case Numeric(m) => b.Numeric? ==> m < b.n
    case Alpha(s) => b.Alpha? && Lex(CharLess, s, b.text)
  }

  /** The numbers decide; then a prerelease is before its release, and of two prereleases the
      identifiers decide. Build metadata does not. */
  predicate Precedes(a: Release, b: Release) {
    || Lex(NumberLess, a.core, b.core)
    || (a.core == b.core && a.pre != [] && (b.pre == [] || Lex(IdentifierLess, a.pre, b.pre)))
  }

  ghost predicate StrictTotal<T(!new)>(less: (T, T) -> bool) {
    && (forall x, y :: if x == y then !less(x, y) else less(x, y) <==> !less(y, x))
    && (forall x, y, z :: less(x, y) && less(y, z) ==> less(x, z))
  }

  lemma {:induction false} LexIsTotal<T(!new)>(less: (T, T) -> bool, a: seq<T>, b: seq<T>)
    requires StrictTotal(less)
    ensures if a == b then !Lex(less, a, b) else Lex(less, a, b) <==> !Lex(less, b, a)
  {
    if a != [] && b != [] && a[0] == b[0] {
      LexIsTotal(less, a[1..], b[1..]);
      assert a == [a[0]] + a[1..] && b == [b[0]] + b[1..];
    }
  }

  lemma {:induction false} LexIsTransitive<T(!new)>(less: (T, T) -> bool, a: seq<T>, b: seq<T>, c: seq<T>)
    requires StrictTotal(less) && Lex(less, a, b) && Lex(less, b, c)
    ensures Lex(less, a, c)
  {
    if a != [] && a[0] == b[0] == c[0] {
      LexIsTransitive(less, a[1..], b[1..], c[1..]);
    }
  }

  lemma IdentifiersAreOrdered()
    ensures StrictTotal(IdentifierLess)
  {
    assert StrictTotal(CharLess);
    forall x, y ensures if x == y then !IdentifierLess(x, y) else IdentifierLess(x, y) <==> !IdentifierLess(y, x) {
      if x.Alpha? && y.Alpha? {
        LexIsTotal(CharLess, x.text, y.text);
      }
    }
    forall x, y, z | IdentifierLess(x, y) && IdentifierLess(y, z) ensures IdentifierLess(x, z) {
      if x.Alpha? {
        LexIsTransitive(CharLess, x.text, y.text, z.text);
      }
    }
  }

  /** Two versions that differ in more than their build metadata: one precedes the other. */
  lemma PrecedenceIsTotal(a: Release, b: Release)
    ensures if a.core == b.core && a.pre == b.pre then !Precedes(a, b) else Precedes(a, b) <==> !Precedes(b, a)
  {
    IdentifiersAreOrdered();
    assert StrictTotal(NumberLess);
    LexIsTotal(NumberLess, a.core, b.core);
    LexIsTotal(IdentifierLess, a.pre, b.pre);
  }

  lemma PrecedenceIsTransitive(a: Release, b: Release, c: Release)
    requires Precedes(a, b) && Precedes(b, c)
    ensures Precedes(a, c)
  {
    IdentifiersAreOrdered();
    assert StrictTotal(NumberLess);
    if a.core == b.core == c.core {
      LexIsTotal(NumberLess, a.core, a.core);
      if c.pre != [] {
        LexIsTransitive(IdentifierLess, a.pre, b.pre, c.pre);
      }
    } else if a.core != b.core && b.core != c.core {
      LexIsTransitive(NumberLess, a.core, b.core, c.core);
    }
  }

  // ---- Written, and read --------------------------------------------------------------------

  function Texts(pre: seq<Identifier>): (r: seq<string>)
    ensures |r| == |pre|
    ensures forall i :: 0 <= i < |r| ==> r[i] == if pre[i].Numeric? then Decimal(pre[i].n) else pre[i].text
  {
    seq(|pre|, i requires 0 <= i < |pre| => if pre[i].Numeric? then Decimal(pre[i].n) else pre[i].text)
  }

  function Suffix(v: Release): string {
    (if v.pre == [] then "" else "-" + Join(Texts(v.pre), '.')) + (if v.build == [] then "" else "+" + Join(v.build, '.'))
  }

  function Show(v: Release): string {
    Printed(v.core) + Suffix(v)
  }

  predicate Dashed(build: seq<string>) {
    exists i :: 0 <= i < |build| && '-' in build[i]
  }

  lemma {:induction false} JoinHolds(pieces: seq<string>, c: char)
    requires c != '.'
    ensures c in Join(pieces, '.') <==> exists i :: 0 <= i < |pieces| && c in pieces[i]
  {
    if |pieces| > 1 {
      var rest := pieces[1..];
      JoinHolds(rest, c);
      if i :| 0 <= i < |rest| && c in rest[i] {
        assert c in pieces[i + 1];
      }
      if i :| 0 < i < |pieces| && c in pieces[i] {
        assert c in rest[i - 1];
      }
      assert Join(pieces, '.') == pieces[0] + ['.'] + Join(rest, '.');
    }
  }

  lemma SuffixIsRead(v: Release)
    requires Valid(v)
    ensures Suffix(v) == "" || Suffix(v)[0] in {'-', '+'}
    ensures forall c :: c in Suffix(v) ==> !IsWhitespace(c)
    ensures '-' in Suffix(v) <==> v.pre != [] || Dashed(v.build)
  {
    forall c | c in Suffix(v) && c !in {'-', '+', '.'} ensures !IsWhitespace(c) {
      JoinHolds(Texts(v.pre), c);
      JoinHolds(v.build, c);
      assert c in Join(Texts(v.pre), '.') || c in Join(v.build, '.');
      assert Allowed(c);
    }
    JoinHolds(v.build, '-');
    if v.pre != [] {
      assert Suffix(v)[0] == '-';
    }
  }

  /** Of the suffix, only whether it holds a dash is read. */
  lemma ShownIsRead(v: Release)
    requires Valid(v)
    ensures Parse(Show(v)) == Version(Kept(v.core), v.pre != [] || Dashed(v.build))
  {
    SuffixIsRead(v);
    PrintedIsRead(v.core, Suffix(v));
  }

  lemma {:induction false} LowerIsLex(a: seq<nat>, b: seq<nat>)
    requires |a| == |b|
    ensures Lower(a, b) <==> Lex(NumberLess, a, b)
    ensures Same(a, b) <==> a == b
  {
    if a == [] {
    } else if a[0] != b[0] {
      assert At(a, 0) != At(b, 0);
      DiffersAt(a, b, 0);
    } else {
      LowerIsLex(a[1..], b[1..]);
      HeadsSame(a, b);
      assert a == [a[0]] + a[1..] && b == [b[0]] + b[1..];
    }
  }

  lemma HeadsSame(a: seq<nat>, b: seq<nat>)
    requires |a| == |b| > 0 && a[0] == b[0]
    ensures Lower(a, b) <==> Lower(a[1..], b[1..])
    ensures Same(a, b) <==> Same(a[1..], b[1..])
  {
    forall i: nat ensures At(a, i + 1) == At(a[1..], i) && At(b, i + 1) == At(b[1..], i) {
    }
    if n: nat :| LowerAt(a, b, n) {
      assert n > 0 && LowerAt(a[1..], b[1..], n - 1);
    }
    if n: nat :| LowerAt(a[1..], b[1..], n) {
      forall i: nat | i < n + 1 ensures At(a, i) == At(b, i) {
        assert i > 0 ==> At(a[1..], i - 1) == At(b[1..], i - 1);
      }
      assert LowerAt(a, b, n + 1);
    }
    if Same(a[1..], b[1..]) {
      forall i: nat ensures At(a, i) == At(b, i) {
        assert i > 0 ==> At(a[1..], i - 1) == At(b[1..], i - 1);
      }
    }
  }

  // ---- Coarser, and where it is not ----------------------------------------------------------

  /** What the program makes of two versions written out. */
  ghost predicate Older(a: Release, b: Release) {
    Less(Parse(Show(a)), Parse(Show(b)))
  }

  predicate Fits(v: Release) {
    forall n :: n in v.core ==> n <= U64_MAX
  }

  /** A release whose build metadata is taken for a prerelease. */
  predicate Misread(v: Release) {
    v.pre == [] && Dashed(v.build)
  }

  predicate WellRead(v: Release) {
    Valid(v) && Fits(v) && !Misread(v)
  }

  lemma OlderIs(a: Release, b: Release)
    requires Valid(a) && Valid(b)
    ensures Older(a, b) <==>
            || Lex(NumberLess, Kept(a.core), Kept(b.core))
            || (Kept(a.core) == Kept(b.core) && (a.pre != [] || Dashed(a.build)) && b.pre == [] && !Dashed(b.build))
  {
    hide Parse, Show, Lower, Same, Lex;
    ShownIsRead(a);
    ShownIsRead(b);
    LowerIsLex(Kept(a.core), Kept(b.core));
  }

  predicate PrereleasesOfOne(a: Release, b: Release) {
    a.core == b.core && a.pre != [] && b.pre != []
  }

  ghost predicate Coarser(a: Release, b: Release) {
    Older(a, b) <==> Precedes(a, b) && !PrereleasesOfOne(a, b)
  }

  /** The comparison is precedence, except that it takes two prereleases of one version for ties. */
  lemma OlderIsCoarser(a: Release, b: Release)
    requires WellRead(a) && WellRead(b)
    ensures Coarser(a, b)
  {
    hide Older, Lex;
    OlderIs(a, b);
    assert StrictTotal(NumberLess);
    LexIsTotal(NumberLess, a.core, b.core);
  }

  /** Where both versions' numbers fit, it is precedence exactly outside these pairs of one version:
      two prereleases in order, a prerelease and a misread release, a misread release and another. */
  lemma AgreesExactly(a: Release, b: Release)
    requires Valid(a) && Valid(b) && Fits(a) && Fits(b)
    ensures (Older(a, b) <==> Precedes(a, b)) <==>
            !(a.core == b.core &&
              if b.pre != [] then a.pre != [] && Lex(IdentifierLess, a.pre, b.pre)
              else if a.pre != [] then Misread(b)
              else Misread(a) && !Misread(b))
  {
    hide Older, Lex;
    OlderIs(a, b);
    assert StrictTotal(NumberLess);
    LexIsTotal(NumberLess, a.core, b.core);
  }

  /** So a version compares with every other that is well read as precedence has it, but for those
      ties, exactly when it is well read itself: no dash in the build metadata of a release, and no
      number above 64 bits. */
  lemma CoarserExactly(v: Release)
    requires Valid(v)
    ensures (forall w :: WellRead(w) ==> Coarser(v, w)) <==> WellRead(v)
  {
    hide Older, Precedes, Misread;
    if WellRead(v) {
      forall w | WellRead(w) ensures Coarser(v, w) {
        OlderIsCoarser(v, w);
      }
    } else if Fits(v) {
      var w := v.(build := []);
      PlainIsWellRead(w);
      MisreadIsOlder(v);
      assert !Coarser(v, w);
    } else {
      var w := OversizeIsOlder(v);
      assert !Coarser(v, w);
    }
  }

  lemma PlainIsWellRead(w: Release)
    requires Valid(w) && Fits(w) && w.build == []
    ensures WellRead(w)
  {
  }

  lemma MisreadIsOlder(v: Release)
    requires Valid(v) && Misread(v)
    ensures Older(v, v.(build := [])) && !Precedes(v, v.(build := []))
  {
    OlderIs(v, v.(build := []));
    PrecedenceIsTotal(v, v.(build := []));
  }

  /** A number above 64 bits is read as 0, and so found below 1. */
  lemma OversizeIsOlder(v: Release) returns (w: Release)
    requires Valid(v) && !Fits(v)
    ensures WellRead(w) && Older(v, w) && !Precedes(v, w)
  {
    hide Older, Lex, Misread;
    var x, y, z := v.core[0], v.core[1], v.core[2];
    assert v.core == [x, y, z];
    w := Release(if x > U64_MAX then [1, 0, 0] else if y > U64_MAX then [x, 1, 0] else [x, y, 1], [], []);
    var kept := Kept(v.core);
    assert kept == [kept[0], kept[1], kept[2]];
    LexOfThree(kept, w.core);
    LexOfThree(w.core, v.core);
    OlderIs(v, w);
    PrecedenceIsTotal(v, w);
    PlainIsWellRead(w);
  }

  lemma {:induction false} LexOfThree(a: seq<nat>, b: seq<nat>)
    requires |a| == |b| == 3
    ensures Lex(NumberLess, a, b) <==>
            a[0] < b[0] || (a[0] == b[0] && (a[1] < b[1] || (a[1] == b[1] && a[2] < b[2])))
  {
    LexUnfolds(a, b);
    LexUnfolds(a[1..], b[1..]);
    LexUnfolds(a[2..], b[2..]);
    assert a[1..][1..] == a[2..] && b[1..][1..] == b[2..];
  }

  lemma {:induction false} LexUnfolds(a: seq<nat>, b: seq<nat>)
    requires a != [] && b != []
    ensures Lex(NumberLess, a, b) <==> a[0] < b[0] || (a[0] == b[0] && Lex(NumberLess, a[1..], b[1..]))
  {
  }
}
