/** Which of two adapter versions is older. */
module Versions {
  import opened Text

  /** A version as it is compared: its numbers, and whether it is a prerelease. */
  datatype Version = Version(core: seq<nat>, pre: bool)

  // ---- Reading ------------------------------------------------------------------------------

  const U64_MAX: nat := 0xFFFF_FFFF_FFFF_FFFF

  predicate IsDigit(c: char) {
    '0' <= c <= '9'
  }

  function NumberOf(digits: string): nat
    requires forall i :: 0 <= i < |digits| ==> IsDigit(digits[i])
  {
    if digits == "" then 0
    else
      assert IsDigit(digits[|digits| - 1]);
      10 * NumberOf(digits[..|digits| - 1]) + (digits[|digits| - 1] - '0') as nat
  }

  /** A part that is no number, or too large for 64 bits, counts as 0. No part holds a `+`, which
      the standard library's parser would take. */
  function ParsePart(part: string): nat {
    if part != "" && (forall i :: 0 <= i < |part| ==> IsDigit(part[i])) && NumberOf(part) <= U64_MAX then NumberOf(part) else 0
  }

  function ParseParts(parts: seq<string>): (r: seq<nat>)
    ensures |r| == |parts|
  {
    if parts == [] then [] else [ParsePart(parts[0])] + ParseParts(parts[1..])
  }

  function TrimVs(s: string): string {
    if s != "" && s[0] == 'v' then TrimVs(s[1..]) else s
  }

  function Parse(text: string): Version {
    var v := TrimVs(Trim(text));
    var dash := IndexOf(v, '-');
    var core := v[..dash];
    Version(ParseParts(Split(core[..IndexOf(core, '+')], '.')), dash < |v|)
  }

  // ---- Comparing ----------------------------------------------------------------------------

  /** Number `i`, a missing one being 0. */
  function At(core: seq<nat>, i: nat): nat {
    if i < |core| then core[i] else 0
  }

  predicate SameTo(a: seq<nat>, b: seq<nat>, n: nat) {
    forall i: nat :: i < n ==> At(a, i) == At(b, i)
  }

  ghost predicate Same(a: seq<nat>, b: seq<nat>) {
    forall i: nat :: At(a, i) == At(b, i)
  }

  predicate LowerAt(a: seq<nat>, b: seq<nat>, n: nat) {
    SameTo(a, b, n) && At(a, n) < At(b, n)
  }

  ghost predicate Lower(a: seq<nat>, b: seq<nat>) {
    exists n: nat :: LowerAt(a, b, n)
  }

  /** Numbers first, as far as either goes; then a prerelease before its release. */
  ghost predicate Less(a: Version, b: Version) {
    Lower(a.core, b.core) || (Same(a.core, b.core) && a.pre && !b.pre)
  }

  method Resize(core: seq<nat>, len: nat) returns (padded: seq<nat>)
    requires |core| <= len
    ensures |padded| == len && forall i: nat :: At(padded, i) == At(core, i)
  {
    padded := core;
    while |padded| < len
      invariant |padded| <= len && forall i: nat :: At(padded, i) == At(core, i)
    {
      padded := padded + [0];
    }
  }

  method VersionLess(a: string, b: string) returns (less: bool)
    ensures less <==> Less(Parse(a), Parse(b))
  {
    var left, right := Parse(a), Parse(b);
    var len := if |left.core| > |right.core| then |left.core| else |right.core|;
    var x := Resize(left.core, len);
    var y := Resize(right.core, len);
    var i := 0;
    while i < len
      invariant 0 <= i <= len && SameTo(left.core, right.core, i)
    {
      if x[i] != y[i] {
        assert At(x, i) != At(y, i);
        DiffersAt(left.core, right.core, i);
        return x[i] < y[i];
      }
      assert At(x, i) == At(y, i);
      i := i + 1;
    }
    assert Same(left.core, right.core);
    return left.pre && !right.pre;
  }

  lemma DiffersAt(a: seq<nat>, b: seq<nat>, i: nat)
    requires SameTo(a, b, i) && At(a, i) != At(b, i)
    ensures Lower(a, b) <==> At(a, i) < At(b, i)
    ensures !Same(a, b)
  {
    if At(a, i) < At(b, i) {
      assert LowerAt(a, b, i);
    }
    if n: nat :| LowerAt(a, b, n) {
      assert i <= n || At(a, n) == At(b, n);
    }
  }

  // ---- A strict weak order --------------------------------------------------------------------

  lemma FirstDifference(a: seq<nat>, b: seq<nat>)
    ensures Lower(a, b) || Same(a, b) || Lower(b, a)
    ensures Same(a, b) ==> !Lower(a, b) && !Lower(b, a)
    ensures !(Lower(a, b) && Lower(b, a))
  {
    if !Same(a, b) {
      var i: nat :| At(a, i) != At(b, i);
      var k := FirstBefore(a, b, i);
      if At(a, k) < At(b, k) {
        assert LowerAt(a, b, k);
      } else {
        assert LowerAt(b, a, k);
      }
    }
    if n: nat :| LowerAt(a, b, n) {
      DiffersAt(a, b, n);
      DiffersAt(b, a, n);
    }
    if n: nat :| LowerAt(b, a, n) {
      assert At(a, n) != At(b, n);
    }
  }

  lemma {:induction false} FirstBefore(a: seq<nat>, b: seq<nat>, i: nat) returns (k: nat)
    requires At(a, i) != At(b, i)
    ensures SameTo(a, b, k) && At(a, k) != At(b, k)
  {
    if SameTo(a, b, i) {
      k := i;
    } else {
      var j: nat :| j < i && At(a, j) != At(b, j);
      k := FirstBefore(a, b, j);
    }
  }

  lemma LowerIsTransitive(a: seq<nat>, b: seq<nat>, c: seq<nat>)
    ensures Lower(a, b) && Lower(b, c) ==> Lower(a, c)
    ensures Lower(a, b) && Same(b, c) ==> Lower(a, c)
    ensures Same(a, b) && Lower(b, c) ==> Lower(a, c)
  {
    if m: nat :| LowerAt(a, b, m) {
      if n: nat :| LowerAt(b, c, n) {
        assert LowerAt(a, c, if m < n then m else n);
      }
      if Same(b, c) {
        assert LowerAt(a, c, m);
      }
    }
    if n: nat :| LowerAt(b, c, n) {
      if Same(a, b) {
        assert LowerAt(a, c, n);
      }
    }
  }

  /** Neither is older. */
  ghost predicate Tied(a: Version, b: Version) {
    !Less(a, b) && !Less(b, a)
  }

  /** The comparison is a strict weak order on all texts, though each pair is padded to a length
      of its own; and it ties exactly the versions with the same numbers and both or neither a
      prerelease. */
  lemma LessIsStrictWeakOrder(a: string, b: string, c: string)
    ensures var x, y, z := Parse(a), Parse(b), Parse(c);
            && !Less(x, x)
            && (Less(x, y) ==> !Less(y, x))
            && (Less(x, y) && Less(y, z) ==> Less(x, z))
            && (Tied(x, y) && Tied(y, z) ==> Tied(x, z))
            && (Tied(x, y) <==> Same(x.core, y.core) && x.pre == y.pre)
  {
    hide Parse, Lower, Same;
    var x, y, z := Parse(a), Parse(b), Parse(c);
    TieIsSame(x, y);
    TieIsSame(y, z);
    TieIsSame(x, z);
    TieIsSame(x, x);
    SameIsEquivalence(x.core, y.core, z.core);
    SameIsEquivalence(y.core, x.core, z.core);
    SameIsEquivalence(x.core, z.core, y.core);
    FirstDifference(x.core, y.core);
    FirstDifference(y.core, z.core);
    FirstDifference(x.core, z.core);
    FirstDifference(x.core, x.core);
    LowerIsTransitive(x.core, y.core, z.core);
  }

  lemma SameIsEquivalence(a: seq<nat>, b: seq<nat>, c: seq<nat>)
    ensures Same(a, a) && (Same(a, b) <==> Same(b, a)) && (Same(a, b) && Same(b, c) ==> Same(a, c))
  {
  }

  lemma TieIsSame(a: Version, b: Version)
    ensures Tied(a, b) <==> Same(a.core, b.core) && a.pre == b.pre
  {
    FirstDifference(a.core, b.core);
    FirstDifference(b.core, a.core);
    SameIsEquivalence(a.core, b.core, a.core);
  }

  // ---- Numbers, and what follows them ----------------------------------------------------------

  function Decimal(n: nat): (r: string)
    ensures r != "" && forall i :: 0 <= i < |r| ==> IsDigit(r[i])
  {
    if n < 10 then ['0' + n as char] else Decimal(n / 10) + ['0' + (n % 10) as char]
  }

  lemma {:induction false} DecimalIsRead(n: nat)
    ensures NumberOf(Decimal(n)) == n
  {
    var d := Decimal(n);
    if n < 10 {
      assert d[..|d| - 1] == "";
    } else {
      DecimalIsRead(n / 10);
      assert d[..|d| - 1] == Decimal(n / 10);
    }
  }

  function Decimals(numbers: seq<nat>): (r: seq<string>)
    ensures |r| == |numbers| && forall i :: 0 <= i < |r| ==> r[i] == Decimal(numbers[i])
  {
    if numbers == [] then [] else [Decimal(numbers[0])] + Decimals(numbers[1..])
  }

  function Printed(numbers: seq<nat>): string {
    Join(Decimals(numbers), '.')
  }

  /** The numbers, one too large for 64 bits being 0. */
  function Kept(numbers: seq<nat>): (r: seq<nat>)
    ensures |r| == |numbers| && forall i :: 0 <= i < |r| ==> r[i] == if numbers[i] <= U64_MAX then numbers[i] else 0
    ensures (forall n :: n in numbers ==> n <= U64_MAX) ==> r == numbers
  {
    assert forall i :: 0 <= i < |numbers| ==> numbers[i] in numbers;
    seq(|numbers|, i requires 0 <= i < |numbers| => if numbers[i] <= U64_MAX then numbers[i] else 0)
  }

  lemma {:induction false} PartsAreRead(numbers: seq<nat>)
    ensures ParseParts(Decimals(numbers)) == Kept(numbers)
  {
    if numbers != [] {
      DecimalIsRead(numbers[0]);
      PartsAreRead(numbers[1..]);
      assert Decimals(numbers)[1..] == Decimals(numbers[1..]);
      assert Kept(numbers) == [Kept(numbers)[0]] + Kept(numbers[1..]);
    }
  }

  predicate Plain(c: char) {
    !IsWhitespace(c) && c != '-' && c != '+' && c != 'v'
  }

  lemma {:induction false} JoinedIsPlain(pieces: seq<string>)
    requires pieces != [] && forall i :: 0 <= i < |pieces| ==> pieces[i] != "" && forall k :: 0 <= k < |pieces[i]| ==> IsDigit(pieces[i][k])
    ensures var text := Join(pieces, '.');
            text != "" && IsDigit(text[0]) && forall c :: c in text ==> Plain(c)
  {
    if |pieces| > 1 {
      JoinedIsPlain(pieces[1..]);
    }
  }

  /** A text that starts with a digit, and has no whitespace, is neither trimmed nor stripped. */
  lemma NothingTrimmed(text: string)
    requires text != "" && IsDigit(text[0]) && forall c :: c in text ==> !IsWhitespace(c)
    ensures TrimVs(Trim(text)) == text
  {
    assert text[|text| - 1] in text && text[0] in text;
    TrimKeeps(text);
  }

  /** `major.minor.patch`, however many numbers, is read back as its numbers, as far as 64 bits
      hold them; and with a suffix
      after a dash or a plus as the same numbers, a prerelease exactly when there is a dash, also
      when the dash is in the build metadata. */
  lemma PrintedIsRead(numbers: seq<nat>, suffix: string)
    requires numbers != []
    requires suffix == "" || (suffix[0] in {'-', '+'} && forall c :: c in suffix ==> !IsWhitespace(c))
    ensures Parse(Printed(numbers) + suffix) == Version(Kept(numbers), '-' in suffix)
  {
    var text, pieces := Printed(numbers), Decimals(numbers);
    JoinedIsPlain(pieces);
    NothingTrimmed(text + suffix);
    forall i | 0 <= i < |pieces| ensures '.' !in pieces[i] {
    }
    SplitUndoesJoin(pieces, '.');
    PartsAreRead(numbers);
    CoreIsFound(text, suffix);
  }

  lemma CoreIsFound(text: string, suffix: string)
    requires forall c :: c in text ==> Plain(c)
    requires suffix == "" || suffix[0] in {'-', '+'}
    ensures var v := text + suffix;
            var core := v[..IndexOf(v, '-')];
            && core[..IndexOf(core, '+')] == text
            && (IndexOf(v, '-') < |v| <==> '-' in suffix)
  {
    var v := text + suffix;
    IndexAfter(text, suffix, '-');
    var k := IndexOf(suffix, '-');
    var core := v[..IndexOf(v, '-')];
    assert core == text + suffix[..k];
    IndexAfter(text, suffix[..k], '+');
    if k > 0 {
      assert suffix[..k][0] == '+';
    }
  }

  lemma {:induction false} IndexAfter(text: string, suffix: string, c: char)
    requires c !in text
    ensures IndexOf(text + suffix, c) == |text| + IndexOf(suffix, c)
  {
    if text == "" {
      assert text + suffix == suffix;
    } else {
      assert (text + suffix)[1..] == text[1..] + suffix;
      IndexAfter(text[1..], suffix, c);
    }
  }

  /** Whitespace around a version, and any `v`s in front of it, are not part of it. */
  lemma {:induction false} SurroundingsAreDropped(before: string, vs: string, text: string, after: string)
    requires (forall i :: 0 <= i < |before| ==> IsWhitespace(before[i])) && forall i :: 0 <= i < |after| ==> IsWhitespace(after[i])
    requires forall i :: 0 <= i < |vs| ==> vs[i] == 'v'
    requires text != "" && text[0] != 'v' && !IsWhitespace(text[0]) && !IsWhitespace(text[|text| - 1])
    ensures TrimVs(Trim(before + (vs + text) + after)) == text
    ensures Parse(before + (vs + text) + after) == Parse(text)
  {
    assert !IsWhitespace('v') && (vs + text)[|vs + text| - 1] == text[|text| - 1];
    TrimDrops(before, vs + text, after);
    VsAreDropped(vs, text);
    TrimKeeps(text);
  }

  lemma {:induction false} VsAreDropped(vs: string, text: string)
    requires (forall i :: 0 <= i < |vs| ==> vs[i] == 'v') && text != "" && text[0] != 'v'
    ensures TrimVs(vs + text) == text
  {
    if vs == "" {
      assert vs + text == text;
    } else {
      assert (vs + text)[1..] == vs[1..] + text;
      VsAreDropped(vs[1..], text);
    }
  }

  /** Of what follows the numbers only the dash counts: two prereleases of one version tie whatever
      their identifiers, and build metadata makes a release older than itself without exactly when
      it holds a dash. */
  lemma OnlyTheDashCounts(numbers: seq<nat>, one: string, other: string)
    requires numbers != [] && forall c :: c in one || c in other ==> !IsWhitespace(c)
    ensures Tied(Parse(Printed(numbers) + ("-" + one)), Parse(Printed(numbers) + ("-" + other)))
    ensures Less(Parse(Printed(numbers) + ("+" + one)), Parse(Printed(numbers) + "")) <==> '-' in one
  {
    PrintedIsRead(numbers, "-" + one);
    PrintedIsRead(numbers, "-" + other);
    PrintedIsRead(numbers, "+" + one);
    PrintedIsRead(numbers, "");
    FirstDifference(Kept(numbers), Kept(numbers));
  }
}
