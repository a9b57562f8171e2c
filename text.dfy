/**
 * The few Python string operations the core relies on: `str.lower`, `str.strip`,
 * `str.split` with a one-character separator, `in` on strings, the code-point order
 * that `sorted` uses, and the decimal notation that `pd.to_numeric`/`float` accept.
 */
module Text {
  import opened Wrappers

  // ---------------------------------------------------------------- lowercasing

  predicate IsUpper(c: char) { 'A' <= c <= 'Z' }

  function LowerChar(c: char): (r: char)
    ensures !IsUpper(r)
    ensures !IsUpper(c) ==> r == c
  {
    if IsUpper(c) then (c as int + 32) as char else c
  }

  /** `str.lower()` on the ASCII letters; every other character is kept. */
  function Lower(s: string): (r: string)
    ensures |r| == |s|
    ensures forall i :: 0 <= i < |s| ==> r[i] == LowerChar(s[i])
  {
    if s == [] then [] else [LowerChar(s[0])] + Lower(s[1..])
  }

  /** Lowercasing twice is lowercasing once. */
  lemma LowerIdempotent(s: string)
    ensures Lower(Lower(s)) == Lower(s)
  {
    var l := Lower(s);
    assert forall i :: 0 <= i < |l| ==> !IsUpper(l[i]);
  }

  /** A string without upper-case letters is its own lowercase form. */
  lemma LowerOfLower(s: string)
    requires forall i :: 0 <= i < |s| ==> !IsUpper(s[i])
    ensures Lower(s) == s
  {
  }

  // ---------------------------------------------------------------- stripping

  /**
   * The characters that `str.strip()` removes (those for which `str.isspace()` holds):
   * the ASCII controls and space, NEL, NO-BREAK SPACE, OGHAM SPACE MARK, the spaces
   * U+2000 to U+200A, the line and paragraph separators, NARROW NO-BREAK SPACE, MEDIUM
   * MATHEMATICAL SPACE and IDEOGRAPHIC SPACE.
   */
  predicate IsSpace(c: char) {
    || c == ' ' || c == '\t' || c == '\n' || c == '\r' || c == '\U{0B}' || c == '\U{0C}'
    || c == '\U{1C}' || c == '\U{1D}' || c == '\U{1E}' || c == '\U{1F}'
    || c == '\U{85}' || c == '\U{A0}' || c == '\U{1680}'
    || ('\U{2000}' <= c <= '\U{200A}')
    || c == '\U{2028}' || c == '\U{2029}' || c == '\U{202F}' || c == '\U{205F}' || c == '\U{3000}'
  }

  predicate AllSpace(s: string) {
    forall i :: 0 <= i < |s| ==> IsSpace(s[i])
  }

  /** Neither starts nor ends with whitespace. */
  predicate IsStripped(s: string) {
    s == [] || (!IsSpace(s[0]) && !IsSpace(s[|s| - 1]))
  }

  /** Number of whitespace characters at the front of `s`. */
  function LeadingSpaces(s: string): (n: nat)
    ensures n <= |s|
    ensures forall k :: 0 <= k < n ==> IsSpace(s[k])
    ensures n < |s| ==> !IsSpace(s[n])
  {
    if s == [] || !IsSpace(s[0]) then 0 else 1 + LeadingSpaces(s[1..])
  }

  /** Number of whitespace characters at the back of `s`. */
  function TrailingSpaces(s: string): (n: nat)
    ensures n <= |s|
    ensures forall k :: |s| - n <= k < |s| ==> IsSpace(s[k])
    ensures n < |s| ==> !IsSpace(s[|s| - 1 - n])
  {
    if s == [] || !IsSpace(s[|s| - 1]) then 0 else 1 + TrailingSpaces(s[..|s| - 1])
  }

  /** `str.strip()`: `s` without its leading and trailing whitespace. */
  function Strip(s: string): (r: string)
    ensures LeadingSpaces(s) + |r| <= |s|
    ensures r == s[LeadingSpaces(s)..LeadingSpaces(s) + |r|]
    ensures r == [] <==> AllSpace(s)
    ensures IsStripped(r)
  {
    var l := LeadingSpaces(s);
    var rest := s[l..];
    var t := TrailingSpaces(rest);
    assert l < |s| ==> rest != [] && !IsSpace(rest[0]);
    assert rest == [] ==> AllSpace(s);
    assert rest != [] ==> t < |rest|;
    rest[..|rest| - t]
  }

  /** Stripping a stripped string changes nothing. */
  lemma StrippedFixed(s: string)
    requires IsStripped(s)
    ensures Strip(s) == s
  {
    if s != [] {
      assert LeadingSpaces(s) == 0;
      assert TrailingSpaces(s) == 0;
    }
  }

  /** Stripping twice is stripping once. */
  lemma StripIdempotent(s: string)
    ensures Strip(Strip(s)) == Strip(s)
  {
    StrippedFixed(Strip(s));
  }

  // ---------------------------------------------------------------- splitting

  /** `s.split(sep)` for a one-character separator: always at least one piece. */
  function Split(s: string, sep: char): (r: seq<string>)
    ensures |r| >= 1
    ensures forall i :: 0 <= i < |r| ==> sep !in r[i]
  {
    if s == [] then [""]
    else if s[0] == sep then [""] + Split(s[1..], sep)
    else
      var rest := Split(s[1..], sep);
      [[s[0]] + rest[0]] + rest[1..]
  }

  /** `sep.join(parts)`. */
  function Join(parts: seq<string>, sep: char): string {
    if parts == [] then ""
    else if |parts| == 1 then parts[0]
    else parts[0] + [sep] + Join(parts[1..], sep)
  }

  /** Splitting loses nothing: joining the pieces with the separator gives `s` back. */
  lemma {:induction false} JoinSplit(s: string, sep: char)
    ensures Join(Split(s, sep), sep) == s
  {
    if s == [] {
    } else if s[0] == sep {
      JoinSplit(s[1..], sep);
      assert Split(s, sep) == [""] + Split(s[1..], sep);
    } else {
      JoinSplit(s[1..], sep);
      var rest := Split(s[1..], sep);
      var r := Split(s, sep);
      assert r == [[s[0]] + rest[0]] + rest[1..];
      if |rest| == 1 {
        assert Join(rest, sep) == rest[0];
      } else {
        assert Join(rest, sep) == rest[0] + [sep] + Join(rest[1..], sep);
        assert r[1..] == rest[1..];
      }
    }
  }

  /** A string without the separator is a single piece. */
  lemma {:induction false} SplitNoSeparator(a: string, sep: char)
    requires sep !in a
    ensures Split(a, sep) == [a]
  {
    if a != [] {
      SplitNoSeparator(a[1..], sep);
      assert [a[0]] + a[1..] == a;
    }
  }

  /** The first separator ends the first piece. */
  lemma {:induction false} SplitAtSeparator(a: string, b: string, sep: char)
    requires sep !in a
    ensures Split(a + [sep] + b, sep) == [a] + Split(b, sep)
  {
    var s := a + [sep] + b;
    if a == [] {
      assert s == [sep] + b && s[1..] == b;
    } else {
      assert s[1..] == a[1..] + [sep] + b;
      SplitAtSeparator(a[1..], b, sep);
      assert [a[0]] + a[1..] == a;
    }
  }

  /** Joining pieces free of the separator and splitting again gives the pieces back. */
  lemma {:induction false} SplitJoin(parts: seq<string>, sep: char)
    requires parts != []
    requires forall i :: 0 <= i < |parts| ==> sep !in parts[i]
    ensures Split(Join(parts, sep), sep) == parts
  {
    if |parts| == 1 {
      SplitNoSeparator(parts[0], sep);
    } else {
      SplitJoin(parts[1..], sep);
      SplitAtSeparator(parts[0], Join(parts[1..], sep), sep);
      assert [parts[0]] + parts[1..] == parts;
    }
  }

  /**
   * `[g.strip() for g in pieces if g.strip()]`: the stripped pieces that are not empty,
   * in order.
   */
  function NonEmptyStripped(pieces: seq<string>): (r: seq<string>)
    ensures |r| <= |pieces|
    ensures forall i :: 0 <= i < |r| ==> r[i] != [] && IsStripped(r[i])
    ensures r == [] <==> forall i :: 0 <= i < |pieces| ==> AllSpace(pieces[i])
  {
    if pieces == [] then []
    else
      var g := Strip(pieces[0]);
      var rest := NonEmptyStripped(pieces[1..]);
      assert (forall i :: 0 <= i < |pieces| ==> AllSpace(pieces[i]))
         <==> AllSpace(pieces[0]) && forall i :: 0 <= i < |pieces[1..]| ==> AllSpace(pieces[1..][i]) by {
        assert forall i :: 1 <= i < |pieces| ==> pieces[i] == pieces[1..][i - 1];
      }
      if g != [] then [g] + rest else rest
  }

  /** Stripping a piece never brings in the separator. */
  lemma {:induction false} NonEmptyStrippedAvoids(pieces: seq<string>, sep: char)
    requires forall i :: 0 <= i < |pieces| ==> sep !in pieces[i]
    ensures forall i :: 0 <= i < |NonEmptyStripped(pieces)| ==> sep !in NonEmptyStripped(pieces)[i]
  {
    if pieces != [] {
      var rest := NonEmptyStripped(pieces[1..]);
      NonEmptyStrippedAvoids(pieces[1..], sep);
      var g := Strip(pieces[0]);
      var l := LeadingSpaces(pieces[0]);
      assert g == pieces[0][l..l + |g|];
      assert sep !in g by {
        forall k | 0 <= k < |g| ensures g[k] != sep {
          assert g[k] == pieces[0][l + k];
        }
      }
      assert NonEmptyStripped(pieces) == if g != [] then [g] + rest else rest;
    }
  }

  /**
   * `[g.strip() for g in s.split(sep) if g.strip()]`: the non-blank, stripped fields of
   * `s`; none of them is empty, none holds the separator or surrounding whitespace, and
   * there are none exactly when every field is blank.
   */
  function Fields(s: string, sep: char): (r: seq<string>)
    ensures forall i :: 0 <= i < |r| ==> r[i] != [] && IsStripped(r[i])
    ensures forall i :: 0 <= i < |r| ==> sep !in r[i]
    ensures |r| <= |Split(s, sep)|
  {
    NonEmptyStrippedAvoids(Split(s, sep), sep);
    NonEmptyStripped(Split(s, sep))
  }

  /** Pieces that are all non-blank are all kept, each stripped. */
  lemma {:induction false} NonEmptyStrippedKeepsAll(pieces: seq<string>)
    requires forall i :: 0 <= i < |pieces| ==> Strip(pieces[i]) != []
    ensures NonEmptyStripped(pieces) == seq(|pieces|, i requires 0 <= i < |pieces| => Strip(pieces[i]))
  {
    if pieces != [] {
      NonEmptyStrippedKeepsAll(pieces[1..]);
    }
  }

  /**
   * Joining separator-free names and taking the fields gives back the names that are not
   * blank, stripped, in order; when no name is blank that is every name, stripped.
   */
  lemma FieldsOfJoin(names: seq<string>, sep: char)
    requires forall i :: 0 <= i < |names| ==> sep !in names[i]
    ensures Fields(Join(names, sep), sep) == NonEmptyStripped(names)
    ensures (forall i :: 0 <= i < |names| ==> Strip(names[i]) != []) ==>
      Fields(Join(names, sep), sep) == seq(|names|, i requires 0 <= i < |names| => Strip(names[i]))
  {
    if names == [] {
      assert Split("", sep) == [""];
      assert AllSpace("");
    } else {
      SplitJoin(names, sep);
    }
    if forall i :: 0 <= i < |names| ==> Strip(names[i]) != [] {
      NonEmptyStrippedKeepsAll(names);
    }
  }

  /** A string made of blanks and separators only has no fields. */
  lemma FieldsOfBlank(s: string, sep: char)
    requires forall k :: 0 <= k < |s| ==> IsSpace(s[k]) || s[k] == sep
    ensures Fields(s, sep) == []
  {
    var pieces := Split(s, sep);
    forall i | 0 <= i < |pieces| ensures AllSpace(pieces[i]) {
      SplitPiecesFromString(s, sep, i);
    }
  }

  /** Every character of a piece of `Split(s, sep)` occurs in `s`. */
  lemma {:induction false} SplitPiecesFromString(s: string, sep: char, i: nat)
    requires i < |Split(s, sep)|
    ensures forall k :: 0 <= k < |Split(s, sep)[i]| ==> Split(s, sep)[i][k] in s
  {
    if s == [] {
    } else if s[0] == sep {
      if i > 0 {
        SplitPiecesFromString(s[1..], sep, i - 1);
      }
    } else {
      var rest := Split(s[1..], sep);
      SplitPiecesFromString(s[1..], sep, i);
      if i == 0 {
        assert Split(s, sep)[0] == [s[0]] + rest[0];
      } else {
        assert Split(s, sep)[i] == rest[i];
      }
    }
  }

  // ---------------------------------------------------------------- substring search

  /** `needle in hay` on Python strings. */
  function Contains(hay: string, needle: string): (b: bool)
    ensures b <==> exists i :: 0 <= i <= |hay| && needle <= hay[i..]
  {
    if needle <= hay then (assert hay[0..] == hay; true)
    else if hay == [] then false
    else
      var b := Contains(hay[1..], needle);
      assert forall i :: 1 <= i <= |hay| ==> hay[i..] == hay[1..][i - 1..];
      b
  }

  /** Every string contains itself. */
  lemma ContainsSelf(s: string)
    ensures Contains(s, s)
  {
    assert s[0..] == s;
  }

  // ---------------------------------------------------------------- the order of `sorted`

  /** Python's `<` on strings: code point by code point, a proper prefix first. */
  predicate Less(a: string, b: string) {
    if a == [] then b != []
    else if b == [] then false
    else a[0] < b[0] || (a[0] == b[0] && Less(a[1..], b[1..]))
  }

  lemma {:induction false} LessIrreflexive(a: string)
    ensures !Less(a, a)
  {
    if a != [] { LessIrreflexive(a[1..]); }
  }

  lemma {:induction false} LessTotal(a: string, b: string)
    ensures a == b || Less(a, b) || Less(b, a)
  {
    if a != [] && b != [] && a[0] == b[0] {
      LessTotal(a[1..], b[1..]);
      if a[1..] == b[1..] {
        assert a == [a[0]] + a[1..] && b == [b[0]] + b[1..];
      }
    }
  }

  lemma {:induction false} LessAsymmetric(a: string, b: string)
    ensures !(Less(a, b) && Less(b, a))
  {
    if a != [] && b != [] && a[0] == b[0] { LessAsymmetric(a[1..], b[1..]); }
  }

  lemma {:induction false} LessTransitive(a: string, b: string, c: string)
    requires Less(a, b) && Less(b, c)
    ensures Less(a, c)
  {
    if a != [] && a[0] == b[0] && b[0] == c[0] {
      LessTransitive(a[1..], b[1..], c[1..]);
    }
  }

  /** Strictly increasing, hence free of duplicates. */
  ghost predicate StrictlySorted(xs: seq<string>) {
    forall i, j :: 0 <= i < j < |xs| ==> Less(xs[i], xs[j])
  }

  /** Insert `x` into a strictly sorted list unless it is already there. */
  function InsertSorted(x: string, xs: seq<string>): (r: seq<string>)
    requires StrictlySorted(xs)
    ensures StrictlySorted(r)
    ensures forall s :: s in r <==> s in xs || s == x
  {
    if xs == [] then [x]
    else if x == xs[0] then xs
    else if Less(x, xs[0]) then
      assert forall j :: 0 <= j < |xs| ==> Less(x, xs[j]) by {
        forall j | 0 < j < |xs| ensures Less(x, xs[j]) { LessTransitive(x, xs[0], xs[j]); }
      }
      [x] + xs
    else
      LessTotal(x, xs[0]);
      var rest := InsertSorted(x, xs[1..]);
      assert forall s :: s in rest ==> Less(xs[0], s) by {
        forall s | s in rest ensures Less(xs[0], s) {
          if s != x {
            var j :| 0 <= j < |xs[1..]| && xs[1..][j] == s;
            assert xs[j + 1] == s;
          }
        }
      }
      var r := [xs[0]] + rest;
      assert forall j :: 1 <= j < |r| ==> r[j] in rest;
      r
  }

  /** `sorted(set(xs))`: the distinct strings of `xs` in increasing order. */
  function SortedDistinct(xs: seq<string>): (r: seq<string>)
    ensures StrictlySorted(r)
    ensures forall s :: s in r <==> s in xs
  {
    if xs == [] then []
    else
      var init := SortedDistinct(xs[..|xs| - 1]);
      assert xs == xs[..|xs| - 1] + [xs[|xs| - 1]];
      InsertSorted(xs[|xs| - 1], init)
  }

  /** Two lists with the same elements are empty together. */
  lemma EmptyTogether(a: seq<string>, b: seq<string>)
    requires forall s :: s in a <==> s in b
    ensures a == [] <==> b == []
  {
    if a != [] { assert a[0] in a; }
    if b != [] { assert b[0] in b; }
  }

  /** A strictly sorted list is determined by its elements: `sorted` has one answer. */
  lemma {:induction false} StrictlySortedUnique(a: seq<string>, b: seq<string>)
    requires StrictlySorted(a) && StrictlySorted(b)
    requires forall s :: s in a <==> s in b
    ensures a == b
  {
    EmptyTogether(a, b);
    if a != [] {
      // the first element of each is the least element of the common set
      assert a[0] in a && b[0] in b;
      var k :| 0 <= k < |b| && b[k] == a[0];
      var m :| 0 <= m < |a| && a[m] == b[0];
      if k > 0 && m > 0 {
        LessAsymmetric(a[0], b[0]);
      }
      assert a[0] == b[0];
      forall s ensures s in a[1..] <==> s in b[1..] {
        if s in a[1..] {
          var j :| 0 <= j < |a[1..]| && a[1..][j] == s;
          assert a[j + 1] == s && Less(a[0], s);
          LessIrreflexive(s);
          assert s in b && s != b[0];
          var i :| 0 <= i < |b| && b[i] == s;
          assert b[1..][i - 1] == s;
        }
        if s in b[1..] {
          var j :| 0 <= j < |b[1..]| && b[1..][j] == s;
          assert b[j + 1] == s && Less(b[0], s);
          LessIrreflexive(s);
          assert s in a && s != a[0];
          var i :| 0 <= i < |a| && a[i] == s;
          assert a[1..][i - 1] == s;
        }
      }
      StrictlySortedUnique(a[1..], b[1..]);
      assert a == [a[0]] + a[1..] && b == [b[0]] + b[1..];
    }
  }

  // ---------------------------------------------------------------- decimal notation

  predicate IsDigit(c: char) { '0' <= c <= '9' }

  predicate AllDigits(s: string) { forall i :: 0 <= i < |s| ==> IsDigit(s[i]) }

  function DigitValue(c: char): nat
    requires IsDigit(c)
  {
    c as int - '0' as int
  }

  /** The value of a string of decimal digits, most significant first. */
  function DigitsValue(s: string): nat
    requires AllDigits(s)
  {
    if s == [] then 0 else 10 * DigitsValue(s[..|s| - 1]) + DigitValue(s[|s| - 1])
  }

  function Pow10(n: nat): (p: nat)
    ensures p >= 1
  {
    if n == 0 then 1 else 10 * Pow10(n - 1)
  }

  /** Index of the first `c` in `s`, if any. */
  function IndexOf(s: string, c: char): (r: Option<nat>)
    ensures r.Some? ==> r.value < |s| && s[r.value] == c && c !in s[..r.value]
    ensures r.None? ==> c !in s
  {
    if s == [] then None
    else if s[0] == c then Some(0)
    else
      match IndexOf(s[1..], c)
      case None => None
      case Some(k) => assert s[..k + 1] == [s[0]] + s[1..][..k]; Some(k + 1)
  }

  /** An unsigned decimal: digits, optionally followed by a point and more digits. */
  function ParseUnsigned(s: string): (r: Option<real>)
    ensures r.Some? ==> r.value >= 0.0
  {
    match IndexOf(s, '.')
    case None =>
      if s != [] && AllDigits(s) then Some(DigitsValue(s) as real) else None
    case Some(p) =>
      var whole, frac := s[..p], s[p + 1..];
      if (whole != [] || frac != []) && AllDigits(whole) && AllDigits(frac)
      then Some(DigitsValue(whole) as real + DigitsValue(frac) as real / Pow10(|frac|) as real)
      else None
  }

  /**
   * The numbers written in plain decimal notation, with an optional sign: the
   * inputs on which `pd.to_numeric(..., errors='coerce')` and `float(...)` do not fail
   * in this model (None stands for NaN / the raised ValueError).
   */
  function ParseNumber(s: string): (r: Option<real>)
    ensures s != [] && s[0] != '-' && s[0] != '+' ==> r == ParseUnsigned(s)
    ensures r.Some? && (s == [] || s[0] != '-') ==> r.value >= 0.0
  {
    if s != [] && s[0] == '-' then
      match ParseUnsigned(s[1..])
      case None => None
      case Some(x) => Some(-x)
    else if s != [] && s[0] == '+' then ParseUnsigned(s[1..])
    else ParseUnsigned(s)
  }

  function DigitChar(d: nat): (c: char)
    requires d < 10
    ensures IsDigit(c) && DigitValue(c) == d
  {
    ('0' as int + d) as char
  }

  /** `str(n)` for a natural number. */
  function NatText(n: nat): (s: string)
    ensures s != [] && AllDigits(s)
  {
    if n < 10 then [DigitChar(n)] else NatText(n / 10) + [DigitChar(n % 10)]
  }

  /** Rendering a natural number in decimal and parsing it back gives the number. */
  lemma {:induction false} ParseNatText(n: nat)
    ensures ParseNumber(NatText(n)) == Some(n as real)
  {
    NatTextValue(n);
    var s := NatText(n);
    assert IndexOf(s, '.') == None;
  }

  lemma {:induction false} NatTextValue(n: nat)
    ensures DigitsValue(NatText(n)) == n
  {
    if n >= 10 {
      NatTextValue(n / 10);
      var s := NatText(n);
      assert s[..|s| - 1] == NatText(n / 10);
    }
  }

  /** `str(i)` for an integer: a minus sign before the digits of a negative one. */
  function IntText(i: int): (s: string)
    ensures s != []
  {
    if i < 0 then "-" + NatText(-i) else NatText(i)
  }

  /** Rendering an integer in decimal and parsing it back gives the integer. */
  lemma ParseIntText(i: int)
    ensures ParseNumber(IntText(i)) == Some(i as real)
  {
    if i < 0 {
      var s := IntText(i);
      ParseNatText(-i);
      assert NatText(-i) != [] && IsDigit(NatText(-i)[0]);
      assert ParseNumber(NatText(-i)) == ParseUnsigned(NatText(-i));
      assert s[1..] == NatText(-i);
    } else {
      ParseNatText(i);
    }
  }
}
