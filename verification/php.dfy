/**
 * String and value semantics of the PHP built-ins that the FearlessCMS core
 * relies on: ASCII case mapping (strtoupper, strtolower, ucfirst, ucwords),
 * trim, strpos, str_replace, explode, implode, strcmp, the `empty()` test on
 * strings and the character classes used by its regular expressions.
 */
module Php {

  datatype Option<+T> = None | Some(value: T)

  /** A PHP scalar as returned by a callback: only `Bool(true)` is `=== true`. */
  datatype Scalar = Null | Bool(b: bool) | Int(i: int) | Str(s: string)

  // ---------------------------------------------------------------------
  // Character classes
  // ---------------------------------------------------------------------

  predicate IsDigit(c: char) { '0' <= c <= '9' }
  predicate IsUpperAscii(c: char) { 'A' <= c <= 'Z' }
  predicate IsLowerAscii(c: char) { 'a' <= c <= 'z' }
  predicate IsAlpha(c: char) { IsUpperAscii(c) || IsLowerAscii(c) }
  predicate IsAlnum(c: char) { IsAlpha(c) || IsDigit(c) }

  /** The PCRE class `\w` without the `u` flag: `[A-Za-z0-9_]`. */
  predicate IsWordChar(c: char) { IsAlnum(c) || c == '_' }

  /** The class `[a-zA-Z0-9_-]` used for usernames, slugs and HTML ids. */
  predicate IsIdentChar(c: char) { IsAlnum(c) || c == '_' || c == '-' }

  predicate IsSlash(c: char) { c == '/' }

  /** The characters PHP's `trim()` removes by default: " \t\n\r\0\x0B". */
  predicate IsTrimSpace(c: char) {
    c == ' ' || c == '\t' || c == '\n' || c == '\r' || c == '\0' || c == '\U{B}'
  }

  /** The word delimiters of PHP's `ucwords()`: " \t\r\n\f\v". */
  predicate IsWordDelimiter(c: char) {
    c == ' ' || c == '\t' || c == '\r' || c == '\n' || c == '\U{C}' || c == '\U{B}'
  }

  // ---------------------------------------------------------------------
  // Case mapping (byte-wise ASCII, as strtoupper/strtolower do since PHP 8.2)
  // ---------------------------------------------------------------------

  function UpperChar(c: char): (r: char)
    ensures IsLowerAscii(c) ==> IsUpperAscii(r) && r as int == c as int - 32
    ensures !IsLowerAscii(c) ==> r == c
  {
    if IsLowerAscii(c) then (c as int - 32) as char else c
  }

  function LowerChar(c: char): (r: char)
    ensures IsUpperAscii(c) ==> IsLowerAscii(r) && r as int == c as int + 32
    ensures !IsUpperAscii(c) ==> r == c
  {
    if IsUpperAscii(c) then (c as int + 32) as char else c
  }

  /** strtoupper */
  function Upper(s: string): (r: string)
    ensures |r| == |s|
    ensures forall i :: 0 <= i < |s| ==> r[i] == UpperChar(s[i])
    ensures forall i :: 0 <= i < |r| ==> !IsLowerAscii(r[i])
  {
    seq(|s|, i requires 0 <= i < |s| => UpperChar(s[i]))
  }

  /** strtolower */
  function Lower(s: string): (r: string)
    ensures |r| == |s|
    ensures forall i :: 0 <= i < |s| ==> r[i] == LowerChar(s[i])
    ensures forall i :: 0 <= i < |r| ==> !IsUpperAscii(r[i])
  {
    seq(|s|, i requires 0 <= i < |s| => LowerChar(s[i]))
  }

  /** Case-insensitive equality as `strtoupper($a) === strtoupper($b)`. */
  predicate EqualsIgnoreCase(a: string, b: string) { Upper(a) == Upper(b) }

  /** strtoupper of an upper-cased string changes nothing. */
  lemma UpperIdempotent(s: string)
    ensures Upper(Upper(s)) == Upper(s)
  {
    assert forall i :: 0 <= i < |s| ==> Upper(Upper(s))[i] == Upper(s)[i];
  }

  /** Lower-casing first does not change the upper-cased string. */
  lemma LowerUpper(s: string)
    ensures Upper(Lower(s)) == Upper(s)
  {
    assert forall i :: 0 <= i < |s| ==> Upper(Lower(s))[i] == Upper(s)[i];
  }

  /** ucfirst */
  function Ucfirst(s: string): (r: string)
    ensures |r| == |s|
    ensures |s| > 0 ==> r[0] == UpperChar(s[0]) && r[1..] == s[1..]
  {
    if s == [] then [] else [UpperChar(s[0])] + s[1..]
  }

  /** ucwords: upper-cases the first character and every character after a delimiter. */
  function Ucwords(s: string): (r: string)
    ensures |r| == |s|
    ensures forall i :: 0 <= i < |s| ==> r[i] == WordCased(s, i)
  {
    seq(|s|, i requires 0 <= i < |s| => WordCased(s, i))
  }

  /** The character at `i` after `ucwords`: upper-cased when it starts a word. */
  function WordCased(s: string, i: nat): char
    requires i < |s|
  {
    if i == 0 || IsWordDelimiter(s[i - 1]) then UpperChar(s[i]) else s[i]
  }

  // ---------------------------------------------------------------------
  // empty() and truthiness of strings
  // ---------------------------------------------------------------------

  /** `empty($s)` for a string (or a missing value, given as ""): "" and "0" are empty. */
  predicate Empty(s: string) { s == "" || s == "0" }

  /** `$field ?? ''`. */
  function OrEmpty(o: Option<string>): (r: string)
    ensures o.None? ==> r == ""
    ensures o.Some? ==> r == o.value
  {
    if o.Some? then o.value else ""
  }

  /** A field that is present and truthy (neither "" nor "0"). */
  predicate IsSet(o: Option<string>) {
    o.Some? && !Empty(o.value)
  }

  // ---------------------------------------------------------------------
  // Searching
  // ---------------------------------------------------------------------

  predicate StartsWith(s: string, p: string) { |p| <= |s| && s[..|p|] == p }

  /** `p` is not a prefix of `s` when they differ at some index. */
  lemma DifferAt(s: string, p: string, k: nat)
    requires k < |p| && k < |s| && s[k] != p[k]
    ensures !StartsWith(s, p)
  {
    if |p| <= |s| { assert s[..|p|][k] == s[k]; }
  }

  /** `p` occurs in `s` at position `i`. */
  predicate OccursAt(s: string, p: string, i: int) {
    0 <= i && i + |p| <= |s| && s[i..i + |p|] == p
  }

  /** Occurrences after the first character are the occurrences in the rest, shifted by one. */
  lemma OccursShiftAll(s: string, p: string)
    requires s != []
    ensures forall j :: 1 <= j <= |s| ==> (OccursAt(s, p, j) <==> OccursAt(s[1..], p, j - 1))
  {
    forall j | 1 <= j <= |s| ensures OccursAt(s, p, j) <==> OccursAt(s[1..], p, j - 1) {
      if j + |p| <= |s| {
        var t := s[1..];
        var u, v := s[j..j + |p|], t[j - 1..j - 1 + |p|];
        assert forall m :: 0 <= m < |p| ==> u[m] == v[m];
        assert u == v;
      }
    }
  }

  /** strpos: the first position at which `p` occurs in `s`. */
  function IndexOf(s: string, p: string): (r: Option<nat>)
    ensures r.Some? ==> OccursAt(s, p, r.value) &&
                        forall j :: 0 <= j < r.value ==> !OccursAt(s, p, j)
    ensures r.None? ==> forall j :: 0 <= j <= |s| ==> !OccursAt(s, p, j)
    decreases |s|
  {
    if |p| > |s| then None
    else if s[..|p|] == p then Some(0)
    else
      OccursShiftAll(s, p);
      match IndexOf(s[1..], p)
      case None => None
      case Some(k) =>
        Some(k + 1)
  }

  predicate Contains(s: string, p: string) { IndexOf(s, p).Some? }

  /** The first position of character `c` in `s`. */
  function IndexOfChar(s: string, c: char): (r: Option<nat>)
    ensures r.Some? ==> r.value < |s| && s[r.value] == c && c !in s[..r.value]
    ensures r.None? ==> c !in s
    decreases |s|
  {
    if s == [] then None
    else if s[0] == c then Some(0)
    else match IndexOfChar(s[1..], c)
      case None => None
      case Some(k) =>
        assert s[..k + 1] == [s[0]] + s[1..][..k];
        Some(k + 1)
  }

  // ---------------------------------------------------------------------
  // Decimal numbers
  // ---------------------------------------------------------------------

  predicate AllDigits(s: string) {
    forall i :: 0 <= i < |s| ==> IsDigit(s[i])
  }

  function DigitValue(c: char): (v: nat)
    requires IsDigit(c)
    ensures v < 10
  {
    c as int - '0' as int
  }

  function Digit(k: nat): (c: char)
    requires k < 10
    ensures IsDigit(c) && DigitValue(c) == k
  {
    ('0' as int + k) as char
  }

  /** The value of a string of decimal digits. */
  function Number(d: string): nat
    requires AllDigits(d)
    decreases |d|
  {
    if d == [] then 0 else 10 * Number(d[..|d| - 1]) + DigitValue(d[|d| - 1])
  }

  /** The decimal rendering of a natural number, most significant digit first. */
  function Decimal(n: nat): (d: string)
    ensures d != [] && AllDigits(d)
  {
    if n < 10 then [Digit(n)] else Decimal(n / 10) + [Digit(n % 10)]
  }

  lemma {:induction false} NumberDecimal(n: nat)
    ensures Number(Decimal(n)) == n
  {
    if n >= 10 {
      NumberDecimal(n / 10);
      var d := Decimal(n);
      assert d[..|d| - 1] == Decimal(n / 10);
    }
  }

  /** PHP's string conversion of an integer: an optional minus sign and the decimal digits. */
  function IntString(n: int): string {
    if n < 0 then "-" + Decimal(-n) else Decimal(n)
  }

  // ---------------------------------------------------------------------
  // Rewriting
  // ---------------------------------------------------------------------

  /** The string with every character failing `keep` deleted (`preg_replace('/[^...]/', '', s)`). */
  function Filter(s: string, keep: char -> bool): (r: string)
    ensures |r| <= |s|
    ensures forall c :: c in r ==> c in s && keep(c)
    decreases |s|
  {
    if s == [] then []
    else (if keep(s[0]) then [s[0]] else []) + Filter(s[1..], keep)
  }

  lemma {:induction false} FilterKeepsOnly(s: string, keep: char -> bool)
    ensures forall i :: 0 <= i < |Filter(s, keep)| ==> keep(Filter(s, keep)[i])
  {
    forall i | 0 <= i < |Filter(s, keep)| ensures keep(Filter(s, keep)[i]) {
      assert Filter(s, keep)[i] in Filter(s, keep);
    }
  }

  /** Filtering a second time with the same predicate deletes nothing more. */
  lemma {:induction false} FilterIdempotent(s: string, keep: char -> bool)
    ensures Filter(Filter(s, keep), keep) == Filter(s, keep)
    decreases |s|
  {
    if s != [] {
      FilterIdempotent(s[1..], keep);
      var t := Filter(s[1..], keep);
      if keep(s[0]) {
        var u := [s[0]] + t;
        assert Filter(s, keep) == u;
        assert u[0] == s[0] && u[1..] == t;
        assert Filter(u, keep) == [s[0]] + Filter(t, keep);
      } else {
        assert Filter(s, keep) == [] + t == t;
      }
    }
  }

  /** A string whose every character passes is left as it is. */
  lemma {:induction false} FilterKeepsAll(s: string, keep: char -> bool)
    requires forall i :: 0 <= i < |s| ==> keep(s[i])
    ensures Filter(s, keep) == s
    decreases |s|
  {
    if s != [] {
      FilterKeepsAll(s[1..], keep);
      assert [s[0]] + s[1..] == s;
    }
  }

  /** Deleting characters is local: filtering a concatenation filters each part. */
  lemma {:induction false} FilterConcat(a: string, b: string, keep: char -> bool)
    ensures Filter(a + b, keep) == Filter(a, keep) + Filter(b, keep)
    decreases |a|
  {
    if a == [] {
      assert a + b == b;
    } else {
      FilterConcat(a[1..], b, keep);
      assert (a + b)[0] == a[0];
      assert (a + b)[1..] == a[1..] + b;
      Assoc(if keep(a[0]) then [a[0]] else [], Filter(a[1..], keep), Filter(b, keep));
    }
  }

  /** A kept character occurs as often as in the input, a deleted one not at all. */
  lemma {:induction false} FilterCount(s: string, keep: char -> bool, c: char)
    ensures multiset(Filter(s, keep))[c] == if keep(c) then multiset(s)[c] else 0
    decreases |s|
  {
    if s != [] {
      FilterCount(s[1..], keep, c);
      assert s == [s[0]] + s[1..];
      assert multiset(s) == multiset([s[0]]) + multiset(s[1..]);
      var h := if keep(s[0]) then [s[0]] else [];
      assert multiset(Filter(s, keep)) == multiset(h) + multiset(Filter(s[1..], keep));
    }
  }

  /** Every character replaced through `f` (`str_replace` of single characters). */
  function MapChars(s: string, f: char -> char): (r: string)
    ensures |r| == |s|
    ensures forall i :: 0 <= i < |s| ==> r[i] == f(s[i])
  {
    seq(|s|, i requires 0 <= i < |s| => f(s[i]))
  }

  /** `str_replace(from, to, s)`: left-to-right, non-overlapping. An empty `from` changes nothing. */
  function Replace(s: string, from: string, to: string): (r: string)
    ensures from == [] ==> r == s
    ensures |from| > 0 && !Contains(s, from) ==> r == s
    decreases |s|
  {
    if from == [] || s == [] then s
    else if StartsWith(s, from) then to + Replace(s[|from|..], from, to)
    else [s[0]] + Replace(s[1..], from, to)
  }

  /** `trim($s, $chars)` for a set of characters given by a predicate. */
  function TrimLeft(s: string, strip: char -> bool): (r: string)
    ensures |r| <= |s| && r == s[|s| - |r|..]
    ensures r != [] ==> !strip(r[0])
    ensures forall i :: 0 <= i < |s| - |r| ==> strip(s[i])
    decreases |s|
  {
    if s != [] && strip(s[0]) then TrimLeft(s[1..], strip) else s
  }

  function TrimRight(s: string, strip: char -> bool): (r: string)
    ensures |r| <= |s| && r == s[..|r|]
    ensures r != [] ==> !strip(r[|r| - 1])
    ensures forall i :: |r| <= i < |s| ==> strip(s[i])
    decreases |s|
  {
    if s != [] && strip(s[|s| - 1]) then TrimRight(s[..|s| - 1], strip) else s
  }

  function TrimWith(s: string, strip: char -> bool): (r: string)
    ensures |r| <= |s|
    ensures r != [] ==> !strip(r[0]) && !strip(r[|r| - 1])
  {
    TrimRight(TrimLeft(s, strip), strip)
  }

  /** A string with no character to strip is its own trim. */
  lemma TrimWithNothingToStrip(s: string, strip: char -> bool)
    requires forall i :: 0 <= i < |s| ==> !strip(s[i])
    ensures TrimWith(s, strip) == s
  {
  }

  /** PHP `trim()` with its default character list. */
  function Trim(s: string): (r: string)
    ensures |r| <= |s|
    ensures r != [] ==> !IsTrimSpace(r[0]) && !IsTrimSpace(r[|r| - 1])
  {
    TrimWith(s, IsTrimSpace)
  }

  // ---------------------------------------------------------------------
  // strlen: the length of the UTF-8 encoding
  // ---------------------------------------------------------------------

  /** Bytes in the UTF-8 encoding of one code point. */
  function Utf8Width(c: char): (w: nat)
    ensures 1 <= w <= 4
    ensures w == 1 <==> c as int < 0x80
  {
    if c as int < 0x80 then 1
    else if c as int < 0x800 then 2
    else if c as int < 0x10000 then 3
    else 4
  }

  /** `strlen`: PHP counts bytes of the UTF-8 text, not characters. */
  function ByteLength(s: string): (n: nat)
    ensures |s| <= n <= 4 * |s|
    decreases |s|
  {
    if s == [] then 0 else Utf8Width(s[0]) + ByteLength(s[1..])
  }

  // ---------------------------------------------------------------------
  // explode / implode
  // ---------------------------------------------------------------------

  /** `explode(sep, s)` for a one-character separator. */
  function Explode(s: string, sep: char): (parts: seq<string>)
    ensures |parts| >= 1
    ensures forall k :: 0 <= k < |parts| ==> sep !in parts[k]
    decreases |s|
  {
    match IndexOfChar(s, sep)
    case None => [s]
    case Some(i) => [s[..i]] + Explode(s[i + 1..], sep)
  }

  /** `implode(sep, parts)`. */
  function Implode(parts: seq<string>, sep: string): (r: string)
  {
    if parts == [] then ""
    else if |parts| == 1 then parts[0]
    else parts[0] + sep + Implode(parts[1..], sep)
  }

  lemma {:induction false} ImplodeExplode(s: string, sep: char)
    ensures Implode(Explode(s, sep), [sep]) == s
    decreases |s|
  {
    match IndexOfChar(s, sep)
    case None =>
    case Some(i) =>
      var rest := Explode(s[i + 1..], sep);
      assert Explode(s, sep) == [s[..i]] + rest;
      ImplodeExplode(s[i + 1..], sep);
      assert Implode([s[..i]] + rest, [sep]) == s[..i] + [sep] + Implode(rest, [sep]) by {
        assert ([s[..i]] + rest)[1..] == rest;
      }
      assert s == s[..i] + [sep] + s[i + 1..];
  }

  /** Imploding two non-empty lists is imploding each, joined by the separator. */
  lemma {:induction false} ImplodeConcat(a: seq<string>, b: seq<string>, sep: string)
    requires a != [] && b != []
    ensures Implode(a + b, sep) == Implode(a, sep) + sep + Implode(b, sep)
    decreases |a|
  {
    assert (a + b)[0] == a[0];
    if |a| == 1 {
      assert (a + b)[1..] == b;
    } else {
      assert (a + b)[1..] == a[1..] + b;
      ImplodeConcat(a[1..], b, sep);
    }
  }

  /** A character absent from every part and from the separator is absent from the joined text. */
  lemma {:induction false} ImplodeKeepsAbsent(parts: seq<string>, sep: string, c: char)
    requires c !in sep && forall k :: 0 <= k < |parts| ==> c !in parts[k]
    ensures c !in Implode(parts, sep)
    decreases |parts|
  {
    if |parts| > 1 {
      ImplodeKeepsAbsent(parts[1..], sep, c);
    }
  }

  /** A character absent from the text is absent from every part. */
  lemma {:induction false} ExplodeKeepsAbsent(s: string, sep: char, c: char)
    requires c !in s
    ensures forall k :: 0 <= k < |Explode(s, sep)| ==> c !in Explode(s, sep)[k]
    decreases |s|
  {
    match IndexOfChar(s, sep)
    case None =>
    case Some(i) =>
      assert forall x :: x in s[..i] ==> x in s;
      assert forall x :: x in s[i + 1..] ==> x in s;
      ExplodeKeepsAbsent(s[i + 1..], sep, c);
      var rest := Explode(s[i + 1..], sep);
      assert forall k :: 1 <= k < |Explode(s, sep)| ==> Explode(s, sep)[k] == rest[k - 1];
  }

  // ---------------------------------------------------------------------
  // strcmp
  // ---------------------------------------------------------------------

  /** `strcmp(a, b) < 0`: code-point lexicographic order (UTF-8 byte order agrees). */
  predicate LexLess(a: string, b: string)
    decreases |a|
  {
    if a == [] then b != []
    else if b == [] then false
    else if a[0] != b[0] then a[0] < b[0]
    else LexLess(a[1..], b[1..])
  }

  /** `strcmp(a, b) <= 0` */
  predicate LexLessEq(a: string, b: string) { a == b || LexLess(a, b) }

  lemma {:induction false} LexTotal(a: string, b: string)
    ensures LexLessEq(a, b) || LexLessEq(b, a)
    decreases |a|
  {
    if a != [] && b != [] && a[0] == b[0] {
      LexTotal(a[1..], b[1..]);
      assert a == [a[0]] + a[1..];
      assert b == [b[0]] + b[1..];
      if a[1..] == b[1..] { assert a == b; }
    }
  }

  lemma {:induction false} LexTrans(a: string, b: string, c: string)
    requires LexLessEq(a, b) && LexLessEq(b, c)
    ensures LexLessEq(a, c)
    decreases |a|
  {
    if a == b || b == c {
    } else if a != [] && b != [] && c != [] && a[0] == b[0] && b[0] == c[0] {
      LexTrans(a[1..], b[1..], c[1..]);
      if a[1..] == c[1..] {
        assert a == [a[0]] + a[1..];
        assert c == [c[0]] + c[1..];
      }
    }
  }

  /** Concatenation is associative; stated once so that proofs can name the step. */
  lemma Assoc<T>(a: seq<T>, b: seq<T>, c: seq<T>)
    ensures a + (b + c) == a + b + c
  {
  }
}
