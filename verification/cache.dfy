/**
 * The page cache's bookkeeping (includes/CacheManager.php): the settings
 * read from config/cache.json, the duration in seconds, the size limit
 * parsed from a string such as "100MB", the request counters in
 * cache_stats.json with the status derived from them, and the cleanup
 * rule.  The JSON files and the cache directory are fields of a
 * `CacheManager`; the clock is a `now` parameter and whether deleting a
 * file succeeds is an `unlinked` parameter.
 */
module Cache {
  import opened Php
  import opened PhpArray

  // ---------------------------------------------------------------------
  // Configuration
  // ---------------------------------------------------------------------

  /** The keys of config/cache.json the core reads; an absent key is `None`. */
  datatype Config = Config(enabled: Option<bool>, duration: Option<int>, unit: Option<string>,
                           maxSize: Option<string>, threshold: Option<real>)

  /** The configuration written when config/cache.json does not exist. */
  const Defaults := Config(Some(true), Some(3600), Some("seconds"), Some("100MB"), Some(0.8))

  /** A file that exists but decodes to nothing (`json_decode(...) ?: []`). */
  const NoKeys := Config(None, None, None, None, None)

  /** `array_merge($config, $new)`: every key present in `n` wins. */
  function Merged(c: Config, n: Config): (r: Config)
    ensures n.enabled.Some? ==> r.enabled == n.enabled
    ensures n.enabled.None? ==> r.enabled == c.enabled
    ensures n.duration.Some? ==> r.duration == n.duration
    ensures n.duration.None? ==> r.duration == c.duration
    ensures n.unit.Some? ==> r.unit == n.unit
    ensures n.unit.None? ==> r.unit == c.unit
    ensures n.maxSize.Some? ==> r.maxSize == n.maxSize
    ensures n.maxSize.None? ==> r.maxSize == c.maxSize
    ensures n.threshold.Some? ==> r.threshold == n.threshold
    ensures n.threshold.None? ==> r.threshold == c.threshold
  {
    Config(if n.enabled.Some? then n.enabled else c.enabled,
           if n.duration.Some? then n.duration else c.duration,
           if n.unit.Some? then n.unit else c.unit,
           if n.maxSize.Some? then n.maxSize else c.maxSize,
           if n.threshold.Some? then n.threshold else c.threshold)
  }

  /** Merging nothing changes nothing, merging twice is merging once, and a later merge wins. */
  lemma MergeLaws(c: Config, a: Config, b: Config)
    ensures Merged(c, NoKeys) == c
    ensures Merged(Merged(c, a), a) == Merged(c, a)
    ensures Merged(Merged(c, a), b) == Merged(c, Merged(a, b))
  {
  }

  /** `isEnabled()`: `enabled ?? false`. */
  predicate IsEnabled(c: Config) {
    c.enabled.Some? && c.enabled.value
  }

  /** getCacheDuration: the duration in seconds, `cache_duration ?? 3600` in `cache_duration_unit ?? 'seconds'`. */
  function Duration(c: Config): (r: int)
  {
    var d := if c.duration.Some? then c.duration.value else 3600;
    var unit := if c.unit.Some? then c.unit.value else "seconds";
    if unit == "minutes" then d * 60
    else if unit == "hours" then d * 3600
    else if unit == "days" then d * 86400
    else d
  }

  /** The same span written in each unit gives the same number of seconds; a missing or unknown unit means seconds. */
  lemma DurationUnits(c: Config, d: int)
    ensures Duration(c.(duration := Some(d), unit := Some("minutes"))) == Duration(c.(duration := Some(60 * d), unit := Some("seconds")))
    ensures Duration(c.(duration := Some(d), unit := Some("hours"))) == Duration(c.(duration := Some(60 * d), unit := Some("minutes")))
    ensures Duration(c.(duration := Some(d), unit := Some("days"))) == Duration(c.(duration := Some(24 * d), unit := Some("hours")))
    ensures forall u :: u != "minutes" && u != "hours" && u != "days" ==>
      Duration(c.(duration := Some(d), unit := Some(u))) == d
    ensures Duration(c.(duration := Some(d), unit := None)) == d
    ensures Duration(c.(duration := None, unit := None)) == 3600
  {
  }

  // ---------------------------------------------------------------------
  // PHP's (int) cast of a string, and parseSize
  // ---------------------------------------------------------------------

  /** The length of the run of digits at the front of `s`. */
  function DigitRun(s: string): (k: nat)
    ensures k <= |s| && AllDigits(s[..k])
    ensures k < |s| ==> !IsDigit(s[k])
    decreases |s|
  {
    if s != [] && IsDigit(s[0]) then
      var k := DigitRun(s[1..]);
      assert s[..1 + k] == [s[0]] + s[1..][..k];
      1 + k
    else 0
  }

  /** The whitespace PHP skips before a number: " \t\n\r\v\f". */
  predicate IsCastSpace(c: char) {
    c == ' ' || c == '\t' || c == '\n' || c == '\r' || c == '\U{B}' || c == '\U{C}'
  }

  /** The value of the run of digits at the front of `s`. */
  function LeadingNumber(s: string): nat {
    Number(s[..DigitRun(s)])
  }

  /** The length of a sign `+` or `-` at the front of `s`. */
  function SignLength(s: string): (k: nat)
    ensures k <= |s|
    ensures k == 1 <==> s != [] && (s[0] == '+' || s[0] == '-')
  {
    if s != [] && (s[0] == '+' || s[0] == '-') then 1 else 0
  }

  function Pow10(e: nat): (p: nat)
    ensures p >= 1
  {
    if e == 0 then 1 else 10 * Pow10(e - 1)
  }

  /** The digits of a fraction `.ddd` at the front of `r`; empty when there is none. */
  function FractionDigits(r: string): (f: string)
    ensures AllDigits(f)
  {
    if r != [] && r[0] == '.' then r[1..][..DigitRun(r[1..])] else []
  }

  /** The text after that fraction. */
  function AfterFraction(r: string): string {
    if r != [] && r[0] == '.' then r[1..][DigitRun(r[1..])..] else r
  }

  /** An exponent `[eE][+-]?digits` at the front of `x`. */
  predicate HasExponent(x: string) {
    x != [] && (x[0] == 'e' || x[0] == 'E') && DigitRun(x[1..][SignLength(x[1..])..]) > 0
  }

  /** The value of that exponent; 0 when there is none. */
  function Exponent(x: string): int {
    if !HasExponent(x) then 0
    else
      var t := x[1..];
      var v := LeadingNumber(t[SignLength(t)..]);
      if t[0] == '-' then -(v as int) else v
  }

  /** whole.fraction × 10^e, exactly. */
  function NumeralValue(whole: string, fraction: string, e: int): (v: real)
    requires AllDigits(whole) && AllDigits(fraction)
    ensures v >= 0.0
  {
    var m := Number(whole) as real + Number(fraction) as real / Pow10(|fraction|) as real;
    if e >= 0 then m * Pow10(e) as real else m / Pow10(-e) as real
  }

  /**
   * The numeric prefix after the sign: digits, an optional fraction and an
   * optional exponent, truncated; 0 when it starts with neither a digit nor
   * `.` and a digit.
   */
  function UnsignedCast(u: string): (r: int)
    ensures r >= 0
  {
    var k := DigitRun(u);
    var rest := u[k..];
    var f := FractionDigits(rest);
    if k == 0 && f == [] then 0
    else NumeralValue(u[..k], f, Exponent(AfterFraction(rest))).Floor
  }

  /**
   * `(int)$s`: leading whitespace, an optional sign, then the numeric prefix
   * (the exponent form included), truncated toward zero; 0 when there is none.
   */
  function IntCast(s: string): (r: int)
  {
    var t := TrimLeft(s, IsCastSpace);
    if t != [] && t[0] == '-' then -UnsignedCast(t[1..])
    else if t != [] && t[0] == '+' then UnsignedCast(t[1..])
    else UnsignedCast(t)
  }

  /** Text that cannot continue a number: no digit, fraction point or exponent letter. */
  predicate EndsNumber(x: string) {
    x == [] || (!IsDigit(x[0]) && x[0] != '.' && x[0] != 'e' && x[0] != 'E')
  }

  lemma {:induction false} DigitRunStops(d: string, x: string)
    requires AllDigits(d)
    requires x == [] || !IsDigit(x[0])
    ensures DigitRun(d + x) == |d|
    decreases |d|
  {
    if d != [] {
      assert (d + x)[1..] == d[1..] + x;
      DigitRunStops(d[1..], x);
    }
  }

  /** Nothing is trimmed from a text whose first character is kept. */
  lemma TrimLeftKeeps(s: string, strip: char -> bool)
    requires s != [] && !strip(s[0])
    ensures TrimLeft(s, strip) == s
  {
  }

  /** The cast of a prefix whose digit run, fraction and rest are known. */
  lemma UnsignedParts(u: string, d: string, f: string, y: string)
    requires AllDigits(d) && d != [] && DigitRun(u) == |d| && u[..|d|] == d
    requires FractionDigits(u[|d|..]) == f && AfterFraction(u[|d|..]) == y
    ensures UnsignedCast(u) == NumeralValue(d, f, Exponent(y)).Floor
  {
  }

  lemma WholeValue(d: string)
    requires AllDigits(d)
    ensures NumeralValue(d, [], 0) == Number(d) as real
  {
    assert Number([]) == 0 && Pow10(0) == 1;
  }

  /** Digits followed by text that ends the number are read as those digits. */
  lemma UnsignedDigits(d: string, x: string)
    requires AllDigits(d) && d != [] && EndsNumber(x)
    ensures UnsignedCast(d + x) == Number(d)
  {
    var u := d + x;
    DigitRunStops(d, x);
    assert u[..|d|] == d && u[|d|..] == x;
    assert FractionDigits(x) == [] && AfterFraction(x) == x;
    assert !HasExponent(x);
    UnsignedParts(u, d, [], x);
    WholeValue(d);
  }

  /** The cast reads a run of digits, whatever text follows that cannot continue the number. */
  lemma IntCastDigits(d: string, x: string)
    requires AllDigits(d) && d != []
    requires EndsNumber(x)
    ensures IntCast(d + x) == Number(d)
  {
    var s := d + x;
    assert s[0] == d[0];
    TrimLeftKeeps(s, IsCastSpace);
    UnsignedDigits(d, x);
  }

  /** ... and with a minus sign in front, its negation. */
  lemma IntCastNegative(d: string, x: string)
    requires AllDigits(d) && d != []
    requires EndsNumber(x)
    ensures IntCast("-" + (d + x)) == -(Number(d) as int)
  {
    var m := "-" + (d + x);
    assert m[0] == '-' && m[1..] == d + x;
    TrimLeftKeeps(m, IsCastSpace);
    UnsignedDigits(d, x);
  }

  /** A fraction of n digits is less than 10^n. */
  lemma {:induction false} FractionBelowOne(f: string)
    requires AllDigits(f)
    ensures Number(f) < Pow10(|f|)
    decreases |f|
  {
    if f != [] {
      FractionBelowOne(f[..|f| - 1]);
    }
  }

  /** `.ddd` followed by `x` is the fraction `ddd` with `x` after it. */
  lemma FractionParts(f: string, x: string)
    requires AllDigits(f) && (x == [] || !IsDigit(x[0]))
    ensures FractionDigits("." + (f + x)) == f && AfterFraction("." + (f + x)) == x
  {
    var r := "." + (f + x);
    assert r[1..] == f + x;
    DigitRunStops(f, x);
    assert (f + x)[..|f|] == f && (f + x)[|f|..] == x;
  }

  /** A value with a fraction below one truncates to its whole part. */
  lemma FractionValue(d: string, f: string)
    requires AllDigits(d) && AllDigits(f)
    ensures NumeralValue(d, f, 0).Floor == Number(d)
  {
    FractionBelowOne(f);
    var p := Pow10(|f|) as real;
    var q := Number(f) as real / p;
    DivBelowOne(Number(f) as real, p);
    assert Pow10(0) == 1;
    var m := Number(d) as real + q;
    assert NumeralValue(d, f, 0) == m * 1.0;
    FloorOfWholePlus(Number(d), q);
  }

  lemma DivBelowOne(a: real, p: real)
    requires 0.0 <= a < p
    ensures 0.0 <= a / p < 1.0
  {
    assert a / p * p == a;
  }

  lemma FloorOfWholePlus(n: int, q: real)
    requires 0.0 <= q < 1.0
    ensures (n as real + q).Floor == n
  {
  }

  /** A fraction is dropped: "12.75" reads as 12. */
  lemma IntCastFraction(d: string, f: string, x: string)
    requires AllDigits(d) && d != [] && AllDigits(f)
    requires x == [] || (!IsDigit(x[0]) && x[0] != 'e' && x[0] != 'E')
    ensures IntCast(d + ("." + (f + x))) == Number(d)
  {
    var r := "." + (f + x);
    var s := d + r;
    assert s[0] == d[0];
    TrimLeftKeeps(s, IsCastSpace);
    assert r[0] == '.' && !IsDigit(r[0]);
    DigitRunStops(d, r);
    assert s[..|d|] == d && s[|d|..] == r;
    FractionParts(f, x);
    assert !HasExponent(x);
    UnsignedParts(s, d, f, x);
    FractionValue(d, f);
  }

  /** `E` followed by digits `e` and then `x` is the exponent `e`. */
  lemma ExponentParts(e: string, x: string)
    requires AllDigits(e) && e != [] && (x == [] || !IsDigit(x[0]))
    ensures Exponent("E" + (e + x)) == Number(e)
  {
    var r := "E" + (e + x);
    assert r[1..] == e + x;
    assert SignLength(e + x) == 0;
    assert (e + x)[0..] == e + x;
    DigitRunStops(e, x);
    assert (e + x)[..|e|] == e;
  }

  lemma ExponentValue(d: string, n: nat)
    requires AllDigits(d)
    ensures NumeralValue(d, [], n) == (Number(d) * Pow10(n)) as real
  {
    assert Number([]) == 0 && Pow10(0) == 1;
  }

  /** The exponent form is read: "1E3" is a thousand. */
  lemma IntCastExponent(d: string, e: string, x: string)
    requires AllDigits(d) && d != [] && AllDigits(e) && e != []
    requires x == [] || !IsDigit(x[0])
    ensures IntCast(d + ("E" + (e + x))) == Number(d) * Pow10(Number(e))
  {
    var r := "E" + (e + x);
    var s := d + r;
    assert s[0] == d[0];
    TrimLeftKeeps(s, IsCastSpace);
    DigitRunStops(d, r);
    assert s[..|d|] == d && s[|d|..] == r;
    assert FractionDigits(r) == [] && AfterFraction(r) == r;
    ExponentParts(e, x);
    UnsignedParts(s, d, [], r);
    ExponentValue(d, Number(e));
  }

  /** The cast reads back a rendered number. */
  lemma IntCastDecimal(n: nat, x: string)
    requires EndsNumber(x)
    ensures IntCast(Decimal(n) + x) == n
    ensures IntCast("-" + (Decimal(n) + x)) == -(n as int)
  {
    NumberDecimal(n);
    IntCastDigits(Decimal(n), x);
    IntCastNegative(Decimal(n), x);
  }

  const KB := 1024
  const MB := 1024 * 1024
  const GB := 1024 * 1024 * 1024

  /** parseSize: the text is trimmed and upper-cased, then read by `ParseUpper`. */
  function ParseSize(size: string): (r: int)
  {
    ParseUpper(Upper(Trim(size)))
  }

  /** The unit is found by looking for "KB", then "MB", then "GB"; every occurrence of it is removed before the cast. */
  function ParseUpper(s: string): (r: int)
  {
    if Contains(s, "KB") then IntCast(Replace(s, "KB", "")) * KB
    else if Contains(s, "MB") then IntCast(Replace(s, "MB", "")) * MB
    else if Contains(s, "GB") then IntCast(Replace(s, "GB", "")) * GB
    else IntCast(s)
  }

  lemma OccursContains(s: string, p: string, i: nat)
    requires OccursAt(s, p, i)
    ensures Contains(s, p)
  {
  }

  /** A text without the first letter of `p` does not contain `p`. */
  lemma AbsentLetter(s: string, p: string)
    requires p != [] && p[0] !in s
    ensures !Contains(s, p)
  {
    forall j | 0 <= j <= |s| ensures !OccursAt(s, p, j) {
      if j + |p| <= |s| {
        assert s[j..j + |p|][0] == s[j];
      }
    }
  }

  /** Removing a unit that follows a run of digits leaves the digits. */
  lemma {:induction false} ReplaceUnit(d: string, u: string)
    requires AllDigits(d) && u != [] && !IsDigit(u[0])
    ensures Replace(d + u, u, "") == d
    decreases |d|
  {
    if d == [] {
      assert d + u == u;
      assert u[|u|..] == [];
    } else {
      DifferAt(d + u, u, 0);
      assert (d + u)[1..] == d[1..] + u;
      ReplaceUnit(d[1..], u);
      assert d == [d[0]] + d[1..];
    }
  }

  predicate NoTrimSpace(s: string) {
    forall i :: 0 <= i < |s| ==> !IsTrimSpace(s[i])
  }

  lemma UpperConcat(a: string, b: string)
    ensures Upper(a + b) == Upper(a) + Upper(b)
  {
    assert forall i :: 0 <= i < |a + b| ==> Upper(a + b)[i] == (Upper(a) + Upper(b))[i];
  }

  lemma UpperDigits(d: string)
    requires AllDigits(d)
    ensures Upper(d) == d
  {
    assert forall i :: 0 <= i < |d| ==> Upper(d)[i] == d[i];
  }

  /** Digits followed by text without trimmable space: trim() leaves it and strtoupper() changes only the text. */
  lemma ParseSizeSplit(d: string, u: string)
    requires AllDigits(d) && NoTrimSpace(u)
    ensures ParseSize(d + u) == ParseUpper(d + Upper(u))
  {
    var s := d + u;
    forall i | 0 <= i < |s| ensures !IsTrimSpace(s[i]) {
      if i < |d| { assert s[i] == d[i]; } else { assert s[i] == u[i - |d|]; }
    }
    TrimWithNothingToStrip(s, IsTrimSpace);
    UpperConcat(d, u);
    UpperDigits(d);
  }

  /** The unit is found after the digits and removing it leaves the digits. */
  lemma FoundUnit(d: string, u: string)
    requires AllDigits(d) && d != [] && u != [] && !IsDigit(u[0])
    ensures Contains(d + u, u)
    ensures IntCast(Replace(d + u, u, "")) == Number(d)
  {
    assert (d + u)[|d|..|d| + |u|] == u;
    OccursContains(d + u, u, |d|);
    ReplaceUnit(d, u);
    assert d + [] == d;
    IntCastDigits(d, []);
  }

  /** `d + x` holds a letter only if `x` does. */
  lemma NoLetter(d: string, x: string, c: char)
    requires AllDigits(d) && c !in x && !IsDigit(c)
    ensures c !in d + x
  {
    forall i | 0 <= i < |d + x| ensures (d + x)[i] != c {
      if i < |d| { assert (d + x)[i] == d[i]; } else { assert (d + x)[i] == x[i - |d|]; }
    }
  }

  lemma ParseUpperKB(d: string)
    requires AllDigits(d) && d != []
    ensures ParseUpper(d + "KB") == Number(d) * KB
  {
    FoundUnit(d, "KB");
  }

  lemma ParseUpperMB(d: string)
    requires AllDigits(d) && d != []
    ensures ParseUpper(d + "MB") == Number(d) * MB
  {
    FoundUnit(d, "MB");
    NoLetter(d, "MB", 'K');
    AbsentLetter(d + "MB", "KB");
  }

  lemma ParseUpperGB(d: string)
    requires AllDigits(d) && d != []
    ensures ParseUpper(d + "GB") == Number(d) * GB
  {
    FoundUnit(d, "GB");
    NoLetter(d, "GB", 'K');
    AbsentLetter(d + "GB", "KB");
    NoLetter(d, "GB", 'M');
    AbsentLetter(d + "GB", "MB");
  }

  /** Digits followed by text without K, M or G are bytes. */
  lemma ParseUpperNoUnit(d: string, x: string)
    requires AllDigits(d) && d != []
    requires EndsNumber(x)
    requires 'K' !in x && 'M' !in x && 'G' !in x
    ensures ParseUpper(d + x) == Number(d)
  {
    NoLetter(d, x, 'K');
    AbsentLetter(d + x, "KB");
    NoLetter(d, x, 'M');
    AbsentLetter(d + x, "MB");
    NoLetter(d, x, 'G');
    AbsentLetter(d + x, "GB");
    IntCastDigits(d, x);
  }

  /** "<n>KB" is n kibibytes, whatever the case of the unit. */
  lemma ParseSizeKB(n: nat)
    ensures ParseSize(Decimal(n) + "KB") == n * KB
    ensures ParseSize(Decimal(n) + "kb") == n * KB
  {
    var d := Decimal(n);
    NumberDecimal(n);
    assert NoTrimSpace("KB") && NoTrimSpace("kb");
    assert Upper("kb") == "KB" && Upper("KB") == "KB";
    ParseSizeSplit(d, "KB");
    ParseSizeSplit(d, "kb");
    ParseUpperKB(d);
  }

  /** "<n>MB" is n mebibytes, whatever the case of the unit. */
  lemma ParseSizeMB(n: nat)
    ensures ParseSize(Decimal(n) + "MB") == n * MB
    ensures ParseSize(Decimal(n) + "mb") == n * MB
  {
    var d := Decimal(n);
    NumberDecimal(n);
    assert NoTrimSpace("MB") && NoTrimSpace("mb");
    assert Upper("mb") == "MB" && Upper("MB") == "MB";
    ParseSizeSplit(d, "MB");
    ParseSizeSplit(d, "mb");
    ParseUpperMB(d);
  }

  /** "<n>GB" is n gibibytes, whatever the case of the unit. */
  lemma ParseSizeGB(n: nat)
    ensures ParseSize(Decimal(n) + "GB") == n * GB
    ensures ParseSize(Decimal(n) + "gb") == n * GB
  {
    var d := Decimal(n);
    NumberDecimal(n);
    assert NoTrimSpace("GB") && NoTrimSpace("gb");
    assert Upper("gb") == "GB" && Upper("GB") == "GB";
    ParseSizeSplit(d, "GB");
    ParseSizeSplit(d, "gb");
    ParseUpperGB(d);
  }

  /** A bare number is bytes. */
  lemma ParseSizeBytes(n: nat)
    ensures ParseSize(Decimal(n)) == n
  {
    var d := Decimal(n);
    NumberDecimal(n);
    ParseSizeSplit(d, "");
    assert d + "" == d && Upper("") == "";
    ParseUpperNoUnit(d, "");
  }

  lemma UnknownUnitText()
    ensures NoTrimSpace("TB") && Upper("TB") == "TB"
    ensures !IsDigit("TB"[0]) && 'K' !in "TB" && 'M' !in "TB" && 'G' !in "TB"
  {
  }

  /** A unit the code does not know, such as "TB", is ignored: the number is read as bytes. */
  lemma ParseSizeUnknownUnit(n: nat)
    ensures ParseSize(Decimal(n) + "TB") == n
  {
    var d := Decimal(n);
    NumberDecimal(n);
    UnknownUnitText();
    ParseSizeSplit(d, "TB");
    ParseUpperNoUnit(d, "TB");
  }

  /** Removing a unit from the end of a text that holds no first letter of the unit leaves the text. */
  lemma {:induction false} ReplaceTrailingUnit(p: string, u: string)
    requires u != [] && u[0] !in p
    ensures Replace(p + u, u, "") == p
    decreases |p|
  {
    if p == [] {
      assert p + u == u;
      assert u[|u|..] == [];
    } else {
      DifferAt(p + u, u, 0);
      assert (p + u)[1..] == p[1..] + u;
      ReplaceTrailingUnit(p[1..], u);
      assert p == [p[0]] + p[1..];
    }
  }

  /** The letters of "<d>E<e>" are not those of a unit. */
  lemma ExponentLetters(d: string, e: string, c: char)
    requires AllDigits(d) && AllDigits(e) && !IsDigit(c) && c != 'E'
    ensures c !in d + ("E" + e)
  {
    var p := d + ("E" + e);
    forall i | 0 <= i < |p| ensures p[i] != c {
      if i < |d| { assert p[i] == d[i]; }
      else if i > |d| { assert p[i] == e[i - |d| - 1]; }
    }
  }

  /** "<d>E<e>MB" is d × 10^e mebibytes. */
  lemma ParseUpperExponent(d: string, e: string)
    requires AllDigits(d) && d != [] && AllDigits(e) && e != []
    ensures ParseUpper(d + ("E" + e) + "MB") == Number(d) * Pow10(Number(e)) * MB
  {
    var p := d + ("E" + e);
    var s := p + "MB";
    ExponentLetters(d, e, 'K');
    NoLetter([], s, 'K');
    assert [] + s == s;
    AbsentLetter(s, "KB");
    assert s[|p|..|p| + 2] == "MB";
    OccursContains(s, "MB", |p|);
    ExponentLetters(d, e, 'M');
    ReplaceTrailingUnit(p, "MB");
    assert p == d + ("E" + (e + []));
    IntCastExponent(d, e, []);
  }

  /** The unit text after the number: an exponent letter, digits, "MB". */
  lemma ExponentUnitText(e: string)
    requires AllDigits(e)
    ensures NoTrimSpace("e" + e + "MB")
    ensures Upper("e" + e + "MB") == "E" + e + "MB"
  {
    var u := "e" + e + "MB";
    forall i | 0 <= i < |u| ensures !IsTrimSpace(u[i]) {
      if 1 <= i < 1 + |e| { assert u[i] == e[i - 1]; }
    }
    assert Upper("e") == "E" && Upper("MB") == "MB";
    UpperConcat("e", e);
    UpperConcat("e" + e, "MB");
    UpperDigits(e);
  }

  /** The exponent form counts: "<n>e<k>MB" is n × 10^k mebibytes, so "1e3MB" is a thousand. */
  lemma ParseSizeExponent(n: nat, k: nat)
    ensures ParseSize(Decimal(n) + ("e" + Decimal(k)) + "MB") == n * Pow10(k) * MB
  {
    var d := Decimal(n);
    var e := Decimal(k);
    ExponentUnitText(e);
    ParseSizeSplit(d, "e" + e + "MB");
    Assoc(d, "e" + e, "MB");
    Assoc(d, "E" + e, "MB");
    NumberDecimal(n);
    NumberDecimal(k);
    ParseUpperExponent(d, e);
  }

  // ---------------------------------------------------------------------
  // Statistics and status
  // ---------------------------------------------------------------------

  /** The counters of cache_stats.json with its two dates. */
  datatype Stats = Stats(total: nat, hits: nat, misses: nat, lastCleared: string, createdAt: string)

  /** Every request is either a hit or a miss. */
  predicate Balanced(s: Stats) {
    s.total == s.hits + s.misses
  }

  /** initializeStats: every counter 0, both dates `now`. */
  function Initial(now: string): (r: Stats)
    ensures Balanced(r) && r.total == 0
  {
    Stats(0, 0, 0, now, now)
  }

  /** recordHit: one more request and one more hit. */
  function Hit(s: Stats): (r: Stats)
    ensures Balanced(s) ==> Balanced(r)
    ensures r.total == s.total + 1 && r.misses == s.misses
  {
    s.(total := s.total + 1, hits := s.hits + 1)
  }

  /** recordMiss: one more request and one more miss. */
  function Miss(s: Stats): (r: Stats)
    ensures Balanced(s) ==> Balanced(r)
    ensures r.total == s.total + 1 && r.hits == s.hits
  {
    s.(total := s.total + 1, misses := s.misses + 1)
  }

  /**
   * The `hit_rate` of getStats, in hundredths of a percent: the
   * percentage of hits rounded half up to two decimals, 0 without requests.
   */
  function RateHundredths(s: Stats): (r: nat)
    ensures s.total == 0 ==> r == 0
    ensures s.total > 0 ==> 2 * s.total * r <= 20000 * s.hits + s.total < 2 * s.total * (r + 1)
  {
    if s.total > 0 then
      var q := (20000 * s.hits + s.total) / (2 * s.total);
      DivBounds(20000 * s.hits + s.total, 2 * s.total);
      q
    else 0
  }

  lemma DivBounds(x: nat, y: nat)
    requires y > 0
    ensures y * (x / y) <= x < y * (x / y + 1)
  {
  }

  /** `x / y >= k` exactly when `x >= k * y`. */
  lemma DivAtLeast(x: nat, y: nat, k: int)
    requires y > 0
    ensures x / y >= k <==> x >= k * y
  {
    DivBounds(x, y);
    var q := x / y;
    if q >= k {
      assert y * q >= y * k;
    } else {
      assert q + 1 <= k;
      assert y * (q + 1) <= y * k;
    }
  }

  lemma MulCancel(x: int, y: int, d: int)
    requires d > 0 && x * d >= y * d
    ensures x >= y
  {
  }

  /** A floor quotient grows with its fraction. */
  lemma DivMonotone(a: nat, b: nat, c: nat, d: nat)
    requires b > 0 && d > 0 && a * d >= c * b
    ensures a / b >= c / d
  {
    var q := c / d;
    DivBounds(c, d);
    assert c * b >= (d * q) * b;
    assert a * d >= (q * b) * d;
    MulCancel(a, q * b, d);
    DivAtLeast(a, b, q);
  }

  datatype Status = Disabled | NoActivity | Excellent | Good | Fair | Poor

  /** getCacheStatus: by the rounded hit rate, with thresholds 80, 60 and 40 percent. */
  function StatusOf(enabled: bool, s: Stats): (r: Status)
    ensures r == Disabled <==> !enabled
    ensures r == NoActivity <==> enabled && s.total == 0
  {
    if !enabled then Disabled
    else if s.total == 0 then NoActivity
    else
      var rate := RateHundredths(s);
      if rate >= 8000 then Excellent
      else if rate >= 6000 then Good
      else if rate >= 4000 then Fair
      else Poor
  }

  /**
   * The status in terms of the exact hit ratio: a percentage that rounds
   * to 80.00 or more is Excellent, so 79.995% already is.
   */
  lemma StatusByRatio(s: Stats)
    requires s.total > 0
    ensures StatusOf(true, s) == Excellent <==> 20000 * s.hits >= 15999 * s.total
    ensures StatusOf(true, s) == Good <==> 15999 * s.total > 20000 * s.hits >= 11999 * s.total
    ensures StatusOf(true, s) == Fair <==> 11999 * s.total > 20000 * s.hits >= 7999 * s.total
    ensures StatusOf(true, s) == Poor <==> 7999 * s.total > 20000 * s.hits
  {
    var x := 20000 * s.hits + s.total;
    var y := 2 * s.total;
    DivAtLeast(x, y, 8000);
    DivAtLeast(x, y, 6000);
    DivAtLeast(x, y, 4000);
  }

  /** A hit never lowers the hit rate. */
  lemma HitRaisesRate(s: Stats)
    requires s.hits <= s.total
    ensures RateHundredths(Hit(s)) >= RateHundredths(s)
  {
    var h, t := s.hits, s.total;
    if t > 0 {
      var c, d := 20000 * h + t, 2 * t;
      var a, b := c + 20001, d + 2;
      assert a * d == c * d + 20001 * d;
      assert c * b == c * d + 2 * c;
      DivMonotone(a, b, c, d);
    }
  }

  /** A miss never raises the hit rate. */
  lemma MissLowersRate(s: Stats)
    requires s.hits <= s.total
    ensures RateHundredths(Miss(s)) <= RateHundredths(s)
  {
    var h, t := s.hits, s.total;
    if t > 0 {
      var c, d := 20000 * h + t, 2 * t;
      var e, b := c + 1, d + 2;
      assert c * b == c * d + 2 * c;
      assert e * d == c * d + d;
      DivMonotone(c, d, e, b);
    }
  }

  // ---------------------------------------------------------------------
  // Cache size and cleanup
  // ---------------------------------------------------------------------

  /** A file under the cache directory: its base name and size in bytes. */
  datatype CacheFile = CacheFile(name: string, size: nat)

  const StatsName := "cache_stats.json"

  /** getCacheSizeBytes: the sizes of all files except the statistics file. */
  function SizeOf(files: seq<CacheFile>): nat
    decreases |files|
  {
    if files == [] then 0
    else
      var f := files[|files| - 1];
      SizeOf(files[..|files| - 1]) + (if f.name == StatsName then 0 else f.size)
  }

  /** The statistics file adds nothing, wherever it is. */
  lemma {:induction false} SizeOfOnlyStats(files: seq<CacheFile>)
    requires forall i :: 0 <= i < |files| ==> files[i].name == StatsName
    ensures SizeOf(files) == 0
    decreases |files|
  {
    if files != [] {
      SizeOfOnlyStats(files[..|files| - 1]);
    }
  }

  /** The scan of getCacheSizeBytes. */
  method CacheSizeBytes(files: seq<CacheFile>) returns (size: nat)
    ensures size == SizeOf(files)
  {
    size := 0;
    var k := 0;
    while k < |files|
      invariant 0 <= k <= |files|
      invariant size == SizeOf(files[..k])
    {
      assert files[..k + 1][..k] == files[..k];
      if files[k].name != StatsName {
        size := size + files[k].size;
      }
      k := k + 1;
    }
    assert files[..k] == files;
  }

  /** A file survives clearCache when it is the statistics file or deleting it fails. */
  predicate KeptOnClear(unlinked: CacheFile -> bool, f: CacheFile) {
    f.name == StatsName || !unlinked(f)
  }

  function KeepOnClear(unlinked: CacheFile -> bool): CacheFile -> bool {
    f => KeptOnClear(unlinked, f)
  }

  /** After a clear in which every deletion succeeds, the cache occupies no space. */
  lemma ClearedIsEmpty(files: seq<CacheFile>, unlinked: CacheFile -> bool)
    requires forall f :: unlinked(f)
    ensures SizeOf(FilterSeq(files, KeepOnClear(unlinked))) == 0
  {
    var r := FilterSeq(files, KeepOnClear(unlinked));
    FilterSeqMembers(files, KeepOnClear(unlinked));
    assert forall i :: 0 <= i < |r| ==> r[i] in r;
    SizeOfOnlyStats(r);
  }

  /** The deletion loop of clearCache: the files left behind and the number deleted. */
  method ClearFiles(files: seq<CacheFile>, unlinked: CacheFile -> bool) returns (kept: seq<CacheFile>, cleared: nat)
    ensures kept == FilterSeq(files, KeepOnClear(unlinked))
    ensures cleared == |files| - |kept|
  {
    kept := [];
    cleared := 0;
    var k := 0;
    while k < |files|
      invariant 0 <= k <= |files|
      invariant kept == FilterSeq(files[..k], KeepOnClear(unlinked))
      invariant cleared + |kept| == k
    {
      FilterSeqSnoc(files, k, KeepOnClear(unlinked));
      if files[k].name != StatsName && unlinked(files[k]) {
        cleared := cleared + 1;
      } else {
        kept := kept + [files[k]];
      }
      k := k + 1;
    }
    assert files[..k] == files;
  }

  /** The outcome of needsCleanup: a decision, or the division by a limit that parses to 0. */
  datatype Cleanup = Cleanup(needed: bool) | DivisionByZero

  /** `cache_max_size ?? '100MB'` in bytes. */
  function MaxBytes(c: Config): int {
    ParseSize(if c.maxSize.Some? then c.maxSize.value else "100MB")
  }

  /** `cache_cleanup_threshold ?? 0.8`. */
  function Threshold(c: Config): real {
    if c.threshold.Some? then c.threshold.value else 0.8
  }

  /** needsCleanup: off when disabled; otherwise whether the used fraction of the limit exceeds the threshold. */
  function NeedsCleanup(c: Config, currentSize: nat): (r: Cleanup)
    ensures !IsEnabled(c) ==> r == Cleanup(false)
    ensures r == DivisionByZero <==> IsEnabled(c) && MaxBytes(c) == 0
  {
    if !IsEnabled(c) then Cleanup(false)
    else
      var max := MaxBytes(c);
      if max == 0 then DivisionByZero
      else Cleanup(currentSize as real / max as real > Threshold(c))
  }

  /** For a positive divisor, `x / m > t` is `x > t * m`. */
  lemma RealDivAbove(x: real, m: real, t: real)
    requires m > 0.0
    ensures x / m > t <==> x > t * m
  {
    var q := x / m;
    assert q * m == x;
    assert (q - t) * m == x - t * m;
  }

  /** With a positive limit, cleanup is due exactly when the size exceeds threshold × limit. */
  lemma CleanupCrossMultiplied(c: Config, currentSize: nat)
    requires IsEnabled(c) && MaxBytes(c) > 0
    ensures NeedsCleanup(c, currentSize) == Cleanup(currentSize as real > Threshold(c) * MaxBytes(c) as real)
  {
    RealDivAbove(currentSize as real, MaxBytes(c) as real, Threshold(c));
  }

  /** The default limit "100MB" is 104857600 bytes. */
  lemma DefaultMaxBytes()
    ensures MaxBytes(Defaults) == 104857600
  {
    assert Decimal(100) == "100" by {
      assert Digit(0) == '0' && Digit(1) == '1';
      assert Decimal(10) == "10";
    }
    assert Decimal(100) + "MB" == "100MB";
    ParseSizeMB(100);
  }

  /** With the default settings the cache is cleaned once it holds more than 80 MiB (83886080 bytes). */
  lemma DefaultCleanupPoint(currentSize: nat)
    ensures NeedsCleanup(Defaults, currentSize) == Cleanup(currentSize > 83886080)
  {
    DefaultMaxBytes();
    CleanupCrossMultiplied(Defaults, currentSize);
  }

  /** A config file that decodes to nothing disables the cache, although the duration keeps its default. */
  lemma UndecodableConfigDisables(s: Stats, currentSize: nat)
    ensures !IsEnabled(NoKeys)
    ensures StatusOf(IsEnabled(NoKeys), s) == Disabled
    ensures NeedsCleanup(NoKeys, currentSize) == Cleanup(false)
    ensures Duration(NoKeys) == Duration(Defaults) == 3600
  {
  }

  // ---------------------------------------------------------------------
  // The manager
  // ---------------------------------------------------------------------

  class CacheManager {
    var config: Config
    var stats: Stats
    var files: seq<CacheFile>

    /**
     * The constructor: config/cache.json as decoded (the defaults when the
     * file does not exist), and fresh statistics when cache_stats.json is
     * missing.
     */
    constructor (storedConfig: Option<Config>, storedStats: Option<Stats>, dir: seq<CacheFile>, now: string)
      ensures config == if storedConfig.Some? then storedConfig.value else Defaults
      ensures stats == if storedStats.Some? then storedStats.value else Initial(now)
      ensures files == dir
    {
      config := if storedConfig.Some? then storedConfig.value else Defaults;
      stats := if storedStats.Some? then storedStats.value else Initial(now);
      files := dir;
    }

    /** updateConfig: the given keys overwrite the stored ones. */
    method UpdateConfig(n: Config)
      modifies this
      ensures config == Merged(old(config), n)
      ensures stats == old(stats) && files == old(files)
    {
      config := Merged(config, n);
    }

    method RecordHit()
      modifies this
      ensures stats == Hit(old(stats))
      ensures Balanced(old(stats)) ==> Balanced(stats)
      ensures config == old(config) && files == old(files)
    {
      stats := stats.(total := stats.total + 1, hits := stats.hits + 1);
    }

    method RecordMiss()
      modifies this
      ensures stats == Miss(old(stats))
      ensures Balanced(old(stats)) ==> Balanced(stats)
      ensures config == old(config) && files == old(files)
    {
      stats := stats.(total := stats.total + 1, misses := stats.misses + 1);
    }

    /** clearCacheStats: every counter back to 0; always true. */
    method ClearCacheStats(now: string) returns (ok: bool)
      modifies this
      ensures ok && stats == Initial(now)
      ensures stats.total == 0 && stats.hits == 0 && stats.misses == 0
      ensures config == old(config) && files == old(files)
    {
      stats := Stats(0, 0, 0, now, now);
      ok := true;
    }

    /**
     * clearCache: delete every file but the statistics file, count the
     * deletions that succeed, and stamp `last_cleared`.
     */
    method ClearCache(unlinked: CacheFile -> bool, now: string) returns (cleared: nat)
      modifies this
      ensures files == FilterSeq(old(files), KeepOnClear(unlinked))
      ensures cleared == |old(files)| - |files|
      ensures stats == old(stats).(lastCleared := now)
      ensures config == old(config)
    {
      var kept;
      kept, cleared := ClearFiles(files, unlinked);
      files := kept;
      stats := stats.(lastCleared := now);
    }

    /** autoCleanup: clear when needsCleanup says so; the division by zero propagates. */
    method AutoCleanup(unlinked: CacheFile -> bool, now: string) returns (r: Cleanup)
      modifies this
      ensures r == NeedsCleanup(old(config), SizeOf(old(files)))
      ensures r == Cleanup(true) ==> files == FilterSeq(old(files), KeepOnClear(unlinked)) &&
                                     stats == old(stats).(lastCleared := now)
      ensures r != Cleanup(true) ==> files == old(files) && stats == old(stats)
      ensures config == old(config)
    {
      var size := CacheSizeBytes(files);
      r := NeedsCleanup(config, size);
      if r == Cleanup(true) {
        var _ := ClearCache(unlinked, now);
      }
    }
  }
}
