/**
 * The theme-template brace normaliser (fix_over_braces.py): nine `re.sub`
 * rewrites applied in a fixed order, and a file write that happens only
 * when the text changed.
 *
 * Every pattern has the shape  PREFIX [\s+] ( LEAD [^}]+ ) SUFFIX  or is a
 * plain literal.  Because SUFFIX starts with '}' and `[^}]+` cannot cross a
 * '}', the greedy group always ends at the first '}' after it, so a Python
 * match is deterministic and is computed directly below (`MatchAt`).
 *
 * In Python's regex syntax `\{5}` is an escaped '{' followed by the
 * characters "5}", i.e. the literal text "{5}"; only `\}{5}` is a repeat
 * ("}}}}}").  `AsWrittenRules` models the patterns as the file writes them;
 * `IntendedRules` uses the brace counts its comments describe.
 */
module BraceFixer {
  import opened Php

  /** Python's `\s` on str patterns: the characters for which `str.isspace()` holds. */
  predicate IsPySpace(c: char) {
    c == ' ' || ('\t' <= c <= '\r') || ('\U{1C}' <= c <= '\U{1F}') ||
    c == '\U{85}' || c == '\U{A0}' || c == '\U{1680}' || ('\U{2000}' <= c <= '\U{200A}') ||
    c == '\U{2028}' || c == '\U{2029}' || c == '\U{202F}' || c == '\U{205F}' || c == '\U{3000}'
  }

  /** One substitution of the chain. */
  datatype Rule =
      /** a pattern without a group, replaced by a constant */
    | Fixed(text: string, replacement: string)
      /** prefix, `\s+` when `spaces`, the group `lead [^}]+`, suffix; replaced by open + group + close */
    | Group(prefix: string, spaces: bool, lead: string, suffix: string, open: string, close: string)

  predicate WellFormed(r: Rule) {
    match r
    case Fixed(t, _) => |t| > 0
    case Group(p, sp, l, sf, _, _) =>
      |p| > 0 && |sf| > 0 && sf[0] == '}' && '}' !in l && !(sp && l != [])
  }

  /** The literal text every match of `r` starts with. */
  function Prefix(r: Rule): string {
    match r
    case Fixed(t, _) => t
    case Group(p, _, _, _, _, _) => p
  }

  datatype Match = Match(len: nat, replacement: string, group: string)

  /** Length of the longest leading run of `s` without '}' (what `[^}]+` can take). */
  function RunLen(s: string): (n: nat)
    ensures n <= |s|
    ensures forall j :: 0 <= j < n ==> s[j] != '}'
    ensures n < |s| ==> s[n] == '}'
    decreases |s|
  {
    if s == [] || s[0] == '}' then 0 else 1 + RunLen(s[1..])
  }

  /** Length of the longest leading run of `s` matched by `\s`. */
  function SpaceLen(s: string): (n: nat)
    ensures n <= |s|
    ensures forall j :: 0 <= j < n ==> IsPySpace(s[j])
    ensures n < |s| ==> !IsPySpace(s[n])
    decreases |s|
  {
    if s == [] || !IsPySpace(s[0]) then 0 else 1 + SpaceLen(s[1..])
  }

  /**
   * Where the group starts inside `t` (the text after the prefix), given the
   * run length `n`: right away without `\s+`; otherwise after the greedy
   * whitespace, giving one space back when nothing else is left for `[^}]+`.
   */
  function GroupStart(t: string, n: nat, spaces: bool): (start: Option<nat>)
    requires n == RunLen(t)
    ensures start.Some? && spaces ==> 0 < start.value < n
    ensures !spaces ==> start == Some(0)
  {
    if !spaces then Some(0)
    else
      var w := SpaceLen(t);
      assert n < |t| ==> !IsPySpace(t[n]);
      if w == 0 then None
      else if w < n then Some(w)
      else if w >= 2 then Some(w - 1)
      else None
  }

  /** The match of `r` at the start of `s`, if any. */
  function MatchAt(r: Rule, s: string): (m: Option<Match>)
    requires WellFormed(r)
    ensures m.Some? ==> 0 < m.value.len <= |s| && StartsWith(s, Prefix(r))
    ensures m.Some? && r.Fixed? ==> m.value.replacement == r.replacement && m.value.len == |r.text|
    ensures m.Some? && r.Group? ==>
      m.value.replacement == r.open + m.value.group + r.close &&
      StartsWith(m.value.group, r.lead) && |m.value.group| > |r.lead| &&
      '}' !in m.value.group
  {
    match r
    case Fixed(text, rep) =>
      if StartsWith(s, text) then Some(Match(|text|, rep, "")) else None
    case Group(p, sp, l, sf, o, c) =>
      if !StartsWith(s, p) then None
      else
        var t := s[|p|..];
        var n := RunLen(t);
        match GroupStart(t, n, sp)
        case None => None
        case Some(start) =>
          var g := t[start..n];
          if StartsWith(g, l) && |g| > |l| && StartsWith(t[n..], sf) then
            assert forall j :: 0 <= j < |g| ==> g[j] == t[start + j];
            Some(Match(|p| + n + |sf|, o + g + c, g))
          else None
  }

  /**
   * Python's `re.sub(pattern, repl, s)`: scan left to right, replace each
   * non-overlapping match.  (A match always starts with the rule's prefix,
   * so testing the prefix first changes nothing.)
   */
  function Sub(r: Rule, s: string): string
    requires WellFormed(r)
    decreases |s|
  {
    if s == [] then []
    else if !StartsWith(s, Prefix(r)) then [s[0]] + Sub(r, s[1..])
    else match MatchAt(r, s)
      case Some(m) => m.replacement + Sub(r, s[m.len..])
      case None => [s[0]] + Sub(r, s[1..])
  }

  predicate AllWellFormed(rules: seq<Rule>) {
    forall i :: 0 <= i < |rules| ==> WellFormed(rules[i])
  }

  /** The rules applied one after another, in list order. */
  function Apply(rules: seq<Rule>, s: string): string
    requires AllWellFormed(rules)
    decreases |rules|
  {
    if rules == [] then s else Apply(rules[1..], Sub(rules[0], s))
  }

  /**
   * The chain of fix_over_braces.py, parameterised by the text its patterns
   * use for five, three and four opening braces.
   */
  function Rules(five: string, three: string, four: string): seq<Rule> {
    var ifRule := Group(five + "#if", true, "", "}}}}}", "{{#if ", "}}");
    [ ifRule,
      Fixed(five + "/if}}}}}", "{{/if}}"),
      Group(five + "#each", true, "", "}}}}}", "{{#each ", "}}"),
      Fixed(five + "/each}}}}}", "{{/each}}"),
      Fixed(five + "else}}}}}", "{{else}}"),
      Group(five, false, "themeOptions.", "}}}}}", "{{", "}}"),
      ifRule,
      Group(three, false, "", "}}}", "{{", "}}"),
      Group(four, false, "", "}}}}", "{{", "}}") ]
  }

  /** The patterns as written: `\{5}`, `\{3}`, `\{4}` are the literal texts "{5}", "{3}", "{4}". */
  function AsWrittenRules(): (rules: seq<Rule>)
    ensures AllWellFormed(rules) && |rules| == 9
  {
    Rules("{5}", "{3}", "{4}")
  }

  /** The patterns with the brace counts the comments describe. */
  function IntendedRules(): (rules: seq<Rule>)
    ensures AllWellFormed(rules) && |rules| == 9
  {
    Rules("{{{{{", "{{{", "{{{{")
  }

  /**
   * fix_over_braces: the nine substitutions in order; the file is rewritten
   * (and true returned) exactly when the text changed.
   */
  method FixOverBraces(original: string) returns (content: string, rewritten: bool)
    ensures content == Apply(AsWrittenRules(), original)
    ensures rewritten <==> content != original
  {
    var rules := AsWrittenRules();
    content := original;
    content := Sub(rules[0], content);
    content := Sub(rules[1], content);
    content := Sub(rules[2], content);
    content := Sub(rules[3], content);
    content := Sub(rules[4], content);
    content := Sub(rules[5], content);
    content := Sub(rules[6], content);
    content := Sub(rules[7], content);
    content := Sub(rules[8], content);
    ApplyNine(rules, original);
    rewritten := content != original;
  }

  /** One step of the chain from rule `i` on. */
  lemma ApplyFrom(rules: seq<Rule>, i: nat, s: string)
    requires AllWellFormed(rules) && i < |rules|
    ensures Apply(rules[i..], s) == Apply(rules[i + 1..], Sub(rules[i], s))
  {
    assert rules[i..][1..] == rules[i + 1..];
  }

  lemma ApplyNine(rules: seq<Rule>, s: string)
    requires |rules| == 9 && AllWellFormed(rules)
    ensures Apply(rules, s) ==
      Sub(rules[8], Sub(rules[7], Sub(rules[6], Sub(rules[5], Sub(rules[4],
        Sub(rules[3], Sub(rules[2], Sub(rules[1], Sub(rules[0], s)))))))))
  {
    var s1 := Sub(rules[0], s);
    var s2 := Sub(rules[1], s1);
    var s3 := Sub(rules[2], s2);
    var s4 := Sub(rules[3], s3);
    var s5 := Sub(rules[4], s4);
    var s6 := Sub(rules[5], s5);
    var s7 := Sub(rules[6], s6);
    var s8 := Sub(rules[7], s7);
    assert rules[0..] == rules;
    ApplyFrom(rules, 0, s);
    ApplyFrom(rules, 1, s1);
    ApplyFrom(rules, 2, s2);
    ApplyFrom(rules, 3, s3);
    ApplyFrom(rules, 4, s4);
    ApplyFrom(rules, 5, s5);
    ApplyFrom(rules, 6, s6);
    ApplyFrom(rules, 7, s7);
    ApplyFrom(rules, 8, s8);
    assert rules[9..] == [];
  }

  // ---------------------------------------------------------------------
  // What every rule does
  // ---------------------------------------------------------------------

  /** The rule's replacement text is "{{" + ... + "}}". */
  predicate EmitsDoubleBraces(r: Rule) {
    match r
    case Fixed(_, rep) => StartsWith(rep, "{{") && |rep| >= 4 && rep[|rep| - 2..] == "}}"
    case Group(_, _, _, _, o, c) => StartsWith(o, "{{") && c == "}}"
  }

  /** Every rule of both sets replaces its match by "{{" + ... + "}}". */
  lemma ReplacementShape(five: string, three: string, four: string)
    ensures forall i :: 0 <= i < 9 ==> EmitsDoubleBraces(Rules(five, three, four)[i])
  {
    var rs := Rules(five, three, four);
    assert EmitsDoubleBraces(rs[0]) && EmitsDoubleBraces(rs[2]);
    assert EmitsDoubleBraces(rs[1]) && EmitsDoubleBraces(rs[3]) && EmitsDoubleBraces(rs[4]);
  }

  /** A group rule matches prefix + c + rest when `c` is a valid group and `rest` starts with the suffix. */
  lemma PlainGroupMatch(r: Rule, c: string, rest: string)
    requires WellFormed(r) && r.Group? && !r.spaces
    requires '}' !in c && StartsWith(c, r.lead) && |c| > |r.lead| && StartsWith(rest, r.suffix)
    ensures MatchAt(r, r.prefix + c + rest) ==
      Some(Match(|r.prefix| + |c| + |r.suffix|, r.open + c + r.close, c))
  {
    var s := r.prefix + c + rest;
    assert s[..|r.prefix|] == r.prefix;
    var t := s[|r.prefix|..];
    assert t == c + rest;
    assert rest[0] == r.suffix[0];
    RunLenUpToBrace(c, rest);
    assert t[0..|c|] == c;
    assert t[|c|..] == rest;
  }

  /** A `\s+` group rule matches prefix + " " + c + rest when `c` starts with a non-space. */
  lemma SpacedGroupMatch(r: Rule, c: string, rest: string)
    requires WellFormed(r) && r.Group? && r.spaces
    requires |c| > 0 && '}' !in c && !IsPySpace(c[0]) && StartsWith(rest, r.suffix)
    ensures MatchAt(r, r.prefix + " " + c + rest) ==
      Some(Match(|r.prefix| + 1 + |c| + |r.suffix|, r.open + c + r.close, c))
  {
    var s := r.prefix + " " + c + rest;
    assert s[..|r.prefix|] == r.prefix;
    var t := s[|r.prefix|..];
    assert t == (" " + c) + rest;
    assert rest[0] == r.suffix[0];
    RunLenUpToBrace(" " + c, rest);
    assert t[1..][0] == c[0];
    assert SpaceLen(t[1..]) == 0;
    assert SpaceLen(t) == 1;
    assert t[1..1 + |c|] == c;
    assert t[1 + |c|..] == rest;
  }

  /** `re.sub` with a `\s+` group rule on one whole token prefix + " " + c + suffix, then `rest`. */
  lemma SpacedGroupSub(r: Rule, c: string, rest: string, s: string)
    requires WellFormed(r) && r.Group? && r.spaces
    requires |c| > 0 && '}' !in c && !IsPySpace(c[0])
    requires s == r.prefix + " " + c + r.suffix + rest
    ensures Sub(r, s) == r.open + c + r.close + Sub(r, rest)
  {
    assert s == r.prefix + " " + c + (r.suffix + rest);
    SpacedGroupMatch(r, c, r.suffix + rest);
    assert s[|r.prefix| + 1 + |c| + |r.suffix|..] == rest;
  }

  /** `re.sub` with a group rule without `\s+` on one whole token prefix + c + suffix, then `rest`. */
  lemma PlainGroupSub(r: Rule, c: string, rest: string, s: string)
    requires WellFormed(r) && r.Group? && !r.spaces
    requires '}' !in c && StartsWith(c, r.lead) && |c| > |r.lead|
    requires s == r.prefix + c + r.suffix + rest
    ensures Sub(r, s) == r.open + c + r.close + Sub(r, rest)
  {
    assert s == r.prefix + c + (r.suffix + rest);
    PlainGroupMatch(r, c, r.suffix + rest);
    assert s[|r.prefix| + |c| + |r.suffix|..] == rest;
  }

  /** `re.sub` copies the first character when no match starts there. */
  lemma NoMatchSub(r: Rule, s: string)
    requires WellFormed(r) && s != [] && MatchAt(r, s).None?
    ensures Sub(r, s) == [s[0]] + Sub(r, s[1..])
  {
  }

  /** A group rule does not match when the text after the group is not its suffix. */
  lemma GroupNoMatchWrongSuffix(r: Rule, x: string, rest: string)
    requires WellFormed(r) && r.Group?
    requires '}' !in x && (rest == [] || rest[0] == '}') && !StartsWith(rest, r.suffix)
    ensures MatchAt(r, r.prefix + x + rest).None?
  {
    var s := r.prefix + x + rest;
    assert s[..|r.prefix|] == r.prefix;
    var t := s[|r.prefix|..];
    assert t == x + rest;
    RunLenUpToBrace(x, rest);
    assert t[|x|..] == rest;
  }

  /** A group rule without `\s+` does not match when the group lacks its literal lead. */
  lemma GroupNoMatchWrongLead(r: Rule, x: string, rest: string)
    requires WellFormed(r) && r.Group? && !r.spaces
    requires '}' !in x && (rest == [] || rest[0] == '}') && !StartsWith(x, r.lead)
    ensures MatchAt(r, r.prefix + x + rest).None?
  {
    var s := r.prefix + x + rest;
    assert s[..|r.prefix|] == r.prefix;
    var t := s[|r.prefix|..];
    assert t == x + rest;
    RunLenUpToBrace(x, rest);
    assert t[0..|x|] == x;
  }

  predicate NoOccurrence(s: string, k: string) {
    forall j :: 0 <= j <= |s| ==> !OccursAt(s, k, j)
  }

  lemma NoOccurrenceOfLonger(s: string, k: string, p: string)
    requires NoOccurrence(s, k) && StartsWith(p, k)
    ensures NoOccurrence(s, p)
  {
    forall j | 0 <= j <= |s| ensures !OccursAt(s, p, j) {
      if j + |p| <= |s| {
        assert !OccursAt(s, k, j);
        assert s[j..j + |p|][..|k|] == s[j..j + |k|];
      }
    }
  }

  lemma NoOccurrenceTail(s: string, p: string)
    requires NoOccurrence(s, p) && s != []
    ensures !StartsWith(s, p) && NoOccurrence(s[1..], p)
  {
    assert !OccursAt(s, p, 0);
    forall j | 0 <= j <= |s[1..]| ensures !OccursAt(s[1..], p, j) {
      assert !OccursAt(s, p, j + 1);
      if j + |p| <= |s[1..]| {
        assert s[1..][j..j + |p|] == s[j + 1..j + 1 + |p|];
      }
    }
  }

  /** `re.sub` changes nothing when the rule's literal prefix occurs nowhere. */
  lemma {:induction false} SubWithoutPrefix(r: Rule, s: string)
    requires WellFormed(r) && NoOccurrence(s, Prefix(r))
    ensures Sub(r, s) == s
    decreases |s|
  {
    if s != [] {
      NoOccurrenceTail(s, Prefix(r));
      SubWithoutPrefix(r, s[1..]);
      assert s == [s[0]] + s[1..];
    }
  }

  /** The chain changes nothing when no rule's prefix occurs. */
  lemma {:induction false} ApplyWithoutPrefixes(rules: seq<Rule>, s: string)
    requires AllWellFormed(rules)
    requires forall i :: 0 <= i < |rules| ==> NoOccurrence(s, Prefix(rules[i]))
    ensures Apply(rules, s) == s
    decreases |rules|
  {
    if rules != [] {
      SubWithoutPrefix(rules[0], s);
      assert forall i :: 0 <= i < |rules[1..]| ==> rules[1..][i] == rules[i + 1];
      ApplyWithoutPrefixes(rules[1..], s);
    }
  }

  lemma NoBraceNoOccurrence(s: string, p: string)
    requires '{' !in s && |p| > 0 && p[0] == '{'
    ensures NoOccurrence(s, p)
  {
    forall j | 0 <= j <= |s| ensures !OccursAt(s, p, j) {
      if j + |p| <= |s| { assert s[j..j + |p|][0] == s[j]; }
    }
  }

  /** Text without '{' passes through both chains unchanged: every pattern begins with '{'. */
  lemma NoBraceUnchanged(s: string)
    requires '{' !in s
    ensures Apply(AsWrittenRules(), s) == s
    ensures Apply(IntendedRules(), s) == s
  {
    RulesBracePrefixed("{5}", "{3}", "{4}");
    RulesBracePrefixed("{{{{{", "{{{", "{{{{");
    NoBraceUnchangedBy(AsWrittenRules(), s);
    NoBraceUnchangedBy(IntendedRules(), s);
  }

  /** Every rule's prefix starts with '{'. */
  predicate BracePrefixed(rules: seq<Rule>) {
    forall i :: 0 <= i < |rules| ==> |Prefix(rules[i])| > 0 && Prefix(rules[i])[0] == '{'
  }

  lemma RulesBracePrefixed(five: string, three: string, four: string)
    requires |five| > 0 && |three| > 0 && |four| > 0
    requires five[0] == '{' && three[0] == '{' && four[0] == '{'
    ensures BracePrefixed(Rules(five, three, four))
  {
    var rs := Rules(five, three, four);
    forall i | 0 <= i < 9 ensures |Prefix(rs[i])| > 0 && Prefix(rs[i])[0] == '{' {
      if i < 7 {
        var t :| Prefix(rs[i]) == five + t;
        assert (five + t)[0] == five[0];
      }
    }
  }

  lemma NoBraceUnchangedBy(rules: seq<Rule>, s: string)
    requires AllWellFormed(rules) && BracePrefixed(rules) && '{' !in s
    ensures Apply(rules, s) == s
  {
    forall i | 0 <= i < |rules| ensures NoOccurrence(s, Prefix(rules[i])) {
      NoBraceNoOccurrence(s, Prefix(rules[i]));
    }
    ApplyWithoutPrefixes(rules, s);
  }


  // ---------------------------------------------------------------------
  // The as-written patterns only fire on "{<digit>"
  // ---------------------------------------------------------------------

  /** Some '{' is immediately followed by a decimal digit. */
  predicate HasBraceDigit(s: string) {
    exists j :: 0 <= j < |s| - 1 && s[j] == '{' && IsDigit(s[j + 1])
  }

  lemma BraceDigitNoOccurrence(s: string, p: string)
    requires !HasBraceDigit(s) && |p| >= 2 && p[0] == '{' && IsDigit(p[1])
    ensures NoOccurrence(s, p)
  {
    forall j | 0 <= j <= |s| ensures !OccursAt(s, p, j) {
      if j + |p| <= |s| {
        assert s[j..j + |p|][0] == s[j] && s[j..j + |p|][1] == s[j + 1];
      }
    }
  }

  /**
   * As written, the chain leaves unchanged every text in which no '{' is
   * followed by a digit, which covers every Handlebars template
   * ("{{{{{#if x}}}}}" and "{{{title}}}" included).
   */
  lemma AsWrittenIgnoresBraceRuns(s: string)
    requires !HasBraceDigit(s)
    ensures Apply(AsWrittenRules(), s) == s
  {
    var a := AsWrittenRules();
    forall i | 0 <= i < 9 ensures NoOccurrence(s, Prefix(a[i])) {
      BraceDigitNoOccurrence(s, Prefix(a[i]));
    }
    ApplyWithoutPrefixes(a, s);
  }

  /** The over-braced `#if` token the first rule's comment describes is left alone as written. */
  lemma AsWrittenKeepsFiveBraceIf(c: string)
    requires '{' !in c
    ensures Apply(AsWrittenRules(), "{{{{{#if " + c + "}}}}}") == "{{{{{#if " + c + "}}}}}"
  {
    var s := "{{{{{#if " + c + "}}}}}";
    forall j | 0 <= j < |s| - 1 ensures !(s[j] == '{' && IsDigit(s[j + 1])) {
      if j < 4 { assert s[j + 1] == '{'; }
      else if j == 4 { assert s[j + 1] == '#'; }
      else if j < 9 { assert s[j] in "#if "; }
      else if j < 9 + |c| { assert s[j] == c[j - 9]; }
      else { assert s[j] == '}'; }
    }
    AsWrittenIgnoresBraceRuns(s);
  }

  // ---------------------------------------------------------------------
  // The intended patterns
  // ---------------------------------------------------------------------

  /** With the intended counts, text with at most two braces in a row is left unchanged. */
  lemma IntendedKeepsDoubleBraces(s: string)
    requires NoOccurrence(s, "{{{")
    ensures Apply(IntendedRules(), s) == s
  {
    var b := IntendedRules();
    forall i | 0 <= i < 9 ensures NoOccurrence(s, Prefix(b[i])) {
      NoOccurrenceOfLonger(s, "{{{", Prefix(b[i]));
    }
    ApplyWithoutPrefixes(b, s);
  }

  lemma {:induction false} RunLenUpToBrace(x: string, y: string)
    requires '}' !in x && (y == [] || y[0] == '}')
    ensures RunLen(x + y) == |x|
    decreases |x|
  {
    if x != [] {
      assert (x + y)[1..] == x[1..] + y;
      RunLenUpToBrace(x[1..], y);
    } else {
      assert x + y == y;
    }
  }

  /** `o + c + "}}"` has no three opening braces in a row when `c` has no '{'. */
  lemma DoubleBracedHasNoTriple(o: string, c: string)
    requires o == "{{" || o == "{{#if "
    requires '{' !in c
    ensures NoOccurrence(o + c + "}}", "{{{")
  {
    var u := o + c + "}}";
    forall j | 0 <= j <= |u| ensures !OccursAt(u, "{{{", j) {
      if j + 3 <= |u| {
        var k := j + 2;
        assert u[j..j + 3][2] == u[k];
        if k < |o| { assert u[k] == o[k]; }
        else if k < |o| + |c| { assert u[k] == c[k - |o|]; }
        else { assert u[k] == '}'; }
      }
    }
  }

  /** The first `k` rules change nothing when their prefixes do not occur. */
  lemma ApplyPrefixUnchanged(rules: seq<Rule>, k: nat, s: string)
    requires AllWellFormed(rules) && k <= |rules|
    requires forall i :: 0 <= i < k ==> NoOccurrence(s, Prefix(rules[i]))
    ensures Apply(rules, s) == Apply(rules[k..], s)
  {
    ApplySplit(rules, k, s);
    assert forall i :: 0 <= i < |rules[..k]| ==> rules[..k][i] == rules[i];
    ApplyWithoutPrefixes(rules[..k], s);
  }

  lemma {:induction false} ApplySplit(rules: seq<Rule>, k: nat, s: string)
    requires AllWellFormed(rules) && k <= |rules|
    ensures Apply(rules, s) == Apply(rules[k..], Apply(rules[..k], s))
    decreases k
  {
    if k > 0 {
      assert rules[1..][k - 1..] == rules[k..];
      assert rules[..k][1..] == rules[1..][..k - 1];
      ApplySplit(rules[1..], k - 1, Sub(rules[0], s));
    }
  }

  // ---------------------------------------------------------------------
  // Skipping text without '{'
  // ---------------------------------------------------------------------

  /** Text without '{' passes through any rule whose prefix starts with '{'. */
  lemma {:induction false} SubSkipsBraceFree(r: Rule, x: string, y: string)
    requires WellFormed(r) && |Prefix(r)| > 0 && Prefix(r)[0] == '{' && '{' !in x
    ensures Sub(r, x + y) == x + Sub(r, y)
    decreases |x|
  {
    if x == [] {
      assert x + y == y;
    } else {
      assert (x + y)[0] == x[0];
      DifferAt(x + y, Prefix(r), 0);
      assert (x + y)[1..] == x[1..] + y;
      SubSkipsBraceFree(r, x[1..], y);
    }
  }

  /** A '{' where `r` does not match, then text without '{', are copied through. */
  lemma SkipBrace(r: Rule, x: string, tail: string, s: string)
    requires WellFormed(r) && |Prefix(r)| > 0 && Prefix(r)[0] == '{' && '{' !in x
    requires s == "{" + x + tail && MatchAt(r, s).None?
    ensures Sub(r, s) == "{" + x + Sub(r, tail)
  {
    Assoc("{", x, tail);
    DropFirst("{", x + tail);
    NoMatchSub(r, s);
    SubSkipsBraceFree(r, x, tail);
    Assoc("{", x, Sub(r, tail));
  }

  /** A '{' where `r` does not match is copied through. */
  lemma SkipLoneBrace(r: Rule, y: string, s: string)
    requires WellFormed(r) && s == "{" + y && MatchAt(r, s).None?
    ensures Sub(r, s) == "{" + Sub(r, y)
  {
    DropFirst("{", y);
    NoMatchSub(r, s);
  }

  lemma DropFirst(c: string, t: string)
    requires |c| == 1
    ensures (c + t)[1..] == t && c + t == [c[0]] + t
  {
  }
}
