/**
 * Concrete consequences of the brace normaliser's patterns: what the
 * as-written chain does to the over-braced tokens its comments name, a text
 * on which it is not idempotent, and what the intended brace counts would
 * do instead.  The texts are lemma parameters fixed by a precondition.
 */
module BraceFindings {
  import opened Php
  import opened BraceFixer

  // ---------------------------------------------------------------------
  // The intended brace counts
  // ---------------------------------------------------------------------

  /** `k` copies of `b`. */
  function Braces(b: char, k: nat): (r: string)
    ensures |r| == k && forall i :: 0 <= i < k ==> r[i] == b
  {
    seq(k, _ => b)
  }

  /** `"{" * k + c + "}" * m` has no `k + 1` opening braces in a row. */
  lemma BraceRunBound(k: nat, c: string, m: nat)
    requires '{' !in c && |c| > 0
    ensures NoOccurrence(Braces('{', k) + c + Braces('}', m), Braces('{', k + 1))
  {
    var s := Braces('{', k) + c + Braces('}', m);
    var p := Braces('{', k + 1);
    forall j | 0 <= j <= |s| ensures !OccursAt(s, p, j) {
      if j + k + 1 <= |s| {
        assert s[j..j + k + 1][k] == s[j + k];
        if j + k < k + |c| { assert s[j + k] == c[j]; } else { assert s[j + k] == '}'; }
      }
    }
  }

  /** The intended first rule turns `{{{{{#if c}}}}}` into `{{#if c}}`. */
  lemma IntendedIfRuleStep(c: string, s: string)
    requires |c| > 0 && '}' !in c && !IsPySpace(c[0])
    requires s == "{{{{{#if " + c + "}}}}}"
    ensures Sub(IntendedRules()[0], s) == "{{#if " + c + "}}"
  {
    var r := IntendedRules()[0];
    assert s == r.prefix + " " + c + r.suffix;
    SpacedGroupMatch(r, c, r.suffix);
    assert s[|s|..] == [];
  }

  /** Rules 2 to 9 of the intended set all need three opening braces in a row. */
  lemma IntendedTailKeepsDoubleBraces(u: string)
    requires NoOccurrence(u, "{{{")
    ensures Apply(IntendedRules()[1..], u) == u
  {
    var rules := IntendedRules();
    forall i | 0 <= i < 8 ensures NoOccurrence(u, Prefix(rules[1..][i])) {
      NoOccurrenceOfLonger(u, "{{{", Prefix(rules[1..][i]));
    }
    ApplyWithoutPrefixes(rules[1..], u);
  }

  /** With the intended counts the chain turns `{{{{{#if c}}}}}` into `{{#if c}}`. */
  lemma IntendedFixesFiveBraceIf(c: string, s: string)
    requires |c| > 0 && '{' !in c && '}' !in c && !IsPySpace(c[0])
    requires s == "{{{{{#if " + c + "}}}}}"
    ensures Apply(IntendedRules(), s) == "{{#if " + c + "}}"
  {
    var rules := IntendedRules();
    var u := "{{#if " + c + "}}";
    IntendedIfRuleStep(c, s);
    DoubleBracedHasNoTriple("{{#if ", c);
    IntendedTailKeepsDoubleBraces(u);
    assert rules[0..] == rules;
    ApplyFrom(rules, 0, s);
  }

  /** The first seven intended rules all need five opening braces in a row. */
  lemma IntendedHeadNeedsFiveBraces(s: string)
    requires NoOccurrence(s, "{{{{{")
    ensures Apply(IntendedRules(), s) == Apply(IntendedRules()[7..], s)
  {
    var rules := IntendedRules();
    forall i | 0 <= i < 7 ensures NoOccurrence(s, Prefix(rules[i])) {
      NoOccurrenceOfLonger(s, "{{{{{", Prefix(rules[i]));
    }
    ApplyPrefixUnchanged(rules, 7, s);
  }

  /** The last two rules, one after the other. */
  lemma IntendedLastTwo(s: string)
    ensures Apply(IntendedRules()[7..], s) == Sub(IntendedRules()[8], Sub(IntendedRules()[7], s))
  {
    var rules := IntendedRules();
    ApplyFrom(rules, 7, s);
    ApplyFrom(rules, 8, Sub(rules[7], s));
    assert rules[9..] == [];
  }

  lemma IntendedTripleRuleStep(c: string, s: string)
    requires |c| > 0 && '}' !in c
    requires s == "{{{" + c + "}}}"
    ensures Sub(IntendedRules()[7], s) == "{{" + c + "}}"
  {
    var r := IntendedRules()[7];
    assert s == r.prefix + c + r.suffix;
    PlainGroupMatch(r, c, r.suffix);
    assert s[|s|..] == [];
  }

  lemma ThreeBraced(c: string, s: string)
    requires |c| > 0 && '{' !in c && s == "{{{" + c + "}}}"
    ensures NoOccurrence(s, "{{{{")
  {
    BraceRunBound(3, c, 3);
    assert Braces('{', 3) == "{{{" && Braces('}', 3) == "}}}" && Braces('{', 4) == "{{{{";
  }

  lemma FourBraced(c: string, s: string)
    requires |c| > 0 && '{' !in c && s == "{{{{" + c + "}}}}"
    ensures NoOccurrence(s, "{{{{{")
  {
    BraceRunBound(4, c, 4);
    assert Braces('{', 4) == "{{{{" && Braces('}', 4) == "}}}}" && Braces('{', 5) == "{{{{{";
  }

  /** The intended quadruple rule leaves `{{c}}` alone. */
  lemma IntendedQuadrupleKeepsDouble(c: string, u: string)
    requires |c| > 0 && '{' !in c && u == "{{" + c + "}}"
    ensures Sub(IntendedRules()[8], u) == u
  {
    DoubleBracedHasNoTriple("{{", c);
    NoOccurrenceOfLonger(u, "{{{", Prefix(IntendedRules()[8]));
    SubWithoutPrefix(IntendedRules()[8], u);
  }

  /** With the intended counts the chain turns `{{{c}}}` into `{{c}}`. */
  lemma IntendedFixesTripleBraces(c: string, s: string)
    requires |c| > 0 && '{' !in c && '}' !in c
    requires s == "{{{" + c + "}}}"
    ensures Apply(IntendedRules(), s) == "{{" + c + "}}"
  {
    ThreeBraced(c, s);
    NoOccurrenceOfLonger(s, "{{{{", "{{{{{");
    IntendedHeadNeedsFiveBraces(s);
    IntendedTripleRuleStep(c, s);
    IntendedQuadrupleKeepsDouble(c, "{{" + c + "}}");
    IntendedLastTwo(s);
  }

  lemma IntendedQuadrupleRuleStep(c: string, s: string)
    requires |c| > 0 && '{' !in c && '}' !in c
    requires s == "{{{{" + c + "}}}}"
    ensures Sub(IntendedRules()[7], s) == "{{{" + c + "}}}"
  {
    var r := IntendedRules()[7];
    assert s == r.prefix + ("{" + c) + ("}}}" + "}");
    PlainGroupMatch(r, "{" + c, "}}}" + "}");
    assert s[|s| - 1..] == "}";
    NoBraceNoOccurrence("}", r.prefix);
    SubWithoutPrefix(r, "}");
  }

  /**
   * Even with the intended counts the triple rule runs before the quadruple
   * one, so `{{{{c}}}}` only loses one brace on each side.
   */
  lemma IntendedQuadrupleBecomesTriple(c: string, s: string)
    requires |c| > 0 && '{' !in c && '}' !in c
    requires s == "{{{{" + c + "}}}}"
    ensures Apply(IntendedRules(), s) == "{{{" + c + "}}}"
  {
    FourBraced(c, s);
    IntendedHeadNeedsFiveBraces(s);
    IntendedQuadrupleRuleStep(c, s);
    var u := "{{{" + c + "}}}";
    ThreeBraced(c, u);
    SubWithoutPrefix(IntendedRules()[8], u);
    IntendedLastTwo(s);
  }

  // ---------------------------------------------------------------------
  // The as-written chain is not idempotent
  // ---------------------------------------------------------------------

  /** A rule that matches at neither '{' of `"{" + x + "{" + y` leaves that text unchanged. */
  lemma KeepsTwoBraces(r: Rule, x: string, y: string)
    requires WellFormed(r) && |Prefix(r)| > 0 && Prefix(r)[0] == '{' && '{' !in x && '{' !in y
    requires MatchAt(r, "{" + x + "{" + y).None? && MatchAt(r, "{" + y).None?
    ensures Sub(r, "{" + x + "{" + y) == "{" + x + "{" + y
  {
    var t := "{" + y;
    Assoc("{" + x, "{", y);
    SkipBrace(r, x, t, "{" + x + "{" + y);
    SkipLoneBrace(r, y, t);
    NoBraceNoOccurrence(y, Prefix(r));
    SubWithoutPrefix(r, y);
  }

  /** A non-empty word of ASCII letters. */
  predicate Word(w: string) {
    |w| > 0 && forall i :: 0 <= i < |w| ==> IsAlpha(w[i])
  }

  lemma WordHasNoSyntax(w: string)
    requires Word(w)
    ensures '{' !in w && '}' !in w && !IsPySpace(w[0]) && !IsDigit(w[0]) && w[0] != '}'
  {
  }

  /** The counterexample family "{5}#if a{3}b}}}}}}", for words `a` and `b`. */
  function Tangled(a: string, b: string): string {
    "{5}#if " + a + "{3}" + b + "}}}}}}"
  }

  /** What one run of the as-written chain makes of it: "{5}#if a{{b}}}}}". */
  function TangledOnce(a: string, b: string): string {
    "{5}#if " + a + "{{" + b + "}}}}}"
  }

  /** What a second run makes of that: "{{#if a{{b}}". */
  function TangledTwice(a: string, b: string): string {
    "{{#if " + a + "{{" + b + "}}"
  }

  /** "{3}" is not where any of the first seven rules can match. */
  lemma EarlyRuleMissesTriple(i: nat, y: string)
    requires i < 7 && |y| > 0 && y[0] == '3'
    ensures MatchAt(AsWrittenRules()[i], "{" + y).None?
  {
    DifferAt("{" + y, Prefix(AsWrittenRules()[i]), 1);
  }

  /** The `#if` rule: the group "a{3" is followed by "}b", not by five '}'. */
  lemma IfRuleMissesTangled(r: Rule, a: string, b: string)
    requires r == AsWrittenRules()[0] && Word(a) && Word(b)
    ensures MatchAt(r, Tangled(a, b)).None?
  {
    WordHasNoSyntax(a);
    WordHasNoSyntax(b);
    var rest := "}" + b + "}}}}}}";
    assert Tangled(a, b) == r.prefix + (" " + a + "{3") + rest;
    assert rest[1] == b[0];
    DifferAt(rest, r.suffix, 1);
    GroupNoMatchWrongSuffix(r, " " + a + "{3", rest);
  }

  /** The `themeOptions.` rule: "#if" is not its lead. */
  lemma ThemeRuleMissesTangled(r: Rule, a: string, b: string)
    requires r == AsWrittenRules()[5] && Word(a) && Word(b)
    ensures MatchAt(r, Tangled(a, b)).None?
  {
    var g := "#if " + a + "{3";
    var rest := "}" + b + "}}}}}}";
    assert Tangled(a, b) == r.prefix + g + rest;
    DifferAt(g, r.lead, 0);
    GroupNoMatchWrongLead(r, g, rest);
  }

  /** The literal rules and the `#each` rule differ from "{5}#if" early on. */
  lemma OtherRuleMissesTangled(i: nat, a: string, b: string)
    requires i in {1, 2, 3, 4}
    ensures MatchAt(AsWrittenRules()[i], Tangled(a, b)).None?
  {
    var s := Tangled(a, b);
    if i == 2 {
      DifferAt(s, AsWrittenRules()[i].prefix, 4);
    } else {
      DifferAt(s, AsWrittenRules()[i].text, 3);
    }
  }

  lemma EarlyRuleMissesTangled(i: nat, a: string, b: string)
    requires i < 7 && Word(a) && Word(b)
    ensures MatchAt(AsWrittenRules()[i], Tangled(a, b)).None?
  {
    var rules := AsWrittenRules();
    if i == 0 || i == 6 {
      assert rules[i] == rules[0];
      IfRuleMissesTangled(rules[i], a, b);
    } else if i == 5 {
      ThemeRuleMissesTangled(rules[i], a, b);
    } else {
      OtherRuleMissesTangled(i, a, b);
    }
  }

  /** The early rules match neither at the first '{' nor at "{3}". */
  lemma EarlyRuleKeepsTangled(i: nat, a: string, b: string)
    requires i < 7 && Word(a) && Word(b)
    ensures Sub(AsWrittenRules()[i], Tangled(a, b)) == Tangled(a, b)
  {
    WordHasNoSyntax(a);
    WordHasNoSyntax(b);
    var x, y := "5}#if " + a, "3}" + b + "}}}}}}";
    assert Tangled(a, b) == "{" + x + "{" + y;
    EarlyRuleMissesTangled(i, a, b);
    EarlyRuleMissesTriple(i, y);
    KeepsTwoBraces(AsWrittenRules()[i], x, y);
  }

  lemma TripleRuleMissesFirst(r: Rule, a: string, b: string)
    requires r == AsWrittenRules()[7]
    ensures MatchAt(r, Tangled(a, b)).None?
  {
    DifferAt(Tangled(a, b), r.prefix, 1);
  }

  lemma TripleRuleShape(r: Rule, a: string, b: string)
    requires r == AsWrittenRules()[7]
    ensures Tangled(a, b) == "{" + ("5}#if " + a) + ("{3}" + b + "}}}}}}")
    ensures "{3}" + b + "}}}}}}" == r.prefix + b + r.suffix + "}}}"
    ensures "{" + ("5}#if " + a) + (r.open + b + r.close + "}}}") == TangledOnce(a, b)
  {
  }

  /** As written, the triple rule rewrites "{3}b}}}" into "{{b}}". */
  lemma TripleRuleOnTangled(a: string, b: string)
    requires Word(a) && Word(b)
    ensures Sub(AsWrittenRules()[7], Tangled(a, b)) == TangledOnce(a, b)
  {
    var r := AsWrittenRules()[7];
    WordHasNoSyntax(a);
    WordHasNoSyntax(b);
    var x, tail := "5}#if " + a, "{3}" + b + "}}}}}}";
    TripleRuleShape(r, a, b);
    TripleRuleMissesFirst(r, a, b);
    SkipBrace(r, x, tail, Tangled(a, b));
    PlainGroupSub(r, b, "}}}", tail);
    NoBraceNoOccurrence("}}}", r.prefix);
    SubWithoutPrefix(r, "}}}");
  }

  lemma QuadrupleRuleMisses(r: Rule, a: string, b: string)
    requires r == AsWrittenRules()[8] && Word(b)
    ensures MatchAt(r, TangledOnce(a, b)).None?
    ensures MatchAt(r, "{{" + b + "}}}}}").None?
    ensures MatchAt(r, "{" + b + "}}}}}").None?
  {
    DifferAt(TangledOnce(a, b), r.prefix, 1);
    DifferAt("{{" + b + "}}}}}", r.prefix, 1);
    assert ("{" + b + "}}}}}")[1] == b[0];
    DifferAt("{" + b + "}}}}}", r.prefix, 1);
  }

  /** As written, the quadruple rule finds no "{4}" in the first run's text. */
  lemma QuadrupleRuleOnTangledOnce(a: string, b: string)
    requires Word(a) && Word(b)
    ensures Sub(AsWrittenRules()[8], TangledOnce(a, b)) == TangledOnce(a, b)
  {
    var r := AsWrittenRules()[8];
    WordHasNoSyntax(a);
    WordHasNoSyntax(b);
    var x, q1, q2 := "5}#if " + a, "{" + b + "}}}}}", b + "}}}}}";
    assert TangledOnce(a, b) == "{" + x + ("{{" + b + "}}}}}");
    assert "{{" + b + "}}}}}" == "{" + q1;
    assert q1 == "{" + q2;
    QuadrupleRuleMisses(r, a, b);
    NoBraceNoOccurrence(q2, r.prefix);
    SubWithoutPrefix(r, q2);
    SkipLoneBrace(r, q2, q1);
    SkipLoneBrace(r, q1, "{{" + b + "}}}}}");
    SkipBrace(r, x, "{{" + b + "}}}}}", TangledOnce(a, b));
  }

  /** One run of the as-written chain. */
  lemma FirstPass(a: string, b: string)
    requires Word(a) && Word(b)
    ensures Apply(AsWrittenRules(), Tangled(a, b)) == TangledOnce(a, b)
  {
    var rules := AsWrittenRules();
    var s := Tangled(a, b);
    EarlyRuleKeepsTangled(0, a, b);
    EarlyRuleKeepsTangled(1, a, b);
    EarlyRuleKeepsTangled(2, a, b);
    EarlyRuleKeepsTangled(3, a, b);
    EarlyRuleKeepsTangled(4, a, b);
    EarlyRuleKeepsTangled(5, a, b);
    EarlyRuleKeepsTangled(6, a, b);
    TripleRuleOnTangled(a, b);
    QuadrupleRuleOnTangledOnce(a, b);
    ApplyNine(rules, s);
  }

  lemma TangledTwiceHasNoBraceDigit(a: string, b: string)
    requires Word(a) && Word(b)
    ensures !HasBraceDigit(TangledTwice(a, b))
  {
    var u := TangledTwice(a, b);
    forall j | 0 <= j < |u| - 1 ensures !(u[j] == '{' && IsDigit(u[j + 1])) {
      if j < 2 { assert u[j + 1] in "{#"; }
      else if j < 6 { assert u[j] in "#if "; }
      else if j < 6 + |a| { assert IsAlpha(u[j]) by { assert u[j] == a[j - 6]; } }
      else if j == 6 + |a| { assert u[j + 1] == '{'; }
      else if j == 7 + |a| { assert u[j + 1] == b[0]; }
      else if j < 8 + |a| + |b| { assert u[j] == b[j - 8 - |a|]; }
      else { assert u[j] == '}'; }
    }
  }

  lemma AsWrittenTailKeeps(u: string)
    requires !HasBraceDigit(u)
    ensures Apply(AsWrittenRules()[1..], u) == u
  {
    var rules := AsWrittenRules();
    forall i | 0 <= i < 8 ensures NoOccurrence(u, Prefix(rules[1..][i])) {
      BraceDigitNoOccurrence(u, Prefix(rules[1..][i]));
    }
    ApplyWithoutPrefixes(rules[1..], u);
  }

  /** On the first run's text the `#if` rule's group is "a{{b", closed by five '}'. */
  lemma IfRuleOnTangledOnce(r: Rule, a: string, b: string)
    requires r == AsWrittenRules()[0] && Word(a) && Word(b)
    ensures Sub(r, TangledOnce(a, b)) == TangledTwice(a, b)
  {
    WordHasNoSyntax(a);
    WordHasNoSyntax(b);
    var g := a + "{{" + b;
    IfRuleShape(r, a, b);
    SpacedGroupSub(r, g, "", TangledOnce(a, b));
  }

  lemma IfRuleShape(r: Rule, a: string, b: string)
    requires r == AsWrittenRules()[0] && |a| > 0
    ensures (a + "{{" + b)[0] == a[0]
    ensures TangledOnce(a, b) == r.prefix + " " + (a + "{{" + b) + r.suffix + ""
    ensures r.open + (a + "{{" + b) + r.close + "" == TangledTwice(a, b)
    ensures '}' !in a && '}' !in b ==> '}' !in a + "{{" + b
  {
  }

  /** A second run: the first rule now matches the whole text. */
  lemma SecondPass(a: string, b: string)
    requires Word(a) && Word(b)
    ensures Apply(AsWrittenRules(), TangledOnce(a, b)) == TangledTwice(a, b)
  {
    var rules := AsWrittenRules();
    IfRuleOnTangledOnce(rules[0], a, b);
    TangledTwiceHasNoBraceDigit(a, b);
    AsWrittenTailKeeps(TangledTwice(a, b));
    assert rules[0..] == rules;
    ApplyFrom(rules, 0, TangledOnce(a, b));
  }

  /**
   * Running the as-written chain twice differs from running it once: the
   * triple rule turns "{5}#if a{3}b}}}}}}" into "{5}#if a{{b}}}}}", which the
   * first rule matches on the next run.
   */
  lemma AsWrittenNotIdempotent(a: string, b: string)
    requires Word(a) && Word(b)
    ensures var once := Apply(AsWrittenRules(), Tangled(a, b));
      Apply(AsWrittenRules(), once) != once
  {
    FirstPass(a, b);
    SecondPass(a, b);
    TangledRunsDiffer(a, b);
  }

  lemma TangledRunsDiffer(a: string, b: string)
    ensures TangledTwice(a, b) != TangledOnce(a, b)
  {
    assert TangledTwice(a, b)[1] != TangledOnce(a, b)[1];
  }
}
