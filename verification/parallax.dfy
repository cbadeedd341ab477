/**
 * The parallax-section shortcode of plugins/parallax/parallax.php: the
 * attribute list of a `[parallax_section ...]` tag is read into a PHP array
 * (a later key overwrites an earlier one), and a section is built from it:
 * the id and background image are required, the speed and overlay opacity
 * are clamped, the CSS classes are the fixed class, the custom classes and
 * the effect class, and the overlay is drawn only when it can be seen.
 * PHP's `floatval` and its float-to-string conversion are parameters.
 */
module Parallax {
  import opened Php
  import opened PhpArray
  import Auth

  // ---------------------------------------------------------------------
  // parse_shortcode_attributes
  // ---------------------------------------------------------------------

  predicate IsQuote(c: char) { c == '"' || c == '\'' }

  /** The class `[^"']`. */
  predicate IsValueChar(c: char) { !IsQuote(c) }

  /** The end of the run of characters passing `p` that starts at `i`. */
  function RunEnd(s: string, i: nat, p: char -> bool): (j: nat)
    requires i <= |s|
    ensures i <= j <= |s|
    decreases |s| - i
  {
    if i < |s| && p(s[i]) then RunEnd(s, i + 1, p) else i
  }

  /** The run passes `p` throughout and cannot be extended. */
  lemma {:induction false} RunEndFacts(s: string, i: nat, p: char -> bool)
    requires i <= |s|
    ensures forall k :: i <= k < RunEnd(s, i, p) ==> p(s[k])
    ensures RunEnd(s, i, p) < |s| ==> !p(s[RunEnd(s, i, p)])
    decreases |s| - i
  {
    if i < |s| && p(s[i]) {
      RunEndFacts(s, i + 1, p);
    }
  }

  /** A run ends where its characters stop passing `p`. */
  lemma {:induction false} RunEndExact(s: string, i: nat, j: nat, p: char -> bool)
    requires i <= j <= |s|
    requires forall k :: i <= k < j ==> p(s[k])
    requires j < |s| ==> !p(s[j])
    ensures RunEnd(s, i, p) == j
    decreases j - i
  {
    if i < j {
      RunEndExact(s, i + 1, j, p);
    }
  }

  /** One match of `(\w+)=["']([^"']*)["']`: the key, the value and where the match ends. */
  datatype Match = Match(key: string, value: string, end: nat)

  /** A key of word characters and a value without quotes. */
  predicate WellFormed(key: string, value: string) {
    key != [] && (forall k :: 0 <= k < |key| ==> IsWordChar(key[k])) &&
    forall k :: 0 <= k < |value| ==> IsValueChar(value[k])
  }

  /**
   * The pattern tried at `i`.  Both runs are maximal and what follows each
   * cannot extend it, so the greedy match needs no backtracking; the two
   * quotes need not be the same character.
   */
  function MatchAt(s: string, i: nat): (m: Option<Match>)
    requires i <= |s|
    ensures m.Some? ==> i < m.value.end <= |s|
  {
    var k := RunEnd(s, i, IsWordChar);
    if k == i || k + 1 >= |s| || s[k] != '=' || !IsQuote(s[k + 1]) then None
    else
      var v := RunEnd(s, k + 2, IsValueChar);
      if v == |s| then None
      else Some(Match(s[i..k], s[k + 2..v], v + 1))
  }

  /** preg_match_all from position `i`: the leftmost match, then the matches after it. */
  function MatchesFrom(s: string, i: nat): (ms: seq<Match>)
    requires i <= |s|
    decreases |s| - i
  {
    if i == |s| then []
    else match MatchAt(s, i)
      case None => MatchesFrom(s, i + 1)
      case Some(m) => [m] + MatchesFrom(s, m.end)
  }

  /** A match has a key of word characters and a value without quotes. */
  lemma MatchAtWellFormed(s: string, i: nat)
    requires i <= |s| && MatchAt(s, i).Some?
    ensures WellFormed(MatchAt(s, i).value.key, MatchAt(s, i).value.value)
  {
    var k := RunEnd(s, i, IsWordChar);
    RunEndFacts(s, i, IsWordChar);
    RunEndFacts(s, k + 2, IsValueChar);
  }

  /** Every match found is well formed. */
  lemma {:induction false} MatchesWellFormed(s: string, i: nat)
    requires i <= |s|
    ensures forall n :: 0 <= n < |MatchesFrom(s, i)| ==> WellFormed(MatchesFrom(s, i)[n].key, MatchesFrom(s, i)[n].value)
    decreases |s| - i
  {
    if i < |s| {
      match MatchAt(s, i)
      case None =>
        MatchesWellFormed(s, i + 1);
      case Some(m) =>
        MatchAtWellFormed(s, i);
        MatchesWellFormed(s, m.end);
        var rest := MatchesFrom(s, m.end);
        assert forall n :: 1 <= n < |MatchesFrom(s, i)| ==> MatchesFrom(s, i)[n] == rest[n - 1];
    }
  }

  /** The key/value pairs of the matches. */
  function Pairs(ms: seq<Match>): (ps: seq<(string, string)>)
    ensures |ps| == |ms|
    ensures forall n :: 0 <= n < |ms| ==> ps[n] == (ms[n].key, ms[n].value)
  {
    seq(|ms|, n requires 0 <= n < |ms| => (ms[n].key, ms[n].value))
  }

  /** The foreach over the matches: `$attributes[$key] = $value` in match order. */
  function AttributesOf(ms: seq<Match>): Arr<string>
    decreases |ms|
  {
    if ms == [] then [] else Put(AttributesOf(ms[..|ms| - 1]), ms[|ms| - 1].key, ms[|ms| - 1].value)
  }

  /** The value of the last match with the key, if any. */
  function LastValue(ms: seq<Match>, key: string): (r: Option<string>)
    ensures r.None? <==> forall n :: 0 <= n < |ms| ==> ms[n].key != key
    ensures r.Some? ==> exists n :: (0 <= n < |ms| && ms[n].key == key && ms[n].value == r.value &&
      forall j :: n < j < |ms| ==> ms[j].key != key)
    decreases |ms|
  {
    if ms == [] then None
    else if ms[|ms| - 1].key == key then Some(ms[|ms| - 1].value)
    else
      var r := LastValue(ms[..|ms| - 1], key);
      assert forall n :: 0 <= n < |ms| - 1 ==> ms[..|ms| - 1][n] == ms[n];
      r
  }

  /** A later duplicate overwrites an earlier one: each key reads the value of its last match. */
  lemma {:induction false} AttributesLastWins(ms: seq<Match>, key: string)
    ensures Get(AttributesOf(ms), key) == LastValue(ms, key)
    decreases |ms|
  {
    if ms != [] {
      AttributesLastWins(ms[..|ms| - 1], key);
    }
  }

  /** The array has each key once and only values the matches carry. */
  lemma {:induction false} AttributesShape(ms: seq<Match>)
    ensures UniqueKeys(AttributesOf(ms))
    ensures forall e :: e in AttributesOf(ms) ==> exists n :: 0 <= n < |ms| && e == (ms[n].key, ms[n].value)
    decreases |ms|
  {
    if ms != [] {
      var init := ms[..|ms| - 1];
      var last := ms[|ms| - 1];
      AttributesShape(init);
      PutUnique(AttributesOf(init), last.key, last.value);
      forall e | e in AttributesOf(ms) ensures exists n :: 0 <= n < |ms| && e == (ms[n].key, ms[n].value) {
        if e != (last.key, last.value) {
          var n :| 0 <= n < |init| && e == (init[n].key, init[n].value);
          assert init[n] == ms[n];
        }
      }
    }
  }

  /** parse_shortcode_attributes. */
  method ParseShortcodeAttributes(attributesString: string) returns (attributes: Arr<string>)
    ensures attributes == AttributesOf(MatchesFrom(attributesString, 0))
    ensures UniqueKeys(attributes)
    ensures forall e :: e in attributes ==> WellFormed(e.0, e.1)
  {
    var matches := MatchesFrom(attributesString, 0);
    attributes := [];
    for n := 0 to |matches|
      invariant attributes == AttributesOf(matches[..n])
    {
      assert matches[..n + 1][..n] == matches[..n];
      attributes := Put(attributes, matches[n].key, matches[n].value);
    }
    assert matches[..|matches|] == matches;
    AttributesShape(matches);
    MatchesWellFormed(attributesString, 0);
  }

  // ---------------------------------------------------------------------
  // Round trip: attributes written as key="value" are read back
  // ---------------------------------------------------------------------

  /** `key="value" `. */
  function AttributeText(a: (string, string)): string {
    a.0 + "=\"" + a.1 + "\" "
  }

  function AttributesText(attrs: seq<(string, string)>): string
    decreases |attrs|
  {
    if attrs == [] then "" else AttributeText(attrs[0]) + AttributesText(attrs[1..])
  }

  /** The layout of one written attribute, character by character. */
  lemma AttributeTextLayout(a: (string, string))
    ensures var t := AttributeText(a); var k, v := |a.0|, |a.1|;
      |t| == k + v + 4 &&
      t[..k] == a.0 && t[k] == '=' && t[k + 1] == '"' && t[k + 2..k + 2 + v] == a.1 &&
      t[k + 2 + v] == '"' && t[k + 3 + v] == ' '
  {
  }

  /** A text occurring inside an occurrence occurs in the whole string. */
  lemma Within(s: string, i: nat, t: string, j: nat, x: string)
    requires i + |t| <= |s| && s[i..i + |t|] == t
    requires j + |x| <= |t| && t[j..j + |x|] == x
    ensures s[i + j..i + j + |x|] == x
  {
    var u, w := s[i + j..i + j + |x|], s[i..i + |t|];
    assert forall m :: 0 <= m < |x| ==> u[m] == w[j + m];
    assert u == x;
  }

  /** The characters of an occurrence pass `p` when those of the text do. */
  lemma RunOver(s: string, i: nat, x: string, p: char -> bool)
    requires i + |x| <= |s| && s[i..i + |x|] == x
    requires forall m :: 0 <= m < |x| ==> p(x[m])
    ensures forall m :: i <= m < i + |x| ==> p(s[m])
  {
    forall m | i <= m < i + |x| ensures p(s[m]) {
      assert s[m] == s[i..i + |x|][m - i];
    }
  }

  /** MatchAt, read off the two runs and the characters around them. */
  lemma MatchAtShape(s: string, i: nat, k: nat, v: nat)
    requires i < k && k + 1 < |s| && v < |s|
    requires RunEnd(s, i, IsWordChar) == k && s[k] == '=' && IsQuote(s[k + 1])
    requires RunEnd(s, k + 2, IsValueChar) == v
    ensures MatchAt(s, i) == Some(Match(s[i..k], s[k + 2..v], v + 1))
  {
  }

  /** Where the runs of a written attribute end, and what they hold. */
  lemma AttributeRuns(s: string, i: nat, j: nat, a: (string, string))
    requires WellFormed(a.0, a.1)
    requires j == i + |AttributeText(a)| && j <= |s| && s[i..j] == AttributeText(a)
    ensures var k, v := i + |a.0|, i + |a.0| + 2 + |a.1|;
      i < k && v + 2 == j &&
      RunEnd(s, i, IsWordChar) == k && s[k] == '=' && IsQuote(s[k + 1]) &&
      RunEnd(s, k + 2, IsValueChar) == v && s[i..k] == a.0 && s[k + 2..v] == a.1
  {
    var t := AttributeText(a);
    var k, v := |a.0|, |a.1|;
    AttributeTextLayout(a);
    assert t[0..k] == a.0;
    Within(s, i, t, 0, a.0);
    Within(s, i, t, k + 2, a.1);
    assert s[i + k] == t[k] && s[i + k + 1] == t[k + 1] && s[i + k + 2 + v] == t[k + 2 + v] by {
      var u := s[i..j];
      assert s[i + k] == u[k] && s[i + k + 1] == u[k + 1] && s[i + k + 2 + v] == u[k + 2 + v];
    }
    RunOver(s, i, a.0, IsWordChar);
    RunOver(s, i + k + 2, a.1, IsValueChar);
    RunEndExact(s, i, i + k, IsWordChar);
    RunEndExact(s, i + k + 2, i + k + 2 + v, IsValueChar);
  }

  /** A written attribute is matched where it starts. */
  lemma MatchAtText(s: string, i: nat, j: nat, a: (string, string))
    requires WellFormed(a.0, a.1)
    requires j == i + |AttributeText(a)| && j <= |s| && s[i..j] == AttributeText(a)
    ensures MatchAt(s, i) == Some(Match(a.0, a.1, j - 1))
  {
    AttributeRuns(s, i, j, a);
    MatchAtShape(s, i, i + |a.0|, i + |a.0| + 2 + |a.1|);
  }

  /** Nothing is matched at a space. */
  lemma NoMatchAtSpace(s: string, e: nat)
    requires e < |s| && s[e] == ' '
    ensures MatchAt(s, e) == None
  {
    RunEndExact(s, e, e, IsWordChar);
  }

  /** After a match, matching resumes where it ends. */
  lemma MatchesStep(s: string, i: nat, m: Match)
    requires i < |s| && MatchAt(s, i) == Some(m)
    ensures MatchesFrom(s, i) == [m] + MatchesFrom(s, m.end)
  {
  }

  /** Where nothing matches, matching resumes at the next character. */
  lemma MatchesSkip(s: string, i: nat, next: nat)
    requires i < |s| && MatchAt(s, i) == None && next == i + 1
    ensures MatchesFrom(s, i) == MatchesFrom(s, next)
  {
  }

  /** A written attribute ends with a space. */
  lemma SpaceAfterText(s: string, i: nat, j: nat, a: (string, string))
    requires j == i + |AttributeText(a)| && j <= |s| && s[i..j] == AttributeText(a)
    ensures s[j - 1] == ' '
  {
    var t := AttributeText(a);
    AttributeTextLayout(a);
    assert s[i..j][|t| - 1] == s[j - 1];
  }

  /** A written attribute is matched where it starts, and the space after it matches nothing. */
  lemma MatchesOverText(s: string, i: nat, j: nat, a: (string, string))
    requires WellFormed(a.0, a.1)
    requires j == i + |AttributeText(a)| && j <= |s| && s[i..j] == AttributeText(a)
    ensures MatchesFrom(s, i) == [Match(a.0, a.1, j - 1)] + MatchesFrom(s, j)
  {
    var e := j - 1;
    MatchAtText(s, i, j, a);
    MatchesStep(s, i, Match(a.0, a.1, e));
    SpaceAfterText(s, i, j, a);
    NoMatchAtSpace(s, e);
    MatchesSkip(s, e, j);
  }

  /** The pairs of a match followed by more matches. */
  lemma PairsCons(m: Match, rest: seq<Match>)
    ensures Pairs([m] + rest) == [(m.key, m.value)] + Pairs(rest)
  {
    assert forall n :: 1 <= n <= |rest| ==> ([m] + rest)[n] == rest[n - 1];
  }

  /** Written attributes from any position on are matched in order. */
  lemma {:induction false} MatchesOfText(s: string, i: nat, attrs: seq<(string, string)>)
    requires forall n :: 0 <= n < |attrs| ==> WellFormed(attrs[n].0, attrs[n].1)
    requires i <= |s| && s[i..] == AttributesText(attrs)
    ensures Pairs(MatchesFrom(s, i)) == attrs
    decreases |attrs|
  {
    if attrs == [] {
      assert i == |s|;
    } else {
      var a := attrs[0];
      var t := AttributeText(a);
      var rest := AttributesText(attrs[1..]);
      var j := i + |t|;
      assert s[i..] == t + rest;
      assert s[i..j] == t by {
        assert s[i..j] == s[i..][..|t|];
      }
      assert s[j..] == rest by {
        assert s[j..] == s[i..][|t|..];
      }
      MatchesOverText(s, i, j, a);
      MatchesOfText(s, j, attrs[1..]);
      PairsCons(Match(a.0, a.1, j - 1), MatchesFrom(s, j));
      assert attrs == [a] + attrs[1..];
    }
  }

  /** Writing well-formed attributes and parsing them gives the pairs back, in order. */
  lemma ParseRoundTrip(attrs: seq<(string, string)>)
    requires forall n :: 0 <= n < |attrs| ==> WellFormed(attrs[n].0, attrs[n].1)
    ensures Pairs(MatchesFrom(AttributesText(attrs), 0)) == attrs
  {
    var s := AttributesText(attrs);
    assert s[0..] == s;
    MatchesOfText(s, 0, attrs);
  }

  // ---------------------------------------------------------------------
  // sanitize_id
  // ---------------------------------------------------------------------

  /** sanitize_id: every character outside `[a-zA-Z0-9_-]` is deleted. */
  function SanitizeId(id: string): (r: string)
    ensures forall k :: 0 <= k < |r| ==> IsIdentChar(r[k])
  {
    FilterKeepsOnly(id, IsIdentChar);
    Filter(id, IsIdentChar)
  }

  /** Sanitising twice is sanitising once, and a clean id is kept as it is. */
  lemma SanitizeIdIdempotent(id: string)
    ensures SanitizeId(SanitizeId(id)) == SanitizeId(id)
    ensures (forall k :: 0 <= k < |id| ==> IsIdentChar(id[k])) ==> SanitizeId(id) == id
  {
    FilterIdempotent(id, IsIdentChar);
    if forall k :: 0 <= k < |id| ==> IsIdentChar(id[k]) {
      FilterKeepsAll(id, IsIdentChar);
    }
  }

  // ---------------------------------------------------------------------
  // generate_parallax_section
  // ---------------------------------------------------------------------

  const ErrorHtml := "<div class=\"parallax-error\">Parallax section requires id and background_image attributes</div>"

  /** `isset($attributes[key]) ? $attributes[key] : default`. */
  function AttrOr(attributes: Arr<string>, key: string, default: string): string {
    match Get(attributes, key)
    case Some(v) => v
    case None => default
  }

  /** `isset($attributes[key]) ? floatval($attributes[key]) : default`. */
  function NumberOr(attributes: Arr<string>, key: string, default: real, floatval: string -> real): real {
    match Get(attributes, key)
    case Some(v) => floatval(v)
    case None => default
  }

  /** `isset($attributes[key]) ? htmlspecialchars($attributes[key]) : ''`. */
  function EscapedOr(attributes: Arr<string>, key: string): string {
    match Get(attributes, key)
    case Some(v) => Auth.HtmlSpecialChars(v)
    case None => ""
  }

  /** `max(0.0, x)`. */
  function AtLeastZero(x: real): (r: real)
    ensures r >= 0.0 && (r == x || r == 0.0)
    ensures x >= 0.0 ==> r == x
  {
    if x < 0.0 then 0.0 else x
  }

  /** `max(0.0, min(1.0, x))`. */
  function Clamp01(x: real): (r: real)
    ensures 0.0 <= r <= 1.0
    ensures 0.0 <= x <= 1.0 ==> r == x
    ensures x < 0.0 ==> r == 0.0
    ensures x > 1.0 ==> r == 1.0
  {
    if x > 1.0 then 1.0 else if x < 0.0 then 0.0 else x
  }

  /** The CSS classes: the fixed class, the custom classes split on spaces, the effect class. */
  function CssClasses(classAttr: string, effect: string): seq<string> {
    ["parallax-section"] + (if Empty(classAttr) then [] else Explode(classAttr, ' ')) + ["parallax-effect-" + effect]
  }

  /** The class attribute holds the custom class text unchanged, between the two fixed classes. */
  lemma ClassAttributeText(classAttr: string, effect: string)
    ensures Implode(CssClasses(classAttr, effect), " ") ==
      "parallax-section " + (if Empty(classAttr) then "" else classAttr + " ") + "parallax-effect-" + effect
  {
    var first, last := ["parallax-section"], ["parallax-effect-" + effect];
    if Empty(classAttr) {
      assert CssClasses(classAttr, effect) == first + last;
      ImplodeConcat(first, last, " ");
    } else {
      var custom := Explode(classAttr, ' ');
      ImplodeExplode(classAttr, ' ');
      ImplodeConcat(first, custom, " ");
      ImplodeConcat(first + custom, last, " ");
    }
  }

  datatype Overlay = Overlay(color: string, opacity: real)

  /** A section as generate_parallax_section lays it out. */
  datatype Section = Section(classes: seq<string>, id: string, customId: string, speed: real, effect: string,
                             background: string, overlay: Option<Overlay>, content: string)

  /** The overlay is drawn when its colour is truthy and its clamped opacity positive. */
  function OverlayOf(color: string, opacity: real): (r: Option<Overlay>)
    ensures r.Some? <==> !Empty(color) && opacity > 0.0
    ensures r.Some? ==> r.value == Overlay(color, opacity)
  {
    if !Empty(color) && opacity > 0.0 then Some(Overlay(color, opacity)) else None
  }

  /** The section read from attributes that have an id and a background image. */
  function SectionFrom(attributes: Arr<string>, content: string, floatval: string -> real): Section {
    var effect := AttrOr(attributes, "effect", "scroll");
    var opacity := Clamp01(NumberOr(attributes, "overlay_opacity", 0.4, floatval));
    Section(CssClasses(EscapedOr(attributes, "class"), effect), SanitizeId(OrEmpty(Get(attributes, "id"))),
            EscapedOr(attributes, "custom_id"), AtLeastZero(NumberOr(attributes, "speed", 0.5, floatval)), effect,
            Auth.HtmlSpecialChars(OrEmpty(Get(attributes, "background_image"))),
            OverlayOf(AttrOr(attributes, "overlay_color", "rgba(0,0,0,0.4)"), opacity), content)
  }

  /** `empty($attributes['id']) || empty($attributes['background_image'])`. */
  predicate MissingRequired(attributes: Arr<string>) {
    Empty(OrEmpty(Get(attributes, "id"))) || Empty(OrEmpty(Get(attributes, "background_image")))
  }

  /** The section read from the attributes, or None when the id or the background image is missing or empty. */
  function SectionOf(attributes: Arr<string>, content: string, floatval: string -> real): (r: Option<Section>)
    ensures r.None? <==> Empty(OrEmpty(Get(attributes, "id"))) || Empty(OrEmpty(Get(attributes, "background_image")))
    ensures r.Some? ==> r.value.speed >= 0.0 && forall k :: 0 <= k < |r.value.id| ==> IsIdentChar(r.value.id[k])
    ensures r.Some? && r.value.overlay.Some? ==>
      0.0 < r.value.overlay.value.opacity <= 1.0 && !Empty(r.value.overlay.value.color)
  {
    if MissingRequired(attributes) then None else Some(SectionFrom(attributes, content, floatval))
  }

  /**
   * The clamps and defaults: the speed is the given one but never below
   * zero (0.5 when absent), the opacity is clamped into [0, 1] (0.4 when
   * absent), and the overlay is drawn exactly when its colour is truthy and
   * the clamped opacity positive.
   */
  lemma SectionRules(attributes: Arr<string>, content: string, floatval: string -> real)
    requires SectionOf(attributes, content, floatval).Some?
    ensures var sec := SectionOf(attributes, content, floatval).value;
      (HasKey(attributes, "speed") ==> sec.speed == AtLeastZero(floatval(Get(attributes, "speed").value))) &&
      (!HasKey(attributes, "speed") ==> sec.speed == 0.5) &&
      sec.effect == (if HasKey(attributes, "effect") then Get(attributes, "effect").value else "scroll") &&
      (sec.overlay.Some? <==>
        !Empty(AttrOr(attributes, "overlay_color", "rgba(0,0,0,0.4)")) &&
        Clamp01(NumberOr(attributes, "overlay_opacity", 0.4, floatval)) > 0.0) &&
      sec.id == SanitizeId(Get(attributes, "id").value)
  {
  }

  /** With only the two required attributes, every default applies. */
  lemma SectionDefaults(id: string, image: string, content: string, floatval: string -> real)
    requires !Empty(id) && !Empty(image)
    ensures SectionOf([("id", id), ("background_image", image)], content, floatval) ==
      Some(Section(["parallax-section", "parallax-effect-scroll"], SanitizeId(id), "", 0.5, "scroll",
                   Auth.HtmlSpecialChars(image), Some(Overlay("rgba(0,0,0,0.4)", 0.4)), content))
  {
    var a := [("id", id), ("background_image", image)];
    assert !HasKey(a, "speed") && !HasKey(a, "effect") && !HasKey(a, "class") && !HasKey(a, "custom_id");
    assert !HasKey(a, "overlay_color") && !HasKey(a, "overlay_opacity");
    assert Get(a, "id") == Some(id) && Get(a, "background_image") == Some(image);
    assert "parallax-effect-" + "scroll" == "parallax-effect-scroll";
    assert CssClasses("", "scroll") == ["parallax-section"] + [] + ["parallax-effect-scroll"];
    assert ["parallax-section"] + [] + ["parallax-effect-scroll"] == ["parallax-section", "parallax-effect-scroll"];
    assert AtLeastZero(0.5) == 0.5 && Clamp01(0.4) == 0.4;
    assert AttrOr(a, "effect", "scroll") == "scroll";
    assert NumberOr(a, "speed", 0.5, floatval) == 0.5 && NumberOr(a, "overlay_opacity", 0.4, floatval) == 0.4;
    assert AttrOr(a, "overlay_color", "rgba(0,0,0,0.4)") == "rgba(0,0,0,0.4)";
    assert OverlayOf("rgba(0,0,0,0.4)", 0.4) == Some(Overlay("rgba(0,0,0,0.4)", 0.4));
    assert SectionOf(a, content, floatval) == Some(Section(CssClasses("", "scroll"), SanitizeId(id), "",
      AtLeastZero(0.5), "scroll", Auth.HtmlSpecialChars(image), OverlayOf("rgba(0,0,0,0.4)", Clamp01(0.4)), content));
  }

  // ---------------------------------------------------------------------
  // The section's HTML
  // ---------------------------------------------------------------------

  /** The attributes of the section's opening tag, in order; the custom id only when it is truthy. */
  function TagAttributes(sec: Section, show: real -> string): seq<(string, string)> {
    [("class", Implode(sec.classes, " ")), ("id", sec.id)] +
    (if Empty(sec.customId) then [] else [("data-custom-id", sec.customId)]) +
    [("data-parallax-speed", show(sec.speed)), ("data-parallax-effect", sec.effect)]
  }

  /** ` name="value"`. */
  function AttrHtml(a: (string, string)): string {
    " " + a.0 + "=\"" + a.1 + "\""
  }

  /** The opening tag, closed by `>`. */
  function OpenTag(sec: Section, show: real -> string): string {
    "<div" + Concat(TagAttributes(sec, show), AttrHtml) + ">"
  }

  /** The opening tag as the plugin writes it: `">` after the last attribute's closing quote. */
  function OpenTagAsWritten(sec: Section, show: real -> string): string {
    "<div" + Concat(TagAttributes(sec, show), AttrHtml) + "\">"
  }

  function BackgroundHtml(image: string): string {
    "<div class=\"parallax-background\" style=\"background-image: url('" + image + "');\"></div>"
  }

  function OverlayHtml(overlay: Option<Overlay>, show: real -> string): string {
    match overlay
    case None => ""
    case Some(o) => "<div class=\"parallax-overlay\" style=\"background-color: " + o.color + "; opacity: " + show(o.opacity) + ";\"></div>"
  }

  function ContentHtml(content: string): string {
    "<div class=\"parallax-content\">" + content + "</div>"
  }

  /** The whole section: the opening tag, the background, the overlay if drawn, the content. */
  function SectionHtml(sec: Section, show: real -> string): string {
    OpenTag(sec, show) + BackgroundHtml(sec.background) + OverlayHtml(sec.overlay, show) + ContentHtml(sec.content) + "</div>"
  }

  /** What generate_parallax_section returns. */
  function GeneratedHtml(attributes: Arr<string>, content: string, floatval: string -> real, show: real -> string): string {
    match SectionOf(attributes, content, floatval)
    case None => ErrorHtml
    case Some(sec) => SectionHtml(sec, show)
  }

  /** Writing one more attribute of the opening tag. */
  lemma AppendAttr(html: string, written: seq<(string, string)>, a: (string, string))
    requires html == "<div" + Concat(written, AttrHtml)
    ensures html + AttrHtml(a) == "<div" + Concat(written + [a], AttrHtml)
  {
    ConcatAppend(written, a, AttrHtml);
  }

  /**
   * The attribute values with their defaults, the clamps of lines 81-85 and
   * the class array of lines 88-92, for attributes that passed the check
   * for an id and a background image.
   */
  method ReadSection(attributes: Arr<string>, content: string, floatval: string -> real) returns (sec: Section)
    ensures sec == SectionFrom(attributes, content, floatval)
  {
    var id := SanitizeId(OrEmpty(Get(attributes, "id")));
    var backgroundImage := Auth.HtmlSpecialChars(OrEmpty(Get(attributes, "background_image")));
    var speed := NumberOr(attributes, "speed", 0.5, floatval);
    var effect := AttrOr(attributes, "effect", "scroll");
    var overlayColor := AttrOr(attributes, "overlay_color", "rgba(0,0,0,0.4)");
    var overlayOpacity := NumberOr(attributes, "overlay_opacity", 0.4, floatval);
    var classAttr := EscapedOr(attributes, "class");
    var customId := EscapedOr(attributes, "custom_id");

    speed := if speed < 0.0 then 0.0 else speed;
    overlayOpacity := if overlayOpacity > 1.0 then 1.0 else overlayOpacity;
    overlayOpacity := if overlayOpacity < 0.0 then 0.0 else overlayOpacity;

    var cssClasses := ClassList(classAttr, effect);
    var overlay := None;
    if !Empty(overlayColor) && overlayOpacity > 0.0 {
      overlay := Some(Overlay(overlayColor, overlayOpacity));
    }
    sec := Section(cssClasses, id, customId, speed, effect, backgroundImage, overlay, content);
  }

  /** The class array: the fixed class, then the custom classes when there are any, then the effect class. */
  method ClassList(classAttr: string, effect: string) returns (cssClasses: seq<string>)
    ensures cssClasses == CssClasses(classAttr, effect)
  {
    cssClasses := ["parallax-section"];
    if !Empty(classAttr) {
      cssClasses := cssClasses + Explode(classAttr, ' ');
    }
    cssClasses := cssClasses + ["parallax-effect-" + effect];
  }

  /** The opening tag, one attribute after the other. */
  method OpeningTag(sec: Section, show: real -> string) returns (html: string)
    ensures html == OpenTag(sec, show)
  {
    ghost var written: seq<(string, string)> := [];
    html := "<div";
    assert html == "<div" + Concat(written, AttrHtml);
    AppendAttr(html, written, ("class", Implode(sec.classes, " ")));
    html, written := html + AttrHtml(("class", Implode(sec.classes, " "))), written + [("class", Implode(sec.classes, " "))];
    AppendAttr(html, written, ("id", sec.id));
    html, written := html + AttrHtml(("id", sec.id)), written + [("id", sec.id)];
    if !Empty(sec.customId) {
      AppendAttr(html, written, ("data-custom-id", sec.customId));
      html, written := html + AttrHtml(("data-custom-id", sec.customId)), written + [("data-custom-id", sec.customId)];
    }
    AppendAttr(html, written, ("data-parallax-speed", show(sec.speed)));
    html, written := html + AttrHtml(("data-parallax-speed", show(sec.speed))), written + [("data-parallax-speed", show(sec.speed))];
    AppendAttr(html, written, ("data-parallax-effect", sec.effect));
    html, written := html + AttrHtml(("data-parallax-effect", sec.effect)), written + [("data-parallax-effect", sec.effect)];
    assert written == TagAttributes(sec, show);
    html := html + ">";
  }

  /**
   * generate_parallax_section: the error div when the id or the background
   * image is missing; otherwise the section, built by appending, and `used`
   * for the page flag `$GLOBALS['parallax_used']`.
   */
  method GenerateParallaxSection(attributes: Arr<string>, content: string, floatval: string -> real, show: real -> string)
    returns (html: string, used: bool)
    ensures used <==> SectionOf(attributes, content, floatval).Some?
    ensures html == GeneratedHtml(attributes, content, floatval, show)
  {
    if MissingRequired(attributes) {
      return ErrorHtml, false;
    }
    var sec := ReadSection(attributes, content, floatval);
    assert SectionOf(attributes, content, floatval) == Some(sec);
    html := OpeningTag(sec, show);
    html := html + BackgroundHtml(sec.background);
    if sec.overlay.Some? {
      html := html + OverlayHtml(sec.overlay, show);
    } else {
      assert html + OverlayHtml(sec.overlay, show) == html;
    }
    html := html + ContentHtml(content);
    html := html + "</div>";
    used := true;
  }

  // ---------------------------------------------------------------------
  // The stray quote of the opening tag
  // ---------------------------------------------------------------------

  /** How often `c` occurs in `s`. */
  function Count(s: string, c: char): nat
    decreases |s|
  {
    if s == [] then 0 else Count(s[..|s| - 1], c) + (if s[|s| - 1] == c then 1 else 0)
  }

  lemma {:induction false} CountConcat(a: string, b: string, c: char)
    ensures Count(a + b, c) == Count(a, c) + Count(b, c)
    decreases |b|
  {
    if b != [] {
      var b' := b[..|b| - 1];
      assert (a + b)[..|a + b| - 1] == a + b';
      CountConcat(a, b', c);
    } else {
      assert a + b == a;
    }
  }

  lemma {:induction false} CountAbsent(s: string, c: char)
    requires c !in s
    ensures Count(s, c) == 0
    decreases |s|
  {
    if s != [] {
      assert forall x :: x in s[..|s| - 1] ==> x in s;
      CountAbsent(s[..|s| - 1], c);
    }
  }

  /** Neither the name nor the value of an attribute holds a double quote. */
  predicate QuoteFree(a: (string, string)) {
    '"' !in a.0 && '"' !in a.1
  }

  /** A quote-free attribute brings two double quotes, its own. */
  lemma CountAttr(a: (string, string))
    requires QuoteFree(a)
    ensures Count(AttrHtml(a), '"') == 2
  {
    CountAbsent(a.0, '"');
    CountAbsent(a.1, '"');
    CountConcat(" " + a.0 + "=\"" + a.1, "\"", '"');
    CountConcat(" " + a.0 + "=\"", a.1, '"');
    CountConcat(" " + a.0, "=\"", '"');
    CountConcat(" ", a.0, '"');
  }

  lemma {:induction false} CountAttrs(attrs: seq<(string, string)>)
    requires forall n :: 0 <= n < |attrs| ==> QuoteFree(attrs[n])
    ensures Count(Concat(attrs, AttrHtml), '"') == 2 * |attrs|
    decreases |attrs|
  {
    if attrs != [] {
      var init := attrs[..|attrs| - 1];
      CountAttrs(init);
      CountAttr(attrs[|attrs| - 1]);
      CountConcat(Concat(init, AttrHtml), AttrHtml(attrs[|attrs| - 1]), '"');
    }
  }

  /** Every attribute of the opening tag is free of double quotes. */
  predicate QuoteFreeTag(sec: Section, show: real -> string) {
    forall n :: 0 <= n < |TagAttributes(sec, show)| ==> QuoteFree(TagAttributes(sec, show)[n])
  }

  /** The tag text before its closing: `<div` and an even number of quotes. */
  lemma TagBodyQuotes(sec: Section, show: real -> string)
    requires QuoteFreeTag(sec, show)
    ensures Count("<div" + Concat(TagAttributes(sec, show), AttrHtml), '"') == 2 * |TagAttributes(sec, show)|
  {
    CountAttrs(TagAttributes(sec, show));
    CountAbsent("<div", '"');
    CountConcat("<div", Concat(TagAttributes(sec, show), AttrHtml), '"');
  }

  /** The corrected opening tag closes every quote it opens. */
  lemma OpenTagQuotesBalanced(sec: Section, show: real -> string)
    requires QuoteFreeTag(sec, show)
    ensures Count(OpenTag(sec, show), '"') % 2 == 0
  {
    TagBodyQuotes(sec, show);
    CountAbsent(">", '"');
    CountConcat("<div" + Concat(TagAttributes(sec, show), AttrHtml), ">", '"');
  }

  /**
   * As written, the opening tag has one double quote too many: it ends in
   * `"">`, the closing quote of the effect attribute and a stray one.
   */
  lemma AsWrittenTagHasStrayQuote(sec: Section, show: real -> string)
    requires QuoteFreeTag(sec, show)
    ensures Count(OpenTagAsWritten(sec, show), '"') % 2 == 1
    ensures var t := OpenTagAsWritten(sec, show); |t| >= 3 && t[|t| - 3..] == "\"\">"
  {
    var body := "<div" + Concat(TagAttributes(sec, show), AttrHtml);
    TagBodyQuotes(sec, show);
    CountConcat(body, "\">", '"');
    var attrs := TagAttributes(sec, show);
    var last := attrs[|attrs| - 1];
    assert attrs[..|attrs| - 1] + [last] == attrs;
    ConcatAppend(attrs[..|attrs| - 1], last, AttrHtml);
    var t := OpenTagAsWritten(sec, show);
    assert t == body + "\">";
    assert body[|body| - 1] == '"';
  }

  /** The opening tag is quote-free when each attribute value is. */
  lemma TagQuoteFree(sec: Section, show: real -> string)
    requires '"' !in Implode(sec.classes, " ") && '"' !in sec.id && '"' !in sec.customId
    requires '"' !in show(sec.speed) && '"' !in sec.effect
    ensures QuoteFreeTag(sec, show)
  {
    var attrs := TagAttributes(sec, show);
    forall n | 0 <= n < |attrs| ensures QuoteFree(attrs[n]) {
      var name := attrs[n].0;
      assert name == "class" || name == "id" || name == "data-custom-id" ||
             name == "data-parallax-speed" || name == "data-parallax-effect";
    }
  }

  /** A value found under a key is one of the array's values. */
  lemma FoundValueQuoteFree(attributes: Arr<string>, key: string)
    requires forall e :: e in attributes ==> '"' !in e.1
    ensures Get(attributes, key).Some? ==> '"' !in Get(attributes, key).value
  {
  }

  /** Quote-free custom classes and effect give a quote-free class attribute. */
  lemma ClassesQuoteFree(classAttr: string, effect: string)
    requires '"' !in classAttr && '"' !in effect
    ensures '"' !in Implode(CssClasses(classAttr, effect), " ")
  {
    var custom := if Empty(classAttr) then [] else Explode(classAttr, ' ');
    if !Empty(classAttr) {
      ExplodeKeepsAbsent(classAttr, ' ', '"');
    }
    var e := "parallax-effect-" + effect;
    forall k | 0 <= k < |e| ensures e[k] != '"' {
      if k >= 16 {
        assert e[k] == effect[k - 16];
      }
    }
    var classes := CssClasses(classAttr, effect);
    assert classes == ["parallax-section"] + custom + [e];
    forall k | 0 <= k < |classes| ensures '"' !in classes[k] {
      if 0 < k < |classes| - 1 {
        assert classes[k] == custom[k - 1];
      }
    }
    ImplodeKeepsAbsent(classes, " ", '"');
  }

  /** Attributes whose values hold no double quote give a quote-free opening tag. */
  lemma SectionFromQuoteFree(attributes: Arr<string>, content: string, floatval: string -> real,
                             show: real -> string)
    requires forall e :: e in attributes ==> '"' !in e.1
    requires forall x :: '"' !in show(x)
    ensures QuoteFreeTag(SectionFrom(attributes, content, floatval), show)
  {
    var sec := SectionFrom(attributes, content, floatval);
    FoundValueQuoteFree(attributes, "effect");
    FoundValueQuoteFree(attributes, "class");
    ClassesQuoteFree(EscapedOr(attributes, "class"), AttrOr(attributes, "effect", "scroll"));
    assert forall k :: 0 <= k < |sec.id| ==> sec.id[k] != '"';
    TagQuoteFree(sec, show);
  }

  /**
   * Every section the shortcode parser can produce has a quote-free tag, so
   * the stray quote is in every section the plugin writes.
   */
  lemma ParsedSectionsAreQuoteFree(attributesString: string, content: string, floatval: string -> real,
                                   show: real -> string)
    requires forall x :: '"' !in show(x)
    requires SectionOf(AttributesOf(MatchesFrom(attributesString, 0)), content, floatval).Some?
    ensures QuoteFreeTag(SectionOf(AttributesOf(MatchesFrom(attributesString, 0)), content, floatval).value, show)
  {
    var ms := MatchesFrom(attributesString, 0);
    var attributes := AttributesOf(ms);
    MatchesWellFormed(attributesString, 0);
    AttributesShape(ms);
    forall e | e in attributes ensures '"' !in e.1 {
      var n :| 0 <= n < |ms| && e == (ms[n].key, ms[n].value);
      assert WellFormed(ms[n].key, ms[n].value);
      assert forall k :: 0 <= k < |e.1| ==> IsValueChar(e.1[k]);
    }
    SectionFromQuoteFree(attributes, content, floatval, show);
  }
}
