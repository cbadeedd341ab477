/**
 * The string helpers of the static-site exporter (export.js): turning a
 * site-absolute link into one relative to the page being written, the meta
 * tags of a page, reading one attribute out of a shortcode's attribute text,
 * and the CSS class of a parallax section.  JavaScript's truthiness of a
 * string is emptiness: a missing value is given as "".
 */
module Export {
  import opened Php
  import opened PhpArray

  // ---------------------------------------------------------------------
  // Relative paths
  // ---------------------------------------------------------------------

  /** `s.repeat(n)`. */
  function Repeat(s: string, n: nat): (r: string)
    ensures |r| == n * |s|
  {
    if n == 0 then "" else s + Repeat(s, n - 1)
  }

  /** makeRelativePath: a site-absolute path climbs `depth` directories and drops its leading '/'. */
  function MakeRelativePath(path: string, depth: nat): (r: string)
    ensures !StartsWith(path, "/") ==> r == path
  {
    if !StartsWith(path, "/") then path else Repeat("../", depth) + path[1..]
  }

  /**
   * Where a relative link written into a page `depth` directories below the
   * export root points, as a site-absolute path: each leading "../" climbs
   * one level; None when the link climbs fewer levels than the depth.
   */
  function Resolve(rel: string, depth: nat): (r: Option<string>)
    decreases depth
  {
    if depth == 0 then Some("/" + rel)
    else if StartsWith(rel, "../") then Resolve(rel[3..], depth - 1)
    else None
  }

  /** A rewritten absolute path, resolved from the page it is written into, is the path itself. */
  lemma {:induction false} RelativePathResolves(path: string, depth: nat)
    requires StartsWith(path, "/")
    ensures Resolve(MakeRelativePath(path, depth), depth) == Some(path)
    decreases depth
  {
    if depth == 0 {
      assert MakeRelativePath(path, 0) == path[1..];
      assert "/" + path[1..] == path;
    } else {
      var rest := Repeat("../", depth - 1) + path[1..];
      assert MakeRelativePath(path, depth) == "../" + rest;
      assert ("../" + rest)[3..] == rest;
      assert ("../" + rest)[..3] == "../";
      RelativePathResolves(path, depth - 1);
    }
  }

  /** The rewritten path is the climb followed by the path without its '/'. */
  lemma RelativePathShape(path: string, depth: nat)
    requires StartsWith(path, "/")
    ensures |MakeRelativePath(path, depth)| == 3 * depth + |path| - 1
    ensures MakeRelativePath(path, depth)[3 * depth..] == path[1..]
  {
    var climb := Repeat("../", depth);
    assert MakeRelativePath(path, depth) == climb + path[1..];
  }

  // ---------------------------------------------------------------------
  // Meta tags
  // ---------------------------------------------------------------------

  /** The arguments of buildMetaTags. */
  datatype PageMeta = PageMeta(title: string, description: string, socialImage: string, siteTitle: string,
                               titleSeparator: string, appendSiteTitle: bool)

  /** The full title: the site title is appended when asked and both are set, and stands in for a missing title. */
  function FullTitle(m: PageMeta): (r: string)
    ensures m.title == "" ==> r == m.siteTitle
    ensures m.title != "" && !(m.appendSiteTitle && m.siteTitle != "") ==> r == m.title
    ensures m.appendSiteTitle && m.title != "" && m.siteTitle != "" ==>
      r == m.title + " " + m.titleSeparator + " " + m.siteTitle
    ensures r == "" <==> m.title == "" && m.siteTitle == ""
  {
    if m.appendSiteTitle && m.title != "" && m.siteTitle != "" then
      m.title + " " + m.titleSeparator + " " + m.siteTitle
    else if m.title == "" && m.siteTitle != "" then m.siteTitle
    else m.title
  }

  /** A `<meta>` element: `name` or `property`, the key, and the content. */
  datatype MetaTag = MetaTag(attribute: string, key: string, content: string)

  function Render(t: MetaTag): string {
    "<meta " + t.attribute + "=\"" + t.key + "\" content=\"" + t.content + "\">\n"
  }

  /** Every tag a page could carry, in the order they are written, whatever its value. */
  function AllTags(m: PageMeta): seq<MetaTag> {
    var t := FullTitle(m);
    [MetaTag("name", "description", m.description), MetaTag("property", "og:type", "website"),
     MetaTag("property", "og:title", t), MetaTag("property", "og:description", m.description),
     MetaTag("property", "og:image", m.socialImage), MetaTag("name", "twitter:card", "summary_large_image"),
     MetaTag("name", "twitter:title", t), MetaTag("name", "twitter:description", m.description),
     MetaTag("name", "twitter:image", m.socialImage)]
  }

  /** A tag is written when its content is set; og:type and twitter:card have fixed content and always are. */
  predicate Written(t: MetaTag) {
    t.content != ""
  }

  /** The piece one tag adds to the output: its text when it is written, otherwise nothing. */
  function Piece(t: MetaTag): string {
    if Written(t) then Render(t) else ""
  }

  /** buildMetaTags' output: the piece of every tag, in order. */
  function MetaTags(m: PageMeta): string {
    var t := FullTitle(m);
    Piece(MetaTag("name", "description", m.description)) + Piece(MetaTag("property", "og:type", "website")) +
      Piece(MetaTag("property", "og:title", t)) + Piece(MetaTag("property", "og:description", m.description)) +
      Piece(MetaTag("property", "og:image", m.socialImage)) + Piece(MetaTag("name", "twitter:card", "summary_large_image")) +
      Piece(MetaTag("name", "twitter:title", t)) + Piece(MetaTag("name", "twitter:description", m.description)) +
      Piece(MetaTag("name", "twitter:image", m.socialImage))
  }

  /** buildMetaTags: the text is appended tag by tag. */
  method BuildMetaTags(m: PageMeta) returns (tags: string)
    ensures tags == MetaTags(m)
  {
    var fullTitle := FullTitle(m);
    tags := "";
    if m.description != "" {
      tags := tags + Render(MetaTag("name", "description", m.description));
    }
    assert tags == Piece(MetaTag("name", "description", m.description));
    ghost var before := tags;
    tags := tags + Render(MetaTag("property", "og:type", "website"));
    assert tags == before + Piece(MetaTag("property", "og:type", "website"));
    before := tags;
    if fullTitle != "" {
      tags := tags + Render(MetaTag("property", "og:title", fullTitle));
    }
    assert tags == before + Piece(MetaTag("property", "og:title", fullTitle));
    before := tags;
    if m.description != "" {
      tags := tags + Render(MetaTag("property", "og:description", m.description));
    }
    assert tags == before + Piece(MetaTag("property", "og:description", m.description));
    before := tags;
    if m.socialImage != "" {
      tags := tags + Render(MetaTag("property", "og:image", m.socialImage));
    }
    assert tags == before + Piece(MetaTag("property", "og:image", m.socialImage));
    before := tags;
    tags := tags + Render(MetaTag("name", "twitter:card", "summary_large_image"));
    assert tags == before + Piece(MetaTag("name", "twitter:card", "summary_large_image"));
    before := tags;
    if fullTitle != "" {
      tags := tags + Render(MetaTag("name", "twitter:title", fullTitle));
    }
    assert tags == before + Piece(MetaTag("name", "twitter:title", fullTitle));
    before := tags;
    if m.description != "" {
      tags := tags + Render(MetaTag("name", "twitter:description", m.description));
    }
    assert tags == before + Piece(MetaTag("name", "twitter:description", m.description));
    before := tags;
    if m.socialImage != "" {
      tags := tags + Render(MetaTag("name", "twitter:image", m.socialImage));
    }
    assert tags == before + Piece(MetaTag("name", "twitter:image", m.socialImage));
  }

  /** The written tags: the full list with the tags that have an empty value left out, order kept. */
  function WrittenTags(m: PageMeta): seq<MetaTag> {
    FilterSeq(AllTags(m), Written)
  }

  /**
   * The output is exactly the written tags rendered in order: og:type and
   * twitter:card always, every other tag only when its value is set.
   */
  lemma MetaTagsAreWrittenTags(m: PageMeta)
    ensures MetaTags(m) == Concat(WrittenTags(m), Render)
    ensures AllTags(m)[1] in WrittenTags(m) && AllTags(m)[5] in WrittenTags(m)
    ensures forall t :: t in WrittenTags(m) <==> t in AllTags(m) && Written(t)
  {
    var all := AllTags(m);
    ConcatFilter(all, Written, Render, Piece);
    ConcatNine(all, Piece);
    FilterSeqMembers(all, Written);
  }

  /** Concatenating nine items, written out. */
  lemma ConcatNine<T>(items: seq<T>, text: T -> string)
    requires |items| == 9
    ensures Concat(items, text) ==
      text(items[0]) + text(items[1]) + text(items[2]) + text(items[3]) + text(items[4]) + text(items[5]) +
      text(items[6]) + text(items[7]) + text(items[8])
  {
    assert Concat(items[..0], text) == "";
    ConcatSnoc(items, 0, text);
    var acc := text(items[0]);
    assert "" + acc == acc;
    assert Concat(items[..1], text) == acc;
    ConcatSnoc(items, 1, text);
    acc := acc + text(items[1]);
    assert Concat(items[..2], text) == acc;
    ConcatSnoc(items, 2, text);
    acc := acc + text(items[2]);
    assert Concat(items[..3], text) == acc;
    ConcatSnoc(items, 3, text);
    acc := acc + text(items[3]);
    assert Concat(items[..4], text) == acc;
    ConcatSnoc(items, 4, text);
    acc := acc + text(items[4]);
    assert Concat(items[..5], text) == acc;
    ConcatSnoc(items, 5, text);
    acc := acc + text(items[5]);
    assert Concat(items[..6], text) == acc;
    ConcatSnoc(items, 6, text);
    acc := acc + text(items[6]);
    assert Concat(items[..7], text) == acc;
    ConcatSnoc(items, 7, text);
    acc := acc + text(items[7]);
    assert Concat(items[..8], text) == acc;
    ConcatSnoc(items, 8, text);
    acc := acc + text(items[8]);
    assert Concat(items[..9], text) == acc;
    assert items[..|items|] == items;
  }

  // ---------------------------------------------------------------------
  // Shortcode attributes
  // ---------------------------------------------------------------------

  predicate IsQuote(c: char) { c == '"' || c == '\'' }

  /** The first index at or after k holding a quote, or |s|. */
  function QuoteFrom(s: string, k: nat): (e: nat)
    requires k <= |s|
    ensures k <= e <= |s|
    ensures e < |s| ==> IsQuote(s[e])
    ensures forall j :: k <= j < e ==> !IsQuote(s[j])
    decreases |s| - k
  {
    if k == |s| || IsQuote(s[k]) then k else QuoteFrom(s, k + 1)
  }

  /**
   * `name=["']([^"']+)["']` tried at index i: the name, '=', a quote, a
   * non-empty run of non-quote characters and a closing quote of either
   * kind; the capture is the run.
   */
  function MatchAt(s: string, name: string, i: nat): (r: Option<string>)
    ensures r.Some? ==> |r.value| > 0 && forall c :: c in r.value ==> !IsQuote(c)
  {
    var j := i + |name| + 1;
    if j < |s| && s[i..i + |name|] == name && s[i + |name|] == '=' && IsQuote(s[j]) then
      var e := QuoteFrom(s, j + 1);
      if j + 1 < e < |s| then Some(s[j + 1..e]) else None
    else None
  }

  /** The leftmost index at or after `from` where the pattern matches. */
  function FirstMatch(s: string, name: string, from: nat): (r: Option<nat>)
    ensures r.Some? ==> from <= r.value <= |s| && MatchAt(s, name, r.value).Some?
    decreases |s| - from
  {
    if from > |s| then None
    else if MatchAt(s, name, from).Some? then Some(from)
    else FirstMatch(s, name, from + 1)
  }

  /** No index before the leftmost match matches, and there is none at all when nothing is found. */
  lemma {:induction false} FirstMatchIsFirst(s: string, name: string, from: nat)
    ensures FirstMatch(s, name, from).None? ==> forall j :: from <= j <= |s| ==> MatchAt(s, name, j).None?
    ensures FirstMatch(s, name, from).Some? ==>
      forall j :: from <= j < FirstMatch(s, name, from).value ==> MatchAt(s, name, j).None?
    decreases |s| - from
  {
    if from <= |s| && MatchAt(s, name, from).None? {
      FirstMatchIsFirst(s, name, from + 1);
    }
  }

  /** extractAttribute: the capture of the leftmost match, or null. */
  function ExtractAttribute(s: string, name: string): (r: Option<string>)
    ensures r.Some? ==> |r.value| > 0 && forall c :: c in r.value ==> !IsQuote(c)
  {
    match FirstMatch(s, name, 0)
    case None => None
    case Some(i) => MatchAt(s, name, i)
  }

  /**
   * An attribute written as name="value" is read back, provided nothing
   * before it can start a match: neither the text before it nor the name
   * contains '='.
   */
  lemma ExtractWritten(before: string, name: string, value: string, open: char, close: char, after: string)
    requires '=' !in before && '=' !in name
    requires |value| > 0 && forall c :: c in value ==> !IsQuote(c)
    requires IsQuote(open) && IsQuote(close)
    ensures ExtractAttribute(before + name + "=" + [open] + value + [close] + after, name) == Some(value)
  {
    var s := before + name + "=" + [open] + value + [close] + after;
    MatchWritten(before, name, value, open, close, after);
    NoMatchBefore(s, before, name);
    FirstMatchIsFirst(s, name, 0);
  }

  /** The pattern matches where the attribute is written, capturing the value. */
  lemma MatchWritten(before: string, name: string, value: string, open: char, close: char, after: string)
    requires |value| > 0 && forall c :: c in value ==> !IsQuote(c)
    requires IsQuote(open) && IsQuote(close)
    ensures MatchAt(before + name + "=" + [open] + value + [close] + after, name, |before|) == Some(value)
  {
    var s := before + name + "=" + [open] + value + [close] + after;
    var i := |before|;
    var j := i + |name| + 1;
    assert s[i..i + |name|] == name;
    assert s[i + |name|] == '=';
    assert s[j] == open;
    forall k | j + 1 <= k < j + 1 + |value| ensures !IsQuote(s[k]) {
      assert s[k] == value[k - j - 1];
      assert value[k - j - 1] in value;
    }
    assert s[j + 1 + |value|] == close;
    QuoteFromRun(s, j + 1, j + 1 + |value|);
    assert s[j + 1..j + 1 + |value|] == value;
  }

  /** Where neither the text before the attribute nor the name holds '=', nothing matches before it. */
  lemma NoMatchBefore(s: string, before: string, name: string)
    requires '=' !in before && '=' !in name
    requires StartsWith(s, before + name)
    ensures forall k :: 0 <= k < |before| ==> MatchAt(s, name, k).None?
  {
    var i := |before|;
    forall k | 0 <= k < i ensures MatchAt(s, name, k).None? {
      assert s[..i + |name|] == before + name;
      if k + |name| < i {
        assert s[k + |name|] == before[k + |name|];
        assert before[k + |name|] in before;
      } else {
        assert s[k + |name|] == name[k + |name| - i];
        assert name[k + |name| - i] in name;
      }
    }
  }

  /** A run of non-quotes that ends in a quote ends where QuoteFrom stops. */
  lemma {:induction false} QuoteFromRun(s: string, k: nat, e: nat)
    requires k <= e < |s| && IsQuote(s[e])
    requires forall j :: k <= j < e ==> !IsQuote(s[j])
    ensures QuoteFrom(s, k) == e
    decreases e - k
  {
    if k < e {
      QuoteFromRun(s, k + 1, e);
    }
  }

  /** Without the name followed by '=' the attribute is absent. */
  lemma MissingAttribute(s: string, name: string)
    requires !Contains(s, name + "=")
    ensures ExtractAttribute(s, name).None?
  {
    if FirstMatch(s, name, 0).Some? {
      var i := FirstMatch(s, name, 0).value;
      assert s[i..i + |name|] + "=" == s[i..i + |name| + 1];
        assert OccursAt(s, name + "=", i);
    }
  }

  // ---------------------------------------------------------------------
  // Parallax class
  // ---------------------------------------------------------------------

  /** `'parallax-section-' + id.replace(/[^a-zA-Z0-9_-]/g, '')`. */
  function ParallaxClass(id: string): (r: string)
    ensures StartsWith(r, "parallax-section-")
    ensures forall c :: c in r[|"parallax-section-"|..] ==> IsIdentChar(c)
  {
    var r := "parallax-section-" + Filter(id, IsIdentChar);
    assert r[..|"parallax-section-"|] == "parallax-section-";
    assert r[|"parallax-section-"|..] == Filter(id, IsIdentChar);
    r
  }

  /** An id that is already clean is taken as it is. */
  lemma ParallaxClassOfCleanId(id: string)
    requires forall i :: 0 <= i < |id| ==> IsIdentChar(id[i])
    ensures ParallaxClass(id) == "parallax-section-" + id
  {
    FilterKeepsAll(id, IsIdentChar);
  }
}
