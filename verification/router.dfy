/**
 * The front controller's request path (includes/Router.php): the request
 * URI is trimmed of slashes, cut at the query string and stripped of the
 * hosting sub-directory prefix; an empty path is the home page, and paths
 * under `_preview/` are previews.  The URI is a constructor parameter in
 * place of `$_SERVER['REQUEST_URI']`; the preview page itself (file reads,
 * markdown, templates) is not part of this model.
 */
module Routing {
  import opened Php

  /** The sub-directory prefix of the hosting service. */
  const HostPrefix := "fearlesscms.hstn.me/"

  const PreviewPrefix := "_preview/"

  /** `strpos($s, $p) === 0` is `$p` being a prefix of `$s`. */
  lemma StrposZero(s: string, p: string)
    ensures IndexOf(s, p) == Some(0) <==> StartsWith(s, p)
  {
    if StartsWith(s, p) {
      assert OccursAt(s, p, 0);
    }
  }

  /** The path parseRequestPath leaves in `requestPath`. */
  function RequestPathOf(uri: string): (p: string)
    ensures '?' !in p
    ensures |p| <= |uri|
  {
    var trimmed := TrimWith(uri, IsSlash);
    var path := match IndexOfChar(trimmed, '?')
      case Some(q) => trimmed[..q]
      case None => trimmed;
    if StartsWith(path, HostPrefix) then path[|HostPrefix|..] else path
  }

  /** A path as the site writes it: no query mark, no slash at either end, not under the hosting prefix. */
  predicate Clean(p: string) {
    '?' !in p && (p != "" ==> !IsSlash(p[0]) && !IsSlash(p[|p| - 1])) && !StartsWith(p, HostPrefix)
  }

  /** Only the leading slashes go: one slash before a clean text is dropped. */
  lemma TrimLeftOneSlash(x: string)
    requires x != "" ==> !IsSlash(x[0])
    ensures TrimLeft("/" + x, IsSlash) == x
  {
    assert ("/" + x)[1..] == x;
  }

  /** Trailing slashes after a query mark never reach the path. */
  lemma TrimRightKeepsMark(p: string, query: string)
    ensures var r := TrimRight(p + "?" + query, IsSlash);
      |p| < |r| && r[..|p|] == p && r[|p|] == '?'
  {
    var s := p + "?" + query;
    var r := TrimRight(s, IsSlash);
    assert s[|p|] == '?';
    assert r[..|p|] == s[..|p|];
    assert s[..|p|] == p;
  }

  /** The first query mark after a path without one is right after that path. */
  lemma MarkAfterPath(r: string, p: string)
    requires |p| < |r| && r[..|p|] == p && r[|p|] == '?' && '?' !in p
    ensures IndexOfChar(r, '?') == Some(|p|)
  {
    var q := IndexOfChar(r, '?');
    assert q.Some? by {
      assert r[|p|] in r;
    }
  }

  /** A request for a clean path, with or without a query string, routes to that path. */
  lemma CleanPathRoundTrip(p: string, query: string)
    requires Clean(p)
    ensures RequestPathOf("/" + p) == p
    ensures RequestPathOf("/" + p + "?" + query) == p
  {
    TrimLeftOneSlash(p);
    assert TrimWith("/" + p, IsSlash) == p;
    var x := p + "?" + query;
    assert "/" + p + "?" + query == "/" + x;
    TrimLeftOneSlash(x);
    TrimRightKeepsMark(p, query);
    var r := TrimRight(x, IsSlash);
    MarkAfterPath(r, p);
  }

  /** A clean text after one slash survives the trim and has no query string to cut. */
  lemma TrimAndCutKeep(x: string)
    requires '?' !in x && x != "" && !IsSlash(x[0]) && !IsSlash(x[|x| - 1])
    ensures TrimWith("/" + x, IsSlash) == x
    ensures IndexOfChar(x, '?') == None
  {
    TrimLeftOneSlash(x);
  }

  lemma NotInConcat(c: char, a: string, b: string)
    requires c !in a && c !in b
    ensures c !in a + b
  {
  }

  lemma PrefixOfConcat(a: string, b: string)
    ensures StartsWith(a + b, a) && (a + b)[|a|..] == b
  {
    assert (a + b)[..|a|] == a;
  }

  /** The hosting prefix is stripped once: a path behind it routes to that path. */
  lemma HostPrefixStrippedOnce(p: string)
    requires '?' !in p && p != "" && !IsSlash(p[|p| - 1])
    ensures RequestPathOf("/" + HostPrefix + p) == p
  {
    var x := HostPrefix + p;
    assert "/" + HostPrefix + p == "/" + x;
    assert HostPrefix[0] == 'f' && '?' !in HostPrefix;
    NotInConcat('?', HostPrefix, p);
    assert x[0] == HostPrefix[0];
    assert x[|x| - 1] == p[|p| - 1];
    TrimAndCutKeep(x);
    PrefixOfConcat(HostPrefix, p);
  }

  /**
   * The bare hosting prefix loses its slash to the trim before the prefix
   * test, so it is not stripped and the path is not the home page.
   */
  lemma HostRootIsNotHome()
    ensures RequestPathOf("/" + HostPrefix) == "fearlesscms.hstn.me"
  {
    var x := HostPrefix;
    TrimLeftOneSlash(x);
    var t := TrimRight(x, IsSlash);
    assert x[..|x| - 1] == "fearlesscms.hstn.me";
    assert t == "fearlesscms.hstn.me";
    assert '?' !in t;
  }

  /** getRequestPath and getDefaultPath: the home page for an empty path. */
  function PathOrHome(requestPath: string): string {
    if requestPath == "" then "home" else requestPath
  }

  /** getDefaultTemplate. */
  function DefaultTemplate(path: string): string {
    if path == "home" then "home" else "page-with-sidebar"
  }

  /** The routed path is never empty, and it is the home page exactly for an empty or "home" path. */
  lemma PathOrHomeMeaning(requestPath: string)
    ensures PathOrHome(requestPath) != ""
    ensures PathOrHome(requestPath) == "home" <==> requestPath == "" || requestPath == "home"
    ensures requestPath != "" ==> PathOrHome(requestPath) == requestPath
    ensures DefaultTemplate(PathOrHome(requestPath)) == "home" <==> requestPath == "" || requestPath == "home"
  {
  }

  /** The name handlePreviewRequest looks up: the path after its first nine characters. */
  function PreviewName(requestPath: string): string {
    if |requestPath| >= 9 then requestPath[9..] else ""
  }

  /** A preview path is the preview prefix followed by the preview name. */
  lemma PreviewNameMeaning(requestPath: string)
    requires StartsWith(requestPath, PreviewPrefix)
    ensures PreviewPrefix + PreviewName(requestPath) == requestPath
  {
    assert requestPath[..9] == PreviewPrefix;
    assert requestPath == requestPath[..9] + requestPath[9..];
  }

  /** A path without the preview prefix is no preview prefix followed by a name. */
  lemma NotPreview(requestPath: string)
    requires !StartsWith(requestPath, PreviewPrefix)
    ensures forall name :: PreviewPrefix + name != requestPath
  {
    forall name
      ensures PreviewPrefix + name != requestPath
    {
      assert StartsWith(PreviewPrefix + name, PreviewPrefix) by {
        assert (PreviewPrefix + name)[..9] == PreviewPrefix;
      }
    }
  }

  /** A clean request for a name under the preview prefix is a preview of that name. */
  lemma PreviewRoundTrip(name: string, query: string)
    requires Clean(PreviewPrefix + name)
    ensures var path := RequestPathOf("/" + PreviewPrefix + name + "?" + query);
      StartsWith(path, PreviewPrefix) && PreviewName(path) == name
  {
    CleanPathRoundTrip(PreviewPrefix + name, query);
    var path := PreviewPrefix + name;
    Assoc("/", PreviewPrefix, name);
    assert path[..9] == PreviewPrefix;
    assert path[9..] == name;
  }

  class Router {
    var requestPath: string

    /** The constructor parses the request URI. */
    constructor (requestUri: string)
      ensures requestPath == RequestPathOf(requestUri)
    {
      requestPath := "";
      new;
      ParseRequestPath(requestUri);
    }

    /** parseRequestPath: the trim, the cut at '?' and the prefix strip, each rewriting the field. */
    method ParseRequestPath(requestUri: string)
      modifies this
      ensures requestPath == RequestPathOf(requestUri)
    {
      requestPath := TrimWith(requestUri, IsSlash);
      var queryPos := IndexOfChar(requestPath, '?');
      if queryPos.Some? {
        requestPath := requestPath[..queryPos.value];
      }
      if StartsWith(requestPath, HostPrefix) {
        requestPath := requestPath[|HostPrefix|..];
      }
    }

    /** getRequestPath (and getDefaultPath, which is the same). */
    function GetRequestPath(): (r: string)
      reads this
      ensures r != ""
      ensures r == "home" <==> requestPath == "" || requestPath == "home"
      ensures requestPath != "" ==> r == requestPath
    {
      PathOrHome(requestPath)
    }

    /** isPreviewRequest. */
    function IsPreviewRequest(): (r: bool)
      reads this
      ensures r <==> StartsWith(requestPath, PreviewPrefix)
      ensures r ==> PreviewPrefix + PreviewName(requestPath) == requestPath
      ensures !r ==> forall name :: PreviewPrefix + name != requestPath
    {
      if StartsWith(requestPath, PreviewPrefix) then
        PreviewNameMeaning(requestPath);
        true
      else
        NotPreview(requestPath);
        false
    }
  }
}
