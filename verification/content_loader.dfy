/**
 * The page-file lookup of the front end (includes/ContentLoader.php): which
 * markdown file a request path is read from, for ordinary visitors and for
 * demo users (whose lookup also switches the loader to the demo content
 * directory), and the defaults `loadContent` fills in for the title and the
 * editor mode.  Whether the visitor is a demo user, the demo directory, the
 * file text and the decoded JSON front matter are parameters.
 */
module ContentLoading {
  import opened Php
  import opened PhpArray

  const PagesPrefix := "pages/"
  const BlogPrefix := "blog/"

  /** The fixed pages a demo user reads from the demo pages folder. */
  predicate IsFixedPage(path: string) {
    path == "home" || path == "about" || path == "contact"
  }

  /** The file getContentFile names for `path`, once the content directory is `dir`. */
  function ContentFileOf(dir: string, path: string, isDemoUser: bool): string {
    if !isDemoUser then dir + "/" + path + ".md"
    else if IsFixedPage(path) then dir + "/pages/" + path + ".md"
    else if StartsWith(path, BlogPrefix) then dir + "/blog/" + path[5..] + ".md"
    else if StartsWith(path, PagesPrefix) then dir + "/" + path + ".md"
    else dir + "/pages/" + path + ".md"
  }

  /** The page name a demo lookup outside the blog reads from the pages folder. */
  function PageName(path: string): string {
    if StartsWith(path, PagesPrefix) then path[6..] else path
  }

  lemma PrefixSplit(p: string, s: string)
    requires StartsWith(s, p)
    ensures s == p + s[|p|..]
  {
    assert s[..|p|] == p;
  }

  /**
   * A demo user reads blog paths from the blog folder and everything else
   * from the pages folder, with or without a `pages/` prefix.
   */
  lemma DemoLookupFolders(dir: string, path: string)
    ensures StartsWith(path, BlogPrefix) && !IsFixedPage(path) ==>
      ContentFileOf(dir, path, true) == dir + "/blog/" + path[5..] + ".md"
    ensures !StartsWith(path, BlogPrefix) ==>
      ContentFileOf(dir, path, true) == dir + "/pages/" + PageName(path) + ".md"
  {
    if !StartsWith(path, BlogPrefix) && !IsFixedPage(path) && StartsWith(path, PagesPrefix) {
      PrefixSplit(PagesPrefix, path);
      assert dir + "/" + path + ".md" == dir + "/pages/" + path[6..] + ".md";
    }
  }

  /** The `pages/` prefix is optional for a demo user: both spellings read the same file. */
  lemma PagesPrefixOptional(dir: string, name: string)
    requires !StartsWith(name, BlogPrefix) && !StartsWith(name, PagesPrefix)
    ensures ContentFileOf(dir, PagesPrefix + name, true) == ContentFileOf(dir, name, true)
  {
    var path := PagesPrefix + name;
    assert path[..6] == PagesPrefix;
    assert path[..5] != BlogPrefix by {
      assert path[0] != BlogPrefix[0];
    }
    assert !IsFixedPage(path) by {
      assert |path| > 7 || path[0] == 'p';
    }
    DemoLookupFolders(dir, path);
    DemoLookupFolders(dir, name);
    assert path[6..] == name;
  }

  /** An ordinary visitor's file is the path under the content directory. */
  lemma VisitorLookup(dir: string, path: string)
    ensures ContentFileOf(dir, path, false) == dir + "/" + path + ".md"
  {
  }

  class ContentLoader {
    var contentDir: string

    /** The constructor starts from the site's content directory. */
    constructor (siteContentDir: string)
      ensures contentDir == siteContentDir
    {
      contentDir := siteContentDir;
    }

    /**
     * getContentFile: a demo user's lookup first switches the loader to the
     * demo content directory; the file is then named under the current one.
     */
    method GetContentFile(path: string, isDemoUser: bool, demoContentDir: string) returns (file: string)
      modifies this
      ensures contentDir == if isDemoUser then demoContentDir else old(contentDir)
      ensures file == ContentFileOf(contentDir, path, isDemoUser)
    {
      if isDemoUser {
        contentDir := demoContentDir;
        if path == "home" || path == "about" || path == "contact" {
          return contentDir + "/pages/" + path + ".md";
        } else if StartsWith(path, "blog/") {
          var blogPath := path[5..];
          return contentDir + "/blog/" + blogPath + ".md";
        } else if StartsWith(path, "pages/") {
          return contentDir + "/" + path + ".md";
        } else {
          return contentDir + "/pages/" + path + ".md";
        }
      } else {
        return contentDir + "/" + path + ".md";
      }
    }
  }

  // ---------------------------------------------------------------------
  // loadContent
  // ---------------------------------------------------------------------

  /** The last path component: what follows the last slash. */
  function LastSegment(s: string): (r: string)
    ensures '/' !in r
    decreases |s|
  {
    if s == [] || IsSlash(s[|s| - 1]) then [] else LastSegment(s[..|s| - 1]) + [s[|s| - 1]]
  }

  /** `basename()`: trailing slashes are ignored, then the last component. */
  function Basename(s: string): (r: string)
    ensures '/' !in r
  {
    LastSegment(TrimRight(s, IsSlash))
  }

  /** After a slash, the last component is everything that follows it. */
  lemma {:induction false} LastSegmentAfterSlash(a: string, name: string)
    requires a != [] && IsSlash(a[|a| - 1]) && '/' !in name
    ensures LastSegment(a + name) == name
    decreases |name|
  {
    if name == [] {
      assert a + name == a;
    } else {
      var init := name[..|name| - 1];
      assert (a + name)[..|a + name| - 1] == a + init;
      LastSegmentAfterSlash(a, init);
      assert init + [name[|name| - 1]] == name;
    }
  }

  /** The basename of a file directly under a directory is its name. */
  lemma BasenameOfChild(dir: string, name: string)
    requires name != [] && '/' !in name
    ensures Basename(dir + "/" + name) == name
  {
    var s := dir + "/" + name;
    assert s[|s| - 1] == name[|name| - 1];
    assert TrimRight(s, IsSlash) == s;
    var a := dir + "/";
    assert s == a + name;
    LastSegmentAfterSlash(a, name);
  }

  /** Removing ".md" from a name without dots and the extension leaves the name. */
  lemma {:induction false} RemoveMdSuffix(s: string)
    requires '.' !in s
    ensures Replace(s + ".md", ".md", "") == s
    decreases |s|
  {
    var t := s + ".md";
    if s == [] {
      assert t == ".md";
      assert StartsWith(t, ".md");
      assert t[3..] == [];
    } else {
      assert s[0] != '.';
      DifferAt(t, ".md", 0);
      assert t[1..] == s[1..] + ".md";
      RemoveMdSuffix(s[1..]);
      assert [s[0]] + s[1..] == s;
    }
  }

  /** `str_replace(['-', '_'], ' ', ...)` for one character. */
  function DashToSpace(c: char): char {
    if c == '-' || c == '_' then ' ' else c
  }

  /** The title made from a file name: its base name without ".md", dashes and underscores as spaces, words capitalised. */
  function FallbackTitle(contentFile: string): string {
    Ucwords(MapChars(Basename(Replace(contentFile, ".md", "")), DashToSpace))
  }

  /** A visitor's top-level page without dots is titled after its path. */
  lemma TitleOfPage(dir: string, path: string)
    requires '.' !in dir && '.' !in path && '/' !in path && path != ""
    ensures FallbackTitle(ContentFileOf(dir, path, false)) == Ucwords(MapChars(path, DashToSpace))
  {
    var s := dir + "/" + path;
    assert '.' !in s by {
      forall i | 0 <= i < |s| ensures s[i] != '.' {
        if i < |dir| {
          assert s[i] == dir[i];
        } else if i > |dir| {
          assert s[i] == path[i - |dir| - 1];
        }
      }
    }
    RemoveMdSuffix(s);
    BasenameOfChild(dir, path);
  }

  /** The fallback title has no slash, dash or underscore left. */
  lemma FallbackTitleShape(contentFile: string)
    ensures '/' !in FallbackTitle(contentFile)
    ensures '-' !in FallbackTitle(contentFile) && '_' !in FallbackTitle(contentFile)
  {
    var b := Basename(Replace(contentFile, ".md", ""));
    var m := MapChars(b, DashToSpace);
    var t := Ucwords(m);
    forall i | 0 <= i < |t| ensures t[i] != '/' && t[i] != '-' && t[i] != '_' {
      assert m[i] == DashToSpace(b[i]);
      assert b[i] in b;
    }
  }

  /** The JSON front matter: absent, or present with its decoded object (empty when it is not a non-empty object) and the text after it. */
  datatype FrontMatter = NoFrontMatter | FrontMatter(metadata: Arr<string>, body: string)

  /** What loadContent returns. */
  datatype Page = Page(title: string, description: string, content: string, metadata: Arr<string>,
                       editorMode: string)

  /** loadContent for the file `contentFile` with text `fileContent`. */
  function LoadContent(contentFile: string, fileContent: string, front: FrontMatter): Page {
    var metadata := if front.FrontMatter? then front.metadata else [];
    var title := OrEmpty(Get(metadata, "title"));
    Page(if Empty(title) then FallbackTitle(contentFile) else title,
         OrEmpty(Get(metadata, "description")),
         if front.FrontMatter? then front.body else fileContent,
         metadata,
         if Get(metadata, "editor_mode").Some? then Get(metadata, "editor_mode").value else "markdown")
  }

  /**
   * The front matter's title is kept when it is truthy and replaced by the
   * file-name title otherwise; the editor mode defaults to markdown; without
   * front matter the whole text is the content.
   */
  lemma LoadContentDefaults(contentFile: string, fileContent: string, front: FrontMatter)
    ensures var p := LoadContent(contentFile, fileContent, front);
      var metadata := if front.FrontMatter? then front.metadata else [];
      (IsSet(Get(metadata, "title")) ==> p.title == Get(metadata, "title").value) &&
      (!IsSet(Get(metadata, "title")) ==> p.title == FallbackTitle(contentFile)) &&
      (!HasKey(metadata, "editor_mode") ==> p.editorMode == "markdown") &&
      (HasKey(metadata, "editor_mode") ==> p.editorMode == Get(metadata, "editor_mode").value) &&
      (!HasKey(metadata, "description") ==> p.description == "")
    ensures front.NoFrontMatter? ==>
      LoadContent(contentFile, fileContent, front) ==
        Page(FallbackTitle(contentFile), "", fileContent, [], "markdown")
  {
  }
}
