/**
 * The blog plugin (plugins/blog/blog.php): the admin form's save and delete
 * actions on the list of posts, and the public route that serves
 * `blog/<slug>` for a published post and `blog` as the index of published
 * posts, newest date first.  The JSON file behind the list, the clock
 * (`time()` for a new id, `date('Y-m-d')` for a missing date) and the
 * markdown renderer are parameters; the admin screens' HTML is not modelled.
 */
module Blog {
  import opened Php
  import opened PhpArray
  import Auth

  /** A post as the JSON file stores it; the id is compared in its decimal text. */
  datatype Post = Post(id: string, title: string, slug: string, date: string, content: string, status: string)

  /** The fields of a submitted save form; `None` is a field the request does not carry. */
  datatype Form = Form(id: Option<string>, title: Option<string>, slug: Option<string>, date: Option<string>,
                       content: Option<string>, status: Option<string>)

  predicate IsPublished(p: Post) { p.status == "published" }

  // ---------------------------------------------------------------------
  // save_post and delete_post
  // ---------------------------------------------------------------------

  function FormTitle(f: Form): string { Trim(OrEmpty(f.title)) }

  function FormSlug(f: Form): string { Trim(OrEmpty(f.slug)) }

  /** `trim($_POST['date'] ?? date('Y-m-d'))`. */
  function FormDate(f: Form, today: string): string {
    Trim(if f.date.Some? then f.date.value else today)
  }

  function FormStatus(f: Form): string {
    if f.status.Some? then f.status.value else "draft"
  }

  /** `$title && $slug`: a save needs a truthy title and slug. */
  predicate Accepts(f: Form) {
    !Empty(FormTitle(f)) && !Empty(FormSlug(f))
  }

  /** The post `p` rewritten with the form's fields; its id is kept. */
  function Edited(p: Post, f: Form, today: string): Post {
    p.(title := FormTitle(f), slug := FormSlug(f), date := FormDate(f, today), content := OrEmpty(f.content),
       status := FormStatus(f))
  }

  /** The new post appended by a save without an id. */
  function NewPost(now: string, f: Form, today: string): Post {
    Post(now, FormTitle(f), FormSlug(f), FormDate(f, today), OrEmpty(f.content), FormStatus(f))
  }

  /** One turn of the by-reference foreach: a post with the id is rewritten. */
  function UpdatedIf(p: Post, id: string, f: Form, today: string): Post {
    if p.id == id then Edited(p, f, today) else p
  }

  /** The by-reference foreach over the whole list. */
  function UpdateAll(posts: seq<Post>, id: string, f: Form, today: string): seq<Post> {
    seq(|posts|, i requires 0 <= i < |posts| => UpdatedIf(posts[i], id, f, today))
  }

  /** The list after a save. */
  function SavedPosts(posts: seq<Post>, f: Form, today: string, now: string): seq<Post> {
    if !Accepts(f) then posts
    else if IsSet(f.id) then UpdateAll(posts, f.id.value, f, today)
    else posts + [NewPost(now, f, today)]
  }

  predicate NotId(id: string, p: Post) { p.id != id }

  /** The list after a delete: `array_filter` with `$p['id'] != $id`. */
  function WithoutId(posts: seq<Post>, id: string): seq<Post> {
    FilterSeq(posts, p => NotId(id, p))
  }

  /** Every id the list holds. */
  function Ids(posts: seq<Post>): (ids: seq<string>)
    ensures |ids| == |posts|
  {
    seq(|posts|, i requires 0 <= i < |posts| => posts[i].id)
  }

  /**
   * A save with an id rewrites every post carrying that id, not just the
   * first, keeps every other post, and keeps the order and all the ids.
   */
  lemma SaveWithIdUpdatesAll(posts: seq<Post>, f: Form, today: string, now: string)
    requires Accepts(f) && IsSet(f.id)
    ensures var r := SavedPosts(posts, f, today, now);
      |r| == |posts| && Ids(r) == Ids(posts) &&
      (forall i :: 0 <= i < |posts| && posts[i].id == f.id.value ==>
        r[i] == Post(posts[i].id, FormTitle(f), FormSlug(f), FormDate(f, today), OrEmpty(f.content), FormStatus(f))) &&
      (forall i :: 0 <= i < |posts| && posts[i].id != f.id.value ==> r[i] == posts[i])
  {
  }

  /** A save whose id no post has changes nothing: it does not create a post. */
  lemma SaveUnknownIdKeepsPosts(posts: seq<Post>, f: Form, today: string, now: string)
    requires IsSet(f.id) && f.id.value !in Ids(posts)
    ensures SavedPosts(posts, f, today, now) == posts
  {
    if Accepts(f) {
      var r := SavedPosts(posts, f, today, now);
      forall i | 0 <= i < |posts| ensures r[i] == posts[i] {
        assert Ids(posts)[i] == posts[i].id;
      }
    }
  }

  /** A save without an id appends one post with the new id and the form's fields. */
  lemma SaveWithoutIdAppends(posts: seq<Post>, f: Form, today: string, now: string)
    requires Accepts(f) && !IsSet(f.id)
    ensures var r := SavedPosts(posts, f, today, now);
      |r| == |posts| + 1 && r[..|posts|] == posts &&
      r[|posts|] == Post(now, FormTitle(f), FormSlug(f), FormDate(f, today), OrEmpty(f.content), FormStatus(f))
  {
  }

  /** The saved title and slug are trimmed and truthy, so the route can serve them. */
  lemma SavedFieldsTrimmed(q: Post, f: Form, today: string, now: string)
    requires Accepts(f)
    ensures var p := Edited(q, f, today);
      !Empty(p.title) && !Empty(p.slug) && !IsTrimSpace(p.slug[0]) && !IsTrimSpace(p.slug[|p.slug| - 1])
    ensures var p := NewPost(now, f, today);
      !Empty(p.title) && !Empty(p.slug) && !IsTrimSpace(p.slug[0]) && !IsTrimSpace(p.slug[|p.slug| - 1])
  {
  }

  /** After a delete no post has the id, and every post with another id is kept, in order. */
  lemma DeleteRemovesEveryMatch(posts: seq<Post>, id: string)
    ensures id !in Ids(WithoutId(posts, id))
    ensures forall p :: p in WithoutId(posts, id) <==> p in posts && p.id != id
    ensures WithoutId(WithoutId(posts, id), id) == WithoutId(posts, id)
  {
    var keep := p => NotId(id, p);
    FilterSeqMembers(posts, keep);
    FilterSeqIdempotent(posts, keep);
    var r := WithoutId(posts, id);
    forall i | 0 <= i < |r| ensures Ids(r)[i] != id {
      assert r[i] in r;
    }
  }

  /** Deleting a freshly appended post by its new id gives back the list before the save. */
  lemma DeleteUndoesAppend(posts: seq<Post>, f: Form, today: string, now: string)
    requires Accepts(f) && !IsSet(f.id) && now !in Ids(posts)
    ensures WithoutId(SavedPosts(posts, f, today, now), now) == posts
  {
    var keep := p => NotId(now, p);
    forall p | p in posts ensures keep(p) {
      var i :| 0 <= i < |posts| && posts[i] == p;
      assert Ids(posts)[i] == p.id;
    }
    FilterSeqKeepsAll(posts, keep);
    FilterSeqConcat(posts, [NewPost(now, f, today)], keep);
    assert FilterSeq([NewPost(now, f, today)], keep) == [];
  }

  /** The posts the admin screen edits, held as the list its actions rewrite. */
  class BlogStore {
    var posts: seq<Post>

    constructor (saved: seq<Post>)
      ensures posts == saved
    {
      posts := saved;
    }

    /** The by-reference foreach: each post with the id is rewritten in place. */
    method UpdateMatching(id: string, f: Form, today: string)
      modifies this
      ensures posts == UpdateAll(old(posts), id, f, today)
    {
      var i := 0;
      while i < |posts|
        invariant 0 <= i <= |posts| == |old(posts)|
        invariant forall k :: 0 <= k < i ==> posts[k] == UpdatedIf(old(posts)[k], id, f, today)
        invariant forall k :: i <= k < |posts| ==> posts[k] == old(posts)[k]
      {
        if posts[i].id == id {
          posts := posts[i := Edited(posts[i], f, today)];
        }
        i := i + 1;
      }
    }

    /** The save_post action; `saved` says whether the list was written back. */
    method SavePost(f: Form, today: string, now: string) returns (saved: bool)
      modifies this
      ensures saved <==> Accepts(f)
      ensures posts == SavedPosts(old(posts), f, today, now)
    {
      var title := FormTitle(f);
      var slug := FormSlug(f);
      saved := !Empty(title) && !Empty(slug);
      if !saved {
        return;
      }
      if IsSet(f.id) {
        UpdateMatching(f.id.value, f, today);
      } else {
        posts := posts + [NewPost(now, f, today)];
      }
    }

    /** The delete_post action, which needs an id in the request. */
    method DeletePost(id: Option<string>)
      modifies this
      ensures posts == if id.Some? then WithoutId(old(posts), id.value) else old(posts)
    {
      if id.Some? {
        posts := WithoutId(posts, id.value);
      }
    }
  }

  // ---------------------------------------------------------------------
  // The public route
  // ---------------------------------------------------------------------

  /** What `#^blog(?:/([a-zA-Z0-9_-]+))?$#` and `!empty($m[1])` make of the page slug. */
  datatype Route = NotBlog | Index | PostPage(slug: string)

  /** The subject without the one final newline that PCRE's `$` may stand before. */
  function Subject(pageSlug: string): (b: string)
    ensures b == pageSlug || b + "\n" == pageSlug
  {
    if |pageSlug| > 0 && pageSlug[|pageSlug| - 1] == '\n' then pageSlug[..|pageSlug| - 1] else pageSlug
  }

  /** The slug group `[a-zA-Z0-9_-]+`. */
  predicate IsSlug(s: string) {
    s != [] && forall k :: 0 <= k < |s| ==> IsIdentChar(s[k])
  }

  function RouteOf(pageSlug: string): Route {
    var b := Subject(pageSlug);
    if b == "blog" then Index
    else if StartsWith(b, "blog/") && IsSlug(b[5..]) then
      if Empty(b[5..]) then Index else PostPage(b[5..])
    else NotBlog
  }

  /**
   * `blog` is the index and `blog/<slug>` the post page for every slug of
   * the allowed characters, except `blog/0`, whose slug `empty()` takes for
   * missing, so it shows the index.
   */
  lemma RouteOfBlogPaths(slug: string)
    requires IsSlug(slug)
    ensures RouteOf("blog") == Index
    ensures RouteOf("blog/" + slug) == if slug == "0" then Index else PostPage(slug)
  {
    var b := "blog/" + slug;
    assert b[..5] == "blog/" && b[5..] == slug;
    assert b != "blog";
  }

  /** Whatever is routed is `blog`, or `blog/` and a slug, up to one final newline. */
  lemma RouteOfShape(pageSlug: string)
    ensures RouteOf(pageSlug).PostPage? ==>
      var slug := RouteOf(pageSlug).slug;
      IsSlug(slug) && slug != "0" && (pageSlug == "blog/" + slug || pageSlug == "blog/" + slug + "\n")
    ensures !StartsWith(Subject(pageSlug), "blog") ==> RouteOf(pageSlug) == NotBlog
  {
    var b := Subject(pageSlug);
    if RouteOf(pageSlug).PostPage? {
      assert b == b[..5] + b[5..];
    }
    if b == "blog" {
      assert StartsWith(b, "blog");
    } else if StartsWith(b, "blog/") {
      assert b[..4] == b[..5][..4];
    }
  }

  /** The first published post with the slug, as the route's foreach finds it. */
  function FirstPublished(posts: seq<Post>, slug: string): Option<Post>
    decreases |posts|
  {
    if posts == [] then None
    else if posts[0].slug == slug && IsPublished(posts[0]) then Some(posts[0])
    else FirstPublished(posts[1..], slug)
  }

  /**
   * The post served is a published post with the slug, and no earlier post
   * is; there is none exactly when no published post has the slug, so a
   * draft is never served.
   */
  lemma {:induction false} FirstPublishedMeaning(posts: seq<Post>, slug: string)
    ensures FirstPublished(posts, slug).None? <==>
      forall i :: 0 <= i < |posts| ==> !(posts[i].slug == slug && IsPublished(posts[i]))
    ensures FirstPublished(posts, slug).Some? ==>
      exists i :: 0 <= i < |posts| && posts[i] == FirstPublished(posts, slug).value &&
        posts[i].slug == slug && IsPublished(posts[i]) &&
        forall k :: 0 <= k < i ==> !(posts[k].slug == slug && IsPublished(posts[k]))
    decreases |posts|
  {
    if posts != [] && !(posts[0].slug == slug && IsPublished(posts[0])) {
      var tail := posts[1..];
      FirstPublishedMeaning(tail, slug);
      if FirstPublished(tail, slug).Some? {
        var i :| 0 <= i < |tail| && tail[i] == FirstPublished(tail, slug).value &&
          tail[i].slug == slug && IsPublished(tail[i]) &&
          forall k :: 0 <= k < i ==> !(tail[k].slug == slug && IsPublished(tail[k]));
        assert posts[i + 1] == tail[i];
        forall k | 0 <= k < i + 1 ensures !(posts[k].slug == slug && IsPublished(posts[k])) {
          if k > 0 {
            assert posts[k] == tail[k - 1];
          }
        }
      } else {
        forall i | 0 <= i < |posts| ensures !(posts[i].slug == slug && IsPublished(posts[i])) {
          if i > 0 {
            assert posts[i] == tail[i - 1];
          }
        }
      }
    } else if posts != [] {
      assert posts[0] == FirstPublished(posts, slug).value;
    }
  }

  // Ordering of the index: usort with strcmp($b['date'], $a['date'])

  /** Newest first: no date is above an earlier one. */
  predicate SortedByDateDesc(s: seq<Post>) {
    forall i, j :: 0 <= i < j < |s| ==> LexLessEq(s[j].date, s[i].date)
  }

  /** Insert after every post whose date is not below the new one's. */
  function InsertByDate(p: Post, s: seq<Post>): (r: seq<Post>)
    ensures multiset(r) == multiset(s) + multiset{p}
    decreases |s|
  {
    if s == [] then [p]
    else if LexLess(s[0].date, p.date) then [p] + s
    else
      assert s == [s[0]] + s[1..];
      [s[0]] + InsertByDate(p, s[1..])
  }

  /** The stable sort: each post is inserted behind the sorted ones before it. */
  function SortByDate(s: seq<Post>): (r: seq<Post>)
    ensures multiset(r) == multiset(s)
    decreases |s|
  {
    if s == [] then []
    else
      assert s == s[..|s| - 1] + [s[|s| - 1]];
      InsertByDate(s[|s| - 1], SortByDate(s[..|s| - 1]))
  }

  /** Inserting a post not above the head keeps everything at or below the head's date. */
  lemma InsertedBelowHead(p: Post, s: seq<Post>, r: seq<Post>)
    requires s != [] && SortedByDateDesc(s) && LexLessEq(p.date, s[0].date)
    requires multiset(r) == multiset(s[1..]) + multiset{p}
    ensures forall x :: x in r ==> LexLessEq(x.date, s[0].date)
  {
    var t := s[1..];
    forall x | x in r ensures LexLessEq(x.date, s[0].date) {
      assert x in multiset(r);
      if x != p {
        assert x in multiset(t);
        var k :| 0 <= k < |t| && t[k] == x;
        assert s[k + 1] == x;
      }
    }
  }

  lemma {:induction false} InsertByDateSorted(p: Post, s: seq<Post>)
    requires SortedByDateDesc(s)
    ensures SortedByDateDesc(InsertByDate(p, s))
    decreases |s|
  {
    if s == [] {
    } else if LexLess(s[0].date, p.date) {
      var r := [p] + s;
      forall i, j | 0 <= i < j < |r| ensures LexLessEq(r[j].date, r[i].date) {
        if i == 0 {
          assert r[j] == s[j - 1];
          if j > 1 {
            LexTrans(s[j - 1].date, s[0].date, p.date);
          }
        } else {
          assert r[i] == s[i - 1] && r[j] == s[j - 1];
        }
      }
    } else {
      var t := s[1..];
      InsertByDateSorted(p, t);
      var r := InsertByDate(p, t);
      LexTotal(s[0].date, p.date);
      InsertedBelowHead(p, s, r);
      var r' := [s[0]] + r;
      forall i, j | 0 <= i < j < |r'| ensures LexLessEq(r'[j].date, r'[i].date) {
        assert r'[j] == r[j - 1] && r[j - 1] in r;
        if i > 0 {
          assert r'[i] == r[i - 1];
        }
      }
    }
  }

  /** The index order: newest date first, and the same posts. */
  lemma {:induction false} SortByDateSorted(s: seq<Post>)
    ensures SortedByDateDesc(SortByDate(s))
    ensures multiset(SortByDate(s)) == multiset(s)
    decreases |s|
  {
    if s != [] {
      SortByDateSorted(s[..|s| - 1]);
      InsertByDateSorted(s[|s| - 1], SortByDate(s[..|s| - 1]));
    }
  }

  /** The posts the index lists, in its order. */
  function IndexPosts(posts: seq<Post>): seq<Post> {
    SortByDate(FilterSeq(posts, IsPublished))
  }

  /** The index lists exactly the published posts, each as often as it is stored, newest first. */
  lemma IndexListsPublished(posts: seq<Post>)
    ensures SortedByDateDesc(IndexPosts(posts))
    ensures multiset(IndexPosts(posts)) == multiset(FilterSeq(posts, IsPublished))
    ensures forall p :: p in IndexPosts(posts) <==> p in posts && IsPublished(p)
  {
    var published := FilterSeq(posts, IsPublished);
    SortByDateSorted(published);
    FilterSeqMembers(posts, IsPublished);
    forall p ensures p in IndexPosts(posts) <==> p in published {
      assert p in IndexPosts(posts) <==> p in multiset(IndexPosts(posts));
      assert p in published <==> p in multiset(published);
    }
  }

  /** One list item of the index. */
  function ItemHtml(p: Post): string {
    "<li><a href=\"/blog/" + Auth.HtmlSpecialChars(p.slug) + "\">" + Auth.HtmlSpecialChars(p.title) +
    "</a> <span style=\"color:#888;font-size:smaller;\">" + Auth.HtmlSpecialChars(p.date) + "</span></li>"
  }

  const IndexOpen := "<h2>Blog Posts</h2><ul>"
  const IndexClose := "</ul>"

  /** The index content: the list items between the heading and the list's end. */
  function IndexHtml(published: seq<Post>, item: Post -> string): string {
    IndexOpen + Concat(published, item) + IndexClose
  }

  const NotFoundTitle := "Post Not Found"
  const NotFoundHtml := "<p>Sorry, that blog post does not exist.</p>"

  /** The title and content the route hook hands back. */
  datatype Page = Page(title: string, content: string)

  /** The route hook: `None` leaves the request unhandled. */
  function RoutedPage(pageSlug: string, posts: seq<Post>, markdown: string -> string): Option<Page> {
    match RouteOf(pageSlug)
    case NotBlog => None
    case PostPage(slug) =>
      (match FirstPublished(posts, slug)
       case Some(p) => Some(Page(p.title, markdown(p.content)))
       case None => Some(Page(NotFoundTitle, NotFoundHtml)))
    case Index => Some(Page("Blog", IndexHtml(IndexPosts(posts), ItemHtml)))
  }

  /**
   * `blog/<slug>` is always handled: with the first published post of that
   * slug rendered, or with the not-found page when no published post has it.
   */
  lemma PostPageServed(posts: seq<Post>, slug: string, markdown: string -> string)
    requires IsSlug(slug) && slug != "0"
    ensures (exists i :: 0 <= i < |posts| && posts[i].slug == slug && IsPublished(posts[i])) ==>
      exists p :: p in posts && p.slug == slug && IsPublished(p) &&
        RoutedPage("blog/" + slug, posts, markdown) == Some(Page(p.title, markdown(p.content)))
    ensures (forall i :: 0 <= i < |posts| ==> !(posts[i].slug == slug && IsPublished(posts[i]))) ==>
      RoutedPage("blog/" + slug, posts, markdown) == Some(Page(NotFoundTitle, NotFoundHtml))
  {
    RouteOfBlogPaths(slug);
    FirstPublishedMeaning(posts, slug);
    if FirstPublished(posts, slug).Some? {
      var i :| 0 <= i < |posts| && posts[i] == FirstPublished(posts, slug).value &&
        posts[i].slug == slug && IsPublished(posts[i]) &&
        forall k :: 0 <= k < i ==> !(posts[k].slug == slug && IsPublished(posts[k]));
      assert posts[i] in posts;
    }
  }

  /** The route's search loop. */
  method FindPublished(posts: seq<Post>, slug: string) returns (found: Option<Post>)
    ensures found == FirstPublished(posts, slug)
  {
    var i := 0;
    while i < |posts|
      invariant 0 <= i <= |posts|
      invariant FirstPublished(posts, slug) == FirstPublished(posts[i..], slug)
    {
      if posts[i].slug == slug && posts[i].status == "published" {
        return Some(posts[i]);
      }
      assert posts[i..][1..] == posts[i + 1..];
      i := i + 1;
    }
    return None;
  }

  /** The index's list loop. */
  method ListHtml(published: seq<Post>, item: Post -> string) returns (content: string)
    ensures content == IndexHtml(published, item)
  {
    content := IndexOpen;
    for i := 0 to |published|
      invariant content == IndexOpen + Concat(published[..i], item)
    {
      ConcatSnoc(published, i, item);
      content := content + item(published[i]);
    }
    assert published[..|published|] == published;
    content := content + IndexClose;
  }

  /** The route hook; `page.Some?` is `$handled`. */
  method RouteHook(pageSlug: string, posts: seq<Post>, markdown: string -> string) returns (page: Option<Page>)
    ensures page == RoutedPage(pageSlug, posts, markdown)
  {
    var route := RouteOf(pageSlug);
    match route
    case NotBlog =>
      page := None;
    case PostPage(slug) =>
      var found := FindPublished(posts, slug);
      if found.Some? {
        page := Some(Page(found.value.title, markdown(found.value.content)));
      } else {
        page := Some(Page(NotFoundTitle, NotFoundHtml));
      }
    case Index =>
      var published := FilterSeq(posts, IsPublished);
      var sorted := SortByDate(published);
      var content := ListHtml(sorted, ItemHtml);
      page := Some(Page("Blog", content));
  }
}
