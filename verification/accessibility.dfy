/**
 * The accessible-markup helpers (includes/accessibility.php): the ARIA
 * attributes of a form field, breadcrumbs, and pagination.  The HTML is
 * built by appending to a string; what it is made of is described by a
 * list of parts (page entries, crumbs, separators), and the text is the
 * parts rendered in order.
 */
module Accessibility {
  import opened Php
  import opened PhpArray
  import Auth

  // ---------------------------------------------------------------------
  // ARIA attributes of a form field
  // ---------------------------------------------------------------------

  /** The label shown for a field: its name with '_' read as a space, first letter upper-cased. */
  function AriaLabel(field: string): string {
    Ucfirst(Replace(field, "_", " "))
  }

  /**
   * fcms_generate_aria_label: the label and whether the field is required,
   * and a reference to the help element when there is help text.
   */
  function GenerateAriaLabel(field: string, required: bool, helpText: string): (attrs: Arr<string>)
    ensures UniqueKeys(attrs)
    ensures Get(attrs, "aria-label") == Some(AriaLabel(field))
    ensures Get(attrs, "aria-required") == Some(if required then "true" else "false")
    ensures HasKey(attrs, "aria-describedby") <==> !Empty(helpText)
    ensures !Empty(helpText) ==> Get(attrs, "aria-describedby") == Some("help-" + field)
  {
    var attrs := [("aria-label", AriaLabel(field)), ("aria-required", if required then "true" else "false")];
    assert "aria-label"[5] != "aria-required"[5];
    if !Empty(helpText) then
      assert "aria-describedby"[5] != "aria-label"[5] && "aria-describedby"[5] != "aria-required"[5];
      var r := attrs + [("aria-describedby", "help-" + field)];
      assert r[2].0 == "aria-describedby";
      r
    else
      assert "aria-describedby"[5] != "aria-label"[5] && "aria-describedby"[5] != "aria-required"[5];
      attrs
  }

  /** The label has no underscore left: every one has become a space, and upper-casing makes none. */
  lemma AriaLabelHasNoUnderscore(field: string)
    ensures '_' !in AriaLabel(field)
  {
    var spaced := Replace(field, "_", " ");
    ReplaceRemovesChar(field, '_', " ");
    var r := Ucfirst(spaced);
    if spaced != [] {
      assert r == [UpperChar(spaced[0])] + spaced[1..];
      assert spaced[0] in spaced;
      forall c | c in spaced[1..] ensures c != '_' {
        var j :| 0 <= j < |spaced[1..]| && spaced[1..][j] == c;
        assert spaced[j + 1] in spaced;
      }
    }
  }

  /** Replacing a character by text without it leaves none of it. */
  lemma {:induction false} ReplaceRemovesChar(s: string, c: char, to: string)
    requires c !in to
    ensures c !in Replace(s, [c], to)
    decreases |s|
  {
    if s != [] {
      ReplaceRemovesChar(s[1..], c, to);
      if !StartsWith(s, [c]) {
        assert s[..1] == [s[0]];
      }
    }
  }

  // ---------------------------------------------------------------------
  // Breadcrumbs
  // ---------------------------------------------------------------------

  /** A breadcrumb item: its title and, when `url` is set, a link target. */
  datatype Crumb = Crumb(title: string, url: Option<string>)

  /** What a breadcrumb trail is made of. */
  datatype CrumbPart = Separator(text: string) | CrumbLink(url: string, title: string) | CurrentCrumb(title: string)

  /** Item k: a link when it has a URL and is not the last item, otherwise the current-page span. */
  function CrumbAt(items: seq<Crumb>, k: nat): (p: CrumbPart)
    requires k < |items|
    ensures p.CrumbLink? <==> items[k].url.Some? && k < |items| - 1
    ensures (p.CrumbLink? || p.CurrentCrumb?) && p.title == items[k].title
    ensures p.CrumbLink? ==> p.url == items[k].url.value
  {
    if items[k].url.Some? && k < |items| - 1 then CrumbLink(items[k].url.value, items[k].title)
    else CurrentCrumb(items[k].title)
  }

  /** The parts of the first k items: each item, preceded by a separator unless it is the first. */
  function CrumbParts(items: seq<Crumb>, separator: string, k: nat): seq<CrumbPart>
    requires k <= |items|
  {
    if k == 0 then []
    else CrumbParts(items, separator, k - 1) + (if k > 1 then [Separator(separator)] else []) + [CrumbAt(items, k - 1)]
  }

  /** The parts alternate item, separator, item, ... and there are 2k - 1 of them. */
  lemma {:induction false} CrumbPartsShape(items: seq<Crumb>, separator: string, k: nat)
    requires 0 < k <= |items|
    ensures |CrumbParts(items, separator, k)| == 2 * k - 1
    ensures forall j :: 0 <= j < k ==> CrumbParts(items, separator, k)[2 * j] == CrumbAt(items, j)
    ensures forall j :: 0 <= j < k - 1 ==> CrumbParts(items, separator, k)[2 * j + 1] == Separator(separator)
    decreases k
  {
    if k > 1 {
      CrumbPartsShape(items, separator, k - 1);
      var before := CrumbParts(items, separator, k - 1);
      assert CrumbParts(items, separator, k) == before + [Separator(separator)] + [CrumbAt(items, k - 1)];
    }
  }

  /**
   * The trail of all items: separators only between items, and the last
   * item is never a link, whatever its URL.
   */
  lemma BreadcrumbTrail(items: seq<Crumb>, separator: string)
    requires items != []
    ensures var parts := CrumbParts(items, separator, |items|);
      |parts| == 2 * |items| - 1 &&
      (forall j :: 0 <= j < |parts| ==> (parts[j].Separator? <==> j % 2 == 1)) &&
      parts[|parts| - 1] == CurrentCrumb(items[|items| - 1].title)
  {
    var parts := CrumbParts(items, separator, |items|);
    CrumbPartsShape(items, separator, |items|);
    forall j | 0 <= j < |parts| ensures parts[j].Separator? <==> j % 2 == 1 {
      if j % 2 == 0 {
        assert parts[2 * (j / 2)] == CrumbAt(items, j / 2);
      } else {
        assert parts[2 * (j / 2) + 1] == Separator(separator);
      }
    }
    assert parts[2 * (|items| - 1)] == CrumbAt(items, |items| - 1);
  }

  function CrumbHtml(p: CrumbPart): string {
    match p
    case Separator(s) => " <span class=\"separator\" aria-hidden=\"true\">" + Auth.HtmlSpecialChars(s) + "</span> "
    case CrumbLink(u, t) =>
      "<a href=\"" + Auth.HtmlSpecialChars(u) + "\" class=\"text-blue-600 hover:text-blue-800\">" +
        Auth.HtmlSpecialChars(t) + "</a>"
    case CurrentCrumb(t) => "<span class=\"current-page text-gray-600\" aria-current=\"page\">" + Auth.HtmlSpecialChars(t) + "</span>"
  }

  const BreadcrumbOpen := "<nav class=\"breadcrumb\" aria-label=\"Breadcrumb\">"

  /** fcms_breadcrumbs' text: nothing for no items, otherwise the rendered parts inside the nav element. */
  function Breadcrumbs(items: seq<Crumb>, separator: string): string {
    if items == [] then "" else BreadcrumbOpen + Concat(CrumbParts(items, separator, |items|), CrumbHtml) + "</nav>"
  }

  /** Rendering one more item adds its separator (unless it is the first) and the item itself. */
  lemma CrumbPartsSnoc(items: seq<Crumb>, separator: string, k: nat, text: CrumbPart -> string)
    requires k < |items|
    ensures k == 0 ==> Concat(CrumbParts(items, separator, 1), text) == text(CrumbAt(items, 0))
    ensures k > 0 ==> (Concat(CrumbParts(items, separator, k + 1), text) ==
      Concat(CrumbParts(items, separator, k), text) + text(Separator(separator)) + text(CrumbAt(items, k)))
  {
    var before := CrumbParts(items, separator, k);
    if k > 0 {
      var mid := before + [Separator(separator)];
      assert CrumbParts(items, separator, k + 1) == mid + [CrumbAt(items, k)];
      ConcatAppend(mid, CrumbAt(items, k), text);
      ConcatAppend(before, Separator(separator), text);
    } else {
      assert CrumbParts(items, separator, 1) == [] + [CrumbAt(items, 0)];
      ConcatAppend([], CrumbAt(items, 0), text);
      assert "" + text(CrumbAt(items, 0)) == text(CrumbAt(items, 0));
    }
  }

  /** One loop step of fcms_breadcrumbs appends the separator (after the first item) and the item's markup. */
  lemma BreadcrumbStep(items: seq<Crumb>, separator: string, k: nat, done: string, separatorHtml: string, part: CrumbPart)
    requires k < |items|
    requires done == Concat(CrumbParts(items, separator, k), CrumbHtml)
    requires separatorHtml == if k > 0 then CrumbHtml(Separator(separator)) else ""
    requires part == CrumbAt(items, k)
    ensures done + separatorHtml + CrumbHtml(part) == Concat(CrumbParts(items, separator, k + 1), CrumbHtml)
  {
    CrumbPartsSnoc(items, separator, k, CrumbHtml);
    if k == 0 {
      assert done == "";
      assert "" + "" + CrumbHtml(part) == CrumbHtml(part);
    }
  }

  /** The foreach loop of fcms_breadcrumbs: one pass over the items, appending separators and items. */
  method CrumbTrail(items: seq<Crumb>, separator: string) returns (trail: string)
    ensures trail == Concat(CrumbParts(items, separator, |items|), CrumbHtml)
  {
    trail := "";
    var index := 0;
    while index < |items|
      invariant 0 <= index <= |items|
      invariant trail == Concat(CrumbParts(items, separator, index), CrumbHtml)
    {
      ghost var separatorHtml := "";
      var item := items[index];
      ghost var done := trail;
      if index > 0 {
        trail := trail + CrumbHtml(Separator(separator));
        separatorHtml := CrumbHtml(Separator(separator));
      }
      var part: CrumbPart;
      if item.url.Some? && index < |items| - 1 {
        part := CrumbLink(item.url.value, item.title);
      } else {
        part := CurrentCrumb(item.title);
      }
      BreadcrumbStep(items, separator, index, done, separatorHtml, part);
      trail := trail + CrumbHtml(part);
      index := index + 1;
    }
  }

  /** fcms_breadcrumbs: nothing for no items, otherwise the trail inside the nav element. */
  method FcmsBreadcrumbs(items: seq<Crumb>, separator: string) returns (html: string)
    ensures html == Breadcrumbs(items, separator)
  {
    if items == [] {
      return "";
    }
    html := BreadcrumbOpen;
    var trail := CrumbTrail(items, separator);
    html := html + trail;
    html := html + "</nav>";
  }

  // ---------------------------------------------------------------------
  // Pagination
  // ---------------------------------------------------------------------

  function Max(a: int, b: int): int { if a >= b then a else b }
  function Min(a: int, b: int): int { if a <= b then a else b }

  /** The page numbers shown: up to two on each side of the current page, within 1..total. */
  function WindowStart(current: int): int { Max(1, current - 2) }
  function WindowEnd(current: int, total: int): int { Min(total, current + 2) }

  /** A page number in the list: the current page as a span, any other as a link. */
  datatype PageEntry = CurrentPage(page: int) | PageLink(page: int)

  function Entry(i: int, current: int): PageEntry {
    if i == current then CurrentPage(i) else PageLink(i)
  }

  /** The page entries, one per number of the window, ascending. */
  function PageEntries(current: int, total: int): (es: seq<PageEntry>)
    ensures |es| == Max(0, WindowEnd(current, total) - WindowStart(current) + 1)
    ensures forall k :: 0 <= k < |es| ==> es[k] == Entry(WindowStart(current) + k, current)
  {
    var start := WindowStart(current);
    seq(Max(0, WindowEnd(current, total) - start + 1), k => Entry(start + k, current))
  }

  /**
   * The entries cover exactly max(1, cur - 2)..min(total, cur + 2), and the
   * current page is the one entry that is not a link.
   */
  lemma PageEntriesWindow(current: int, total: int)
    ensures forall e :: e in PageEntries(current, total) <==>
      WindowStart(current) <= e.page <= WindowEnd(current, total) && e == Entry(e.page, current)
    ensures forall e :: e in PageEntries(current, total) ==> (e.CurrentPage? <==> e.page == current)
    ensures 1 <= current <= total ==> CurrentPage(current) in PageEntries(current, total)
  {
    var es := PageEntries(current, total);
    var start := WindowStart(current);
    forall e: PageEntry | WindowStart(current) <= e.page <= WindowEnd(current, total) && e == Entry(e.page, current)
      ensures e in es
    {
      assert es[e.page - start] == e;
    }
    if 1 <= current <= total {
      assert es[current - start] == CurrentPage(current);
    }
  }

  /** A previous or next control: where it points and whether it is disabled. */
  datatype NavButton = NavButton(url: string, disabled: bool)

  function PageUrl(baseUrl: string, page: int): string {
    baseUrl + "?page=" + IntString(page)
  }

  /** The previous control is disabled on the first page (or before it) and points nowhere then. */
  function PrevButton(current: int, baseUrl: string): (b: NavButton)
    ensures b.disabled <==> current <= 1
  {
    var disabled := current <= 1;
    NavButton(if disabled then "#" else PageUrl(baseUrl, current - 1), disabled)
  }

  /** The next control is disabled on the last page (or after it). */
  function NextButton(current: int, total: int, baseUrl: string): (b: NavButton)
    ensures b.disabled <==> current >= total
  {
    var disabled := current >= total;
    NavButton(if disabled then "#" else PageUrl(baseUrl, current + 1), disabled)
  }

  /**
   * An enabled control points to a neighbouring page, and on a page inside
   * 1..total that neighbour is listed as a link in the window.
   */
  lemma ButtonsPointIntoWindow(current: int, total: int, baseUrl: string)
    ensures !PrevButton(current, baseUrl).disabled ==> PrevButton(current, baseUrl).url == PageUrl(baseUrl, current - 1)
    ensures !NextButton(current, total, baseUrl).disabled ==>
      NextButton(current, total, baseUrl).url == PageUrl(baseUrl, current + 1)
    ensures 1 < current <= total ==> PageLink(current - 1) in PageEntries(current, total)
    ensures 1 <= current < total ==> PageLink(current + 1) in PageEntries(current, total)
  {
    PageEntriesWindow(current, total);
  }

  function ButtonHtml(b: NavButton, ariaLabel: string, text: string): string {
    "<a href=\"" + b.url + "\"" +
      (if b.disabled then " aria-disabled=\"true\" tabindex=\"-1\" class=\"opacity-50 cursor-not-allowed\""
       else " class=\"text-blue-600 hover:text-blue-800\"") +
      " aria-label=\"" + ariaLabel + "\">" + text + "</a>"
  }

  function EntryHtml(e: PageEntry, baseUrl: string): string {
    match e
    case CurrentPage(n) =>
      "<span class=\"px-3 py-2 bg-blue-500 text-white rounded\" aria-current=\"page\">" + IntString(n) + "</span>"
    case PageLink(n) =>
      "<a href=\"" + PageUrl(baseUrl, n) + "\" class=\"px-3 py-2 text-blue-600 hover:text-blue-800 rounded\">" +
        IntString(n) + "</a>"
  }

  function EntryRenderer(baseUrl: string): PageEntry -> string {
    e => EntryHtml(e, baseUrl)
  }

  const PaginationOpen := "<nav class=\"flex items-center justify-between\" aria-label=\"Pagination\">"
  const GroupOpen := "<div class=\"flex space-x-2\" role=\"group\" aria-label=\"Page navigation\">"
  const PrevLabel := "Go to previous page"
  const NextLabel := "Go to next page"

  /** The markup up to and including the page entries. */
  function PaginationHead(current: int, baseUrl: string): string {
    PaginationOpen + ButtonHtml(PrevButton(current, baseUrl), PrevLabel, "&larr; Previous") + GroupOpen
  }

  /** The markup of the page numbers lo..hi, ascending. */
  function PageNumbersHtml(lo: int, hi: int, current: int, render: PageEntry -> string): string
    decreases hi - lo
  {
    if hi < lo then "" else PageNumbersHtml(lo, hi - 1, current, render) + render(Entry(hi, current))
  }

  /** The page-number markup is the page entries of the window rendered in order. */
  lemma {:induction false} PageNumbersAreEntries(current: int, total: int, render: PageEntry -> string, hi: int)
    requires WindowStart(current) - 1 <= hi <= WindowEnd(current, total)
    ensures PageNumbersHtml(WindowStart(current), hi, current, render) ==
      Concat(PageEntries(current, total)[..hi - WindowStart(current) + 1], render)
    decreases hi - WindowStart(current)
  {
    var start := WindowStart(current);
    var es := PageEntries(current, total);
    if hi >= start {
      PageNumbersAreEntries(current, total, render, hi - 1);
      ConcatSnoc(es, hi - start, render);
      assert es[hi - start] == Entry(hi, current);
    }
  }

  /** The whole window rendered number by number is the entries rendered in order. */
  lemma NumbersAreEntries(current: int, total: int, render: PageEntry -> string)
    ensures PageNumbersHtml(WindowStart(current), WindowEnd(current, total), current, render) ==
      Concat(PageEntries(current, total), render)
  {
    var es := PageEntries(current, total);
    if WindowEnd(current, total) >= WindowStart(current) {
      PageNumbersAreEntries(current, total, render, WindowEnd(current, total));
      assert es[..|es|] == es;
    } else {
      assert es == [];
    }
  }

  /** fcms_pagination's text: nothing for a single page. */
  function Pagination(current: int, total: int, baseUrl: string): string {
    if total <= 1 then ""
    else
      PaginationHead(current, baseUrl) + PageNumbersHtml(WindowStart(current), WindowEnd(current, total), current, EntryRenderer(baseUrl)) +
        "</div>" + ButtonHtml(NextButton(current, total, baseUrl), NextLabel, "Next &rarr;") + "</nav>"
  }

  /**
   * Between the controls the markup is the window's entries in ascending
   * order: the current page as a span, every other number as a link.
   */
  lemma PaginationListsWindow(current: int, total: int, baseUrl: string)
    requires total > 1
    ensures Pagination(current, total, baseUrl) ==
      PaginationHead(current, baseUrl) + Concat(PageEntries(current, total), EntryRenderer(baseUrl)) + "</div>" +
        ButtonHtml(NextButton(current, total, baseUrl), NextLabel, "Next &rarr;") + "</nav>"
  {
    NumbersAreEntries(current, total, EntryRenderer(baseUrl));
  }

  /** There is pagination markup exactly when there is more than one page. */
  lemma PaginationOnlyForSeveralPages(current: int, total: int, baseUrl: string)
    ensures Pagination(current, total, baseUrl) == "" <==> total <= 1
  {
    if total > 1 {
      assert |PaginationHead(current, baseUrl)| >= |PaginationOpen| > 0;
    }
  }

  /** When the loop over lo..hi stops, it has rendered the whole range. */
  lemma NumbersAtExit(lo: int, i: int, hi: int, current: int, render: PageEntry -> string)
    requires hi < i && (i <= hi + 1 || i == lo)
    ensures PageNumbersHtml(lo, i - 1, current, render) == PageNumbersHtml(lo, hi, current, render)
  {
  }

  /** One loop step of fcms_pagination appends the markup of page number i. */
  lemma PageStep(lo: int, i: int, current: int, baseUrl: string, done: string, entry: PageEntry)
    requires done == PageNumbersHtml(lo, i - 1, current, EntryRenderer(baseUrl))
    requires entry == Entry(i, current)
    requires lo <= i
    ensures done + EntryHtml(entry, baseUrl) == PageNumbersHtml(lo, i, current, EntryRenderer(baseUrl))
  {
  }

  /** The for loop of fcms_pagination: each page number of startPage..endPage in turn, as a span or a link. */
  method PageNumbers(startPage: int, endPage: int, current: int, baseUrl: string) returns (numbers: string)
    ensures numbers == PageNumbersHtml(startPage, endPage, current, EntryRenderer(baseUrl))
  {
    numbers := "";
    var i := startPage;
    while i <= endPage
      invariant startPage <= i
      invariant i <= endPage + 1 || i == startPage
      invariant numbers == PageNumbersHtml(startPage, i - 1, current, EntryRenderer(baseUrl))
    {
      var entry: PageEntry;
      if i == current {
        entry := CurrentPage(i);
      } else {
        entry := PageLink(i);
      }
      PageStep(startPage, i, current, baseUrl, numbers, entry);
      numbers := numbers + EntryHtml(entry, baseUrl);
      i := i + 1;
    }
    NumbersAtExit(startPage, i, endPage, current, EntryRenderer(baseUrl));
  }

  /** fcms_pagination: the previous control, the page numbers of the window and the next control. */
  method FcmsPagination(current: int, total: int, baseUrl: string) returns (html: string)
    ensures html == Pagination(current, total, baseUrl)
  {
    if total <= 1 {
      return "";
    }
    html := PaginationHead(current, baseUrl);
    var startPage := Max(1, current - 2);
    var endPage := Min(total, current + 2);
    var numbers := PageNumbers(startPage, endPage, current, baseUrl);
    html := html + numbers;
    html := html + "</div>";
    html := html + ButtonHtml(NextButton(current, total, baseUrl), NextLabel, "Next &rarr;");
    html := html + "</nav>";
  }
}
