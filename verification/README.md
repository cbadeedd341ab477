# FearlessCMS core, modelled in Dafny

FearlessCMS is a flat-file PHP content management system. Pages, blog posts, menus, sidebars, users and plugin state live in JSON and Markdown files, and plugins extend it through hooks and filters. The store plugin adds taxes, shipping and payment gateways.

This project models the rule-carrying core of the system and proves properties of it. Each core source file is one module:

- **Theme maintenance.** `fix_over_braces.py` rewrites over-braced template tags (modules `BraceFixer`, `BraceFindings`).
- **Input rules.** `includes/auth.php` and `install.php` hold the username, password and path validators, the input sanitiser, the fixed-window rate limiters, the command whitelist and admin creation (`Auth`, `Install`).
- **Capabilities and plugins.**
  - `includes/CMSModeManager.php` holds the mode table (`CmsMode`).
  - `plugins/user-roles/user-roles.php` holds the role table and the two permission hooks (`UserRoles`).
  - `includes/plugins.php` holds the hook, filter and admin-section registry (`Hooks`).
- **JSON-backed collections.**
  - Sidebars and widgets: `admin/widgets-handler.php` (`Widgets`).
  - Menus: `menu-ajax-handler.php` (`Menus`).
  - Active plugins: `plugin-handler.php` (`PluginHandler`).
  - Users, with the last-administrator guard: `admin/user-handler.php` (`UserAdmin`).
  - Blog posts: `plugins/blog/blog.php` (`Blog`).
- **Cache.** `includes/CacheManager.php`: durations, sizes, counters and status (`Cache`).
- **Store.**
  - Taxes and orders: `fearlesscommerce.php` (`Commerce`).
  - Shipping methods and their manager (`Shipping`, `ShippingManagement`).
  - The gateway base class, the gateway manager and the Stripe gateway (`PaymentGateway`, `Payments`, `Stripe`).
- **Front end.**
  - Request paths: `includes/Router.php` (`Routing`).
  - Content files and page defaults: `includes/ContentLoader.php` (`ContentLoading`).
  - Pagination, breadcrumbs and ARIA labels: `includes/accessibility.php` (`Accessibility`).
  - The parallax shortcode: `plugins/parallax/parallax.php` (`Parallax`).
  - The static-export helpers: `export.js` (`Export`).

Two shared modules give PHP's own semantics to what the core calls:

- `Php` covers truthiness, `trim`, `explode`/`implode`, `str_replace`, case mapping, `ucwords` and the like.
- `PhpArray` covers ordered arrays with string keys: reading, writing in place, removing a key, and filtering.

**Form of the model.**

- Objects that the source changes in place are classes with `modifies` clauses. Examples are the JSON stores of the handlers, the registries, the cache statistics and the rate-limit session.
- Each state-changing method is proved against a function of the old state. The lemmas then state the properties of that function.
- Loops of the source are methods with loop invariants, proved against a specification function.
- Pure helpers are functions and lemmas.

Files, JSON decoding, clocks, `uniqid()`, password hashing, HMAC, HTTP and PHP's float formatting are parameters.

**Where the project's description and its code disagree, the model follows the code:**

- The brace fixer is not idempotent, and most of its five-brace patterns never match.
- `check_permission` treats a user who is not on file as an author.
- `save_widget` loses the update it makes. Only `Widgets.SaveListAsWritten` follows the code here, and the operations use the corrected list (see Findings).

## Model

| member | source | states |
|---|---|---|
| Accessibility.GenerateAriaLabel | includes/accessibility.php:12-25 | The attributes have unique keys. aria-label is the field name with '_' read as a space and the first letter upper-cased. aria-required is "true" or "false". aria-describedby is present exactly when the help text is truthy, and is then "help-" + the field name |
| Accessibility.AriaLabelHasNoUnderscore | includes/accessibility.php:13 | No underscore is left in the label |
| Accessibility.CrumbAt | includes/accessibility.php:253-261 | An item is a link exactly when it has a URL and is not the last item. Either way it shows the item's title, and a link points to the item's URL |
| Accessibility.CrumbPartsShape | includes/accessibility.php:248-262 | The first k items make 2k-1 parts: item j sits at position 2j and the separator at every odd position |
| Accessibility.BreadcrumbTrail | includes/accessibility.php:241-267 | Separators appear only between items, and the last item is the current-page span whatever its URL |
| Accessibility.CrumbTrail | includes/accessibility.php:248-263 | The foreach loop appends exactly the trail's parts, rendered in order |
| Accessibility.FcmsBreadcrumbs | includes/accessibility.php:241-267 | The result is "" for no items, otherwise the rendered trail inside the breadcrumb nav element |
| Accessibility.PageEntries | includes/accessibility.php:382-395 | One entry per number of max(1, cur-2)..min(total, cur+2), ascending |
| Accessibility.PageEntriesWindow | includes/accessibility.php:382-395 | The entries cover exactly the window. The current page is the one entry that is a span, not a link, and it is listed whenever 1 <= cur <= total |
| Accessibility.PrevButton | includes/accessibility.php:366-374 | The previous control is disabled exactly when cur <= 1 |
| Accessibility.NextButton | includes/accessibility.php:400-407 | The next control is disabled exactly when cur >= total |
| Accessibility.ButtonsPointIntoWindow | includes/accessibility.php:366-407 | An enabled control points to ?page=cur-1 or ?page=cur+1, and for a page inside 1..total that neighbour is listed as a link |
| Accessibility.PageNumbersAreEntries | includes/accessibility.php:385-395 | The numbers from the window start up to any point inside it render as that many page entries, in order |
| Accessibility.NumbersAreEntries | includes/accessibility.php:385-395 | The whole window, rendered number by number, is the page entries rendered in order |
| Accessibility.PaginationListsWindow | includes/accessibility.php:358-416 | For more than one page the markup is the previous control, the window's entries in ascending order and the next control |
| Accessibility.PaginationOnlyForSeveralPages | includes/accessibility.php:358-361 | The markup is empty exactly when total <= 1 |
| Accessibility.PageNumbers | includes/accessibility.php:385-395 | The for loop over start..end appends each page number as a span or a link, in ascending order |
| Accessibility.FcmsPagination | includes/accessibility.php:358-416 | The method's text is the pagination markup: empty for one page, otherwise the controls and the window |
| Auth.ValidateUsernameExact | includes/auth.php:98-104 | Without a trailing newline, a name is accepted exactly when it has 3 to 50 characters, all from [a-zA-Z0-9_-] |
| Auth.ValidateUsernameAcceptsNewline | includes/auth.php:100 | As written, "abc\n" is accepted although it holds a character outside the class |
| Auth.ValidUsernameAgrees | includes/auth.php:98-104 | The intended anchored check accepts a subset of what the written check accepts. The two agree except on one trailing newline, and the intended check accepts no newline |
| Auth.ValidatePassword | includes/auth.php:106-115 | A password is accepted exactly when it is at least 8 bytes long and has an ASCII letter and a digit |
| Auth.AsciiByteLength | includes/auth.php:108 | For an ASCII text strlen counts its characters |
| Auth.AsciiPasswordRule | includes/auth.php:106-115 | An ASCII password is accepted exactly when it has at least 8 characters, a letter and a digit |
| Auth.PasswordExamples | includes/auth.php:106-115 | "abcdef1" is rejected as one character short, and "abcdefg1" is accepted |
| Auth.HtmlSpecialChars | includes/auth.php:128 | Escaping never shortens the text and leaves no < > " or ' in it |
| Auth.HtmlSpecialCharsRoundTrip | includes/auth.php:128 | Decoding the entities gives back the text: escaping loses nothing |
| Auth.SanitizeInput | includes/auth.php:117-130 | In the username, filename and path modes every remaining character is one the mode allows, and the result is no longer than the input |
| Auth.SanitizeKeepsAllowed | includes/auth.php:117-127 | In a filtering mode nothing allowed is lost: every allowed character of the trimmed input occurs in the result as often as in the input, no disallowed one occurs, an all-allowed trimmed input is returned unchanged, and the kept characters keep their order |
| Php.FilterConcat | includes/auth.php:121-126 | Deleting characters is local: filtering a concatenation filters each part, so order is kept |
| Php.FilterCount | includes/auth.php:121-126 | A kept character occurs in the result as often as in the input, and a deleted one not at all |
| Auth.SanitizeIdempotent | includes/auth.php:117-127 | In the filtering modes, sanitising a sanitised value changes nothing |
| Auth.SanitizeStringDecodes | includes/auth.php:118-128 | In string mode the result decodes back to the trimmed input |
| Auth.ValidateFilePath | includes/auth.php:133-161 | A path is accepted exactly when its cleaned form has no "../", does not start with "./" or "/", and the "//"-collapsed full path starts with realpath(base). The result is base + "/" + the cleaned path, and nothing after the base holds "../" |
| Auth.Step | includes/auth.php:239-258 | A missing or expired record restarts at count 0 with reset = now + window. The call is allowed exactly when the count is below max, and only an allowed call adds one |
| Auth.StepKeepsBound | includes/auth.php:252-257 | A count that was within max stays within max |
| Auth.RunWithinWindow | includes/auth.php:252-258 | Within one window, exactly min(n, max - count) of n calls are allowed, and the count grows by that much |
| Auth.Session.Check | includes/auth.php:242-258 | The key's record becomes the one Step computes, the result is Step's verdict, and no other key changes |
| Auth.Session.CheckOperationRateLimit | includes/auth.php:238-259 | The limiter runs on the record under "op_rate_limit_" + operation + "_" + identifier |
| Auth.OperationKey | includes/auth.php:242 | The key starts with "op_rate_limit_" |
| Auth.OperationKeysCollide | includes/auth.php:239 | "a" with "b_c" and "a_b" with "c" share one record |
| Auth.CheckLoginRateLimit | includes/auth.php:214-216 | Every login attempt is allowed |
| Blog.SaveWithIdUpdatesAll | plugins/blog/blog.php:34-44 | An accepted save with a truthy id rewrites the title, slug, date, content and status of every post with that id, not only the first. Every other post is kept, and the order and all ids stay the same |
| Blog.SaveUnknownIdKeepsPosts | plugins/blog/blog.php:35-44 | A save whose id no post has changes nothing: it does not create a post |
| Blog.SaveWithoutIdAppends | plugins/blog/blog.php:45-53 | An accepted save without an id keeps the list as its prefix and appends one post: the new id, the trimmed title and slug, the date, the content and the status ('draft' by default) |
| Blog.SavedFieldsTrimmed | plugins/blog/blog.php:29-34 | A saved title and slug are truthy, and the slug has no white space at either end |
| Blog.DeleteRemovesEveryMatch | plugins/blog/blog.php:57-58 | After a delete no post has the id, exactly the posts with another id remain, and deleting again changes nothing |
| Blog.DeleteUndoesAppend | plugins/blog/blog.php:45-58 | Deleting a freshly appended post by its new id gives back the list from before the save |
| Blog.BlogStore.UpdateMatching | plugins/blog/blog.php:36-44 | The by-reference foreach leaves each post with the id rewritten by the form and every other post as it was |
| Blog.BlogStore.SavePost | plugins/blog/blog.php:28-56 | The list is written back exactly when the title and slug are truthy. The new list is the one SavedPosts describes |
| Blog.BlogStore.DeletePost | plugins/blog/blog.php:57-60 | With an id, the list becomes the posts with a different id. Without one, nothing changes |
| Blog.Subject | plugins/blog/blog.php:109 | The subject the pattern is matched against is the page slug, or the slug without its one final newline |
| Blog.RouteOfBlogPaths | plugins/blog/blog.php:109-125 | 'blog' is the index. 'blog/' + slug, for a slug over [a-zA-Z0-9_-], is that slug's page, except 'blog/0', which empty() sends to the index |
| Blog.RouteOfShape | plugins/blog/blog.php:109 | A routed post page is 'blog/' + a slug over [a-zA-Z0-9_-], with at most one final newline, and anything not starting with 'blog' is not handled |
| Blog.FirstPublishedMeaning | plugins/blog/blog.php:112-121 | The post served is a published post with the slug, and no earlier post is one. There is none exactly when no published post has the slug |
| Blog.InsertByDate | plugins/blog/blog.php:127 | Inserting a post adds exactly that post to the multiset of posts |
| Blog.SortByDate | plugins/blog/blog.php:127 | The sort is a permutation of its input |
| Blog.InsertByDateSorted | plugins/blog/blog.php:127 | Inserting into a newest-first list keeps it newest first |
| Blog.SortByDateSorted | plugins/blog/blog.php:127 | The sorted list is in descending strcmp order of the dates and is a permutation of its input |
| Blog.IndexListsPublished | plugins/blog/blog.php:126-133 | The index lists exactly the published posts, each as often as it is stored, newest date first |
| Blog.PostPageServed | plugins/blog/blog.php:111-124 | 'blog/' + slug is always handled: with a published post of that slug, its title and its rendered content, or with 'Post Not Found' when no published post has the slug |
| Blog.FindPublished | plugins/blog/blog.php:112-121 | The search loop returns the first published post with the slug, or nothing |
| Blog.ListHtml | plugins/blog/blog.php:129-133 | The loop's content is the heading, each post's list item in order, and the closing tag |
| Blog.RouteHook | plugins/blog/blog.php:108-137 | The hook's outcome is RoutedPage: unhandled outside the route, the post or the not-found page for a slug, and the index otherwise |
| BraceFixer.MatchAt | fix_over_braces.py:13-29 | A match starts with the pattern's literal prefix and takes at least one character. A literal pattern's match is its text, replaced by its replacement. A group pattern's group has no '}', starts with its lead, and is put between the replacement's braces |
| BraceFixer.FixOverBraces | fix_over_braces.py:9-35 | The text goes through the nine substitutions in order, and the file is written (True returned) exactly when the result differs from the text read |
| BraceFixer.ReplacementShape | fix_over_braces.py:13-29 | Every replacement in the chain has the form "{{" + ... + "}}", with either set of brace counts |
| BraceFixer.PlainGroupSub | fix_over_braces.py:20-29 | re.sub with a group pattern without \s+ replaces a whole token prefix + group + suffix by the group in double braces, then carries on after it |
| BraceFixer.SpacedGroupSub | fix_over_braces.py:13-23 | re.sub with a `\s+` pattern replaces prefix + " " + group + suffix by the group in double braces, then carries on after it |
| BraceFixer.NoMatchSub | fix_over_braces.py:13-29 | Where no match starts, re.sub copies the character and goes on scanning from the next one |
| BraceFixer.SubWithoutPrefix | fix_over_braces.py:13-29 | One substitution leaves a text unchanged when the pattern's literal prefix occurs nowhere in it |
| BraceFixer.ApplyWithoutPrefixes | fix_over_braces.py:13-29 | The whole chain leaves a text unchanged when no pattern's prefix occurs in it |
| BraceFixer.NoBraceUnchanged | fix_over_braces.py:13-29 | A text without '{' passes unchanged through both the as-written chain and the intended one |
| BraceFixer.AsWrittenIgnoresBraceRuns | fix_over_braces.py:13-29 | As written, every text in which no '{' is followed by a digit is left unchanged. That covers every Handlebars template, so over-braced tokens are never fixed |
| BraceFixer.AsWrittenKeepsFiveBraceIf | fix_over_braces.py:12-13 | The "{{{{{#if c}}}}}" token the comment names is left unchanged as written |
| BraceFixer.IntendedKeepsDoubleBraces | fix_over_braces.py:13-29 | With the intended counts, a text with no three '{' in a row is left unchanged, so correct templates are not touched |
| BraceFindings.IntendedFixesFiveBraceIf | fix_over_braces.py:12-13 | With the intended counts, "{{{{{#if c}}}}}" becomes "{{#if c}}" |
| BraceFindings.IntendedFixesTripleBraces | fix_over_braces.py:25-26 | With the intended counts, "{{{c}}}" becomes "{{c}}" |
| BraceFindings.IntendedQuadrupleBecomesTriple | fix_over_braces.py:25-29 | Even with the intended counts, the triple rule runs before the quadruple one, so "{{{{c}}}}" only becomes "{{{c}}}" |
| BraceFindings.FirstPass | fix_over_braces.py:13-29 | One run of the as-written chain turns "{5}#if a{3}b}}}}}}" into "{5}#if a{{b}}}}}" |
| BraceFindings.SecondPass | fix_over_braces.py:13 | A second run turns that text into "{{#if a{{b}}" |
| BraceFindings.AsWrittenNotIdempotent | fix_over_braces.py:13-29 | As written, running the script twice can change a file that one run already produced |
| Cache.Merged | includes/CacheManager.php:79-80 | array_merge: every key the update holds wins, and every key it lacks keeps its stored value |
| Cache.MergeLaws | includes/CacheManager.php:79-80 | An empty update changes nothing, merging the same update twice is merging it once, and two updates in a row are one merged update |
| Cache.DurationUnits | includes/CacheManager.php:215-229 | The same span written in minutes, hours, days or seconds gives the same number of seconds. An unknown or missing unit means seconds, and a missing duration means 3600 |
| Cache.IntCastDigits | includes/CacheManager.php:297 | (int) reads the run of leading digits when the text after it cannot continue a number (no digit, '.', 'e' or 'E') |
| Cache.IntCastNegative | includes/CacheManager.php:297 | (int) of '-' followed by such digits is the negated number |
| Cache.IntCastDecimal | includes/CacheManager.php:297 | (int) reads back a number written in decimal, with or without a minus sign |
| Cache.IntCastFraction | includes/CacheManager.php:297 | (int) drops a fraction: digits, '.', digits read as the whole part |
| Cache.IntCastExponent | includes/CacheManager.php:297 | (int) reads the exponent form: d 'E' e is d × 10^e |
| Cache.ParseSizeExponent | includes/CacheManager.php:282-297 | A size in the exponent form, such as '1e3MB', is n × 10^k mebibytes |
| Cache.ReplaceUnit | includes/CacheManager.php:288-294 | str_replace of a unit after a run of digits leaves the digits |
| Cache.ParseSizeSplit | includes/CacheManager.php:283 | trim leaves digits followed by text without white space, and strtoupper changes only the text |
| Cache.ParseSizeKB | includes/CacheManager.php:282-298 | '<n>KB' is n·1024 bytes, in either case |
| Cache.ParseSizeMB | includes/CacheManager.php:282-298 | '<n>MB' is n·1024² bytes, in either case |
| Cache.ParseSizeGB | includes/CacheManager.php:282-298 | '<n>GB' is n·1024³ bytes, in either case |
| Cache.ParseSizeBytes | includes/CacheManager.php:282-298 | A bare number is a count of bytes |
| Cache.ParseSizeUnknownUnit | includes/CacheManager.php:286-297 | A unit the code does not know, such as 'TB', is dropped by the cast: the number is read as bytes |
| Cache.Initial | includes/CacheManager.php:87-98 | Fresh statistics have no requests and are balanced: hits + misses = requests |
| Cache.Hit | includes/CacheManager.php:188-193 | A hit adds one request and one hit, leaves the misses as they were, and keeps the counters balanced |
| Cache.Miss | includes/CacheManager.php:198-203 | A miss adds one request and one miss, leaves the hits as they were, and keeps the counters balanced |
| Cache.RateHundredths | includes/CacheManager.php:106-107 | hit_rate is the hit percentage rounded half up to two decimals, and 0 without requests |
| Cache.StatusOf | includes/CacheManager.php:234-242 | 'Disabled' exactly when caching is off, and 'No Activity' exactly when it is on and there have been no requests |
| Cache.StatusByRatio | includes/CacheManager.php:244-253 | The status bands in terms of the exact hit ratio: Excellent from 79.995% (which rounds to 80.00), Good from 59.995%, Fair from 39.995%, otherwise Poor |
| Cache.HitRaisesRate | includes/CacheManager.php:188-193 | A hit never lowers the hit rate |
| Cache.MissLowersRate | includes/CacheManager.php:198-203 | A miss never raises the hit rate |
| Cache.SizeOfOnlyStats | includes/CacheManager.php:303-314 | The statistics file adds nothing to the cache size, wherever it is |
| Cache.CacheSizeBytes | includes/CacheManager.php:303-314 | The scan adds up the sizes of every file except cache_stats.json |
| Cache.ClearedIsEmpty | includes/CacheManager.php:145-160 | When every deletion succeeds, the cache takes no space after a clear |
| Cache.ClearFiles | includes/CacheManager.php:145-160 | The loop keeps the statistics file and the files it could not delete, and counts the others as cleared |
| Cache.NeedsCleanup | includes/CacheManager.php:267-277 | A disabled cache never needs cleaning. The division fails exactly when the cache is enabled and the size limit parses to 0 |
| Cache.CleanupCrossMultiplied | includes/CacheManager.php:272-276 | With a positive limit, a cleanup is due exactly when the size exceeds threshold × limit |
| Cache.DefaultMaxBytes | includes/CacheManager.php:47 | The default limit '100MB' is 104857600 bytes |
| Cache.DefaultCleanupPoint | includes/CacheManager.php:267-277 | With the defaults, the cache is cleaned once it holds more than 83886080 bytes (80 MiB) |
| Cache.UndecodableConfigDisables | includes/CacheManager.php:27-31 | A config file that decodes to nothing turns the cache off: its status is Disabled and it never needs cleaning. The duration still falls back to 3600 |
| Cache.CacheManager.constructor | includes/CacheManager.php:8-52 | The config is the decoded file, or the defaults when there is none. The statistics are fresh when cache_stats.json is missing |
| Cache.CacheManager.UpdateConfig | includes/CacheManager.php:79-80 | The config becomes the merge of the old config and the update. Nothing else changes |
| Cache.CacheManager.RecordHit | includes/CacheManager.php:188-193 | The statistics become Hit of the old ones and stay balanced |
| Cache.CacheManager.RecordMiss | includes/CacheManager.php:198-203 | The statistics become Miss of the old ones and stay balanced |
| Cache.CacheManager.ClearCacheStats | includes/CacheManager.php:171-174 | Every counter goes back to 0, both dates become now, and the result is always true |
| Cache.CacheManager.ClearCache | includes/CacheManager.php:145-166 | The files left are the ones ClearFiles keeps, the result counts the deletions that succeeded, and last_cleared becomes now |
| Cache.CacheManager.AutoCleanup | includes/CacheManager.php:319-325 | The cache is cleared exactly when NeedsCleanup answers true, and otherwise nothing changes. A zero limit gives the division error |
| CmsMode.CapKey | includes/CMSModeManager.php:16-21 | Every capability key starts with 'can_' |
| CmsMode.ParseCap | includes/CMSModeManager.php:16-21 | A key names a capability exactly when it is that capability's key. Any other key names none |
| CmsMode.ModeCan | includes/CMSModeManager.php:106-112 | can() is false for a mode outside the table and for a key the entry lacks. For a can_* key it is whether the mode grants that capability |
| CmsMode.ParseCapKey | includes/CMSModeManager.php:12-43 | Each capability's key reads back as that capability, and is neither 'name' nor 'description' |
| CmsMode.ModeCanCap | includes/CMSModeManager.php:106-112 | For a known mode, can(key) is whether the mode's table entry grants the capability |
| CmsMode.OnlyFullFeaturedInstalls | includes/CMSModeManager.php:12-43 | Store access, installing and deleting are granted in full-featured mode and in no other mode, known or unknown |
| CmsMode.NoPluginsDeniesAll | includes/CMSModeManager.php:33-42 | The no-plugins mode grants nothing, and full-featured grants every capability |
| CmsMode.Summary | includes/CMSModeManager.php:189-197 | The summary holds the six can_* keys in table order, each with its flag |
| CmsMode.SummaryAgrees | includes/CMSModeManager.php:189-197 | Each pair of the summary is what can() answers for its key |
| CmsMode.ModeManager.constructor | includes/CMSModeManager.php:45-67 | Without a config file the mode is full-featured and is saved. A file without 'mode' gives full-featured with nothing saved. Otherwise the file's mode is kept as written |
| CmsMode.ModeManager.SetMode | includes/CMSModeManager.php:86-94 | A mode in the table is set and saved. Any other name is refused and changes nothing |
| CmsMode.ModeManager.Can | includes/CMSModeManager.php:106-112 | can() for the current mode, as ModeCan states |
| CmsMode.ModeManager.IsRestricted | includes/CMSModeManager.php:182-184 | Restricted exactly when the mode is not full-featured. An unrestricted manager grants every capability |
| CmsMode.ModeManager.ModeName | includes/CMSModeManager.php:166-169 | 'Unknown Mode' outside the table, and the entry's name otherwise |
| CmsMode.ModeManager.PermissionsSummary | includes/CMSModeManager.php:189-197 | Empty for an unknown mode. Otherwise six can_* pairs, each agreeing with can() |
| Commerce.AppliedTaxes | plugins/fearlesscommerce/fearlesscommerce.php:613-651 | There is at most one entry per rate |
| Commerce.CalculateTax | plugins/fearlesscommerce/fearlesscommerce.php:608-657 | The loop's applied_taxes are the entries of the applying rates in list order, and total_tax is the sum of their amounts |
| Commerce.AppliedConcat | plugins/fearlesscommerce/fearlesscommerce.php:613-651 | The entries are computed rate by rate: the entries of two lists one after the other are the entries of the first, then those of the second |
| Commerce.AppliedFromApplying | plugins/fearlesscommerce/fearlesscommerce.php:615-650 | Every entry comes from a rate that applies to the address, records the subtotal as its taxable amount, and carries the tax that rate adds |
| Commerce.NoAddressAppliesAll | plugins/fearlesscommerce/fearlesscommerce.php:615-616 | Without an address (any falsy one: null or the empty array) every rate applies: there is one entry per rate, in order |
| Commerce.FixedTotal | plugins/fearlesscommerce/fearlesscommerce.php:637-641 | With fixed-amount rates only and no address, the tax is the sum of the rates and does not depend on the subtotal |
| Commerce.CaseOfAddressIrrelevant | plugins/fearlesscommerce/fearlesscommerce.php:618-626 | Upper-casing the address's country, state and city does not change which rates apply |
| Commerce.UnrestrictedRateApplies | plugins/fearlesscommerce/fearlesscommerce.php:617-629 | A rate with no country, state, city or postal code applies to every address |
| Commerce.NewOrderAmounts | plugins/fearlesscommerce/fearlesscommerce.php:214-221 | The stored total is subtotal + tax + shipping, with tax and shipping 0 when not given |
| Commerce.OrderStatusUpdate | plugins/fearlesscommerce/fearlesscommerce.php:256-262 | The payment-status clause is in the statement exactly when the payment status is truthy. The parameters are the status, then that payment status if present, then the order id |
| Export.Repeat | export.js:107 | '../'.repeat(n) has n times the length of its text |
| Export.MakeRelativePath | export.js:102-109 | A path that does not start with '/' is returned as it is |
| Export.RelativePathResolves | export.js:102-109 | A rewritten site-absolute path, resolved from a page that many directories down, points back at the same path |
| Export.RelativePathShape | export.js:107 | The rewritten path is depth × '../' followed by the path without its leading '/' |
| Export.FullTitle | export.js:59-64 | The site title stands in for a missing title, and is appended with the separator when asked and both are set. The full title is empty only when both are empty |
| Export.BuildMetaTags | export.js:58-98 | The text the function builds up tag by tag is MetaTags of its arguments |
| Export.MetaTagsAreWrittenTags | export.js:66-97 | The output is the written tags in order: og:type and twitter:card always, every other tag exactly when its value is non-empty |
| Export.QuoteFrom | export.js:352 | The first quote character at or after the index, or the end of the text |
| Export.MatchAt | export.js:352 | A match captures a non-empty run without quote characters |
| Export.FirstMatch | export.js:352-353 | A match found is at or after the start index |
| Export.FirstMatchIsFirst | export.js:352-353 | match() finds the leftmost match: no index before it matches, and when nothing is found no index matches at all |
| Export.ExtractAttribute | export.js:351-355 | A value found is non-empty and holds no quote character |
| Export.ExtractWritten | export.js:351-355 | An attribute written as name="value" or name='value' is read back, provided neither the text before it nor the name contains '=' |
| Export.MissingAttribute | export.js:351-355 | Without the name followed by '=' the result is null |
| Export.ParallaxClass | export.js:335 | The class is 'parallax-section-' followed only by letters, digits, '_' and '-' |
| Export.ParallaxClassOfCleanId | export.js:335 | An id that is already clean is kept as it is |
| Payments.NamesDistinct | plugins/fearlesscommerce/gateways/GatewayManager.php:41-53 | The Stripe and PayPal gateways are filed under different names, so registering both keeps both |
| Payments.PayPalConfigErrorsMeaning | plugins/fearlesscommerce/gateways/PayPalGateway.php:373-386 | The PayPal configuration is valid exactly when client_id, client_secret and mode are all non-empty and the mode is 'sandbox' or 'live'. The mode error appears exactly when a non-empty mode is something else |
| Payments.DispatchTo | plugins/fearlesscommerce/gateways/GatewayManager.php:96-182 | The call reaches a gateway exactly when its name is registered and, for an operation that checks, the gateway is enabled. It reaches the gateway filed under that name. Otherwise the reply is 'Payment gateway not found: ' or 'Payment gateway is not enabled: ' followed by the name |
| Payments.DelegatedStripeIsEnabled | plugins/fearlesscommerce/gateways/GatewayManager.php:96-114 | A Stripe gateway reached through processPayment never fails as disabled, because the registry has already checked it |
| Payments.EnabledStripeProcesses | plugins/fearlesscommerce/gateways/StripeGateway.php:28-40 | An enabled Stripe gateway either rejects its configuration or sends the charge, never the disabled error |
| Payments.RequiredFieldsOnForm | plugins/fearlesscommerce/gateways/GatewayManager.php:190-252 | The configuration form offers every field that the gateway's validateConfig requires |
| Payments.GatewayManager.constructor | plugins/fearlesscommerce/gateways/GatewayManager.php:34-45 | The registry holds the Stripe gateway, then the PayPal one, each loaded from its settings row, each under its own name |
| Payments.GatewayManager.Register | plugins/fearlesscommerce/gateways/GatewayManager.php:51-53 | The gateway is filed under its name and replaces any gateway of that name. Each name stays filed once |
| Payments.GatewayManager.EnabledGateways | plugins/fearlesscommerce/gateways/GatewayManager.php:69-77 | The result holds exactly the enabled gateways under their names, in registry order |
| Payments.GatewayManager.Lookup | plugins/fearlesscommerce/gateways/GatewayManager.php:85-87 | null exactly for an unregistered name, and otherwise the gateway filed under it |
| Payments.GatewayManager.ProcessPayment | plugins/fearlesscommerce/gateways/GatewayManager.php:96-114 | Unknown and disabled gateways are refused, and anything else goes to the gateway |
| Payments.GatewayManager.VerifyPayment | plugins/fearlesscommerce/gateways/GatewayManager.php:123-134 | Only an unknown gateway is refused: a disabled one still verifies |
| Payments.GatewayManager.RefundPayment | plugins/fearlesscommerce/gateways/GatewayManager.php:144-162 | Unknown and disabled gateways are refused, and anything else goes to the gateway |
| Payments.GatewayManager.GetPaymentStatus | plugins/fearlesscommerce/gateways/GatewayManager.php:171-182 | Only an unknown gateway is refused |
| Payments.GatewayManager.ConfigFields | plugins/fearlesscommerce/gateways/GatewayManager.php:190-252 | No fields for an unknown gateway, and otherwise the fields listed for the requested name |
| Payments.GatewayManager.ValidateGatewayConfig | plugins/fearlesscommerce/gateways/GatewayManager.php:260-271 | An unknown gateway gives the one error 'Gateway not found: ' + name. Otherwise the gateway's own check decides, and the result is valid exactly when it lists no error |
| Hooks.InitialHooks | includes/plugins.php:25-36 | Every initial hook has no callback, and check_permission, filter_admin_sections and content are among them |
| Hooks.FoldSnoc | includes/plugins.php:54-62 | A callback added last runs last and receives what the earlier ones returned |
| Hooks.FilterAfterAdd | includes/plugins.php:39-62 | After a callback is added, the filter runs it on the result of the earlier callbacks. Every other hook is unaffected |
| Hooks.InsertByOrder | includes/plugins.php:127-129 | Inserting a section into a list sorted by menu_order keeps it sorted and adds exactly that section |
| Hooks.SortSections | includes/plugins.php:127-129 | uasort by menu_order ?? 100 gives a sorted list of the same id-section pairs |
| Hooks.StepFacts | includes/plugins.php:135-162 | One turn of the organising loop keeps every entry sound, loses nothing already organised, and files the section it handles: at the top level, or under its parent when the parent exists |
| Hooks.TurnFacts | includes/plugins.php:135-162 | After n turns, each of the first n sections is filed |
| Hooks.Transfer | includes/plugins.php:121-165 | What the loop establishes over the sorted copy holds for the registered sections |
| Hooks.RegisterOverwrites | includes/plugins.php:112-115 | Registering an id again replaces its options and keeps every id in its place |
| Hooks.PluginRegistry.constructor | includes/plugins.php:25-100 | After loading, the hooks are the initial ones and the only section is 'plugins', at menu order 45 |
| Hooks.PluginRegistry.AddHook | includes/plugins.php:39-42 | The callback goes to the end of the hook's list, which is created when absent. The sections are unchanged |
| Hooks.PluginRegistry.AddFilter | includes/plugins.php:64-66 | add_filter registers exactly as fcms_add_hook does |
| Hooks.PluginRegistry.RegisterPermissionHook | includes/plugins.php:83-88 | fcms_register_permission_hook registers exactly as fcms_add_hook does |
| Hooks.PluginRegistry.ApplyFilter | includes/plugins.php:54-62 | The value goes through the hook's callbacks in order, and is returned unchanged when there are none |
| Hooks.PluginRegistry.CheckPluginPermission | includes/plugins.php:69-80 | The callbacks are asked in order until one answers exactly true. The result is that true, otherwise the last answer, and false when there is no callback |
| Hooks.PluginRegistry.RegisterAdminSection | includes/plugins.php:112-115 | The id's options are replaced in place, or appended for a new id. The hooks are unchanged |
| Hooks.PluginRegistry.GetAdminSections | includes/plugins.php:121-168 | Each top-level entry is a registered section under its own id, and each child is a registered section whose parent is that entry. Every section without a parent is top-level, and every section whose parent is registered is filed under it |
| Install.RateKey | install.php:58 | The installer's session keys all start with 'rate_limit_' |
| Install.RateKeysDisjoint | install.php:58 | The installer's keys never coincide with the keys of check_operation_rate_limit, so the two limiters never share a record |
| Install.CheckRateLimit | install.php:57-75 | The record under 'rate_limit_' + action follows the same window rule as the operation limiter: reset once the window has passed, refuse at the limit, otherwise count one more attempt |
| Install.IsAllowedCommand | install.php:108-120 | A command is allowed exactly when one of the three whitelisted commands is a prefix of it |
| Install.RunCmdGuard | install.php:108-124 | A command outside the whitelist is refused with code 1, empty output and the security message, and is never run |
| Install.WhitelistExtends | install.php:116 | Adding arguments after a whitelisted command keeps it allowed |
| Install.TrimmedAdminUsernameExact | install.php:396-404 | Because the name is trimmed first, PCRE's '$' lets no trailing newline through: the check is exactly 3 to 32 of [A-Za-z0-9_-] |
| Install.ValidateAdmin | install.php:400-407 | The checks run in order: all fields given, passwords equal, the name pattern, then 8 bytes of password. Each error is returned exactly when its check fails and every earlier one passes, and nothing is returned when all pass |
| Install.HasUsername | install.php:415-420 | The duplicate scan finds a user exactly when some stored user has that name |
| Install.CreateAdmin | install.php:391-445 | The rate-limit record is updated as check_rate_limit does, and a refusal means too many attempts. Once the limiter allows, a failed field check is returned with users.json unchanged, a stored name gives Duplicate, and a new name is Created when the write succeeds and WriteFailed otherwise. users.json changes exactly on success, when it gains one administrator whose name passed every check and was stored nowhere before |
| Install.CreatedIsUnique | install.php:415-430 | After a successful creation the new name occurs exactly once |
| Menus.Slug | menu-ajax-handler.php:101 | preg_replace without the u flag writes one '_' per byte of a character it removes, so the slug has the name's UTF-8 length |
| Menus.SlugChars | menu-ajax-handler.php:101 | The slug holds only ASCII letters, digits and '_' |
| Menus.MenuIdShape | menu-ajax-handler.php:101 | A menu id is made of lower-case ASCII letters, digits and '_', one per byte of the name |
| Menus.MenuIdOfAscii | menu-ajax-handler.php:101 | For an ASCII name, the id lower-cases each letter, keeps each digit and writes '_' for every other character |
| Menus.MenuIdIdempotent | menu-ajax-handler.php:101 | Making an id of an id changes nothing |
| Menus.DefaultLabel | menu-ajax-handler.php:83 | The default label has a space exactly where the id has '_' or a space, and no '_' |
| Menus.DefaultLabelWords | menu-ajax-handler.php:83 | Lower-casing the default label of an id without capitals gives back the id with spaces for '_' |
| Menus.LoadOp | menu-ajax-handler.php:28-52 | A menu is returned exactly when an id is given, the file exists and it holds the id, and then it is that menu. A missing id and a missing file give their own errors |
| Menus.SaveOp | menu-ajax-handler.php:75-93 | The save succeeds exactly when the id is non-empty, the items are given and the write succeeds. Only then does the file change: the id gets the given items, label and class, the label defaulting to the readable id and the class to "". Every other menu is kept |
| Menus.CreateOp | menu-ajax-handler.php:95-119 | A non-empty name whose id is new and a successful write append an empty menu under the id. An existing id is refused and changes nothing |
| Menus.DeleteOp | menu-ajax-handler.php:121-139 | The delete succeeds exactly when the id is given, the menu exists and the write succeeds, and then the id is removed. Otherwise the file is unchanged |
| Menus.DeleteOnlyThatMenu | menu-ajax-handler.php:129-131 | After a delete that menu is gone and every other menu reads as before |
| Menus.CreateExistingNoChange | menu-ajax-handler.php:101-105 | Creating a menu whose id exists never changes the file |
| Menus.HandleOp | menu-ajax-handler.php:17-152 | A visitor who is not logged in gets 401 and changes nothing. A request that is not a POST never changes the file |
| Menus.MenuStore.SaveMenu | menu-ajax-handler.php:75-93 | The file and the reply are those SaveOp gives |
| Menus.MenuStore.CreateMenu | menu-ajax-handler.php:95-119 | The file and the reply are those CreateOp gives |
| Menus.MenuStore.DeleteMenu | menu-ajax-handler.php:121-139 | The file and the reply are those DeleteOp gives |
| Menus.MenuStore.Handle | menu-ajax-handler.php:17-152 | The file and the reply are those HandleOp gives |
| PaymentGateway.Load | plugins/fearlesscommerce/gateways/BasePaymentGateway.php:80-86 | A gateway without a row stays disabled with an empty configuration. A row sets the flag, and a configuration that does not decode to an array becomes empty |
| PaymentGateway.Messages | plugins/fearlesscommerce/gateways/BasePaymentGateway.php:128 | One message per error, in the same order |
| PaymentGateway.RequiredErrorsMembers | plugins/fearlesscommerce/gateways/BasePaymentGateway.php:123-133 | The errors are exactly the 'required' errors of the listed fields that are missing or empty |
| PaymentGateway.RequiredErrorsEmpty | plugins/fearlesscommerce/gateways/BasePaymentGateway.php:123-133 | There is no error exactly when every listed field is set |
| PaymentGateway.ValidateRequiredFields | plugins/fearlesscommerce/gateways/BasePaymentGateway.php:123-133 | The loop returns one error per missing or empty field, in list order |
| PaymentGateway.RequiredTwo | plugins/fearlesscommerce/gateways/BasePaymentGateway.php:123-133 | For two fields, the errors are the first field's error, if any, followed by the second's |
| PluginHandler.Search | plugin-handler.php:54 | array_search gives the first index holding the slug, and false exactly when the slug is absent |
| PluginHandler.Activated | plugin-handler.php:35-36 | After activation the slug is in the list: appended when absent, and with nothing changed when present |
| PluginHandler.Deactivated | plugin-handler.php:54-56 | An absent slug leaves the list unchanged. Otherwise the first entry equal to it is spliced out |
| PluginHandler.ActivateIdempotent | plugin-handler.php:35-36 | Activating twice is activating once, and a list without duplicates stays without them |
| PluginHandler.DeactivateRemovesOne | plugin-handler.php:54-56 | Deactivation removes exactly one occurrence of the slug and nothing else |
| PluginHandler.DeactivateDistinct | plugin-handler.php:54-56 | In a list without duplicates, the slug is gone after deactivation and the list stays without duplicates |
| PluginHandler.ActivateThenDeactivate | plugin-handler.php:35-56 | Deactivating a slug just activated on a list without it gives back the list |
| PluginHandler.ActivePlugins.constructor | plugin-handler.php:34 | The list is the decoded file, or empty when there is no file |
| PluginHandler.ActivePlugins.IsActive | plugin-handler.php:35 | The scan finds the slug exactly when it is in the list |
| PluginHandler.ActivePlugins.SearchActive | plugin-handler.php:54 | The scan returns the first index of the slug |
| PluginHandler.ActivePlugins.Activate | plugin-handler.php:32-42 | A present slug succeeds with no change. An absent one is appended when the write succeeds; when the write fails the list is kept and the save error is returned |
| PluginHandler.ActivePlugins.Deactivate | plugin-handler.php:51-62 | An absent slug succeeds with no change. A present one is spliced out when the write succeeds; when the write fails the list is kept and the save error is returned |
| PluginHandler.ActivePlugins.Handle | plugin-handler.php:12-71 | Not logged in gives 403. Then the action, the permission and the slug are checked in that order, each failure a 400 with its message. No failure changes the list, and a success activates or deactivates the given slug. Once every check passes, the action succeeds exactly when the list needs no change or the write succeeds, and otherwise fails with the save error |
| Routing.StrposZero | includes/Router.php:25-35 | strpos(s, p) === 0 exactly when p is a prefix of s |
| Routing.RequestPathOf | includes/Router.php:16-28 | The parsed path holds no '?' and is no longer than the URI |
| Routing.CleanPathRoundTrip | includes/Router.php:16-28 | A request for a clean path (no '?', no slash at either end, not under the hosting prefix) routes to that path, with or without a query string |
| Routing.HostPrefixStrippedOnce | includes/Router.php:25-27 | A path behind the hosting prefix routes to that path: the prefix is stripped once |
| Routing.HostRootIsNotHome | includes/Router.php:17-27 | The bare hosting prefix loses its slash to the trim before the prefix test, so it is not stripped and does not route to the home page |
| Routing.PathOrHomeMeaning | includes/Router.php:132-138 | The routed path is never empty. It is 'home', and gets the home template, exactly for an empty or 'home' path. Any other path is kept as it is |
| Routing.PreviewNameMeaning | includes/Router.php:34-39 | A preview path is the preview prefix followed by the name the preview looks up |
| Routing.NotPreview | includes/Router.php:34-36 | A path that does not start with '_preview/' is '_preview/' followed by no name |
| Routing.PreviewRoundTrip | includes/Router.php:16-39 | A clean request for a name under '_preview/' is a preview request for that name |
| Routing.Router.constructor | includes/Router.php:10-14 | The constructor leaves the parsed path of the request URI |
| Routing.Router.ParseRequestPath | includes/Router.php:16-28 | The trim, the cut at '?' and the prefix strip, each rewriting the field, leave the path RequestPathOf gives |
| Routing.Router.GetRequestPath | includes/Router.php:30-32 | Never empty, 'home' exactly for an empty or 'home' path, and any other path is returned as it is |
| Routing.Router.IsPreviewRequest | includes/Router.php:34-36 | A preview request exactly when the path starts with '_preview/' (strpos === 0). The path is then '_preview/' followed by the preview name, and otherwise it is no '_preview/' + name at all |
| Shipping.OrZero | plugins/fearlesscommerce/shipping/WeightBasedShipping.php:62-63 | ?? 0: the value when set, and 0 otherwise |
| Shipping.Messages | plugins/fearlesscommerce/shipping/BaseShippingMethod.php:128 | One message per error, in order |
| Shipping.RequiredFields | plugins/fearlesscommerce/shipping/BaseShippingMethod.php:123-133 | The loop reports exactly RequiredErrors of the fields asked for |
| Shipping.RequiredErrorsAreBlankFields | plugins/fearlesscommerce/shipping/BaseShippingMethod.php:123-133 | The errors are the blank fields in the order asked for, each reported as required |
| Shipping.RequiredErrorsMembers | plugins/fearlesscommerce/shipping/BaseShippingMethod.php:123-133 | A field is reported exactly when it was asked for and is blank, and zero counts as blank. There is no error exactly when no field asked for is blank |
| Shipping.TotalWeight | plugins/fearlesscommerce/shipping/BaseShippingMethod.php:141-152 | The loop sums weight × quantity over the cart, with 0.5 kg for an item without a weight |
| Shipping.TotalValue | plugins/fearlesscommerce/shipping/BaseShippingMethod.php:160-168 | The loop sums price × quantity over the cart |
| Shipping.TotalsConcat | plugins/fearlesscommerce/shipping/BaseShippingMethod.php:141-168 | Weight and value add up over a split cart |
| Shipping.DefaultWeight | plugins/fearlesscommerce/shipping/BaseShippingMethod.php:147 | A cart without any known weight weighs half a kilogram per unit |
| Shipping.WeightNonNegative | plugins/fearlesscommerce/shipping/BaseShippingMethod.php:141-152 | A cart of non-negative weights and quantities has a non-negative weight |
| Shipping.AvailableForMeaning | plugins/fearlesscommerce/shipping/FlatRateShipping.php:77-92 | A method is available exactly at a valid address whose country its list names in any case, or at any valid address when the list is empty |
| Shipping.AvailableIgnoresCase | plugins/fearlesscommerce/shipping/BaseShippingMethod.php:189-205 | The country check ignores the case of the address's country |
| Shipping.ListedDeliveryDays | plugins/fearlesscommerce/shipping/FlatRateShipping.php:100-124 | Every country in the table takes between 3 and 10 days, whatever the configuration |
| Shipping.DeliveryDaysPositive | plugins/fearlesscommerce/shipping/FlatRateShipping.php:123 | Without a default below one day, the estimate is at least one day |
| Shipping.DeliveryDaysIgnoresCase | plugins/fearlesscommerce/shipping/BaseShippingMethod.php:189-191 | The delivery lookup ignores the case of the country |
| Shipping.ValidateFlatConfig | plugins/fearlesscommerce/shipping/FlatRateShipping.php:131-154 | The checks report FlatConfigErrors, in the order they run |
| Shipping.FlatConfigErrorsMeaning | plugins/fearlesscommerce/shipping/FlatRateShipping.php:131-154 | The flat-rate configuration is valid exactly when the cost is strictly positive, the threshold is not negative and the default days are unset, 0, or at least 1. A cost of 0 is reported as missing |
| Shipping.CalculateFlatRate | plugins/fearlesscommerce/shipping/FlatRateShipping.php:26-69 | The checks and the cost computation give the flat-rate quote |
| Shipping.FlatRateQuoteMeaning | plugins/fearlesscommerce/shipping/FlatRateShipping.php:26-69 | A quote exists exactly when the method is enabled, the address is served and the configuration is valid. It is free exactly when a threshold is set and the cart's value reaches it, and otherwise costs the configured amount |
| Shipping.ValidateWeightConfig | plugins/fearlesscommerce/shipping/WeightBasedShipping.php:162-201 | The checks report WeightConfigErrors, in the order they run |
| Shipping.WeightConfigErrorsMeaning | plugins/fearlesscommerce/shipping/WeightBasedShipping.php:162-201 | The weight-based configuration is valid exactly when the base cost and the cost per kg are strictly positive, no weight or cost bound is negative, and a set minimum cost does not exceed a set maximum. A blank base cost or cost per kg is reported as required |
| Shipping.ClampedCostBounds | plugins/fearlesscommerce/shipping/WeightBasedShipping.php:59-75 | The cost is never above a set maximum, and never below a set minimum that does not exceed the maximum. It is the raw cost, the minimum or the maximum |
| Shipping.ClampedCostInside | plugins/fearlesscommerce/shipping/WeightBasedShipping.php:59-75 | Within the bounds the raw cost is charged unchanged |
| Shipping.Clamp | plugins/fearlesscommerce/shipping/WeightBasedShipping.php:59-75 | The two clamps in turn leave the cost ClampedCost gives |
| Shipping.CalculateWeightBased | plugins/fearlesscommerce/shipping/WeightBasedShipping.php:26-90 | The checks and the cost computation give the weight-based quote |
| Shipping.WeightQuoteMeaning | plugins/fearlesscommerce/shipping/WeightBasedShipping.php:26-90 | A quote exists exactly when the method is enabled, the address is served, the configuration is valid and the cart is within a set weight limit. Its cost lies within the bounds and is never negative |
| Shipping.Load | plugins/fearlesscommerce/shipping/BaseShippingMethod.php:80-86 | A stored row sets the flag and the configuration. Without one the method is disabled and its configuration is empty |
| Shipping.ValidateConfig | plugins/fearlesscommerce/shipping/ShippingMethodInterface.php:77 | Each method runs its own validation |
| Shipping.CalculateShipping | plugins/fearlesscommerce/shipping/ShippingMethodInterface.php:54 | Each method computes its own quote |
| Shipping.DisabledNeverQuotes | plugins/fearlesscommerce/shipping/FlatRateShipping.php:29-34 | A disabled method never quotes, whatever the cart and address |
| Shipping.RequiredFieldsOnForm | plugins/fearlesscommerce/shipping/FlatRateShipping.php:161-194 | Every field validation can report as required is on the method's form |
| ShippingManagement.CandidatesSnoc | plugins/fearlesscommerce/shipping/ShippingManager.php:100-112 | Quoting one more method appends its option, if it quotes |
| ShippingManagement.CandidatesMembers | plugins/fearlesscommerce/shipping/ShippingManager.php:100-112 | Every option is the quote of a registered method, and every registered method that quotes gives one |
| ShippingManagement.CandidatesOfEnabled | plugins/fearlesscommerce/shipping/ShippingManager.php:98-103 | Taking only the enabled methods first changes nothing, because a disabled method never quotes |
| ShippingManagement.InsertByCost | plugins/fearlesscommerce/shipping/ShippingManager.php:115-117 | Inserting an option adds exactly that option |
| ShippingManagement.SortByCost | plugins/fearlesscommerce/shipping/ShippingManager.php:115-117 | The sort is a permutation of its input |
| ShippingManagement.InsertByCostSorted | plugins/fearlesscommerce/shipping/ShippingManager.php:115-117 | Inserting into a list sorted by cost keeps it sorted |
| ShippingManagement.SortByCostSorted | plugins/fearlesscommerce/shipping/ShippingManager.php:115-117 | The options come out in ascending cost, as a permutation of their input |
| ShippingManagement.StatusOf | plugins/fearlesscommerce/shipping/ShippingManager.php:191-210 | An unknown method is reported as not existing, not enabled and not valid, with no error list. A known one reports its flag, whether its configuration validates, and its errors |
| ShippingManagement.ShippingManager.constructor | plugins/fearlesscommerce/shipping/ShippingManager.php:34-44 | The registry holds the flat-rate method, then the weight-based one, each loaded from its row, each under its own name |
| ShippingManagement.ShippingManager.Register | plugins/fearlesscommerce/shipping/ShippingManager.php:51-53 | The method is filed under its name, replacing any method of that name. Each name stays filed once |
| ShippingManagement.ShippingManager.EnabledMethods | plugins/fearlesscommerce/shipping/ShippingManager.php:69-77 | The enabled methods under their names, in registry order |
| ShippingManagement.ShippingManager.CalculateShippingOptions | plugins/fearlesscommerce/shipping/ShippingManager.php:96-120 | The options are sorted by cost and are exactly the quotes of the registered methods that quote |
| ShippingManagement.ShippingManager.CalculateShipping | plugins/fearlesscommerce/shipping/ShippingManager.php:130-148 | An unknown or disabled method is reported with its message and not asked. An enabled one gives its own quote |
| ShippingManagement.ShippingManager.ConfigFields | plugins/fearlesscommerce/shipping/ShippingManager.php:156-164 | No fields for an unknown method, and otherwise the method's form fields |
| ShippingManagement.ShippingManager.ValidateMethodConfig | plugins/fearlesscommerce/shipping/ShippingManager.php:172-183 | An unknown method gives the one error 'Shipping method not found: ' + name. Otherwise the method's own validation decides |
| ShippingManagement.ShippingManager.Status | plugins/fearlesscommerce/shipping/ShippingManager.php:191-210 | The status of the method filed under the name, as StatusOf states |
| ShippingManagement.ShippingManager.AllStatuses | plugins/fearlesscommerce/shipping/ShippingManager.php:217-225 | One status per registered method, under its name, in registry order |
| Stripe.ValidateConfig | plugins/fearlesscommerce/gateways/StripeGateway.php:242-259 | The checks report ConfigErrors, and the configuration is valid exactly when there is none |
| Stripe.ConfigErrorsMeaning | plugins/fearlesscommerce/gateways/StripeGateway.php:242-259 | A key is reported as required exactly when it is missing or empty, and as malformed exactly when it is set without its sk_/pk_ test_ or live_ prefix. No other error occurs. The configuration is valid exactly when both keys carry their prefixes |
| Stripe.ZeroDecimalIgnoresCase | plugins/fearlesscommerce/gateways/StripeGateway.php:282 | The zero-decimal test ignores the case of the currency |
| Stripe.FromStripeAmountMeaning | plugins/fearlesscommerce/gateways/StripeGateway.php:278-287 | Stripe's amount is kept for a zero-decimal currency and divided by 100 for every other one, whatever the case of the currency |
| Stripe.YenIsZeroDecimal | plugins/fearlesscommerce/gateways/StripeGateway.php:278-287 | 'jpy' amounts are not divided and 'usd' amounts are |
| Stripe.AsWrittenInflatesZeroDecimal | plugins/fearlesscommerce/gateways/StripeGateway.php:267-287 | As written, a zero-decimal amount is sent multiplied by 100, and what Stripe reports back reads as a hundred times what the store asked |
| Stripe.AsWrittenYen | plugins/fearlesscommerce/gateways/StripeGateway.php:267-287 | Concretely, ¥500 is sent as 50000 and read back as 50000 |
| Stripe.StripeAmountRoundTrip | plugins/fearlesscommerce/gateways/StripeGateway.php:278-287 | The corrected conversion inverts convertFromStripeAmount: reading an amount back and sending it again gives Stripe's amount |
| Stripe.StoreAmountRoundTrip | plugins/fearlesscommerce/gateways/StripeGateway.php:267-287 | A store amount sent with the corrected conversion and read back is the store amount |
| Stripe.ToStripeAmountAgrees | plugins/fearlesscommerce/gateways/StripeGateway.php:267-269 | For currencies with cents the corrected conversion is the one the code writes |
| Stripe.SplitPair | plugins/fearlesscommerce/gateways/StripeGateway.php:305-306 | explode('=', element, 2) gives two parts exactly when the element holds '=' |
| Stripe.SplitPairMeaning | plugins/fearlesscommerce/gateways/StripeGateway.php:305 | The two parts are the element split at its first '=', so the key holds no '=' |
| Stripe.Pairs | plugins/fearlesscommerce/gateways/StripeGateway.php:301-305 | One split per element of the header, in order |
| Stripe.ParseSignatureHeader | plugins/fearlesscommerce/gateways/StripeGateway.php:301-309 | The loop builds the array SignatureData describes |
| Stripe.LastKeyIndex | plugins/fearlesscommerce/gateways/StripeGateway.php:304-309 | The index found holds a pair with that key |
| Stripe.LastKeyIndexMeaning | plugins/fearlesscommerce/gateways/StripeGateway.php:304-309 | No pair has the key when there is no last one, and no pair after the last one has it |
| Stripe.PutPairsLookup | plugins/fearlesscommerce/gateways/StripeGateway.php:304-309 | A key reads the value of the last pair with that key, and is absent when no pair has it: later pairs win and elements without '=' are ignored |
| Stripe.PutPairsLast | plugins/fearlesscommerce/gateways/StripeGateway.php:304-309 | The last pair decides its own key, and every other key reads as before it |
| Stripe.VerifyWebhookSignature | plugins/fearlesscommerce/gateways/StripeGateway.php:296-318 | The method's verdict is Accepts of its inputs |
| Stripe.AcceptsMeaning | plugins/fearlesscommerce/gateways/StripeGateway.php:296-318 | A signature is accepted exactly when the webhook secret is set and the last v1= element of the header carries the HMAC of the payload |
| Stripe.NoV1Rejects | plugins/fearlesscommerce/gateways/StripeGateway.php:311-313 | A header without any v1= element is rejected |
| Stripe.AbsentKey | plugins/fearlesscommerce/gateways/StripeGateway.php:304-309 | A key no pair carries is not in the array |
| Stripe.NoSecretRejects | plugins/fearlesscommerce/gateways/StripeGateway.php:297-299 | Without a webhook secret nothing is accepted |
| Stripe.VerifyPayment | plugins/fearlesscommerce/gateways/StripeGateway.php:111-130 | Only a payment_intent.succeeded event is verified, with the intent's id and the status 'completed'. Anything else gives 'Invalid webhook data' |
| Stripe.VerifiedAmountRoundTrip | plugins/fearlesscommerce/gateways/StripeGateway.php:111-124 | The verified amount and currency convert back to the amount Stripe reported |
| Stripe.ProcessPayment | plugins/fearlesscommerce/gateways/StripeGateway.php:27-50 | A disabled gateway fails first, then an invalid configuration fails with its errors. A charge is sent exactly when the gateway is enabled and configured, in the lower-cased currency, 'usd' by default, for a hundred times the amount whatever the currency |
| Stripe.ChargeRoundTrip | plugins/fearlesscommerce/gateways/StripeGateway.php:47-49 | For a currency with cents the charged amount is a whole number of minor units that verifyPayment reads back as the store amount |
| Stripe.ChargeInflatesZeroDecimal | plugins/fearlesscommerce/gateways/StripeGateway.php:47-49 | For a zero-decimal currency the charge is a hundred times the store amount, and verifyPayment reads back that hundredfold amount |
| Stripe.ProcessPaymentCorrected | plugins/fearlesscommerce/gateways/StripeGateway.php:27-50 | The corrected processPayment fails exactly where processPayment fails, with the same message, and charges in the same currency |
| Stripe.CorrectedChargeRoundTrip | plugins/fearlesscommerce/gateways/StripeGateway.php:47-49 | With the corrected conversion every whole store amount is charged as whole minor units that read back as the store amount, in every currency |
| Stripe.RefundPayment | plugins/fearlesscommerce/gateways/StripeGateway.php:139-160 | Only the enabled guard: a disabled gateway fails, and an enabled one sends a refund of that payment intent, with an amount exactly when one is given |
| Stripe.GetPaymentStatus | plugins/fearlesscommerce/gateways/StripeGateway.php:195-210 | Only the enabled guard: a disabled gateway fails, and an enabled one asks for the intent's status |
| UserAdmin.AdminCount | admin/user-handler.php:60 | The number of administrators is at most the number of users |
| UserAdmin.AdminCountConcat | admin/user-handler.php:60 | The administrators of two lists joined are those of each list added up |
| UserAdmin.AdminCountPositive | admin/user-handler.php:60 | The count is positive exactly when some user is an administrator |
| UserAdmin.AdminCountReplace | admin/user-handler.php:60-70 | Replacing one entry changes the count by what the old and the new entry contribute |
| UserAdmin.AdminCountSplice | admin/user-handler.php:99-104 | Removing one entry lowers the count by exactly what that entry contributed |
| UserAdmin.EditKeepsAnAdmin | admin/user-handler.php:60-70 | An edit the last-admin guard lets through leaves at least one administrator |
| UserAdmin.DeleteKeepsAnAdmin | admin/user-handler.php:99-104 | A deletion the last-admin guard lets through leaves at least one administrator |
| UserAdmin.FindUser | admin/user-handler.php:54-57 | array_search gives the first index whose username is the one asked for, and nothing exactly when no user has it |
| UserAdmin.Edited | admin/user-handler.php:64-70 | The edit keeps the id, takes a truthy new name and a truthy new password (hashed), and always sets the posted role, 'author' when none is posted |
| UserAdmin.UserStore.constructor | admin/user-handler.php:1-113 | The store holds the users file as decoded |
| UserAdmin.UserStore.Find | admin/user-handler.php:54-57 | The scan finds what array_search finds |
| UserAdmin.UserStore.CountAdmins | admin/user-handler.php:60 | The loop counts the administrators |
| UserAdmin.UserStore.AddUser | admin/user-handler.php:8-37 | A missing name or password is refused. The add succeeds exactly when both are truthy, the name is new and the save works, and it appends one user with the role posted or 'author'. A failure changes nothing |
| UserAdmin.UserStore.EditUser | admin/user-handler.php:39-79 | A missing name is refused and an unknown name gives 'User not found'. A success replaces the named user's entry by Edited and nothing else. Taking the role away from the only administrator is refused. Every other edit of a stored user succeeds exactly when the write succeeds. A failure changes nothing |
| UserAdmin.UserStore.DeleteUser | admin/user-handler.php:81-108 | A missing name is refused and an unknown name gives 'User not found'. A success removes exactly the named user's entry, and never the only administrator. Deleting the only administrator is refused. Every other deletion of a stored user succeeds exactly when the write succeeds. A failure changes nothing |
| UserAdmin.UserStore.Handle | admin/user-handler.php:3-112 | Logged out is refused, an action none of the three cases handles gets no reply, and a user without manage_users is refused. A failure changes nothing, and a site that had an administrator still has one |
| UserAdmin.EditCanDuplicateName | admin/user-handler.php:64-66 | edit_user does not check the new name: renaming one user to another's name succeeds and leaves two users with that name |
| UserAdmin.EditWithoutRoleDemotes | admin/user-handler.php:51-70 | An edit that posts no role sets the role to 'author' |
| UserRoles.FirstUserMeaning | plugins/user-roles/user-roles.php:80-85 | The lookup finds no user exactly when no record has the name. Otherwise it finds the first record with the name |
| UserRoles.FilterFirstIsFirstUser | plugins/user-roles/user-roles.php:290-293 | reset(array_filter(...)) picks the same record as the lookup loop, and false when there is none |
| UserRoles.HasCapabilityMeaning | plugins/user-roles/user-roles.php:77-100 | An unknown user has no capability and the user 'admin' has every one. Anyone else has what the capabilities of their role grant, 'author' when their record names none, and nothing when the role does not exist |
| UserRoles.CheckPermissionAgrees | plugins/user-roles/user-roles.php:282-303 | For a user on file, the check_permission hook and user_has_capability give the same answer |
| UserRoles.CheckPermissionOffFile | plugins/user-roles/user-roles.php:282-303 | For a user not on file, user_has_capability refuses. check_permission lets 'admin' through and gives anyone else what 'author' grants |
| UserRoles.FindUser | plugins/user-roles/user-roles.php:79-85 | The loop with its break finds the first record with the name |
| UserRoles.UserHasCapability | plugins/user-roles/user-roles.php:77-100 | The method computes user_has_capability |
| UserRoles.VisibleSectionsAgree | plugins/user-roles/user-roles.php:305-334 | 'admin' sees every section. Otherwise a section is shown exactly when it needs no capability or check_permission grants the one it needs, and each shown section keeps its key |
| UserRoles.FilterAdminSections | plugins/user-roles/user-roles.php:326-331 | The loop keeps exactly the sections VisibleSections keeps, under their keys and in order |
| UserRoles.TableGrants | plugins/user-roles/user-roles.php:14-57 | A capability table grants a capability exactly when the editor offers it and the table lists it |
| UserRoles.DefaultRolesLookup | plugins/user-roles/user-roles.php:14-57 | The default roles file holds these tables: every capability for administrator, content and files for editor, content for author |
| UserRoles.DefaultRolesGrant | plugins/user-roles/user-roles.php:14-57 | Under the default roles, administrator grants every offered capability, editor only manage_content and manage_files, and author only manage_content |
| Widgets.NewWidget | admin/widgets-handler.php:162-170 | A new widget gets the fresh id and empty settings, and its classes default to '' |
| Widgets.Saved | admin/widgets-handler.php:150-154 | The save changes the title, content, type and classes, and keeps the id and settings |
| Widgets.FirstIndex | admin/widgets-handler.php:149-150 | The index is the first widget whose id is exactly the one asked for, and none exactly when no widget has it |
| Widgets.FindFirst | admin/widgets-handler.php:149-157 | The scan stops at FirstIndex |
| Widgets.SaveFirst | admin/widgets-handler.php:149-157 | The update loop keeps the length of the list |
| Widgets.UpdateFirst | admin/widgets-handler.php:149-157 | The loop updates the first widget with the id and no other. The reference it leaves behind points at that widget, or at the last one when none matches |
| Widgets.UpdateAll | admin/widgets-handler.php:198-204 | Every widget with the id gets the new title, content and settings, and every other widget is unchanged |
| Widgets.Normalize | admin/widgets-handler.php:177-183 | The entries with an id, in order |
| Widgets.ReadThroughReference | admin/widgets-handler.php:149-178 | A foreach through a leftover reference to element b overwrites it with element b-1, leaving the others as they were. When b is 0 the list is unchanged |
| Widgets.NormalizeThroughReference | admin/widgets-handler.php:149-183 | The normalising loop as PHP runs it after the update loop keeps the entries with an id of the list read through the reference |
| Widgets.Pick | admin/widgets-handler.php:255-260 | The inner loop takes at most one widget, and none exactly when no widget has the id |
| Widgets.Reordered | admin/widgets-handler.php:253-262 | The result is no longer than the requested order |
| Widgets.ReorderedMembers | admin/widgets-handler.php:253-262 | Every widget of the result comes from the list and has a requested id |
| Widgets.Reorder | admin/widgets-handler.php:253-262 | The two loops compute Reordered |
| Widgets.ReorderedLength | admin/widgets-handler.php:253-262 | When every requested id is present, there is one widget per requested id |
| Widgets.ReorderedAt | admin/widgets-handler.php:253-262 | When every requested id is present, the i-th widget of the result is the first widget with the i-th requested id |
| Widgets.UnrequestedDropped | admin/widgets-handler.php:253-262 | A widget whose id was not requested is dropped |
| Widgets.DeleteFrom | admin/widgets-handler.php:57-65 | A widget is kept exactly when it has an id and the id is not the deleted one |
| Widgets.DeleteDropsOne | admin/widgets-handler.php:57-65 | In a list where every widget has an id and only one has this id, deleting it removes exactly that widget and keeps the others in order |
| Widgets.DeleteAbsentNoChange | admin/widgets-handler.php:57-65 | Deleting an id no widget has leaves the list unchanged, when every widget has an id |
| Widgets.DeleteIdempotent | admin/widgets-handler.php:57-65 | Deleting twice is deleting once |
| Widgets.SavedList | admin/widgets-handler.php:140-184 | After a save every widget has an id |
| Widgets.SaveListAsWritten | admin/widgets-handler.php:140-184 | The two loops as the handler runs them compute SavedListAsWritten |
| Widgets.SaveList | admin/widgets-handler.php:140-184 | The intended list computation computes SavedList |
| Widgets.SaveUpdatesInPlace | admin/widgets-handler.php:146-183 | When every widget has an id, saving with a truthy id updates the first widget with that id in place and changes nothing else. An unknown id leaves the list as it was |
| Widgets.SaveAppendsOne | admin/widgets-handler.php:158-183 | When every widget has an id, saving without an id appends exactly one new widget |
| Widgets.SaveAsWrittenLosesUpdate | admin/widgets-handler.php:149-183 | As written, saving the second of two widgets stores the first one twice and loses the update. The intended save keeps the first and updates the second |
| Widgets.DeleteSidebarOp | admin/widgets-handler.php:20-36 | delete_sidebar succeeds exactly when the key exists. It removes that key and no other, and an unknown key is 'Sidebar not found' with no change |
| Widgets.DeleteWidgetOp | admin/widgets-handler.php:39-75 | delete_widget succeeds exactly when the sidebar exists. It filters that sidebar's list by DeleteFrom and leaves every other sidebar alone. An unknown sidebar is 'Sidebar not found' with no change |
| Widgets.AddSidebarOp | admin/widgets-handler.php:98-111 | add_sidebar succeeds exactly when the trimmed id is truthy and not yet a key. Otherwise it reports its error and changes nothing |
| Widgets.AddSidebarAppends | admin/widgets-handler.php:100-105 | A new sidebar is added at the end under the trimmed id, with the id as posted for its name, an empty description and no widgets |
| Widgets.AddWidgetOp | admin/widgets-handler.php:113-129 | add_widget succeeds exactly when the sidebar exists. It appends one new widget to that sidebar and leaves every other sidebar alone |
| Widgets.SaveWidgetOp | admin/widgets-handler.php:131-192 | save_widget succeeds exactly when the sidebar exists. The sidebar's list becomes SavedList of it, and every other sidebar is left alone |
| Widgets.UpdatedAll | admin/widgets-handler.php:198-204 | The update keeps the length and every id |
| Widgets.UpdatedAllAt | admin/widgets-handler.php:198-204 | Each widget with the id carries the new title, content and settings, and each other widget is unchanged |
| Widgets.UpdateWidgetOp | admin/widgets-handler.php:194-210 | update_widget succeeds exactly when the sidebar exists. The sidebar's list then becomes UpdatedAll of it, with the settings defaulting to an empty array, and every other sidebar is left alone |
| Widgets.UpdateAbsentNoChange | admin/widgets-handler.php:198-204 | Updating an id no widget has leaves the list unchanged |
| Widgets.ReorderOp | admin/widgets-handler.php:249-268 | reorder_widgets succeeds exactly when the sidebar exists and the order decodes to an array. The sidebar's list becomes Reordered, and anything else is 'Invalid data' with no change |
| Widgets.ChangedSidebarKeepsPlace | admin/widgets-handler.php:113-129 | Writing an existing sidebar keeps the set of sidebar keys |
| Widgets.HandleOp | admin/widgets-handler.php:20-276 | A request that is not a widget action is left alone. Every widget action gets a reply, and a logged-out request changes nothing and fails |
| Widgets.WidgetStore.constructor | admin/widgets-handler.php:95 | The store is the decoded file, or empty when there is none |
| Widgets.WidgetStore.DeleteSidebar | admin/widgets-handler.php:20-36 | The new state and the reply are DeleteSidebarOp of the old state |
| Widgets.WidgetStore.DeleteWidget | admin/widgets-handler.php:39-75 | The new state and the reply are DeleteWidgetOp of the old state |
| Widgets.WidgetStore.AddSidebar | admin/widgets-handler.php:98-111 | The new state and the reply are AddSidebarOp of the old state |
| Widgets.WidgetStore.AddWidget | admin/widgets-handler.php:113-129 | The new state and the reply are AddWidgetOp of the old state |
| Widgets.WidgetStore.SaveWidget | admin/widgets-handler.php:131-192 | The new state and the reply are SaveWidgetOp of the old state |
| Widgets.WidgetStore.UpdateWidget | admin/widgets-handler.php:194-210 | The new state and the reply are UpdateWidgetOp of the old state |
| Widgets.WidgetStore.ReorderWidgets | admin/widgets-handler.php:249-268 | The new state and the reply are ReorderOp of the old state |
| Widgets.WidgetStore.Handle | admin/widgets-handler.php:20-276 | The new state and the reply are HandleOp of the old state |
| Parallax.RunEnd | plugins/parallax/parallax.php:56 | The end of a run lies between its start and the end of the text |
| Parallax.RunEndFacts | plugins/parallax/parallax.php:56 | Every character of the run passes the test, and the run cannot be extended |
| Parallax.RunEndExact | plugins/parallax/parallax.php:56 | A run ends exactly where its characters stop passing the test |
| Parallax.MatchAt | plugins/parallax/parallax.php:56 | A match at a position ends after it and within the text |
| Parallax.MatchAtWellFormed | plugins/parallax/parallax.php:56 | A match has a key of word characters and a value without quotes |
| Parallax.MatchesWellFormed | plugins/parallax/parallax.php:56 | Every match preg_match_all finds is well formed |
| Parallax.Pairs | plugins/parallax/parallax.php:58-60 | The key and value of each match, in order |
| Parallax.LastValue | plugins/parallax/parallax.php:58-60 | No value exactly when no match has the key. Otherwise the value of a match with the key that no later match with the key follows |
| Parallax.AttributesLastWins | plugins/parallax/parallax.php:58-60 | A key reads the value of its last match: a later duplicate overwrites an earlier one |
| Parallax.AttributesShape | plugins/parallax/parallax.php:58-60 | The array has each key once and only pairs the matches carry |
| Parallax.ParseShortcodeAttributes | plugins/parallax/parallax.php:52-63 | The attributes built from the matches, each key once, each pair well formed |
| Parallax.AttributeTextLayout | plugins/parallax/parallax.php:56 | Where the name, the equals sign, the quotes and the value of a written key="value" attribute sit |
| Parallax.MatchAtText | plugins/parallax/parallax.php:56 | A written attribute is matched where it starts |
| Parallax.NoMatchAtSpace | plugins/parallax/parallax.php:56 | Nothing is matched at a space |
| Parallax.MatchesStep | plugins/parallax/parallax.php:56 | After a match, matching resumes where it ends |
| Parallax.MatchesSkip | plugins/parallax/parallax.php:56 | Where nothing matches, matching resumes at the next character |
| Parallax.MatchesOverText | plugins/parallax/parallax.php:56 | A written attribute is matched, and the space after it matches nothing |
| Parallax.MatchesOfText | plugins/parallax/parallax.php:56 | Written attributes from any position on are matched in order |
| Parallax.ParseRoundTrip | plugins/parallax/parallax.php:52-63 | Writing well-formed attributes as key="value" and parsing them gives the pairs back, in order |
| Parallax.SanitizeId | plugins/parallax/parallax.php:124-126 | The result holds only letters, digits, '_' and '-' |
| Parallax.SanitizeIdIdempotent | plugins/parallax/parallax.php:124-126 | Sanitising twice is sanitising once, and a clean id is kept as it is |
| Parallax.AtLeastZero | plugins/parallax/parallax.php:82 | max(0.0, x) is never negative, and keeps a non-negative value |
| Parallax.Clamp01 | plugins/parallax/parallax.php:85 | The clamp lies in [0, 1], keeps a value inside it, and sends values below 0 to 0 and above 1 to 1 |
| Parallax.ClassAttributeText | plugins/parallax/parallax.php:88-95 | The class attribute is 'parallax-section', then the custom class text unchanged, then 'parallax-effect-' with the effect |
| Parallax.OverlayOf | plugins/parallax/parallax.php:108-110 | The overlay is drawn exactly when its colour is truthy and its opacity positive |
| Parallax.SectionOf | plugins/parallax/parallax.php:66-92 | No section exactly when the id or the background image is missing or empty. The speed is never negative, the id is sanitised, and a drawn overlay has an opacity in (0, 1] |
| Parallax.SectionRules | plugins/parallax/parallax.php:74-92 | The speed is the given one but never below zero, 0.5 when absent. The opacity is clamped into [0, 1], 0.4 when absent. The overlay is drawn exactly when its colour is truthy and its opacity positive |
| Parallax.SectionDefaults | plugins/parallax/parallax.php:74-79 | With only the two required attributes, every default applies |
| Parallax.AppendAttr | plugins/parallax/parallax.php:95-101 | Each append adds one attribute of the opening tag |
| Parallax.ReadSection | plugins/parallax/parallax.php:74-92 | The values with their defaults, the clamps and the class array are those of SectionFrom |
| Parallax.ClassList | plugins/parallax/parallax.php:88-92 | The class array is CssClasses of the class attribute and the effect |
| Parallax.OpeningTag | plugins/parallax/parallax.php:95-102 | The appends build the corrected opening tag |
| Parallax.GenerateParallaxSection | plugins/parallax/parallax.php:66-121 | The error div when the id or the background image is missing, otherwise the section. The page is flagged as using parallax exactly when a section is built |
| Parallax.CountConcat | plugins/parallax/parallax.php:95-102 | Counting a character splits over a concatenation |
| Parallax.CountAbsent | plugins/parallax/parallax.php:95-102 | A character that does not occur is counted zero times |
| Parallax.CountAttr | plugins/parallax/parallax.php:96-101 | A quote-free attribute brings exactly its own two double quotes |
| Parallax.CountAttrs | plugins/parallax/parallax.php:95-101 | Quote-free attributes bring two double quotes each |
| Parallax.TagBodyQuotes | plugins/parallax/parallax.php:95-101 | Before it is closed the tag holds an even number of double quotes |
| Parallax.OpenTagQuotesBalanced | plugins/parallax/parallax.php:95-102 | The corrected opening tag closes every quote it opens |
| Parallax.AsWrittenTagHasStrayQuote | plugins/parallax/parallax.php:101-102 | As written, the opening tag holds an odd number of double quotes and ends in a stray quote before '>' |
| Parallax.TagQuoteFree | plugins/parallax/parallax.php:95-101 | The tag is quote-free when each attribute value is |
| Parallax.FoundValueQuoteFree | plugins/parallax/parallax.php:58-60 | A value found under a key is one of the array's values |
| Parallax.ClassesQuoteFree | plugins/parallax/parallax.php:88-95 | Quote-free custom classes and effect give a quote-free class attribute |
| Parallax.SectionFromQuoteFree | plugins/parallax/parallax.php:74-101 | Attributes whose values hold no double quote give a quote-free opening tag |
| Parallax.ParsedSectionsAreQuoteFree | plugins/parallax/parallax.php:52-102 | Every section built from parsed shortcode attributes has a quote-free tag, so the stray quote appears in every section the plugin writes |
| ContentLoading.PrefixSplit | includes/ContentLoader.php:21-24 | A text that starts with a prefix is the prefix followed by the rest |
| ContentLoading.DemoLookupFolders | includes/ContentLoader.php:17-28 | A demo user reads blog/ paths from the demo blog folder and everything else from the demo pages folder, with or without a pages/ prefix |
| ContentLoading.PagesPrefixOptional | includes/ContentLoader.php:24-28 | For a demo user, 'pages/' + name and name read the same file |
| ContentLoading.VisitorLookup | includes/ContentLoader.php:29-31 | An ordinary visitor's file is the path under the content directory, with '.md' added |
| ContentLoading.ContentLoader.constructor | includes/ContentLoader.php:9-12 | The loader starts from the site's content directory |
| ContentLoading.ContentLoader.GetContentFile | includes/ContentLoader.php:14-32 | A demo lookup switches the loader to the demo content directory and any other lookup leaves it. The file is ContentFileOf under the directory now in use |
| ContentLoading.LastSegment | includes/ContentLoader.php:94 | The last path component holds no slash |
| ContentLoading.Basename | includes/ContentLoader.php:94 | basename() holds no slash |
| ContentLoading.LastSegmentAfterSlash | includes/ContentLoader.php:94 | After a slash, the last component is everything that follows it |
| ContentLoading.BasenameOfChild | includes/ContentLoader.php:94 | The basename of a file directly under a directory is its name |
| ContentLoading.RemoveMdSuffix | includes/ContentLoader.php:94 | Removing '.md' from a dot-free name followed by '.md' gives the name |
| ContentLoading.TitleOfPage | includes/ContentLoader.php:93-95 | A visitor's dot-free top-level page is titled after its path, with dashes and underscores as spaces and words capitalised |
| ContentLoading.FallbackTitleShape | includes/ContentLoader.php:94 | The fallback title holds no slash, dash or underscore |
| ContentLoading.LoadContentDefaults | includes/ContentLoader.php:73-104 | A truthy front-matter title is kept and otherwise the file-name title is used. The editor mode defaults to 'markdown' and the description to ''. Without front matter the whole text is the content |
| BraceFixer.AsWrittenRules | fix_over_braces.py:13-29 | The nine rules as the script writes them, well formed, in order |
| BraceFixer.IntendedRules | fix_over_braces.py:12-29 | The nine rules with the brace counts the script's comments describe, well formed, in order |
| Auth.Session.constructor | includes/auth.php:238-259 | A new session holds no rate-limit record |
| Blog.BlogStore.constructor | plugins/blog/blog.php:11-15 | The store holds the saved posts as decoded |
| Menus.MenuStore.constructor | menu-ajax-handler.php:72 | The store holds the menus file as read, None when it is missing |
| CmsMode.AllCapabilities | includes/CMSModeManager.php:12-43 | The six capabilities the mode table lists |

## Left out

- Files, JSON encoding and decoding, `time()`, `date()`, `uniqid()`, `password_hash`, `random_bytes`, `md5`, Parsedown, HMAC and HTTP calls are not modelled. `md5` is left out of the rate-limit keys, which keeps equal keys equal and distinct ones distinct up to hash collisions. Their results are parameters of the operations that use them, and whether a file write succeeds is a boolean parameter.
- PHP's loose `==`, and `in_array` / `array_search` without the strict flag, are modelled as strict string equality. Numeric strings such as "0123" and "123" therefore do not match.
- The HTML admin screens and inline JavaScript are not modelled. These are the blog's admin page (plugins/blog/blog.php:62-104), `render_roles_management`, and the menu and widget editors.
- Routing: `REQUEST_URI` is a parameter. The preview page rendering and the plugin route table are not modelled.
- ContentLoading: `findContentFile`, `processContent` and the JSON front-matter regex are not modelled. The decoded front matter and the text after it are parameters of `LoadContent`.
- ContentLoading: the demo manager is reduced to its two answers, whether the visitor is a demo user and the demo content directory.
- Parallax: `floatval` and PHP's float-to-string conversion are parameters.
- Parallax: `process_parallax_shortcodes` (the `preg_replace_callback` over page text) is not modelled. Neither are `add_parallax_assets`, the CSS and the JavaScript.
- Parallax: the `$GLOBALS['parallax_used']` flag is returned as `used` instead of being written.
- Parallax.GenerateParallaxSection: builds the corrected opening tag, not the one with the stray quote (see Findings).
- Parallax.OpeningTag: closes the tag with `>`, where plugins/parallax/parallax.php:102 appends `">` with a stray quote.
- Blog: a form's id is compared with the stored ids as text.
- Blog: `array_filter` in `delete_post` keeps the original keys, so `json_encode` may write an object instead of a list. The model keeps the list.
- Blog: the markdown rendering of a post is a parameter.
- UserRoles: the users file and the roles file are parameters, and capability values are booleans.
  - `user_has_capability` reads admin/config/users.json via a path relative to the plugin, and the hooks read ADMIN_CONFIG_DIR/users.json. The model gives both the same list.
  - `get_role` reads USER_ROLES_CONFIG_FILE, and the hooks read CONFIG_DIR/roles.json. The model gives both the same roles array.
- UserRoles: `save_roles`, `get_roles` and the roles editor are not modelled.
- CmsMode: `getCurrentMode`, `getAvailableModes` and `getModeDescription` are not separate operations. The mode record holds the name and the description.
- CmsMode: the exception thrown when `PROJECT_ROOT` is undefined is not modelled.
- Cache: `formatBytes`, `getCacheSize` and `getLastCleared` are not modelled, because they are float formatting and file listing. The directory creation in the constructor is not modelled either.
- Cache: the cache size is a parameter.
- Cache.IntCast: reads the numeric prefix exactly, as a decimal fraction times a power of ten, truncated toward zero. The rounding of that value to a double is not modelled, so a prefix within half a unit in the last place of an integer, such as "0.99999999999999999999", reads as 0 where PHP reads 1.
- PHP floats are modelled as exact reals. This covers Commerce tax amounts, Shipping costs and weights, Stripe amounts and the Cache hit rate, so float rounding is not modelled. PHP's 64-bit `int` is modelled as unbounded: the saturation of `(int)` at PHP_INT_MAX in `parseSize`, and the overflow of the size product into a float, are not modelled.
- Export: the attribute name given to `extractAttribute` is matched literally. The JavaScript builds a regular expression from it, so a name holding regex syntax is not modelled.
- Install: the execution of a whitelisted command and the working-directory check around it are not modelled.
- Install: the command-line admin creation of install.php:240-275 is not modelled. Only the web form's `create_admin` is.
- Stripe: HTTP requests and the HMAC are parameters.
- Stripe: `round()` in `convertToStripeAmount` is not modelled. Amounts are reals.
- Stripe.ProcessPayment: models the charge as the code computes it. The round trip of a store amount holds only for currencies with cents, and `Stripe.ProcessPaymentCorrected` is the corrected charge.
- Stripe.RefundPayment: states only the enabled guard and the request it sends. The response handling is HTTP.
- Stripe.GetPaymentStatus: states only the enabled guard and the request it sends. The response handling is HTTP.
- Shipping: the `weight_delivery_multiplier` setting is not modelled, because the code reads it but never uses it. The `error_log` calls are not modelled.
- Commerce: only the SQL parameters of `create_order` and `update_order_status` are modelled. The PDO calls are not.
- Widgets: the `delete_widget` case of the main switch (admin/widgets-handler.php:212-247) is not modelled, because the earlier block at lines 39-75 answers every `delete_widget` request and exits first.
- Widgets.SaveWidgetOp: uses the corrected list computation `SavedList`, not the one the handler computes (see Findings).
- Widgets.WidgetStore.SaveWidget: stores the corrected list `SavedList`, not the list admin/widgets-handler.php:149-183 writes, which loses the update (see Findings).
- Widgets.HandleOp: its save_widget case dispatches to `SaveWidgetOp`, so it stores the corrected list `SavedList`, not the list admin/widgets-handler.php:149-183 writes, which loses the update (see Findings).
- Widgets.WidgetStore.Handle: dispatches through `HandleOp`, so its save_widget stores the corrected list `SavedList`, not the as-written list that loses the update (see Findings).
- The older copies of handlers and plugins are not part of this model. These are the root widgets-handler.php, parallax/parallax.php and admin/plugin-handler.php.

## Findings

| source | as written | input that shows it | evidently intended | confidence | as-written member | corrected member |
|---|---|---|---|---|---|---|
| admin/widgets-handler.php:149-183 | The update loop `foreach (... as &$widget)` leaves `$widget` a reference to the matched element. The normalising `foreach (... as $widget)` then writes each element it reads into that slot. | Sidebar widgets [A, B], save_widget with B's id: the file holds [A, A] | The matched widget is updated in place and the other widgets are kept: [A, B'] | not executed | Widgets.SaveListAsWritten, Widgets.SaveAsWrittenLosesUpdate | Widgets.SaveList, Widgets.SaveUpdatesInPlace |
| fix_over_braces.py:12-29 | In Python `\{5}`, `\{3}` and `\{4}` match the literal texts "{5}", "{3}" and "{4}". Only `\}{5}` repeats. | "{{{{{#if a}}}}}" is left unchanged. "{5}#if a{3}b}}}}}}" changes on a second run. | Five, three and four opening braces, as the comments say | not executed | BraceFixer.AsWrittenIgnoresBraceRuns, BraceFindings.AsWrittenNotIdempotent | BraceFixer.IntendedRules, BraceFindings.IntendedFixesFiveBraceIf, BraceFindings.IntendedFixesTripleBraces |
| includes/auth.php:100 | `preg_match('/^[a-zA-Z0-9_-]{3,50}$/', ...)`: `$` also matches before a final newline | "abc\n" is accepted as a username | Exactly 3 to 50 characters from the class | not executed | Auth.ValidateUsernameAcceptsNewline | Auth.ValidUsername, Auth.ValidUsernameAgrees |
| plugins/fearlesscommerce/gateways/StripeGateway.php:267-269 | `convertToStripeAmount` always multiplies by 100. `convertFromStripeAmount` (lines 278-287) does not divide for zero-decimal currencies. | ¥500 in 'jpy' is sent as 50000 and read back as 50000 | Zero-decimal amounts are sent as they are, so a charge reads back as the store amount | not executed | Stripe.AsWrittenInflatesZeroDecimal, Stripe.ChargeInflatesZeroDecimal | Stripe.ProcessPaymentCorrected, Stripe.CorrectedChargeRoundTrip |
| plugins/parallax/parallax.php:100-102 | After `data-parallax-effect="..."` the tag is closed with `'">'`, adding a quote | `id="a" background_image="b"` gives an opening tag ending in `scroll"">` | The tag closed with `>` | not executed | Parallax.OpenTagAsWritten, Parallax.AsWrittenTagHasStrayQuote | Parallax.OpenTag, Parallax.OpenTagQuotesBalanced |
