/**
 * Input validation, sanitising and rate limiting of includes/auth.php.
 *
 * The validators and `sanitize_input` are pure.  The rate limiter keeps a
 * record per key in the PHP session; the session is the `Session` class and
 * the record update is the function `Step`, so that properties of runs of
 * calls can be stated about `Step` alone.
 */
module Auth {
  import opened Php

  // ---------------------------------------------------------------------
  // validate_username
  // ---------------------------------------------------------------------

  /** Between `lo` and `hi` characters, all from `[a-zA-Z0-9_-]`. */
  predicate IdentRun(s: string, lo: nat, hi: nat) {
    lo <= |s| <= hi && forall i :: 0 <= i < |s| ==> IsIdentChar(s[i])
  }

  /**
   * How PCRE applies `^X$` without the D modifier: `$` also matches right
   * before a final "\n", so the subject may carry one trailing newline.
   */
  predicate PcreAnchored(s: string, inner: string -> bool) {
    inner(s) || (|s| > 0 && s[|s| - 1] == '\n' && inner(s[..|s| - 1]))
  }

  /** validate_username as written: `/^[a-zA-Z0-9_-]{3,50}$/`. */
  predicate ValidateUsername(s: string) {
    PcreAnchored(s, t => IdentRun(t, 3, 50))
  }

  /** Without a trailing newline the pattern accepts exactly 3 to 50 identifier characters. */
  lemma ValidateUsernameExact(s: string)
    requires |s| == 0 || s[|s| - 1] != '\n'
    ensures ValidateUsername(s) <==> 3 <= |s| <= 50 && forall i :: 0 <= i < |s| ==> IsIdentChar(s[i])
  {
  }

  /** As written, a name followed by one newline is accepted too. */
  lemma ValidateUsernameAcceptsNewline(s: string)
    requires s == "abc\n"
    ensures ValidateUsername(s)
    ensures exists i :: 0 <= i < |s| && !IsIdentChar(s[i])
  {
    assert s[..|s| - 1] == "abc";
    assert !IsIdentChar(s[3]);
  }

  /** The intended check (`\z` or the D modifier): the whole subject is 3 to 50 identifier characters. */
  predicate ValidUsername(s: string) {
    IdentRun(s, 3, 50)
  }

  /** The intended check agrees with the written one except on a trailing newline, which it rejects. */
  lemma ValidUsernameAgrees(s: string)
    ensures ValidUsername(s) ==> ValidateUsername(s)
    ensures ValidateUsername(s) && (|s| == 0 || s[|s| - 1] != '\n') ==> ValidUsername(s)
    ensures ValidUsername(s) ==> forall i :: 0 <= i < |s| ==> s[i] != '\n'
  {
  }

  // ---------------------------------------------------------------------
  // validate_password
  // ---------------------------------------------------------------------

  predicate HasLetter(s: string) { exists i :: 0 <= i < |s| && IsAlpha(s[i]) }
  predicate HasDigit(s: string) { exists i :: 0 <= i < |s| && IsDigit(s[i]) }

  /** validate_password: `strlen` at least 8 (bytes), one ASCII letter and one digit. */
  function ValidatePassword(s: string): (ok: bool)
    ensures ok <==> ByteLength(s) >= 8 && HasLetter(s) && HasDigit(s)
    ensures |s| >= 8 && HasLetter(s) && HasDigit(s) ==> ok
  {
    if ByteLength(s) < 8 then false
    else HasLetter(s) && HasDigit(s)
  }

  /** An ASCII text is as many bytes long as it has characters. */
  lemma {:induction false} AsciiByteLength(s: string)
    requires forall i :: 0 <= i < |s| ==> s[i] as int < 0x80
    ensures ByteLength(s) == |s|
    decreases |s|
  {
    if s != [] {
      AsciiByteLength(s[1..]);
    }
  }

  /** For ASCII passwords the minimum is 8 characters: seven are never enough. */
  lemma AsciiPasswordRule(s: string)
    requires forall i :: 0 <= i < |s| ==> s[i] as int < 0x80
    ensures ValidatePassword(s) <==> |s| >= 8 && HasLetter(s) && HasDigit(s)
  {
    AsciiByteLength(s);
  }

  /** "abcdef1" is one character short; "abcdefg1" passes. */
  lemma PasswordExamples()
    ensures !ValidatePassword("abcdef1")
    ensures ValidatePassword("abcdefg1")
  {
    AsciiPasswordRule("abcdef1");
    AsciiPasswordRule("abcdefg1");
    assert IsAlpha("abcdefg1"[0]) && IsDigit("abcdefg1"[7]);
  }

  // ---------------------------------------------------------------------
  // sanitize_input
  // ---------------------------------------------------------------------

  datatype SanitizeMode = UsernameMode | FilenameMode | PathMode | StringMode

  predicate IsFilenameChar(c: char) { IsIdentChar(c) || c == '.' }
  predicate IsPathChar(c: char) { IsFilenameChar(c) || c == '/' }

  /** The characters each filtering mode keeps. */
  function Allowed(mode: SanitizeMode): char -> bool {
    match mode
    case UsernameMode => IsIdentChar
    case FilenameMode => IsFilenameChar
    case PathMode => IsPathChar
    case StringMode => _ => true
  }

  /** The escape htmlspecialchars(ENT_QUOTES) uses for one character. */
  function EscapeChar(c: char): string {
    if c == '&' then "&amp;"
    else if c == '"' then "&quot;"
    else if c == '\'' then "&#039;"
    else if c == '<' then "&lt;"
    else if c == '>' then "&gt;"
    else [c]
  }

  /** htmlspecialchars($s, ENT_QUOTES): the five special characters become entities. */
  function HtmlSpecialChars(s: string): (r: string)
    ensures |r| >= |s|
    ensures '<' !in r && '>' !in r && '"' !in r && '\'' !in r
    decreases |s|
  {
    if s == [] then [] else EscapeChar(s[0]) + HtmlSpecialChars(s[1..])
  }

  /** Reads the entities htmlspecialchars writes back into characters. */
  function HtmlDecode(s: string): string
    decreases |s|
  {
    if s == [] then []
    else if StartsWith(s, "&amp;") then "&" + HtmlDecode(s[5..])
    else if StartsWith(s, "&quot;") then "\"" + HtmlDecode(s[6..])
    else if StartsWith(s, "&#039;") then "'" + HtmlDecode(s[6..])
    else if StartsWith(s, "&lt;") then "<" + HtmlDecode(s[4..])
    else if StartsWith(s, "&gt;") then ">" + HtmlDecode(s[4..])
    else [s[0]] + HtmlDecode(s[1..])
  }

  lemma DecodeEscape(c: char, rest: string)
    ensures HtmlDecode(EscapeChar(c) + rest) == [c] + HtmlDecode(rest)
  {
    var e := EscapeChar(c);
    var s := e + rest;
    assert s[..|e|] == e;
    assert s[|e|..] == rest;
    if c == '"' {
      DifferAt(s, "&amp;", 1);
    } else if c == '\'' {
      DifferAt(s, "&amp;", 1);
      DifferAt(s, "&quot;", 1);
    } else if c == '<' {
      DifferAt(s, "&amp;", 1);
      DifferAt(s, "&quot;", 1);
      DifferAt(s, "&#039;", 1);
    } else if c == '>' {
      DifferAt(s, "&amp;", 1);
      DifferAt(s, "&quot;", 1);
      DifferAt(s, "&#039;", 1);
      DifferAt(s, "&lt;", 1);
    } else if c != '&' {
      assert s[0] == c;
      DifferAt(s, "&amp;", 0);
      DifferAt(s, "&quot;", 0);
      DifferAt(s, "&#039;", 0);
      DifferAt(s, "&lt;", 0);
      DifferAt(s, "&gt;", 0);
      assert s[1..] == rest;
    }
  }

  /** Escaping loses nothing: decoding gives the text back. */
  lemma {:induction false} HtmlSpecialCharsRoundTrip(s: string)
    ensures HtmlDecode(HtmlSpecialChars(s)) == s
    decreases |s|
  {
    if s != [] {
      HtmlSpecialCharsRoundTrip(s[1..]);
      DecodeEscape(s[0], HtmlSpecialChars(s[1..]));
      assert s == [s[0]] + s[1..];
    }
  }

  /** sanitize_input: trim, then delete the characters the mode does not allow, or escape for HTML. */
  function SanitizeInput(s: string, mode: SanitizeMode): (r: string)
    ensures mode != StringMode ==> forall i :: 0 <= i < |r| ==> Allowed(mode)(r[i])
    ensures mode != StringMode ==> |r| <= |s|
  {
    var t := Trim(s);
    if mode == StringMode then HtmlSpecialChars(t)
    else
      FilterKeepsOnly(t, Allowed(mode));
      Filter(t, Allowed(mode))
  }

  /**
   * Nothing allowed is lost: in a filtering mode every character the mode
   * allows occurs in the result as often as in the trimmed input, an
   * all-allowed trimmed input is kept as it is, and deleting is local, so
   * the kept characters keep their order.
   */
  lemma SanitizeKeepsAllowed(s: string, mode: SanitizeMode, a: string, b: string)
    requires mode != StringMode && Trim(s) == a + b
    ensures forall c :: Allowed(mode)(c) ==> multiset(SanitizeInput(s, mode))[c] == multiset(Trim(s))[c]
    ensures forall c :: !Allowed(mode)(c) ==> multiset(SanitizeInput(s, mode))[c] == 0
    ensures (forall i :: 0 <= i < |Trim(s)| ==> Allowed(mode)(Trim(s)[i])) ==> SanitizeInput(s, mode) == Trim(s)
    ensures SanitizeInput(s, mode) == Filter(a, Allowed(mode)) + Filter(b, Allowed(mode))
  {
    var keep := Allowed(mode);
    forall c ensures multiset(SanitizeInput(s, mode))[c] == if keep(c) then multiset(Trim(s))[c] else 0 {
      FilterCount(Trim(s), keep, c);
    }
    if forall i :: 0 <= i < |Trim(s)| ==> keep(Trim(s)[i]) {
      FilterKeepsAll(Trim(s), keep);
    }
    FilterConcat(a, b, keep);
  }

  /** The filtering modes are idempotent: a sanitised value sanitises to itself. */
  lemma SanitizeIdempotent(s: string, mode: SanitizeMode)
    requires mode != StringMode
    ensures SanitizeInput(SanitizeInput(s, mode), mode) == SanitizeInput(s, mode)
  {
    var keep := Allowed(mode);
    var r := Filter(Trim(s), keep);
    FilterKeepsOnly(Trim(s), keep);
    forall i | 0 <= i < |r| ensures !IsTrimSpace(r[i]) {
      AllowedIsNoSpace(mode, r[i]);
    }
    TrimWithNothingToStrip(r, IsTrimSpace);
    FilterIdempotent(Trim(s), keep);
  }

  lemma AllowedIsNoSpace(mode: SanitizeMode, c: char)
    requires mode != StringMode && Allowed(mode)(c)
    ensures !IsTrimSpace(c)
  {
  }

  /** In string mode the result decodes back to the trimmed input. */
  lemma SanitizeStringDecodes(s: string)
    ensures HtmlDecode(SanitizeInput(s, StringMode)) == Trim(s)
  {
    HtmlSpecialCharsRoundTrip(Trim(s));
  }

  // ---------------------------------------------------------------------
  // validate_file_path
  // ---------------------------------------------------------------------

  /** NUL bytes removed, then every '\' turned into '/'. */
  function CleanPath(path: string): string {
    MapChars(Filter(path, c => c != '\0'), c => if c == '\\' then '/' else c)
  }

  /** The string checks of validate_file_path on the cleaned path. */
  predicate SafeRelative(p: string) {
    !Contains(p, "../") && !StartsWith(p, "./") && !StartsWith(p, "/")
  }

  /**
   * validate_file_path($path, $base): the full path, or None (PHP false).
   * `realBase` is what realpath($base) gave; when it failed (None) PHP 8
   * compares against "" and the prefix test always passes.
   */
  function ValidateFilePath(path: string, base: string, realBase: Option<string>): (r: Option<string>)
    ensures r.Some? <==>
      SafeRelative(CleanPath(path)) &&
      StartsWith(Replace(base + "/" + CleanPath(path), "//", "/"), if realBase.Some? then realBase.value else "")
    ensures r.Some? ==> r.value == base + "/" + CleanPath(path)
    ensures r.Some? ==> !Contains(r.value[|base| + 1..], "../")
  {
    var p := CleanPath(path);
    if Contains(p, "../") || StartsWith(p, "./") then None
    else if StartsWith(p, "/") then None
    else
      var full := base + "/" + p;
      var needle := if realBase.Some? then realBase.value else "";
      if !StartsWith(Replace(full, "//", "/"), needle) then None
      else
        assert full[|base| + 1..] == p;
        Some(full)
  }

  // ---------------------------------------------------------------------
  // Rate limiting
  // ---------------------------------------------------------------------

  /** The session record of one rate limit: attempts so far and the end of the window. */
  datatype Window = Window(count: int, reset: int)

  /**
   * One call of the limiter on the record `w` (None when the key is not in
   * the session): a missing or expired record restarts at count 0 with the
   * window ending at now + window; the call is allowed, and counted, while
   * the count is below `max`.
   */
  function Step(w: Option<Window>, max: int, window: int, now: int): (res: (Window, bool))
    ensures var restart := w.None? || now > w.value.reset;
      var start := if restart then Window(0, now + window) else w.value;
      res.0.reset == start.reset &&
      (res.1 <==> start.count < max) &&
      res.0.count == (if res.1 then start.count + 1 else start.count)
  {
    var start := if w.None? || now > w.value.reset then Window(0, now + window) else w.value;
    if start.count >= max then (start, false)
    else (Window(start.count + 1, start.reset), true)
  }

  /** A record never counts more than `max` attempts (or 0 when `max` is not positive). */
  predicate Bounded(w: Window, max: int) {
    0 <= w.count && (w.count <= max || w.count == 0)
  }

  lemma StepKeepsBound(w: Option<Window>, max: int, window: int, now: int)
    requires w.Some? ==> Bounded(w.value, max)
    ensures Bounded(Step(w, max, window, now).0, max)
  {
  }

  /** Successive calls on one record at the given times; returns the record and how many were allowed. */
  function Run(w: Window, max: int, window: int, times: seq<int>): (Window, nat)
    decreases |times|
  {
    if times == [] then (w, 0)
    else
      var (w1, ok) := Step(Some(w), max, window, times[0]);
      var (w2, n) := Run(w1, max, window, times[1..]);
      (w2, n + if ok then 1 else 0)
  }

  function Min(a: int, b: int): int { if a <= b then a else b }
  function Max(a: int, b: int): int { if a >= b then a else b }

  /**
   * Within one window (no call after the reset time) exactly
   * min(n, max - count) of n calls are allowed, and the count grows by that much.
   */
  lemma {:induction false} RunWithinWindow(w: Window, max: int, window: int, times: seq<int>)
    requires forall k :: 0 <= k < |times| ==> times[k] <= w.reset
    ensures Run(w, max, window, times).1 == Min(|times|, Max(0, max - w.count))
    ensures Run(w, max, window, times).0 == Window(w.count + Min(|times|, Max(0, max - w.count)), w.reset)
    decreases |times|
  {
    if times != [] {
      var (w1, ok) := Step(Some(w), max, window, times[0]);
      assert w1.reset == w.reset;
      RunWithinWindow(w1, max, window, times[1..]);
    }
  }

  /** The session's rate-limit records, by key. */
  class Session {
    var records: map<string, Window>

    constructor ()
      ensures records == map[]
    {
      records := map[];
    }

    /** One limiter call on `key`; only that key's record changes. */
    method Check(key: string, max: int, window: int, now: int) returns (allowed: bool)
      modifies this
      ensures var res := Step(if key in old(records) then Some(old(records)[key]) else None, max, window, now);
        records == old(records)[key := res.0] && allowed == res.1
    {
      var w := if key in records then Some(records[key]) else None;
      var res := Step(w, max, window, now);
      records := records[key := res.0];
      allowed := res.1;
    }

    /**
     * check_operation_rate_limit: the key joins the operation and the
     * identifier with '_' (the source hashes that text with md5).
     */
    method CheckOperationRateLimit(operation: string, identifier: string, max: int, window: int, now: int)
      returns (allowed: bool)
      modifies this
      ensures var key := OperationKey(operation, identifier);
        var res := Step(if key in old(records) then Some(old(records)[key]) else None, max, window, now);
        records == old(records)[key := res.0] && allowed == res.1
    {
      allowed := Check(OperationKey(operation, identifier), max, window, now);
    }
  }

  function OperationKey(operation: string, identifier: string): (key: string)
    ensures StartsWith(key, "op_rate_limit_")
  {
    "op_rate_limit_" + operation + "_" + identifier
  }

  /** The key does not separate operation and identifier: "a" with "b_c" and "a_b" with "c" share a record. */
  lemma OperationKeysCollide()
    ensures OperationKey("a", "b_c") == OperationKey("a_b", "c")
  {
  }

  /** check_login_rate_limit is disabled: every attempt is allowed. */
  function CheckLoginRateLimit(username: string, max: int, window: int): (allowed: bool)
    ensures allowed
  {
    true
  }
}
