/**
 * The installer's guards (install.php): its own rate limit for admin
 * creation, the command whitelist of `run_cmd`, and the validation and
 * duplicate check before the first administrator is written.
 */
module Install {
  import opened Php
  import opened Auth

  // ---------------------------------------------------------------------
  // check_rate_limit
  // ---------------------------------------------------------------------

  function RateKey(action: string): (key: string)
    ensures StartsWith(key, "rate_limit_")
  {
    "rate_limit_" + action
  }

  /** The installer's keys and those of check_operation_rate_limit never share a record. */
  lemma RateKeysDisjoint(action: string, operation: string, identifier: string)
    ensures RateKey(action) != OperationKey(operation, identifier)
  {
    assert RateKey(action)[0] == 'r';
    assert OperationKey(operation, identifier)[0] == 'o';
  }

  /** check_rate_limit: the same window rule as the operation limiter, keyed by the action. */
  method CheckRateLimit(session: Session, action: string, max: int, window: int, now: int)
    returns (allowed: bool)
    modifies session
    ensures var key := RateKey(action);
      var res := Step(if key in old(session.records) then Some(old(session.records)[key]) else None, max, window, now);
      session.records == old(session.records)[key := res.0] && allowed == res.1
  {
    allowed := session.Check(RateKey(action), max, window, now);
  }

  // ---------------------------------------------------------------------
  // run_cmd's whitelist
  // ---------------------------------------------------------------------

  /** $ALLOWED_COMMANDS, in declaration order. */
  function AllowedCommands(): seq<seq<string>> {
    [ ["which"],
      ["npm", "init", "-y"],
      ["npm", "install", "fs-extra", "handlebars", "marked", "--save"] ]
  }

  /** `array_slice($cmd, 0, count($allowed)) === $allowed`. */
  predicate IsPrefixOf(allowed: seq<string>, cmd: seq<string>) {
    |allowed| <= |cmd| && cmd[..|allowed|] == allowed
  }

  /** The whitelist loop: stops at the first pattern that is a prefix of the command. */
  method IsAllowedCommand(cmd: seq<string>) returns (allowed: bool)
    ensures allowed <==> exists k :: 0 <= k < |AllowedCommands()| && IsPrefixOf(AllowedCommands()[k], cmd)
  {
    var patterns := AllowedCommands();
    allowed := false;
    var k := 0;
    while k < |patterns|
      invariant 0 <= k <= |patterns|
      invariant !allowed
      invariant forall j :: 0 <= j < k ==> !IsPrefixOf(patterns[j], cmd)
    {
      if IsPrefixOf(patterns[k], cmd) {
        allowed := true;
        return;
      }
      k := k + 1;
    }
  }

  /** What `run_cmd` returns without running anything. */
  datatype CmdResult = CmdResult(code: int, out: string, err: string)

  /** A command outside the whitelist is answered with code 1 and is never run (None: it goes on to run). */
  method RunCmdGuard(cmd: seq<string>) returns (refused: Option<CmdResult>)
    ensures refused.Some? <==> forall k :: 0 <= k < |AllowedCommands()| ==> !IsPrefixOf(AllowedCommands()[k], cmd)
    ensures refused.Some? ==> refused.value == CmdResult(1, "", "Command not allowed for security reasons")
  {
    var ok := IsAllowedCommand(cmd);
    if ok {
      refused := None;
    } else {
      refused := Some(CmdResult(1, "", "Command not allowed for security reasons"));
    }
  }

  /** Adding arguments after a whitelisted command keeps it allowed. */
  lemma WhitelistExtends(cmd: seq<string>, more: seq<string>)
    requires exists k :: 0 <= k < |AllowedCommands()| && IsPrefixOf(AllowedCommands()[k], cmd)
    ensures exists k :: 0 <= k < |AllowedCommands()| && IsPrefixOf(AllowedCommands()[k], cmd + more)
  {
    var k :| 0 <= k < |AllowedCommands()| && IsPrefixOf(AllowedCommands()[k], cmd);
    var a := AllowedCommands()[k];
    assert (cmd + more)[..|a|] == cmd[..|a|];
  }

  // ---------------------------------------------------------------------
  // Admin creation
  // ---------------------------------------------------------------------

  /** One entry of users.json as the installer reads it ("" when the username is missing). */
  datatype StoredUser = StoredUser(id: string, username: string, role: string)

  datatype AdminOutcome =
    | TooManyAttempts
    | MissingFields
    | PasswordMismatch
    | BadUsername
    | ShortPassword
    | Duplicate
    | WriteFailed
    | Created

  /** The admin username pattern `/^[A-Za-z0-9_\-]{3,32}$/` under PCRE's `$`. */
  predicate AdminUsernameMatches(u: string) {
    PcreAnchored(u, t => IdentRun(t, 3, 32))
  }

  /** The username is trimmed first, so the pattern is exact: no trailing newline can slip through. */
  lemma TrimmedAdminUsernameExact(raw: string)
    ensures AdminUsernameMatches(Trim(raw)) <==> IdentRun(Trim(raw), 3, 32)
  {
    var u := Trim(raw);
    if |u| > 0 {
      assert !IsTrimSpace(u[|u| - 1]);
    }
  }

  /** The field checks, in the order the installer makes them. */
  function ValidateAdmin(username: string, password: string, confirm: string): (r: Option<AdminOutcome>)
    ensures r.None? <==>
      username != "" && password != "" && password == confirm &&
      AdminUsernameMatches(username) && ByteLength(password) >= 8
    ensures r.Some? ==> r.value in {MissingFields, PasswordMismatch, BadUsername, ShortPassword}
    ensures r == Some(MissingFields) <==> username == "" || password == "" || confirm == ""
    ensures r == Some(PasswordMismatch) <==>
      username != "" && password != "" && confirm != "" && password != confirm
    ensures r == Some(BadUsername) <==>
      username != "" && password != "" && password == confirm && !AdminUsernameMatches(username)
    ensures r == Some(ShortPassword) <==>
      username != "" && password != "" && password == confirm && AdminUsernameMatches(username) &&
      ByteLength(password) < 8
  {
    if username == "" || password == "" || confirm == "" then Some(MissingFields)
    else if password != confirm then Some(PasswordMismatch)
    else if !AdminUsernameMatches(username) then Some(BadUsername)
    else if ByteLength(password) < 8 then Some(ShortPassword)
    else None
  }

  /** The duplicate scan over the stored users; stops at the first equal username. */
  method HasUsername(users: seq<StoredUser>, username: string) returns (found: bool)
    ensures found <==> exists k :: 0 <= k < |users| && users[k].username == username
  {
    found := false;
    var k := 0;
    while k < |users|
      invariant 0 <= k <= |users|
      invariant forall j :: 0 <= j < k ==> users[j].username != username
    {
      if users[k].username == username {
        found := true;
        return;
      }
      k := k + 1;
    }
  }

  /**
   * The create_admin action: the rate limit (3 per 300 seconds), the field
   * checks, the duplicate scan, then the append of one administrator.
   * `writeOk` is whether creating the directory and writing users.json
   * succeeded; the stored list only changes when it did.
   */
  method CreateAdmin(session: Session, users: seq<StoredUser>, rawUsername: string, password: string,
                     confirm: string, now: int, writeOk: bool)
    returns (outcome: AdminOutcome, stored: seq<StoredUser>)
    modifies session
    ensures var key := RateKey("create_admin");
      var res := Step(if key in old(session.records) then Some(old(session.records)[key]) else None, 3, 300, now);
      session.records == old(session.records)[key := res.0] &&
      (!res.1 ==> outcome == TooManyAttempts)
    ensures outcome == Created <==> stored != users
    ensures outcome == Created ==>
      ValidateAdmin(Trim(rawUsername), password, confirm).None? &&
      (forall k :: 0 <= k < |users| ==> users[k].username != Trim(rawUsername)) &&
      stored == users + [StoredUser(Trim(rawUsername), Trim(rawUsername), "administrator")]
    ensures outcome == Duplicate ==> exists k :: 0 <= k < |users| && users[k].username == Trim(rawUsername)
    ensures var key := RateKey("create_admin");
      var res := Step(if key in old(session.records) then Some(old(session.records)[key]) else None, 3, 300, now);
      res.1 ==> (
        (ValidateAdmin(Trim(rawUsername), password, confirm).Some? ==>
          outcome == ValidateAdmin(Trim(rawUsername), password, confirm).value && stored == users) &&
        (ValidateAdmin(Trim(rawUsername), password, confirm).None? &&
         (exists k :: 0 <= k < |users| && users[k].username == Trim(rawUsername)) ==>
          outcome == Duplicate && stored == users) &&
        (ValidateAdmin(Trim(rawUsername), password, confirm).None? &&
         (forall k :: 0 <= k < |users| ==> users[k].username != Trim(rawUsername)) ==>
          outcome == (if writeOk then Created else WriteFailed)))
  {
    stored := users;
    var allowed := CheckRateLimit(session, "create_admin", 3, 300, now);
    if !allowed {
      outcome := TooManyAttempts;
      return;
    }
    var username := Trim(rawUsername);
    var invalid := ValidateAdmin(username, password, confirm);
    if invalid.Some? {
      outcome := invalid.value;
      return;
    }
    var dup := HasUsername(users, username);
    if dup {
      outcome := Duplicate;
    } else if !writeOk {
      outcome := WriteFailed;
    } else {
      stored := users + [StoredUser(username, username, "administrator")];
      outcome := Created;
    }
  }

  /** After a successful creation the new name occurs exactly once when it occurred nowhere before. */
  lemma CreatedIsUnique(users: seq<StoredUser>, username: string)
    requires forall k :: 0 <= k < |users| ==> users[k].username != username
    ensures var s := users + [StoredUser(username, username, "administrator")];
      forall k :: 0 <= k < |s| && s[k].username == username ==> k == |users|
  {
  }
}
