/**
 * Role-based access control of the user-roles plugin
 * (plugins/user-roles/user-roles.php): `user_has_capability`, the
 * `check_permission` hook and the `filter_admin_sections` hook.  The users
 * file and the roles file are parameters (a missing roles file is the empty
 * array); capability values are the booleans the roles editor writes.
 */
module UserRoles {
  import opened Php
  import opened PhpArray

  /** A record of the users file; `role` is absent for users created before roles. */
  datatype User = User(username: string, role: Option<string>)

  /** A record of the roles file; a key the file leaves out is `None`. */
  datatype Role = Role(name: Option<string>, capabilities: Option<Arr<bool>>)

  /** An admin section as the hook sees it; only `required_capability` is looked at. */
  datatype AdminSection = AdminSection(caption: string, requiredCapability: Option<string>)

  /** The user name that holds every capability. */
  const AdminName := "admin"

  /** The role of a user whose record names none. */
  const DefaultRole := "author"

  /** A role record is truthy when it holds any key. */
  predicate RoleTruthy(r: Role) {
    r.name.Some? || r.capabilities.Some?
  }

  /** `$capabilities[$c] ?? false`, over capabilities that may be missing. */
  predicate Granted(caps: Option<Arr<bool>>, c: string) {
    caps.Some? && Get(caps.value, c) == Some(true)
  }

  /** `$user['role'] ?? 'author'`. */
  function RoleName(u: User): string {
    if u.role.Some? then u.role.value else DefaultRole
  }

  /** `$roles[$role]['capabilities'] ?? []`. */
  function CapabilitiesOf(roles: Arr<Role>, role: string): Option<Arr<bool>> {
    match Get(roles, role)
    case None => None
    case Some(r) => r.capabilities
  }

  predicate Named(username: string, u: User) { u.username == username }

  /** The first user of the name, which the lookup loop stops at. */
  function FirstUser(users: seq<User>, username: string): Option<User>
    decreases |users|
  {
    if users == [] then None
    else if users[0].username == username then Some(users[0])
    else FirstUser(users[1..], username)
  }

  /** There is no first user exactly when no user has the name; otherwise it has the name. */
  lemma {:induction false} FirstUserMeaning(users: seq<User>, username: string)
    ensures FirstUser(users, username).None? <==> forall i :: 0 <= i < |users| ==> users[i].username != username
    ensures FirstUser(users, username).Some? ==>
      FirstUser(users, username).value in users && FirstUser(users, username).value.username == username
    decreases |users|
  {
    if users != [] && users[0].username != username {
      FirstUserMeaning(users[1..], username);
      forall i | 0 < i < |users| ensures users[i] == users[1..][i - 1] {
      }
    }
  }

  /** `reset(array_filter($users, ...))`: the first match, as the loop finds it. */
  lemma {:induction false} FilterFirstIsFirstUser(users: seq<User>, username: string)
    ensures var m := FilterSeq(users, u => Named(username, u));
      (m == [] <==> FirstUser(users, username).None?) &&
      (m != [] ==> FirstUser(users, username) == Some(m[0]))
    decreases |users|
  {
    if users != [] && users[0].username != username {
      FilterFirstIsFirstUser(users[1..], username);
    }
  }

  /** user_has_capability. */
  function HasCapability(users: seq<User>, roles: Arr<Role>, username: string, capability: string): bool {
    match FirstUser(users, username)
    case None => false
    case Some(u) =>
      u.username == AdminName ||
      match Get(roles, RoleName(u))
      case None => false
      case Some(role) => RoleTruthy(role) && Granted(role.capabilities, capability)
  }

  /** The role whose capabilities the two hooks read for `username`. */
  function HookRole(users: seq<User>, username: string): string {
    var matches := FilterSeq(users, u => Named(username, u));
    if matches == [] then DefaultRole else RoleName(matches[0])
  }

  /** The check_permission hook. */
  function CheckPermission(users: seq<User>, roles: Arr<Role>, username: string, action: string): bool {
    username == AdminName || Granted(CapabilitiesOf(roles, HookRole(users, username)), action)
  }

  /**
   * user_has_capability: an unknown user has nothing, the user `admin` has
   * everything, and any other user has what the role named in the record
   * grants, `author` when the record names none.
   */
  lemma HasCapabilityMeaning(users: seq<User>, roles: Arr<Role>, username: string, capability: string)
    ensures (forall i :: 0 <= i < |users| ==> users[i].username != username) ==>
      !HasCapability(users, roles, username, capability)
    ensures FirstUser(users, username).Some? ==>
      (HasCapability(users, roles, username, capability) <==>
        username == AdminName ||
        Granted(CapabilitiesOf(roles, RoleName(FirstUser(users, username).value)), capability))
    ensures FirstUser(users, username).Some? && username != AdminName && FirstUser(users, username).value.role.None? ==>
      (HasCapability(users, roles, username, capability) <==> Granted(CapabilitiesOf(roles, DefaultRole), capability))
  {
    FirstUserMeaning(users, username);
  }

  /** For a user on file, check_permission and user_has_capability agree. */
  lemma CheckPermissionAgrees(users: seq<User>, roles: Arr<Role>, username: string, action: string)
    requires exists i :: 0 <= i < |users| && users[i].username == username
    ensures CheckPermission(users, roles, username, action) == HasCapability(users, roles, username, action)
  {
    FirstUserMeaning(users, username);
    FilterFirstIsFirstUser(users, username);
  }

  /**
   * They differ off file: check_permission lets `admin` through without a
   * record, and gives an unknown user the capabilities of `author`, where
   * user_has_capability refuses both.
   */
  lemma CheckPermissionOffFile(users: seq<User>, roles: Arr<Role>, username: string, action: string)
    requires forall i :: 0 <= i < |users| ==> users[i].username != username
    ensures !HasCapability(users, roles, username, action)
    ensures username == AdminName ==> CheckPermission(users, roles, username, action)
    ensures username != AdminName ==>
      (CheckPermission(users, roles, username, action) <==> Granted(CapabilitiesOf(roles, DefaultRole), action))
  {
    FirstUserMeaning(users, username);
    FilterFirstIsFirstUser(users, username);
  }

  /** The user lookup of user_has_capability, with its `break`. */
  method FindUser(users: seq<User>, username: string) returns (user: Option<User>)
    ensures user == FirstUser(users, username)
  {
    user := None;
    var i := 0;
    while i < |users|
      invariant 0 <= i <= |users|
      invariant FirstUser(users, username) == FirstUser(users[i..], username)
    {
      if users[i].username == username {
        user := Some(users[i]);
        break;
      }
      assert users[i..][1..] == users[i + 1..];
      i := i + 1;
    }
  }

  method UserHasCapability(users: seq<User>, roles: Arr<Role>, username: string, capability: string)
    returns (r: bool)
    ensures r == HasCapability(users, roles, username, capability)
  {
    var user := FindUser(users, username);
    if user.None? {
      return false;
    }
    if user.value.username == AdminName {
      return true;
    }
    var userRole := RoleName(user.value);
    var role := Get(roles, userRole);
    if role.None? || !RoleTruthy(role.value) {
      return false;
    }
    r := Granted(role.value.capabilities, capability);
  }

  // ---------------------------------------------------------------------
  // filter_admin_sections
  // ---------------------------------------------------------------------

  /** A section is kept when it needs no capability or the capabilities grant the one it needs. */
  predicate Allowed(caps: Option<Arr<bool>>, section: AdminSection) {
    section.requiredCapability.None? || Granted(caps, section.requiredCapability.value)
  }

  /** The sections the hook hands back. */
  function VisibleSections(users: seq<User>, roles: Arr<Role>, username: string, sections: Arr<AdminSection>)
    : Arr<AdminSection>
  {
    if username == AdminName then sections
    else
      var caps := CapabilitiesOf(roles, HookRole(users, username));
      FilterSeq(sections, (e: (string, AdminSection)) => Allowed(caps, e.1))
  }

  /**
   * The menu agrees with check_permission: a section without a required
   * capability is always shown, one with a required capability exactly when
   * check_permission grants it, and `admin` sees every section.
   */
  lemma VisibleSectionsAgree(users: seq<User>, roles: Arr<Role>, username: string, sections: Arr<AdminSection>)
    ensures username == AdminName ==> VisibleSections(users, roles, username, sections) == sections
    ensures forall e :: e in VisibleSections(users, roles, username, sections) <==>
      e in sections &&
      (e.1.requiredCapability.None? || CheckPermission(users, roles, username, e.1.requiredCapability.value))
  {
    if username != AdminName {
      var caps := CapabilitiesOf(roles, HookRole(users, username));
      FilterSeqMembers(sections, (e: (string, AdminSection)) => Allowed(caps, e.1));
    }
  }

  /** The filtering loop: each allowed section is written under its own key, in order. */
  method FilterAdminSections(users: seq<User>, roles: Arr<Role>, username: string, sections: Arr<AdminSection>)
    returns (filtered: Arr<AdminSection>)
    ensures filtered == VisibleSections(users, roles, username, sections)
  {
    if username == AdminName {
      return sections;
    }
    var capabilities := CapabilitiesOf(roles, HookRole(users, username));
    var keep := (e: (string, AdminSection)) => Allowed(capabilities, e.1);
    filtered := [];
    for i := 0 to |sections|
      invariant filtered == FilterSeq(sections[..i], keep)
    {
      FilterSeqSnoc(sections, i, keep);
      var section := sections[i].1;
      if section.requiredCapability.None? || Granted(capabilities, section.requiredCapability.value) {
        filtered := filtered + [sections[i]];
      }
    }
    assert sections[..|sections|] == sections;
  }

  // ---------------------------------------------------------------------
  // The roles file the plugin writes when there is none
  // ---------------------------------------------------------------------

  /** Every capability the roles editor offers. */
  const AllCapabilities := ["manage_users", "manage_roles", "manage_themes", "manage_plugins", "manage_menus",
                            "manage_widgets", "manage_content", "manage_files", "manage_settings"]

  /** The capability table that grants exactly the listed capabilities. */
  function Table(granted: seq<string>): Arr<bool> {
    seq(|AllCapabilities|, i requires 0 <= i < |AllCapabilities| => (AllCapabilities[i], AllCapabilities[i] in granted))
  }

  const DefaultRoles: Arr<Role> := [
    ("administrator", Role(Some("Administrator"), Some(Table(AllCapabilities)))),
    ("editor", Role(Some("Editor"), Some(Table(["manage_content", "manage_files"])))),
    ("author", Role(Some("Author"), Some(Table(["manage_content"]))))
  ]

  lemma {:induction false} DistinctKeysGet(a: Arr<bool>, i: nat)
    requires i < |a| && UniqueKeys(a)
    ensures Get(a, a[i].0) == Some(a[i].1)
  {
  }

  /** A table grants a capability exactly when it is both offered and listed. */
  lemma TableGrants(granted: seq<string>, c: string)
    ensures Granted(Some(Table(granted)), c) <==> c in AllCapabilities && c in granted
  {
    var t := Table(granted);
    assert Keys(t) == AllCapabilities;
    assert UniqueKeys(t);
    if c in AllCapabilities {
      var i :| 0 <= i < |AllCapabilities| && AllCapabilities[i] == c;
      DistinctKeysGet(t, i);
    }
  }

  lemma DefaultRolesLookup()
    ensures CapabilitiesOf(DefaultRoles, "administrator") == Some(Table(AllCapabilities))
    ensures CapabilitiesOf(DefaultRoles, "editor") == Some(Table(["manage_content", "manage_files"]))
    ensures CapabilitiesOf(DefaultRoles, DefaultRole) == Some(Table(["manage_content"]))
  {
    assert DefaultRoles[0].0 == "administrator" && DefaultRoles[1].0 == "editor" && DefaultRoles[2].0 == "author";
    assert "editor" != "administrator";
    assert "author" != "administrator" && "author" != "editor";
  }

  /**
   * Under the default roles file the administrator role grants every
   * capability, the editor role content and files, and the author role,
   * which users without a role get, content only.
   */
  lemma DefaultRolesGrant(c: string)
    ensures Granted(CapabilitiesOf(DefaultRoles, "administrator"), c) <==> c in AllCapabilities
    ensures Granted(CapabilitiesOf(DefaultRoles, "editor"), c) <==> c == "manage_content" || c == "manage_files"
    ensures Granted(CapabilitiesOf(DefaultRoles, DefaultRole), c) <==> c == "manage_content"
  {
    DefaultRolesLookup();
    TableGrants(AllCapabilities, c);
    TableGrants(["manage_content", "manage_files"], c);
    TableGrants(["manage_content"], c);
    assert AllCapabilities[6] == "manage_content" && AllCapabilities[7] == "manage_files";
  }
}
