/**
 * The user administration handler (admin/user-handler.php): add, edit and
 * delete entries of users.json, never leaving the site without an
 * administrator through edit or delete.  The decoded list is the `users`
 * field of a `UserStore`; the session check, the `manage_users`
 * permission, `uniqid()`, `password_hash()` and whether saveUsers
 * succeeds are parameters.
 */
module UserAdmin {
  import opened Php

  datatype User = User(id: string, username: string, password: string, role: string)

  /** `$success` or `$error`, whichever the request sets. */
  datatype Reply = Success(message: string) | Failure(error: string)

  const Administrator := "administrator"

  predicate IsAdmin(u: User) { u.role == Administrator }

  /** `count(array_filter($users, fn($u) => $u['role'] === 'administrator'))` */
  function AdminCount(users: seq<User>): (n: nat)
    ensures n <= |users|
    decreases |users|
  {
    if users == [] then 0 else (if IsAdmin(users[0]) then 1 else 0) + AdminCount(users[1..])
  }

  /** Counting splits over a concatenation. */
  lemma {:induction false} AdminCountConcat(a: seq<User>, b: seq<User>)
    ensures AdminCount(a + b) == AdminCount(a) + AdminCount(b)
    decreases |a|
  {
    if a == [] {
      assert a + b == b;
    } else {
      assert (a + b)[1..] == a[1..] + b;
      AdminCountConcat(a[1..], b);
    }
  }

  /** There is an administrator exactly when the count is positive. */
  lemma {:induction false} AdminCountPositive(users: seq<User>)
    ensures AdminCount(users) > 0 <==> exists i :: 0 <= i < |users| && IsAdmin(users[i])
    decreases |users|
  {
    if users != [] {
      AdminCountPositive(users[1..]);
      assert forall i :: 1 <= i < |users| ==> users[i] == users[1..][i - 1];
      if exists i :: 0 <= i < |users[1..]| && IsAdmin(users[1..][i]) {
        var i :| 0 <= i < |users[1..]| && IsAdmin(users[1..][i]);
        assert IsAdmin(users[i + 1]);
      }
    }
  }

  /** Replacing one entry changes the count by what the old and the new entry contribute. */
  lemma AdminCountReplace(users: seq<User>, i: nat, u: User)
    requires i < |users|
    ensures AdminCount(users[i := u]) + (if IsAdmin(users[i]) then 1 else 0) ==
            AdminCount(users) + (if IsAdmin(u) then 1 else 0)
  {
    var before, after := users[..i], users[i + 1..];
    assert users == before + ([users[i]] + after);
    assert users[i := u] == before + ([u] + after);
    AdminCountConcat(before, [users[i]] + after);
    AdminCountConcat([users[i]], after);
    AdminCountConcat(before, [u] + after);
    AdminCountConcat([u], after);
  }

  /** Splicing out one entry lowers the count by what that entry contributed. */
  lemma {:induction false} AdminCountSplice(users: seq<User>, i: nat)
    requires i < |users|
    ensures AdminCount(users[..i] + users[i + 1..]) + (if IsAdmin(users[i]) then 1 else 0) == AdminCount(users)
    decreases i
  {
    var spliced := users[..i] + users[i + 1..];
    if i == 0 {
      assert spliced == users[1..];
    } else {
      var t := users[1..];
      AdminCountSplice(t, i - 1);
      assert t[i - 1] == users[i];
      assert spliced[0] == users[0];
      assert spliced[1..] == t[..i - 1] + t[i..];
    }
  }

  /** The edit guard: an edit it lets through leaves at least one administrator. */
  lemma EditKeepsAnAdmin(users: seq<User>, i: nat, u: User)
    requires i < |users| && AdminCount(users) > 0
    requires !(IsAdmin(users[i]) && AdminCount(users) <= 1 && !IsAdmin(u))
    ensures AdminCount(users[i := u]) > 0
  {
    AdminCountReplace(users, i, u);
  }

  /** The delete guard: a deletion it lets through leaves at least one administrator. */
  lemma DeleteKeepsAnAdmin(users: seq<User>, i: nat)
    requires i < |users| && AdminCount(users) > 0
    requires !(IsAdmin(users[i]) && AdminCount(users) <= 1)
    ensures AdminCount(users[..i] + users[i + 1..]) > 0
  {
    AdminCountSplice(users, i);
  }

  /** `array_search($username, array_column($users, 'username'))` */
  function FindUser(users: seq<User>, username: string): (r: Option<nat>)
    ensures r.Some? ==> r.value < |users| && users[r.value].username == username
    ensures r.Some? ==> forall j :: 0 <= j < r.value ==> users[j].username != username
    ensures r.None? <==> forall j :: 0 <= j < |users| ==> users[j].username != username
    decreases |users|
  {
    if users == [] then None
    else if users[0].username == username then Some(0)
    else
      assert forall j :: 1 <= j < |users| ==> users[j] == users[1..][j - 1];
      match FindUser(users[1..], username)
      case None => None
      case Some(i) => Some(i + 1)
  }

  /** The POST fields of the three actions (None when absent). */
  datatype Post = Post(username: Option<string>, password: Option<string>, role: Option<string>,
                       newUsername: Option<string>, newPassword: Option<string>, userRole: Option<string>)

  /** The edited entry: a truthy new name or password replaces the old one; the role is always set. */
  function Edited(u: User, post: Post, hashed: string): (r: User)
    ensures r.id == u.id
    ensures r.role == if post.userRole.Some? then post.userRole.value else "author"
    ensures r.username == if Empty(OrEmpty(post.newUsername)) then u.username else post.newUsername.value
  {
    u.(username := if Empty(OrEmpty(post.newUsername)) then u.username else post.newUsername.value,
       password := if Empty(OrEmpty(post.newPassword)) then u.password else hashed,
       role := if post.userRole.Some? then post.userRole.value else "author")
  }

  /** The decoded users.json, changed in place by the three actions. */
  class UserStore {
    var users: seq<User>

    constructor (stored: seq<User>)
      ensures users == stored
    {
      users := stored;
    }

    /** The username scan. */
    method Find(username: string) returns (index: Option<nat>)
      ensures index == FindUser(users, username)
    {
      var k := 0;
      while k < |users|
        invariant 0 <= k <= |users|
        invariant forall j :: 0 <= j < k ==> users[j].username != username
      {
        if users[k].username == username {
          return Some(k);
        }
        k := k + 1;
      }
      return None;
    }

    /** The administrator count. */
    method CountAdmins() returns (n: nat)
      ensures n == AdminCount(users)
    {
      n := 0;
      var k := |users|;
      while k > 0
        invariant 0 <= k <= |users|
        invariant n == AdminCount(users[k..])
      {
        k := k - 1;
        assert users[k..][1..] == users[k + 1..];
        if IsAdmin(users[k]) {
          n := n + 1;
        }
      }
    }

    /** add_user: a new name is appended with role 'author' unless one is posted. */
    method AddUser(post: Post, newId: string, hashed: string, saved: bool) returns (reply: Reply)
      modifies this
      ensures Empty(OrEmpty(post.username)) || Empty(OrEmpty(post.password)) ==>
        reply == Failure("Username and password are required") && users == old(users)
      ensures reply == Success("User added successfully") <==>
        !Empty(OrEmpty(post.username)) && !Empty(OrEmpty(post.password)) &&
        FindUser(old(users), post.username.value).None? && saved
      ensures reply.Success? ==>
        users == old(users) + [User(newId, post.username.value, hashed,
                                    if post.role.Some? then post.role.value else "author")]
      ensures reply.Failure? ==> users == old(users)
    {
      if Empty(OrEmpty(post.username)) || Empty(OrEmpty(post.password)) {
        return Failure("Username and password are required");
      }
      var found := Find(post.username.value);
      if found.Some? {
        return Failure("Username already exists");
      }
      if !saved {
        return Failure("Failed to add user");
      }
      users := users + [User(newId, post.username.value, hashed,
                             if post.role.Some? then post.role.value else "author")];
      reply := Success("User added successfully");
    }

    /** edit_user: refuses to take the role away from the only administrator. */
    method EditUser(post: Post, hashed: string, saved: bool) returns (reply: Reply)
      modifies this
      ensures reply.Failure? ==> users == old(users)
      ensures reply.Success? ==> (
        !Empty(OrEmpty(post.username)) && FindUser(old(users), post.username.value).Some? && saved &&
        var i := FindUser(old(users), post.username.value).value;
        users == old(users)[i := Edited(old(users)[i], post, hashed)])
      ensures (!Empty(OrEmpty(post.username)) && FindUser(old(users), post.username.value).Some? &&
               IsAdmin(old(users)[FindUser(old(users), post.username.value).value]) &&
               AdminCount(old(users)) <= 1 && post.userRole != Some(Administrator)) ==>
        reply == Failure("Cannot modify the last admin user")
      ensures Empty(OrEmpty(post.username)) ==> reply == Failure("Username is required")
      ensures !Empty(OrEmpty(post.username)) && FindUser(old(users), post.username.value).None? ==>
        reply == Failure("User not found")
      ensures (!Empty(OrEmpty(post.username)) && FindUser(old(users), post.username.value).Some? &&
               !(IsAdmin(old(users)[FindUser(old(users), post.username.value).value]) &&
                 AdminCount(old(users)) <= 1 && post.userRole != Some(Administrator))) ==>
        reply == if saved then Success("User updated successfully") else Failure("Failed to update user")
    {
      if Empty(OrEmpty(post.username)) {
        return Failure("Username is required");
      }
      var found := Find(post.username.value);
      if found.None? {
        return Failure("User not found");
      }
      var i := found.value;
      var admins := CountAdmins();
      var newRole := if post.userRole.Some? then post.userRole.value else "author";
      if IsAdmin(users[i]) && admins <= 1 && newRole != Administrator {
        return Failure("Cannot modify the last admin user");
      }
      if !saved {
        return Failure("Failed to update user");
      }
      users := users[i := Edited(users[i], post, hashed)];
      reply := Success("User updated successfully");
    }

    /** delete_user: refuses to remove the only administrator. */
    method DeleteUser(post: Post, saved: bool) returns (reply: Reply)
      modifies this
      ensures reply.Failure? ==> users == old(users)
      ensures reply.Success? ==> (
        !Empty(OrEmpty(post.username)) && FindUser(old(users), post.username.value).Some? && saved &&
        var i := FindUser(old(users), post.username.value).value;
        users == old(users)[..i] + old(users)[i + 1..] &&
        (IsAdmin(old(users)[i]) ==> AdminCount(old(users)) > 1))
      ensures (!Empty(OrEmpty(post.username)) && FindUser(old(users), post.username.value).Some? &&
               IsAdmin(old(users)[FindUser(old(users), post.username.value).value]) &&
               AdminCount(old(users)) <= 1) ==>
        reply == Failure("Cannot delete the last admin user")
      ensures Empty(OrEmpty(post.username)) ==> reply == Failure("Username is required")
      ensures !Empty(OrEmpty(post.username)) && FindUser(old(users), post.username.value).None? ==>
        reply == Failure("User not found")
      ensures (!Empty(OrEmpty(post.username)) && FindUser(old(users), post.username.value).Some? &&
               !(IsAdmin(old(users)[FindUser(old(users), post.username.value).value]) &&
                 AdminCount(old(users)) <= 1)) ==>
        reply == if saved then Success("User deleted successfully") else Failure("Failed to delete user")
    {
      if Empty(OrEmpty(post.username)) {
        return Failure("Username is required");
      }
      var found := Find(post.username.value);
      if found.None? {
        return Failure("User not found");
      }
      var i := found.value;
      var admins := CountAdmins();
      if IsAdmin(users[i]) && admins <= 1 {
        return Failure("Cannot delete the last admin user");
      }
      if !saved {
        return Failure("Failed to delete user");
      }
      users := users[..i] + users[i + 1..];
      reply := Success("User deleted successfully");
    }

    /**
     * One POST request with an action; None for an action none of the
     * three cases handles.  Whatever happens, a site that had an
     * administrator still has one.
     */
    method Handle(action: string, post: Post, loggedIn: bool, mayManage: bool, newId: string,
                  hashed: string, saved: bool) returns (reply: Option<Reply>)
      modifies this
      ensures !loggedIn ==> reply == Some(Failure("You must be logged in to perform this action"))
      ensures loggedIn && action in {"add_user", "edit_user", "delete_user"} && !mayManage ==>
        reply == Some(Failure("You do not have permission to manage users"))
      ensures reply.None? <==> loggedIn && action !in {"add_user", "edit_user", "delete_user"}
      ensures reply.None? || reply.value.Failure? ==> users == old(users)
      ensures AdminCount(old(users)) > 0 ==> AdminCount(users) > 0
    {
      if !loggedIn {
        return Some(Failure("You must be logged in to perform this action"));
      }
      if action !in {"add_user", "edit_user", "delete_user"} {
        return None;
      }
      if !mayManage {
        return Some(Failure("You do not have permission to manage users"));
      }
      var r;
      if action == "add_user" {
        r := AddUser(post, newId, hashed, saved);
        if r.Success? {
          AdminCountConcat(old(users), users[|old(users)|..]);
          assert old(users) + users[|old(users)|..] == users;
        }
      } else if action == "edit_user" {
        if Empty(OrEmpty(post.username)) {
          return Some(Failure("Username is required"));
        }
        r := EditUser(post, hashed, saved);
        if r.Success? {
          var i := FindUser(old(users), post.username.value).value;
          if AdminCount(old(users)) > 0 {
            EditKeepsAnAdmin(old(users), i, Edited(old(users)[i], post, hashed));
          }
        }
      } else {
        r := DeleteUser(post, saved);
        if r.Success? {
          var i := FindUser(old(users), post.username.value).value;
          if AdminCount(old(users)) > 0 {
            DeleteKeepsAnAdmin(old(users), i);
          }
        }
      }
      reply := Some(r);
    }
  }

  /** edit_user does not check the new name: it can give two users the same name. */
  lemma EditCanDuplicateName(a: User, b: User, hashed: string)
    requires a.username != b.username && !Empty(a.username) && !Empty(b.username) && !IsAdmin(a)
    ensures var post := Post(Some(a.username), None, None, Some(b.username), None, None);
      var users := [a, b];
      var edited := users[0 := Edited(a, post, hashed)];
      FindUser(users, a.username) == Some(0) && edited[0].username == edited[1].username
  {
  }

  /** An edit that posts no role demotes the user to 'author'. */
  lemma EditWithoutRoleDemotes(u: User, post: Post, hashed: string)
    requires post.userRole.None?
    ensures Edited(u, post, hashed).role == "author"
  {
  }
}
