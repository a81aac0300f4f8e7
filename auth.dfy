/** The account manager: creating users (with the bootstrap exception for an
    empty table), logging in, and the Admin operations on other accounts, all
    working on the user store and writing one activity row per success.
    The random salt, the current time and the ids the database assigns are
    parameters. */
module Auth {
  import opened Text
  import opened Users
  import opened Supabase
  import opened Accounts
  import Permissions
  import Codes

  /** The dictionary a successful account operation returns. */
  datatype Reply = Reply(status: string, message: string, temporaryPassword: Option<string>)

  /** The record `create_user` builds and returns (it carries no uuid). */
  function NewUserRecord(code: string, creator: Option<User>, username: string, password: string,
                         role: string, email: string, salt: nat, now: string): User
  {
    User("", code, username, email, HashPassword(password, salt), Some(role), now, "", "Active",
         if creator.Some? then creator.value.username else "SYSTEM_INIT", "")
  }

  /** The code `_generate_user_id` hands out for a table. */
  function NextUserCode(users: seq<User>): string
  {
    "USR" + ZeroPad3(Codes.MaxSuffix("USR", UserIds(users)) + 1)
  }

  /** The generated code is new, and on an empty table it is USR001. */
  lemma NextUserCodeIsFresh(users: seq<User>)
    ensures forall i :: 0 <= i < |users| ==> users[i].userId != NextUserCode(users)
    ensures |users| == 0 ==> NextUserCode(users) == "USR001"
  {
    Codes.NextCodeIsFresh("USR", UserIds(users));
    if |users| == 0 {
      Codes.ZeroPad3One();
    }
  }

  /** Register, then log in: the row `create_user` stores for a name not yet
      taken is active and hashed from the password, so logging in under that
      name, in any casing, succeeds with the password and is refused with any
      other. */
  lemma CreatedUserCanLogIn(users: seq<User>, code: string, creator: Option<User>, username: string, password: string,
                            role: string, email: string, salt: nat, now: string, uuid: string, assignedCode: string, name: string)
    requires !NameTaken(users, username)
    requires SameIgnoringCase(name, username)
    ensures var stored := StoredUser(UserInsertRow(NewUserRecord(code, creator, username, password, role, email, salt, now)),
                                     uuid, assignedCode, now);
            && LoginDecision(users + [stored], name, password) == LoggedIn(|users|)
            && forall other :: other != password ==> LoginDecision(users + [stored], name, other) == WrongPassword(|users|)
  {
    var stored := StoredUser(UserInsertRow(NewUserRecord(code, creator, username, password, role, email, salt, now)),
                             uuid, assignedCode, now);
    RegisteredUserCanLogIn(users, stored, name, password, salt);
  }

  class AuthManager {
    const db: UserStore

    constructor (db: UserStore)
      ensures this.db == db
    {
      this.db := db;
    }

    /** `_generate_user_id` */
    method GenerateUserId() returns (code: string)
      ensures code == NextUserCode(db.users)
      ensures code !in UserIds(db.users)
      ensures |db.users| == 0 ==> code == "USR001"
    {
      code := Codes.NextCode("USR", UserIds(db.users));
    }

    /** `create_user`. `uuid` and `assignedCode` are what the database fills in
        for the inserted row. */
    method CreateUser(creator: Option<User>, username: string, password: string, role: string, email: string,
                      salt: nat, now: string, uuid: string, assignedCode: string)
      returns (r: Result<User>)
      modifies db
      ensures |old(db.users)| > 0 && !Permissions.IsAdmin(creator) ==>
                r == Err(PermissionError("Only Admins can create new users.")) && db.users == old(db.users) && db.log == old(db.log)
      ensures (|old(db.users)| == 0 || Permissions.IsAdmin(creator)) && NameTaken(old(db.users), username) ==>
                r == Err(ValueError("Username '" + username + "' already exists.")) && db.users == old(db.users) && db.log == old(db.log)
      ensures (|old(db.users)| == 0 || Permissions.IsAdmin(creator)) && !NameTaken(old(db.users), username) ==>
                var record := NewUserRecord(NextUserCode(old(db.users)), creator, username, password, role, email, salt, now);
                && r == Ok(record)
                && db.users == old(db.users) + [StoredUser(UserInsertRow(record), uuid, assignedCode, now)]
                && db.log == old(db.log) + [ActivityRow(ResolveActor(db.users, if creator.Some? then creator.value.userId else record.userId),
                                                        "CREATE_USER", "Created user " + username + " (" + role + ")")]
      ensures UsernamesUnique(old(db.users)) ==> UsernamesUnique(db.users)
    {
      var all := db.users;
      if |all| > 0 && !Permissions.IsAdmin(creator) {
        return Err(PermissionError("Only Admins can create new users."));
      }
      var i := 0;
      while i < |all|
        invariant 0 <= i <= |all|
        invariant forall j :: 0 <= j < i ==> !SameIgnoringCase(all[j].username, username)
      {
        if Lower(all[i].username) == Lower(username) {
          return Err(ValueError("Username '" + username + "' already exists."));
        }
        i := i + 1;
      }
      var code := GenerateUserId();
      var record := NewUserRecord(code, creator, username, password, role, email, salt, now);
      db.AddUser(record, uuid, assignedCode, now);
      AppendKeepsNamesUnique(all, db.users[|all|]);
      db.LogActivity(if creator.Some? then creator.value.userId else code, "CREATE_USER",
                     "Created user " + username + " (" + role + ")");
      r := Ok(record);
    }

    /** `authenticate`: Ok(None) for an unknown name or a wrong password. */
    method Authenticate(username: string, password: string, now: string) returns (r: Result<Option<User>>)
      modifies db
      ensures match LoginDecision(old(db.users), username, password)
        case NoSuchUser => r == Ok(None) && db.users == old(db.users) && db.log == old(db.log)
        case WrongPassword(_) => r == Ok(None) && db.users == old(db.users) && db.log == old(db.log)
        case Locked(_) => r == Err(PermissionError("Account is locked or suspended."))
                          && db.users == old(db.users) && db.log == old(db.log)
        case LoggedIn(k) =>
          var code := old(db.users)[k].userId;
          && r == Ok(Some(old(db.users)[k]))
          && |db.users| == |old(db.users)|
          && (forall i :: 0 <= i < |db.users| ==>
                db.users[i] == if MatchesId(old(db.users)[i], code) then old(db.users)[i].(lastLogin := now) else old(db.users)[i])
          && db.log == old(db.log) + [ActivityRow(ResolveActor(db.users, code), "LOGIN", "User logged in")]
    {
      var users := db.users;
      var i := 0;
      while i < |users|
        invariant 0 <= i <= |users|
        invariant forall j :: 0 <= j < i ==> !SameIgnoringCase(users[j].username, username)
      {
        var user := users[i];
        if Lower(user.username) == Lower(username) {
          assert FirstNamed(users, username) == Some(i);
          if user.status != "Active" {
            return Err(PermissionError("Account is locked or suspended."));
          }
          if VerifyPassword(password, user.passwordHash) {
            db.UpdateLastLogin(user.userId, now);
            db.LogActivity(user.userId, "LOGIN", "User logged in");
            return Ok(Some(user));
          } else {
            return Ok(None);
          }
        }
        i := i + 1;
      }
      r := Ok(None);
    }

    /** `update_user`: returns the row as read back by the id. */
    method UpdateUser(caller: Option<User>, id: string, username: Option<string>, email: Option<string>,
                      role: Option<string>, status: Option<string>)
      returns (r: Result<Option<User>>)
      modifies db
      ensures !Permissions.IsAdmin(caller) ==>
                r == Err(PermissionError("Only Admins can update users.")) && db.users == old(db.users) && db.log == old(db.log)
      ensures Permissions.IsAdmin(caller) && Truthy(username) && NameClash(old(db.users), id, username.value) ==>
                r == Err(ValueError("Username '" + username.value + "' already exists."))
                && db.users == old(db.users) && db.log == old(db.log)
      ensures Permissions.IsAdmin(caller) && !(Truthy(username) && NameClash(old(db.users), id, username.value)) ==>
                && |db.users| == |old(db.users)|
                && (forall i :: 0 <= i < |db.users| ==>
                      db.users[i] == if MatchesId(old(db.users)[i], id)
                                     then Patch(old(db.users)[i], username, email, role, status)
                                     else old(db.users)[i])
                && db.log == old(db.log) + [ActivityRow(ResolveActor(db.users, caller.value.userId), "UPDATE_USER", "Updated user " + id)]
                && r == Ok(FindById(db.users, id))
    {
      if !Permissions.IsAdmin(caller) {
        return Err(PermissionError("Only Admins can update users."));
      }
      if Truthy(username) {
        var all := db.users;
        var i := 0;
        while i < |all|
          invariant 0 <= i <= |all|
          invariant forall j :: 0 <= j < i ==> !(all[j].userId != id && SameIgnoringCase(all[j].username, username.value))
        {
          if all[i].userId != id && Lower(all[i].username) == Lower(username.value) {
            return Err(ValueError("Username '" + username.value + "' already exists."));
          }
          i := i + 1;
        }
      }
      var updates: map<string, string> := map[];
      if Truthy(username) {
        updates := updates["Username" := username.value];
      }
      if email.Some? {
        updates := updates["Email" := email.value];
      }
      if Truthy(role) {
        updates := updates["Role" := role.value];
      }
      if Truthy(status) {
        updates := updates["Account_Status" := status.value];
      }
      ghost var before := db.users;
      db.UpdateUser(id, updates);
      forall i | 0 <= i < |before| && MatchesId(before[i], id)
        ensures ApplyUserColumns(before[i], DbUserUpdates(updates)) == Patch(before[i], username, email, role, status)
      {
        TranslatedUpdateIsPatch(before[i], updates, username, email, role, status);
      }
      db.LogActivity(caller.value.userId, "UPDATE_USER", "Updated user " + id);
      r := Ok(db.GetUserById(id));
    }

    /** `delete_user`, with the corrected self-delete guard. */
    method DeleteUser(caller: Option<User>, id: string) returns (r: Result<Reply>)
      modifies db
      ensures match DeleteDecision(old(db.users), caller, id)
        case NotAdmin => r == Err(PermissionError("Only Admins can delete users."))
                         && db.users == old(db.users) && db.log == old(db.log)
        case SelfDelete => r == Err(PermissionError("Cannot delete yourself."))
                           && db.users == old(db.users) && db.log == old(db.log)
        case NotFound => r == Err(ValueError("User " + id + " not found."))
                         && db.users == old(db.users) && db.log == old(db.log)
        case LastAdmin => r == Err(PermissionError("Cannot delete the last admin account."))
                          && db.users == old(db.users) && db.log == old(db.log)
        case Deleted(target) =>
          && r == Ok(Reply("success", "User " + target.username + " deleted", None))
          && db.users == Remaining(old(db.users), id)
          && db.log == old(db.log) + [ActivityRow(ResolveActor(db.users, caller.value.userId), "DELETE_USER",
                                                  "Deleted user " + target.username + " (" + id + ")")]
    {
      if !Permissions.IsAdmin(caller) {
        return Err(PermissionError("Only Admins can delete users."));
      }
      if caller.value.userId == id || MatchesId(caller.value, id) {
        return Err(PermissionError("Cannot delete yourself."));
      }
      var adminCount := AdminCount(db.users);
      var target := db.GetUserById(id);
      if target.None? {
        return Err(ValueError("User " + id + " not found."));
      }
      if IsAdminUser(target.value) && adminCount <= 1 {
        return Err(PermissionError("Cannot delete the last admin account."));
      }
      var name := target.value.username;
      db.DeleteUser(id);
      db.LogActivity(caller.value.userId, "DELETE_USER", "Deleted user " + name + " (" + id + ")");
      r := Ok(Reply("success", "User " + name + " deleted", None));
    }

    /** `reset_user_password`: the new password is handed back in clear. */
    method ResetUserPassword(caller: Option<User>, id: string, newPassword: string, salt: nat) returns (r: Result<Reply>)
      modifies db
      ensures !Permissions.IsAdmin(caller) ==>
                r == Err(PermissionError("Only Admins can reset user passwords.")) && db.users == old(db.users) && db.log == old(db.log)
      ensures Permissions.IsAdmin(caller) && FindById(old(db.users), id).None? ==>
                r == Err(ValueError("User " + id + " not found.")) && db.users == old(db.users) && db.log == old(db.log)
      ensures Permissions.IsAdmin(caller) && FindById(old(db.users), id).Some? ==>
                var target := FindById(old(db.users), id).value;
                && r == Ok(Reply("success", "Password reset for " + target.username, Some(newPassword)))
                && |db.users| == |old(db.users)|
                && (forall i :: 0 <= i < |db.users| ==>
                      db.users[i] == if MatchesId(old(db.users)[i], id)
                                     then old(db.users)[i].(passwordHash := HashPassword(newPassword, salt))
                                     else old(db.users)[i])
                && db.log == old(db.log) + [ActivityRow(ResolveActor(db.users, caller.value.userId), "RESET_PASSWORD",
                                                        "Reset password for user " + target.username + " (" + id + ")")]
    {
      if !Permissions.IsAdmin(caller) {
        return Err(PermissionError("Only Admins can reset user passwords."));
      }
      var target := db.GetUserById(id);
      if target.None? {
        return Err(ValueError("User " + id + " not found."));
      }
      db.UpdateUserPassword(id, HashPassword(newPassword, salt));
      db.LogActivity(caller.value.userId, "RESET_PASSWORD",
                     "Reset password for user " + target.value.username + " (" + id + ")");
      r := Ok(Reply("success", "Password reset for " + target.value.username, Some(newPassword)));
    }

    /** `change_password`: the current password is checked against the hash in
        the caller's own record (as the caller holds it), not the stored row. */
    method ChangePassword(user: User, currentPassword: string, newPassword: string, salt: nat) returns (r: Result<Reply>)
      modifies db
      ensures !VerifyPassword(currentPassword, user.passwordHash) ==>
                r == Err(PermissionError("Current password is incorrect.")) && db.users == old(db.users) && db.log == old(db.log)
      ensures VerifyPassword(currentPassword, user.passwordHash) ==>
                && r == Ok(Reply("success", "Password changed successfully", None))
                && |db.users| == |old(db.users)|
                && (forall i :: 0 <= i < |db.users| ==>
                      db.users[i] == if MatchesId(old(db.users)[i], user.userId)
                                     then old(db.users)[i].(passwordHash := HashPassword(newPassword, salt))
                                     else old(db.users)[i])
                && db.log == old(db.log) + [ActivityRow(ResolveActor(db.users, user.userId), "CHANGE_PASSWORD",
                                                        "User changed their own password")]
    {
      if !VerifyPassword(currentPassword, user.passwordHash) {
        return Err(PermissionError("Current password is incorrect."));
      }
      db.UpdateUserPassword(user.userId, HashPassword(newPassword, salt));
      db.LogActivity(user.userId, "CHANGE_PASSWORD", "User changed their own password");
      r := Ok(Reply("success", "Password changed successfully", None));
    }
  }

  /** The field dictionary `update_user` builds, once translated to columns and
      applied, gives exactly `Patch`: the Admin-facing arguments and the column
      update agree. */
  lemma TranslatedUpdateIsPatch(u: User, updates: map<string, string>,
                                username: Option<string>, email: Option<string>, role: Option<string>, status: Option<string>)
    requires updates.Keys <= {"Username", "Email", "Role", "Account_Status"}
    requires ("Username" in updates <==> Truthy(username)) && ("Username" in updates ==> updates["Username"] == username.value)
    requires ("Email" in updates <==> email.Some?) && ("Email" in updates ==> updates["Email"] == email.value)
    requires ("Role" in updates <==> Truthy(role)) && ("Role" in updates ==> updates["Role"] == role.value)
    requires ("Account_Status" in updates <==> Truthy(status)) && ("Account_Status" in updates ==> updates["Account_Status"] == status.value)
    ensures ApplyUserColumns(u, DbUserUpdates(updates)) == Patch(u, username, email, role, status)
  {
    var db := DbUserUpdates(updates);
    DbUserUpdatesColumn(updates, "Username");
    DbUserUpdatesColumn(updates, "Email");
    DbUserUpdatesColumn(updates, "Role");
    DbUserUpdatesColumn(updates, "Account_Status");
    assert "username" in db <==> "Username" in updates;
    assert "email" in db <==> "Email" in updates;
    assert "role" in db <==> "Role" in updates;
    assert "account_status" in db <==> "Account_Status" in updates;
  }
}
