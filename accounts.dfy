/** The rules behind the account operations, stated over the user table as a
    sequence of rows: who a login name selects and what a login attempt
    decides, when a deletion is allowed and what it leaves, and what an
    update may change. The AuthManager methods are proved against these. */
module Accounts {
  import opened Text
  import opened Users
  import opened Supabase
  import Seqs
  import Permissions

  /** Python truthiness of an optional string argument: present and non-empty. */
  predicate Truthy(s: Option<string>)
  {
    s.Some? && s.value != ""
  }

  /** Some row carries `name`, ignoring case. */
  predicate NameTaken(users: seq<User>, name: string)
  {
    exists i :: 0 <= i < |users| && SameIgnoringCase(users[i].username, name)
  }

  predicate UsernamesUnique(users: seq<User>)
  {
    forall i, j :: 0 <= i < j < |users| ==> !SameIgnoringCase(users[i].username, users[j].username)
  }

  /** Distinct rows have distinct uuids (the primary key) and distinct user
      codes. */
  predicate IdsUnique(users: seq<User>)
  {
    forall i, j :: 0 <= i < j < |users| ==> users[i].uuid != users[j].uuid && users[i].userId != users[j].userId
  }

  predicate IsAdminUser(u: User)
  {
    u.role == Some(Permissions.RoleAdmin)
  }

  /** Appending a row keeps usernames unique exactly when the table had unique
      names and the new name is not taken, ignoring case: the check
      `create_user` makes before inserting is the one that keeps the table
      free of clashes. */
  lemma AppendKeepsNamesUnique(users: seq<User>, u: User)
    ensures UsernamesUnique(users + [u]) <==> UsernamesUnique(users) && !NameTaken(users, u.username)
  {
    var all := users + [u];
    assert forall i :: 0 <= i < |users| ==> all[i] == users[i];
    if UsernamesUnique(all) {
      forall i | 0 <= i < |users|
        ensures !SameIgnoringCase(users[i].username, u.username)
      {
        assert all[|users|] == u;
      }
    }
  }

  /** `sum(1 for u in all_users if u.get("Role") == ROLE_ADMIN)`: every
      status counts. */
  function AdminCount(users: seq<User>): nat
  {
    Seqs.Count(users, IsAdminUser)
  }

  // ---------------------------------------------------------------------
  // Login

  /** The position of the first row whose username equals `name` ignoring
      case: the only row `authenticate` ever looks at. */
  function FirstNamed(users: seq<User>, name: string): (r: Option<nat>)
    ensures r.None? <==> !NameTaken(users, name)
    ensures r.Some? ==> r.value < |users| && SameIgnoringCase(users[r.value].username, name)
    ensures r.Some? ==> forall j :: 0 <= j < r.value ==> !SameIgnoringCase(users[j].username, name)
  {
    if |users| == 0 then None
    else if SameIgnoringCase(users[0].username, name) then Some(0)
    else
      var rest := FirstNamed(users[1..], name);
      assert forall j :: 1 <= j < |users| ==> users[1..][j - 1] == users[j];
      if rest.Some? then Some(rest.value + 1) else None
  }

  datatype Login = NoSuchUser | Locked(index: nat) | WrongPassword(index: nat) | LoggedIn(index: nat)

  /** What `authenticate` decides: the status of the first matching row is
      checked before its password. */
  function LoginDecision(users: seq<User>, name: string, password: string): Login
  {
    var k := FirstNamed(users, name);
    if k.None? then NoSuchUser
    else if users[k.value].status != "Active" then Locked(k.value)
    else if VerifyPassword(password, users[k.value].passwordHash) then LoggedIn(k.value)
    else WrongPassword(k.value)
  }

  /** A row appended under a name nobody else has is the one a login under that
      name (in any case) reaches: its password logs in, any other is refused. */
  lemma RegisteredUserCanLogIn(users: seq<User>, user: User, name: string, password: string, salt: nat)
    requires !NameTaken(users, user.username)
    requires user.status == "Active" && user.passwordHash == HashPassword(password, salt)
    requires SameIgnoringCase(name, user.username)
    ensures LoginDecision(users + [user], name, password) == LoggedIn(|users|)
    ensures forall other :: other != password ==> LoginDecision(users + [user], name, other) == WrongPassword(|users|)
  {
    var all := users + [user];
    assert SameIgnoringCase(all[|users|].username, name);
    var k := FirstNamed(all, name);
    if k.value < |users| {
      assert SameIgnoringCase(users[k.value].username, user.username);
      assert false;
    }
  }

  /** With unique usernames, the row with a given name is the one every login
      under that name reaches. */
  lemma UniqueNameIsFirst(users: seq<User>, k: int, name: string)
    requires UsernamesUnique(users)
    requires 0 <= k < |users| && SameIgnoringCase(users[k].username, name)
    ensures FirstNamed(users, name) == Some(k)
  {
    var f := FirstNamed(users, name);
    if f.value < k {
      assert SameIgnoringCase(users[f.value].username, users[k].username);
    }
  }

  // ---------------------------------------------------------------------
  // Ids

  /** With unique ids, two different rows are never both selected by one id. */
  lemma DistinctRowsNotBothSelected(users: seq<User>, id: string, i: int, j: int)
    requires IdsUnique(users)
    requires 0 <= i < |users| && 0 <= j < |users| && i != j
    ensures !MatchesId(users[i], id) || !MatchesId(users[j], id)
  {
    if i < j {
      assert users[i].uuid != users[j].uuid && users[i].userId != users[j].userId;
    } else {
      assert users[j].uuid != users[i].uuid && users[j].userId != users[i].userId;
    }
  }

  /** With unique ids, a user's own code selects that user's row and no other,
      as long as the code is not 36 characters long. */
  lemma CodeSelectsOne(users: seq<User>, k: int)
    requires IdsUnique(users)
    requires 0 <= k < |users| && |users[k].userId| != 36
    ensures forall i :: 0 <= i < |users| ==> (MatchesId(users[i], users[k].userId) <==> i == k)
  {
    forall i | 0 <= i < |users| && i != k
      ensures !MatchesId(users[i], users[k].userId)
    {
      DistinctRowsNotBothSelected(users, users[k].userId, i, k);
    }
  }

  /** With unique ids, deleting a selected row removes that row and only it. */
  lemma RemovesExactlyOne(users: seq<User>, id: string, k: int)
    requires IdsUnique(users)
    requires 0 <= k < |users| && MatchesId(users[k], id)
    ensures Remaining(users, id) == users[..k] + users[k + 1..]
  {
    forall i | 0 <= i < |users| && i != k
      ensures !MatchesId(users[i], id)
    {
      DistinctRowsNotBothSelected(users, id, i, k);
    }
    Seqs.FilterDropsOne(users, (u: User) => !MatchesId(u, id), k);
  }

  /** Deleting row k removes its admin, if it was one, from the count. */
  lemma AdminCountWithout(users: seq<User>, k: int)
    requires 0 <= k < |users|
    ensures AdminCount(users[..k] + users[k + 1..]) == AdminCount(users) - (if IsAdminUser(users[k]) then 1 else 0)
  {
    assert users == users[..k] + [users[k]] + users[k + 1..];
    Seqs.CountConcat(users[..k] + [users[k]], users[k + 1..], IsAdminUser);
    Seqs.CountConcat(users[..k], [users[k]], IsAdminUser);
    Seqs.CountConcat(users[..k], users[k + 1..], IsAdminUser);
    assert [users[k]][..0] == [];
  }

  // ---------------------------------------------------------------------
  // Deletion

  datatype Deletion = NotAdmin | SelfDelete | NotFound | LastAdmin | Deleted(target: User)

  /** The guards of `delete_user` as written: the self-delete check compares
      the caller's user code with the id, although the id may be a UUID. */
  function DeleteDecisionAsWritten(users: seq<User>, caller: Option<User>, id: string): Deletion
  {
    if !Permissions.IsAdmin(caller) then NotAdmin
    else if caller.value.userId == id then SelfDelete
    else
      var target := FindById(users, id);
      if target.None? then NotFound
      else if IsAdminUser(target.value) && AdminCount(users) <= 1 then LastAdmin
      else Deleted(target.value)
  }

  /** The guards of `delete_user` with the self-delete check also catching the
      caller's own UUID, that is, any id that selects the caller's row. */
  function DeleteDecision(users: seq<User>, caller: Option<User>, id: string): Deletion
  {
    if !Permissions.IsAdmin(caller) then NotAdmin
    else if caller.value.userId == id || MatchesId(caller.value, id) then SelfDelete
    else
      var target := FindById(users, id);
      if target.None? then NotFound
      else if IsAdminUser(target.value) && AdminCount(users) <= 1 then LastAdmin
      else Deleted(target.value)
  }

  /** Two Admins, the first identified by a UUID. */
  const AliceUuid := "123e4567-e89b-12d3-a456-426614174000"

  function Alice(): User
  {
    User(AliceUuid, "USR001", "alice", "", HashPassword("a", 0), Some("Admin"), "", "", "Active", "", "")
  }

  function Bob(): User
  {
    User("00000000-0000-0000-0000-000000000002", "USR002", "bob", "", HashPassword("b", 0), Some("Admin"), "", "", "Active", "", "")
  }

  /** As written, an Admin who names themself by UUID passes the self-delete
      guard and deletes their own account. */
  lemma SelfDeleteByUuid()
    ensures DeleteDecisionAsWritten([Alice(), Bob()], Some(Alice()), AliceUuid) == Deleted(Alice())
    ensures Alice() !in Remaining([Alice(), Bob()], AliceUuid)
  {
    var users := [Alice(), Bob()];
    assert |AliceUuid| == 36;
    assert MatchesId(Alice(), AliceUuid);
    assert FindById(users, AliceUuid) == Some(Alice());
    assert IsAdminUser(Alice()) && IsAdminUser(Bob());
    assert AdminCount(users) == 2 by {
      assert users[..1] == [Alice()];
      assert Seqs.Count([Alice()], IsAdminUser) == 1 by {
        assert [Alice()][..0] == [];
      }
    }
    Seqs.FilterExact(users, (u: User) => !MatchesId(u, AliceUuid), Alice());
  }

  /** With the corrected guard, a successful deletion never removes the
      caller's own row. */
  lemma CallerSurvivesDeletion(users: seq<User>, caller: User, id: string)
    requires DeleteDecision(users, Some(caller), id).Deleted?
    ensures !MatchesId(caller, id)
    ensures forall u :: u in users && u.uuid == caller.uuid && u.userId == caller.userId ==> u in Remaining(users, id)
  {
    forall u | u in users && u.uuid == caller.uuid && u.userId == caller.userId
      ensures u in Remaining(users, id)
    {
      Seqs.FilterExact(users, (v: User) => !MatchesId(v, id), u);
    }
  }

  /** A successful deletion removes exactly the target's row, and the number of
      Admins drops by one exactly when the target was an Admin; the last Admin
      is never removed. */
  lemma {:induction false} DeletionKeepsAnAdmin(users: seq<User>, caller: Option<User>, id: string)
    requires IdsUnique(users)
    requires DeleteDecision(users, caller, id).Deleted?
    ensures |Remaining(users, id)| == |users| - 1
    ensures DeleteDecision(users, caller, id).target !in Remaining(users, id)
    ensures AdminCount(Remaining(users, id)) ==
              AdminCount(users) - (if IsAdminUser(DeleteDecision(users, caller, id).target) then 1 else 0)
    ensures AdminCount(users) >= 1 ==> AdminCount(Remaining(users, id)) >= 1
  {
    var t := DeleteDecision(users, caller, id).target;
    var k :| 0 <= k < |users| && users[k] == t;
    RemovesExactlyOne(users, id, k);
    AdminCountWithout(users, k);
    Seqs.FilterExact(users, (u: User) => !MatchesId(u, id), t);
  }

  /** After a user's own code has been given a new hash, logging in under
      their name accepts the new password and refuses every other one. */
  lemma NewPasswordLogsIn(users: seq<User>, after: seq<User>, k: int, name: string, newPassword: string, salt: nat)
    requires UsernamesUnique(users) && IdsUnique(users)
    requires 0 <= k < |users| && |users[k].userId| != 36 && users[k].status == "Active"
    requires SameIgnoringCase(users[k].username, name)
    requires |after| == |users|
    requires forall i :: 0 <= i < |users| ==>
               after[i] == if MatchesId(users[i], users[k].userId)
                           then users[i].(passwordHash := HashPassword(newPassword, salt))
                           else users[i]
    ensures LoginDecision(after, name, newPassword) == LoggedIn(k)
    ensures forall p :: p != newPassword ==> LoginDecision(after, name, p) == WrongPassword(k)
  {
    CodeSelectsOne(users, k);
    assert forall i :: 0 <= i < |users| ==> after[i].username == users[i].username;
    UniqueNameIsFirst(after, k, name);
  }

  // ---------------------------------------------------------------------
  // Update

  /** The row `update_user` produces: username, role and status change when
      given and non-empty, the email whenever given (even empty). */
  function Patch(u: User, username: Option<string>, email: Option<string>, role: Option<string>, status: Option<string>): User
  {
    u.(username := if Truthy(username) then username.value else u.username,
       email := if email.Some? then email.value else u.email,
       role := if Truthy(role) then role else u.role,
       status := if Truthy(status) then status.value else u.status)
  }

  /** The uniqueness check of `update_user`: another row, by user code, already
      has the new name. */
  predicate NameClash(users: seq<User>, id: string, name: string)
  {
    exists i :: 0 <= i < |users| && users[i].userId != id && SameIgnoringCase(users[i].username, name)
  }

  /** An accepted update keeps usernames unique, provided ids are unique and
      no user code is 36 characters long (so a code never passes for a UUID). */
  lemma UpdateKeepsNamesUnique(users: seq<User>, after: seq<User>, id: string,
                               username: Option<string>, email: Option<string>, role: Option<string>, status: Option<string>)
    requires UsernamesUnique(users) && IdsUnique(users)
    requires forall i :: 0 <= i < |users| ==> |users[i].userId| != 36
    requires Truthy(username) ==> !NameClash(users, id, username.value)
    requires |after| == |users|
    requires forall i :: 0 <= i < |users| ==>
               after[i] == if MatchesId(users[i], id) then Patch(users[i], username, email, role, status) else users[i]
    ensures UsernamesUnique(after)
  {
    forall i, j | 0 <= i < j < |after|
      ensures !SameIgnoringCase(after[i].username, after[j].username)
    {
      DistinctRowsNotBothSelected(users, id, i, j);
      if MatchesId(users[i], id) {
        if Truthy(username) {
          assert users[j].userId != id;
        }
      } else if MatchesId(users[j], id) {
        if Truthy(username) {
          assert users[i].userId != id;
        }
      }
    }
  }

  /** Only the requested fields change, and the row's ids, hash and history are
      kept. */
  lemma PatchChangesOnlyRequested(u: User, username: Option<string>, email: Option<string>, role: Option<string>, status: Option<string>)
    ensures var p := Patch(u, username, email, role, status);
      && p.uuid == u.uuid && p.userId == u.userId && p.passwordHash == u.passwordHash
      && p.createdDate == u.createdDate && p.lastLogin == u.lastLogin && p.createdBy == u.createdBy && p.notes == u.notes
      && (p.username == u.username || Truthy(username))
      && (p.email == u.email || email.Some?)
      && (p.role == u.role || Truthy(role))
      && (p.status == u.status || Truthy(status))
  {
  }
}
