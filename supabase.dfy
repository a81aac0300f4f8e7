/** The relational user store: the renaming of database columns to the legacy
    sheet headers, the translation of user updates back to columns, the
    "36 characters means a UUID" rule that decides which id column an
    operation addresses, and the user table with its activity log. */
module Supabase {
  import opened Text
  import opened Users
  import Records
  import Seqs

  // ---------------------------------------------------------------------
  // Column renaming (`_to_frontend_format`)

  /** Database column -> legacy sheet header. */
  const LegacyName: map<string, string> := map[
    "item_code" := "Item_ID",
    "user_code" := "User_ID",
    "transaction_code" := "Transaction_ID",
    "order_code" := "Order_ID",
    "supplier_code" := "Supplier_ID",
    "item_id" := "_uuid",
    "user_id" := "_user_uuid",
    "category" := "Category",
    "item_name" := "Item_Name",
    "description" := "Description",
    "sku" := "SKU",
    "quantity_in_stock" := "Quantity_In_Stock",
    "min_stock_level" := "Min_Stock_Level",
    "cost_price" := "Cost_Price",
    "selling_price" := "Selling_Price",
    "profit_margin" := "Profit_Margin",
    "date_added" := "Date_Added",
    "last_restocked" := "Last_Restocked",
    "username" := "Username",
    "email" := "Email",
    "password_hash" := "Password_Hash",
    "role" := "Role",
    "created_at" := "Created_Date",
    "last_login" := "Last_Login",
    "account_status" := "Account_Status",
    "notes" := "Notes"
  ]

  function Rename(key: string): string
  {
    if key in LegacyName then LegacyName[key] else key
  }

  /** Item i of a record is the last one written under its new name. */
  predicate LastWriter<V>(items: seq<(string, V)>, rename: string -> string, i: int)
    requires 0 <= i < |items|
  {
    forall j :: i < j < |items| ==> rename(items[j].0) != rename(items[i].0)
  }

  /** The record's items, in dictionary order, written into a fresh dictionary
      under their renamed keys. */
  function RenameKeys<V>(items: seq<(string, V)>, rename: string -> string): map<string, V>
  {
    if |items| == 0 then map[]
    else RenameKeys(items[..|items| - 1], rename)[rename(items[|items| - 1].0) := items[|items| - 1].1]
  }

  /** `_to_frontend_format` */
  function ToFrontendFormat<V>(items: seq<(string, V)>): map<string, V>
  {
    RenameKeys(items, Rename)
  }

  /** The renamed record has exactly the renamed keys. */
  lemma {:induction false} RenameKeysKeys<V>(items: seq<(string, V)>, rename: string -> string)
    ensures RenameKeys(items, rename).Keys == set i | 0 <= i < |items| :: rename(items[i].0)
  {
    if |items| > 0 {
      var init := items[..|items| - 1];
      var last := items[|items| - 1];
      RenameKeysKeys(init, rename);
      var keys := set i | 0 <= i < |items| :: rename(items[i].0);
      var initKeys := set i | 0 <= i < |init| :: rename(init[i].0);
      assert keys == initKeys + {rename(last.0)} by {
        forall k | k in keys ensures k in initKeys + {rename(last.0)} {
          var i :| 0 <= i < |items| && k == rename(items[i].0);
          if i < |init| { assert k == rename(init[i].0); }
        }
        forall k | k in initKeys ensures k in keys {
          var i :| 0 <= i < |init| && k == rename(init[i].0);
          assert k == rename(items[i].0);
        }
      }
    }
  }

  /** An item no later item overwrites keeps its value under its new name. */
  lemma {:induction false} RenameKeysValue<V>(items: seq<(string, V)>, rename: string -> string, i: int)
    requires 0 <= i < |items| && LastWriter(items, rename, i)
    ensures rename(items[i].0) in RenameKeys(items, rename)
    ensures RenameKeys(items, rename)[rename(items[i].0)] == items[i].1
  {
    if i < |items| - 1 {
      var init := items[..|items| - 1];
      assert init[i] == items[i];
      assert LastWriter(init, rename, i);
      RenameKeysValue(init, rename, i);
    }
  }

  /** The renamed record has exactly the renamed keys, and each key holds the
      value last written under it. */
  lemma RenameKeysContents<V>(items: seq<(string, V)>, rename: string -> string)
    ensures RenameKeys(items, rename).Keys == set i | 0 <= i < |items| :: rename(items[i].0)
    ensures forall i :: 0 <= i < |items| && LastWriter(items, rename, i) ==>
              RenameKeys(items, rename)[rename(items[i].0)] == items[i].1
  {
    RenameKeysKeys(items, rename);
    forall i | 0 <= i < |items| && LastWriter(items, rename, i)
      ensures RenameKeys(items, rename)[rename(items[i].0)] == items[i].1
    {
      RenameKeysValue(items, rename, i);
    }
  }

  /** A record whose keys land on distinct headers keeps every value under
      its new name. */
  lemma FrontendKeepsEveryValue<V>(items: seq<(string, V)>)
    requires forall i, j :: 0 <= i < j < |items| ==> Rename(items[i].0) != Rename(items[j].0)
    ensures ToFrontendFormat(items).Keys == set i | 0 <= i < |items| :: Rename(items[i].0)
    ensures forall i :: 0 <= i < |items| ==>
              Rename(items[i].0) in ToFrontendFormat(items) && ToFrontendFormat(items)[Rename(items[i].0)] == items[i].1
  {
    RenameKeysContents(items, Rename);
    forall i | 0 <= i < |items|
      ensures Rename(items[i].0) in ToFrontendFormat(items) && ToFrontendFormat(items)[Rename(items[i].0)] == items[i].1
    {
      assert LastWriter(items, Rename, i);
    }
  }

  /** The columns of the `users` table that a user row carries. */
  const UserTableColumns: set<string> := {"user_id", "user_code", "username", "email", "password_hash", "role",
                                           "created_at", "last_login", "account_status", "notes", "created_by"}

  /** The headers the user columns are read under. */
  lemma UserColumnsRenamed()
    ensures Rename("user_id") == "_user_uuid" && Rename("user_code") == "User_ID" && Rename("username") == "Username"
    ensures Rename("email") == "Email" && Rename("password_hash") == "Password_Hash" && Rename("role") == "Role"
    ensures Rename("created_at") == "Created_Date" && Rename("last_login") == "Last_Login"
    ensures Rename("account_status") == "Account_Status" && Rename("notes") == "Notes" && Rename("created_by") == "created_by"
  {
  }

  /** Distinct user columns are read under distinct headers. */
  lemma UserColumnsApart(a: string, b: string)
    requires a in UserTableColumns && b in UserTableColumns && a != b
    ensures Rename(a) != Rename(b)
  {
    UserColumnsRenamed();
  }

  /** `get_all_users`, one row: a row of the `users` table loses nothing in
      renaming; every column's value is read back under its header, and no
      other key appears. */
  lemma UserRowKeepsEveryValue<V>(items: seq<(string, V)>)
    requires forall i, j :: 0 <= i < j < |items| ==> items[i].0 != items[j].0
    requires forall i :: 0 <= i < |items| ==> items[i].0 in UserTableColumns
    ensures ToFrontendFormat(items).Keys == set i | 0 <= i < |items| :: Rename(items[i].0)
    ensures forall i :: 0 <= i < |items| ==>
              Rename(items[i].0) in ToFrontendFormat(items) && ToFrontendFormat(items)[Rename(items[i].0)] == items[i].1
  {
    forall i, j | 0 <= i < j < |items|
      ensures Rename(items[i].0) != Rename(items[j].0)
    {
      UserColumnsApart(items[i].0, items[j].0);
    }
    FrontendKeepsEveryValue(items);
  }

  /** `get_all_inventory`, one row: the joined supplier's name (or "Unknown"
      when the item has no supplier) is added as Supplier_Name before renaming. */
  function InventoryRecord(row: seq<(string, string)>, supplier: Option<string>): Records.Record
  {
    ToFrontendFormat(row + [("Supplier_Name", if supplier.Some? then supplier.value else "Unknown")])
  }

  lemma InventoryRecordSupplier(row: seq<(string, string)>, supplier: Option<string>)
    ensures "Supplier_Name" in InventoryRecord(row, supplier)
    ensures InventoryRecord(row, supplier)["Supplier_Name"] == if supplier.Some? then supplier.value else "Unknown"
  {
    var items := row + [("Supplier_Name", if supplier.Some? then supplier.value else "Unknown")];
    assert Rename("Supplier_Name") == "Supplier_Name";
    RenameKeysValue(items, Rename, |items| - 1);
  }

  // ---------------------------------------------------------------------
  // Update translation and insert row

  /** Frontend field -> users column, for the fields `update_user` translates. */
  const UserColumn: map<string, string> := map[
    "Username" := "username",
    "Email" := "email",
    "Role" := "role",
    "Account_Status" := "account_status",
    "Password_Hash" := "password_hash"
  ]

  /** The `db_updates` of `update_user`: the five translatable fields present in
      `updates`, under their column names; every other key is dropped. */
  function DbUserUpdates<V>(updates: map<string, V>): map<string, V>
  {
    var m0: map<string, V> := map[];
    var m1 := if "Username" in updates then m0["username" := updates["Username"]] else m0;
    var m2 := if "Email" in updates then m1["email" := updates["Email"]] else m1;
    var m3 := if "Role" in updates then m2["role" := updates["Role"]] else m2;
    var m4 := if "Account_Status" in updates then m3["account_status" := updates["Account_Status"]] else m3;
    if "Password_Hash" in updates then m4["password_hash" := updates["Password_Hash"]] else m4
  }

  /** The translation holds exactly the columns of the translatable fields
      present in the update. */
  lemma DbUserUpdatesKeys<V>(updates: map<string, V>)
    ensures DbUserUpdates(updates).Keys == set k | k in updates && k in UserColumn :: UserColumn[k]
  {
    var keys := set k | k in updates && k in UserColumn :: UserColumn[k];
    forall c | c in keys ensures c in DbUserUpdates(updates) {
      var k :| k in updates && k in UserColumn && c == UserColumn[k];
      DbUserUpdatesColumn(updates, k);
    }
    forall c | c in DbUserUpdates(updates) ensures c in keys {
      if c == "username" { assert UserColumn["Username"] == c; }
      else if c == "email" { assert UserColumn["Email"] == c; }
      else if c == "role" { assert UserColumn["Role"] == c; }
      else if c == "account_status" { assert UserColumn["Account_Status"] == c; }
      else { assert UserColumn["Password_Hash"] == c; }
    }
  }

  /** A translatable field's column is in the translation exactly when the
      field is in the update, and then holds the field's value unchanged. */
  lemma DbUserUpdatesColumn<V>(updates: map<string, V>, k: string)
    requires k in UserColumn
    ensures UserColumn[k] in DbUserUpdates(updates) <==> k in updates
    ensures k in updates ==> DbUserUpdates(updates)[UserColumn[k]] == updates[k]
  {
  }

  /** The row `add_user` inserts: six columns, the status always "Active". */
  datatype UserInsert = UserInsert(
    username: string, email: string, passwordHash: PasswordHash,
    role: Option<string>, accountStatus: string, notes: string)

  function UserInsertRow(user: User): UserInsert
  {
    UserInsert(user.username, user.email, user.passwordHash, user.role, "Active", user.notes)
  }

  /** The inserted row does not depend on the record's code, uuid, status,
      creator, creation date or last login: the database fills those in, and
      the status is "Active" whatever the input said. */
  lemma UserInsertIgnores(user: User, uuid: string, code: string, status: string,
                          createdBy: string, created: string, lastLogin: string)
    ensures UserInsertRow(user.(uuid := uuid, userId := code, status := status, createdBy := createdBy,
                                createdDate := created, lastLogin := lastLogin)) == UserInsertRow(user)
    ensures UserInsertRow(user).accountStatus == "Active"
  {
  }

  // ---------------------------------------------------------------------
  // Which id column an operation addresses

  datatype IdColumn = UuidColumn | CodeColumn

  /** `if user_id and len(user_id) == 36`: a 36-character id is taken for a
      UUID, anything else for a user code. */
  function ColumnFor(id: string): IdColumn
  {
    if |id| == 36 then UuidColumn else CodeColumn
  }

  /** The row is one that `.eq(<column>, id)` selects. */
  predicate MatchesId(user: User, id: string)
  {
    match ColumnFor(id)
    case UuidColumn => user.uuid == id
    case CodeColumn => user.userId == id
  }

  /** The first row with the given code. */
  function FirstWithCode(users: seq<User>, code: string): (r: Option<User>)
    ensures r.Some? ==> r.value in users && r.value.userId == code
    ensures r.None? ==> forall i :: 0 <= i < |users| ==> users[i].userId != code
  {
    if |users| == 0 then None
    else if users[0].userId == code then Some(users[0])
    else FirstWithCode(users[1..], code)
  }

  /** `get_user_by_id`: the first row the id selects. */
  function FindById(users: seq<User>, id: string): (r: Option<User>)
    ensures r.Some? ==> r.value in users && MatchesId(r.value, id)
    ensures r.None? ==> forall i :: 0 <= i < |users| ==> !MatchesId(users[i], id)
  {
    if |users| == 0 then None
    else if MatchesId(users[0], id) then Some(users[0])
    else FindById(users[1..], id)
  }

  /** `log_activity`'s actor: a 36-character id is used as the user's UUID, a
      "USR" code is looked up and replaced by that user's UUID (null when no
      user has it), and any other id is logged with a null user. */
  function ResolveActor(users: seq<User>, id: string): Option<string>
  {
    if |id| == 36 then Some(id)
    else if StartsWith(id, "USR") then
      var u := FirstWithCode(users, id);
      if u.Some? then Some(u.value.uuid) else None
    else None
  }

  lemma ResolveActorCases(users: seq<User>, id: string)
    ensures |id| == 36 ==> ResolveActor(users, id) == Some(id)
    ensures |id| != 36 && StartsWith(id, "USR") ==>
              (ResolveActor(users, id).Some? <==> exists i :: 0 <= i < |users| && users[i].userId == id)
    ensures |id| != 36 && StartsWith(id, "USR") && ResolveActor(users, id).Some? ==>
              exists i :: 0 <= i < |users| && users[i].userId == id && users[i].uuid == ResolveActor(users, id).value
    ensures |id| != 36 && !StartsWith(id, "USR") ==> ResolveActor(users, id).None?
  {
    if |id| != 36 && StartsWith(id, "USR") {
      var u := FirstWithCode(users, id);
      if u.Some? {
        var i :| 0 <= i < |users| && users[i] == u.value;
      }
    }
  }

  // ---------------------------------------------------------------------
  // The user table and the activity log

  /** A user-table row after `update_user`: the translated columns present in
      `db` replace the row's fields (the password-hash column is not sent by
      any caller of this model and is not applied). */
  function ApplyUserColumns(user: User, db: map<string, string>): User
  {
    user.(
      username := if "username" in db then db["username"] else user.username,
      email := if "email" in db then db["email"] else user.email,
      role := if "role" in db then Some(db["role"]) else user.role,
      status := if "account_status" in db then db["account_status"] else user.status)
  }

  /** The rows `delete_user` leaves: those the id does not select, in order. */
  function Remaining(users: seq<User>, id: string): seq<User>
  {
    Seqs.Filter(users, (u: User) => !MatchesId(u, id))
  }

  /** A `users` row as read back after `add_user` inserted `row`. */
  function StoredUser(row: UserInsert, uuid: string, code: string, now: string): User
  {
    User(uuid, code, row.username, row.email, row.passwordHash, row.role, now, "", row.accountStatus, "", row.notes)
  }

  /** An `activity_log` row: the resolved user UUID (null when unresolved). */
  datatype ActivityRow = ActivityRow(userId: Option<string>, action: string, details: string)

  /** The `users` and `activity_log` tables, held in memory. */
  class UserStore {
    var users: seq<User>
    var log: seq<ActivityRow>

    constructor (users: seq<User>)
      ensures this.users == users && log == []
    {
      this.users := users;
      log := [];
    }

    /** `get_user_by_id` */
    function GetUserById(id: string): Option<User>
      reads this
    {
      FindById(users, id)
    }

    /** `add_user`: the six inserted columns are stored; the uuid, the user
        code and the creation time are filled in by the database (they are
        parameters here), and the columns not inserted are empty. */
    method AddUser(user: User, uuid: string, code: string, now: string)
      modifies this
      ensures users == old(users) + [StoredUser(UserInsertRow(user), uuid, code, now)]
      ensures log == old(log)
    {
      users := users + [StoredUser(UserInsertRow(user), uuid, code, now)];
    }

    /** `update_user_status` */
    method UpdateUserStatus(id: string, status: string)
      modifies this
      ensures |users| == |old(users)|
      ensures forall i :: 0 <= i < |users| ==>
                users[i] == if MatchesId(old(users)[i], id) then old(users)[i].(status := status) else old(users)[i]
      ensures log == old(log)
    {
      users := seq(|users|, i requires 0 <= i < |users| reads this =>
                 if MatchesId(users[i], id) then users[i].(status := status) else users[i]);
    }

    /** `update_last_login` */
    method UpdateLastLogin(id: string, now: string)
      modifies this
      ensures |users| == |old(users)|
      ensures forall i :: 0 <= i < |users| ==>
                users[i] == if MatchesId(old(users)[i], id) then old(users)[i].(lastLogin := now) else old(users)[i]
      ensures log == old(log)
    {
      users := seq(|users|, i requires 0 <= i < |users| reads this =>
                 if MatchesId(users[i], id) then users[i].(lastLogin := now) else users[i]);
    }

    /** `log_activity`: one row appended, its user column holding the actor
        as `ResolveActor` resolves it against the current table. */
    method LogActivity(actor: string, action: string, details: string)
      modifies this
      ensures log == old(log) + [ActivityRow(ResolveActor(users, actor), action, details)]
      ensures users == old(users)
    {
      log := log + [ActivityRow(ResolveActor(users, actor), action, details)];
    }

    /** `update_user`: the translated columns applied to every selected row. */
    method UpdateUser(id: string, updates: map<string, string>)
      modifies this
      ensures |users| == |old(users)|
      ensures forall i :: 0 <= i < |users| ==>
                users[i] == if MatchesId(old(users)[i], id)
                            then ApplyUserColumns(old(users)[i], DbUserUpdates(updates))
                            else old(users)[i]
      ensures log == old(log)
    {
      var db := DbUserUpdates(updates);
      users := seq(|users|, i requires 0 <= i < |users| reads this =>
                 if MatchesId(users[i], id) then ApplyUserColumns(users[i], db) else users[i]);
    }

    /** `delete_user`: every selected row is removed, the others keep their order. */
    method DeleteUser(id: string)
      modifies this
      ensures users == Remaining(old(users), id)
      ensures log == old(log)
    {
      users := Remaining(users, id);
    }

    /** `update_user_password` */
    method UpdateUserPassword(id: string, hash: PasswordHash)
      modifies this
      ensures |users| == |old(users)|
      ensures forall i :: 0 <= i < |users| ==>
                users[i] == if MatchesId(old(users)[i], id) then old(users)[i].(passwordHash := hash) else old(users)[i]
      ensures log == old(log)
    {
      users := seq(|users|, i requires 0 <= i < |users| reads this =>
                 if MatchesId(users[i], id) then users[i].(passwordHash := hash) else users[i]);
    }
  }
}
