/** Roles and the fixed role -> permission table that guards every privileged
    operation of the inventory system. */
module Permissions {
  import opened Text
  import opened Users

  const RoleAdmin := "Admin"
  const RoleStaff := "Staff"

  const PermAddItem := "add_item"
  const PermEditItem := "edit_item"
  const PermDeleteItem := "delete_item"
  const PermRestock := "restock"
  const PermManageUsers := "manage_users"
  const PermViewReports := "view_reports"

  /** `ROLE_PERMISSIONS` */
  const RolePermissions: map<string, seq<string>> := map[
    RoleAdmin := [PermAddItem, PermEditItem, PermDeleteItem, PermRestock, PermManageUsers, PermViewReports],
    RoleStaff := [PermAddItem, PermEditItem, PermRestock, PermViewReports]
  ]

  /** `check_permission`: no user, a user without a role, or a role missing
      from the table has no permission at all. */
  predicate CheckPermission(user: Option<User>, permission: string)
  {
    if user.None? || user.value.role.None? then false
    else
      var allowed := if user.value.role.value in RolePermissions then RolePermissions[user.value.role.value] else [];
      permission in allowed
  }

  /** `not admin_user or admin_user.get("Role") != ROLE_ADMIN`, negated. */
  predicate IsAdmin(caller: Option<User>)
  {
    caller.Some? && caller.value.role == Some(RoleAdmin)
  }

  /** Admin holds all six permissions, Staff exactly four of them, and every
      other caller none. */
  lemma PermissionTable(user: User, permission: string)
    ensures user.role == Some(RoleAdmin) ==>
              (CheckPermission(Some(user), permission) <==>
               permission in {PermAddItem, PermEditItem, PermDeleteItem, PermRestock, PermManageUsers, PermViewReports})
    ensures user.role == Some(RoleStaff) ==>
              (CheckPermission(Some(user), permission) <==>
               permission in {PermAddItem, PermEditItem, PermRestock, PermViewReports})
    ensures user.role.None? || user.role.value !in {RoleAdmin, RoleStaff} ==> !CheckPermission(Some(user), permission)
    ensures !CheckPermission(None, permission)
  {
  }

  /** Deleting items and managing users are the two Admin-only permissions. */
  lemma AdminOnlyPermissions(user: User)
    ensures CheckPermission(Some(user), PermDeleteItem) ==> user.role == Some(RoleAdmin)
    ensures CheckPermission(Some(user), PermManageUsers) ==> user.role == Some(RoleAdmin)
  {
  }
}
