/** Authorization: the checks made by the `role_required` and
    `permission_required` decorators, `get_current_user`, and the inline
    Admin/Manager check the route handlers repeat. The principal is the
    user id carried by the access token. */
module Decorators {
  import opened Common
  import opened Models

  const Admin: string := "Admin"
  const Manager: string := "Manager"

  /** get_current_user: the user whose id is the token identity, if any. */
  function GetCurrentUser(users: map<Id, User>, uid: Id): (r: Option<User>)
    ensures r.Some? <==> uid in users
    ensures r.Some? ==> r.value == users[uid]
  {
    if uid in users then Some(users[uid]) else None
  }

  /** `current_user.role_ref.name`, or None when the user or the role record is missing. */
  function RoleNameOf(users: map<Id, User>, roles: map<Id, Role>, uid: Id): (r: Option<string>)
    ensures r.Some? <==> uid in users && users[uid].roleId in roles
    ensures r.Some? ==> r.value == roles[users[uid].roleId].name
  {
    match GetCurrentUser(users, uid)
    case None => None
    case Some(u) => if u.roleId in roles then Some(roles[u.roleId].name) else None
  }

  /** role_required(*allowed): user, then role, then role name. */
  function RoleRequired(users: map<Id, User>, roles: map<Id, Role>, uid: Id, allowed: set<string>): (r: Result<User, Error>)
    ensures r == Err(UserNotFound) <==> uid !in users
    ensures r == Err(NoRoleAssigned) <==> uid in users && users[uid].roleId !in roles
    ensures r.Ok? <==> RoleNameOf(users, roles, uid).Some? && RoleNameOf(users, roles, uid).value in allowed
    ensures r.Ok? ==> r.value == users[uid]
    ensures r.Err? ==> r.error in {UserNotFound, NoRoleAssigned, InsufficientPermissions}
  {
    if uid !in users then Err(UserNotFound)
    else if users[uid].roleId !in roles then Err(NoRoleAssigned)
    else if roles[users[uid].roleId].name !in allowed then Err(InsufficientPermissions)
    else Ok(users[uid])
  }

  /** `permissions.get(p, False)` is truthy, where a NULL or empty column reads as `{}`. */
  predicate Granted(permissions: Option<Permissions>, p: string) {
    var m := permissions.GetOr(map[]);
    p in m && Truthy(m[p])
  }

  /** permission_required(p): user, then role, then the permission flag. */
  function PermissionRequired(users: map<Id, User>, roles: map<Id, Role>, uid: Id, p: string): (r: Result<User, Error>)
    ensures r == Err(UserNotFound) <==> uid !in users
    ensures r == Err(NoRoleAssigned) <==> uid in users && users[uid].roleId !in roles
    ensures r.Ok? <==> uid in users && users[uid].roleId in roles
                       && var perms := roles[users[uid].roleId].permissions;
                          perms.Some? && p in perms.value && Truthy(perms.value[p])
    ensures r.Ok? ==> r.value == users[uid]
    ensures r.Err? ==> r.error in {UserNotFound, NoRoleAssigned, PermissionMissing(p)}
  {
    if uid !in users then Err(UserNotFound)
    else if users[uid].roleId !in roles then Err(NoRoleAssigned)
    else if !Granted(roles[users[uid].roleId].permissions, p) then Err(PermissionMissing(p))
    else Ok(users[uid])
  }

  /** The inline check `current_user.role_ref.name not in ['Admin', 'Manager']`. A
      missing user or role raises AttributeError there, which the handler turns into a 500. */
  function StaffGate(users: map<Id, User>, roles: map<Id, Role>, uid: Id): (r: Result<User, Error>)
    ensures r == Err(Internal) <==> RoleNameOf(users, roles, uid).None?
    ensures r.Ok? <==> RoleNameOf(users, roles, uid) in {Some(Admin), Some(Manager)}
    ensures r.Ok? ==> r.value == users[uid]
    ensures r.Err? ==> r.error in {Internal, InsufficientPermissions}
  {
    match RoleNameOf(users, roles, uid)
    case None => Err(Internal)
    case Some(name) => if name == Admin || name == Manager then Ok(users[uid]) else Err(InsufficientPermissions)
  }

  /** The inline check and `role_required('Admin', 'Manager')` admit exactly the same principals;
      they differ only in how a missing user or role is reported. */
  lemma StaffGateAgreesWithRoleRequired(users: map<Id, User>, roles: map<Id, Role>, uid: Id)
    ensures StaffGate(users, roles, uid).Ok? <==> RoleRequired(users, roles, uid, {Admin, Manager}).Ok?
    ensures StaffGate(users, roles, uid) == Err(InsufficientPermissions)
            <==> RoleRequired(users, roles, uid, {Admin, Manager}) == Err(InsufficientPermissions)
  {
  }

  /** A role whose permission column is NULL or empty passes no permission check. */
  lemma MissingPermissionsDenyAll(users: map<Id, User>, roles: map<Id, Role>, uid: Id, p: string)
    requires uid in users && users[uid].roleId in roles
    requires roles[users[uid].roleId].permissions.None?
    ensures PermissionRequired(users, roles, uid, p) == Err(PermissionMissing(p))
  {
  }
}
