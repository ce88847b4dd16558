/**
 * The front end's role-based permissions: a fixed table from role names to the
 * permissions they grant, and the check whether any of a user's roles grants a
 * permission.
 */
module Permissions {
  import opened Wrappers

  datatype Permission =
    | ProjectView | ProjectCreate | ProjectEdit | ProjectDelete | Build
    | Deploy | TargetManage | Monitor | AdminUsers | AdminSystem

  /** The permission's name in the front end. */
  function Name(p: Permission): string
  {
    match p
    case ProjectView => "project:view"
    case ProjectCreate => "project:create"
    case ProjectEdit => "project:edit"
    case ProjectDelete => "project:delete"
    case Build => "build"
    case Deploy => "deploy"
    case TargetManage => "target:manage"
    case Monitor => "monitor"
    case AdminUsers => "admin:users"
    case AdminSystem => "admin:system"
  }

  /**
   * `rolePermissions`: exactly the five defined roles have an entry, each of them
   * lists project view and monitor, and `admin` lists every permission, the two
   * administration permissions included, which no other role lists.
   */
  function RolePermissions(role: string): (r: Option<seq<Permission>>)
    ensures r.Some? <==> role in DefinedRoles
    ensures r.Some? ==> ProjectView in r.value && Monitor in r.value
    ensures role == "admin" ==> r.Some? && forall p: Permission :: p in r.value
    ensures r.Some? && (AdminUsers in r.value || AdminSystem in r.value) ==> role == "admin"
  {
    if role == "viewer" then Some([ProjectView, Monitor])
    else if role == "editor" then Some([ProjectView, ProjectEdit, Monitor])
    else if role == "builder" then Some([ProjectView, ProjectEdit, Build, Monitor])
    else if role == "deployer" then Some([ProjectView, ProjectEdit, Build, Deploy, Monitor, TargetManage])
    else if role == "admin" then
      EveryPermissionListed();
      Some(AllPermissions)
    else None
  }

  /** The admin entry: every permission, in the table's order. */
  const AllPermissions: seq<Permission> :=
    [ProjectView, ProjectCreate, ProjectEdit, ProjectDelete, Build, Deploy, TargetManage, Monitor, AdminUsers, AdminSystem]

  lemma EveryPermissionListed()
    ensures forall p: Permission :: p in AllPermissions
  {
    forall p: Permission ensures p in AllPermissions {
      match p
      case ProjectView => case ProjectCreate => case ProjectEdit => case ProjectDelete => case Build =>
      case Deploy => case TargetManage => case Monitor => case AdminUsers => case AdminSystem =>
    }
  }

  const DefinedRoles: seq<string> := ["viewer", "editor", "builder", "deployer", "admin"]

  /** Whether one role's table entry lists the permission. */
  predicate Grants(role: string, permission: Permission)
  {
    RolePermissions(role).Some? && permission in RolePermissions(role).value
  }

  /** `hasPermission`: some role of the list grants the permission. */
  function HasPermission(roles: seq<string>, permission: Permission): (r: bool)
    ensures r <==> exists i :: 0 <= i < |roles| && Grants(roles[i], permission)
    decreases |roles|
  {
    if |roles| == 0 then false
    else
      assert forall i :: 1 <= i < |roles| ==> roles[i] == roles[1..][i - 1];
      Grants(roles[0], permission) || HasPermission(roles[1..], permission)
  }

  /** No role, or only roles the table does not define, grants nothing. */
  lemma UnknownRolesGrantNothing(roles: seq<string>, permission: Permission)
    requires forall i :: 0 <= i < |roles| ==> RolePermissions(roles[i]).None?
    ensures !HasPermission(roles, permission)
  {
  }

  /** An admin has every permission. */
  lemma AdminHasAll(roles: seq<string>, permission: Permission)
    requires "admin" in roles
    ensures HasPermission(roles, permission)
  {
    var i :| 0 <= i < |roles| && roles[i] == "admin";
    assert Grants(roles[i], permission);
  }

  /** More roles never take a permission away. */
  lemma Monotone(roles: seq<string>, more: seq<string>, permission: Permission)
    requires forall r :: r in roles ==> r in more
    ensures HasPermission(roles, permission) ==> HasPermission(more, permission)
  {
    if HasPermission(roles, permission) {
      var i :| 0 <= i < |roles| && Grants(roles[i], permission);
      assert roles[i] in more;
      var j :| 0 <= j < |more| && more[j] == roles[i];
    }
  }

  /** Creating and deleting projects and both admin permissions belong to admins alone. */
  lemma AdminOnly(role: string, permission: Permission)
    requires permission in {ProjectCreate, ProjectDelete, AdminUsers, AdminSystem}
    ensures Grants(role, permission) <==> role == "admin"
  {
  }

  /** Deploying and managing targets belong to deployers and admins alone. */
  lemma DeployerOrAdminOnly(role: string, permission: Permission)
    requires permission in {Deploy, TargetManage}
    ensures Grants(role, permission) <==> role == "deployer" || role == "admin"
  {
  }
}
