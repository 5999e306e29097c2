/** The role check of the sign-in layer: four roles ranked viewer < editor
    < manager < admin, any other role name ranking as a viewer, and a user
    allowed an action when their rank reaches the rank it requires.
    Passwords, sessions and the user table are not part of this model. */
module Auth {
  import opened Wrappers

  datatype Role = Viewer | Editor | Manager | Admin

  function RoleName(r: Role): string {
    match r
    case Viewer => "viewer"
    case Editor => "editor"
    case Manager => "manager"
    case Admin => "admin"
  }

  /** The role a name stands for, if any. */
  function ParseRole(name: string): (r: Option<Role>)
    ensures r.Some? ==> RoleName(r.value) == name
    ensures r.None? ==> forall role: Role :: RoleName(role) != name
  {
    if name == "viewer" then Some(Viewer)
    else if name == "editor" then Some(Editor)
    else if name == "manager" then Some(Manager)
    else if name == "admin" then Some(Admin)
    else
      assert forall role: Role :: RoleName(role) != name;
      None
  }

  lemma RoleRoundTrip(r: Role)
    ensures ParseRole(RoleName(r)) == Some(r)
  {
  }

  /** The role hierarchy as a table from names to ranks. */
  const Hierarchy: map<string, nat> := map["viewer" := 0, "editor" := 1, "manager" := 2, "admin" := 3]

  /** A role name's rank; an unknown name ranks 0. */
  function Level(name: string): nat {
    if name in Hierarchy then Hierarchy[name] else 0
  }

  /** The rank of a role, by its place in the order. */
  function Rank(r: Role): nat {
    match r
    case Viewer => 0
    case Editor => 1
    case Manager => 2
    case Admin => 3
  }

  /** The table agrees with the order: a known name ranks as its role, and
      an unknown one as a viewer. */
  lemma LevelIsRank(name: string)
    ensures ParseRole(name).Some? ==> Level(name) == Rank(ParseRole(name).value)
    ensures ParseRole(name).None? ==> Level(name) == Rank(Viewer)
  {
  }

  /** `check_permission` */
  predicate CheckPermission(userRole: string, requiredRole: string) {
    Level(userRole) >= Level(requiredRole)
  }

  /** For known roles the check is the order of the roles; an unknown
      required role is satisfied by everyone, and an unknown user role
      satisfies only what a viewer does. */
  lemma PermissionByRank(userRole: string, requiredRole: string)
    ensures ParseRole(userRole).Some? && ParseRole(requiredRole).Some? ==>
      (CheckPermission(userRole, requiredRole) <==> Rank(ParseRole(userRole).value) >= Rank(ParseRole(requiredRole).value))
    ensures ParseRole(requiredRole).None? ==> CheckPermission(userRole, requiredRole)
    ensures ParseRole(userRole).None? ==> (CheckPermission(userRole, requiredRole) <==> CheckPermission("viewer", requiredRole))
  {
    LevelIsRank(userRole);
    LevelIsRank(requiredRole);
  }

  /** The check is a total preorder with admin on top. */
  lemma PermissionPreorder(a: string, b: string, c: string)
    ensures CheckPermission(a, a)
    ensures CheckPermission(a, b) && CheckPermission(b, c) ==> CheckPermission(a, c)
    ensures CheckPermission(a, b) || CheckPermission(b, a)
    ensures CheckPermission("admin", a)
  {
  }

  /** What guarding a screen with a required role does. */
  datatype Gate = ShowLogin | Denied(message: string) | Allowed

  /** `require_auth`: no user signed in shows the login page; a user whose
      role does not reach the required one is refused with a message. */
  function RequireAuth(user: Option<string>, requiredRole: string): (g: Gate)
    ensures g.ShowLogin? <==> user.None?
    ensures g.Allowed? <==> user.Some? && CheckPermission(user.value, requiredRole)
    ensures g.Denied? ==> g.message == "Permission denied. " + requiredRole + " role required."
  {
    match user
    case None => ShowLogin
    case Some(role) =>
      if CheckPermission(role, requiredRole) then Allowed
      else Denied("Permission denied. " + requiredRole + " role required.")
  }
}
