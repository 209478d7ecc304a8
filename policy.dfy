/**
 * The policy service as the application sees it: a set of role grants on
 * resource instances `workspace:<id>`, and the `check` decision that the
 * role table of the migration script induces on them.
 */
module Policy {
  import opened PermitMigration

  type UserId = string
  type WorkspaceId = string

  /** A role assignment `(user, resource instance, role)` in the default tenant. */
  datatype Grant = Grant(user: UserId, resource: string, role: Role)

  /** The error every action returns when the policy service refuses. */
  const PermissionDenied: string := "Permission denied"

  const WorkspacePrefix: string := "workspace:"

  /** The resource-instance key of a workspace. */
  function WorkspaceResource(ws: WorkspaceId): (key: string)
    ensures WorkspacePrefix <= key
  {
    WorkspacePrefix + ws
  }

  lemma WorkspaceResourceInjective(a: WorkspaceId, b: WorkspaceId)
    requires WorkspaceResource(a) == WorkspaceResource(b)
    ensures a == b
  {
    assert a == WorkspaceResource(a)[|WorkspacePrefix|..];
    assert b == WorkspaceResource(b)[|WorkspacePrefix|..];
  }

  /**
   * `check(user, action, {type: "workspace", key: ws})`: some role the user
   * holds on that workspace instance carries the action.
   */
  predicate Check(grants: set<Grant>, user: UserId, action: Action, ws: WorkspaceId): (allowed: bool)
    ensures action == Read ==>
              (allowed <==> exists g | g in grants :: g.user == user && g.resource == WorkspaceResource(ws))
    ensures action == Delete ==> (allowed <==> Grant(user, WorkspaceResource(ws), Owner) in grants)
  {
    exists g | g in grants :: g.user == user && g.resource == WorkspaceResource(ws) && Allowed(g.role, action)
  }

  /** A tenant-wide role assignment in the default tenant, as sign-up makes for every new user. */
  datatype TenantGrant = TenantGrant(user: UserId, role: TenantRole)

  predicate HasTenantRole(tenantGrants: set<TenantGrant>, user: UserId)
  {
    exists t | t in tenantGrants :: t.user == user
  }

  /**
   * `check` as the policy service decides it: the `workspace` permissions
   * of a tenant-wide role apply to every workspace of the tenant, so tenant
   * roles count beside the roles held on the workspace instance.
   */
  predicate CheckDeployed(grants: set<Grant>, tenantGrants: set<TenantGrant>, user: UserId,
                          action: Action, ws: WorkspaceId): (allowed: bool)
    ensures HasTenantRole(tenantGrants, user) ==> allowed
    ensures !HasTenantRole(tenantGrants, user) ==> (allowed <==> Check(grants, user, action, ws))
  {
    TenantRolesAllowEverything();
    || Check(grants, user, action, ws)
    || exists t | t in tenantGrants :: t.user == user && action in TenantPermissions(t.role)
  }

  /**
   * As deployed, a signed-up user who holds the tenant role "user" and no
   * role on a workspace passes the `create` check on it.
   */
  lemma TenantUserPassesWithoutGrant()
    ensures !Check({}, "u", Create, "w")
    ensures CheckDeployed({}, {TenantGrant("u", Member)}, "u", Create, "w")
  {
  }

  /** A holder of a role on a workspace is allowed everything the role table lists for it there. */
  lemma CheckByRole(grants: set<Grant>, user: UserId, ws: WorkspaceId, r: Role, a: Action)
    requires Grant(user, WorkspaceResource(ws), r) in grants
    ensures Allowed(r, a) ==> Check(grants, user, a, ws)
  {
    if Allowed(r, a) {
      var g := Grant(user, WorkspaceResource(ws), r);
      assert g in grants && Allowed(g.role, a);
    }
  }

  /**
   * A user whose only role on a workspace is `r` is allowed there exactly
   * what the role table lists for `r`, and nothing else, by the instance
   * roles; as deployed, that holds only for a user without a tenant role.
   */
  lemma CheckSingleRole(grants: set<Grant>, tenantGrants: set<TenantGrant>, user: UserId, ws: WorkspaceId,
                        r: Role, a: Action)
    requires Grant(user, WorkspaceResource(ws), r) in grants
    requires forall g | g in grants && g.user == user && g.resource == WorkspaceResource(ws) :: g.role == r
    ensures Check(grants, user, a, ws) <==> Allowed(r, a)
    ensures !HasTenantRole(tenantGrants, user) ==> (CheckDeployed(grants, tenantGrants, user, a, ws) <==> Allowed(r, a))
  {
    if Allowed(r, a) {
      CheckByRole(grants, user, ws, r, a);
    }
  }

  /**
   * Without any grant on the workspace every action is denied by the
   * instance roles, and as deployed when the user holds no tenant role.
   */
  lemma NoGrantNoAccess(grants: set<Grant>, tenantGrants: set<TenantGrant>, user: UserId, ws: WorkspaceId, a: Action)
    requires forall g | g in grants :: g.user != user || g.resource != WorkspaceResource(ws)
    ensures !Check(grants, user, a, ws)
    ensures !HasTenantRole(tenantGrants, user) ==> !CheckDeployed(grants, tenantGrants, user, a, ws)
  {
  }
}
