/**
 * The workspace share registry: the server actions that add, revoke,
 * update and list the shares of a workspace. Each action keeps two stores
 * in step: the `workspace_shares` table and the policy service's role
 * grants. Calls to the policy service and writes to the table may fail;
 * their outcomes are inputs of the actions.
 */
module WorkspaceShares {
  import opened Wrappers
  import opened PermitMigration
  import opened Policy
  import opened Text

  /** The roles a share row may carry; ownership is never a share. */
  type ShareRole = r: Role | r != Owner witness Viewer

  /** The order in which revoke and update unassign the share roles. */
  const UnassignOrder: seq<ShareRole> := [Viewer, Reviewer, Editor]

  /** The unique key of `workspace_shares`. */
  datatype ShareKey = ShareKey(workspaceId: WorkspaceId, sharedUserId: UserId)

  /** The answer to one assign or unassign call: success, HTTP 404, or any other failure. */
  datatype CallOutcome = Ok | NotFound | Failed

  /** `{ success: true }` or `{ error: message }`. */
  datatype ActionResult = Done | Error(message: string)

  const Unauthorized: string := "Unauthorized"
  const ShareLimitReached: string := "Maximum share limit (5) reached"
  const UserNotFound: string := "User not found"
  const ShareExists: string := "Share already exists"
  const CreateShareFailed: string := "Failed to create share"
  const AssignRoleFailed: string := "Failed to assign role"
  const RevokeShareFailed: string := "Failed to revoke share"
  const UpdateShareFailed: string := "Failed to update share"
  const UpdateRoleFailed: string := "Failed to update role"
  const FetchSharesFailed: string := "Failed to fetch shares"
  const FetchSharedWorkspacesFailed: string := "Failed to fetch shared workspaces"

  /** The largest number of shares a workspace may hold. */
  const MaxShares: nat := 5

  // ---------------------------------------------------------------------
  // checkIsOwner

  /** One entry of the policy service's `getUserPermissions` answer. */
  datatype ResourcePermissions = ResourcePermissions(roles: set<string>)

  /**
   * `getUserPermissions(user, resources)`: for each listed resource on
   * which the user holds some role, the keys of those roles.
   */
  function UserPermissions(grants: set<Grant>, user: UserId, resources: seq<string>): map<string, ResourcePermissions>
  {
    map key | key in resources && (exists g | g in grants :: g.user == user && g.resource == key)
      :: ResourcePermissions(set g | g in grants && g.user == user && g.resource == key :: RoleName(g.role))
  }

  /** `checkIsOwner`: the entry for `workspace:<id>` lists "owner"; a missing entry is false. */
  predicate CheckIsOwner(perms: map<string, ResourcePermissions>, ws: WorkspaceId): (isOwner: bool)
    ensures WorkspaceResource(ws) !in perms ==> !isOwner
    ensures isOwner ==> "owner" in perms[WorkspaceResource(ws)].roles
  {
    var key := WorkspaceResource(ws);
    key in perms && "owner" in perms[key].roles
  }

  lemma IsOwnerExactly(grants: set<Grant>, user: UserId, ws: WorkspaceId)
    ensures CheckIsOwner(UserPermissions(grants, user, [WorkspaceResource(ws)]), ws)
            <==> Grant(user, WorkspaceResource(ws), Owner) in grants
  {
  }

  // ---------------------------------------------------------------------
  // The two unassign sequences

  /**
   * Revoke's unassign sequence: the roles are unassigned in order inside
   * one try block, so the first call that does not succeed (a 404
   * included) ends the sequence.
   */
  function UnassignUntilFailure(grants: set<Grant>, user: UserId, resource: string,
                                roles: seq<ShareRole>, unassign: ShareRole -> CallOutcome): (g: set<Grant>)
    ensures g <= grants
    ensures forall x | x in grants - g :: x.user == user && x.resource == resource && x.role in roles
    decreases |roles|
  {
    if roles == [] || !unassign(roles[0]).Ok? then grants
    else UnassignUntilFailure(grants - {Grant(user, resource, roles[0])}, user, resource, roles[1..], unassign)
  }

  /**
   * Update's unassign sequence: a 404 answer is skipped, any other failure
   * aborts the sequence. The second component says whether it aborted.
   */
  function UnassignSkippingNotFound(grants: set<Grant>, user: UserId, resource: string,
                                    roles: seq<ShareRole>, unassign: ShareRole -> CallOutcome): (res: (set<Grant>, bool))
    ensures res.0 <= grants
    ensures forall x | x in grants - res.0 :: x.user == user && x.resource == resource && x.role in roles
    ensures res.1 <==> exists i :: 0 <= i < |roles| && unassign(roles[i]).Failed?
    decreases |roles|
  {
    if roles == [] then (grants, false)
    else
      var rest := roles[1..];
      assert forall i :: 0 < i < |roles| ==> roles[i] == rest[i - 1];
      match unassign(roles[0])
      case Failed => (grants, true)
      case NotFound => UnassignSkippingNotFound(grants, user, resource, rest, unassign)
      case Ok => UnassignSkippingNotFound(grants - {Grant(user, resource, roles[0])}, user, resource, rest, unassign)
  }

  /** The policy service answers 404 only for a role the user does not hold. */
  ghost predicate Truthful404(grants: set<Grant>, user: UserId, resource: string,
                              roles: seq<ShareRole>, unassign: ShareRole -> CallOutcome)
  {
    forall i :: 0 <= i < |roles| && unassign(roles[i]).NotFound? ==> Grant(user, resource, roles[i]) !in grants
  }

  /**
   * Skipping 404 answers is what makes the sequence complete: unless a call
   * fails outright, none of the roles remains granted afterwards.
   */
  lemma {:induction false} SkippingNotFoundClears(grants: set<Grant>, user: UserId, resource: string,
                                                  roles: seq<ShareRole>, unassign: ShareRole -> CallOutcome)
    requires Truthful404(grants, user, resource, roles, unassign)
    requires !UnassignSkippingNotFound(grants, user, resource, roles, unassign).1
    ensures forall i :: 0 <= i < |roles| ==>
              Grant(user, resource, roles[i]) !in UnassignSkippingNotFound(grants, user, resource, roles, unassign).0
    decreases |roles|
  {
    if roles != [] {
      var rest := roles[1..];
      var g0 := Grant(user, resource, roles[0]);
      var next := if unassign(roles[0]).Ok? then grants - {g0} else grants;
      assert Truthful404(next, user, resource, rest, unassign) by {
        forall i | 0 <= i < |rest| && unassign(rest[i]).NotFound?
          ensures Grant(user, resource, rest[i]) !in next
        {
          assert rest[i] == roles[i + 1];
        }
      }
      SkippingNotFoundClears(next, user, resource, rest, unassign);
      forall i | 0 <= i < |roles|
        ensures Grant(user, resource, roles[i]) !in UnassignSkippingNotFound(grants, user, resource, roles, unassign).0
      {
        if i > 0 {
          assert roles[i] == rest[i - 1];
        }
      }
    }
  }

  /**
   * Revoke as written: a user who holds the editor role, for whom the
   * policy service truthfully answers 404 to the viewer unassign, keeps the
   * editor grant, and with it the `create` permission on the workspace.
   */
  lemma RevokeAfterNotFoundKeepsEditor()
    ensures var resource := WorkspaceResource("w");
            var grants := {Grant("u", resource, Editor)};
            var unassign := (r: ShareRole) => if r == Editor then Ok else NotFound;
            var after := UnassignUntilFailure(grants, "u", resource, UnassignOrder, unassign);
            && Truthful404(grants, "u", resource, UnassignOrder, unassign)
            && after == grants
            && Check(after, "u", Create, "w")
  {
  }

  /** The same revoke with 404 answers skipped removes the editor grant and the permission. */
  lemma RevokeSkippingNotFoundDropsEditor()
    ensures var resource := WorkspaceResource("w");
            var grants := {Grant("u", resource, Editor)};
            var unassign := (r: ShareRole) => if r == Editor then Ok else NotFound;
            var after := UnassignSkippingNotFound(grants, "u", resource, UnassignOrder, unassign);
            && !after.1
            && after.0 == {}
            && !Check(after.0, "u", Create, "w")
  {
  }

  /** Revoke's sequence stops at the first unsuccessful call: a 404 on viewer unassigns nothing. */
  lemma {:induction false} UnassignUntilFailureStopsEarly(grants: set<Grant>, user: UserId, resource: string,
                                                          unassign: ShareRole -> CallOutcome)
    requires !unassign(Viewer).Ok?
    ensures UnassignUntilFailure(grants, user, resource, UnassignOrder, unassign) == grants
  {
  }

  /** The grants of `roles` for one user on one resource. */
  function RoleGrants(user: UserId, resource: string, roles: seq<ShareRole>): (gs: set<Grant>)
    ensures forall r | r in roles :: Grant(user, resource, r) in gs
  {
    set r | r in roles :: Grant(user, resource, r)
  }

  /**
   * Revoke's sequence removes exactly the grants of the roles before the
   * first unsuccessful call (or of all roles when every call succeeds).
   */
  lemma {:induction false} UnassignUntilFailureRemovesPrefix(grants: set<Grant>, user: UserId, resource: string,
                                                             roles: seq<ShareRole>, unassign: ShareRole -> CallOutcome,
                                                             i: nat)
    requires i <= |roles|
    requires forall j :: 0 <= j < i ==> unassign(roles[j]).Ok?
    requires i < |roles| ==> !unassign(roles[i]).Ok?
    ensures UnassignUntilFailure(grants, user, resource, roles, unassign) == grants - RoleGrants(user, resource, roles[..i])
    decreases |roles|
  {
    if i == 0 {
      assert roles[..0] == [];
    } else {
      var rest := roles[1..];
      var g0 := Grant(user, resource, roles[0]);
      forall j | 0 <= j < i - 1
        ensures unassign(rest[j]).Ok?
      {
        assert rest[j] == roles[j + 1];
      }
      if i - 1 < |rest| {
        assert rest[i - 1] == roles[i];
      }
      UnassignUntilFailureRemovesPrefix(grants - {g0}, user, resource, rest, unassign, i - 1);
      assert roles[..i] == [roles[0]] + rest[..i - 1];
      assert RoleGrants(user, resource, roles[..i]) == {g0} + RoleGrants(user, resource, rest[..i - 1]);
    }
  }

  /** When every unassign succeeds, revoke's sequence leaves none of the roles granted. */
  lemma {:induction false} AllUnassignsOkClears(grants: set<Grant>, user: UserId, resource: string,
                             roles: seq<ShareRole>, unassign: ShareRole -> CallOutcome)
    requires forall j :: 0 <= j < |roles| ==> unassign(roles[j]).Ok?
    ensures forall j :: 0 <= j < |roles| ==>
              Grant(user, resource, roles[j]) !in UnassignUntilFailure(grants, user, resource, roles, unassign)
    ensures UnassignUntilFailure(grants, user, resource, roles, unassign) == grants - RoleGrants(user, resource, roles)
  {
    UnassignUntilFailureRemovesPrefix(grants, user, resource, roles, unassign, |roles|);
    assert roles[..|roles|] == roles;
  }

  /** Every share row is backed by the matching grant in the policy service. */
  ghost predicate Backed(shares: map<ShareKey, ShareRole>, grants: set<Grant>)
  {
    forall k | k in shares :: Grant(k.sharedUserId, WorkspaceResource(k.workspaceId), shares[k]) in grants
  }

  /** Withdrawing grants of one user on one workspace leaves the other rows backed. */
  lemma BackedAfterUnassign(shares: map<ShareKey, ShareRole>, before: set<Grant>, after: set<Grant>,
                            user: UserId, ws: WorkspaceId)
    requires Backed(shares, before)
    requires forall x | x in before - after :: x.user == user && x.resource == WorkspaceResource(ws)
    requires ShareKey(ws, user) !in shares
    ensures Backed(shares, after)
  {
    forall k | k in shares
      ensures Grant(k.sharedUserId, WorkspaceResource(k.workspaceId), shares[k]) in after
    {
      if WorkspaceResource(k.workspaceId) == WorkspaceResource(ws) {
        WorkspaceResourceInjective(k.workspaceId, ws);
      }
    }
  }

  /**
   * Rewriting one user's row with a new role, withdrawing only that user's
   * grants on the workspace and then granting the new role keeps every row
   * backed.
   */
  lemma BackedAfterUpdate(before: map<ShareKey, ShareRole>, updated: map<ShareKey, ShareRole>,
                          grantsBefore: set<Grant>, grantsAfter: set<Grant>,
                          user: UserId, ws: WorkspaceId, newRole: ShareRole)
    requires Backed(before, grantsBefore)
    requires forall x | x in grantsBefore - grantsAfter :: x.user == user && x.resource == WorkspaceResource(ws)
    requires updated == if ShareKey(ws, user) in before then before[ShareKey(ws, user) := newRole] else before
    ensures Backed(updated, grantsAfter + {Grant(user, WorkspaceResource(ws), newRole)})
  {
    var key := ShareKey(ws, user);
    BackedAfterUnassign(before - {key}, grantsBefore, grantsAfter, user, ws);
  }

  // ---------------------------------------------------------------------
  // The registry

  class ShareRegistry {
    /** The `workspace_shares` table: one role per (workspace, shared user). */
    var shares: map<ShareKey, ShareRole>
    /** The policy service's role grants. */
    var grants: set<Grant>
    /** The `users` table, email to user id. */
    var users: map<string, UserId>

    constructor (shares0: map<ShareKey, ShareRole>, grants0: set<Grant>, users0: map<string, UserId>)
      ensures shares == shares0 && grants == grants0 && users == users0
    {
      shares := shares0;
      grants := grants0;
      users := users0;
    }

    /** The rows of one workspace; their number is what the count query returns. */
    function SharesOf(ws: WorkspaceId): set<ShareKey>
      reads this
    {
      set k | k in shares && k.workspaceId == ws
    }

    /** The rows that share some workspace with `user`. */
    function SharedWith(user: UserId): set<ShareKey>
      reads this
    {
      set k | k in shares && k.sharedUserId == user
    }

    /** The authentication and ownership gate every mutating action opens with. */
    predicate OwnerGate(caller: Option<UserId>, ws: WorkspaceId)
      reads this
    {
      caller.Some? && CheckIsOwner(UserPermissions(grants, caller.value, [WorkspaceResource(ws)]), ws)
    }

    /** Every share row is backed by the matching grant in the policy service. */
    ghost predicate Mirrored()
      reads this
    {
      Backed(shares, grants)
    }

    /** `addWorkspaceShare`. */
    method AddWorkspaceShare(caller: Option<UserId>, ws: WorkspaceId, userEmail: string, role: ShareRole,
                             userLookupFails: bool, shareLookupFails: bool, insertFails: bool,
                             assign: CallOutcome) returns (r: ActionResult)
      modifies this
      ensures users == old(users)
      ensures caller.None? ==> r == Error(Unauthorized)
      ensures caller.Some? && !old(OwnerGate(caller, ws)) ==> r == Error(PermissionDenied)
      ensures old(OwnerGate(caller, ws)) && |old(SharesOf(ws))| >= MaxShares ==> r == Error(ShareLimitReached)
      ensures old(OwnerGate(caller, ws)) && |old(SharesOf(ws))| < MaxShares && (userEmail !in users || userLookupFails)
              ==> r == Error(UserNotFound)
      ensures old(OwnerGate(caller, ws)) && |old(SharesOf(ws))| < MaxShares && userEmail in users && !userLookupFails
              ==> var key := ShareKey(ws, users[userEmail]);
                  && (key in old(shares) && !shareLookupFails ==> r == Error(ShareExists))
                  && (key in old(shares) && shareLookupFails ==> r == Error(CreateShareFailed))
                  && (key !in old(shares) && insertFails ==> r == Error(CreateShareFailed))
                  && (key !in old(shares) && !insertFails && !assign.Ok? ==> r == Error(AssignRoleFailed))
                  && (key !in old(shares) && !insertFails && assign.Ok? ==>
                        && r == Done
                        && shares == old(shares)[key := role]
                        && grants == old(grants) + {Grant(users[userEmail], WorkspaceResource(ws), role)})
      ensures r.Error? ==> shares == old(shares) && grants == old(grants)
      ensures r == Done ==> |old(SharesOf(ws))| < MaxShares && |SharesOf(ws)| == |old(SharesOf(ws))| + 1
      ensures forall w :: |old(SharesOf(w))| <= MaxShares ==> |SharesOf(w)| <= MaxShares
      ensures old(Mirrored()) ==> Mirrored()
    {
      if caller.None? {
        return Error(Unauthorized);
      }
      if !OwnerGate(caller, ws) {
        return Error(PermissionDenied);
      }
      var currentShares := |SharesOf(ws)|;
      if currentShares >= MaxShares {
        return Error(ShareLimitReached);
      }
      // a failed lookup leaves `data` null, like a missing row
      if userEmail !in users || userLookupFails {
        return Error(UserNotFound);
      }
      var target := users[userEmail];
      var key := ShareKey(ws, target);
      if key in shares && !shareLookupFails {
        return Error(ShareExists);
      }
      // an existing row makes the insert break the table's unique key
      if key in shares || insertFails {
        return Error(CreateShareFailed);
      }
      shares := shares[key := role];
      assert SharesOf(ws) == old(SharesOf(ws)) + {key};
      assert forall w | w != ws :: SharesOf(w) == old(SharesOf(w));
      if !assign.Ok? {
        // compensation: delete the row just inserted
        shares := shares - {key};
        assert shares == old(shares);
        return Error(AssignRoleFailed);
      }
      grants := grants + {Grant(target, WorkspaceResource(ws), role)};
      return Done;
    }

    /** `revokeWorkspaceShare`. */
    method RevokeWorkspaceShare(caller: Option<UserId>, ws: WorkspaceId, sharedUser: UserId,
                                deleteFails: bool, unassign: ShareRole -> CallOutcome) returns (r: ActionResult)
      modifies this
      ensures users == old(users)
      ensures caller.None? ==> r == Error(Unauthorized)
      ensures caller.Some? && !old(OwnerGate(caller, ws)) ==> r == Error(PermissionDenied)
      ensures old(OwnerGate(caller, ws)) && deleteFails ==> r == Error(RevokeShareFailed)
      ensures r.Error? ==> shares == old(shares) && grants == old(grants)
      ensures old(OwnerGate(caller, ws)) && !deleteFails ==>
                && r == Done
                && shares == old(shares) - {ShareKey(ws, sharedUser)}
                && grants == UnassignUntilFailure(old(grants), sharedUser, WorkspaceResource(ws), UnassignOrder, unassign)
      ensures old(Mirrored()) ==> Mirrored()
    {
      if caller.None? {
        return Error(Unauthorized);
      }
      if !OwnerGate(caller, ws) {
        return Error(PermissionDenied);
      }
      if deleteFails {
        return Error(RevokeShareFailed);
      }
      var key := ShareKey(ws, sharedUser);
      shares := shares - {key};
      var resource := WorkspaceResource(ws);
      ghost var expected := UnassignUntilFailure(old(grants), sharedUser, resource, UnassignOrder, unassign);
      var i := 0;
      while i < |UnassignOrder|
        invariant 0 <= i <= |UnassignOrder|
        invariant shares == old(shares) - {key} && users == old(users)
        invariant UnassignUntilFailure(grants, sharedUser, resource, UnassignOrder[i..], unassign) == expected
      {
        if !unassign(UnassignOrder[i]).Ok? {
          // the exception leaves the try block: the remaining roles stay assigned
          assert grants == expected;
          break;
        }
        grants := grants - {Grant(sharedUser, resource, UnassignOrder[i])};
        i := i + 1;
      }
      assert grants == expected;
      if old(Mirrored()) {
        BackedAfterUnassign(shares, old(grants), grants, sharedUser, ws);
      }
      return Done;
    }

    /**
     * The first half of update's try block: unassign each share role, skip
     * a 404 answer, stop at any other failure.
     */
    method UnassignEachSkippingNotFound(user: UserId, resource: string, unassign: ShareRole -> CallOutcome)
      returns (aborted: bool)
      modifies this`grants
      ensures (grants, aborted) == UnassignSkippingNotFound(old(grants), user, resource, UnassignOrder, unassign)
    {
      ghost var expected := UnassignSkippingNotFound(grants, user, resource, UnassignOrder, unassign);
      aborted := false;
      var i := 0;
      while i < |UnassignOrder|
        invariant 0 <= i <= |UnassignOrder|
        invariant UnassignSkippingNotFound(grants, user, resource, UnassignOrder[i..], unassign) == expected
        invariant !aborted
      {
        var outcome := unassign(UnassignOrder[i]);
        if outcome.Failed? {
          aborted := true;
          assert (grants, aborted) == expected;
          break;
        }
        if outcome.Ok? {
          grants := grants - {Grant(user, resource, UnassignOrder[i])};
        }
        i := i + 1;
      }
    }

    /** `updateWorkspaceShare`. */
    method UpdateWorkspaceShare(caller: Option<UserId>, ws: WorkspaceId, sharedUser: UserId, newRole: ShareRole,
                                updateFails: bool, unassign: ShareRole -> CallOutcome, assign: CallOutcome)
      returns (r: ActionResult)
      modifies this
      ensures users == old(users)
      ensures caller.None? ==> r == Error(Unauthorized)
      ensures caller.Some? && !old(OwnerGate(caller, ws)) ==> r == Error(PermissionDenied)
      ensures old(OwnerGate(caller, ws)) && updateFails ==> r == Error(UpdateShareFailed)
      ensures !old(OwnerGate(caller, ws)) || updateFails ==> shares == old(shares) && grants == old(grants)
      ensures old(OwnerGate(caller, ws)) && !updateFails ==>
                var key := ShareKey(ws, sharedUser);
                var res := UnassignSkippingNotFound(old(grants), sharedUser, WorkspaceResource(ws), UnassignOrder, unassign);
                && shares == (if key in old(shares) then old(shares)[key := newRole] else old(shares))
                && (res.1 || !assign.Ok? ==> r == Error(UpdateRoleFailed) && grants == res.0)
                && (!res.1 && assign.Ok? ==>
                      r == Done && grants == res.0 + {Grant(sharedUser, WorkspaceResource(ws), newRole)})
      ensures r == Done && old(Mirrored()) ==> Mirrored()
    {
      if caller.None? {
        return Error(Unauthorized);
      }
      if !OwnerGate(caller, ws) {
        return Error(PermissionDenied);
      }
      if updateFails {
        return Error(UpdateShareFailed);
      }
      var key := ShareKey(ws, sharedUser);
      // the update matches zero or one row; a missing row is no error
      if key in shares {
        shares := shares[key := newRole];
      }
      var resource := WorkspaceResource(ws);
      var aborted := UnassignEachSkippingNotFound(sharedUser, resource, unassign);
      if !aborted && assign.Ok? {
        if old(Mirrored()) {
          BackedAfterUpdate(old(shares), shares, old(grants), grants, sharedUser, ws, newRole);
        }
        grants := grants + {Grant(sharedUser, resource, newRole)};
        return Done;
      }
      // compensation: the row is written with the new role once more
      if key in shares {
        shares := shares[key := newRole];
      }
      return Error(UpdateRoleFailed);
    }

    /** `getWorkspaceShares`: the owner's view of the workspace's shares, by shared user. */
    method GetWorkspaceShares(caller: Option<UserId>, ws: WorkspaceId, queryFails: bool)
      returns (r: Result<map<UserId, ShareRole>, string>)
      ensures caller.None? ==> r == Failure(Unauthorized)
      ensures caller.Some? && !OwnerGate(caller, ws) ==> r == Failure(PermissionDenied)
      ensures OwnerGate(caller, ws) && queryFails ==> r == Failure(FetchSharesFailed)
      ensures OwnerGate(caller, ws) && !queryFails ==>
                && r.Success?
                && (forall u :: u in r.value <==> ShareKey(ws, u) in shares)
                && (forall u | u in r.value :: r.value[u] == shares[ShareKey(ws, u)])
    {
      if caller.None? {
        return Failure(Unauthorized);
      }
      if !OwnerGate(caller, ws) {
        return Failure(PermissionDenied);
      }
      if queryFails {
        return Failure(FetchSharesFailed);
      }
      var rows := map k | k in shares && k.workspaceId == ws :: k.sharedUserId := shares[k];
      assert forall u :: u in rows <==> ShareKey(ws, u) in shares by {
        forall u ensures u in rows <==> ShareKey(ws, u) in shares {
          if ShareKey(ws, u) in shares {
            assert ShareKey(ws, u).sharedUserId == u;
          }
        }
      }
      return Success(rows);
    }

    /**
     * `getSharedWorkspaces`: no gate; at most five of the workspaces shared
     * with `user`, the database's `limit(5)` choosing which.
     */
    method GetSharedWorkspaces(user: UserId, queryFails: bool)
      returns (r: Result<map<WorkspaceId, ShareRole>, string>)
      ensures queryFails ==> r == Failure(FetchSharedWorkspacesFailed)
      ensures !queryFails ==>
                && r.Success?
                && (forall w | w in r.value :: ShareKey(w, user) in shares && r.value[w] == shares[ShareKey(w, user)])
                && |r.value| == Min(MaxShares, |SharedWith(user)|)
    {
      if queryFails {
        return Failure(FetchSharedWorkspacesFailed);
      }
      var rest := SharedWith(user);
      var picked: map<WorkspaceId, ShareRole> := map[];
      while |picked| < MaxShares && rest != {}
        invariant rest <= SharedWith(user)
        invariant |picked| <= MaxShares
        invariant forall w | w in picked ::
                    && ShareKey(w, user) in shares
                    && ShareKey(w, user) !in rest
                    && picked[w] == shares[ShareKey(w, user)]
        invariant |picked| + |rest| == |SharedWith(user)|
        decreases rest
      {
        var k :| k in rest;
        assert k == ShareKey(k.workspaceId, user);
        assert k.workspaceId !in picked;
        picked := picked[k.workspaceId := shares[k]];
        rest := rest - {k};
      }
      return Success(picked);
    }
  }
}
