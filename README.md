# leetcall: access control and bookkeeping around tracked problems

A Dafny model of the parts of leetcall that decide who may do what to a
workspace, and of the bookkeeping that goes with it:

- the `workspace` resource's role table and the command-line parsing of the
  policy-service migration script (`PermitMigration`);
- the policy service as the application sees it: role grants on
  `workspace:<id>` instances, the tenant-wide roles `admin` and `user` (sign-up
  gives every new user `user`), and the `check` decision the two role tables
  induce: `CheckDeployed` counts both kinds of role, `Check` only the
  instance roles (`Policy`; see "## Findings");
- the workspace share registry: `checkIsOwner`, `addWorkspaceShare`,
  `revokeWorkspaceShare`, `updateWorkspaceShare`, `getWorkspaceShares` and
  `getSharedWorkspaces`, as a class `ShareRegistry` whose fields are the
  `workspace_shares` table, the policy service's grants and the `users`
  table (`WorkspaceShares`);
- the catalogue search and `addTrackedProblem`, the latter as a class
  `TrackedProblemStore` over the `workspaces` ids and the
  `tracked_problems` table (`Problems`);
- the add-problem dialog's `filteredProblems` and `getDifficultyColor`
  (`ProblemPicker`);
- the session middleware's routing decision (`RouteGate`).

`Text` holds the string and sequence helpers (prefix test, ASCII
lower-casing, substring search, an order-preserving filter, the subsequence
relation); `Wrappers` holds `Option` and `Result`.

The outcome of the calls into the database or the policy service that the
code reacts to is an input of the modelled action: `insertFails`,
`deleteFails`, `updateFails`, `queryFails`, `insertError` and the lookup
failures `userLookupFails`, `shareLookupFails` and `workspaceLookupFails`
(an error in a `.single()` lookup leaves its data null, so it reads as a
missing row) for the database, and a `CallOutcome` (`Ok`, `NotFound` for HTTP 404, `Failed` for
anything else) for each assign or unassign. The unassign answers are a
function from the role to its outcome. The signed-in user is an
`Option<UserId>`. "Now" and the new record's id are inputs.

Two behaviours of the code are recorded by the contracts without being
treated as defects. `updateWorkspaceShare` does not check that the share
row exists: with no row, a successful update still assigns the role in the
policy service, outside the five-share limit. `getSharedWorkspaces` has no
authentication or ownership gate.

## Model

| member | source | states |
|---|---|---|
| PermitMigration.RoleName | permitio-migration.js:70-87 | the role key is "owner" exactly for the owner role |
| PermitMigration.RolePermissions | permitio-migration.js:70-87 | every role reads; only owner deletes; create needs owner or editor; update and review need more than viewer; no permission is listed twice |
| PermitMigration.OwnerPermissions | permitio-migration.js:71-74 | owner may create, read, update, delete and review |
| PermitMigration.EditorPermissions | permitio-migration.js:75-78 | editor may do exactly create, read, update and review |
| PermitMigration.ReviewerPermissions | permitio-migration.js:79-82 | reviewer may do exactly read, update and review |
| PermitMigration.ViewerPermissions | permitio-migration.js:83-86 | viewer may do exactly read |
| PermitMigration.PermissionsNested | permitio-migration.js:70-87 | viewer ⊆ reviewer ⊆ editor ⊆ owner: a permission of a lower role is one of every higher role |
| PermitMigration.OnlyOwnerDeletes | permitio-migration.js:70-87 | delete is allowed to a role exactly when it is owner |
| PermitMigration.TenantRoleName | permitio-migration.js:94-129 | the tenant role key is "user" exactly for the member role every new user gets |
| PermitMigration.TenantPermissions | permitio-migration.js:94-129 | both tenant-wide roles are created with the same permission list as the owner role |
| PermitMigration.TenantRolesAllowEverything | permitio-migration.js:94-129 | every tenant-wide role carries every `workspace` action |
| PermitMigration.ParseArguments | permitio-migration.js:15-24 | the argument loop computes the left-to-right application of the arguments |
| PermitMigration.PrefixesExclusive | permitio-migration.js:12-13 | no argument starts with both `--permit_pdp=` and `--permit_api_key=` |
| PermitMigration.LastValueAt | permitio-migration.js:16-24 | the reference value of a prefix is the text after the prefix in its last occurrence |
| PermitMigration.ParsedIsLastOccurrence | permitio-migration.js:16-24 | parsing yields, for each prefix, the value of its last occurrence (null when absent); later occurrences overwrite earlier ones and other arguments are ignored |
| PermitMigration.PdpRoundTrip | permitio-migration.js:8-19 | `["--permit_pdp=" + v]` parses to PDP = v and a null API key |
| PermitMigration.ApiKeyRoundTrip | permitio-migration.js:8-22 | `["--permit_api_key=" + v]` parses to API key = v and a null PDP |
| PermitMigration.MissingArgumentErrors | permitio-migration.js:32-43 | an error line is logged for a value exactly when it is null or empty, the PDP line first; no other line is logged |
| Policy.WorkspaceResource | components/settings/actions/workspace-shares.ts:11 | a workspace's resource key starts with `workspace:` |
| Policy.WorkspaceResourceInjective | components/settings/actions/workspace-shares.ts:79 | distinct workspaces have distinct resource keys |
| Policy.Check | components/dashboard/actions/problems.ts:80-87 | by the instance roles, `read` is allowed exactly to a user with some grant on `workspace:<id>`; `delete` exactly to its owner |
| Policy.CheckDeployed | components/dashboard/actions/problems.ts:80-87 | a holder of a tenant-wide role passes every check on every workspace; for anyone else the decision is that of the instance roles |
| Policy.TenantUserPassesWithoutGrant | permitio-migration.js:113-129 | a user holding the tenant role `user` and no grant on a workspace fails the instance-role check but passes the deployed `create` check there |
| Policy.CheckByRole | components/dashboard/actions/problems.ts:80-87 | `check` allows an action to a holder of a role whose permission list carries it |
| Policy.CheckSingleRole | components/dashboard/actions/problems.ts:80-87 | a user whose only role on the workspace is r is allowed an action by the instance roles exactly when r's permission list carries it, and by the deployed check too when the user holds no tenant role |
| Policy.NoGrantNoAccess | components/dashboard/actions/problems.ts:80-87 | with no grant on the workspace the instance roles deny every action, and so does the deployed check when the user holds no tenant role |
| WorkspaceShares.CheckIsOwner | components/settings/actions/workspace-shares.ts:9-17 | with no entry for `workspace:<id>` the answer is false; a true answer means the entry lists "owner" |
| WorkspaceShares.IsOwnerExactly | components/settings/actions/workspace-shares.ts:9-17 | `checkIsOwner` on the permissions answer is true exactly when the user holds owner on `workspace:<id>`; a missing entry is false |
| WorkspaceShares.UnassignUntilFailure | components/settings/actions/workspace-shares.ts:121-136 | revoke's sequence removes only grants of this user and resource for the listed roles |
| WorkspaceShares.UnassignSkippingNotFound | components/settings/actions/workspace-shares.ts:168-188 | update's sequence removes only this user's grants on the resource for the listed roles, and aborts exactly when some call fails other than with 404 |
| WorkspaceShares.SkippingNotFoundClears | components/settings/actions/workspace-shares.ts:168-188 | when 404 is answered only for roles not held and nothing else fails, none of the roles remains granted |
| WorkspaceShares.UnassignUntilFailureRemovesPrefix | components/settings/actions/workspace-shares.ts:121-136 | when the first unsuccessful unassign is at position i, revoke's sequence removes exactly the grants of the roles before i |
| WorkspaceShares.AllUnassignsOkClears | components/settings/actions/workspace-shares.ts:121-136 | when every unassign succeeds, none of the viewer, reviewer and editor grants remains and nothing else is removed |
| WorkspaceShares.UnassignUntilFailureStopsEarly | components/settings/actions/workspace-shares.ts:122-136 | a viewer unassign that does not succeed, a 404 included, skips the reviewer and editor unassigns |
| WorkspaceShares.RevokeAfterNotFoundKeepsEditor | components/settings/actions/workspace-shares.ts:122-136 | an editor whose viewer unassign is answered 404 keeps the editor grant and the create permission |
| WorkspaceShares.RevokeSkippingNotFoundDropsEditor | components/settings/actions/workspace-shares.ts:168-188 | skipping 404 answers, the same editor loses the grant and the create permission |
| WorkspaceShares.BackedAfterUpdate | components/settings/actions/workspace-shares.ts:158-210 | rewriting a user's row with the new role, withdrawing only that user's grants on the workspace and granting the new role keeps every row backed by its grant |
| WorkspaceShares.BackedAfterUnassign | components/settings/actions/workspace-shares.ts:113-139 | withdrawing one user's grants on one workspace leaves every other share row backed by its grant |
| WorkspaceShares.ShareRegistry.AddWorkspaceShare | components/settings/actions/workspace-shares.ts:19-94 | errors in the order Unauthorized, Permission denied, share limit, User not found (also when the user lookup fails), Share already exists, create failure (also for an existing share whose lookup failed, through the unique key), assign failure; every error leaves both stores unchanged (the failed assign's insert is deleted again); success adds exactly the row and the grant, needs fewer than 5 shares before, and keeps the count at most 5 |
| WorkspaceShares.ShareRegistry.RevokeWorkspaceShare | components/settings/actions/workspace-shares.ts:96-140 | after the gate and a successful delete the row is gone and the result is success whatever the unassigns answer; grants lose the roles unassigned before the first unsuccessful call |
| WorkspaceShares.ShareRegistry.UnassignEachSkippingNotFound | components/settings/actions/workspace-shares.ts:168-188 | the unassign loop leaves the grants and the abort flag that `UnassignSkippingNotFound` specifies |
| WorkspaceShares.ShareRegistry.UpdateWorkspaceShare | components/settings/actions/workspace-shares.ts:142-210 | after the gate and a successful update the row, when it exists, holds the new role on every path; an abort or failed assign returns "Failed to update role"; success adds the new role's grant |
| WorkspaceShares.ShareRegistry.GetWorkspaceShares | components/settings/actions/workspace-shares.ts:259-295 | behind the owner gate, returns exactly the workspace's rows by shared user |
| WorkspaceShares.ShareRegistry.GetSharedWorkspaces | components/settings/actions/workspace-shares.ts:212-241 | without a gate, returns min(5, n) of the n rows shared with the user |
| Problems.OrderedPairwise | components/dashboard/actions/problems.ts:50-53 | the ascending text order of question ids holds between every pair of positions |
| Problems.QuestionTenBeforeNine | components/dashboard/actions/problems.ts:9 | question ids are text, so "10" sorts before "9" and not after |
| Problems.InsertByQuestionId | components/dashboard/actions/problems.ts:50-53 | inserting into an ordered list keeps it ordered and adds exactly the one problem |
| Problems.OrderByQuestionId | components/dashboard/actions/problems.ts:50-53 | the ordered list is ascending by question id in text order and a permutation of the input |
| Problems.SearchLeetCodeProblems | components/dashboard/actions/problems.ts:46-70 | a query error fails; an empty term returns the whole catalogue, otherwise exactly the problems whose lower-cased title contains the lower-cased term, each as often as in the catalogue; the result is ascending by question id in text order |
| Problems.TrackedProblemStore.AddTrackedProblem | components/dashboard/actions/problems.ts:72-142 | Permission denied when the deployed check refuses `create`, Workspace not found (also when the lookup fails), already tracked on a duplicate key, the database message on another insert error, each with no insert; otherwise exactly one new record with 0 repetitions, 0 days, ease 2.5, due now; existing records never change; a workspace tracks a problem under one key only |
| Problems.CreateNeedsEditorOrOwner | components/dashboard/actions/problems.ts:80-87 | the deployed create check passes only for a user who holds editor or owner on the workspace, or a tenant-wide role |
| ProblemPicker.TrackedIds | components/dashboard/add-problem-dialog.tsx:132-134 | the set holds exactly the problem ids of the tracked rows, and is empty when there are none |
| ProblemPicker.FilteredProblems | components/dashboard/add-problem-dialog.tsx:127-145 | empty while tracked problems load; never a tracked id; with a search, exactly the untracked problems whose title matches, with no cap |
| ProblemPicker.FilteredIsSubsequence | components/dashboard/add-problem-dialog.tsx:137-144 | the offered list is an order-preserving subsequence of the catalogue |
| ProblemPicker.EmptySearchFirstPage | components/dashboard/add-problem-dialog.tsx:141 | with an empty search the offered list is the first min(20, n) of the n untracked problems |
| ProblemPicker.DifficultyColor | components/dashboard/add-problem-dialog.tsx:47-58 | easy, medium, hard (in any case) map to green, yellow, red, anything else to gray |
| ProblemPicker.DifficultyColorIgnoresCase | components/dashboard/add-problem-dialog.tsx:48 | the colour of a difficulty is that of its lower-cased form |
| ProblemPicker.DifficultyColorExamples | components/dashboard/add-problem-dialog.tsx:47-58 | "Easy", "MEDIUM", "Hard" and "Unknown" get green, yellow, red and gray |
| RouteGate.Decide | utils/supabase/middleware.ts:51-77 | a dashboard redirect goes only to the signed-in user from an auth page; a sign-in redirect carries the path and happens exactly for a non-public path without user or with a session error |
| RouteGate.EveryRootedPathIsPublic | utils/supabase/middleware.ts:4-11 | "/" is a public route and matching is by prefix, so every path starting with "/" is public |
| RouteGate.SignInRedirectOnlyForUnrootedPaths | utils/supabase/middleware.ts:51-75 | the sign-in redirect is reached only by paths that do not start with "/" |
| RouteGate.SignedInAuthPageRedirects | utils/supabase/middleware.ts:53-63 | a signed-in user on "/" or a sign-in, sign-up or forgot-password page is sent to their dashboard |
| RouteGate.SignedInOtherPublicPathPasses | utils/supabase/middleware.ts:51-65 | a signed-in user on any other public path passes |
| RouteGate.SignedInExamples | utils/supabase/middleware.ts:51-65 | a signed-in user passes on /reset-password, /auth/callback and /dashboard/x |
| RouteGate.AnonymousPublicPathPasses | utils/supabase/middleware.ts:51-65 | a request without a user on a public path is never redirected |
| RouteGate.ProtectedPathRedirectsToSignIn | utils/supabase/middleware.ts:68-75 | a non-public path with no user or a session error is sent to sign in with the path as `redirectedFrom` |
| RouteGate.AnonymousDashboardPasses | utils/supabase/middleware.ts:51-65 | as written, an anonymous request for `/dashboard/<id>` passes |
| RouteGate.CorrectedGateProtectsDashboard | utils/supabase/middleware.ts:67-75 | with "/" matched exactly, an anonymous request for `/dashboard/<id>` is sent to sign in |
| RouteGate.CorrectedGateKeepsPublicRoutes | utils/supabase/middleware.ts:4-11 | with "/" matched exactly, "/" and every path under another public route still pass anonymously |

## Left out

- The spaced-repetition review (`reviewTrackedProblem`): its source is not part of this model, so no interval formula is modelled.
- The database and policy-service clients themselves (`createClient`, `permitClient`, the query builders): they are state plus outcome inputs here.
- The count query of `addWorkspaceShare` is assumed to succeed; a failed count (null) would skip the limit check.
- The compensating writes (the delete in `addWorkspaceShare`, the rewrite in `updateWorkspaceShare`) are assumed to succeed; the code does not inspect their result.
- Exceptions thrown by the clients outside the modelled try blocks: `addTrackedProblem`'s "An unexpected error occurred" branch, and the share actions' propagated errors.
- The tenant, permission lists and attributes in the `getUserPermissions` answer: only the role keys are kept.
- `granted_at`, the joined columns (`users(email)`, `workspaces(...)`, `leet_code_problems(*)`), `revalidatePath` and console logging other than the two missing-argument messages.
- Time: `new Date()` is an opaque integer "now"; the record id the database generates is an input.
- `ease_factor` is the exact constant 2.5, with no floating-point arithmetic.
- `ilike` wildcards (`%`, `_` inside the term) and Unicode case mapping: titles match by plain substring over ASCII lower case.
- `frontend_question_id` is text, as declared at components/dashboard/actions/problems.ts:9, and is ordered character by character by code; a numeric column type or a database collation other than code order would order differently, and the order of equal ids is not fixed.
- The race between the share count and the insert: actions run one at a time.
- The middleware's cookie handling, URL building and encoding of `redirectedFrom`, and its catch branch when the client cannot be created.
- The migration script's `main()` seeding (the example users and their assignments) and the SDK construction; the policy client singleton. The tenant-wide roles it creates are modelled in `CheckDeployed`.
- The permissions answer that `checkIsOwner` reads is modelled with the instance roles only; whether tenant roles appear under `workspace:<id>` in it is not modelled.
- The authentication pages, callbacks and all React rendering, timers, debouncing and component state.
- `getSharedWorkspaces`: which five rows `limit(5)` returns is left open; the model may return any of them.

## Findings

| source | as written | input that shows it | evidently intended | confidence | as-written member | corrected member |
|---|---|---|---|---|---|---|
| components/settings/actions/workspace-shares.ts:122-136 | the viewer, reviewer and editor unassigns share one try block, so a 404 for a role the user never held ends the sequence | revoke a user who holds editor, the policy service answering 404 for viewer: the editor grant, and `create` on the workspace, remain | skip 404 answers, as `updateWorkspaceShare` does at lines 172-187 | medium, not executed | WorkspaceShares.RevokeAfterNotFoundKeepsEditor | WorkspaceShares.RevokeSkippingNotFoundDropsEditor |
| utils/supabase/middleware.ts:4-11 | "/" is a public route and the test is `startsWith`, so every path is public and the protected branch is unreachable | an anonymous request for `/dashboard/w` passes | "/" matches the home page only | medium, not executed | RouteGate.AnonymousDashboardPasses | RouteGate.CorrectedGateProtectsDashboard |
| permitio-migration.js:113-129 | the tenant-wide role `user`, which sign-up assigns to every new user (app/actions.ts:67-71), is created with every `workspace` permission, and a tenant role applies to every workspace of the tenant | a signed-up user with no grant on workspace `w` passes `check(create)` on `w`, so they can add tracked problems to a workspace nobody shared with them | access to a workspace comes only from the owner, editor, reviewer and viewer roles on its instance | medium, not executed | Policy.TenantUserPassesWithoutGrant | Policy.CheckSingleRole |
