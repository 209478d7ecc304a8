/**
 * The problem actions: the catalogue search, and adding a problem to a
 * workspace's tracked problems behind the `create` capability.
 */
module Problems {
  import opened Wrappers
  import opened Text
  import opened PermitMigration
  import opened Policy

  /** A row of the problem catalogue. */
  datatype LeetCodeProblem = LeetCodeProblem(
    id: string,
    frontendQuestionId: string,
    title: string,
    titleSlug: string,
    difficulty: string,
    paidOnly: bool,
    topicTags: seq<string>)

  // ---------------------------------------------------------------------
  // searchLeetCodeProblems

  const FetchProblemsFailed: string := "Failed to fetch LeetCode problems"

  /**
   * Ascending by `frontend_question_id`, a text column: each problem's id
   * comes no later in text order than the next one's.
   */
  ghost predicate OrderedByQuestionId(s: seq<LeetCodeProblem>)
  {
    forall i :: 0 < i < |s| ==> TextLe(s[i - 1].frontendQuestionId, s[i].frontendQuestionId)
  }

  /** The adjacent ordering is the ordering of every pair. */
  lemma {:induction false} OrderedPairwise(s: seq<LeetCodeProblem>, i: int, j: int)
    requires OrderedByQuestionId(s)
    requires 0 <= i <= j < |s|
    ensures TextLe(s[i].frontendQuestionId, s[j].frontendQuestionId)
    decreases j - i
  {
    if i < j {
      OrderedPairwise(s, i, j - 1);
      TextLeTransitive(s[i].frontendQuestionId, s[j - 1].frontendQuestionId, s[j].frontendQuestionId);
    } else {
      TextLeTotal(s[i].frontendQuestionId, s[i].frontendQuestionId);
    }
  }

  /** Question ids are ordered as text, not as numbers: problem 10 comes before problem 9. */
  lemma QuestionTenBeforeNine()
    ensures TextLe("10", "9") && !TextLe("9", "10")
  {
    assert "10"[0] == '1' && "9"[0] == '9';
  }

  function InsertByQuestionId(p: LeetCodeProblem, s: seq<LeetCodeProblem>): (r: seq<LeetCodeProblem>)
    requires OrderedByQuestionId(s)
    ensures OrderedByQuestionId(r)
    ensures |r| == |s| + 1 && (r[0] == p || (s != [] && r[0] == s[0]))
    ensures multiset(r) == multiset(s) + multiset{p}
  {
    if s == [] || TextLe(p.frontendQuestionId, s[0].frontendQuestionId) then [p] + s
    else
      TextLeTotal(p.frontendQuestionId, s[0].frontendQuestionId);
      assert s == [s[0]] + s[1..];
      [s[0]] + InsertByQuestionId(p, s[1..])
  }

  /** The `order("frontend_question_id", { ascending: true })` of the query. */
  function OrderByQuestionId(s: seq<LeetCodeProblem>): (r: seq<LeetCodeProblem>)
    ensures OrderedByQuestionId(r)
    ensures multiset(r) == multiset(s)
  {
    if s == [] then []
    else
      assert s == [s[0]] + s[1..];
      InsertByQuestionId(s[0], OrderByQuestionId(s[1..]))
  }

  /** `title ilike '%term%'`, with plain substring matching over ASCII lower case. */
  predicate TitleLike(p: LeetCodeProblem, term: string)
  {
    Contains(ToLower(p.title), ToLower(term))
  }

  /**
   * `searchLeetCodeProblems(term)`: the catalogue ordered by question id,
   * restricted to matching titles when the term is not empty.
   */
  function SearchLeetCodeProblems(catalogue: seq<LeetCodeProblem>, searchTerm: string, queryFails: bool)
    : (r: Result<seq<LeetCodeProblem>, string>)
    ensures queryFails <==> r == Failure(FetchProblemsFailed)
    ensures r.Success? ==> OrderedByQuestionId(r.value)
    ensures r.Success? && searchTerm == "" ==> multiset(r.value) == multiset(catalogue)
    ensures r.Success? && searchTerm != "" ==>
              forall p :: p in r.value <==> p in catalogue && TitleLike(p, searchTerm)
    ensures r.Success? && searchTerm != "" ==>
              forall p :: multiset(r.value)[p] == if TitleLike(p, searchTerm) then multiset(catalogue)[p] else 0
  {
    if queryFails then Failure(FetchProblemsFailed)
    else if searchTerm == "" then Success(OrderByQuestionId(catalogue))
    else
      var matching := Filter(catalogue, p => TitleLike(p, searchTerm));
      var ordered := OrderByQuestionId(matching);
      assert forall p :: p in ordered <==> p in multiset(matching);
      assert forall p :: multiset(matching)[p] == if TitleLike(p, searchTerm) then multiset(catalogue)[p] else 0 by {
        forall p ensures multiset(matching)[p] == if TitleLike(p, searchTerm) then multiset(catalogue)[p] else 0 {
          FilterMultiset(catalogue, p => TitleLike(p, searchTerm), p);
        }
      }
      Success(ordered)
  }

  // ---------------------------------------------------------------------
  // addTrackedProblem

  /** A point in time, as an opaque value supplied by the caller. */
  type Timestamp = int

  /** The ease factor a new record starts with. */
  const InitialEaseFactor: real := 2.5

  /** A row of `tracked_problems`. */
  datatype TrackedProblem = TrackedProblem(
    id: string,
    workspaceId: WorkspaceId,
    problemId: string,
    nextReviewDate: Timestamp,
    lastReviewedAt: Option<Timestamp>,
    repetitionsCount: nat,
    easeFactor: real,
    intervalDays: nat)

  /** The unique key of `tracked_problems`. */
  datatype TrackKey = TrackKey(workspaceId: WorkspaceId, problemId: string)

  const WorkspaceNotFound: string := "Workspace not found"
  const AlreadyTracked: string := "Problem is already being tracked"
  const AddFailedPrefix: string := "Failed to add problem to tracking: "

  /** A record that has never been reviewed and is due at `now`. */
  predicate IsInitialRecord(t: TrackedProblem, ws: WorkspaceId, problemId: string, now: Timestamp)
  {
    && t.workspaceId == ws
    && t.problemId == problemId
    && t.nextReviewDate == now
    && t.lastReviewedAt == None
    && t.repetitionsCount == 0
    && t.easeFactor == InitialEaseFactor
    && t.intervalDays == 0
  }

  class TrackedProblemStore {
    /** The ids of the rows of `workspaces`. */
    var workspaces: set<WorkspaceId>
    /** `tracked_problems`, by its unique key. */
    var tracked: map<TrackKey, TrackedProblem>

    /** Each record sits under its own key, so a workspace tracks a problem at most once. */
    ghost predicate Valid()
      reads this
    {
      forall k | k in tracked :: tracked[k].workspaceId == k.workspaceId && tracked[k].problemId == k.problemId
    }

    constructor (workspaces0: set<WorkspaceId>)
      ensures Valid()
      ensures workspaces == workspaces0 && tracked == map[]
    {
      workspaces := workspaces0;
      tracked := map[];
    }

    /**
     * `addTrackedProblem`. `policy` and `tenantGrants` are the policy
     * service's instance and tenant-wide role assignments that `check`
     * decides on; `workspaceLookupFails` says whether the workspace
     * query answered with an error, which reads as a missing workspace;
     * `insertError` is the database's message for an insert failure other
     * than the unique-key violation.
     */
    method AddTrackedProblem(problemId: string, userId: UserId, ws: WorkspaceId,
                             policy: set<Grant>, tenantGrants: set<TenantGrant>,
                             workspaceLookupFails: bool, now: Timestamp, newId: string, insertError: Option<string>)
      returns (r: Result<TrackedProblem, string>)
      requires Valid()
      modifies this`tracked
      ensures Valid()
      ensures !CheckDeployed(policy, tenantGrants, userId, Create, ws) ==> r == Failure(PermissionDenied)
      ensures CheckDeployed(policy, tenantGrants, userId, Create, ws) && (ws !in workspaces || workspaceLookupFails)
              ==> r == Failure(WorkspaceNotFound)
      ensures CheckDeployed(policy, tenantGrants, userId, Create, ws) && ws in workspaces && !workspaceLookupFails ==>
                var key := TrackKey(ws, problemId);
                && (key in old(tracked) ==> r == Failure(AlreadyTracked))
                && (key !in old(tracked) && insertError.Some? ==> r == Failure(AddFailedPrefix + insertError.value))
                && (key !in old(tracked) && insertError.None? ==>
                      && r.Success?
                      && r.value.id == newId
                      && IsInitialRecord(r.value, ws, problemId, now)
                      && tracked == old(tracked)[key := r.value])
      ensures r.Failure? ==> tracked == old(tracked)
      ensures forall k | k in old(tracked) :: k in tracked && tracked[k] == old(tracked)[k]
      ensures forall k | k in tracked && tracked[k].workspaceId == ws && tracked[k].problemId == problemId
                :: k == TrackKey(ws, problemId)
    {
      if !CheckDeployed(policy, tenantGrants, userId, Create, ws) {
        return Failure(PermissionDenied);
      }
      // a failed lookup leaves `data` null, like a missing row
      if ws !in workspaces || workspaceLookupFails {
        return Failure(WorkspaceNotFound);
      }
      var key := TrackKey(ws, problemId);
      if key in tracked {
        // unique constraint violation, code 23505
        return Failure(AlreadyTracked);
      }
      if insertError.Some? {
        return Failure(AddFailedPrefix + insertError.value);
      }
      var record := TrackedProblem(newId, ws, problemId, now, None, 0, InitialEaseFactor, 0);
      tracked := tracked[key := record];
      return Success(record);
    }
  }

  /**
   * Only a role that carries `create` lets a user add problems: an owner or
   * editor role on the workspace, or, as deployed, any tenant-wide role;
   * never a reviewer or viewer role alone.
   */
  lemma CreateNeedsEditorOrOwner(policy: set<Grant>, tenantGrants: set<TenantGrant>, userId: UserId, ws: WorkspaceId)
    requires CheckDeployed(policy, tenantGrants, userId, Create, ws)
    ensures || HasTenantRole(tenantGrants, userId)
            || exists g | g in policy :: g.user == userId && g.resource == WorkspaceResource(ws) && g.role in {Owner, Editor}
  {
  }
}
