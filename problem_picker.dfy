/**
 * The add-problem dialog's pure parts: the list of problems it offers
 * (`filteredProblems`) and the badge colour of a difficulty.
 */
module ProblemPicker {
  import opened Wrappers
  import opened Text
  import opened Problems

  /** With no search term the dialog shows at most this many problems. */
  const PageSize: nat := 20

  /** `new Set(trackedProblems?.map(tp => tp.problem_id) || [])`. */
  function TrackedIds(trackedProblems: Option<seq<TrackedProblem>>): (ids: set<string>)
    ensures forall id :: id in ids <==>
              trackedProblems.Some? && exists t | t in trackedProblems.value :: t.problemId == id
  {
    if trackedProblems.None? then {} else set t | t in trackedProblems.value :: t.problemId
  }

  /** The catalogue problems that are not tracked yet, in catalogue order. */
  function Available(problems: seq<LeetCodeProblem>, ids: set<string>): seq<LeetCodeProblem>
  {
    Filter(problems, (p: LeetCodeProblem) => p.id !in ids)
  }

  /** `filteredProblems`. */
  function FilteredProblems(problems: seq<LeetCodeProblem>, trackedProblems: Option<seq<TrackedProblem>>,
                            isLoadingTrackedProblems: bool, debouncedSearch: string): (r: seq<LeetCodeProblem>)
    ensures isLoadingTrackedProblems ==> r == []
    ensures forall i :: 0 <= i < |r| ==> r[i] in problems && r[i].id !in TrackedIds(trackedProblems)
    ensures !isLoadingTrackedProblems && debouncedSearch != "" ==>
              forall p :: p in r <==> p in problems && p.id !in TrackedIds(trackedProblems) && TitleLike(p, debouncedSearch)
  {
    if isLoadingTrackedProblems then []
    else
      var available := Available(problems, TrackedIds(trackedProblems));
      if debouncedSearch == "" then available[..Min(PageSize, |available|)]
      else Filter(available, (p: LeetCodeProblem) => TitleLike(p, debouncedSearch))
  }

  /** The offered problems keep their catalogue order. */
  lemma FilteredIsSubsequence(problems: seq<LeetCodeProblem>, trackedProblems: Option<seq<TrackedProblem>>,
                              isLoadingTrackedProblems: bool, debouncedSearch: string)
    ensures IsSubsequence(FilteredProblems(problems, trackedProblems, isLoadingTrackedProblems, debouncedSearch), problems)
  {
    if !isLoadingTrackedProblems {
      var ids := TrackedIds(trackedProblems);
      var available := Available(problems, ids);
      FilterIsSubsequence(problems, (p: LeetCodeProblem) => p.id !in ids);
      if debouncedSearch == "" {
        PrefixIsSubsequence(available, problems, Min(PageSize, |available|));
      } else {
        var keep := (p: LeetCodeProblem) => TitleLike(p, debouncedSearch);
        FilterIsSubsequence(available, keep);
        SubsequenceTransitive(Filter(available, keep), available, problems);
      }
    }
  }

  /** With an empty search the dialog offers exactly the first min(20, n) of the n untracked problems. */
  lemma EmptySearchFirstPage(problems: seq<LeetCodeProblem>, trackedProblems: Option<seq<TrackedProblem>>)
    ensures var available := Available(problems, TrackedIds(trackedProblems));
            var r := FilteredProblems(problems, trackedProblems, false, "");
            && r <= available
            && |r| == Min(PageSize, |available|)
            && (forall p :: p in available <==> p in problems && p.id !in TrackedIds(trackedProblems))
  {
  }

  const EasyColor: string := "bg-green-500 hover:bg-green-600"
  const MediumColor: string := "bg-yellow-500 hover:bg-yellow-600"
  const HardColor: string := "bg-red-500 hover:bg-red-600"
  const OtherColor: string := "bg-gray-500 hover:bg-gray-600"

  /** `getDifficultyColor`. */
  function DifficultyColor(difficulty: string): (c: string)
    ensures c == EasyColor <==> ToLower(difficulty) == "easy"
    ensures c == MediumColor <==> ToLower(difficulty) == "medium"
    ensures c == HardColor <==> ToLower(difficulty) == "hard"
    ensures c == OtherColor <==> ToLower(difficulty) !in {"easy", "medium", "hard"}
  {
    var d := ToLower(difficulty);
    if d == "easy" then EasyColor
    else if d == "medium" then MediumColor
    else if d == "hard" then HardColor
    else OtherColor
  }

  /** The colour does not depend on the case of the difficulty. */
  lemma DifficultyColorIgnoresCase(difficulty: string)
    ensures DifficultyColor(difficulty) == DifficultyColor(ToLower(difficulty))
  {
    ToLowerIdempotent(difficulty);
  }

  lemma DifficultyColorExamples()
    ensures DifficultyColor("Easy") == EasyColor
    ensures DifficultyColor("MEDIUM") == MediumColor
    ensures DifficultyColor("Hard") == HardColor
    ensures DifficultyColor("Unknown") == OtherColor
  {
  }
}
