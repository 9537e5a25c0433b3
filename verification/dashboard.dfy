/** The public issue dashboard: liking issues, and the filter and search over the loaded list. */
module Dashboard {
  import opened Wrappers
  import opened Text
  import opened Seqs
  import opened IssueModel

  /** `toggleLike`: unlike an issue by removing every occurrence of its id, or like it by appending the id. */
  function ToggleLike(liked: seq<IssueId>, id: IssueId): (r: seq<IssueId>)
    ensures id in liked ==> id !in r && IsSubsequence(r, liked)
    ensures id in liked ==> forall x :: x != id ==> multiset(r)[x] == multiset(liked)[x]
    ensures id !in liked ==> r == liked + [id]
    ensures id in r <==> id !in liked
    ensures forall x :: x != id ==> (x in r <==> x in liked)
  {
    if id in liked then
      var keep := (x: IssueId) => x != id;
      FilterIsSubsequence(keep, liked);
      forall x | x != id
        ensures multiset(Filter(keep, liked))[x] == multiset(liked)[x]
        ensures x in Filter(keep, liked) <==> x in liked
      {
        FilterKeepsEveryMatch(keep, liked, x);
        assert x in Filter(keep, liked) <==> x in multiset(Filter(keep, liked));
        assert x in liked <==> x in multiset(liked);
      }
      Filter(keep, liked)
    else
      liked + [id]
  }

  /** Liking and then unliking an issue that was not liked restores the list exactly. */
  lemma ToggleTwiceRestores(liked: seq<IssueId>, id: IssueId)
    requires id !in liked
    ensures ToggleLike(ToggleLike(liked, id), id) == liked
  {
    var keep := (x: IssueId) => x != id;
    FilterDropsRejectedLast(keep, liked, id);
    FilterKeepsAll(keep, liked);
  }

  lemma ToggleKeepsNoDuplicates(liked: seq<IssueId>, id: IssueId)
    requires NoDuplicates(liked)
    ensures NoDuplicates(ToggleLike(liked, id))
  {
    if id in liked {
      FilterKeepsNoDuplicates((x: IssueId) => x != id, liked);
    }
  }

  /** The three filter buttons' state; "" leaves that field unconstrained. */
  datatype Filters = Filters(status: string, issueType: string, priority: string)

  /** The initial filter state, and the one the Reset button restores. */
  const NoFilters := Filters("", "", "")

  datatype FilterKey = StatusKey | IssueTypeKey | PriorityKey

  /** `handleFilterChange(key, value)`: replaces one field and keeps the other two. */
  function HandleFilterChange(f: Filters, key: FilterKey, value: string): (r: Filters)
    ensures key == StatusKey ==> r == f.(status := value)
    ensures key == IssueTypeKey ==> r == f.(issueType := value)
    ensures key == PriorityKey ==> r == f.(priority := value)
  {
    match key
    case StatusKey => Filters(value, f.issueType, f.priority)
    case IssueTypeKey => Filters(f.status, value, f.priority)
    case PriorityKey => Filters(f.status, f.issueType, value)
  }

  /**
   * The search: the lower-cased query occurs in the lower-cased landmark or issue type.
   * The page also tries `issue.title`, which the Issue document does not have, so that
   * alternative never matches.
   */
  predicate MatchesSearch(i: Issue, query: string)
  {
    var q := Lower(query);
    || (i.location.landmark.Some? && Contains(Lower(i.location.landmark.value), q))
    || Contains(Lower(TypeName(i.issueType)), q)
  }

  /** An empty filter lets everything through; a non-empty one demands equality. */
  predicate FieldMatches(filter: string, value: string)
  {
    filter == "" || value == filter
  }

  predicate Matches(i: Issue, query: string, f: Filters)
  {
    && MatchesSearch(i, query)
    && FieldMatches(f.status, StatusName(i.status))
    && FieldMatches(f.issueType, TypeName(i.issueType))
    && FieldMatches(f.priority, PriorityName(i.priority))
  }

  /** `filteredIssues`: the matching issues, in the order the list holds them, none lost. */
  function FilteredIssues(issues: seq<Issue>, query: string, f: Filters): (r: seq<Issue>)
    ensures IsSubsequence(r, issues)
    ensures forall k :: 0 <= k < |r| ==> MatchesSearch(r[k], query)
    ensures forall k :: 0 <= k < |r| ==> f.status != "" ==> StatusName(r[k].status) == f.status
    ensures forall k :: 0 <= k < |r| ==> f.issueType != "" ==> TypeName(r[k].issueType) == f.issueType
    ensures forall k :: 0 <= k < |r| ==> f.priority != "" ==> PriorityName(r[k].priority) == f.priority
    ensures forall k :: 0 <= k < |issues| && Matches(issues[k], query, f) ==>
      multiset(r)[issues[k]] == multiset(issues)[issues[k]]
  {
    var p := (i: Issue) => Matches(i, query, f);
    FilterIsSubsequence(p, issues);
    FilterComplete(p, issues);
    Filter(p, issues)
  }

  /** With no filter set and an empty search box, the dashboard shows every issue. */
  lemma NoFiltersShowEverything(issues: seq<Issue>)
    ensures FilteredIssues(issues, "", NoFilters) == issues
  {
    forall k | 0 <= k < |issues|
      ensures Matches(issues[k], "", NoFilters)
    {
      EverythingContainsEmpty(Lower(TypeName(issues[k].issueType)));
    }
    FilterKeepsAll((i: Issue) => Matches(i, "", NoFilters), issues);
  }

  /**
   * The "in_progress" status button never matches: the stored status of an
   * issue being worked on is "inprogress".
   */
  lemma InProgressButtonMatchesNothing(issues: seq<Issue>, query: string, f: Filters)
    requires f.status == "in_progress"
    ensures FilteredIssues(issues, query, f) == []
  {
    var r := FilteredIssues(issues, query, f);
    if r != [] {
      assert false;
    }
  }
}
