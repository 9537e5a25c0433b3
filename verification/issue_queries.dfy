/**
 * The read-only issue queries: GET /api/issues (app/api/issues/route.js), GET
 * /api/my-issues and GET /api/admin/issues. None of them changes the store.
 */
module IssueQueries {
  import opened Wrappers
  import opened Http
  import opened Seqs
  import opened IssueModel

  /** `.sort({ createdAt: -1 })`: the same issues, newest first. */
  function NewestFirst(s: seq<Issue>): (r: seq<Issue>)
    ensures multiset(r) == multiset(s)
    ensures forall i, j :: 0 <= i < j < |r| ==> r[i].createdAt >= r[j].createdAt
  {
    SortDesc(s, (i: Issue) => i.createdAt)
  }

  /** GET /api/issues: every stored issue, newest first. */
  function ListIssues(store: seq<Issue>): (r: Reply<seq<Issue>>)
    ensures r.Done? && r.status == OK
    ensures multiset(r.value) == multiset(store)
    ensures forall i, j :: 0 <= i < j < |r.value| ==> r.value[i].createdAt >= r.value[j].createdAt
  {
    Done(OK, NewestFirst(store))
  }

  /**
   * GET /api/my-issues: 400 without an email; otherwise exactly the issues whose
   * `usermail` is that email, newest first.
   */
  function MyIssues(store: seq<Issue>, email: Option<string>): (r: Reply<seq<Issue>>)
    ensures !Truthy(email) <==> r == Refused(BAD_REQUEST, "User email not provided")
    ensures r.Done? ==> r.status == OK
    ensures r.Done? ==> forall i :: 0 <= i < |r.value| ==> r.value[i].usermail == email.value
    ensures r.Done? ==> forall i :: 0 <= i < |store| && store[i].usermail == email.value ==>
                          multiset(r.value)[store[i]] == multiset(store)[store[i]]
    ensures r.Done? ==> multiset(r.value) <= multiset(store)
    ensures r.Done? ==> forall i, j :: 0 <= i < j < |r.value| ==> r.value[i].createdAt >= r.value[j].createdAt
  {
    if !Truthy(email) then Refused(BAD_REQUEST, "User email not provided")
    else
      Done(OK, SelectSorted((i: Issue) => i.usermail == email.value, store, (i: Issue) => i.createdAt))
  }

  /** What the identity provider reports of the signed-in user (its `publicMetadata`). */
  datatype SessionUser = SessionUser(role: Option<string>, department: Option<string>)

  const DepartmentAdmin: string := "department_admin"

  /**
   * GET /api/admin/issues: 401 without a signed-in user, then 403 unless the user's role is
   * "department_admin"; otherwise exactly the issues of the user's department, newest
   * first. A department that is not set matches the issues that have none.
   */
  function AdminIssues(store: seq<Issue>, user: Option<SessionUser>): (r: Reply<seq<Issue>>)
    ensures user.None? <==> r == Refused(UNAUTHORIZED, "Unauthorized")
    ensures user.Some? && user.value.role != Some(DepartmentAdmin) <==> r == Refused(FORBIDDEN, "Access denied")
    ensures r.Done? ==> r.status == OK && user.Some?
    ensures r.Done? ==> forall i :: 0 <= i < |r.value| ==> r.value[i].department == user.value.department
    ensures r.Done? ==> forall i :: 0 <= i < |store| && store[i].department == user.value.department ==>
                          multiset(r.value)[store[i]] == multiset(store)[store[i]]
    ensures r.Done? ==> multiset(r.value) <= multiset(store)
    ensures r.Done? ==> forall i, j :: 0 <= i < j < |r.value| ==> r.value[i].createdAt >= r.value[j].createdAt
  {
    if user.None? then Refused(UNAUTHORIZED, "Unauthorized")
    else if user.value.role != Some(DepartmentAdmin) then Refused(FORBIDDEN, "Access denied")
    else
      Done(OK, SelectSorted((i: Issue) => i.department == user.value.department, store, (i: Issue) => i.createdAt))
  }
}
