/**
 * The Issue collection and the three handlers that change it: POST /api/issues
 * (app/api/issues/route.js), PATCH /api/update-issue and DELETE /api/delete-issue.
 */
module IssueCollection {
  import opened Wrappers
  import opened Http
  import opened Seqs
  import opened IssueModel

  /** No two stored issues share an id. */
  predicate UniqueIds(s: seq<Issue>)
  {
    forall i, j :: 0 <= i < j < |s| ==> s[i].id != s[j].id
  }

  /** `findById`: the position of the issue with that id, or -1 when there is none. */
  function FindIndex(s: seq<Issue>, id: IssueId): (k: int)
    ensures -1 <= k < |s|
    ensures k >= 0 ==> s[k].id == id && forall j :: 0 <= j < k ==> s[j].id != id
    ensures k < 0 ==> forall j :: 0 <= j < |s| ==> s[j].id != id
  {
    FirstIndex((i: Issue) => i.id == id, s)
  }

  /** In a store with unique ids, the issue at position `k` is the one `FindIndex` finds. */
  lemma FindIndexOfUnique(s: seq<Issue>, k: nat)
    requires UniqueIds(s) && k < |s|
    ensures FindIndex(s, s[k].id) == k
  {
  }

  /**
   * The update document of PATCH /api/update-issue: `description` is written when the
   * request gives one, `location.landmark` when the request's location gives one; nothing
   * else of the issue is touched.
   */
  function PatchIssue(i: Issue, description: Option<string>, location: Option<LocationBody>): (r: Issue)
    ensures r.description == if description.Some? then description else i.description
    ensures r.location.landmark ==
              if location.Some? && location.value.landmark.Some? then location.value.landmark else i.location.landmark
    ensures r.location.latitude == i.location.latitude && r.location.longitude == i.location.longitude
    ensures r.(description := i.description, location := i.location) == i
  {
    var withDescription := if description.Some? then i.(description := description) else i;
    if location.Some? && location.value.landmark.Some? then
      withDescription.(location := withDescription.location.(landmark := location.value.landmark))
    else withDescription
  }

  /** `findByIdAndUpdate` on the whole store. */
  function UpdateById(s: seq<Issue>, id: IssueId, description: Option<string>, location: Option<LocationBody>): (r: seq<Issue>)
    ensures |r| == |s|
    ensures forall j :: 0 <= j < |s| && j != FindIndex(s, id) ==> r[j] == s[j]
    ensures FindIndex(s, id) >= 0 ==>
              r[FindIndex(s, id)] == PatchIssue(s[FindIndex(s, id)], description, location)
    ensures forall j :: 0 <= j < |s| ==> r[j].id == s[j].id
  {
    var k := FindIndex(s, id);
    if k < 0 then s else s[k := PatchIssue(s[k], description, location)]
  }

  /** Sending the same update twice leaves the store as sending it once. */
  lemma {:induction false} UpdateByIdIdempotent(s: seq<Issue>, id: IssueId, description: Option<string>, location: Option<LocationBody>)
    ensures UpdateById(UpdateById(s, id, description, location), id, description, location)
            == UpdateById(s, id, description, location)
  {
    var once := UpdateById(s, id, description, location);
    var k := FindIndex(s, id);
    assert FindIndex(once, id) == k by {
      if k >= 0 {
        assert once[k].id == id;
        assert forall j :: 0 <= j < k ==> once[j].id != id;
      } else {
        assert forall j :: 0 <= j < |once| ==> once[j].id != id;
      }
    }
    if k >= 0 {
      var p := PatchIssue(s[k], description, location);
      assert PatchIssue(p, description, location) == p;
    }
  }

  /** `findByIdAndDelete` on the whole store. */
  function DeleteById(s: seq<Issue>, id: IssueId): (r: seq<Issue>)
    ensures FindIndex(s, id) < 0 ==> r == s
    ensures FindIndex(s, id) >= 0 ==> r == s[..FindIndex(s, id)] + s[FindIndex(s, id) + 1..]
  {
    var k := FindIndex(s, id);
    if k < 0 then s else s[..k] + s[k + 1..]
  }

  /** Position `j` of the store after removing position `k`. */
  lemma RemoveAtIndex(s: seq<Issue>, k: nat, j: nat)
    requires k < |s| && j < |s| - 1
    ensures (s[..k] + s[k + 1..])[j] == if j < k then s[j] else s[j + 1]
  {
  }

  /**
   * Deleting an existing id removes exactly that issue, keeps the others with unique ids,
   * and leaves nothing with that id behind: deleting it again finds nothing.
   */
  lemma DeleteRemovesExactlyOne(s: seq<Issue>, id: IssueId)
    requires UniqueIds(s) && FindIndex(s, id) >= 0
    ensures multiset(DeleteById(s, id)) + multiset{s[FindIndex(s, id)]} == multiset(s)
    ensures UniqueIds(DeleteById(s, id))
    ensures FindIndex(DeleteById(s, id), id) < 0
    ensures |DeleteById(s, id)| == |s| - 1
  {
    var k := FindIndex(s, id);
    var r := DeleteById(s, id);
    assert s == s[..k] + [s[k]] + s[k + 1..];
    forall j | 0 <= j < |r|
      ensures r[j].id != id
    {
      RemoveAtIndex(s, k, j);
    }
    forall i, j | 0 <= i < j < |r|
      ensures r[i].id != r[j].id
    {
      RemoveAtIndex(s, k, i);
      RemoveAtIndex(s, k, j);
    }
  }

  /** The request of PATCH /api/update-issue. */
  datatype UpdateRequest = UpdateRequest(id: Option<IssueId>, description: Option<string>, location: Option<LocationBody>)

  class IssueStore {
    var issues: seq<Issue>
    var nextId: nat

    ghost predicate Valid()
      reads this
    {
      && UniqueIds(issues)
      && (forall i :: 0 <= i < |issues| ==> issues[i].id < nextId && ValidIssue(issues[i]))
    }

    constructor ()
      ensures Valid() && issues == [] && nextId == 0
    {
      issues := [];
      nextId := 0;
    }

    /**
     * POST /api/issues: creates the issue from the eight named fields. On success the new
     * issue, with a fresh id and the clock's time, is appended and returned with 201; a
     * schema violation answers 500 and stores nothing.
     */
    method Create(body: IssueBody, now: int) returns (r: Reply<Issue>)
      requires Valid()
      modifies this
      ensures Valid()
      ensures CastIssue(body, old(nextId), now).Ok? ==>
        && r == Done(CREATED, CastIssue(body, old(nextId), now).value)
        && issues == old(issues) + [r.value]
        && r.value.id !in (set i | i in old(issues) :: i.id)
      ensures CastIssue(body, old(nextId), now).Err? ==>
        && r == Refused(SERVER_ERROR, CastIssue(body, old(nextId), now).message)
        && issues == old(issues) && nextId == old(nextId)
    {
      var created := CastIssue(body, nextId, now);
      if created.Err? {
        return Refused(SERVER_ERROR, created.message);
      }
      issues := issues + [created.value];
      nextId := nextId + 1;
      r := Done(CREATED, created.value);
    }

    /**
     * PATCH /api/update-issue: 400 without an id; 404 when no issue has it; otherwise the
     * issue's description and landmark are overwritten where the request gives them, and
     * the updated issue is returned.
     */
    method Update(req: UpdateRequest) returns (r: Reply<Issue>)
      requires Valid()
      modifies this
      ensures Valid() && nextId == old(nextId)
      ensures req.id.None? ==> r == Refused(BAD_REQUEST, "Issue ID required") && issues == old(issues)
      ensures req.id.Some? && FindIndex(old(issues), req.id.value) < 0 ==>
        r == Refused(NOT_FOUND, "Issue not found") && issues == old(issues)
      ensures req.id.Some? && FindIndex(old(issues), req.id.value) >= 0 ==>
        && r == Done(OK, PatchIssue(old(issues)[FindIndex(old(issues), req.id.value)], req.description, req.location))
        && issues == UpdateById(old(issues), req.id.value, req.description, req.location)
    {
      if req.id.None? {
        return Refused(BAD_REQUEST, "Issue ID required");
      }
      var k := FindIndex(issues, req.id.value);
      if k < 0 {
        return Refused(NOT_FOUND, "Issue not found");
      }
      var updated := PatchIssue(issues[k], req.description, req.location);
      issues := issues[k := updated];
      r := Done(OK, updated);
    }

    /**
     * DELETE /api/delete-issue: 400 without an id; 404 when no issue has it; otherwise the
     * issue is removed.
     */
    method Delete(id: Option<IssueId>) returns (r: Reply<()>)
      requires Valid()
      modifies this
      ensures Valid() && nextId == old(nextId)
      ensures id.None? ==> r == Refused(BAD_REQUEST, "Issue ID required") && issues == old(issues)
      ensures id.Some? && FindIndex(old(issues), id.value) < 0 ==>
        r == Refused(NOT_FOUND, "Issue not found") && issues == old(issues)
      ensures id.Some? && FindIndex(old(issues), id.value) >= 0 ==>
        r == Done(OK, ()) && issues == DeleteById(old(issues), id.value)
    {
      if id.None? {
        return Refused(BAD_REQUEST, "Issue ID required");
      }
      var k := FindIndex(issues, id.value);
      if k < 0 {
        return Refused(NOT_FOUND, "Issue not found");
      }
      DeleteRemovesExactlyOne(issues, id.value);
      ghost var was := issues;
      issues := issues[..k] + issues[k + 1..];
      forall j | 0 <= j < |issues|
        ensures issues[j].id < nextId && ValidIssue(issues[j])
      {
        RemoveAtIndex(was, k, j);
      }
      r := Done(OK, ());
    }
  }

  /** Deleting the same id twice: the second request is answered 404. */
  method DeleteTwice(store: IssueStore, id: IssueId) returns (first: Reply<()>, second: Reply<()>)
    requires store.Valid() && FindIndex(store.issues, id) >= 0
    modifies store
    ensures first.status == OK && second.status == NOT_FOUND
  {
    first := store.Delete(Some(id));
    DeleteRemovesExactlyOne(old(store.issues), id);
    second := store.Delete(Some(id));
  }
}
