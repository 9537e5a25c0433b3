/**
 * The User collection and its handlers: POST /api/users (upsert on sign-in),
 * GET /api/points and GET /api/leaderboard.
 */
module UserRoutes {
  import opened Wrappers
  import opened Http
  import opened Seqs
  import opened UserModel

  /** No two stored users share an `_id`. */
  predicate UniqueUserIds(s: seq<User>)
  {
    forall i, j :: 0 <= i < j < |s| ==> s[i].id != s[j].id
  }

  /** `findOne({ _id: id })`: the position of the user with that id, or -1. */
  function FindUser(s: seq<User>, id: string): (k: int)
    ensures -1 <= k < |s|
    ensures k >= 0 ==> s[k].id == id && forall j :: 0 <= j < k ==> s[j].id != id
    ensures k < 0 ==> forall j :: 0 <= j < |s| ==> s[j].id != id
  {
    FirstIndex((u: User) => u.id == id, s)
  }

  /**
   * `findOneAndUpdate({ _id: id }, { $setOnInsert: { name, email, role: "user" } },
   * { upsert: true, setDefaultsOnInsert: true })` on the whole store.
   */
  function UpsertUser(s: seq<User>, id: string, name: Option<string>, email: Option<string>, now: int): (r: seq<User>)
    requires id != ""
    ensures FindUser(s, id) >= 0 ==> r == s
    ensures FindUser(s, id) < 0 ==> r == s + [NewUser(id, name, email, now)]
  {
    if FindUser(s, id) >= 0 then s else s + [NewUser(id, name, email, now)]
  }

  /**
   * A second identical upsert changes nothing, whatever the clock says; the store keeps
   * unique ids and afterwards holds a user with that id.
   */
  lemma {:induction false} UpsertUserIdempotent(s: seq<User>, id: string, name: Option<string>, email: Option<string>, now: int, later: int)
    requires id != ""
    ensures var once := UpsertUser(s, id, name, email, now);
            UpsertUser(once, id, name, email, later) == once && FindUser(once, id) >= 0
    ensures UniqueUserIds(s) ==> UniqueUserIds(UpsertUser(s, id, name, email, now))
  {
    var once := UpsertUser(s, id, name, email, now);
    if FindUser(s, id) < 0 {
      assert once[|s|].id == id;
      assert FindUser(once, id) >= 0;
    }
  }

  class UserStore {
    var users: seq<User>

    ghost predicate Valid()
      reads this
    {
      UniqueUserIds(users) && forall i :: 0 <= i < |users| ==> ValidUser(users[i])
    }

    constructor ()
      ensures Valid() && users == []
    {
      users := [];
    }

    /**
     * POST /api/users: 401 without a session user id; otherwise the user with that id,
     * inserted with the given name and email, role "user" and the schema defaults when it
     * does not exist yet, returned unchanged when it does.
     */
    method Upsert(session: Option<string>, name: Option<string>, email: Option<string>, now: int) returns (r: Reply<User>)
      requires Valid()
      modifies this
      ensures Valid()
      ensures !Truthy(session) ==> r == Refused(UNAUTHORIZED, "Unauthorized") && users == old(users)
      ensures Truthy(session) ==> users == UpsertUser(old(users), session.value, name, email, now)
      ensures Truthy(session) ==> r.Done? && r.status == OK && r.value.id == session.value
      ensures Truthy(session) && FindUser(old(users), session.value) >= 0 ==>
                r.value == old(users)[FindUser(old(users), session.value)]
      ensures Truthy(session) && FindUser(old(users), session.value) < 0 ==>
                r.value == NewUser(session.value, name, email, now)
    {
      if !Truthy(session) {
        return Refused(UNAUTHORIZED, "Unauthorized");
      }
      var id := session.value;
      var k := FindUser(users, id);
      if k >= 0 {
        return Done(OK, users[k]);
      }
      var user := NewUser(id, name, email, now);
      users := users + [user];
      r := Done(OK, user);
    }
  }

  /** `findOne({ email })`: the position of the first user with that email, or -1. */
  function FindByEmail(s: seq<User>, email: string): (k: int)
    ensures -1 <= k < |s|
    ensures k >= 0 ==> s[k].email == Some(email) && forall j :: 0 <= j < k ==> s[j].email != Some(email)
    ensures k < 0 ==> forall j :: 0 <= j < |s| ==> s[j].email != Some(email)
  {
    FirstIndex((u: User) => u.email == Some(email), s)
  }

  /**
   * GET /api/points: 400 without an email, 404 when no user has it, otherwise the points
   * of the first user with that email.
   */
  function Points(users: seq<User>, email: Option<string>): (r: Reply<int>)
    ensures !Truthy(email) <==> r == Refused(BAD_REQUEST, "Email not provided")
    ensures Truthy(email) ==>
              ((forall j :: 0 <= j < |users| ==> users[j].email != email) <==> r == Refused(NOT_FOUND, "User not found"))
    ensures r.Done? ==> (r.status == OK && Truthy(email) &&
              exists k :: 0 <= k < |users| && users[k].email == email && r.value == users[k].points)
  {
    if !Truthy(email) then Refused(BAD_REQUEST, "Email not provided")
    else
      var k := FindByEmail(users, email.value);
      if k < 0 then Refused(NOT_FOUND, "User not found")
      else Done(OK, users[k].points)
  }

  /**
   * One leaderboard entry: `.select("firstName email points")` keeps `_id` and the listed
   * paths; `firstName` is not a path of the schema, so it is never present.
   */
  datatype LeaderEntry = LeaderEntry(id: string, email: Option<string>, points: int)

  function Entry(u: User): LeaderEntry
  {
    LeaderEntry(u.id, u.email, u.points)
  }

  /** `.select(...)` applied to every document of the result. */
  function Entries(users: seq<User>): (r: seq<LeaderEntry>)
    ensures |r| == |users|
    ensures forall i :: 0 <= i < |r| ==> r[i] == Entry(users[i])
  {
    seq(|users|, i requires 0 <= i < |users| => Entry(users[i]))
  }

  const LeaderboardSize: nat := 3

  function ByPoints(u: User): int
  {
    u.points
  }

  /** `.sort({ points: -1 }).limit(3)`. */
  function TopUsers(users: seq<User>): (r: seq<User>)
    ensures |r| == if |users| < LeaderboardSize then |users| else LeaderboardSize
    ensures SortedDesc(r, ByPoints)
    ensures multiset(r) <= multiset(users)
    ensures forall i :: 0 <= i < |r| ==> r[i] in users
  {
    var sorted := SortDesc(users, ByPoints);
    TakeOfSorted(sorted, LeaderboardSize, ByPoints);
    assert forall u :: u in sorted ==> u in multiset(users);
    Take(sorted, LeaderboardSize)
  }

  /** A user that did not make the top of the board has no more points than the last one that did. */
  lemma {:induction false} LeftOutHaveNoMorePoints(users: seq<User>, u: User)
    requires u in users && u !in TopUsers(users)
    ensures |TopUsers(users)| == LeaderboardSize
    ensures u.points <= TopUsers(users)[LeaderboardSize - 1].points
  {
    var sorted := SortDesc(users, ByPoints);
    assert u in multiset(sorted);
    var j :| 0 <= j < |sorted| && sorted[j] == u;
    if |sorted| <= LeaderboardSize || j < LeaderboardSize {
      assert false;
    }
    assert ByPoints(sorted[LeaderboardSize - 1]) >= ByPoints(sorted[j]);
  }

  /** A user without an entry on the board is not among the users it was built from. */
  lemma NoEntryMeansLeftOut(top: seq<User>, u: User)
    requires Entry(u) !in Entries(top)
    ensures u !in top
  {
  }

  /**
   * GET /api/leaderboard: at most three entries, highest points first; with fewer than
   * three users, all of them; every user left off a full board has no more points than
   * its last entry.
   */
  function Leaderboard(users: seq<User>): (r: Reply<seq<LeaderEntry>>)
    ensures r.Done? && r.status == OK
    ensures r.value == Entries(TopUsers(users))
    ensures |r.value| == if |users| < LeaderboardSize then |users| else LeaderboardSize
    ensures forall i, j :: 0 <= i < j < |r.value| ==> r.value[i].points >= r.value[j].points
    ensures forall i :: 0 <= i < |r.value| ==> exists u :: u in users && r.value[i] == Entry(u)
    ensures forall u :: u in users && Entry(u) !in r.value ==>
              |r.value| == LeaderboardSize && u.points <= r.value[LeaderboardSize - 1].points
  {
    var top := TopUsers(users);
    var entries := Entries(top);
    forall u | u in users && Entry(u) !in entries
      ensures |entries| == LeaderboardSize && u.points <= entries[LeaderboardSize - 1].points
    {
      NoEntryMeansLeftOut(top, u);
      LeftOutHaveNoMorePoints(users, u);
    }
    forall i | 0 <= i < |entries|
      ensures exists u :: u in users && entries[i] == Entry(u)
    {
      assert top[i] in users;
    }
    forall i, j | 0 <= i < j < |entries|
      ensures entries[i].points >= entries[j].points
    {
      assert ByPoints(top[i]) >= ByPoints(top[j]);
    }
    Done(OK, entries)
  }
}
