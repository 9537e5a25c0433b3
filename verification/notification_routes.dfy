/**
 * The Notification collection and its handlers: GET /api/notifications,
 * PATCH /api/notifications/read-all and GET /api/notifications/unread-count.
 */
module NotificationRoutes {
  import opened Wrappers
  import opened Http
  import opened Seqs
  import opened NotificationModel

  /**
   * GET /api/notifications: without an email, `success: false` (with the default status
   * 200); otherwise exactly the notifications of that recipient, newest first.
   */
  function ListFor(store: seq<Notification>, email: Option<string>): (r: Reply<seq<Notification>>)
    ensures !Truthy(email) <==> r == Refused(OK, "Email required")
    ensures r.Done? ==> r.status == OK
    ensures r.Done? ==> forall i :: 0 <= i < |r.value| ==> r.value[i].usermail == email.value
    ensures r.Done? ==> forall i :: 0 <= i < |store| && store[i].usermail == email.value ==>
                          multiset(r.value)[store[i]] == multiset(store)[store[i]]
    ensures r.Done? ==> multiset(r.value) <= multiset(store)
    ensures r.Done? ==> forall i, j :: 0 <= i < j < |r.value| ==> r.value[i].createdAt >= r.value[j].createdAt
  {
    if !Truthy(email) then Refused(OK, "Email required")
    else
      Done(OK, SelectSorted((n: Notification) => n.usermail == email.value, store, (n: Notification) => n.createdAt))
  }

  /** The filter `{ usermail: email, isRead: false }`. */
  function UnreadFor(email: string): Notification -> bool
  {
    (n: Notification) => n.usermail == email && !n.isRead
  }

  function AddressedTo(email: string): Notification -> bool
  {
    (n: Notification) => n.usermail == email
  }

  /**
   * `updateMany({ usermail: email, isRead: false }, { isRead: true })`: every notification
   * of that recipient ends up read; nothing but `isRead` changes, and nothing of other
   * recipients.
   */
  function MarkRead(s: seq<Notification>, email: string): (r: seq<Notification>)
    ensures |r| == |s|
    ensures forall i :: 0 <= i < |s| ==> r[i].(isRead := s[i].isRead) == s[i]
    ensures forall i :: 0 <= i < |s| && s[i].usermail == email ==> r[i].isRead
    ensures forall i :: 0 <= i < |s| && s[i].usermail != email ==> r[i] == s[i]
  {
    seq(|s|, i requires 0 <= i < |s| => if s[i].usermail == email && !s[i].isRead then s[i].(isRead := true) else s[i])
  }

  /** Marking all read twice is marking all read once. */
  lemma MarkReadIdempotent(s: seq<Notification>, email: string)
    ensures MarkRead(MarkRead(s, email), email) == MarkRead(s, email)
  {
  }

  /**
   * GET /api/notifications/unread-count: 0 without an email, otherwise the number of
   * unread notifications of that recipient.
   */
  function UnreadCount(store: seq<Notification>, email: Option<string>): (r: Reply<nat>)
    ensures r.Done? && r.status == OK
    ensures !Truthy(email) ==> r.value == 0
    ensures Truthy(email) ==> r.value == |Filter(UnreadFor(email.value), store)|
    ensures Truthy(email) ==> r.value <= |Filter(AddressedTo(email.value), store)|
  {
    if !Truthy(email) then Done(OK, 0)
    else
      CountIfMonotone(UnreadFor(email.value), AddressedTo(email.value), store);
      Done(OK, CountIf(UnreadFor(email.value), store))
  }

  /** Right after read-all for an email, its unread count is zero. */
  lemma UnreadCountAfterMarkRead(s: seq<Notification>, email: string)
    requires email != ""
    ensures UnreadCount(MarkRead(s, email), Some(email)) == Done(OK, 0)
  {
    CountIfNone(UnreadFor(email), MarkRead(s, email));
  }

  class NotificationStore {
    var items: seq<Notification>

    constructor ()
      ensures items == []
    {
      items := [];
    }

    /**
     * PATCH /api/notifications/read-all: without an email, `success: false` and no change;
     * otherwise every notification of that recipient is marked read.
     */
    method MarkAllRead(email: Option<string>) returns (r: Reply<()>)
      modifies this
      ensures !Truthy(email) ==> r == Refused(OK, "Email required") && items == old(items)
      ensures Truthy(email) ==> r == Done(OK, ()) && items == MarkRead(old(items), email.value)
    {
      if !Truthy(email) {
        return Refused(OK, "Email required");
      }
      items := MarkRead(items, email.value);
      r := Done(OK, ());
    }
  }
}
