/** The Notification document of models/Notification.js. */
module NotificationModel {
  import opened Wrappers
  import opened IssueModel

  /**
   * A stored notification: `usermail` is its recipient, `kind` the schema's free-text
   * `type` path, `createdAt` the `timestamps` option's creation time.
   */
  datatype Notification = Notification(
    id: nat,
    usermail: string,
    message: string,
    issueId: Option<IssueId>,
    kind: Option<string>,
    isRead: bool,
    createdAt: int)

  /** `usermail` and `message` are required strings. */
  predicate ValidNotification(n: Notification)
  {
    n.usermail != "" && n.message != ""
  }

  /**
   * `Notification.create`: succeeds exactly when both required strings are given and
   * non-empty; a new notification is unread.
   */
  function NewNotification(id: nat, usermail: Option<string>, message: Option<string>,
                           issueId: Option<IssueId>, kind: Option<string>, now: int): (r: Result<Notification>)
    ensures r.Ok? <==> Truthy(usermail) && Truthy(message)
    ensures r.Ok? ==> ValidNotification(r.value) && !r.value.isRead
    ensures r.Ok? ==> r.value.usermail == usermail.value && r.value.message == message.value
    ensures r.Ok? ==> r.value.issueId == issueId && r.value.kind == kind && r.value.createdAt == now
  {
    if Truthy(usermail) && Truthy(message) then
      Ok(Notification(id, usermail.value, message.value, issueId, kind, false, now))
    else Err("Notification validation failed")
  }
}
