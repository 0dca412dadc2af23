/**
 * events/notification.go: the notification event the services publish.
 * EventID and CreatedAt come from uuid.New and time.Now and are not part of
 * this model; Validate never reads them.
 */
module Events {
  import opened Wrappers

  datatype NotificationEvent = NotificationEvent(
    userId: int,
    notificationType: string,   // email | sms | push
    action: string,
    title: string,
    message: string,
    target: string,             // email address, phone number or device token
    metadata: map<string, string>)

  /** The fields Validate requires: a non-negative user ID and four non-empty strings. */
  predicate Complete(e: NotificationEvent) {
    e.userId >= 0 && e.notificationType != "" && e.message != "" && e.target != "" && e.action != ""
  }

  /**
   * NotificationEvent.Validate: the checks run in the order user ID, type,
   * message, target, action, and the first failing one names the error.
   */
  function Validate(e: NotificationEvent): (err: Option<string>)
    ensures err.None? <==> Complete(e)
    ensures e.userId < 0 ==> err == Some("user_id required")
    ensures e.userId >= 0 && e.notificationType == "" ==> err == Some("notification_type required")
    ensures e.userId >= 0 && e.notificationType != "" && e.message == "" ==> err == Some("message required")
    ensures e.userId >= 0 && e.notificationType != "" && e.message != "" && e.target == "" ==>
              err == Some("target required")
    ensures e.userId >= 0 && e.notificationType != "" && e.message != "" && e.target != "" && e.action == "" ==>
              err == Some("Action Required")
  {
    if e.userId < 0 then Some("user_id required")
    else if e.notificationType == "" then Some("notification_type required")
    else if e.message == "" then Some("message required")
    else if e.target == "" then Some("target required")
    else if e.action == "" then Some("Action Required")
    else None
  }

  /** Title and metadata are never checked. */
  lemma UncheckedFieldsIgnored(e: NotificationEvent, title: string, metadata: map<string, string>)
    ensures Validate(e.(title := title, metadata := metadata)) == Validate(e)
  {
  }

  /**
   * utils/notifcation_helper.go NewEmailNotificationEvent (without the ID and
   * time stamp): an e-mail notification for one user.
   */
  function EmailEvent(userId: int, action: string, title: string, message: string, target: string,
                      metadata: map<string, string>): (e: NotificationEvent)
    ensures e.notificationType == "email" && e.userId == userId && e.target == target
    ensures Validate(e).None? <==> userId >= 0 && action != "" && message != "" && target != ""
  {
    NotificationEvent(userId, "email", action, title, message, target, metadata)
  }
}
