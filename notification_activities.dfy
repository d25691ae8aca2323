/** The push-notification activity: one validation branch, then a fresh
    response dictionary. Device lookup and delivery are not modelled. */
module NotificationActivities {
  import opened Wrappers
  import opened Strings
  import opened Statuses

  /** The request dictionary; `data` is the optional payload. */
  datatype NotificationRequest = NotificationRequest(
    userId: Option<string>,
    title: Option<string>,
    body: Option<string>,
    data: Option<map<string, string>>)

  datatype Notification = Notification(title: string, body: string, data: map<string, string>)

  datatype NotificationResponse = NotificationResponse(
    status: string,
    deliveryStatus: string,
    timestamp: string,
    userId: Option<string>,
    notification: Option<Notification>)

  const MISSING_NOTIFICATION_PARAMETERS: string := "Missing required parameters: user_id, title, body"
  const DELIVERED: string := "Notification sent to all user devices"

  predicate HasRequiredParameters(request: NotificationRequest) {
    Given(request.userId) && Given(request.title) && Given(request.body)
  }

  /** `send_push_notification`; `now` is the clock reading every response
      carries. */
  function SendPushNotification(request: NotificationRequest, now: string): (r: NotificationResponse)
    ensures r.status == SUCCESS || r.status == FAILED
    ensures r.timestamp == now
    ensures r.status == SUCCESS <==> HasRequiredParameters(request)
    ensures r.status == FAILED ==>
              r.deliveryStatus == MISSING_NOTIFICATION_PARAMETERS && r.userId == None && r.notification == None
    ensures r.status == SUCCESS ==>
              && r.userId == request.userId
              && r.notification == Some(Notification(request.title.value, request.body.value, request.data.GetOr(map[])))
  {
    var data := request.data.GetOr(map[]);
    if !HasRequiredParameters(request) then
      NotificationResponse(FAILED, MISSING_NOTIFICATION_PARAMETERS, now, None, None)
    else
      NotificationResponse(SUCCESS, DELIVERED, now, request.userId,
                           Some(Notification(request.title.value, request.body.value, data)))
  }
}
