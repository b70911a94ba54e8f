/** The responses the request handlers of views.py return. */
module Http {
  import opened Messages

  const OK: nat := 200
  const BAD_REQUEST: nat := 400
  /** What the framework answers when a handler raises. */
  const SERVER_ERROR: nat := 500

  /** One element of the activity list: the six keys the list handler fills in. */
  datatype ActivityEntry = ActivityEntry(
    name: string,
    username: string,
    minutesSpentToday: int,
    minutesSpentThisWeek: int,
    minutesSpentThisMonth: int,
    minutesSpentInTotal: int)

  datatype Body =
    | MessageBody(message: string)                     // {'message': ...}
    | DetailBody(detail: string)                       // {'detail': ...}
    | FieldErrors(field: string)                       // serializer.errors for that field
    | ActivityCreated(name: string, username: string)  // {'data': {'name': ...}, 'name': username}
    | ActivityRenamed(name: string, username: string)  // {'name': ..., 'username': ...}
    | ActivityList(entries: seq<ActivityEntry>)
    | MessageList(records: seq<PrivateMessage>)
    | Uncaught                                         // the handler raised

  datatype Response = Response(status: nat, body: Body)
}
