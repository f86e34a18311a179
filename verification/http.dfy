/** HTTP responses as the backend writes them: a status code and a JSON body. */
module Http {
  import opened TaskModel
  import opened Listing

  /** The optional second member of an error body. */
  datatype ErrorExtra =
    | NoExtra
    | Details(items: seq<string>)
    | DetailText(text: string)
    | Stack(trace: string)
    | RoutePath(path: string)

  datatype Body =
    | TaskJson(task: Task)
    | TaskArray(tasks: seq<Task>)
    | TaskPage(tasks: seq<Task>, pagination: Pagination)
    | Message(message: string)
    | Health(timestamp: Instant)
    | ErrorJson(error: string, extra: ErrorExtra)

  datatype Response = Response(status: int, body: Body)

  /** `{ error: message }` with the given status. */
  function Fail(status: int, message: string): (r: Response)
    ensures r.status == status && r.body.ErrorJson? && r.body.error == message && r.body.extra == NoExtra
  {
    Response(status, ErrorJson(message, NoExtra))
  }
}
