/** What a handler answers: an HTTP response, or the backend exception it lets
    escape, together with the table as the handler leaves it. */
module Http {
  import opened Wrappers
  import opened Tasks
  import opened TaskService

  const StatusOk := 200
  const StatusCreated := 201
  const StatusNoContent := 204
  const StatusBadRequest := 400
  const StatusNotFound := 404

  /** A JSON response body. */
  datatype Body =
    | NoBody
    | OneTask(task: TodoTask)
    | TaskList(tasks: seq<TodoTask>)
    | ErrorJson(error: string)

  /** A response with its status, body and `Location` header, or a backend error
      rethrown out of the handler (the hosting framework turns it into a 5xx). */
  datatype Reply =
    | Respond(status: int, body: Body, location: Option<string>)
    | Rethrow(error: BackendError)

  datatype Handled = Handled(reply: Reply, db: Store)

  /** The URL of a task. */
  function TodoPath(id: string): (p: string)
    ensures |p| == |id| + 7
    ensures p[..7] == "/todos/"
    ensures p[7..] == id
  {
    "/todos/" + id
  }

  /** True when the handler answered with `status`. */
  predicate HasStatus(h: Handled, status: int) {
    h.reply.Respond? && h.reply.status == status
  }
}
