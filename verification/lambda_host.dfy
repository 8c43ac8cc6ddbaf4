/**
 The handlers of the serverless host (LambdaEntryPoint.cs). The body is read from
 the request and is null for a JSON `null` body, so it is an `Option`. This host checks only that a
 title is present and not blank; it has no length limit and sends no `Location`.
 */
module LambdaHost {
  import opened Wrappers
  import opened Text
  import opened Tasks
  import TaskService
  import opened Http

  const TitleRequiredError := "Title is required"
  const NotFoundError := "Not found"
  const ListLimit := 100

  /** `string.IsNullOrWhiteSpace(task?.Title)`: a JSON `null` body, no title, or a blank one. */
  predicate TitleMissing(body: Option<TodoTask>) {
    body.None? || IsNullOrWhiteSpace(body.value.title)
  }

  /** GET /todos: the first scan page, always asked for with limit 100. */
  function ListTodos(db: Store, scanOrder: seq<string>, call: TaskService.Call): (h: Handled)
    ensures h.db == db
    ensures call.Failed? ==> h.reply == Rethrow(call.error)
    ensures call.Answered? ==> h.reply.Respond? && h.reply.status == StatusOk && h.reply.body.TaskList?
    ensures call.Answered? ==> forall t :: t in h.reply.body.tasks ==> t in db.Values
    ensures call.Answered? ==> forall k :: k in scanOrder && k in db ==> db[k] in h.reply.body.tasks
  {
    match TaskService.GetAll(db, ListLimit, scanOrder, call)
    case Failure(e) => Handled(Rethrow(e), db)
    case Success(tasks) => Handled(Respond(StatusOk, TaskList(tasks), None), db)
  }

  /** GET /todos/{id}: the stored task, or 404 with error "Not found". */
  function GetTodo(db: Store, id: string, call: TaskService.Call): (h: Handled)
    ensures h.db == db
    ensures call.Failed? ==> h.reply == Rethrow(call.error)
    ensures call.Answered? && id in db ==> h.reply == Respond(StatusOk, OneTask(db[id]), None)
    ensures call.Answered? && id !in db ==> h.reply == Respond(StatusNotFound, ErrorJson(NotFoundError), None)
  {
    match TaskService.GetById(db, id, call)
    case Failure(e) => Handled(Rethrow(e), db)
    case Success(None) => Handled(Respond(StatusNotFound, ErrorJson(NotFoundError), None), db)
    case Success(Some(t)) => Handled(Respond(StatusOk, OneTask(t), None), db)
  }

  /** POST /todos: reject a missing or blank title, otherwise replace the id by
      `newId`, save, and answer 201 with the saved task. */
  function PostTodo(db: Store, body: Option<TodoTask>, newId: string, call: TaskService.Call): (h: Handled)
    ensures TitleMissing(body) ==>
              h == Handled(Respond(StatusBadRequest, ErrorJson(TitleRequiredError), None), db)
    ensures !TitleMissing(body) && call.Failed? ==> h == Handled(Rethrow(call.error), db)
    ensures HasStatus(h, StatusCreated) <==> !TitleMissing(body) && call.Answered?
    ensures HasStatus(h, StatusCreated) ==>
              var saved := body.value.(id := newId);
              h.reply == Respond(StatusCreated, OneTask(saved), None) && h.db == db[newId := saved]
    ensures !HasStatus(h, StatusCreated) ==> h.db == db
  {
    if TitleMissing(body) then Handled(Respond(StatusBadRequest, ErrorJson(TitleRequiredError), None), db)
    else
      var saved := body.value.(id := newId);
      match TaskService.Create(db, saved, call)
      case Failure(e) => Handled(Rethrow(e), db)
      case Success(db') => Handled(Respond(StatusCreated, OneTask(saved), None), db')
  }

  /** PUT /todos/{id}: reject a missing or blank title, then require the id to exist,
      then save the body under the route id. */
  function PutTodo(db: Store, id: string, body: Option<TodoTask>, lookup: TaskService.Call, save: TaskService.Call): (h: Handled)
    ensures TitleMissing(body) ==>
              h == Handled(Respond(StatusBadRequest, ErrorJson(TitleRequiredError), None), db)
    ensures !TitleMissing(body) && lookup.Failed? ==> h == Handled(Rethrow(lookup.error), db)
    ensures !TitleMissing(body) && lookup.Answered? && id !in db ==>
              h == Handled(Respond(StatusNotFound, ErrorJson(NotFoundError), None), db)
    ensures !TitleMissing(body) && lookup.Answered? && id in db && save.Failed? ==>
              h == Handled(Rethrow(save.error), db)
    ensures HasStatus(h, StatusOk) <==> !TitleMissing(body) && lookup.Answered? && id in db && save.Answered?
    ensures HasStatus(h, StatusOk) ==>
              var saved := body.value.(id := id);
              h.reply == Respond(StatusOk, OneTask(saved), None) && h.db == db[id := saved]
    ensures !HasStatus(h, StatusOk) ==> h.db == db
    ensures h.db.Keys == db.Keys
  {
    if TitleMissing(body) then Handled(Respond(StatusBadRequest, ErrorJson(TitleRequiredError), None), db)
    else
      match TaskService.GetById(db, id, lookup)
      case Failure(e) => Handled(Rethrow(e), db)
      case Success(None) => Handled(Respond(StatusNotFound, ErrorJson(NotFoundError), None), db)
      case Success(Some(_)) =>
        var saved := body.value.(id := id);
        match TaskService.Update(db, saved, save)
        case Failure(e) => Handled(Rethrow(e), db)
        case Success(db') => Handled(Respond(StatusOk, OneTask(saved), None), db')
  }

  /** DELETE /todos/{id}: remove the key and answer 204 with no body, present or not. */
  function DeleteTodo(db: Store, id: string, call: TaskService.Call): (h: Handled)
    ensures call.Failed? ==> h == Handled(Rethrow(call.error), db)
    ensures call.Answered? ==> h.reply == Respond(StatusNoContent, NoBody, None)
    ensures call.Answered? ==> h.db.Keys == db.Keys - {id}
    ensures forall k :: k in h.db ==> h.db[k] == db[k]
  {
    match TaskService.Delete(db, id, call)
    case Failure(e) => Handled(Rethrow(e), db)
    case Success(db') => Handled(Respond(StatusNoContent, NoBody, None), db')
  }
}
