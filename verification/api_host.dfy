/**
 The handlers of the standalone host (Program.cs). The request body is already
 bound to a task by the framework; `newId` is the GUID string the POST handler
 draws, and each backend request takes its own `Call`.
 */
module ApiHost {
  import opened Wrappers
  import opened Text
  import opened Tasks
  import TaskService
  import opened Http

  const MaxTitleLength := 200
  const BlankTitleError := "Title is required and cannot be empty"
  const LongTitleError := "Title cannot exceed 200 characters"
  const DefaultLimit := 100

  datatype TitleCheck = TitleOk | TitleBlank | TitleTooLong

  /** The title validation shared by POST and PUT: the blank check first, then the
      length check on UTF-16 code units. */
  function CheckTitle(title: Option<string>): (v: TitleCheck)
    ensures v == TitleBlank <==> IsNullOrWhiteSpace(title)
    ensures v == TitleTooLong <==> !IsNullOrWhiteSpace(title) && Utf16Length(title.value) > MaxTitleLength
    ensures v == TitleOk ==> title.Some? && 0 < Utf16Length(title.value) <= MaxTitleLength
  {
    if IsNullOrWhiteSpace(title) then TitleBlank
    else if Utf16Length(title.value) > MaxTitleLength then TitleTooLong
    else TitleOk
  }

  /** The 400 answer for a rejected title; it leaves the table alone. */
  function Rejection(check: TitleCheck): (r: Reply)
    requires check != TitleOk
    ensures r.Respond? && r.status == StatusBadRequest && r.location.None?
    ensures check == TitleBlank ==> r.body == ErrorJson(BlankTitleError)
    ensures check == TitleTooLong ==> r.body == ErrorJson(LongTitleError)
  {
    Respond(StatusBadRequest, ErrorJson(if check == TitleBlank then BlankTitleError else LongTitleError), None)
  }

  /** GET /todos?limit=N: the first scan page; `limit` defaults to 100 and is not
      applied to the page. */
  function ListTodos(db: Store, limit: Option<int>, scanOrder: seq<string>, call: TaskService.Call): (h: Handled)
    ensures h.db == db
    ensures call.Failed? ==> h.reply == Rethrow(call.error)
    ensures call.Answered? ==> h.reply.Respond? && h.reply.status == StatusOk && h.reply.body.TaskList?
    ensures call.Answered? ==> forall t :: t in h.reply.body.tasks ==> t in db.Values
    ensures call.Answered? ==> forall k :: k in scanOrder && k in db ==> db[k] in h.reply.body.tasks
  {
    match TaskService.GetAll(db, limit.GetOr(DefaultLimit), scanOrder, call)
    case Failure(e) => Handled(Rethrow(e), db)
    case Success(tasks) => Handled(Respond(StatusOk, TaskList(tasks), None), db)
  }

  /** GET /todos/{id}: 200 with the stored task, or 404 with an empty body. */
  function GetTodo(db: Store, id: string, call: TaskService.Call): (h: Handled)
    ensures h.db == db
    ensures call.Failed? ==> h.reply == Rethrow(call.error)
    ensures call.Answered? && id in db ==> h.reply == Respond(StatusOk, OneTask(db[id]), None)
    ensures call.Answered? && id !in db ==> h.reply == Respond(StatusNotFound, NoBody, None)
  {
    match TaskService.GetById(db, id, call)
    case Failure(e) => Handled(Rethrow(e), db)
    case Success(None) => Handled(Respond(StatusNotFound, NoBody, None), db)
    case Success(Some(t)) => Handled(Respond(StatusOk, OneTask(t), None), db)
  }

  /** POST /todos: validate the title, replace the client's id by `newId`, save,
      and answer 201 with the saved task and its location. */
  function PostTodo(db: Store, body: TodoTask, newId: string, call: TaskService.Call): (h: Handled)
    ensures CheckTitle(body.title) != TitleOk ==> h == Handled(Rejection(CheckTitle(body.title)), db)
    ensures CheckTitle(body.title) == TitleOk && call.Failed? ==> h == Handled(Rethrow(call.error), db)
    ensures HasStatus(h, StatusCreated) <==> CheckTitle(body.title) == TitleOk && call.Answered?
    ensures HasStatus(h, StatusCreated) ==>
              var saved := body.(id := newId);
              && h.reply.body == OneTask(saved)
              && h.reply.location == Some(TodoPath(newId))
              && h.db == db[newId := saved]
    ensures !HasStatus(h, StatusCreated) ==> h.db == db
  {
    var check := CheckTitle(body.title);
    if check != TitleOk then Handled(Rejection(check), db)
    else
      var saved := body.(id := newId);
      match TaskService.Create(db, saved, call)
      case Failure(e) => Handled(Rethrow(e), db)
      case Success(db') => Handled(Respond(StatusCreated, OneTask(saved), Some(TodoPath(newId))), db')
  }

  /** The 404 error of PUT on an absent id. */
  function MissingTaskError(id: string): string {
    "Task with ID '" + id + "' not found"
  }

  /** PUT /todos/{id}: validate the title, then require the id to exist, then save
      the body under the route id, replacing the whole record. */
  function PutTodo(db: Store, id: string, body: TodoTask, lookup: TaskService.Call, save: TaskService.Call): (h: Handled)
    ensures CheckTitle(body.title) != TitleOk ==> h == Handled(Rejection(CheckTitle(body.title)), db)
    ensures CheckTitle(body.title) == TitleOk && lookup.Failed? ==> h == Handled(Rethrow(lookup.error), db)
    ensures CheckTitle(body.title) == TitleOk && lookup.Answered? && id !in db ==>
              h == Handled(Respond(StatusNotFound, ErrorJson(MissingTaskError(id)), None), db)
    ensures CheckTitle(body.title) == TitleOk && lookup.Answered? && id in db && save.Failed? ==>
              h == Handled(Rethrow(save.error), db)
    ensures HasStatus(h, StatusOk) <==>
              CheckTitle(body.title) == TitleOk && lookup.Answered? && id in db && save.Answered?
    ensures HasStatus(h, StatusOk) ==>
              var saved := body.(id := id);
              h.reply == Respond(StatusOk, OneTask(saved), None) && h.db == db[id := saved]
    ensures !HasStatus(h, StatusOk) ==> h.db == db
    ensures h.db.Keys == db.Keys
  {
    var check := CheckTitle(body.title);
    if check != TitleOk then Handled(Rejection(check), db)
    else
      match TaskService.GetById(db, id, lookup)
      case Failure(e) => Handled(Rethrow(e), db)
      case Success(None) => Handled(Respond(StatusNotFound, ErrorJson(MissingTaskError(id)), None), db)
      case Success(Some(_)) =>
        var saved := body.(id := id);
        match TaskService.Update(db, saved, save)
        case Failure(e) => Handled(Rethrow(e), db)
        case Success(db') => Handled(Respond(StatusOk, OneTask(saved), None), db')
  }

  /** DELETE /todos/{id}: remove the key and answer 204, present or not. */
  function DeleteTodo(db: Store, id: string, call: TaskService.Call): (h: Handled)
    ensures call.Failed? ==> h == Handled(Rethrow(call.error), db)
    ensures call.Answered? ==> h.reply == Respond(StatusNoContent, NoBody, None)
    ensures call.Answered? ==> h.db.Keys == db.Keys - {id}
    ensures forall k :: k in h.db ==> h.db[k] == db[k]
  {
    match TaskService.Delete(db, id, call)
    case Failure(e) => Handled(Rethrow(e), db)
    case Success(db') => Handled(Respond(StatusNoContent, NoBody, None), db')
  }
}
