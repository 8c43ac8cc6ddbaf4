/** Properties of the serverless host's handlers that relate several calls or
    several inputs. */
module LambdaProperties {
  import opened Wrappers
  import opened Text
  import opened Tasks
  import TaskService
  import opened Http
  import opened LambdaHost

  /** Any title that is not blank is stored, however long: 1000 code units pass. */
  lemma NoLengthLimit(db: Store, generated: string, newId: string)
    ensures Utf16Length(Repeat('a', 1000)) == 1000
    ensures var body := NewTask(generated).(title := Some(Repeat('a', 1000)));
            var h := PostTodo(db, Some(body), newId, TaskService.Answered);
            HasStatus(h, StatusCreated) && h.db[newId].title == Some(Repeat('a', 1000))
  {
    Utf16LengthRepeat('a', 1000);
    RepeatNotBlank('a', 1000);
  }

  /** A JSON `null` body and a default task are both refused with "Title is required". */
  lemma MissingOrDefaultBodyRejected(db: Store, generated: string, newId: string, id: string, call: TaskService.Call, save: TaskService.Call)
    ensures PostTodo(db, None, newId, call)
         == Handled(Respond(StatusBadRequest, ErrorJson("Title is required"), None), db)
    ensures PostTodo(db, Some(NewTask(generated)), newId, call)
         == Handled(Respond(StatusBadRequest, ErrorJson("Title is required"), None), db)
    ensures PutTodo(db, id, None, call, save)
         == Handled(Respond(StatusBadRequest, ErrorJson("Title is required"), None), db)
  {
  }

  /** PUT checks the title before it looks the id up. */
  lemma PutValidatesBeforeLookup(db: Store, id: string, body: Option<TodoTask>, lookup: TaskService.Call, save: TaskService.Call)
    requires id !in db
    requires TitleMissing(body)
    ensures HasStatus(PutTodo(db, id, body, lookup, save), StatusBadRequest)
  {
  }

  /** Reading the new id after a successful POST gives back the task it answered with. */
  lemma CreatedTaskIsReadable(db: Store, body: Option<TodoTask>, newId: string, call: TaskService.Call)
    requires HasStatus(PostTodo(db, body, newId, call), StatusCreated)
    ensures var h := PostTodo(db, body, newId, call);
            GetTodo(h.db, newId, TaskService.Answered).reply == Respond(StatusOk, h.reply.body, None)
  {
  }

  /** The body id never matters here either. */
  lemma BodyIdIsIgnored(db: Store, b1: TodoTask, b2: TodoTask, newId: string, id: string, call: TaskService.Call, save: TaskService.Call)
    requires b1.title == b2.title && b1.description == b2.description && b1.isCompleted == b2.isCompleted
    ensures PostTodo(db, Some(b1), newId, call) == PostTodo(db, Some(b2), newId, call)
    ensures PutTodo(db, id, Some(b1), call, save) == PutTodo(db, id, Some(b2), call, save)
  {
  }

  /** DELETE twice answers and leaves the table as DELETE once. */
  lemma DeleteTwiceIsDeleteOnce(db: Store, id: string)
    ensures var once := DeleteTodo(db, id, TaskService.Answered);
            DeleteTodo(once.db, id, TaskService.Answered) == once
  {
    TaskService.DeleteIdempotent(db, id);
  }
}
