/** Properties of the standalone host's handlers that relate several calls or
    several inputs. */
module ApiProperties {
  import opened Wrappers
  import opened Text
  import opened Tasks
  import TaskService
  import opened Http
  import opened ApiHost

  /** A title of exactly 200 code units passes; one of 201 does not. */
  lemma LengthLimitIsInclusive()
    ensures CheckTitle(Some(Repeat('a', 200))) == TitleOk
    ensures CheckTitle(Some(Repeat('a', 201))) == TitleTooLong
  {
    Utf16LengthRepeat('a', 200);
    Utf16LengthRepeat('a', 201);
    RepeatNotBlank('a', 200);
    RepeatNotBlank('a', 201);
  }

  /** The limit is on UTF-16 code units: 101 characters outside the BMP are 202
      units and are refused. */
  lemma SurrogatePairsCountTwice()
    ensures |Repeat('\U{1F600}', 101)| == 101
    ensures CheckTitle(Some(Repeat('\U{1F600}', 101))) == TitleTooLong
  {
    Utf16LengthRepeat('\U{1F600}', 101);
    RepeatNotBlank('\U{1F600}', 101);
  }

  /** A title of white space only is refused as blank by POST and PUT whatever its
      length, so the blank check wins over the length check when both fail; such
      titles exist at every length, `n` spaces being one. */
  lemma BlankTakesPrecedence(db: Store, body: TodoTask, n: nat, newId: string, id: string, call: TaskService.Call, save: TaskService.Call)
    requires body.title.Some? && forall i :: 0 <= i < |body.title.value| ==> IsWs(body.title.value[i])
    ensures PostTodo(db, body, newId, call)
         == Handled(Respond(StatusBadRequest, ErrorJson(BlankTitleError), None), db)
    ensures PutTodo(db, id, body, call, save)
         == Handled(Respond(StatusBadRequest, ErrorJson(BlankTitleError), None), db)
    ensures IsNullOrWhiteSpace(Some(Repeat(' ', n))) && Utf16Length(Repeat(' ', n)) == n
  {
    Utf16LengthRepeat(' ', n);
  }

  /** A default task, which is also what `{"title": ""}` binds to, is refused as
      blank by both POST and PUT. */
  lemma DefaultTaskIsRejected(db: Store, generated: string, newId: string, id: string, call: TaskService.Call, save: TaskService.Call)
    ensures PostTodo(db, NewTask(generated), newId, call)
         == Handled(Respond(StatusBadRequest, ErrorJson("Title is required and cannot be empty"), None), db)
    ensures PutTodo(db, id, NewTask(generated), call, save)
         == Handled(Respond(StatusBadRequest, ErrorJson("Title is required and cannot be empty"), None), db)
  {
  }

  /** PUT validates before it looks the id up: a bad title on a missing id is a
      400, not a 404. */
  lemma PutValidatesBeforeLookup(db: Store, id: string, body: TodoTask, lookup: TaskService.Call, save: TaskService.Call)
    requires id !in db
    requires CheckTitle(body.title) != TitleOk
    ensures HasStatus(PutTodo(db, id, body, lookup, save), StatusBadRequest)
  {
  }

  /** Following the `Location` of a created task reads back the task the POST
      answered with. */
  lemma CreatedTaskIsReadable(db: Store, body: TodoTask, newId: string, call: TaskService.Call)
    requires HasStatus(PostTodo(db, body, newId, call), StatusCreated)
    ensures var h := PostTodo(db, body, newId, call);
            var path := h.reply.location.value;
            && |path| >= 7
            && GetTodo(h.db, path[7..], TaskService.Answered).reply == Respond(StatusOk, h.reply.body, None)
  {
  }

  /** The id in a POST or PUT body never matters: bodies that agree on the other
      fields get the same answer and leave the same table. */
  lemma BodyIdIsIgnored(db: Store, b1: TodoTask, b2: TodoTask, newId: string, id: string, call: TaskService.Call, save: TaskService.Call)
    requires b1.title == b2.title && b1.description == b2.description && b1.isCompleted == b2.isCompleted
    ensures PostTodo(db, b1, newId, call) == PostTodo(db, b2, newId, call)
    ensures PutTodo(db, id, b1, call, save) == PutTodo(db, id, b2, call, save)
  {
  }

  /** The description and the completion flag are unconstrained: with an accepted
      title every combination of them is stored. */
  lemma OtherFieldsUnconstrained(db: Store, body: TodoTask, d: Option<string>, done: bool, newId: string)
    requires CheckTitle(body.title) == TitleOk
    ensures var h := PostTodo(db, body.(description := d, isCompleted := done), newId, TaskService.Answered);
            HasStatus(h, StatusCreated) && h.db[newId].description == d && h.db[newId].isCompleted == done
  {
  }

  /** PUT replaces the whole record: nothing of the old task survives. */
  lemma PutReplacesWholeRecord(db: Store, id: string, body: TodoTask)
    requires id in db
    requires CheckTitle(body.title) == TitleOk
    ensures var h := PutTodo(db, id, body, TaskService.Answered, TaskService.Answered);
            && h.db[id].title == body.title
            && h.db[id].description == body.description
            && h.db[id].isCompleted == body.isCompleted
            && forall k :: k in db && k != id ==> h.db[k] == db[k]
  {
  }

  /** DELETE twice answers and leaves the table as DELETE once. */
  lemma DeleteTwiceIsDeleteOnce(db: Store, id: string)
    ensures var once := DeleteTodo(db, id, TaskService.Answered);
            DeleteTodo(once.db, id, TaskService.Answered) == once
  {
    TaskService.DeleteIdempotent(db, id);
  }

  /** A BMP title of 1..200 characters that does not start with white space passes. */
  lemma BmpTitleAccepted(s: string)
    requires 0 < |s| <= MaxTitleLength
    requires forall i :: 0 <= i < |s| ==> InBmp(s[i])
    requires !IsWs(s[0])
    ensures CheckTitle(Some(s)) == TitleOk
  {
    Utf16LengthOfBmp(s);
  }

  /** The walk-through of the service: create, read, edit, delete, read again. */
  lemma BuyMilkScenario(db: Store, x: string, g1: string, g2: string)
    ensures
      var created := NewTask(g1).(title := Some("Buy milk"));
      var stored := TodoTask(x, Some("Buy milk"), None, false);
      var h1 := PostTodo(db, created, x, TaskService.Answered);
      var h2 := GetTodo(h1.db, x, TaskService.Answered);
      var edited := NewTask(g2).(title := Some("Buy milk and eggs"));
      var h3 := PutTodo(h2.db, x, edited, TaskService.Answered, TaskService.Answered);
      var h4 := DeleteTodo(h3.db, x, TaskService.Answered);
      var h5 := GetTodo(h4.db, x, TaskService.Answered);
      && h1.reply == Respond(StatusCreated, OneTask(stored), Some("/todos/" + x))
      && h2.reply == Respond(StatusOk, OneTask(stored), None)
      && h3.reply == Respond(StatusOk, OneTask(stored.(title := Some("Buy milk and eggs"))), None)
      && h4.reply == Respond(StatusNoContent, NoBody, None)
      && h5.reply == Respond(StatusNotFound, NoBody, None)
  {
    var t1 := "Buy milk";
    var t2 := "Buy milk and eggs";
    assert forall i :: 0 <= i < |t1| ==> InBmp(t1[i]);
    assert forall i :: 0 <= i < |t2| ==> InBmp(t2[i]);
    BmpTitleAccepted(t1);
    BmpTitleAccepted(t2);
    var created := NewTask(g1).(title := Some(t1));
    var stored := TodoTask(x, Some(t1), None, false);
    assert created.(id := x) == stored;
    var h1 := PostTodo(db, created, x, TaskService.Answered);
    assert h1.db == db[x := stored];
    var h2 := GetTodo(h1.db, x, TaskService.Answered);
    assert h2.db == h1.db;
    var edited := NewTask(g2).(title := Some(t2));
    assert edited.(id := x) == stored.(title := Some(t2));
    var h3 := PutTodo(h2.db, x, edited, TaskService.Answered, TaskService.Answered);
    var h4 := DeleteTodo(h3.db, x, TaskService.Answered);
    assert x !in h4.db;
  }
}
