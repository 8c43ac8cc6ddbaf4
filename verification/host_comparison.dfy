/** How the two hosts' handlers differ on the same request and the same table. */
module HostComparison {
  import opened Wrappers
  import opened Tasks
  import TaskService
  import opened Http
  import ApiHost
  import LambdaHost

  /** Two replies with the same status, or the same rethrown error. */
  predicate SameStatus(a: Reply, b: Reply) {
    match (a, b)
    case (Respond(s1, _, _), Respond(s2, _, _)) => s1 == s2
    case (Rethrow(e1), Rethrow(e2)) => e1 == e2
    case _ => false
  }

  /** The blank check of one host is the blank check of the other. */
  lemma BlankChecksAgree(body: TodoTask)
    ensures LambdaHost.TitleMissing(Some(body)) <==> ApiHost.CheckTitle(body.title) == ApiHost.TitleBlank
  {
  }

  /** POST: the hosts answer with the same status and leave the same table, except
      on a non-blank title of more than 200 code units, which only the standalone
      host refuses. */
  lemma PostDiffersExactlyOnLongTitles(db: Store, body: TodoTask, newId: string, call: TaskService.Call)
    requires newId !in db
    ensures var a := ApiHost.PostTodo(db, body, newId, call);
            var l := LambdaHost.PostTodo(db, Some(body), newId, call);
            && (ApiHost.CheckTitle(body.title) != ApiHost.TitleTooLong ==> SameStatus(a.reply, l.reply) && a.db == l.db)
            && (a.db != l.db <==> ApiHost.CheckTitle(body.title) == ApiHost.TitleTooLong && call.Answered?)
            && ((HasStatus(a, StatusBadRequest) && HasStatus(l, StatusCreated))
                <==> (ApiHost.CheckTitle(body.title) == ApiHost.TitleTooLong && call.Answered?))
  {
    var l := LambdaHost.PostTodo(db, Some(body), newId, call);
    if ApiHost.CheckTitle(body.title) == ApiHost.TitleTooLong && call.Answered? {
      assert newId in l.db;
    }
  }

  /** On a created task the standalone host also sends its location; the serverless
      host sends none. */
  lemma OnlyApiSendsLocation(db: Store, body: TodoTask, newId: string)
    requires ApiHost.CheckTitle(body.title) == ApiHost.TitleOk
    ensures ApiHost.PostTodo(db, body, newId, TaskService.Answered).reply.location == Some(TodoPath(newId))
    ensures LambdaHost.PostTodo(db, Some(body), newId, TaskService.Answered).reply.location.None?
    ensures ApiHost.PostTodo(db, body, newId, TaskService.Answered).db
         == LambdaHost.PostTodo(db, Some(body), newId, TaskService.Answered).db
  {
  }

  /** PUT: the two hosts give the same status and leave the same table unless the
      title is over 200 code units; one answers 400 while the other answers 200
      exactly when the title is too long, the id exists and both backend calls succeed. */
  lemma PutDiffersExactlyOnLongTitles(db: Store, id: string, body: TodoTask, lookup: TaskService.Call, save: TaskService.Call)
    ensures var a := ApiHost.PutTodo(db, id, body, lookup, save);
            var l := LambdaHost.PutTodo(db, id, Some(body), lookup, save);
            && (ApiHost.CheckTitle(body.title) != ApiHost.TitleTooLong ==> SameStatus(a.reply, l.reply) && a.db == l.db)
            && ((HasStatus(a, StatusBadRequest) && HasStatus(l, StatusOk))
                <==> (ApiHost.CheckTitle(body.title) == ApiHost.TitleTooLong
                      && lookup.Answered? && id in db && save.Answered?))
  {
  }

  /** GET /todos: both hosts return the same page, whatever limit the client asks for. */
  lemma ListsAgree(db: Store, limit: Option<int>, scanOrder: seq<string>, call: TaskService.Call)
    ensures ApiHost.ListTodos(db, limit, scanOrder, call) == LambdaHost.ListTodos(db, scanOrder, call)
  {
  }

  /** GET /todos/{id}: same status and same task; only the 404 body differs. */
  lemma GetsAgree(db: Store, id: string, call: TaskService.Call)
    ensures var a := ApiHost.GetTodo(db, id, call);
            var l := LambdaHost.GetTodo(db, id, call);
            && SameStatus(a.reply, l.reply) && a.db == l.db
            && (HasStatus(a, StatusOk) ==> a.reply == l.reply)
  {
  }

  /** DELETE: the hosts behave identically. */
  lemma DeletesAgree(db: Store, id: string, call: TaskService.Call)
    ensures ApiHost.DeleteTodo(db, id, call) == LambdaHost.DeleteTodo(db, id, call)
  {
  }
}
