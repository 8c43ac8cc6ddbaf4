/**
 Sequences of requests against one table, served one at a time by either host,
 and the invariants on the stored tasks that each host keeps.
 */
module Sessions {
  import opened Wrappers
  import opened Text
  import opened Tasks
  import opened TaskService
  import opened Http
  import ApiHost
  import LambdaHost

  /** One request to the todo routes, with the GUID drawn for it and the fate of
      each backend call it makes. */
  datatype Request =
    | ListTodos(limit: Option<int>, scanOrder: seq<string>, call: Call)
    | GetTodo(id: string, call: Call)
    | PostTodo(body: Option<TodoTask>, newId: string, call: Call)
    | PutTodo(id: string, body: Option<TodoTask>, lookup: Call, save: Call)
    | DeleteTodo(id: string, call: Call)

  /** Routing matches `/todos/{id}` only with a non-empty segment, and a GUID
      string is never empty. */
  predicate Routed(r: Request) {
    match r
    case ListTodos(_, _, _) => true
    case GetTodo(id, _) => id != ""
    case PostTodo(_, newId, _) => newId != ""
    case PutTodo(id, _, _, _) => id != ""
    case DeleteTodo(id, _) => id != ""
  }

  /** The standalone host's POST and PUT handlers run only once the framework has
      bound a body to their task parameter. */
  predicate Bound(r: Request) {
    (r.PostTodo? || r.PutTodo?) ==> r.body.Some?
  }

  function ApiStep(db: Store, r: Request): (h: Handled)
    requires Bound(r)
  {
    match r
    case ListTodos(limit, scanOrder, call) => ApiHost.ListTodos(db, limit, scanOrder, call)
    case GetTodo(id, call) => ApiHost.GetTodo(db, id, call)
    case PostTodo(body, newId, call) => ApiHost.PostTodo(db, body.value, newId, call)
    case PutTodo(id, body, lookup, save) => ApiHost.PutTodo(db, id, body.value, lookup, save)
    case DeleteTodo(id, call) => ApiHost.DeleteTodo(db, id, call)
  }

  function LambdaStep(db: Store, r: Request): (h: Handled) {
    match r
    case ListTodos(_, scanOrder, call) => LambdaHost.ListTodos(db, scanOrder, call)
    case GetTodo(id, call) => LambdaHost.GetTodo(db, id, call)
    case PostTodo(body, newId, call) => LambdaHost.PostTodo(db, body, newId, call)
    case PutTodo(id, body, lookup, save) => LambdaHost.PutTodo(db, id, body, lookup, save)
    case DeleteTodo(id, call) => LambdaHost.DeleteTodo(db, id, call)
  }

  /** The ids drawn by the POST requests of `rs`. */
  function PostedIds(rs: seq<Request>): set<string> {
    if rs == [] then {}
    else (if rs[0].PostTodo? then {rs[0].newId} else {}) + PostedIds(rs[1..])
  }

  /** The table after the standalone host has served `rs` in order. Only POST
      creates keys: every key at the end was there at the start or was drawn by a POST. */
  function ApiRun(db: Store, rs: seq<Request>): (final: Store)
    requires forall i :: 0 <= i < |rs| ==> Bound(rs[i])
    ensures final.Keys <= db.Keys + PostedIds(rs)
    decreases |rs|
  {
    if rs == [] then db else ApiRun(ApiStep(db, rs[0]).db, rs[1..])
  }

  /** The same for the serverless host. */
  function LambdaRun(db: Store, rs: seq<Request>): (final: Store)
    ensures final.Keys <= db.Keys + PostedIds(rs)
    decreases |rs|
  {
    if rs == [] then db else LambdaRun(LambdaStep(db, rs[0]).db, rs[1..])
  }

  /** What the standalone host keeps true of the table: each task sits under its own
      non-empty id, and its title passes validation. */
  ghost predicate ApiInvariant(db: Store) {
    forall k :: k in db ==> db[k].id == k && k != "" && ApiHost.CheckTitle(db[k].title) == ApiHost.TitleOk
  }

  /** What the serverless host keeps true: the same, with only a non-blank title. */
  ghost predicate LambdaInvariant(db: Store) {
    forall k :: k in db ==> db[k].id == k && k != "" && !IsNullOrWhiteSpace(db[k].title)
  }

  lemma ApiInvariantIsStronger(db: Store)
    requires ApiInvariant(db)
    ensures LambdaInvariant(db)
    ensures KeyedById(db)
  {
  }

  lemma ApiStepPreservesInvariant(db: Store, r: Request)
    requires ApiInvariant(db) && Routed(r) && Bound(r)
    ensures ApiInvariant(ApiStep(db, r).db)
  {
  }

  lemma {:induction false} ApiRunPreservesInvariant(db: Store, rs: seq<Request>)
    requires ApiInvariant(db)
    requires forall i :: 0 <= i < |rs| ==> Routed(rs[i]) && Bound(rs[i])
    ensures ApiInvariant(ApiRun(db, rs))
    decreases |rs|
  {
    if rs != [] {
      ApiStepPreservesInvariant(db, rs[0]);
      ApiRunPreservesInvariant(ApiStep(db, rs[0]).db, rs[1..]);
    }
  }

  lemma LambdaStepPreservesInvariant(db: Store, r: Request)
    requires LambdaInvariant(db) && Routed(r)
    ensures LambdaInvariant(LambdaStep(db, r).db)
  {
  }

  lemma {:induction false} LambdaRunPreservesInvariant(db: Store, rs: seq<Request>)
    requires LambdaInvariant(db)
    requires forall i :: 0 <= i < |rs| ==> Routed(rs[i])
    ensures LambdaInvariant(LambdaRun(db, rs))
    decreases |rs|
  {
    if rs != [] {
      LambdaStepPreservesInvariant(db, rs[0]);
      LambdaRunPreservesInvariant(LambdaStep(db, rs[0]).db, rs[1..]);
    }
  }

  /** The serverless host does not keep the standalone host's invariant: one POST
      to it stores a 201-unit title in the shared table. */
  lemma LambdaBreaksApiInvariant()
    ensures var body := NewTask("g").(title := Some(Repeat('a', 201)));
            var h := LambdaStep(map[], PostTodo(Some(body), "x", Answered));
            && ApiInvariant(map[])
            && HasStatus(h, StatusCreated)
            && !ApiInvariant(h.db)
  {
    var s := Repeat('a', 201);
    Utf16LengthRepeat('a', 201);
    RepeatNotBlank('a', 201);
    var h := LambdaStep(map[], PostTodo(Some(NewTask("g").(title := Some(s))), "x", Answered));
    assert h.db["x"].title == Some(s);
    assert ApiHost.CheckTitle(Some(s)) == ApiHost.TitleTooLong;
  }
}
