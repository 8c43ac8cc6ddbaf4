/**
 The persistence adapter over the single table "TodoTable". Each operation is one
 backend request; `call` says whether the backend answered it or failed, and a
 failure is handed back to the caller unchanged, with no retry and no fallback.
 A failed request leaves the table as it was.
 */
module TaskService {
  import opened Wrappers
  import opened Tasks

  /** The exception the DynamoDB client throws. */
  datatype BackendError = BackendError(detail: string)

  /** Whether one backend request is answered or fails with an error. */
  datatype Call = Answered | Failed(error: BackendError)

  /** The tasks of the first scan page, in the order the backend yields their keys.
      `scanOrder` is that order; keys not in the table are skipped. */
  function FirstPage(db: Store, scanOrder: seq<string>): (page: seq<TodoTask>)
    ensures |page| <= |scanOrder|
    ensures forall k :: k in scanOrder && k in db ==> db[k] in page
    ensures forall t :: t in page ==> exists k :: k in scanOrder && k in db && db[k] == t
    decreases |scanOrder|
  {
    if scanOrder == [] then []
    else
      var rest := FirstPage(db, scanOrder[1..]);
      assert forall k :: k in scanOrder ==> k == scanOrder[0] || k in scanOrder[1..];
      if scanOrder[0] in db then [db[scanOrder[0]]] + rest else rest
  }

  /** GetAllAsync: one scan, returning its first page. `limit` is only logged: the
      page is not cut to `limit` items. */
  function GetAll(db: Store, limit: int, scanOrder: seq<string>, call: Call): (r: Result<seq<TodoTask>, BackendError>)
    ensures call.Failed? <==> r.Failure?
    ensures call.Failed? ==> r.error == call.error
    ensures r.Success? ==> forall t :: t in r.value ==> t in db.Values
    ensures r.Success? ==> forall k :: k in scanOrder && k in db ==> db[k] in r.value
  {
    if call.Failed? then Failure(call.error) else Success(FirstPage(db, scanOrder))
  }

  /** GetByIdAsync: the stored task, or `None` when the key is absent (not an error). */
  function GetById(db: Store, id: string, call: Call): (r: Result<Option<TodoTask>, BackendError>)
    ensures call.Failed? <==> r.Failure?
    ensures call.Failed? ==> r.error == call.error
    ensures r.Success? ==> (r.value.Some? <==> id in db)
    ensures r.Success? && r.value.Some? ==> r.value.value == db[id]
  {
    if call.Failed? then Failure(call.error)
    else if id in db then Success(Some(db[id]))
    else Success(None)
  }

  /** CreateAsync: an unconditional save, upserting by `task.id` whether or not the
      key is already present. */
  function Create(db: Store, task: TodoTask, call: Call): (r: Result<Store, BackendError>)
    ensures call.Failed? <==> r.Failure?
    ensures call.Failed? ==> r.error == call.error
    ensures r.Success? ==> r.value.Keys == db.Keys + {task.id}
    ensures r.Success? ==> r.value[task.id] == task
    ensures r.Success? ==> forall k :: k in db && k != task.id ==> r.value[k] == db[k]
  {
    if call.Failed? then Failure(call.error) else Success(db[task.id := task])
  }

  /** UpdateAsync: the same unconditional save as CreateAsync; it does not check
      that the key exists. */
  function Update(db: Store, task: TodoTask, call: Call): (r: Result<Store, BackendError>)
    ensures r == Create(db, task, call)
    ensures r.Success? && task.id !in db ==> |r.value| == |db| + 1
  {
    if call.Failed? then Failure(call.error) else Success(db[task.id := task])
  }

  /** DeleteAsync: removes the key; an absent key is no error. */
  function Delete(db: Store, id: string, call: Call): (r: Result<Store, BackendError>)
    ensures call.Failed? <==> r.Failure?
    ensures call.Failed? ==> r.error == call.error
    ensures r.Success? ==> r.value.Keys == db.Keys - {id}
    ensures r.Success? ==> forall k :: k in r.value ==> r.value[k] == db[k]
  {
    if call.Failed? then Failure(call.error) else Success(db - {id})
  }

  /** Saving keeps every slot keyed by the id of the task it holds. */
  lemma SavePreservesKeyedById(db: Store, task: TodoTask, call: Call)
    requires KeyedById(db)
    requires Create(db, task, call).Success?
    ensures KeyedById(Create(db, task, call).value)
  {
  }

  /** `Id` is the sole key: a second save with the same id replaces the first, so
      the two saves leave the table as the second alone would. */
  lemma SameIdSameSlot(db: Store, first: TodoTask, second: TodoTask)
    requires first.id == second.id
    ensures Create(Create(db, first, Answered).value, second, Answered)
         == Create(db, second, Answered)
    ensures |Create(db, first, Answered).value| <= |db| + 1
  {
    assert db[first.id := first][second.id := second] == db[second.id := second];
  }

  /** Removing a key twice leaves the table as removing it once. */
  lemma DeleteIdempotent(db: Store, id: string)
    ensures Delete(Delete(db, id, Answered).value, id, Answered) == Delete(db, id, Answered)
  {
    assert db - {id} - {id} == db - {id};
  }

  /** The page a scan returns does not depend on `limit`, and it can hold more
      than `limit` tasks. */
  lemma GetAllIgnoresLimit(db: Store, limit1: int, limit2: int, scanOrder: seq<string>, call: Call)
    ensures GetAll(db, limit1, scanOrder, call) == GetAll(db, limit2, scanOrder, call)
  {
  }

  lemma GetAllMayExceedLimit()
    ensures var a := TodoTask("a", Some("A"), None, false);
            var b := TodoTask("b", Some("B"), None, false);
            |GetAll(map["a" := a, "b" := b], 1, ["a", "b"], Answered).value| == 2
  {
  }
}
