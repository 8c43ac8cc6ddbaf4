/** The task record and the table that holds it. */
module Tasks {
  import opened Wrappers

  /**
   One todo task. `title` is nullable because a JSON body may bind `null` to it;
   `description` is nullable by declaration. `id` is the table's hash key.
   */
  datatype TodoTask = TodoTask(
    id: string,
    title: Option<string>,
    description: Option<string>,
    isCompleted: bool)

  /** The table: each task is stored in the slot named by its hash key. */
  type Store = map<string, TodoTask>

  /** The task a parameterless construction yields; `generated` is the GUID string
      its `Id` initialiser draws. */
  function NewTask(generated: string): (t: TodoTask)
    ensures t.id == generated
    ensures t.title == Some("")
    ensures t.description.None?
    ensures !t.isCompleted
  {
    TodoTask(generated, Some(""), None, false)
  }

  /** Every slot of the table holds the task whose `id` names that slot. */
  ghost predicate KeyedById(db: Store) {
    forall k :: k in db ==> db[k].id == k
  }
}
