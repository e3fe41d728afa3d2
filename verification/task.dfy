/** The task record (app/src/main/java/com/todolist/model/Task.kt).
    The date and priority types are parameters: the Room revision stores
    epoch milliseconds and an integer level, while the dialogs, the search bar
    and the key-value store were written against a revision in which both were
    strings. */
module TaskModel {

  /** A task; a task built without an id has id 0, meaning "no key assigned
      yet". Equality is structural over all eight fields. */
  datatype Task<D, P> = Task(
    id: int := 0,
    title: string,
    description: string,
    date: D,
    tags: seq<string>,
    priority: P,
    isStarred: bool,
    isDone: bool)

  /** The Room revision: date in epoch milliseconds, priority level 0..4. */
  type RoomTask = Task<int, int>

  /** The revision used by the dialogs and the key-value store: date and priority are text. */
  type TextTask = Task<string, string>

  /** A task object whose eight `var` fields callers overwrite in place; every
      holder of the same reference sees the writes. */
  class TaskObject<D, P> {
    var id: int
    var title: string
    var description: string
    var date: D
    var tags: seq<string>
    var priority: P
    var isStarred: bool
    var isDone: bool

    /** The task value the fields currently hold. */
    function Value(): Task<D, P>
      reads this
    {
      Task(id, title, description, date, tags, priority, isStarred, isDone)
    }

    constructor (t: Task<D, P>)
      ensures Value() == t
    {
      id, title, description, date := t.id, t.title, t.description, t.date;
      tags, priority, isStarred, isDone := t.tags, t.priority, t.isStarred, t.isDone;
    }
  }
}
