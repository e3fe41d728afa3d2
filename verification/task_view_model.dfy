/** The view model (app/src/main/java/com/todolist/viewmodel/TaskViewModel.kt).
    The repository it talks to is the task table itself; each launched block
    runs to completion before the next call. */
module ViewModel {
  import opened TaskModel
  import opened Dao

  /** The snapshot the screen observes and the table it is reloaded from. */
  class TaskViewModel {
    const repository: TaskDao
    var tasks: seq<RoomTask>

    predicate Valid()
      reads this, repository
    {
      repository.Valid()
    }

    /** Construction loads the snapshot from the repository. */
    constructor (dao: TaskDao)
      requires dao.Valid()
      ensures repository == dao && Valid()
      ensures tasks == dao.rows
    {
      repository := dao;
      new;
      LoadTasks();
    }

    /** `loadTasks`: the snapshot becomes the repository's full list. */
    method LoadTasks()
      requires Valid()
      modifies this
      ensures Valid()
      ensures tasks == repository.rows
    {
      tasks := repository.GetAllTasks();
    }

    /** `insertTask`: one insert with the given task, then a reload. */
    method InsertTask(task: RoomTask)
      requires Valid()
      modifies this, repository
      ensures Valid()
      ensures repository.rows == Upsert(old(repository.rows), StoredAs(task, old(repository.nextId)))
      ensures repository.nextId ==
        if StoredAs(task, old(repository.nextId)).id < old(repository.nextId) then old(repository.nextId)
        else StoredAs(task, old(repository.nextId)).id + 1
      ensures repository.calls == old(repository.calls) + [InsertCall(task)]
      ensures tasks == repository.rows
    {
      repository.Insert(task);
      LoadTasks();
    }

    /** `updateTask`: one update with the given task, then a reload. */
    method UpdateTask(task: RoomTask)
      requires Valid()
      modifies this, repository
      ensures Valid()
      ensures repository.rows == UpdateRow(old(repository.rows), task)
      ensures repository.calls == old(repository.calls) + [UpdateCall(task)]
      ensures repository.nextId == old(repository.nextId)
      ensures tasks == repository.rows
    {
      repository.Update(task);
      LoadTasks();
    }

    /** `deleteTask`: one delete with the given task, then a reload. */
    method DeleteTask(task: RoomTask)
      requires Valid()
      modifies this, repository
      ensures Valid()
      ensures repository.rows == DeleteRow(old(repository.rows), task)
      ensures repository.calls == old(repository.calls) + [DeleteCall(task)]
      ensures repository.nextId == old(repository.nextId)
      ensures tasks == repository.rows
    {
      repository.Delete(task);
      LoadTasks();
    }
  }

  /** After an insert the snapshot holds the stored task: with id 0 under a
      fresh key at the end, otherwise under its own key in place of any row
      that had it. */
  lemma InsertedTaskIsShown(rows: seq<RoomTask>, nextId: int, task: RoomTask)
    requires KeyOrdered(rows)
    requires forall i :: 0 <= i < |rows| ==> rows[i].id < nextId
    ensures StoredAs(task, nextId) in Upsert(rows, StoredAs(task, nextId))
    ensures task.id == 0 ==> Upsert(rows, StoredAs(task, nextId)) == rows + [task.(id := nextId)]
    ensures task.id != 0 && HasId(rows, task.id) ==> |Upsert(rows, task)| == |rows|
  {
    if task.id == 0 {
      FreshKeyAppends(rows, task.(id := nextId));
    }
  }
}
