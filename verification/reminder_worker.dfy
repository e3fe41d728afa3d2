/** The reminder worker (app/src/main/java/com/todolist/worker/TaskReminderWorker.kt).
    The input data is two optional entries; the notification is returned
    instead of shown. */
module ReminderWorker {
  import opened Wrappers
  import opened Scheduling

  /** The id `getInt("task_id", -1)` reads for a missing entry. */
  const MissingId: int := -1

  datatype WorkResult = WorkSuccess | WorkFailure

  /** The notification shown for a task. */
  datatype Notification = Notification(title: string, taskId: int)

  /** What one run of `doWork` does: its result and the notification it
      shows, if any. */
  datatype WorkOutcome = WorkOutcome(result: WorkResult, shown: Option<Notification>)

  /** `doWork`: a missing title fails; an id that is missing, or is -1 and so
      reads like a missing one, fails; otherwise the one notification for
      that title and id is shown and the work succeeds. */
  function DoWork(title: Option<string>, taskId: Option<int>): (r: WorkOutcome)
    ensures r.result == WorkSuccess <==> r.shown.Some?
    ensures title.None? ==> r == WorkOutcome(WorkFailure, None)
    ensures title.Some? && (taskId.None? || taskId.value == MissingId) ==> r == WorkOutcome(WorkFailure, None)
    ensures title.Some? && taskId.Some? && taskId.value != MissingId ==>
      r == WorkOutcome(WorkSuccess, Some(Notification(title.value, taskId.value)))
  {
    match title
    case None => WorkOutcome(WorkFailure, None)
    case Some(t) =>
      var id := if taskId.Some? then taskId.value else MissingId;
      if id == MissingId then WorkOutcome(WorkFailure, None)
      else WorkOutcome(WorkSuccess, Some(Notification(t, id)))
  }

  /** An explicit id of -1 cannot be told apart from a missing id. */
  lemma ExplicitMinusOneIsMissing(title: Option<string>)
    ensures DoWork(title, Some(MissingId)) == DoWork(title, None)
  {
  }

  /** A scheduled request, delivered as the worker's input, shows exactly one
      notification with the request's title and id, unless the id is -1. */
  lemma ScheduledReminderNotifies(testing: bool, title: string, taskId: int, dueTime: int, now: int)
    requires ScheduleTaskReminder(testing, title, taskId, dueTime, now).Some?
    ensures var req := ScheduleTaskReminder(testing, title, taskId, dueTime, now).value;
      DoWork(Some(req.title), Some(req.taskId)) ==
        if taskId == MissingId then WorkOutcome(WorkFailure, None)
        else WorkOutcome(WorkSuccess, Some(Notification(title, taskId)))
  {
  }
}
