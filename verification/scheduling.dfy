/** The reminder scheduling decision
    (app/src/main/java/com/todolist/worker/scheduleTaskReminder.kt). The
    clock reading is a parameter and the enqueue is the returned request. */
module Scheduling {
  import opened Wrappers

  /** The hard-coded mode switch: the shipped code is in testing mode. */
  const IsTesting: bool := true

  /** Ten seconds, the testing delay, in milliseconds. */
  const TestingDelayMs: int := 10_000

  /** One hour in milliseconds. */
  const HourMs: int := 3_600_000

  /** The range of Kotlin's 64-bit `Long`. */
  predicate InLong(v: int)
  {
    -0x8000_0000_0000_0000 <= v < 0x8000_0000_0000_0000
  }

  /** Two's-complement wrap of an integer into the `Long` range. */
  function WrapLong(v: int): (r: int)
    ensures InLong(r)
    ensures InLong(v) ==> r == v
  {
    (v + 0x8000_0000_0000_0000) % 0x1_0000_0000_0000_0000 - 0x8000_0000_0000_0000
  }

  /** The delay in milliseconds: ten seconds in testing mode, otherwise due
      time minus now minus one hour, in `Long` arithmetic. */
  function Delay(testing: bool, dueTime: int, now: int): (r: int)
    ensures InLong(r)
    ensures testing ==> r == TestingDelayMs
  {
    if testing then TestingDelayMs else WrapLong(WrapLong(dueTime - now) - HourMs)
  }

  /** The work request handed to the scheduler: title, task id and delay. */
  datatype ReminderRequest = ReminderRequest(title: string, taskId: int, delayMs: int)

  /** `scheduleTaskReminder`: no request when the delay is not positive,
      otherwise a request carrying the title and id unchanged. */
  function ScheduleTaskReminder(testing: bool, title: string, taskId: int, dueTime: int, now: int)
    : (r: Option<ReminderRequest>)
    ensures r.Some? <==> Delay(testing, dueTime, now) > 0
    ensures r.Some? ==> r.value == ReminderRequest(title, taskId, Delay(testing, dueTime, now))
  {
    var delay := Delay(testing, dueTime, now);
    if delay <= 0 then None else Some(ReminderRequest(title, taskId, delay))
  }

  /** In production mode, without overflow, the delay is due - now - 1 h and
      a reminder is scheduled exactly when the task is due more than an hour
      from now. */
  lemma ProductionSchedulesIffDueAfterAnHour(title: string, taskId: int, dueTime: int, now: int)
    requires InLong(dueTime) && InLong(now) && InLong(dueTime - now) && InLong(dueTime - now - HourMs)
    ensures Delay(false, dueTime, now) == dueTime - now - HourMs
    ensures ScheduleTaskReminder(false, title, taskId, dueTime, now).Some? <==> dueTime > now + HourMs
  {
  }

  /** With the shipped switch every call schedules, ten seconds ahead. */
  lemma ShippedModeAlwaysSchedules(title: string, taskId: int, dueTime: int, now: int)
    ensures ScheduleTaskReminder(IsTesting, title, taskId, dueTime, now)
         == Some(ReminderRequest(title, taskId, TestingDelayMs))
  {
  }

  /** Without the range assumption the subtraction can wrap: a due time at
      the bottom of the `Long` range, long past, still schedules. */
  lemma WrapAroundSchedulesPastDueTime()
    ensures ScheduleTaskReminder(false, "t", 1, -0x8000_0000_0000_0000, 1).Some?
  {
    assert WrapLong(-0x8000_0000_0000_0000 - 1) == 0x7FFF_FFFF_FFFF_FFFF;
  }
}
