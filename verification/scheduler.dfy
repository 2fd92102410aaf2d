/** The daily scheduler of main/core.c: `initScheduler` (core.c:1249-1271) and
    `processScheduler` (core.c:1273-1387), as functions of the task list, the
    minute of the previous run and the wall-clock reading, which the caller
    passes in. The class `Engine.Scheduler` runs them in place. */
module Scheduling {
  import opened Base
  import opened IOModel
  import opened Dispatch

  /** One action of a task: `kind` (key "type") is "svc", "out" or "in". */
  datatype TaskAction = TaskAction(kind: Option<string>, output: Option<int>, input: Option<int>, action: Option<string>)

  /** A task: a minute of the day, a grace period in minutes, optional
      weekdays, and the "done" mark of today. */
  datatype Task = Task(
    name: Option<string>,
    enabled: Option<bool>,
    time: Option<int>,
    grace: Option<int>,
    dow: Option<seq<Option<int>>>,
    done: Option<bool>,
    actions: Option<seq<TaskAction>>)

  /** The current minute of the day, stored as a uint16_t. */
  function Minutes(hour: nat, minute: nat): Word {
    U16(hour * 60 + minute)
  }

  // ---------------------------------------------------------------------------
  // initScheduler
  // ---------------------------------------------------------------------------

  /** A task after initScheduler: not done, with a name and an enabled flag. */
  function InitTask(t: Task): Task {
    t.(done := Some(false),
       name := if t.name.Some? then t.name else Some("Noname task"),
       enabled := if t.enabled.Some? then t.enabled else Some(false))
  }

  function InitTasks(ts: seq<Task>): (r: seq<Task>)
    ensures |r| == |ts|
    ensures forall k :: 0 <= k < |ts| ==> r[k] == InitTask(ts[k])
  {
    seq(|ts|, k requires 0 <= k < |ts| => InitTask(ts[k]))
  }

  /** After initScheduler every task is not done and has a name and an enabled
      flag; what it had otherwise is kept, and a second run changes nothing. */
  lemma InitTasksResets(ts: seq<Task>)
    ensures forall k :: 0 <= k < |ts| ==>
              var r := InitTasks(ts)[k];
              r.done == Some(false) && r.name.Some? && r.enabled.Some? &&
              (ts[k].enabled.Some? ==> r.enabled == ts[k].enabled) &&
              r.time == ts[k].time && r.actions == ts[k].actions
    ensures InitTasks(InitTasks(ts)) == InitTasks(ts)
  {
  }

  // ---------------------------------------------------------------------------
  // processScheduler
  // ---------------------------------------------------------------------------

  /** The grace period: the "grace" field as a uint16_t, 1 minute by default. */
  function Grace(t: Task): Word {
    if t.grace.Some? then U16(t.grace.value) else 1
  }

  /** The weekday test: a task without a "dow" array runs every day; with one,
      only on the days it lists as numbers. */
  predicate Today(t: Task, wday: int) {
    t.dow.None? || exists k :: 0 <= k < |t.dow.value| && t.dow.value[k] == Some(wday)
  }

  /** A task whose time has come and that has not run today. */
  predicate Pending(t: Task, now: int) {
    t.enabled == Some(true) && t.time.Some? && now >= t.time.value && t.done != Some(true)
  }

  /** A task processScheduler runs now. */
  predicate Due(t: Task, now: int, wday: int) {
    Pending(t, now) && Today(t, wday) && now - t.time.value <= Grace(t)
  }

  /** "done" is replaced by true; a task without the field keeps none. */
  function MarkDone(t: Task): Task {
    t.(done := if t.done.Some? then Some(true) else None)
  }

  /** One task action. "out" is setOutput and "in" is processInputEvents from
      slave 0, with the number truncated to a uint8_t; "svc" "reboot" (with no
      numeric output) requests a restart; anything else is skipped. */
  function TaskActionIo(io: Io, a: TaskAction, sameSlave: bool): Io {
    if a.kind == Some("svc") && a.output.None? && a.action == Some("reboot") then
      io.(effects := io.effects + [RebootRequested])
    else if a.kind == Some("out") && a.output.Some? && a.action.Some? then
      SetOutputIo(io, U8(a.output.value), a.action.value)
    else if a.kind == Some("in") && a.input.Some? && a.action.Some? then
      DispatchIo(io, 0, U8(a.input.value), a.action.value, sameSlave)
    else io
  }

  /** A task's actions in order. A task without an actions array has none (the
      source dereferences NULL there). */
  function RunActions(io: Io, acts: seq<TaskAction>, sameSlave: bool): Io
    decreases |acts|
  {
    if |acts| == 0 then io else RunActions(TaskActionIo(io, acts[0], sameSlave), acts[1..], sameSlave)
  }

  /** The walk over the task list: every due task runs and is marked done. */
  function RunTasks(io: Io, ts: seq<Task>, now: int, wday: int, sameSlave: bool): (r: (Io, seq<Task>))
    ensures |r.1| == |ts|
    ensures forall k :: 0 <= k < |ts| ==> r.1[k] == if Due(ts[k], now, wday) then MarkDone(ts[k]) else ts[k]
  {
    if |ts| == 0 then (io, [])
    else
      var prev := RunTasks(io, ts[..|ts| - 1], now, wday, sameSlave);
      var t := ts[|ts| - 1];
      if Due(t, now, wday) then (RunActions(prev.0, t.actions.GetOr([]), sameSlave), prev.1 + [MarkDone(t)])
      else (prev.0, prev.1 + [t])
  }

  /** The scheduler's own state: the task list and `lastSchedulerTime`. */
  datatype Sched = Sched(tasks: seq<Task>, last: Word)

  /** processScheduler: nothing while the scheduler is disabled; otherwise the
      tasks are re-initialised when the minute went back (midnight), and then
      every due task runs. */
  function SchedulerTick(io: Io, s: Sched, enabled: bool, hour: nat, minute: nat, wday: int, sameSlave: bool): (Io, Sched) {
    if !enabled then (io, s)
    else
      var now := Minutes(hour, minute);
      var ts := if now < s.last then InitTasks(s.tasks) else s.tasks;
      var r := RunTasks(io, ts, now, wday, sameSlave);
      (r.0, Sched(r.1, now))
  }

  /** A task at 08:00 with a grace of 5 minutes runs at 08:02 and at 08:05,
      but not at 08:07; without a grace it runs at 08:01 but not at 08:02. */
  lemma GraceWindow(t: Task)
    requires t.enabled == Some(true) && t.time == Some(480) && t.done == Some(false) && t.dow.None?
    ensures t.grace == Some(5) ==> Due(t, Minutes(8, 2), 1) && Due(t, Minutes(8, 5), 1) && !Due(t, Minutes(8, 7), 1)
    ensures t.grace.None? ==> Due(t, Minutes(8, 1), 1) && !Due(t, Minutes(8, 2), 1)
  {
  }

  /** A task listing weekdays runs only on those. */
  lemma WeekdayFilter(t: Task, now: int)
    requires Pending(t, now) && now - t.time.value <= Grace(t)
    requires t.dow == Some([Some(1), Some(3), Some(5)])
    ensures Due(t, now, 3) && !Due(t, now, 2)
  {
    assert t.dow.value[1] == Some(3);
  }

  /** A disabled scheduler changes nothing, not even the last minute. */
  lemma DisabledSchedulerIdle(io: Io, s: Sched, hour: nat, minute: nat, wday: int, sameSlave: bool)
    ensures SchedulerTick(io, s, false, hour, minute, wday, sameSlave) == (io, s)
  {
  }

  /** A task that has run (and has a "done" field) is not due again before the
      tasks are re-initialised. */
  lemma RunsOncePerDay(t: Task, now: int, later: int, wday: int, wday2: int)
    requires Due(t, now, wday) && t.done.Some?
    ensures !Due(MarkDone(t), later, wday2)
  {
  }

  /** A task without a "done" field keeps none, so it runs again at every
      minute of its grace period. */
  lemma NoDoneFieldRepeats(t: Task, now: int, wday: int)
    requires Due(t, now, wday) && t.done.None?
    requires now + 1 - t.time.value <= Grace(t)
    ensures Due(MarkDone(t), now + 1, wday)
  {
  }

  /** The scheduler run over a sequence of clock readings (hour, minute). */
  function Run(io: Io, s: Sched, clock: seq<(nat, nat)>, wday: int, sameSlave: bool): Sched
    decreases |clock|
  {
    if |clock| == 0 then s
    else
      var r := SchedulerTick(io, s, true, clock[0].0, clock[0].1, wday, sameSlave);
      Run(r.0, r.1, clock[1..], wday, sameSlave)
  }

  /** The minutes of a sequence of readings never go back, and none goes below
      `from`. */
  ghost predicate Forward(clock: seq<(nat, nat)>, from: int) {
    forall k :: 0 <= k < |clock| ==>
      from <= Minutes(clock[k].0, clock[k].1) &&
      (k > 0 ==> Minutes(clock[k - 1].0, clock[k - 1].1) <= Minutes(clock[k].0, clock[k].1))
  }

  /** A task found past its grace period stays as it is, not done, for the
      rest of the day: no later reading before midnight runs it. */
  lemma {:induction false} MissedTaskStaysMissed(io: Io, s: Sched, clock: seq<(nat, nat)>, wday: int, sameSlave: bool, k: nat)
    requires k < |s.tasks|
    requires Pending(s.tasks[k], s.last) && s.last - s.tasks[k].time.value > Grace(s.tasks[k])
    requires Forward(clock, s.last)
    ensures k < |Run(io, s, clock, wday, sameSlave).tasks|
    ensures Run(io, s, clock, wday, sameSlave).tasks[k] == s.tasks[k]
    decreases |clock|
  {
    if |clock| > 0 {
      var now := Minutes(clock[0].0, clock[0].1);
      var r := SchedulerTick(io, s, true, clock[0].0, clock[0].1, wday, sameSlave);
      assert !(now < s.last);
      assert !Due(s.tasks[k], now, wday);
      assert r.1.tasks[k] == s.tasks[k] && r.1.last == now;
      assert Forward(clock[1..], now) by {
        forall j | 0 <= j < |clock[1..]|
          ensures now <= Minutes(clock[1..][j].0, clock[1..][j].1)
        {
          ForwardFromFirst(clock, s.last, j + 1);
        }
      }
      MissedTaskStaysMissed(r.0, r.1, clock[1..], wday, sameSlave, k);
    }
  }

  /** In a non-decreasing sequence, every reading is at least the first. */
  lemma {:induction false} ForwardFromFirst(clock: seq<(nat, nat)>, from: int, j: nat)
    requires Forward(clock, from) && j < |clock|
    ensures Minutes(clock[0].0, clock[0].1) <= Minutes(clock[j].0, clock[j].1)
    decreases j
  {
    if j > 0 {
      ForwardFromFirst(clock, from, j - 1);
    }
  }

  /** At midnight (the minute went back) a task done yesterday runs again
      when it is due. */
  lemma MidnightRearms(io: Io, s: Sched, hour: nat, minute: nat, wday: int, sameSlave: bool, k: nat)
    requires k < |s.tasks| && s.tasks[k].done == Some(true)
    requires Minutes(hour, minute) < s.last
    requires Due(s.tasks[k].(done := Some(false)), Minutes(hour, minute), wday)
    ensures var r := SchedulerTick(io, s, true, hour, minute, wday, sameSlave).1;
            k < |r.tasks| && r.tasks[k].done == Some(true) && r.last == Minutes(hour, minute)
  {
    var now := Minutes(hour, minute);
    var init := InitTasks(s.tasks);
    assert init[k] == InitTask(s.tasks[k]);
    assert Due(init[k], now, wday);
  }
}
