/** The status card's counts for the selected day and the 7-point completion
    trend drawn by the chart. */
module Stats {
  import opened Seqs
  import opened Tasks
  import Window

  function DoneOn(day: DayKey): Task -> bool {
    (t: Task) => day in t.completedDates
  }

  function Recurs(t: Task): bool { t.recurring }

  /** `completedToday`: how many of the tasks listed for `day` are done on `day`. */
  function CompletedCount(tasks: seq<Task>, day: DayKey): (n: nat)
    ensures n <= |TasksForDay(tasks, day)|
  {
    |Filter(TasksForDay(tasks, day), DoneOn(day))|
  }

  /** `recurringCount`: how many of the tasks listed for `day` are recurring. */
  function RecurringCount(tasks: seq<Task>, day: DayKey): (n: nat)
    ensures n <= |TasksForDay(tasks, day)|
  {
    |Filter(TasksForDay(tasks, day), Recurs)|
  }

  /** The chart's value for one day: how many tasks, due or not, list that day
      among their completed days. */
  function CompletionsOn(tasks: seq<Task>, day: DayKey): (n: nat)
    ensures n <= |tasks|
  {
    |Filter(tasks, DoneOn(day))|
  }

  /** The done count is the number of tasks that are both due and done. */
  lemma CompletedCountIsDueAndDone(tasks: seq<Task>, day: DayKey)
    ensures CompletedCount(tasks, day) == |Filter(tasks, And(DueOn(day), DoneOn(day)))|
  {
    FilterFilter(tasks, DueOn(day), DoneOn(day));
  }

  function RecurringSince(day: DayKey): Task -> bool {
    (t: Task) => t.recurring && t.createdAt <= day
  }

  /** The recurring count is the number of recurring tasks created on or before the day. */
  lemma RecurringCountIsRecurringSince(tasks: seq<Task>, day: DayKey)
    ensures RecurringCount(tasks, day) == |Filter(tasks, RecurringSince(day))|
  {
    FilterFilter(tasks, DueOn(day), Recurs);
    FilterCongruent(tasks, And(DueOn(day), Recurs), RecurringSince(day));
  }

  /** The trend ignores due-ness, so its point for a day is never below the
      done count shown for that day. */
  lemma DoneCountAtMostTrend(tasks: seq<Task>, day: DayKey)
    ensures CompletedCount(tasks, day) <= CompletionsOn(tasks, day)
  {
    CompletedCountIsDueAndDone(tasks, day);
    FilterMonotone(tasks, And(DueOn(day), DoneOn(day)), DoneOn(day));
  }

  /** Toggling the selected day on a listed task moves the done count by exactly
      one, down if it was done and up if it was not (ids being unique). */
  lemma ToggleMovesDoneCountByOne(tasks: seq<Task>, k: nat, day: DayKey)
    requires DistinctBy(tasks, TaskId) && k < |tasks| && IsDue(tasks[k], day)
    ensures CompletedCount(ToggleAll(tasks, tasks[k].id, day), day)
         == if day in tasks[k].completedDates then CompletedCount(tasks, day) - 1 else CompletedCount(tasks, day) + 1
  {
    var after := ToggleAll(tasks, tasks[k].id, day);
    var p := And(DueOn(day), DoneOn(day));
    forall j | 0 <= j < |tasks| && j != k ensures p(tasks[j]) == p(after[j]) {
      assert TaskId(tasks[j]) != TaskId(tasks[k]);
    }
    FilterLengthExchange(tasks, after, p, k);
    CompletedCountIsDueAndDone(tasks, day);
    CompletedCountIsDueAndDone(after, day);
  }

  /** Likewise the chart point for the toggled day moves by exactly one. */
  lemma ToggleMovesTrendByOne(tasks: seq<Task>, k: nat, day: DayKey)
    requires DistinctBy(tasks, TaskId) && k < |tasks|
    ensures CompletionsOn(ToggleAll(tasks, tasks[k].id, day), day)
         == if day in tasks[k].completedDates then CompletionsOn(tasks, day) - 1 else CompletionsOn(tasks, day) + 1
  {
    var after := ToggleAll(tasks, tasks[k].id, day);
    forall j | 0 <= j < |tasks| && j != k ensures DoneOn(day)(tasks[j]) == DoneOn(day)(after[j]) {
      assert TaskId(tasks[j]) != TaskId(tasks[k]);
    }
    FilterLengthExchange(tasks, after, DoneOn(day), k);
  }

  /** Toggling a day leaves every other day's counts alone. */
  lemma ToggleKeepsOtherDays(tasks: seq<Task>, taskId: string, day: DayKey, other: DayKey)
    requires other != day
    ensures CompletionsOn(ToggleAll(tasks, taskId, day), other) == CompletionsOn(tasks, other)
    ensures CompletedCount(ToggleAll(tasks, taskId, day), other) == CompletedCount(tasks, other)
  {
    var after := ToggleAll(tasks, taskId, day);
    FilterLengthAgree(tasks, after, DoneOn(other));
    FilterLengthAgree(tasks, after, And(DueOn(other), DoneOn(other)));
    CompletedCountIsDueAndDone(tasks, other);
    CompletedCountIsDueAndDone(after, other);
  }

  datatype ChartPoint = ChartPoint(date: DayKey, value: nat)

  /** `chartData`: one point per day for the seven days ending today, oldest
      first, each counting the tasks completed on that day. */
  function ChartData(tasks: seq<Task>, today: DayKey): (r: seq<ChartPoint>)
    ensures |r| == 7
    ensures r[6].date == today
    ensures forall i :: 0 <= i < 6 ==> r[i + 1].date == r[i].date + 1
    ensures forall i :: 0 <= i < 7 ==> r[i].value == CompletionsOn(tasks, r[i].date) && r[i].value <= |tasks|
  {
    seq(7, i requires 0 <= i < 7 => var key := today - (6 - i); ChartPoint(key, CompletionsOn(tasks, key)))
  }

  /** The chart does not depend on the selected day: its last point bounds the
      done count of today's list. */
  lemma TrendBoundsTodaysDone(tasks: seq<Task>, today: DayKey)
    ensures CompletedCount(tasks, today) <= ChartData(tasks, today)[6].value
  {
    DoneCountAtMostTrend(tasks, today);
  }

  /** The chart's days are the day strip's days at offset 0, whatever day is
      selected and however far back the strip has been moved. */
  lemma {:induction false} ChartDaysAreCurrentWeek(tasks: seq<Task>, today: DayKey)
    ensures forall i :: 0 <= i < 7 ==> ChartData(tasks, today)[i].date == Window.DayRow(0, today)[i]
  {
    forall i | 0 <= i < 7 ensures ChartData(tasks, today)[i].date == Window.DayRow(0, today)[i] {
      ChartDayAt(tasks, today, i);
      Window.DayRowAt(0, today, i);
    }
  }

  lemma {:induction false} ChartDayAt(tasks: seq<Task>, today: DayKey, i: nat)
    requires i < 7
    ensures ChartData(tasks, today)[i].date == today - 6 + i
    decreases 6 - i
  {
    if i < 6 {
      ChartDayAt(tasks, today, i + 1);
    }
  }
}
