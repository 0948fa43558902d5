/** The task list and the operations the page performs on it: the due-set
    filter, the completion toggle, deletion and adding a task. A date key
    (`yyyy-mm-dd` in the page) is a day number here: the page compares keys
    with `<=` on fixed-width strings, which orders them as the days they name. */
module Tasks {
  import opened Seqs
  import Text

  type DayKey = int

  datatype Task = Task(
    id: string,
    title: string,
    recurring: bool,
    createdAt: DayKey,
    completedDates: seq<DayKey>)

  // ---------------------------------------------------------------------------
  // Due set

  /** A recurring task is due from its creation day on; a one-off task only on
      its creation day. */
  predicate IsDue(t: Task, day: DayKey) {
    if t.recurring then t.createdAt <= day else t.createdAt == day
  }

  function DueOn(day: DayKey): Task -> bool {
    (t: Task) => IsDue(t, day)
  }

  /** The tasks listed for `day`, in list order. */
  function TasksForDay(tasks: seq<Task>, day: DayKey): (r: seq<Task>)
    ensures forall t :: t in r <==> t in tasks && IsDue(t, day)
    ensures IsSubsequence(r, tasks)
  {
    Filter(tasks, DueOn(day))
  }

  /** Exactly the due tasks are kept, each with all its occurrences. */
  lemma TasksForDayExact(tasks: seq<Task>, day: DayKey)
    ensures forall t :: multiset(TasksForDay(tasks, day))[t] == if IsDue(t, day) then multiset(tasks)[t] else 0
  {
    FilterMultiset(tasks, DueOn(day));
  }

  /** A recurring task, once due, stays due on every later day. */
  lemma RecurringStaysDue(t: Task, day: DayKey, later: DayKey)
    requires t.recurring && IsDue(t, day) && day <= later
    ensures IsDue(t, later)
  {
  }

  /** A one-off task is due on one day only. */
  lemma OneOffDueOnce(t: Task, d1: DayKey, d2: DayKey)
    requires !t.recurring && IsDue(t, d1) && IsDue(t, d2)
    ensures d1 == d2
  {
  }

  // ---------------------------------------------------------------------------
  // Completion toggle

  predicate NoDuplicates(dates: seq<DayKey>) {
    forall i, j :: 0 <= i < j < |dates| ==> dates[i] != dates[j]
  }

  function DayIsNot(day: DayKey): DayKey -> bool {
    (d: DayKey) => d != day
  }

  /** Flip membership of `day`: remove every occurrence when present, append it
      otherwise. */
  function ToggleDates(dates: seq<DayKey>, day: DayKey): (r: seq<DayKey>)
    ensures day in r <==> day !in dates
    ensures forall d :: d != day ==> (d in r <==> d in dates)
    ensures day in dates ==> IsSubsequence(r, dates)
    ensures day !in dates ==> r == dates + [day]
    ensures day in dates ==> multiset(r) == multiset(dates)[day := 0]
  {
    if day in dates then
      FilterMultiset(dates, DayIsNot(day));
      Filter(dates, DayIsNot(day))
    else dates + [day]
  }

  /** An append happens only when the day is absent, so no duplicate appears. */
  lemma {:induction false} ToggleDatesKeepsNoDuplicates(dates: seq<DayKey>, day: DayKey)
    requires NoDuplicates(dates)
    ensures NoDuplicates(ToggleDates(dates, day))
  {
    if day in dates {
      assert DistinctBy(dates, Identity) by {
        forall i, j | 0 <= i < j < |dates| ensures Identity(dates[i]) != Identity(dates[j]) {
        }
      }
      FilterKeepsDistinctBy(dates, DayIsNot(day), Identity);
      var r := Filter(dates, DayIsNot(day));
      forall i, j | 0 <= i < j < |r| ensures r[i] != r[j] {
        assert Identity(r[i]) != Identity(r[j]);
      }
    }
  }

  /** Toggling the same day twice restores which days are completed; when the
      day was absent it restores the list itself, and on a duplicate-free list
      it restores the list up to order. */
  lemma {:induction false} ToggleDatesTwice(dates: seq<DayKey>, day: DayKey)
    ensures forall d :: d in ToggleDates(ToggleDates(dates, day), day) <==> d in dates
    ensures day !in dates ==> ToggleDates(ToggleDates(dates, day), day) == dates
    ensures NoDuplicates(dates) ==> multiset(ToggleDates(ToggleDates(dates, day), day)) == multiset(dates)
  {
    if day !in dates {
      RemoveAppended(dates, day);
    } else if NoDuplicates(dates) {
      ReappendMultiset(dates, day);
    }
  }

  lemma {:induction false} RemoveAppended(dates: seq<DayKey>, day: DayKey)
    requires day !in dates
    ensures Filter(dates + [day], DayIsNot(day)) == dates
  {
    FilterAppend(dates, [day], DayIsNot(day));
    FilterAllPass(dates, DayIsNot(day));
    assert Filter([day], DayIsNot(day)) == [];
  }

  lemma {:induction false} ReappendMultiset(dates: seq<DayKey>, day: DayKey)
    requires day in dates && NoDuplicates(dates)
    ensures multiset(Filter(dates, DayIsNot(day)) + [day]) == multiset(dates)
  {
    FilterMultiset(dates, DayIsNot(day));
    var i :| 0 <= i < |dates| && dates[i] == day;
    assert dates == dates[..i] + [day] + dates[i + 1..];
    assert day !in dates[..i] && day !in dates[i + 1..];
    assert multiset(dates) == multiset(dates[..i]) + multiset([day]) + multiset(dates[i + 1..]);
    assert multiset(dates)[day] == 1;
  }

  /** `handleToggle`'s per-task step: only the task with the matching id changes. */
  function ToggleTask(t: Task, taskId: string, day: DayKey): Task {
    if t.id != taskId then t else t.(completedDates := ToggleDates(t.completedDates, day))
  }

  /** `handleToggle`: map the per-task step over the list. */
  function ToggleAll(tasks: seq<Task>, taskId: string, day: DayKey): (r: seq<Task>)
    ensures |r| == |tasks|
    ensures forall i :: 0 <= i < |tasks| && tasks[i].id != taskId ==> r[i] == tasks[i]
    ensures forall i :: 0 <= i < |tasks| ==>
      r[i].id == tasks[i].id && r[i].title == tasks[i].title &&
      r[i].recurring == tasks[i].recurring && r[i].createdAt == tasks[i].createdAt
    ensures forall i :: 0 <= i < |tasks| && tasks[i].id == taskId ==>
      (day in r[i].completedDates <==> day !in tasks[i].completedDates) &&
      (forall d :: d != day ==> (d in r[i].completedDates <==> d in tasks[i].completedDates)) &&
      r[i].completedDates == ToggleDates(tasks[i].completedDates, day)
    ensures (forall t :: t in tasks ==> t.id != taskId) ==> r == tasks
  {
    seq(|tasks|, i requires 0 <= i < |tasks| => ToggleTask(tasks[i], taskId, day))
  }

  /** Toggling a pair twice restores every task's completed days; when the day
      was absent from the matching tasks it restores the list exactly. */
  lemma ToggleAllTwice(tasks: seq<Task>, taskId: string, day: DayKey)
    ensures forall i, d :: 0 <= i < |tasks| ==>
      (d in ToggleAll(ToggleAll(tasks, taskId, day), taskId, day)[i].completedDates <==> d in tasks[i].completedDates)
    ensures (forall t :: t in tasks && t.id == taskId ==> day !in t.completedDates) ==>
      ToggleAll(ToggleAll(tasks, taskId, day), taskId, day) == tasks
  {
    forall i | 0 <= i < |tasks| {
      ToggleDatesTwice(tasks[i].completedDates, day);
    }
  }

  /** Toggling changes no task's due days, so it commutes with the due-set filter. */
  lemma {:induction false} ToggleCommutesWithDueSet(tasks: seq<Task>, taskId: string, day: DayKey, shown: DayKey)
    ensures TasksForDay(ToggleAll(tasks, taskId, day), shown) == ToggleAll(TasksForDay(tasks, shown), taskId, day)
  {
    if |tasks| > 0 {
      var after := ToggleAll(tasks, taskId, day);
      var head := if IsDue(tasks[0], shown) then [tasks[0]] else [];
      assert after[1..] == ToggleAll(tasks[1..], taskId, day);
      assert IsDue(after[0], shown) == IsDue(tasks[0], shown);
      assert TasksForDay(after, shown) == ToggleAll(head, taskId, day) + TasksForDay(after[1..], shown);
      assert TasksForDay(tasks, shown) == head + TasksForDay(tasks[1..], shown);
      ToggleCommutesWithDueSet(tasks[1..], taskId, day, shown);
      ToggleAllAppend(head, TasksForDay(tasks[1..], shown), taskId, day);
    }
  }

  /** Toggling distributes over concatenation. */
  lemma ToggleAllAppend(a: seq<Task>, b: seq<Task>, taskId: string, day: DayKey)
    ensures ToggleAll(a + b, taskId, day) == ToggleAll(a, taskId, day) + ToggleAll(b, taskId, day)
  {
  }

  // ---------------------------------------------------------------------------
  // Delete

  function IdIsNot(taskId: string): Task -> bool {
    (t: Task) => t.id != taskId
  }

  /** `handleDelete`: keep the tasks whose id differs, in their order. */
  function DeleteTask(tasks: seq<Task>, taskId: string): (r: seq<Task>)
    ensures forall t :: t in r <==> t in tasks && t.id != taskId
    ensures IsSubsequence(r, tasks)
    ensures (forall t :: t in tasks ==> t.id != taskId) ==> r == tasks
  {
    var r := Filter(tasks, IdIsNot(taskId));
    if forall t :: t in tasks ==> t.id != taskId then
      FilterAllPass(tasks, IdIsNot(taskId));
      r
    else r
  }

  /** Deletion keeps every other task with all its occurrences. */
  lemma DeleteTaskExact(tasks: seq<Task>, taskId: string)
    ensures forall t :: multiset(DeleteTask(tasks, taskId))[t] == if t.id != taskId then multiset(tasks)[t] else 0
  {
    FilterMultiset(tasks, IdIsNot(taskId));
  }

  // ---------------------------------------------------------------------------
  // Add

  /** `handleAddTask` on the list: the typed title is trimmed; a blank title
      adds nothing, otherwise one task is appended that is created today and
      has no completed day. */
  function AddTask(tasks: seq<Task>, input: string, recurring: bool, newId: string, today: DayKey): (r: seq<Task>)
    ensures Text.IsBlank(input) ==> r == tasks
    ensures !Text.IsBlank(input) ==>
      |r| == |tasks| + 1 && r[..|tasks|] == tasks &&
      r[|tasks|] == Task(newId, Text.Trim(input), recurring, today, [])
    ensures !Text.IsBlank(input) ==> r[|tasks|].title != [] && IsDue(r[|tasks|], today)
  {
    var title := Text.Trim(input);
    if title == [] then tasks
    else tasks + [Task(newId, title, recurring, today, [])]
  }

  /** The added task shows up in today's list, which gains exactly that task. */
  lemma AddedTaskListedToday(tasks: seq<Task>, input: string, recurring: bool, newId: string, today: DayKey)
    requires !Text.IsBlank(input)
    ensures TasksForDay(AddTask(tasks, input, recurring, newId, today), today)
         == TasksForDay(tasks, today) + [Task(newId, Text.Trim(input), recurring, today, [])]
  {
    var t := Task(newId, Text.Trim(input), recurring, today, []);
    assert AddTask(tasks, input, recurring, newId, today) == tasks + [t];
    FilterAppend(tasks, [t], DueOn(today));
  }

  // ---------------------------------------------------------------------------
  // Well-formed lists

  function TaskId(t: Task): string { t.id }

  predicate IdFresh(tasks: seq<Task>, id: string) {
    forall t :: t in tasks ==> t.id != id
  }

  /** Ids are unique and no task lists a completed day twice. */
  ghost predicate WellFormed(tasks: seq<Task>) {
    DistinctBy(tasks, TaskId) &&
    forall i :: 0 <= i < |tasks| ==> NoDuplicates(tasks[i].completedDates)
  }

  lemma AddKeepsWellFormed(tasks: seq<Task>, input: string, recurring: bool, newId: string, today: DayKey)
    requires WellFormed(tasks) && IdFresh(tasks, newId)
    ensures WellFormed(AddTask(tasks, input, recurring, newId, today))
  {
    var r := AddTask(tasks, input, recurring, newId, today);
    if !Text.IsBlank(input) {
      forall i, j | 0 <= i < j < |r| ensures TaskId(r[i]) != TaskId(r[j]) {
        if j == |tasks| {
          assert r[i] == tasks[i] && tasks[i] in tasks;
        } else {
          assert r[i] == tasks[i] && r[j] == tasks[j];
        }
      }
    }
  }

  lemma ToggleKeepsWellFormed(tasks: seq<Task>, taskId: string, day: DayKey)
    requires WellFormed(tasks)
    ensures WellFormed(ToggleAll(tasks, taskId, day))
  {
    var r := ToggleAll(tasks, taskId, day);
    forall i | 0 <= i < |r| ensures NoDuplicates(r[i].completedDates) {
      ToggleDatesKeepsNoDuplicates(tasks[i].completedDates, day);
    }
    forall i, j | 0 <= i < j < |r| ensures TaskId(r[i]) != TaskId(r[j]) {
      assert TaskId(tasks[i]) != TaskId(tasks[j]);
    }
  }

  lemma DeleteKeepsWellFormed(tasks: seq<Task>, taskId: string)
    requires WellFormed(tasks)
    ensures WellFormed(DeleteTask(tasks, taskId))
  {
    FilterKeepsDistinctBy(tasks, IdIsNot(taskId), TaskId);
    var r := DeleteTask(tasks, taskId);
    forall i | 0 <= i < |r| ensures NoDuplicates(r[i].completedDates) {
      assert r[i] in tasks;
    }
  }

  /** With unique ids, deleting an id that is present removes exactly one task. */
  lemma {:induction false} DeleteUniqueRemovesOne(tasks: seq<Task>, k: nat)
    requires DistinctBy(tasks, TaskId) && k < |tasks|
    ensures |DeleteTask(tasks, tasks[k].id)| == |tasks| - 1
  {
    FilterDropsOne(tasks, IdIsNot(tasks[k].id), k);
  }
}
