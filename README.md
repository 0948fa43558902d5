# MyDay task engine in Dafny

MyDay is a local-first daily task tracker. Its page keeps a list of tasks,
each with an id, a title, a recurring flag, a creation day and the days on
which it was completed. This project models the engine behind that page and
proves its properties:

- the due-set filter that picks the tasks listed for a selected day;
- the completion toggle, deletion and adding a task;
- the day statistics (done count, recurring count) and the 7-point
  completion trend;
- the 7-day window, its week navigation and the reset of the selected day;
- the tolerant loader that turns stored text back into a task list.

Date keys (`yyyy-mm-dd`) are day numbers (`DayKey = int`). The page compares
keys with `<=` on fixed-width strings, and that order is the order of the
days they name. "Today" is a parameter. So are fresh task ids and the JSON
parser's outcome.

Modules, one per part of the engine:

- `Seqs` (seqs.dfy): `Filter`, the model of `Array.prototype.filter`, and
  the facts about it that the other modules use.
- `Text` (text.dfy): `String.prototype.trim`.
- `Tasks` (tasks.dfy): the `Task` record, the due set, toggle, delete and add.
- `Stats` (stats.dfy): the status counts and the chart series.
- `Window` (window.dfy): the day strip, week navigation and selection reset.
- `Storage` (storage.dfy): `safeParseTasks`.
- `Page` (page.dfy): class `Home`, which holds the component's state
  (`tasks`, `input`, `recurring`, `selectedDay`, `hydrated`, `showAdd`,
  `weekOffset`). It has one method per handler or effect. Each method states
  its new state in terms of the old one through the functions above.

Two behaviours of the code are worth noting:

- A `null` element of the stored array does not just lose its
  `completedDates`. Reading `task.completedDates` on `null` throws
  (app/page.tsx:55), and the `catch` (app/page.tsx:59-60) returns `[]` for
  the whole list. `Storage.SafeParseTasks` models that.
- The loader does not remove duplicate completed days. So the "no
  duplicates" invariant (`Tasks.WellFormed`) is stated as preserved by every
  handler, not as always true.

## Model

| member | source | states |
|---|---|---|
| `Tasks.TasksForDay` | app/page.tsx:98-104 | a task is kept iff it is recurring and created on or before the day, or one-off and created on the day; the result is an order-preserving subsequence of the list |
| `Tasks.TasksForDayExact` | app/page.tsx:98-104 | each due task keeps all its occurrences and no other task appears (multiset characterisation) |
| `Tasks.RecurringStaysDue` | app/page.tsx:100-101 | a recurring task that is due on a day is due on every later day |
| `Tasks.OneOffDueOnce` | app/page.tsx:102 | a one-off task is due on one day only |
| `Tasks.ToggleDates` | app/page.tsx:139-144 | the toggled day's membership flips; no other day's membership changes; a present day is removed with every occurrence and the other days keep their order and their multiplicities; an absent day is appended |
| `Tasks.ToggleDatesKeepsNoDuplicates` | app/page.tsx:139-144 | a duplicate-free completed-days list stays duplicate-free after a toggle |
| `Tasks.ToggleDatesTwice` | app/page.tsx:139-144 | toggling a day twice restores every day's membership; if the day was absent it restores the list exactly; on a duplicate-free list it restores the multiset |
| `Tasks.ToggleAll` | app/page.tsx:135-148 | same length and order; tasks with another id are untouched; the matching task keeps id, title, flag and creation day and its completed days become their toggle by `day`, so only `day` flips; an unknown id is a no-op |
| `Tasks.ToggleAllTwice` | app/page.tsx:135-148 | a double toggle of one pair restores every task's completed days, and restores the whole list when the day was absent |
| `Tasks.ToggleCommutesWithDueSet` | app/page.tsx:135-148 | toggling does not change which tasks are due: filtering the toggled list equals toggling the filtered list |
| `Tasks.DeleteTask` | app/page.tsx:150-152 | the result holds exactly the tasks whose id differs, as an order-preserving subsequence; deleting an unknown id returns the list unchanged |
| `Tasks.DeleteTaskExact` | app/page.tsx:150-152 | every task with another id keeps all its occurrences, and none with that id remains |
| `Tasks.DeleteUniqueRemovesOne` | app/page.tsx:150-152 | with unique ids, deleting a present id shortens the list by exactly one |
| `Tasks.AddTask` | app/page.tsx:117-129 | a blank (all-whitespace) title leaves the list unchanged; otherwise exactly one task is appended after the unchanged old list, with the trimmed non-empty title, the chosen flag, created today, no completed days, and due today |
| `Tasks.AddedTaskListedToday` | app/page.tsx:117-129 | after an add, today's due list is the old one followed by the new task |
| `Tasks.AddKeepsWellFormed` | app/page.tsx:117-129 | with a fresh id, adding keeps ids unique and completed days duplicate-free |
| `Tasks.ToggleKeepsWellFormed` | app/page.tsx:135-148 | toggling keeps ids unique and completed days duplicate-free |
| `Tasks.DeleteKeepsWellFormed` | app/page.tsx:150-152 | deleting keeps ids unique and completed days duplicate-free |
| `Text.Trim` | app/page.tsx:118 | the result is empty iff the input is all whitespace; otherwise it starts and ends with non-whitespace; it is a slice of the input with only whitespace cut off either end |
| `Text.TrimIdempotent` | app/page.tsx:118 | trimming a trimmed title changes nothing |
| `Stats.CompletedCount` | app/page.tsx:106-110 | the done count is at most the number of tasks listed for the day |
| `Stats.RecurringCount` | app/page.tsx:112-115 | the recurring count is at most the number of tasks listed for the day |
| `Stats.CompletedCountIsDueAndDone` | app/page.tsx:106-110 | the done count is the number of tasks that are both due and completed on the day |
| `Stats.RecurringCountIsRecurringSince` | app/page.tsx:112-115 | the recurring count is the number of recurring tasks created on or before the day |
| `Stats.CompletionsOn` | app/page.tsx:159-161 | a trend value counts tasks across the whole list, so it is at most the list length |
| `Stats.DoneCountAtMostTrend` | app/page.tsx:154-169 | the trend ignores due-ness, so its value for a day is never below that day's done count |
| `Stats.ToggleMovesDoneCountByOne` | app/page.tsx:135-148 | with unique ids, toggling the selected day on a listed task lowers the done count by one if it was done and raises it by one otherwise |
| `Stats.ToggleMovesTrendByOne` | app/page.tsx:154-169 | with unique ids, toggling a day moves that day's trend value by exactly one |
| `Stats.ToggleKeepsOtherDays` | app/page.tsx:135-148 | toggling one day changes neither the trend value nor the done count of any other day |
| `Stats.ChartData` | app/page.tsx:154-169 | exactly 7 points on consecutive ascending days ending today; each value is the number of tasks completed that day, at most the list length |
| `Stats.ChartDaysAreCurrentWeek` | app/page.tsx:154-184 | the chart's seven days are the day strip's days at offset 0, independent of the selected day and of the strip's position |
| `Stats.TrendBoundsTodaysDone` | app/page.tsx:154-169 | the trend's last point is at least the done count of today's list |
| `Window.DayRow` | app/page.tsx:173-184 | exactly 7 consecutive ascending days, the last one `weekOffset` days before today |
| `Window.InDayRow` | app/page.tsx:173-184 | a day is in the window iff it lies between 6 days before the last key and the last key |
| `Window.WindowAtZeroEndsToday` | app/page.tsx:173-184 | at offset 0 the window contains today and no later day |
| `Window.OlderWeek` | app/page.tsx:275 | the previous-week button moves the window strictly back by whole weeks (that the step is exactly one week, adjacent to the current window, is `Window.OlderWeekIsAdjacent`) |
| `Window.NewerWeek` | app/page.tsx:307 | the next-week button moves forward one week, clamped at offset 0 |
| `Window.WeekNavigationInverse` | app/page.tsx:275-307 | back then forward returns to the same offset; forward then back does too unless the offset was below 7 |
| `Window.OlderWeekIsAdjacent` | app/page.tsx:173-184 | the previous week's window ends the day before the current window starts |
| `Window.ResetSelection` | app/page.tsx:191-196 | the selection always ends inside the window; a selection already inside stays; one outside becomes the window's last day |
| `Window.ResetSelectionIdempotent` | app/page.tsx:191-196 | running the reset again changes nothing |
| `Storage.FromRecord` | app/page.tsx:53-58 | a record's fields pass through; a `completedDates` that is not an array becomes [] |
| `Storage.SafeParseTasks` | app/page.tsx:48-62 | [] for null or empty text, for a parse failure, for a non-array value and for an array holding null; otherwise one task per record, in order |
| `Storage.Encode` | app/page.tsx:95 | the saved records are one non-null record per task |
| `Storage.LoadSavedTasks` | app/page.tsx:83-96 | loading what was saved gives back the same task list |
| `Page.Home.constructor` | app/page.tsx:65-71 | no tasks, an empty draft marked recurring, today selected, not hydrated, dialog closed, offset 0 |
| `Page.Home.Hydrate` | app/page.tsx:83-91 | the list becomes the parsed stored list and the page is hydrated; nothing else changes |
| `Page.Home.SetInput` | app/page.tsx:427 | the draft title becomes the typed text |
| `Page.Home.SetRecurring` | app/page.tsx:439 | the draft's recurring flag becomes the switch value |
| `Page.Home.OpenAddDialog` | app/page.tsx:401 | the add dialog opens |
| `Page.Home.HandleAddTask` | app/page.tsx:117-133 | a blank draft changes nothing; otherwise the task is appended, the draft is cleared, the flag resets to recurring and the dialog closes; well-formedness is kept for a fresh id |
| `Page.Home.HandleToggle` | app/page.tsx:135-148 | the list becomes the toggled list; well-formedness is kept |
| `Page.Home.HandleDelete` | app/page.tsx:150-152 | the list becomes the list without that id; well-formedness is kept |
| `Page.Home.ShowOlderWeek` | app/page.tsx:275 | the offset grows by 7 and stays a non-negative multiple of 7 |
| `Page.Home.ShowNewerWeek` | app/page.tsx:307 | the offset shrinks by 7, clamped at 0, and stays a non-negative multiple of 7 |
| `Page.Home.SelectDay` | app/page.tsx:288 | the selected day becomes the clicked key of the window |
| `Page.Home.SyncSelection` | app/page.tsx:191-196 | after the effect the selected day is in the window, unchanged if it already was |

## Left out

- Browser storage reads and writes, and the effect that saves after every change (app/page.tsx:93-96): this is I/O. `Storage.Encode` and `Storage.LoadSavedTasks` state what gets saved and that it loads back unchanged.
- `JSON.parse` and `JSON.stringify`: the parser is a parameter, and its result is the abstract `ParseOutcome`. Records are either `null` or objects whose fields other than `completedDates` have their declared types. An array element that is a number or a string is not represented.
- `crypto.randomUUID`: the new id is a parameter. Well-formedness after an add is stated for an id not already in the list.
- The wall clock, `toISOString`, `setDate`, the local-versus-UTC difference between them, and the `Intl.DateTimeFormat` labels: today is a parameter and days are integers. So `Window.DayRow` keeps the keys of the day strip but not each entry's weekday label or day of the month, and `Stats.ChartData` drops each point's label.
- `Window.ResetSelection`: the `?? todayKey()` fallback of app/page.tsx:194 is not modelled. The window always has 7 entries, so that fallback never applies.
- The completion percentage (`Math.round`, app/page.tsx:384-388) and the chart's coordinates: floating-point rendering.
- The press-and-hold delete timer, the delete confirmation dialog and the install prompt (app/page.tsx:198-225): timers and asynchronous browser events. `Page.Home.HandleDelete` is the confirmed deletion itself.
- The empty-state flag and the selected-day label (app/page.tsx:171, 186-189): presentation only.
- Concurrent writers in two tabs: the page does not guard against them (last write wins), and the model has a single state.
