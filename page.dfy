/** The page component's state and its handlers. Each handler replaces state
    the way the component's setters do; what the page renders is computed from
    this state by the functions of Tasks, Stats and Window. The current day and
    fresh task ids come from the browser and are parameters here. */
module Page {
  import opened Tasks
  import Text
  import Window
  import Storage

  class Home {
    var tasks: seq<Task>
    var input: string
    var recurring: bool
    var selectedDay: DayKey
    var hydrated: bool
    var showAdd: bool
    var weekOffset: int

    /** The week offset only ever moves by whole weeks and never into the future. */
    ghost predicate Valid()
      reads this
    {
      0 <= weekOffset && weekOffset % 7 == 0
    }

    /** The initial state: no tasks yet, an empty draft marked recurring, today
        selected, the window ending today. */
    constructor (today: DayKey)
      ensures Valid()
      ensures tasks == [] && input == "" && recurring && selectedDay == today
      ensures !hydrated && !showAdd && weekOffset == 0
    {
      tasks := [];
      input := "";
      recurring := true;
      selectedDay := today;
      hydrated := false;
      showAdd := false;
      weekOffset := 0;
    }

    /** The mount effect: load the stored list and mark the page hydrated. */
    method Hydrate(stored: Storage.Option<string>, parse: string -> Storage.ParseOutcome)
      modifies this`tasks, this`hydrated
      ensures tasks == Storage.SafeParseTasks(stored, parse) && hydrated
    {
      tasks := Storage.SafeParseTasks(stored, parse);
      hydrated := true;
    }

    /** The title field's change handler. */
    method SetInput(text: string)
      modifies this`input
      ensures input == text
    {
      input := text;
    }

    /** The recurring switch's change handler. */
    method SetRecurring(value: bool)
      modifies this`recurring
      ensures recurring == value
    {
      recurring := value;
    }

    /** The add button: opens the new-task dialog. */
    method OpenAddDialog()
      modifies this`showAdd
      ensures showAdd
    {
      showAdd := true;
    }

    /** `handleAddTask`: a blank draft changes nothing; otherwise the task is
        appended and the draft and dialog are reset. */
    method HandleAddTask(newId: string, today: DayKey)
      modifies this`tasks, this`input, this`recurring, this`showAdd
      ensures tasks == Tasks.AddTask(old(tasks), old(input), old(recurring), newId, today)
      ensures Text.IsBlank(old(input)) ==>
        tasks == old(tasks) && input == old(input) && recurring == old(recurring) && showAdd == old(showAdd)
      ensures !Text.IsBlank(old(input)) ==>
        |tasks| == |old(tasks)| + 1 && tasks[|old(tasks)|].createdAt == today &&
        tasks[|old(tasks)|].completedDates == [] && input == "" && recurring && !showAdd
      ensures WellFormed(old(tasks)) && IdFresh(old(tasks), newId) ==> WellFormed(tasks)
    {
      var title := Text.Trim(input);
      if title == [] {
        return;
      }
      if WellFormed(tasks) && IdFresh(tasks, newId) {
        AddKeepsWellFormed(tasks, input, recurring, newId, today);
      }
      tasks := tasks + [Task(newId, title, recurring, today, [])];
      input := "";
      recurring := true;
      showAdd := false;
    }

    /** `handleToggle`: flip `day` in the completed days of the task with that id. */
    method HandleToggle(taskId: string, day: DayKey)
      modifies this`tasks
      ensures tasks == ToggleAll(old(tasks), taskId, day)
      ensures WellFormed(old(tasks)) ==> WellFormed(tasks)
    {
      if WellFormed(tasks) {
        ToggleKeepsWellFormed(tasks, taskId, day);
      }
      tasks := ToggleAll(tasks, taskId, day);
    }

    /** `handleDelete`: drop the task with that id. */
    method HandleDelete(taskId: string)
      modifies this`tasks
      ensures tasks == DeleteTask(old(tasks), taskId)
      ensures WellFormed(old(tasks)) ==> WellFormed(tasks)
    {
      if WellFormed(tasks) {
        DeleteKeepsWellFormed(tasks, taskId);
      }
      tasks := DeleteTask(tasks, taskId);
    }

    /** The "previous 7 days" button. */
    method ShowOlderWeek()
      requires Valid()
      modifies this`weekOffset
      ensures Valid()
      ensures weekOffset == Window.OlderWeek(old(weekOffset))
    {
      weekOffset := Window.OlderWeek(weekOffset);
    }

    /** The "next 7 days" button. */
    method ShowNewerWeek()
      requires Valid()
      modifies this`weekOffset
      ensures Valid()
      ensures weekOffset == Window.NewerWeek(old(weekOffset))
    {
      weekOffset := Window.NewerWeek(weekOffset);
    }

    /** A click on one of the seven day buttons. */
    method SelectDay(index: nat, today: DayKey)
      requires Valid() && index < 7
      modifies this`selectedDay
      ensures selectedDay == Window.DayRow(weekOffset, today)[index]
      ensures selectedDay in Window.DayRow(weekOffset, today)
    {
      selectedDay := Window.DayRow(weekOffset, today)[index];
    }

    /** The selection-reset effect, run after the window moves. */
    method SyncSelection(today: DayKey)
      requires Valid()
      modifies this`selectedDay
      ensures selectedDay == Window.ResetSelection(old(selectedDay), weekOffset, today)
      ensures selectedDay in Window.DayRow(weekOffset, today)
      ensures old(selectedDay) in Window.DayRow(weekOffset, today) ==> selectedDay == old(selectedDay)
    {
      selectedDay := Window.ResetSelection(selectedDay, weekOffset, today);
    }
  }

  /** A session with one recurring task: it is listed from its creation day on,
      and ticking a day twice restores its completed days. */
  method WaterPlantsSession() {
    var home := new Home(5);
    var water := Task("a", "Water plants", true, 1, [2]);
    home.tasks := [water];
    assert TasksForDay(home.tasks, 5) == [water];
    assert TasksForDay(home.tasks, 0) == [];
    home.HandleToggle("a", 5);
    assert home.tasks[0].completedDates == [2, 5];
    home.HandleToggle("a", 5);
    assert home.tasks[0].completedDates == [2];
    home.ShowOlderWeek();
    home.SyncSelection(5);
    assert home.selectedDay == -2;
    home.ShowNewerWeek();
    home.SyncSelection(5);
    assert home.selectedDay == 5;
  }
}
