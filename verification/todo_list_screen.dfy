/** The main screen (app/src/main/java/com/todolist/ui/MainActivity.kt): the
    pipeline that decides which tasks are listed, and the per-task handlers of
    `TaskItem`. */
module Screen {
  import opened Text
  import opened Lists
  import opened TaskModel
  import opened Dao
  import opened ViewModel
  import opened TaskTabs

  /** The filter that `filterTasks` applies: the query occurs in the title or
      the description in any case, and the starred-only and completed-only
      switches keep only starred and only done tasks. */
  predicate PassesFilters(t: RoomTask, query: string, starredOnly: bool, completedOnly: bool)
  {
    && (ContainsIgnoreCase(t.title, query) || ContainsIgnoreCase(t.description, query))
    && (starredOnly ==> t.isStarred)
    && (completedOnly ==> t.isDone)
  }

  /** `PassesFilters` as the test handed to the filter. */
  function Passes(query: string, starredOnly: bool, completedOnly: bool): RoomTask -> bool
  {
    (t: RoomTask) => PassesFilters(t, query, starredOnly, completedOnly)
  }

  /** `filterTasks`: the tasks that pass the filters, in input order. */
  function FilterTasks(tasks: seq<RoomTask>, query: string, starredOnly: bool, completedOnly: bool)
    : (r: seq<RoomTask>)
    ensures |r| <= |tasks|
    ensures forall i :: 0 <= i < |r| ==> PassesFilters(r[i], query, starredOnly, completedOnly)
  {
    Filter(tasks, Passes(query, starredOnly, completedOnly))
  }

  /** The listed tasks: the filters, then the tag. */
  function VisibleTasks(tasks: seq<RoomTask>, query: string, starredOnly: bool, completedOnly: bool, tag: string)
    : seq<RoomTask>
  {
    FilterTasksByTag(FilterTasks(tasks, query, starredOnly, completedOnly), tag)
  }

  /** A task is listed exactly when it is in the list, passes every filter
      and carries the selected tag (or the tag is "All"). */
  lemma VisibleMembership(tasks: seq<RoomTask>, query: string, starredOnly: bool, completedOnly: bool,
                          tag: string, t: RoomTask)
    ensures t in VisibleTasks(tasks, query, starredOnly, completedOnly, tag) <==>
      t in tasks && PassesFilters(t, query, starredOnly, completedOnly) && (tag == AllTag || tag in t.tags)
  {
    FilterMembership(tasks, Passes(query, starredOnly, completedOnly), t);
    FilterByTagMembership(FilterTasks(tasks, query, starredOnly, completedOnly), tag, t);
  }

  /** The listed tasks keep the order of the task list. */
  lemma VisibleInOrder(tasks: seq<RoomTask>, query: string, starredOnly: bool, completedOnly: bool, tag: string)
    ensures IsSubsequence(VisibleTasks(tasks, query, starredOnly, completedOnly, tag), tasks)
  {
    var p := Passes(query, starredOnly, completedOnly);
    if tag == AllTag {
      FilterIsSubsequence(tasks, p);
    } else {
      var q: RoomTask -> bool := HasTag(tag);
      var both := (x: RoomTask) => p(x) && q(x);
      FilterTwice(tasks, p, q, both);
      FilterIsSubsequence(tasks, both);
    }
  }

  lemma EmptyIsContained(s: string)
    ensures ContainsIgnoreCase(s, "")
  {
    assert FoldAll("") == [];
  }

  /** With the initial filters (empty query, both switches off, tag "All")
      every task is listed. */
  lemma InitialFiltersShowAll(tasks: seq<RoomTask>)
    ensures VisibleTasks(tasks, "", false, false, AllTag) == tasks
  {
    forall i | 0 <= i < |tasks| ensures PassesFilters(tasks[i], "", false, false) {
      EmptyIsContained(tasks[i].title);
    }
    FilterAllPass(tasks, Passes("", false, false));
  }

  /** Both switches on is the two switches one after the other, in either
      order: the completed-only filter applied to the starred-only result,
      or the other way round. */
  lemma SwitchesCompose(tasks: seq<RoomTask>, query: string)
    ensures FilterTasks(FilterTasks(tasks, query, true, false), "", false, true) ==
      FilterTasks(tasks, query, true, true)
    ensures FilterTasks(FilterTasks(tasks, query, false, true), "", true, false) ==
      FilterTasks(tasks, query, true, true)
  {
    forall t: RoomTask {
      EmptyIsContained(t.title);
    }
    FilterTwice(tasks, Passes(query, true, false), Passes("", false, true), Passes(query, true, true));
    FilterTwice(tasks, Passes(query, false, true), Passes("", true, false), Passes(query, true, true));
  }

  /** The two tasks of the search test: "Initial Task" (neither starred nor
      done) and "Another Task" (starred and done). */
  predicate SearchTestTasks(t1: RoomTask, t2: RoomTask)
  {
    && t1.title == "Initial Task" && t1.description == "Initial Description"
    && !t1.isStarred && !t1.isDone
    && t2.title == "Another Task" && t2.description == "Another Description"
    && t2.isStarred && t2.isDone
  }

  lemma FilterPair(a: RoomTask, b: RoomTask, p: RoomTask -> bool)
    ensures Filter([a, b], p) == (if p(a) then [a] else []) + (if p(b) then [b] else [])
  {
    assert [a, b][1..] == [b];
  }

  lemma InitialNotInSecondTask()
    ensures !ContainsIgnoreCase("Another Task", "Initial")
    ensures !ContainsIgnoreCase("Another Description", "Initial")
  {
    assert FoldAll("Initial")[6] == 'l';
    FoldedLetterAbsent("Another Task", 'l', 'L');
    FoldedLetterAbsent("Another Description", 'l', 'L');
    MissingCharNotContained("Another Task", "Initial", 'l');
    MissingCharNotContained("Another Description", "Initial", 'l');
  }

  lemma AnotherNotInFirstTask()
    ensures !ContainsIgnoreCase("Initial Task", "Another")
    ensures !ContainsIgnoreCase("Initial Description", "Another")
  {
    assert FoldAll("Another")[4] == 'h';
    FoldedLetterAbsent("Initial Task", 'h', 'H');
    FoldedLetterAbsent("Initial Description", 'h', 'H');
    MissingCharNotContained("Initial Task", "Another", 'h');
    MissingCharNotContained("Initial Description", "Another", 'h');
  }

  /** The query "Initial" keeps only the first task. */
  lemma SearchTestInitial(t1: RoomTask, t2: RoomTask)
    requires SearchTestTasks(t1, t2)
    ensures FilterTasks([t1, t2], "Initial", false, false) == [t1]
  {
    assert t1.title == "Initial" + " Task";
    PrefixContainedIgnoringCase("Initial", " Task");
    InitialNotInSecondTask();
    FilterPair(t1, t2, Passes("Initial", false, false));
  }

  /** The query "Another" keeps only the second task. */
  lemma SearchTestAnother(t1: RoomTask, t2: RoomTask)
    requires SearchTestTasks(t1, t2)
    ensures FilterTasks([t1, t2], "Another", false, false) == [t2]
  {
    assert t2.title == "Another" + " Task";
    PrefixContainedIgnoringCase("Another", " Task");
    AnotherNotInFirstTask();
    FilterPair(t1, t2, Passes("Another", false, false));
  }

  /** The switches alone: starred-only, completed-only and both keep only
      the second task. */
  lemma SearchTestSwitches(t1: RoomTask, t2: RoomTask)
    requires SearchTestTasks(t1, t2)
    ensures FilterTasks([t1, t2], "", true, false) == [t2]
    ensures FilterTasks([t1, t2], "", false, true) == [t2]
    ensures FilterTasks([t1, t2], "", true, true) == [t2]
  {
    EmptyIsContained(t2.title);
    FilterPair(t1, t2, Passes("", true, false));
    FilterPair(t1, t2, Passes("", false, true));
    FilterPair(t1, t2, Passes("", true, true));
  }

  /** "No tasks found" replaces the list exactly when nothing is listed and
      the query is not empty. */
  predicate ShowsNoTasksFound(visible: seq<RoomTask>, query: string)
  {
    |visible| == 0 && query != ""
  }

  /** When "No tasks found" shows, no task passes the filters and the tag. */
  lemma NoTasksFoundMeansNoMatch(tasks: seq<RoomTask>, query: string, starredOnly: bool,
                                 completedOnly: bool, tag: string)
    requires ShowsNoTasksFound(VisibleTasks(tasks, query, starredOnly, completedOnly, tag), query)
    ensures forall t :: t in tasks ==>
      !(PassesFilters(t, query, starredOnly, completedOnly) && (tag == AllTag || tag in t.tags))
  {
    forall t | t in tasks ensures
      !(PassesFilters(t, query, starredOnly, completedOnly) && (tag == AllTag || tag in t.tags))
    {
      VisibleMembership(tasks, query, starredOnly, completedOnly, tag, t);
    }
  }

  /** The filter state of `ToDoListScreen` over the view model's snapshot. */
  class ScreenState {
    var searchQuery: string
    var starredOnly: bool
    var completedOnly: bool
    var selectedTag: string

    constructor ()
      ensures searchQuery == "" && !starredOnly && !completedOnly && selectedTag == AllTag
    {
      searchQuery, starredOnly, completedOnly, selectedTag := "", false, false, AllTag;
    }

    /** The tasks listed for snapshot `tasks`. */
    function Visible(tasks: seq<RoomTask>): seq<RoomTask>
      reads this
    {
      VisibleTasks(tasks, searchQuery, starredOnly, completedOnly, selectedTag)
    }

    /** The "Starred" button. */
    method ToggleStarred()
      modifies this
      ensures starredOnly == !old(starredOnly)
      ensures searchQuery == old(searchQuery) && completedOnly == old(completedOnly)
      ensures selectedTag == old(selectedTag)
    {
      starredOnly := !starredOnly;
    }

    /** The "Completed" button. */
    method ToggleCompleted()
      modifies this
      ensures completedOnly == !old(completedOnly)
      ensures searchQuery == old(searchQuery) && starredOnly == old(starredOnly)
      ensures selectedTag == old(selectedTag)
    {
      completedOnly := !completedOnly;
    }

    /** A new query typed into the search dialog. */
    method SetQuery(query: string)
      modifies this
      ensures searchQuery == query
      ensures starredOnly == old(starredOnly) && completedOnly == old(completedOnly)
      ensures selectedTag == old(selectedTag)
    {
      searchQuery := query;
    }

    /** A tag chosen in the dropdown. */
    method SelectTag(tag: string)
      modifies this
      ensures selectedTag == tag
      ensures searchQuery == old(searchQuery) && starredOnly == old(starredOnly)
      ensures completedOnly == old(completedOnly)
    {
      selectedTag := tag;
    }
  }

  /** Switching a filter on and off again restores the full list. */
  method ToggleTwiceRestores(tasks: seq<RoomTask>) returns (shown: seq<RoomTask>)
    ensures shown == tasks
  {
    var screen := new ScreenState();
    InitialFiltersShowAll(tasks);
    assert screen.Visible(tasks) == tasks;
    screen.ToggleStarred();
    screen.ToggleStarred();
    assert screen.Visible(tasks) == tasks;
    screen.ToggleCompleted();
    screen.ToggleCompleted();
    shown := screen.Visible(tasks);
  }

  /** One row of the list: the task object it shows, its local starred and
      done flags (initialised from the task), the delete confirmation and
      the edit dialog flags, and the view model it reports to. */
  class TaskItem {
    const task: TaskObject<int, int>
    const viewModel: TaskViewModel
    var isStarred: bool
    var isDone: bool
    var showDeleteConfirmation: bool
    var showEditDialog: bool

    predicate Valid()
      reads this, viewModel, viewModel.repository
    {
      viewModel.Valid()
    }

    constructor (task: TaskObject<int, int>, viewModel: TaskViewModel)
      ensures this.task == task && this.viewModel == viewModel
      ensures isStarred == task.isStarred && isDone == task.isDone
      ensures !showDeleteConfirmation && !showEditDialog
    {
      this.task, this.viewModel := task, viewModel;
      isStarred, isDone := task.isStarred, task.isDone;
      showDeleteConfirmation, showEditDialog := false, false;
    }

    /** The star button: on a done task nothing happens; otherwise the flag
        flips, is written into the task object, and the task is updated. */
    method ToggleStar()
      requires Valid()
      modifies this, task, viewModel, viewModel.repository
      ensures Valid()
      ensures old(isDone) ==>
        && isStarred == old(isStarred) && task.Value() == old(task.Value())
        && viewModel.repository.rows == old(viewModel.repository.rows)
        && viewModel.repository.calls == old(viewModel.repository.calls)
        && viewModel.tasks == old(viewModel.tasks)
      ensures !old(isDone) ==>
        && isStarred == !old(isStarred)
        && task.Value() == old(task.Value()).(isStarred := !old(isStarred))
        && viewModel.repository.rows == UpdateRow(old(viewModel.repository.rows), task.Value())
        && viewModel.repository.calls == old(viewModel.repository.calls) + [UpdateCall(task.Value())]
        && viewModel.tasks == viewModel.repository.rows
      ensures isDone == old(isDone) && showDeleteConfirmation == old(showDeleteConfirmation)
      ensures showEditDialog == old(showEditDialog)
      ensures viewModel.repository.nextId == old(viewModel.repository.nextId)
    {
      if !isDone {
        isStarred := !isStarred;
        task.isStarred := isStarred;
        viewModel.UpdateTask(task.Value());
      }
    }

    /** The checkbox: the done flag takes the new value whatever the starred
        state, is written into the task object, and the task is updated. */
    method Check(checked: bool)
      requires Valid()
      modifies this, task, viewModel, viewModel.repository
      ensures Valid()
      ensures isDone == checked && task.Value() == old(task.Value()).(isDone := checked)
      ensures viewModel.repository.rows == UpdateRow(old(viewModel.repository.rows), task.Value())
      ensures viewModel.repository.calls == old(viewModel.repository.calls) + [UpdateCall(task.Value())]
      ensures viewModel.tasks == viewModel.repository.rows
      ensures isStarred == old(isStarred) && showDeleteConfirmation == old(showDeleteConfirmation)
      ensures showEditDialog == old(showEditDialog)
      ensures viewModel.repository.nextId == old(viewModel.repository.nextId)
    {
      isDone := checked;
      task.isDone := checked;
      viewModel.UpdateTask(task.Value());
    }

    /** The edit button opens the edit dialog only for a task not yet done. */
    method Edit()
      modifies this
      ensures showEditDialog == (old(showEditDialog) || !isDone)
      ensures isStarred == old(isStarred) && isDone == old(isDone)
      ensures showDeleteConfirmation == old(showDeleteConfirmation)
    {
      if !isDone {
        showEditDialog := true;
      }
    }

    /** The delete button: a done task is deleted at once; otherwise the
        confirmation opens and nothing is deleted yet. */
    method DeletePressed()
      requires Valid()
      modifies this, viewModel, viewModel.repository
      ensures Valid()
      ensures old(isDone) ==>
        && viewModel.repository.rows == DeleteRow(old(viewModel.repository.rows), task.Value())
        && viewModel.repository.calls == old(viewModel.repository.calls) + [DeleteCall(task.Value())]
        && viewModel.tasks == viewModel.repository.rows
        && showDeleteConfirmation == old(showDeleteConfirmation)
      ensures !old(isDone) ==>
        && showDeleteConfirmation
        && viewModel.repository.rows == old(viewModel.repository.rows)
        && viewModel.repository.calls == old(viewModel.repository.calls)
        && viewModel.tasks == old(viewModel.tasks)
      ensures isStarred == old(isStarred) && isDone == old(isDone)
      ensures showEditDialog == old(showEditDialog)
      ensures viewModel.repository.nextId == old(viewModel.repository.nextId)
    {
      if isDone {
        viewModel.DeleteTask(task.Value());
      } else {
        showDeleteConfirmation := true;
      }
    }

    /** "Yes" in the confirmation deletes the task and closes it. */
    method ConfirmDelete()
      requires Valid()
      modifies this, viewModel, viewModel.repository
      ensures Valid()
      ensures viewModel.repository.rows == DeleteRow(old(viewModel.repository.rows), task.Value())
      ensures viewModel.repository.calls == old(viewModel.repository.calls) + [DeleteCall(task.Value())]
      ensures viewModel.tasks == viewModel.repository.rows
      ensures !showDeleteConfirmation
      ensures isStarred == old(isStarred) && isDone == old(isDone)
      ensures showEditDialog == old(showEditDialog)
      ensures viewModel.repository.nextId == old(viewModel.repository.nextId)
    {
      viewModel.DeleteTask(task.Value());
      showDeleteConfirmation := false;
    }

    /** "No" (or dismissing) closes the confirmation and deletes nothing. */
    method CancelDelete()
      modifies this
      ensures !showDeleteConfirmation
      ensures isStarred == old(isStarred) && isDone == old(isDone)
      ensures showEditDialog == old(showEditDialog)
    {
      showDeleteConfirmation := false;
    }
  }
}
