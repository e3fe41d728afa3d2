/** The add-task dialog (app/src/main/java/com/todolist/ui/components/TaskDialog.kt),
    written against the revision whose date and priority are strings and
    whose tasks are saved through the key-value store. */
module AddDialog {
  import opened TaskModel
  import opened Tags
  import opened PriorityLabels
  import opened PrefsManager
  import opened Wrappers
  import Text

  /** The task the dialog builds from its fields: id 0, the selected tag's
      display name as the only tag, and not done. */
  function NewTask(title: string, description: string, date: string, tag: TaskTag,
                   priority: string, isStarred: bool): (t: TextTask)
    ensures t.id == 0 && t.tags == [DisplayName(tag)] && !t.isDone
    ensures t.title == title && t.description == description && t.date == date
    ensures t.priority == priority && t.isStarred == isStarred
  {
    Task(title := title, description := description, date := date, tags := [DisplayName(tag)],
         priority := priority, isStarred := isStarred, isDone := false)
  }

  /** A task added with pipe-free text fields is read back from the store
      after the save, un-starred. */
  lemma AddedTaskSurvivesReload(allTasks: seq<TextTask>, t: TextTask, tag: TaskTag)
    requires t.id == 0 && t.tags == [DisplayName(tag)]
    requires '|' !in t.title && '|' !in t.description && '|' !in t.date && '|' !in t.priority
    ensures EncodeTask(t) in EncodeAll(allTasks + [t])
    ensures DecodeTask(EncodeTask(t)) == Success(Stripped(t))
  {
    var all := allTasks + [t];
    assert all[|allTasks|] == t;
    assert Text.InInt32(0);
    DecodeEncode(t);
  }

  /** The dialog's state: the five field values it edits, its own starred
      flag, the tag popup, whether it is shown, the task list it appends to
      and the store the list is saved in. */
  class AddTaskDialog {
    var title: string
    var description: string
    var date: string
    var tag: TaskTag
    var priority: string
    var isStarred: bool
    var tagMenuOpen: bool
    var showDialog: bool
    var allTasks: seq<TextTask>
    const store: SharedPreferencesManager

    constructor (title: string, description: string, date: string, tag: TaskTag, priority: string,
                 initialIsStarred: bool, allTasks: seq<TextTask>, store: SharedPreferencesManager)
      ensures this.title == title && this.description == description && this.date == date
      ensures this.tag == tag && this.priority == priority && isStarred == initialIsStarred
      ensures !tagMenuOpen && showDialog && this.allTasks == allTasks && this.store == store
    {
      this.title, this.description, this.date := title, description, date;
      this.tag, this.priority, isStarred := tag, priority, initialIsStarred;
      tagMenuOpen, showDialog, this.allTasks, this.store := false, true, allTasks, store;
    }

    /** Typing in the title field replaces the draft title. */
    method SetTitle(text: string)
      modifies this
      ensures title == text && description == old(description) && date == old(date)
      ensures tag == old(tag) && priority == old(priority) && isStarred == old(isStarred)
      ensures showDialog == old(showDialog) && allTasks == old(allTasks) && tagMenuOpen == old(tagMenuOpen)
    {
      title := text;
    }

    /** Typing in the description field replaces the draft description. */
    method SetDescription(text: string)
      modifies this
      ensures description == text && title == old(title) && date == old(date)
      ensures tag == old(tag) && priority == old(priority) && isStarred == old(isStarred)
      ensures showDialog == old(showDialog) && allTasks == old(allTasks) && tagMenuOpen == old(tagMenuOpen)
    {
      description := text;
    }

    /** The date picker hands its text to the draft date. */
    method SetDate(picked: string)
      modifies this
      ensures date == picked && title == old(title) && description == old(description)
      ensures tag == old(tag) && priority == old(priority) && isStarred == old(isStarred)
      ensures showDialog == old(showDialog) && allTasks == old(allTasks) && tagMenuOpen == old(tagMenuOpen)
    {
      date := picked;
    }

    /** "Select Tag" opens the tag popup. */
    method OpenTagMenu()
      modifies this
      ensures tagMenuOpen && title == old(title) && description == old(description) && date == old(date)
      ensures tag == old(tag) && priority == old(priority) && isStarred == old(isStarred)
      ensures showDialog == old(showDialog) && allTasks == old(allTasks)
    {
      tagMenuOpen := true;
    }

    /** The star button flips the draft's starred flag. */
    method ToggleStar()
      modifies this
      ensures isStarred == !old(isStarred)
      ensures title == old(title) && description == old(description) && date == old(date)
      ensures tag == old(tag) && priority == old(priority) && showDialog == old(showDialog)
      ensures allTasks == old(allTasks) && tagMenuOpen == old(tagMenuOpen)
    {
      isStarred := !isStarred;
    }

    /** Choosing a tag in the popup selects it and closes the popup. */
    method SelectTag(t: TaskTag)
      modifies this
      ensures tag == t && !tagMenuOpen
      ensures title == old(title) && description == old(description) && date == old(date)
      ensures priority == old(priority) && isStarred == old(isStarred) && showDialog == old(showDialog)
      ensures allTasks == old(allTasks)
    {
      tag := t;
      tagMenuOpen := false;
    }

    /** Moving the slider to `level` (its integer part) sets the label of
      that level; the slider shows the level again. */
    method SlidePriority(level: int)
      modifies this
      ensures priority == LevelToPriority(level)
      ensures 0 <= level <= 4 ==> PriorityToLevel(priority) == level
      ensures title == old(title) && description == old(description) && date == old(date)
      ensures tag == old(tag) && isStarred == old(isStarred) && showDialog == old(showDialog)
      ensures allTasks == old(allTasks) && tagMenuOpen == old(tagMenuOpen)
    {
      priority := LevelToPriority(level);
    }

    /** Dismissing closes the dialog and leaves the task list alone. */
    method Dismiss()
      modifies this
      ensures !showDialog
      ensures title == old(title) && description == old(description) && date == old(date)
      ensures tag == old(tag) && priority == old(priority) && isStarred == old(isStarred)
      ensures allTasks == old(allTasks) && tagMenuOpen == old(tagMenuOpen)
    {
      showDialog := false;
    }

    /** "OK": with an empty title, description or date nothing changes and
        the dialog stays open. Otherwise the new task is appended, the list
        that now holds it is saved, the three text fields are cleared and the
        dialog closes; tag, priority and the starred flag stay as they were. */
    method Confirm()
      modifies this, store
      ensures old(title) == "" || old(description) == "" || old(date) == "" ==>
        && allTasks == old(allTasks) && store.records == old(store.records)
        && title == old(title) && description == old(description) && date == old(date)
        && showDialog == old(showDialog)
      ensures old(title) != "" && old(description) != "" && old(date) != "" ==>
        && allTasks == old(allTasks) + [NewTask(old(title), old(description), old(date), tag, priority, isStarred)]
        && store.records == EncodeAll(allTasks)
        && title == "" && description == "" && date == "" && !showDialog
      ensures tag == old(tag) && priority == old(priority) && isStarred == old(isStarred)
      ensures tagMenuOpen == old(tagMenuOpen)
    {
      if title != "" && description != "" && date != "" {
        var newTask := NewTask(title, description, date, tag, priority, isStarred);
        allTasks := allTasks + [newTask];
        store.SaveTasks(allTasks);
        title, description, date := "", "", "";
        showDialog := false;
      }
    }
  }
}
