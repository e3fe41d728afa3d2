/** The edit dialog (app/src/main/java/com/todolist/ui/components/EditDialog.kt),
    written against the revision whose date and priority are strings. It
    writes the dialog state into the task object it was given. */
module EditDialogs {
  import opened TaskModel
  import opened Tags
  import opened PriorityLabels

  /** The values a save writes over the six edited fields, keeping id and
      the done flag. */
  function Edited(t: TextTask, title: string, description: string, date: string, tag: TaskTag,
                  priority: string, isStarred: bool): (r: TextTask)
    ensures r.id == t.id && r.isDone == t.isDone
    ensures r.title == title && r.description == description && r.date == date
    ensures r.tags == [DisplayName(tag)] && r.priority == priority && r.isStarred == isStarred
  {
    t.(title := title, description := description, date := date, tags := [DisplayName(tag)],
       priority := priority, isStarred := isStarred)
  }

  /** Saving twice with the same dialog state is saving once. */
  lemma EditedIdempotent(t: TextTask, title: string, description: string, date: string, tag: TaskTag,
                         priority: string, isStarred: bool)
    ensures Edited(Edited(t, title, description, date, tag, priority, isStarred),
                   title, description, date, tag, priority, isStarred)
         == Edited(t, title, description, date, tag, priority, isStarred)
  {
  }

  /** The dialog's state: the task object it edits, the field values, its
      starred flag, the tag popup, whether it is shown, and the task values
      it has handed to `updateTask`, in order. */
  class EditDialog {
    const task: TaskObject<string, string>
    var title: string
    var description: string
    var date: string
    var tag: TaskTag
    var priority: string
    var isStarred: bool
    var tagMenuOpen: bool
    var showDialog: bool
    var updates: seq<TextTask>

    constructor (task: TaskObject<string, string>, title: string, description: string, date: string,
                 tag: TaskTag, priority: string, initialIsStarred: bool)
      ensures this.task == task && this.title == title && this.description == description
      ensures this.date == date && this.tag == tag && this.priority == priority
      ensures isStarred == initialIsStarred && !tagMenuOpen && showDialog && updates == []
    {
      this.task, this.title, this.description, this.date := task, title, description, date;
      this.tag, this.priority, isStarred := tag, priority, initialIsStarred;
      tagMenuOpen, showDialog, updates := false, true, [];
    }

    /** Typing in the title field replaces the dialog's title. */
    method SetTitle(text: string)
      modifies this
      ensures title == text && description == old(description) && date == old(date)
      ensures tag == old(tag) && priority == old(priority) && isStarred == old(isStarred)
      ensures tagMenuOpen == old(tagMenuOpen) && showDialog == old(showDialog) && updates == old(updates)
    {
      title := text;
    }

    /** Typing in the description field replaces the dialog's description. */
    method SetDescription(text: string)
      modifies this
      ensures description == text && title == old(title) && date == old(date)
      ensures tag == old(tag) && priority == old(priority) && isStarred == old(isStarred)
      ensures tagMenuOpen == old(tagMenuOpen) && showDialog == old(showDialog) && updates == old(updates)
    {
      description := text;
    }

    /** The date picker hands its text to the dialog's date field. */
    method SetDate(picked: string)
      modifies this
      ensures date == picked && title == old(title) && description == old(description)
      ensures tag == old(tag) && priority == old(priority) && isStarred == old(isStarred)
      ensures tagMenuOpen == old(tagMenuOpen) && showDialog == old(showDialog) && updates == old(updates)
    {
      date := picked;
    }

    /** "Select Tag" opens the tag popup. */
    method OpenTagMenu()
      modifies this
      ensures tagMenuOpen && title == old(title) && description == old(description) && date == old(date)
      ensures tag == old(tag) && priority == old(priority) && isStarred == old(isStarred)
      ensures showDialog == old(showDialog) && updates == old(updates)
    {
      tagMenuOpen := true;
    }

    /** The star button flips the dialog's starred flag, not the task's. */
    method ToggleStar()
      modifies this
      ensures isStarred == !old(isStarred) && showDialog == old(showDialog) && updates == old(updates)
      ensures title == old(title) && description == old(description) && date == old(date)
      ensures tag == old(tag) && priority == old(priority) && tagMenuOpen == old(tagMenuOpen)
    {
      isStarred := !isStarred;
    }

    /** Choosing a tag in the popup selects it and closes the popup. */
    method SelectTag(t: TaskTag)
      modifies this
      ensures tag == t && !tagMenuOpen && showDialog == old(showDialog) && updates == old(updates)
      ensures title == old(title) && description == old(description) && date == old(date)
      ensures priority == old(priority) && isStarred == old(isStarred)
    {
      tag := t;
      tagMenuOpen := false;
    }

    /** Moving the slider to `level` sets the label of that level. */
    method SlidePriority(level: int)
      modifies this
      ensures priority == LevelToPriority(level)
      ensures 0 <= level <= 4 ==> PriorityToLevel(priority) == level
      ensures title == old(title) && description == old(description) && date == old(date)
      ensures tag == old(tag) && isStarred == old(isStarred) && tagMenuOpen == old(tagMenuOpen)
      ensures showDialog == old(showDialog) && updates == old(updates)
    {
      priority := LevelToPriority(level);
    }

    /** Dismissing closes the dialog; the task object is not touched. */
    method Dismiss()
      modifies this
      ensures !showDialog && updates == old(updates)
      ensures title == old(title) && description == old(description) && date == old(date)
      ensures tag == old(tag) && priority == old(priority) && isStarred == old(isStarred)
      ensures tagMenuOpen == old(tagMenuOpen)
    {
      showDialog := false;
    }

    /** "Save Changes": the six fields of the task object are overwritten in
        place, the mutated task goes to `updateTask`, and only then the
        dialog closes. No field is checked for emptiness. */
    method Save()
      modifies this, task
      ensures task.Value() == Edited(old(task.Value()), title, description, date, tag, priority, isStarred)
      ensures updates == old(updates) + [task.Value()]
      ensures !showDialog
      ensures title == old(title) && description == old(description) && date == old(date)
      ensures tag == old(tag) && priority == old(priority) && isStarred == old(isStarred)
      ensures tagMenuOpen == old(tagMenuOpen)
    {
      task.title := title;
      task.description := description;
      task.date := date;
      task.tags := [DisplayName(tag)];
      task.priority := priority;
      task.isStarred := isStarred;
      updates := updates + [task.Value()];
      showDialog := false;
    }

    /** The save of the revision the edit tests were written for: an empty
        title, description or date keeps the dialog open and changes nothing;
        otherwise it saves as `Save` does. */
    method SaveRejectingEmpty()
      modifies this, task
      ensures title == "" || description == "" || date == "" ==>
        task.Value() == old(task.Value()) && updates == old(updates) && showDialog == old(showDialog)
      ensures title != "" && description != "" && date != "" ==>
        && task.Value() == Edited(old(task.Value()), title, description, date, tag, priority, isStarred)
        && updates == old(updates) + [task.Value()] && !showDialog
      ensures title == old(title) && description == old(description) && date == old(date)
      ensures tag == old(tag) && priority == old(priority) && isStarred == old(isStarred)
      ensures tagMenuOpen == old(tagMenuOpen)
    {
      if title != "" && description != "" && date != "" {
        Save();
      }
    }
  }

  /** A dialog opened on row `i` of a list of task objects edits that row
      in place: the list (and every other holder of the same object) sees
      the saved values, and rows holding other objects keep theirs. */
  method SaveThroughRow(rows: seq<TaskObject<string, string>>, i: nat, title: string, description: string,
                        date: string, tag: TaskTag, priority: string, isStarred: bool)
    requires i < |rows|
    modifies rows[i]
    ensures rows[i].Value() == Edited(old(rows[i].Value()), title, description, date, tag, priority, isStarred)
    ensures forall j :: 0 <= j < |rows| && rows[j] != rows[i] ==> rows[j].Value() == old(rows[j].Value())
  {
    var dialog := new EditDialog(rows[i], title, description, date, tag, priority, isStarred);
    dialog.Save();
  }
}
