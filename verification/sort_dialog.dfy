/** The sort dialog (app/src/main/java/com/todolist/ui/components/SortDialog.kt):
    two buttons per option, and a close button. */
module SortChoice {
  import opened Wrappers

  /** The options offered, in order. */
  const Options: seq<string> := ["Priority", "Date"]

  /** The text of the button for `option` and a direction. */
  function ButtonLabel(option: string, ascending: bool): string
  {
    option + (if ascending then " Ascending" else " Descending")
  }

  /** The option and direction a button text stands for, if any. */
  function ParseButton(text: string): (r: Option<(string, bool)>)
    ensures r.Some? ==> r.value.0 in Options && ButtonLabel(r.value.0, r.value.1) == text
  {
    if text == ButtonLabel("Priority", true) then Some(("Priority", true))
    else if text == ButtonLabel("Priority", false) then Some(("Priority", false))
    else if text == ButtonLabel("Date", true) then Some(("Date", true))
    else if text == ButtonLabel("Date", false) then Some(("Date", false))
    else None
  }

  /** Every button's text names its own option and direction, so the four
      labels are distinct. */
  lemma ParseButtonLabel(option: string, ascending: bool)
    requires option in Options
    ensures ParseButton(ButtonLabel(option, ascending)) == Some((option, ascending))
  {
    assert ButtonLabel("Priority", true) == "Priority Ascending";
    assert ButtonLabel("Priority", false) == "Priority Descending";
    assert ButtonLabel("Date", true) == "Date Ascending";
    assert ButtonLabel("Date", false) == "Date Descending";
  }

  /** The dialog's state: whether it is shown, the chosen option and the
      direction. */
  class SortDialog {
    var showDialog: bool
    var sortOption: string
    var sortAscending: bool

    constructor (option: string, ascending: bool)
      ensures showDialog && sortOption == option && sortAscending == ascending
    {
      showDialog, sortOption, sortAscending := true, option, ascending;
    }

    /** "<option> Ascending" or "<option> Descending": sets the option and the
        direction, then closes. */
    method Choose(option: string, ascending: bool)
      requires option in Options
      modifies this
      ensures sortOption == option && sortAscending == ascending && !showDialog
    {
      sortOption := option;
      sortAscending := ascending;
      showDialog := false;
    }

    /** Pressing the button captioned `text`; any other caption changes
        nothing. */
    method Press(text: string)
      modifies this
      ensures ParseButton(text).Some? ==>
        sortOption == ParseButton(text).value.0 && sortAscending == ParseButton(text).value.1 && !showDialog
      ensures ParseButton(text).None? ==>
        sortOption == old(sortOption) && sortAscending == old(sortAscending) && showDialog == old(showDialog)
    {
      match ParseButton(text)
      case Some((option, ascending)) => Choose(option, ascending);
      case None =>
    }

    /** "Close" and dismissing close the dialog and keep the choice. */
    method Close()
      modifies this
      ensures !showDialog && sortOption == old(sortOption) && sortAscending == old(sortAscending)
    {
      showDialog := false;
    }
  }

  /** "Priority Ascending" gives option "Priority", ascending. */
  method PriorityAscendingExample() returns (option: string, ascending: bool, shown: bool)
    ensures option == "Priority" && ascending && !shown
  {
    var dialog := new SortDialog("Date", false);
    ParseButtonLabel("Priority", true);
    assert ButtonLabel("Priority", true) == "Priority Ascending";
    dialog.Press("Priority Ascending");
    option, ascending, shown := dialog.sortOption, dialog.sortAscending, dialog.showDialog;
  }
}
