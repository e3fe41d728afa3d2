# To-do list: a Dafny model

This project models the logic of a small Android to-do application written in Kotlin. The application keeps tasks with a title, description, date, tags, priority and "starred"/"done" flags. It shows them through a filter pipeline of search query, starred-only, completed-only and tag, and can sort them by priority or date.

Tasks are stored in three ways:
- a Room table behind a view model;
- a key-value store holding one pipe-delimited record per task;
- an older screen that keeps (title, description, date) triples.

A worker shows a reminder notification some time before a task is due.

The model consists of these parts:

- **Values, as datatypes and functions**:
  - the `Task` record, generic in its date and priority types, because the sources mix two revisions (see below);
  - the `TaskTag` enum and its lookup;
  - the priority label/level mapping;
  - the comma list converter;
  - the pipe-delimited record codec and the older triple codec;
  - the tag filter, the search predicate and the filter pipeline;
  - the reminder delay and the worker's input validation.
- **State, as classes**:
  - the task table (`Dao.TaskDao`), with rows, the auto-increment counter and a log of calls;
  - the view model's snapshot;
  - the key-value store;
  - the search bar, tag dropdown, sort dialog, add and edit dialogs, list row (`TaskItem`) and main screen filter switches;
  - the older screen's dialog.

  Each handler is a method whose `ensures` gives the whole new state.
- **Kotlin library operations, modelled once**: `split`, `joinToString`, `trim`, `contains` (with and without `ignoreCase`), `toInt`, `toString` and `filter` are in modules `Text` and `Lists`. The lemmas about them, such as split after join and filter membership and order, are what the codec and filter proofs rest on.

The Room revision of `Task` (app/src/main/java/com/todolist/model/Task.kt) has a `Long` date, an `Int` priority and an `isDone` flag. The dialogs, the search bar and the key-value store were written against a revision in which date and priority are strings and `isDone` is absent. `TaskModel.RoomTask` is `Task<int, int>` and `TaskModel.TextTask` is `Task<string, string>`. Each component is modelled over the shape its own file uses.

## Model

| member | source | states |
|---|---|---|
| TaskModel.TaskObject.constructor | app/src/main/java/com/todolist/model/Task.kt:9-19 | a task object holds exactly the eight fields of the record it is built from |
| Tags.Find | app/src/main/java/com/todolist/model/TaskTag.kt:14 | `find` returns a tag whose display name is the name, and returns nothing exactly when no tag has it |
| Tags.FromDisplayName | app/src/main/java/com/todolist/model/TaskTag.kt:12-15 | the result has the given display name when some tag has it, and is `Work` otherwise |
| Tags.DisplayNamesDistinct | app/src/main/java/com/todolist/model/TaskTag.kt:5-8 | the four display names are pairwise distinct |
| Tags.FromDisplayNameRoundTrip | app/src/main/java/com/todolist/model/TaskTag.kt:12-15 | looking up a tag's display name gives that tag back |
| Tags.FromDisplayNameIsCaseSensitive | app/src/main/java/com/todolist/model/TaskTag.kt:14 | "family" yields `Work` while "Family" yields `Family` |
| PriorityLabels.PriorityToLevel | app/src/main/java/com/todolist/util/Utils.kt:3-11 | the level is within 0..4; a level of 1..4 is the index of the label; level 0 means the label is none of the four named ones |
| PriorityLabels.LevelToPriority | app/src/main/java/com/todolist/util/Utils.kt:12-20 | levels 1..4 give their label and every other level gives "Low" |
| PriorityLabels.LabelRoundTrip | app/src/main/java/com/todolist/util/Utils.kt:3-20 | label to level to label is the identity on the five labels |
| PriorityLabels.LevelRoundTrip | app/src/main/java/com/todolist/util/Utils.kt:3-20 | level to label to level is the identity on 0..4 |
| PriorityLabels.UnknownLabelBecomesLow | app/src/main/java/com/todolist/util/Utils.kt:9-18 | a label outside the five comes back as "Low" |
| Text.Split | app/src/main/java/com/todolist/data/Converters.kt:9 | splitting gives one more piece than there are separators, and no piece holds the separator |
| Text.SplitJoin | app/src/main/java/com/todolist/data/Converters.kt:9-15 | splitting a join of separator-free pieces gives the pieces back |
| Text.JoinSplit | app/src/main/java/com/todolist/data/Converters.kt:9-15 | joining the pieces of a split gives the string back |
| Text.Trim | app/src/main/java/com/todolist/data/Converters.kt:9 | `trim()` returns a slice of its input with only whitespace before and after it, and neither end of the result is whitespace |
| Text.TrimOfTrimmed | app/src/main/java/com/todolist/data/Converters.kt:9 | trimming a trimmed string changes nothing |
| Text.FoldAllIdempotent | app/src/main/java/com/todolist/ui/components/SearchDialog.kt:29-32 | the case folding behind `ignoreCase` is idempotent: folding folded text changes nothing |
| Text.ParseIntToString | app/src/main/java/com/todolist/data/SharedPreferencesManager.kt:24 | `toInt` reads back every 32-bit integer written by `toString` |
| Text.DigitsValueOfNatToString | app/src/main/java/com/todolist/MainActivity.kt:167 | the decimal digits of a natural number read back as that number |
| Lists.Filter | app/src/main/java/com/todolist/ui/components/TaskTabs.kt:63 | the result is no longer than the input, and every element passes the test and comes from the input |
| Lists.FilterMembership | app/src/main/java/com/todolist/ui/components/TaskTabs.kt:63 | an element is kept exactly when it is in the input and passes |
| Lists.FilterIsSubsequence | app/src/main/java/com/todolist/ui/components/TaskTabs.kt:63 | the result keeps input order |
| Lists.FilterIdempotent | app/src/main/java/com/todolist/ui/components/TaskTabs.kt:63 | filtering twice with one test is filtering once |
| Lists.FilterTwice | app/src/main/java/com/todolist/ui/MainActivity.kt:96-104 | two filters in a row are one filter by the conjunction |
| Lists.MapSet | app/src/main/java/com/todolist/data/SharedPreferencesManager.kt:21-31 | mapping a decoder over a stored set succeeds exactly when every record decodes; on success the records are visited in some order, each exactly once, and the i-th value is the decoding of the i-th record visited; on failure the error is that of some record |
| Converters.FromString | app/src/main/java/com/todolist/data/Converters.kt:9 | `fromString` gives (commas + 1) pieces, so never the empty list; piece i is the i-th comma-separated piece of the input, trimmed, so it is comma-free |
| Converters.FromListPieces | app/src/main/java/com/todolist/data/Converters.kt:15 | the pieces of `fromList(l)` are exactly the elements of a non-empty comma-free `l`, with nothing added |
| Converters.FromStringFromList | app/src/main/java/com/todolist/data/Converters.kt:9-15 | `fromString(fromList(l)) == l` for a non-empty list of trimmed comma-free elements |
| Converters.EmptyListDoesNotRoundTrip | app/src/main/java/com/todolist/data/Converters.kt:9-15 | `fromList([]) == ""` but `fromString("") == [""]` |
| Converters.FromListFromString | app/src/main/java/com/todolist/data/Converters.kt:9-15 | `fromList(fromString(s)) == s` when no piece of `s` has surrounding whitespace |
| PrefsManager.DecodeTask | app/src/main/java/com/todolist/data/SharedPreferencesManager.kt:22-30 | decoding fails exactly when the id does not parse or there are fewer than six parts; the error is `NumberFormat` exactly for a bad id; decoded flags are false and decoded tags are non-empty and comma-free |
| PrefsManager.EncodeIsJoin | app/src/main/java/com/todolist/data/SharedPreferencesManager.kt:12-14 | a record is `id, title, description, date, tags joined by ",", priority` joined by "\|" |
| PrefsManager.TagsRoundTrip | app/src/main/java/com/todolist/data/SharedPreferencesManager.kt:28 | tags joined by "," and split back with empty pieces dropped give the list back, the empty list included |
| PrefsManager.DecodeEncode | app/src/main/java/com/todolist/data/SharedPreferencesManager.kt:10-31 | decoding an encoded storable task gives the task back with its starred and done flags cleared |
| PrefsManager.ExtraPartsIgnored | app/src/main/java/com/todolist/data/SharedPreferencesManager.kt:22-30 | parts after the sixth do not change the decoded task |
| PrefsManager.LoadAfterSave | app/src/main/java/com/todolist/data/SharedPreferencesManager.kt:10-31 | every saved record of storable tasks loads, and the loaded set is the saved tasks with their flags cleared |
| PrefsManager.LoadedAfterSaveDistinct | app/src/main/java/com/todolist/data/SharedPreferencesManager.kt:10-31 | a load after a save of storable tasks lists no task twice, because each record read is the encoding of the task it yields and the stored records are distinct |
| PrefsManager.FlagsCollapse | app/src/main/java/com/todolist/data/SharedPreferencesManager.kt:13-15 | tasks that differ only in their flags are stored as one record |
| PrefsManager.SharedPreferencesManager.constructor | app/src/main/java/com/todolist/data/SharedPreferencesManager.kt:20 | a fresh store holds no records, as a missing key reads |
| PrefsManager.SharedPreferencesManager.SaveTasks | app/src/main/java/com/todolist/data/SharedPreferencesManager.kt:10-17 | the stored set becomes exactly the records of the given tasks; nothing earlier survives |
| PrefsManager.SharedPreferencesManager.LoadTasks | app/src/main/java/com/todolist/data/SharedPreferencesManager.kt:19-31 | loading succeeds exactly when every record decodes, and then the i-th task is the decoding of the i-th record in a visiting order that lists each stored record once; otherwise it fails with a failing record's error |
| Dao.StoredAs | app/src/main/java/com/todolist/model/Task.kt:11 | a task with id 0 is stored under the next generated key; any other id is kept |
| Dao.Upsert | app/src/main/java/com/todolist/data/TaskDao.kt:14-15 | insert-or-replace keeps keys unique and ordered; afterwards the rows are the task plus the old rows with other keys; the row count is unchanged exactly when the key was present |
| Dao.UpdateRow | app/src/main/java/com/todolist/data/TaskDao.kt:18-19 | update keeps the length and every key, replaces the row with the task's key by the task, and leaves every other row as it was |
| Dao.DeleteRow | app/src/main/java/com/todolist/data/TaskDao.kt:22-23 | after delete no row has the key, and the remaining rows are exactly the old rows with other keys |
| Dao.DeleteIsSubsequence | app/src/main/java/com/todolist/data/TaskDao.kt:22-23 | delete keeps the other rows in order |
| Dao.DeleteKeepsOrder | app/src/main/java/com/todolist/data/TaskDao.kt:22-23 | delete keeps keys unique and ordered |
| Dao.DeleteRemovesOne | app/src/main/java/com/todolist/data/TaskDao.kt:22-23 | deleting a present key removes exactly one row, and an absent key removes none |
| Dao.DeleteAbsentIsNoop | app/src/main/java/com/todolist/data/TaskDao.kt:22-23 | deleting an absent key changes nothing |
| Dao.UpdateAbsentIsNoop | app/src/main/java/com/todolist/data/TaskDao.kt:18-19 | updating an absent key changes nothing |
| Dao.UpdateIsReplace | app/src/main/java/com/todolist/data/TaskDao.kt:14-19 | on a present key, update and insert-or-replace give the same table |
| Dao.FreshKeyAppends | app/src/main/java/com/todolist/data/TaskDao.kt:14-15 | a task with a key above every stored key is appended at the end |
| Dao.SortedPairwise | app/src/main/java/com/todolist/data/TaskDao.kt:26-39 | adjacent order of a sorted result extends to every pair |
| Dao.SortByKey | app/src/main/java/com/todolist/data/TaskDao.kt:26-39 | the result is sorted by the column and is a permutation of the input |
| Dao.TaskDao.constructor | app/src/main/java/com/todolist/data/TaskDao.kt:7 | a new table is empty and valid, and its first generated key is 1 |
| Dao.TaskDao.GetAllTasks | app/src/main/java/com/todolist/data/TaskDao.kt:10-11 | `getAllTasks` returns every stored row and nothing else, in key order, the order SQLite's rowid scan gives the unordered query |
| Dao.TaskDao.Insert | app/src/main/java/com/todolist/data/TaskDao.kt:14-15 | the rows become the insert-or-replace of the task under its stored key; the counter passes a generated key; one insert call is logged |
| Dao.TaskDao.Update | app/src/main/java/com/todolist/data/TaskDao.kt:18-19 | the rows become the update of the task's key; one update call is logged |
| Dao.TaskDao.Delete | app/src/main/java/com/todolist/data/TaskDao.kt:22-23 | the rows become the delete of the task's key; one delete call is logged |
| Dao.TaskDao.GetTasksSortedByPriorityAsc | app/src/main/java/com/todolist/data/TaskDao.kt:26-27 | the result is a permutation of the rows with non-decreasing priority |
| Dao.TaskDao.GetTasksSortedByPriorityDesc | app/src/main/java/com/todolist/data/TaskDao.kt:30-31 | the result is a permutation of the rows with non-increasing priority |
| Dao.TaskDao.GetTasksSortedByDateAsc | app/src/main/java/com/todolist/data/TaskDao.kt:34-35 | the result is a permutation of the rows with non-decreasing date |
| Dao.TaskDao.GetTasksSortedByDateDesc | app/src/main/java/com/todolist/data/TaskDao.kt:38-39 | the result is a permutation of the rows with non-increasing date |
| Dao.SortExamplePriorityAsc | app/src/androidTest/java/com/todolist/ui/components/SortDialogTest.kt:96-123 | with priorities 1, 3, 2, priority ascending is [t1, t3, t2] |
| Dao.SortExamplePriorityDesc | app/src/androidTest/java/com/todolist/ui/components/SortDialogTest.kt:127-154 | with priorities 1, 3, 2, priority descending is [t2, t3, t1] |
| Dao.SortExampleDateAsc | app/src/androidTest/java/com/todolist/ui/components/SortDialogTest.kt:158-185 | with dates now, now+1000 and now-1000, date ascending is [t3, t1, t2] |
| Dao.SortExampleDateDesc | app/src/androidTest/java/com/todolist/ui/components/SortDialogTest.kt:189-216 | with the same dates, date descending is [t2, t1, t3] |
| ViewModel.TaskViewModel.constructor | app/src/main/java/com/todolist/viewmodel/TaskViewModel.kt:21-25 | construction loads the snapshot from the repository |
| ViewModel.TaskViewModel.LoadTasks | app/src/main/java/com/todolist/viewmodel/TaskViewModel.kt:27-31 | the snapshot becomes the repository's full list |
| ViewModel.TaskViewModel.InsertTask | app/src/main/java/com/todolist/viewmodel/TaskViewModel.kt:34-38 | exactly one insert with the task reaches the repository, the key counter moves past the stored key as the insert says, and then the snapshot equals the repository's rows |
| ViewModel.TaskViewModel.UpdateTask | app/src/main/java/com/todolist/viewmodel/TaskViewModel.kt:41-46 | exactly one update with the task, then the snapshot equals the rows with that row replaced |
| ViewModel.TaskViewModel.DeleteTask | app/src/main/java/com/todolist/viewmodel/TaskViewModel.kt:48-53 | exactly one delete with the task, then the snapshot equals the rows without that key, so no shown task has it |
| ViewModel.InsertedTaskIsShown | app/src/main/java/com/todolist/viewmodel/TaskViewModel.kt:34-38 | after an insert the stored task is in the list: a new task with id 0 is appended under a fresh key, and a task with a present key replaces its row |
| TaskTabs.FilterTasksByTag | app/src/main/java/com/todolist/ui/components/TaskTabs.kt:62-64 | "All" returns the tasks unchanged; any other tag filters by exact tag membership |
| TaskTabs.FilterByTagMembership | app/src/main/java/com/todolist/ui/components/TaskTabs.kt:63 | a task is kept exactly when it is in the list and the tag is "All" or one of its tags |
| TaskTabs.FilterByTagIsSubsequence | app/src/main/java/com/todolist/ui/components/TaskTabs.kt:63 | the result keeps input order |
| TaskTabs.FilterByTagIdempotent | app/src/main/java/com/todolist/ui/components/TaskTabs.kt:63 | filtering twice by a tag is filtering once |
| TaskTabs.FilterByTagExample | app/src/androidTest/java/com/todolist/ui/components/TaskTagTest.kt:106-126 | with tags Work, Family and Health, "Work" keeps only the first task and "Family" only the second |
| TaskTabs.DropdownOptions | app/src/main/java/com/todolist/ui/components/TaskTabs.kt:34 | the entries are "All" followed by the four display names in enum order |
| TaskTabs.DropdownEntriesAreTags | app/src/main/java/com/todolist/ui/components/TaskTabs.kt:34 | every entry after "All" names the tag at that position, and the lookup finds it |
| TaskTabs.TaskTagDropdown.constructor | app/src/main/java/com/todolist/ui/components/TaskTabs.kt:33 | the menu starts closed |
| TaskTabs.TaskTagDropdown.Toggle | app/src/main/java/com/todolist/ui/components/TaskTabs.kt:38 | the button flips the menu |
| TaskTabs.TaskTagDropdown.Dismiss | app/src/main/java/com/todolist/ui/components/TaskTabs.kt:45 | dismissing closes the menu and selects nothing |
| TaskTabs.TaskTagDropdown.Choose | app/src/main/java/com/todolist/ui/components/TaskTabs.kt:51-54 | choosing an entry reports exactly that string and closes the menu |
| TaskTabs.DropdownExample | app/src/androidTest/java/com/todolist/ui/components/taskTagDropdownTest.kt:39-44 | choosing the second entry selects "Work" and the fourth "Health", and the menu ends closed |
| Search.SearchResults | app/src/main/java/com/todolist/ui/components/SearchDialog.kt:28-33 | every result matches the text and is one of the tasks |
| Search.SearchResultsMembership | app/src/main/java/com/todolist/ui/components/SearchDialog.kt:28-33 | a task is a result exactly when it is one of the tasks and its title, description or tags contain the text in any case, or its date contains it exactly |
| Search.SearchResultsInOrder | app/src/main/java/com/todolist/ui/components/SearchDialog.kt:28 | the results keep the order of the tasks |
| Search.SearchIgnoresCaseOutsideDate | app/src/main/java/com/todolist/ui/components/SearchDialog.kt:29-32 | lower-casing the text changes a match only through the case-sensitive date comparison |
| Search.SearchState.constructor | app/src/main/java/com/todolist/ui/components/SearchDialog.kt:15 | the caller's search flag and result list, which the bar is handed and updates in place |
| Search.SearchBar.constructor | app/src/main/java/com/todolist/ui/components/SearchDialog.kt:15-16 | the bar holds the caller's search state and its own field starts empty |
| Search.SearchBar.OnValueChange | app/src/main/java/com/todolist/ui/components/SearchDialog.kt:20-35 | the field takes the new text; empty text sets the caller's flag to not searching and clears the caller's results; other text sets the flag and refills the caller's results with exactly the matching tasks, so nothing from an earlier query survives |
| Screen.FilterTasks | app/src/main/java/com/todolist/ui/MainActivity.kt:97-102 | every kept task contains the query in title or description, and is starred or done when those switches are on |
| Screen.VisibleMembership | app/src/main/java/com/todolist/ui/MainActivity.kt:96-104 | a task is listed exactly when it is in the snapshot, passes the query and switches, and has the selected tag or the tag is "All" |
| Screen.VisibleInOrder | app/src/main/java/com/todolist/ui/MainActivity.kt:96-104 | the listed tasks keep snapshot order |
| Screen.InitialFiltersShowAll | app/src/main/java/com/todolist/ui/MainActivity.kt:89-104 | with the initial filters every task is listed |
| Screen.SwitchesCompose | app/src/androidTest/java/com/todolist/ui/components/TaskSearchTest.kt:96-118 | both switches on is one switch applied after the other, in either order |
| Screen.SearchTestInitial | app/src/androidTest/java/com/todolist/ui/components/TaskSearchTest.kt:78-85 | the query "Initial" keeps only the first test task |
| Screen.SearchTestAnother | app/src/androidTest/java/com/todolist/ui/components/TaskSearchTest.kt:87-94 | the query "Another" keeps only the second test task |
| Screen.SearchTestSwitches | app/src/androidTest/java/com/todolist/ui/components/TaskSearchTest.kt:96-118 | starred-only, completed-only and both keep only the second test task |
| Screen.NoTasksFoundMeansNoMatch | app/src/main/java/com/todolist/ui/MainActivity.kt:186-187 | when "No tasks found" shows, no task passes the filters and the tag |
| Screen.ScreenState.constructor | app/src/main/java/com/todolist/ui/MainActivity.kt:89-94 | the filters start at query "", both switches off and tag "All" |
| Screen.ScreenState.ToggleStarred | app/src/main/java/com/todolist/ui/MainActivity.kt:136 | the starred-only switch flips and the other filters stay |
| Screen.ScreenState.ToggleCompleted | app/src/main/java/com/todolist/ui/MainActivity.kt:150 | the completed-only switch flips and the other filters stay |
| Screen.ScreenState.SetQuery | app/src/main/java/com/todolist/ui/MainActivity.kt:165 | a query typed in the search dialog becomes the filter query and the other filters stay |
| Screen.ScreenState.SelectTag | app/src/main/java/com/todolist/ui/MainActivity.kt:130 | the chosen tag becomes the filter tag and the other filters stay |
| Screen.ToggleTwiceRestores | app/src/androidTest/java/com/todolist/ui/components/ToDoListScreenTabTest.kt:100-147 | switching starred and then completed on and off again lists every task |
| Screen.TaskItem.constructor | app/src/main/java/com/todolist/ui/MainActivity.kt:246-248 | the row's flags start from the task's flags, with no dialog open |
| Screen.TaskItem.ToggleStar | app/src/main/java/com/todolist/ui/MainActivity.kt:296-305 | on a done task nothing changes and no update is issued; otherwise the starred flag flips in the row and in the task object, and exactly one update with the task follows; the key counter of the table is kept |
| Screen.TaskItem.Check | app/src/main/java/com/todolist/ui/MainActivity.kt:315-320 | the done flag takes the new value in the row and in the task object, whatever the starred state, and one update follows; the key counter of the table is kept |
| Screen.TaskItem.Edit | app/src/main/java/com/todolist/ui/MainActivity.kt:370 | the edit dialog opens only for a task not done |
| Screen.TaskItem.DeletePressed | app/src/main/java/com/todolist/ui/MainActivity.kt:380-388 | a done task is deleted at once; otherwise only the confirmation opens and nothing is deleted; the key counter of the table is kept |
| Screen.TaskItem.ConfirmDelete | app/src/main/java/com/todolist/ui/MainActivity.kt:255-261 | "Yes" deletes the task once and closes the confirmation; the key counter of the table is kept |
| Screen.TaskItem.CancelDelete | app/src/main/java/com/todolist/ui/MainActivity.kt:265-267 | "No" closes the confirmation and deletes nothing |
| AddDialog.NewTask | app/src/main/java/com/todolist/ui/components/TaskDialog.kt:149-156 | the new task has id 0, the dialog's text fields, priority and starred flag, the selected tag's display name as its only tag, and is not done |
| AddDialog.AddedTaskSurvivesReload | app/src/main/java/com/todolist/ui/components/TaskDialog.kt:157-159 | the saved set holds the new task's record, and it reads back as the task with its flags cleared |
| AddDialog.AddTaskDialog.constructor | app/src/main/java/com/todolist/ui/components/TaskDialog.kt:61-75 | the dialog opens with the given field values and the tag popup closed |
| AddDialog.AddTaskDialog.SetTitle | app/src/main/java/com/todolist/ui/components/TaskDialog.kt:103 | typing replaces the draft title and nothing else |
| AddDialog.AddTaskDialog.SetDescription | app/src/main/java/com/todolist/ui/components/TaskDialog.kt:108 | typing replaces the draft description and nothing else |
| AddDialog.AddTaskDialog.SetDate | app/src/main/java/com/todolist/ui/components/TaskDialog.kt:111 | the picker's text becomes the draft date and nothing else changes |
| AddDialog.AddTaskDialog.OpenTagMenu | app/src/main/java/com/todolist/ui/components/TaskDialog.kt:115 | "Select Tag" opens the tag popup and nothing else changes |
| AddDialog.AddTaskDialog.ToggleStar | app/src/main/java/com/todolist/ui/components/TaskDialog.kt:88 | the star flips the draft's flag and nothing else |
| AddDialog.AddTaskDialog.SelectTag | app/src/main/java/com/todolist/ui/components/TaskDialog.kt:125-127 | choosing a tag selects it and closes the popup |
| AddDialog.AddTaskDialog.SlidePriority | app/src/main/java/com/todolist/ui/components/TaskDialog.kt:136-138 | the slider sets the label of its level, and the slider shows that level again |
| AddDialog.AddTaskDialog.Dismiss | app/src/main/java/com/todolist/ui/components/TaskDialog.kt:78 | dismissing closes the dialog and leaves the task list alone |
| AddDialog.AddTaskDialog.Confirm | app/src/main/java/com/todolist/ui/components/TaskDialog.kt:147-165 | with an empty title, description or date nothing changes and the dialog stays open; otherwise exactly one new task is appended, the list holding it is saved, the three text fields reset, the dialog closes, and tag, priority and starred flag stay |
| EditDialogs.Edited | app/src/main/java/com/todolist/ui/components/EditDialog.kt:114-119 | a save keeps id and the done flag and sets the six edited fields to the dialog values, with the tag's display name as the only tag |
| EditDialogs.EditedIdempotent | app/src/main/java/com/todolist/ui/components/EditDialog.kt:114-119 | saving twice with the same dialog state is saving once |
| EditDialogs.EditDialog.constructor | app/src/main/java/com/todolist/ui/components/EditDialog.kt:27-41 | the dialog opens on the given task with the given values and no update yet |
| EditDialogs.EditDialog.SetTitle | app/src/main/java/com/todolist/ui/components/EditDialog.kt:70 | typing replaces the dialog's title; the task object is not touched |
| EditDialogs.EditDialog.SetDescription | app/src/main/java/com/todolist/ui/components/EditDialog.kt:75 | typing replaces the dialog's description; the task object is not touched |
| EditDialogs.EditDialog.SetDate | app/src/main/java/com/todolist/ui/components/EditDialog.kt:78 | the picker's text becomes the dialog's date; the task object is not touched |
| EditDialogs.EditDialog.OpenTagMenu | app/src/main/java/com/todolist/ui/components/EditDialog.kt:81 | "Select Tag" opens the tag popup and nothing else changes |
| EditDialogs.EditDialog.ToggleStar | app/src/main/java/com/todolist/ui/components/EditDialog.kt:53-55 | the star flips the dialog's flag, not the task's |
| EditDialogs.EditDialog.SelectTag | app/src/main/java/com/todolist/ui/components/EditDialog.kt:90-92 | choosing a tag selects it and closes the popup |
| EditDialogs.EditDialog.SlidePriority | app/src/main/java/com/todolist/ui/components/EditDialog.kt:101-103 | the slider sets the label of its level |
| EditDialogs.EditDialog.Dismiss | app/src/main/java/com/todolist/ui/components/EditDialog.kt:44 | dismissing closes the dialog without touching the task |
| EditDialogs.EditDialog.Save | app/src/main/java/com/todolist/ui/components/EditDialog.kt:112-122 | the task object's six fields are overwritten in place and its other fields kept; the mutated task is handed to `updateTask`; then the dialog closes |
| EditDialogs.EditDialog.SaveRejectingEmpty | app/src/androidTest/java/com/todolist/ui/components/EditDialogTest.kt:122-252 | the revision the tests target: an empty title, description or date changes nothing; otherwise it saves as `Save` does |
| EditDialogs.SaveThroughRow | app/src/main/java/com/todolist/ui/components/EditDialog.kt:114-119 | a dialog opened on a row of a list of task objects edits that row in place, so the list sees the saved values, and rows holding other objects keep theirs |
| SortChoice.ParseButton | app/src/main/java/com/todolist/ui/components/SortDialog.kt:34-53 | a caption that names a button names one of the two options, together with the direction whose caption it is |
| SortChoice.ParseButtonLabel | app/src/main/java/com/todolist/ui/components/SortDialog.kt:23-53 | each of the four button captions names its own option and direction |
| SortChoice.SortDialog.constructor | app/src/main/java/com/todolist/ui/components/SortDialog.kt:18-22 | the dialog is shown with the current option and direction |
| SortChoice.SortDialog.Choose | app/src/main/java/com/todolist/ui/components/SortDialog.kt:35-50 | an Ascending or Descending button sets the option and the direction and closes the dialog |
| SortChoice.SortDialog.Press | app/src/main/java/com/todolist/ui/components/SortDialog.kt:34-53 | pressing a captioned button sets the option and direction it names and closes; any other caption changes nothing |
| SortChoice.SortDialog.Close | app/src/main/java/com/todolist/ui/components/SortDialog.kt:60 | Close and dismiss close the dialog and keep the option and direction |
| SortChoice.PriorityAscendingExample | app/src/androidTest/java/com/todolist/TaskUiTests.kt:113-117 | "Priority Ascending" gives option "Priority", ascending, with the dialog closed |
| LegacyActivity.DecodeTriple | app/src/main/java/com/todolist/MainActivity.kt:210-212 | decoding fails exactly when the record has fewer than two "\|"; decoded components hold no "\|" |
| LegacyActivity.DecodeEncodeTriple | app/src/main/java/com/todolist/MainActivity.kt:201-212 | decode after encode gives the triple back when no component holds "\|" |
| LegacyActivity.PipeInComponentIsLost | app/src/main/java/com/todolist/MainActivity.kt:201-212 | a "\|" in the last component cuts it short: ("a", "b", "c\|d") reads back as ("a", "b", "c") |
| LegacyActivity.LoadAfterSaveTriples | app/src/main/java/com/todolist/MainActivity.kt:197-212 | every saved record loads, and the loaded set is the set of saved triples, so duplicates collapse |
| LegacyActivity.LoadedAfterSaveTriplesDistinct | app/src/main/java/com/todolist/MainActivity.kt:197-212 | a load after a save of pipe-free triples lists each saved triple exactly once: no triple twice, and every saved triple present |
| LegacyActivity.PickedDateReadsBack | app/src/main/java/com/todolist/MainActivity.kt:167 | the picked date splits on "-" into year, month + 1 and day, so the month is 1-based |
| LegacyActivity.PickedDateExample | app/src/main/java/com/todolist/MainActivity.kt:167 | January 5th, 2024 renders as "2024-1-5", without zero padding |
| LegacyActivity.ToDoList.constructor | app/src/main/java/com/todolist/MainActivity.kt:65-69 | the screen starts with no tasks, empty fields and the dialog closed |
| LegacyActivity.ToDoList.Startup | app/src/main/java/com/todolist/MainActivity.kt:74-77 | start-up succeeds exactly when every record decodes, and then the list is replaced by one triple per stored record, the i-th decoded from the i-th record in a visiting order that lists each record once; a bad record leaves the list cleared |
| LegacyActivity.ToDoList.OpenDialog | app/src/main/java/com/todolist/MainActivity.kt:84 | "Add Task" opens the dialog |
| LegacyActivity.ToDoList.SetTitle | app/src/main/java/com/todolist/MainActivity.kt:119 | typing replaces the title and nothing else |
| LegacyActivity.ToDoList.SetDescription | app/src/main/java/com/todolist/MainActivity.kt:124 | typing replaces the description and nothing else |
| LegacyActivity.ToDoList.PickDate | app/src/main/java/com/todolist/MainActivity.kt:128 | the date field takes the picker's formatted date |
| LegacyActivity.ToDoList.Confirm | app/src/main/java/com/todolist/MainActivity.kt:137-150 | with any field empty nothing changes and the dialog stays open; otherwise one triple is appended, the list is saved, the fields reset and the dialog closes |
| LegacyActivity.ToDoList.Dismiss | app/src/main/java/com/todolist/MainActivity.kt:113 | dismissing closes the dialog |
| Scheduling.Delay | app/src/main/java/com/todolist/worker/scheduleTaskReminder.kt:19-25 | the delay is a `Long`, and in testing mode it is always 10 000 ms |
| Scheduling.ScheduleTaskReminder | app/src/main/java/com/todolist/worker/scheduleTaskReminder.kt:28-40 | a request is made exactly when the delay is positive, and it carries the given title and id with that delay |
| Scheduling.ProductionSchedulesIffDueAfterAnHour | app/src/main/java/com/todolist/worker/scheduleTaskReminder.kt:24-28 | in production mode without overflow the delay is due - now - 3 600 000, and a reminder is scheduled exactly when the due time is more than an hour away |
| Scheduling.ShippedModeAlwaysSchedules | app/src/main/java/com/todolist/worker/scheduleTaskReminder.kt:16-28 | with the hard-coded testing switch every call schedules a reminder ten seconds ahead |
| Scheduling.WrapAroundSchedulesPastDueTime | app/src/main/java/com/todolist/worker/scheduleTaskReminder.kt:24 | the `Long` subtraction can wrap, so a due time at the bottom of the range schedules although it is long past |
| ReminderWorker.DoWork | app/src/main/java/com/todolist/worker/TaskReminderWorker.kt:13-26 | a missing title fails with no notification; a missing or -1 id fails with no notification; otherwise exactly one notification with that title and id is shown and the work succeeds |
| ReminderWorker.ExplicitMinusOneIsMissing | app/src/main/java/com/todolist/worker/TaskReminderWorker.kt:18-19 | an explicit id of -1 behaves exactly like a missing id |
| ReminderWorker.ScheduledReminderNotifies | app/src/main/java/com/todolist/worker/scheduleTaskReminder.kt:31-39 | a scheduled request, delivered as the worker's input, shows one notification with its title and id unless the id is -1 |

## Left out

- Compose rendering, colours, icons and layout. Only the state each handler changes is modelled.
- Room, SharedPreferences and WorkManager I/O are state or return values:
  - the table is a sequence of rows;
  - the store is a string set;
  - `enqueue` is the returned `ReminderRequest`;
  - the notification is the returned `Notification`.
- Coroutine launches, `Dispatchers.IO` and `postValue` are read as plain sequential calls. The unsynchronised `tasks.add` on an IO thread in app/src/main/java/com/todolist/MainActivity.kt:142-145 is a concurrency matter outside the model.
- `System.currentTimeMillis()` is the parameter `now`. The date picker is modelled only through its output format, and its year, month and day are parameters. `com.todolist.util.showDatePicker`, which the add and edit dialogs call, is not part of this model, so their `SetDate` takes the picked text as a parameter.
- Unicode: `ignoreCase` is modelled by ASCII case folding, and `trim` by ASCII whitespace.
- Text.ParseInt: `toInt` is modelled on ASCII digits only. The JVM also accepts other Unicode decimal digits (those `Character.digit` maps to 0-9), which the model rejects as malformed.
- Slider floats are modelled as integer levels, taken as the integer part that `toInt()` yields.
- `Int` widths: task ids, priorities and dates are unbounded integers. Only the 32-bit range of `toInt` in the record codec and the 64-bit wrap of the reminder delay are written out.
- The repository the view model calls is modelled as the task table. app/src/main/java/com/todolist/data/TaskRepository.kt only has `saveTasks`/`loadTasks` and none of the `getAllTasks`/`insertTask`/`updateTask`/`deleteTask` the view model uses.
- Dao.TaskDao.GetAllTasks: `SELECT * FROM tasks` has no ORDER BY, so SQL promises no row order. The model returns the rows in key order, which is what SQLite's scan of the table by rowid gives. `ViewModel.InsertedTaskIsShown` (a new row appears last) and the screen's listing order rest on this.
- SQL leaves the order of rows with equal sort key open. The sorted queries are computed by a stable sort, and their contracts state only what SQL promises: sortedness and permutation.
- `filterTasks` is called at app/src/main/java/com/todolist/ui/MainActivity.kt:97-102, but its body is not part of this model. `Screen.FilterTasks` is defined from the assertions of the search test. Case-insensitive matching of the query is a choice that test does not decide.
- `sortTasksByPriority`/`sortTasksByDate`, called at app/src/main/java/com/todolist/ui/MainActivity.kt:221-222, do not exist in the view model. The sort dialog is modelled without that callback.
- `EditDialogs.EditDialog.Save`: `updateTask` on the repository is recorded as a log of task values; what the repository then does is not modelled.
- The add and edit dialogs build their tasks with `isDone` false. The string revision they were written for has no `isDone` in these constructor calls.
- `task.tags.first()` on an empty tag list is not modelled. The dialogs always build one-tag lists.
- app/src/main/java/com/todolist/ui/components/TaskDetailsDialog.kt, app/src/main/java/com/todolist/util/NotificationUtils.kt, app/src/main/java/com/todolist/data/DatabaseProvider.kt and app/src/main/java/com/todolist/data/AppDatabase.kt hold display, Android plumbing or annotations only. `formatDate` and `intToPriority` are not part of this model.
