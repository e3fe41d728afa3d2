/** The search bar (app/src/main/java/com/todolist/ui/components/SearchDialog.kt),
    written against the revision whose dates are strings. */
module Search {
  import opened Text
  import opened Lists
  import opened TaskModel

  /** A task matches when its title or description contains the text in any
      case, its date contains it exactly, or its tags joined by ", " contain
      it in any case. */
  predicate MatchesSearch(t: TextTask, text: string)
  {
    || ContainsIgnoreCase(t.title, text)
    || ContainsIgnoreCase(t.description, text)
    || Contains(t.date, text)
    || ContainsIgnoreCase(Join(t.tags, ", "), text)
  }

  /** The tasks matching `text`, in input order. */
  function SearchResults(tasks: seq<TextTask>, text: string): (r: seq<TextTask>)
    ensures |r| <= |tasks|
    ensures forall i :: 0 <= i < |r| ==> MatchesSearch(r[i], text) && r[i] in tasks
  {
    Filter(tasks, (t: TextTask) => MatchesSearch(t, text))
  }

  /** A task is a result exactly when it is one of the tasks and it matches. */
  lemma SearchResultsMembership(tasks: seq<TextTask>, text: string, t: TextTask)
    ensures t in SearchResults(tasks, text) <==> t in tasks && MatchesSearch(t, text)
  {
    FilterMembership(tasks, (t: TextTask) => MatchesSearch(t, text), t);
  }

  /** The results keep the order of the task list. */
  lemma SearchResultsInOrder(tasks: seq<TextTask>, text: string)
    ensures IsSubsequence(SearchResults(tasks, text), tasks)
  {
    FilterIsSubsequence(tasks, (t: TextTask) => MatchesSearch(t, text));
  }

  /** Writing the text in lower case changes no title, description or tag
      match; only the date comparison can see the difference. */
  lemma SearchIgnoresCaseOutsideDate(t: TextTask, text: string)
    ensures (Contains(t.date, text) <==> Contains(t.date, FoldAll(text))) ==>
      (MatchesSearch(t, text) <==> MatchesSearch(t, FoldAll(text)))
  {
    FoldAllIdempotent(text);
  }

  /** The state `SearchBar` is handed by its caller: the `isSearching` flag
      and the result list. The bar updates both in place, so the caller sees
      every change. */
  class SearchState {
    var isSearching: bool
    var searchResults: seq<TextTask>

    constructor (isSearching: bool, searchResults: seq<TextTask>)
      ensures this.isSearching == isSearching && this.searchResults == searchResults
    {
      this.isSearching, this.searchResults := isSearching, searchResults;
    }
  }

  /** `SearchBar`: its own text field, over the caller's search state. */
  class SearchBar {
    const state: SearchState
    var searchText: string

    constructor (state: SearchState)
      ensures this.state == state && searchText == ""
    {
      this.state, searchText := state, "";
    }

    /** `onValueChange`: the field takes the new text; empty text ends the
        search and clears the caller's results, any other text starts it and
        refills the caller's results with the matching tasks. */
    method OnValueChange(newText: string, tasks: seq<TextTask>)
      modifies this, state
      ensures searchText == newText
      ensures newText == "" ==> !state.isSearching && state.searchResults == []
      ensures newText != "" ==> state.isSearching && state.searchResults == SearchResults(tasks, newText)
    {
      searchText := newText;
      if newText == "" {
        state.isSearching := false;
        state.searchResults := [];
      } else {
        state.isSearching := true;
        state.searchResults := [];
        state.searchResults := state.searchResults + SearchResults(tasks, newText);
      }
    }
  }
}
