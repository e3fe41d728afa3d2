/** The tag filter and the tag dropdown
    (app/src/main/java/com/todolist/ui/components/TaskTabs.kt). */
module TaskTabs {
  import opened Lists
  import opened TaskModel
  import opened Tags

  /** The tag that switches the filter off. */
  const AllTag: string := "All"

  /** The test `filterTasksByTag` applies to each task. */
  function HasTag<D, P>(tag: string): Task<D, P> -> bool
  {
    (t: Task<D, P>) => tag in t.tags
  }

  /** `filterTasksByTag`: "All" keeps every task; any other tag keeps the
      tasks whose tag list holds exactly that string, in input order. */
  function FilterTasksByTag<D, P>(tasks: seq<Task<D, P>>, tag: string): (r: seq<Task<D, P>>)
    ensures tag == AllTag ==> r == tasks
    ensures tag != AllTag ==> r == Filter(tasks, HasTag(tag))
  {
    if tag == AllTag then tasks else Filter(tasks, HasTag(tag))
  }

  /** A task is kept exactly when the filter is off or the task carries the tag. */
  lemma FilterByTagMembership<D, P>(tasks: seq<Task<D, P>>, tag: string, t: Task<D, P>)
    ensures t in FilterTasksByTag(tasks, tag) <==> t in tasks && (tag == AllTag || tag in t.tags)
  {
    if tag != AllTag {
      FilterMembership(tasks, (t: Task<D, P>) => tag in t.tags, t);
    }
  }

  /** The result keeps the input order: it is a subsequence of the input. */
  lemma FilterByTagIsSubsequence<D, P>(tasks: seq<Task<D, P>>, tag: string)
    ensures IsSubsequence(FilterTasksByTag(tasks, tag), tasks)
  {
    if tag == AllTag {
      FilterAllPass(tasks, (t: Task<D, P>) => true);
      FilterIsSubsequence(tasks, (t: Task<D, P>) => true);
    } else {
      FilterIsSubsequence(tasks, HasTag(tag));
    }
  }

  /** Filtering twice by the same tag is filtering once. */
  lemma FilterByTagIdempotent<D, P>(tasks: seq<Task<D, P>>, tag: string)
    ensures FilterTasksByTag(FilterTasksByTag(tasks, tag), tag) == FilterTasksByTag(tasks, tag)
  {
    if tag != AllTag {
      FilterIdempotent(tasks, HasTag(tag));
    }
  }

  /** Three tasks tagged Work, Family and Health: "Work" keeps only the first
      and "Family" only the second. */
  lemma FilterByTagExample<D, P>(t1: Task<D, P>, t2: Task<D, P>, t3: Task<D, P>)
    requires t1.tags == ["Work"] && t2.tags == ["Family"] && t3.tags == ["Health"]
    ensures FilterTasksByTag([t1, t2, t3], "Work") == [t1]
    ensures FilterTasksByTag([t1, t2, t3], "Family") == [t2]
  {
    var s := [t1, t2, t3];
    assert s[1..] == [t2, t3] && s[1..][1..] == [t3] && s[1..][1..][1..] == [];
    var work: Task<D, P> -> bool := HasTag("Work");
    assert Filter([t3], work) == [] && Filter([t2, t3], work) == [];
    assert FilterTasksByTag(s, "Work") == Filter(s, work) == [t1];
    var family: Task<D, P> -> bool := HasTag("Family");
    assert Filter([t3], family) == [] && Filter([t2, t3], family) == [t2];
    assert FilterTasksByTag(s, "Family") == Filter(s, family) == [t2];
  }

  /** The dropdown's entries: "All", then the display names in enum order. */
  function DropdownOptions(): (r: seq<string>)
    ensures |r| == 1 + |AllTags| && r[0] == AllTag
    ensures forall i :: 0 <= i < |AllTags| ==> r[i + 1] == DisplayName(AllTags[i])
  {
    [AllTag] + seq(|AllTags|, i requires 0 <= i < |AllTags| => DisplayName(AllTags[i]))
  }

  /** Every entry but "All" is some tag's display name, so it names a tag the
      lookup finds. */
  lemma DropdownEntriesAreTags(i: int)
    requires 1 <= i < |DropdownOptions()|
    ensures FromDisplayName(DropdownOptions()[i]) == AllTags[i - 1]
    ensures DisplayName(FromDisplayName(DropdownOptions()[i])) == DropdownOptions()[i]
  {
    FromDisplayNameRoundTrip(AllTags[i - 1]);
  }

  /** `TaskTagDropdown`: the menu's `expanded` flag and the selection it
      reports through its callback. */
  class TaskTagDropdown {
    var expanded: bool
    var selectedTag: string

    constructor (selected: string)
      ensures !expanded && selectedTag == selected
    {
      expanded, selectedTag := false, selected;
    }

    /** The button flips the menu open or closed. */
    method Toggle()
      modifies this
      ensures expanded == !old(expanded) && selectedTag == old(selectedTag)
    {
      expanded := !expanded;
    }

    /** Dismissing closes the menu and selects nothing. */
    method Dismiss()
      modifies this
      ensures !expanded && selectedTag == old(selectedTag)
    {
      expanded := false;
    }

    /** Choosing an entry reports exactly that string and closes the menu. */
    method Choose(i: nat)
      requires i < |DropdownOptions()|
      modifies this
      ensures selectedTag == DropdownOptions()[i] && !expanded
    {
      selectedTag := DropdownOptions()[i];
      expanded := false;
    }
  }

  /** Opening the menu and choosing the second entry selects "Work"; the
      same with the fourth entry selects "Health". */
  method DropdownExample() returns (first: string, second: string, open: bool)
    ensures first == "Work" && second == "Health" && !open
  {
    var d := new TaskTagDropdown(AllTag);
    d.Toggle();
    d.Choose(1);
    first := d.selectedTag;
    d.Toggle();
    d.Choose(3);
    second, open := d.selectedTag, d.expanded;
  }
}
