/** The tag vocabulary (app/src/main/java/com/todolist/model/TaskTag.kt; the
    same enum is repeated in ui/components/TaskDialog.kt). */
module Tags {
  import opened Wrappers

  datatype TaskTag = Work | Family | Health | Education

  function DisplayName(t: TaskTag): string
  {
    match t
    case Work => "Work"
    case Family => "Family"
    case Health => "Health"
    case Education => "Education"
  }

  /** `TaskTag.values()`, in declaration order. */
  const AllTags: seq<TaskTag> := [Work, Family, Health, Education]

  /** `tags.find { it.displayName == name }`: the first tag whose display name
      is `name`, if any. */
  function Find(tags: seq<TaskTag>, name: string): (r: Option<TaskTag>)
    ensures r.None? <==> forall i :: 0 <= i < |tags| ==> DisplayName(tags[i]) != name
    ensures r.Some? ==> exists i :: 0 <= i < |tags| && tags[i] == r.value && DisplayName(tags[i]) == name
  {
    if |tags| == 0 then None
    else if DisplayName(tags[0]) == name then Some(tags[0])
    else
      var r := Find(tags[1..], name);
      assert r.Some? ==> tags[1..][0] == tags[1];
      r
  }

  /** `fromDisplayName`: the tag with exactly that display name, `Work` for
      any other string. */
  function FromDisplayName(name: string): (r: TaskTag)
    ensures (exists t :: DisplayName(t) == name) ==> DisplayName(r) == name
    ensures (forall t :: DisplayName(t) != name) ==> r == Work
  {
    match Find(AllTags, name)
    case Some(t) => t
    case None => NotFoundIsNoTag(name); Work
  }

  lemma NotFoundIsNoTag(name: string)
    requires Find(AllTags, name).None?
    ensures forall t :: DisplayName(t) != name
  {
    forall t ensures DisplayName(t) != name {
      match t
      case Work => assert AllTags[0] == t;
      case Family => assert AllTags[1] == t;
      case Health => assert AllTags[2] == t;
      case Education => assert AllTags[3] == t;
    }
  }

  /** The four display names are pairwise distinct. */
  lemma DisplayNamesDistinct(a: TaskTag, b: TaskTag)
    ensures DisplayName(a) == DisplayName(b) ==> a == b
  {
  }

  /** Looking up a tag's own display name gives the tag back. */
  lemma FromDisplayNameRoundTrip(t: TaskTag)
    ensures FromDisplayName(DisplayName(t)) == t
  {
    DisplayNamesDistinct(FromDisplayName(DisplayName(t)), t);
  }

  /** The lookup is exact: a name that differs only in case is not found. */
  lemma FromDisplayNameIsCaseSensitive()
    ensures FromDisplayName("family") == Work
    ensures FromDisplayName("Family") == Family
  {
    assert DisplayName(Family) == "Family";
  }
}
