/** The key-value store of tasks
    (app/src/main/java/com/todolist/data/SharedPreferencesManager.kt): every
    task is written as one pipe-delimited record, and the records are kept as
    one string set under the key "tasks". This file was written against the
    revision whose date and priority are strings. */
module PrefsManager {
  import opened Wrappers
  import opened Text
  import opened Lists
  import opened TaskModel

  /** The exceptions `loadTasks` can throw on a malformed record. */
  datatype DecodeError = NumberFormat | IndexOutOfBounds

  /** One task as a record: `id|title|description|date|tags|priority`, the
      tags joined by ",". The starred and done flags are not written. */
  function EncodeTask(t: TextTask): string
  {
    IntToString(t.id) + "|" + t.title + "|" + t.description + "|" + t.date + "|"
      + Join(t.tags, ",") + "|" + t.priority
  }

  /** Parses one record: the id is parsed first (a non-number throws), then
      parts 1..5 are read (too few parts throw), parts after the sixth are
      ignored, and empty tags are dropped. The flags take their defaults. */
  function DecodeTask(record: string): (r: Result<TextTask, DecodeError>)
    ensures r.Failure? <==>
      ParseInt(Split(record, '|')[0]).None? || Count(record, '|') < 5
    ensures r.Failure? ==>
      (r.error == NumberFormat <==> ParseInt(Split(record, '|')[0]).None?)
    ensures r.Success? ==> !r.value.isStarred && !r.value.isDone
    ensures r.Success? ==>
      forall i :: 0 <= i < |r.value.tags| ==> r.value.tags[i] != "" && ',' !in r.value.tags[i]
  {
    var parts := Split(record, '|');
    match ParseInt(parts[0])
    case None => Failure(NumberFormat)
    case Some(id) =>
      if |parts| < 6 then Failure(IndexOutOfBounds)
      else
        var tags := Filter(Split(parts[4], ','), tag => tag != "");
        Success(Task(id, parts[1], parts[2], parts[3], tags, parts[5], false, false))
  }

  /** The fields of a task can be stored and read back unchanged: a 32-bit id,
      no "|" in any text field, and tags that are non-empty and free of "|"
      and ",". */
  predicate Storable(t: TextTask)
  {
    && InInt32(t.id)
    && '|' !in t.title && '|' !in t.description && '|' !in t.date && '|' !in t.priority
    && forall i :: 0 <= i < |t.tags| ==> t.tags[i] != "" && '|' !in t.tags[i] && ',' !in t.tags[i]
  }

  /** What survives a save and a load: everything but the two flags, which
      come back false. */
  function Stripped(t: TextTask): TextTask
  {
    t.(isStarred := false, isDone := false)
  }

  /** The record is the six fields joined by "|". */
  lemma EncodeIsJoin(t: TextTask)
    ensures EncodeTask(t) ==
      Join([IntToString(t.id), t.title, t.description, t.date, Join(t.tags, ","), t.priority], "|")
  {
    var tags := Join(t.tags, ",");
    JoinCons(t.date, [tags, t.priority], "|");
    JoinCons(t.description, [t.date, tags, t.priority], "|");
    JoinCons(t.title, [t.description, t.date, tags, t.priority], "|");
    JoinCons(IntToString(t.id), [t.title, t.description, t.date, tags, t.priority], "|");
    assert Join([tags, t.priority], "|") == tags + "|" + t.priority by {
      JoinCons(tags, [t.priority], "|");
    }
  }

  /** The tags field reads back as the tag list, including the empty list. */
  lemma TagsRoundTrip(tags: seq<string>)
    requires forall i :: 0 <= i < |tags| ==> tags[i] != "" && ',' !in tags[i]
    ensures Filter(Split(Join(tags, ","), ','), tag => tag != "") == tags
  {
    if |tags| == 0 {
      assert Split("", ',') == [""];
    } else {
      SplitJoin(tags, ',');
      FilterAllPass(tags, tag => tag != "");
    }
  }

  /** Decoding an encoded storable task gives back all its fields except the
      starred and done flags. */
  lemma {:induction false} DecodeEncode(t: TextTask)
    requires Storable(t)
    ensures DecodeTask(EncodeTask(t)) == Success(Stripped(t))
  {
    var fields := [IntToString(t.id), t.title, t.description, t.date, Join(t.tags, ","), t.priority];
    EncodeIsJoin(t);
    JoinAvoids(t.tags, ",", '|');
    assert '|' !in IntToString(t.id);
    SplitJoin(fields, '|');
    ParseIntToString(t.id);
    TagsRoundTrip(t.tags);
  }

  /** Fields after the sixth are ignored. */
  lemma ExtraPartsIgnored(record: string, extra: string)
    requires Count(record, '|') >= 5
    ensures DecodeTask(record + "|" + extra) == DecodeTask(record)
  {
    SplitConcat(record, extra, '|');
    var a := Split(record, '|');
    var b := Split(record + "|" + extra, '|');
    assert b == a + Split(extra, '|');
    assert b[0] == a[0] && b[1] == a[1] && b[2] == a[2] && b[3] == a[3] && b[4] == a[4] && b[5] == a[5];
  }

  /** `tasks.map(encode).toSet()`. */
  function EncodeAll(tasks: seq<TextTask>): set<string>
  {
    set i | 0 <= i < |tasks| :: EncodeTask(tasks[i])
  }

  /** The tasks the successfully decoded records of a stored set stand for. */
  ghost function DecodedAll(records: set<string>): set<TextTask>
  {
    DecodedSet(records, DecodeTask)
  }

  /** Saving storable tasks and loading them back gives the same tasks,
      flags cleared, as a set: order and duplicates are not kept. */
  lemma LoadAfterSave(tasks: seq<TextTask>)
    requires forall i :: 0 <= i < |tasks| ==> Storable(tasks[i])
    ensures forall s :: s in EncodeAll(tasks) ==> DecodeTask(s).Success?
    ensures DecodedAll(EncodeAll(tasks)) == set i | 0 <= i < |tasks| :: Stripped(tasks[i])
  {
    forall i | 0 <= i < |tasks| ensures DecodeTask(EncodeTask(tasks[i])) == Success(Stripped(tasks[i])) {
      DecodeEncode(tasks[i]);
    }
    var lhs := DecodedAll(EncodeAll(tasks));
    var rhs := set i | 0 <= i < |tasks| :: Stripped(tasks[i]);
    forall x | x in rhs ensures x in lhs {
      var i :| 0 <= i < |tasks| && x == Stripped(tasks[i]);
      assert EncodeTask(tasks[i]) in EncodeAll(tasks);
    }
  }

  /** A saved record is the encoding of the task read back from it. */
  lemma SavedRecordIsEncoding(tasks: seq<TextTask>, record: string)
    requires forall i :: 0 <= i < |tasks| ==> Storable(tasks[i])
    requires record in EncodeAll(tasks)
    ensures DecodeTask(record).Success? && record == EncodeTask(DecodeTask(record).value)
  {
    var k :| 0 <= k < |tasks| && record == EncodeTask(tasks[k]);
    DecodeEncode(tasks[k]);
    assert EncodeTask(Stripped(tasks[k])) == EncodeTask(tasks[k]);
  }

  /** A load after a save of storable tasks holds no task twice: each
      visited record is the encoding of the task read from it, and the
      records are distinct. */
  lemma LoadedAfterSaveDistinct(tasks: seq<TextTask>, order: seq<string>, loaded: seq<TextTask>)
    requires forall i :: 0 <= i < |tasks| ==> Storable(tasks[i])
    requires Enumerates(order, EncodeAll(tasks)) && DecodedInOrder(order, DecodeTask, loaded)
    ensures forall i, j :: 0 <= i < j < |loaded| ==> loaded[i] != loaded[j]
  {
    forall i | 0 <= i < |loaded| ensures order[i] == EncodeTask(loaded[i]) {
      assert order[i] in EncodeAll(tasks);
      SavedRecordIsEncoding(tasks, order[i]);
    }
    forall i, j | 0 <= i < j < |loaded| ensures loaded[i] != loaded[j] {
      assert order[i] != order[j];
    }
  }

  /** Two tasks that differ only in their flags are stored as one record. */
  lemma FlagsCollapse(t: TextTask)
    ensures EncodeAll([t, t.(isStarred := !t.isStarred, isDone := !t.isDone)]) == {EncodeTask(t)}
  {
    var ts := [t, t.(isStarred := !t.isStarred, isDone := !t.isDone)];
    assert EncodeTask(ts[1]) == EncodeTask(t);
    assert EncodeTask(ts[0]) in EncodeAll(ts);
  }

  /** The store: the string set under the key "tasks"; a missing key reads as the empty set. */
  class SharedPreferencesManager {
    var records: set<string>

    constructor ()
      ensures records == {}
    {
      records := {};
    }

    /** `saveTasks`: overwrites the stored set with the records of `tasks`. */
    method SaveTasks(tasks: seq<TextTask>)
      modifies this
      ensures records == EncodeAll(tasks)
    {
      records := EncodeAll(tasks);
    }

    /** `loadTasks`: decodes every stored record, in the set's own order; the
        first record that does not parse makes the whole load fail. */
    method LoadTasks() returns (r: Result<seq<TextTask>, DecodeError>, ghost order: seq<string>)
      ensures r.Success? <==> forall s :: s in records ==> DecodeTask(s).Success?
      ensures r.Failure? ==> exists s :: s in records && DecodeTask(s) == Failure(r.error)
      ensures r.Success? ==> Enumerates(order, records) && DecodedInOrder(order, DecodeTask, r.value)
      ensures r.Success? ==> |r.value| == |records|
      ensures r.Success? ==> forall x :: x in r.value <==> x in DecodedAll(records)
    {
      r, order := MapSet(records, DecodeTask);
    }
  }
}
