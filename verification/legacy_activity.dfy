/** The earlier screen kept in app/src/main/java/com/todolist/MainActivity.kt:
    tasks are (title, description, date) triples, stored as "a|b|c" records
    in a string set, added through a dialog with a date picker. */
module LegacyActivity {
  import opened Wrappers
  import opened Text
  import opened Lists

  datatype Triple = Triple(first: string, second: string, third: string)

  /** The exception `loadTasksFromPreferences` throws on a record with fewer than three parts. */
  datatype LoadError = IndexOutOfBounds

  /** A triple as a record: `first|second|third`. */
  function EncodeTriple(t: Triple): string
  {
    t.first + "|" + t.second + "|" + t.third
  }

  /** Reads parts 0..2 of the record split on "|"; fewer than two "|" throws,
      and anything after a third "|" is dropped. */
  function DecodeTriple(record: string): (r: Result<Triple, LoadError>)
    ensures r.Failure? <==> Count(record, '|') < 2
    ensures r.Success? ==> '|' !in r.value.first && '|' !in r.value.second && '|' !in r.value.third
  {
    var parts := Split(record, '|');
    if |parts| < 3 then Failure(IndexOutOfBounds)
    else Success(Triple(parts[0], parts[1], parts[2]))
  }

  /** Decoding an encoded triple gives it back when no component holds "|". */
  lemma DecodeEncodeTriple(t: Triple)
    requires '|' !in t.first && '|' !in t.second && '|' !in t.third
    ensures DecodeTriple(EncodeTriple(t)) == Success(t)
  {
    var parts := [t.first, t.second, t.third];
    assert Join([t.third], "|") == t.third;
    JoinCons(t.second, [t.third], "|");
    JoinCons(t.first, [t.second, t.third], "|");
    assert EncodeTriple(t) == Join(parts, ['|']);
    SplitJoin(parts, '|');
  }

  /** A "|" inside the last component is where the round trip breaks: the
      rest of that component is lost. */
  lemma PipeInComponentIsLost()
    ensures DecodeTriple(EncodeTriple(Triple("a", "b", "c|d"))) == Success(Triple("a", "b", "c"))
  {
    assert EncodeTriple(Triple("a", "b", "c|d")) == "a" + ['|'] + "b|c|d";
    assert "b|c|d" == "b" + ['|'] + "c|d";
    assert "c|d" == "c" + ['|'] + "d";
    SplitNoSeparator("d", '|');
    SplitAfterPiece("c", "d", '|');
    SplitAfterPiece("b", "c|d", '|');
    SplitAfterPiece("a", "b|c|d", '|');
  }

  /** `tasks.map(encode).toSet()`: duplicates collapse and order is lost. */
  function EncodeTriples(tasks: seq<Triple>): set<string>
  {
    set i | 0 <= i < |tasks| :: EncodeTriple(tasks[i])
  }

  /** Loading what was saved gives back the saved triples as a set. */
  lemma LoadAfterSaveTriples(tasks: seq<Triple>)
    requires forall i :: 0 <= i < |tasks| ==>
      '|' !in tasks[i].first && '|' !in tasks[i].second && '|' !in tasks[i].third
    ensures forall s :: s in EncodeTriples(tasks) ==> DecodeTriple(s).Success?
    ensures DecodedSet(EncodeTriples(tasks), DecodeTriple) == set i | 0 <= i < |tasks| :: tasks[i]
  {
    forall i | 0 <= i < |tasks| ensures DecodeTriple(EncodeTriple(tasks[i])) == Success(tasks[i]) {
      DecodeEncodeTriple(tasks[i]);
    }
    var rhs := set i | 0 <= i < |tasks| :: tasks[i];
    forall x | x in rhs ensures x in DecodedSet(EncodeTriples(tasks), DecodeTriple) {
      var i :| 0 <= i < |tasks| && x == tasks[i];
      assert EncodeTriple(tasks[i]) in EncodeTriples(tasks);
    }
  }

  /** Duplicate triples collapse: a load after a save holds each saved
      triple exactly once, since each visited record is the encoding of the
      triple read from it and the records are distinct. */
  lemma LoadedAfterSaveTriplesDistinct(tasks: seq<Triple>, order: seq<string>, loaded: seq<Triple>)
    requires forall i :: 0 <= i < |tasks| ==>
      '|' !in tasks[i].first && '|' !in tasks[i].second && '|' !in tasks[i].third
    requires Enumerates(order, EncodeTriples(tasks)) && DecodedInOrder(order, DecodeTriple, loaded)
    ensures forall i, j :: 0 <= i < j < |loaded| ==> loaded[i] != loaded[j]
    ensures forall x :: x in loaded <==> x in tasks
  {
    forall i | 0 <= i < |loaded| ensures order[i] == EncodeTriple(loaded[i]) && loaded[i] in tasks {
      assert order[i] in EncodeTriples(tasks);
      var k :| 0 <= k < |tasks| && order[i] == EncodeTriple(tasks[k]);
      DecodeEncodeTriple(tasks[k]);
    }
    forall i, j | 0 <= i < j < |loaded| ensures loaded[i] != loaded[j] {
      assert order[i] != order[j];
    }
    forall x | x in tasks ensures x in loaded {
      var k :| 0 <= k < |tasks| && tasks[k] == x;
      assert EncodeTriple(x) in EncodeTriples(tasks);
      var i :| 0 <= i < |order| && order[i] == EncodeTriple(x);
      DecodeEncodeTriple(x);
    }
  }

  /** The date picker's output: year, 1-based month and day, joined by "-",
      without zero padding. */
  function FormatPickedDate(year: int, month: int, day: int): string
  {
    IntToString(year) + "-" + IntToString(month + 1) + "-" + IntToString(day)
  }

  /** The picked date splits back into year, month + 1 and day. */
  lemma PickedDateReadsBack(year: nat, month: nat, day: nat)
    ensures Split(FormatPickedDate(year, month, day), '-') ==
      [NatToString(year), NatToString(month + 1), NatToString(day)]
    ensures DigitsValue(Split(FormatPickedDate(year, month, day), '-')[1]) == month + 1
  {
    var y, m, d := NatToString(year), NatToString(month + 1), NatToString(day);
    assert forall s: string :: AllDigits(s) ==> '-' !in s;
    assert Join([d], "-") == d;
    JoinCons(m, [d], "-");
    JoinCons(y, [m, d], "-");
    assert FormatPickedDate(year, month, day) == Join([y, m, d], ['-']);
    SplitJoin([y, m, d], '-');
    DigitsValueOfNatToString(month + 1);
  }

  /** January 5th, 2024 renders as "2024-1-5". */
  lemma PickedDateExample()
    ensures FormatPickedDate(2024, 0, 5) == "2024-1-5"
  {
  }

  /** The screen state of `ToDoList`: the task list, the dialog's three text
      fields, whether the dialog is shown, and the stored record set. */
  class ToDoList {
    var tasks: seq<Triple>
    var title: string
    var description: string
    var date: string
    var showDialog: bool
    var stored: set<string>

    constructor (records: set<string>)
      ensures tasks == [] && title == "" && description == "" && date == ""
      ensures !showDialog && stored == records
    {
      tasks, title, description, date := [], "", "", "";
      showDialog, stored := false, records;
    }

    /** The start-up effect: clear the list, then add everything loaded. A
        record that does not parse throws after the list was cleared. */
    method Startup() returns (r: Result<seq<Triple>, LoadError>, ghost order: seq<string>)
      modifies this
      ensures r.Success? ==> tasks == r.value
      ensures r.Success? ==> Enumerates(order, stored) && DecodedInOrder(order, DecodeTriple, tasks)
      ensures r.Success? ==> |tasks| == |stored|
      ensures r.Success? ==> forall x :: x in tasks <==> x in DecodedSet(stored, DecodeTriple)
      ensures r.Failure? ==> tasks == []
      ensures r.Success? <==> forall s :: s in stored ==> DecodeTriple(s).Success?
      ensures title == old(title) && description == old(description) && date == old(date)
      ensures showDialog == old(showDialog) && stored == old(stored)
    {
      tasks := [];
      r, order := MapSet(stored, DecodeTriple);
      if r.Success? {
        tasks := tasks + r.value;
      }
    }

    method OpenDialog()
      modifies this
      ensures showDialog
      ensures tasks == old(tasks) && title == old(title) && description == old(description)
      ensures date == old(date) && stored == old(stored)
    {
      showDialog := true;
    }

    /** Typing in the title field replaces the title. */
    method SetTitle(text: string)
      modifies this
      ensures title == text && description == old(description) && date == old(date)
      ensures tasks == old(tasks) && showDialog == old(showDialog) && stored == old(stored)
    {
      title := text;
    }

    /** Typing in the description field replaces the description. */
    method SetDescription(text: string)
      modifies this
      ensures description == text && title == old(title) && date == old(date)
      ensures tasks == old(tasks) && showDialog == old(showDialog) && stored == old(stored)
    {
      description := text;
    }

    /** The date picker writes its formatted output into the date field. */
    method PickDate(year: int, month: int, day: int)
      modifies this
      ensures date == FormatPickedDate(year, month, day)
      ensures tasks == old(tasks) && title == old(title) && description == old(description)
      ensures showDialog == old(showDialog) && stored == old(stored)
    {
      date := FormatPickedDate(year, month, day);
    }

    /** "OK": with any field empty nothing happens and the dialog stays open;
        otherwise the triple is appended, the whole list is saved, the
        fields are cleared and the dialog closes. */
    method Confirm()
      modifies this
      ensures old(title) == "" || old(description) == "" || old(date) == "" ==>
        tasks == old(tasks) && title == old(title) && description == old(description)
        && date == old(date) && showDialog == old(showDialog) && stored == old(stored)
      ensures old(title) != "" && old(description) != "" && old(date) != "" ==>
        tasks == old(tasks) + [Triple(old(title), old(description), old(date))]
        && stored == EncodeTriples(tasks)
        && title == "" && description == "" && date == "" && !showDialog
    {
      if title != "" && description != "" && date != "" {
        var newTask := Triple(title, description, date);
        tasks := tasks + [newTask];
        stored := EncodeTriples(tasks);
        title, description, date := "", "", "";
        showDialog := false;
      }
    }

    /** Dismissing closes the dialog and keeps everything else. */
    method Dismiss()
      modifies this
      ensures !showDialog
      ensures tasks == old(tasks) && title == old(title) && description == old(description)
      ensures date == old(date) && stored == old(stored)
    {
      showDialog := false;
    }
  }
}
