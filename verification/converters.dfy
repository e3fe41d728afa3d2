/** The Room type converter for tag lists
    (app/src/main/java/com/todolist/data/Converters.kt). */
module Converters {
  import opened Text

  /** `fromString`: split on "," and trim every piece. */
  function FromString(value: string): (r: seq<string>)
    ensures |r| == Count(value, ',') + 1
    ensures forall i :: 0 <= i < |r| ==> IsTrimmed(r[i]) && ',' !in r[i]
    ensures forall i :: 0 <= i < |r| ==> r[i] == Trim(Split(value, ',')[i])
  {
    var pieces := Split(value, ',');
    seq(|pieces|, i requires 0 <= i < |pieces| => TrimPiece(pieces[i]))
  }

  /** Trimming a piece that holds no comma leaves no comma. */
  function TrimPiece(piece: string): (r: string)
    requires ',' !in piece
    ensures IsTrimmed(r) && ',' !in r
  {
    TrimEndKeepsOut(TrimStart(piece));
    Trim(piece)
  }

  lemma TrimEndKeepsOut(s: string)
    requires ',' !in s
    ensures ',' !in TrimEnd(s)
  {
    var r := TrimEnd(s);
    assert forall i :: 0 <= i < |r| ==> r[i] == s[i];
  }

  /** `fromList`: join with "," and nothing else. */
  function FromList(list: seq<string>): string
  {
    Join(list, ",")
  }

  /** The pieces of `fromList(l)` are exactly the elements of `l`, so no
      spaces or other characters are added, when `l` is non-empty and no
      element holds a comma. */
  lemma FromListPieces(l: seq<string>)
    requires |l| >= 1
    requires forall i :: 0 <= i < |l| ==> ',' !in l[i]
    ensures Split(FromList(l), ',') == l
  {
    SplitJoin(l, ',');
  }

  /** `fromString(fromList(l)) == l` for non-empty lists of trimmed, comma-free elements. */
  lemma FromStringFromList(l: seq<string>)
    requires |l| >= 1
    requires forall i :: 0 <= i < |l| ==> ',' !in l[i] && IsTrimmed(l[i])
    ensures FromString(FromList(l)) == l
  {
    FromListPieces(l);
    forall i | 0 <= i < |l| ensures FromString(FromList(l))[i] == l[i] {
      TrimOfTrimmed(l[i]);
    }
  }

  /** The empty list does not survive: it is written as "" and read back as [""]. */
  lemma EmptyListDoesNotRoundTrip()
    ensures FromList([]) == ""
    ensures FromString("") == [""]
    ensures FromString(FromList([])) != []
  {
    assert Split("", ',') == [""];
    assert Trim("") == "";
  }

  /** `fromList(fromString(s)) == s` when no comma-separated piece of `s` has
      surrounding whitespace. */
  lemma FromListFromString(s: string)
    requires forall i :: 0 <= i < |Split(s, ',')| ==> IsTrimmed(Split(s, ',')[i])
    ensures FromList(FromString(s)) == s
  {
    var pieces := Split(s, ',');
    forall i | 0 <= i < |pieces| ensures FromString(s)[i] == pieces[i] {
      TrimOfTrimmed(pieces[i]);
    }
    assert FromString(s) == pieces;
    JoinSplit(s, ',');
  }
}
