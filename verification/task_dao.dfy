/** The Room table of tasks (app/src/main/java/com/todolist/data/TaskDao.kt).
    The table is a sequence of rows kept in primary-key order, which is the
    order in which `SELECT * FROM tasks` scans a rowid table. */
module Dao {
  import opened TaskModel
  import opened Lists

  /** Row keys strictly increase, so each primary key occurs at most once. */
  predicate KeyOrdered(rows: seq<RoomTask>)
  {
    forall i, j :: 0 <= i < j < |rows| ==> rows[i].id < rows[j].id
  }

  /** Some row has primary key `id`. */
  predicate HasId(rows: seq<RoomTask>, id: int)
  {
    exists i :: 0 <= i < |rows| && rows[i].id == id
  }

  lemma HasIdCons(rows: seq<RoomTask>, id: int)
    requires |rows| > 0
    ensures HasId(rows, id) <==> rows[0].id == id || HasId(rows[1..], id)
  {
    forall i | 0 <= i < |rows| - 1 ensures rows[1..][i] == rows[i + 1] {
    }
    if HasId(rows, id) && rows[0].id != id {
      var i :| 0 <= i < |rows| && rows[i].id == id;
      assert rows[1..][i - 1].id == id;
    }
  }

  /** The key a task is stored under: id 0 means "not yet assigned" and
      takes the next auto-generated key; any other id is used as given. */
  function StoredAs(task: RoomTask, nextId: int): (r: RoomTask)
    ensures task.id == 0 ==> r == task.(id := nextId)
    ensures task.id != 0 ==> r == task
  {
    if task.id == 0 then task.(id := nextId) else task
  }

  /** `INSERT OR REPLACE`: the row with the same key is replaced where it is,
      or the task joins the table at its key's position. */
  function Upsert(rows: seq<RoomTask>, t: RoomTask): (r: seq<RoomTask>)
    requires KeyOrdered(rows)
    ensures KeyOrdered(r)
    ensures forall x :: x in r <==> x == t || (x in rows && x.id != t.id)
    ensures |r| == if HasId(rows, t.id) then |rows| else |rows| + 1
  {
    if |rows| == 0 then [t]
    else if rows[0].id == t.id then
      assert forall x :: x in rows <==> x == rows[0] || x in rows[1..];
      [t] + rows[1..]
    else if t.id < rows[0].id then
      assert !HasId(rows, t.id);
      [t] + rows
    else
      var rest := Upsert(rows[1..], t);
      assert forall x :: x in rows <==> x == rows[0] || x in rows[1..];
      HasIdCons(rows, t.id);
      assert forall x :: x in rest ==> rows[0].id < x.id;
      [rows[0]] + rest
  }

  /** `UPDATE ... WHERE id = t.id`: the row with that key takes the new
      values; a key that is not in the table changes nothing. */
  function UpdateRow(rows: seq<RoomTask>, t: RoomTask): (r: seq<RoomTask>)
    ensures |r| == |rows|
    ensures forall i :: 0 <= i < |r| ==> r[i].id == rows[i].id
    ensures forall i :: 0 <= i < |r| && rows[i].id != t.id ==> r[i] == rows[i]
    ensures forall i :: 0 <= i < |r| && rows[i].id == t.id ==> r[i] == t
  {
    if |rows| == 0 then []
    else [if rows[0].id == t.id then t else rows[0]] + UpdateRow(rows[1..], t)
  }

  /** `DELETE ... WHERE id = t.id`: every row with that key goes. */
  function DeleteRow(rows: seq<RoomTask>, t: RoomTask): (r: seq<RoomTask>)
    ensures !HasId(r, t.id)
    ensures forall x :: x in r <==> x in rows && x.id != t.id
  {
    var r := Filter(rows, (x: RoomTask) => x.id != t.id);
    forall x ensures x in r <==> x in rows && x.id != t.id {
      FilterMembership(rows, (x: RoomTask) => x.id != t.id, x);
    }
    r
  }

  /** Deleting keeps the other rows in their order. */
  lemma DeleteIsSubsequence(rows: seq<RoomTask>, t: RoomTask)
    ensures IsSubsequence(DeleteRow(rows, t), rows)
  {
    FilterIsSubsequence(rows, (x: RoomTask) => x.id != t.id);
  }

  /** Any subsequence of a key-ordered table is key-ordered. */
  lemma {:induction false} SubsequenceKeyOrdered(a: seq<RoomTask>, b: seq<RoomTask>)
    requires KeyOrdered(b)
    requires IsSubsequence(a, b)
    ensures KeyOrdered(a)
    ensures forall x :: x in a ==> x in b
    decreases |b|
  {
    if |a| > 0 {
      if a[0] == b[0] && IsSubsequence(a[1..], b[1..]) {
        SubsequenceKeyOrdered(a[1..], b[1..]);
        assert forall x :: x in a ==> x == a[0] || x in a[1..];
        assert forall x :: x in b[1..] ==> b[0].id < x.id;
        forall i, j | 0 <= i < j < |a| ensures a[i].id < a[j].id {
          if i == 0 {
            assert a[j] == a[1..][j - 1] && a[1..][j - 1] in b[1..];
          } else {
            assert a[i] == a[1..][i - 1] && a[j] == a[1..][j - 1];
          }
        }
      } else {
        SubsequenceKeyOrdered(a, b[1..]);
      }
    }
  }

  /** Deleting keeps the table key-ordered. */
  lemma DeleteKeepsOrder(rows: seq<RoomTask>, t: RoomTask)
    requires KeyOrdered(rows)
    ensures KeyOrdered(DeleteRow(rows, t))
  {
    DeleteIsSubsequence(rows, t);
    SubsequenceKeyOrdered(DeleteRow(rows, t), rows);
  }

  /** Deleting a key that is present removes exactly one row. */
  lemma {:induction false} DeleteRemovesOne(rows: seq<RoomTask>, t: RoomTask)
    requires KeyOrdered(rows)
    ensures |DeleteRow(rows, t)| == if HasId(rows, t.id) then |rows| - 1 else |rows|
  {
    if |rows| > 0 {
      var p := (x: RoomTask) => x.id != t.id;
      assert DeleteRow(rows, t) == Filter(rows, p);
      assert DeleteRow(rows[1..], t) == Filter(rows[1..], p);
      assert Filter(rows, p) == (if p(rows[0]) then [rows[0]] else []) + Filter(rows[1..], p);
      HasIdCons(rows, t.id);
      if rows[0].id == t.id {
        assert forall i :: 0 <= i < |rows[1..]| ==> p(rows[1..][i]) by {
          forall i | 0 <= i < |rows[1..]| ensures p(rows[1..][i]) {
            assert rows[1..][i] == rows[i + 1];
          }
        }
        FilterAllPass(rows[1..], p);
      } else {
        assert KeyOrdered(rows[1..]) by {
          forall i, j | 0 <= i < j < |rows[1..]| ensures rows[1..][i].id < rows[1..][j].id {
            assert rows[1..][i] == rows[i + 1] && rows[1..][j] == rows[j + 1];
          }
        }
        DeleteRemovesOne(rows[1..], t);
      }
    }
  }

  /** Deleting a key that is absent changes nothing. */
  lemma DeleteAbsentIsNoop(rows: seq<RoomTask>, t: RoomTask)
    requires !HasId(rows, t.id)
    ensures DeleteRow(rows, t) == rows
  {
    FilterAllPass(rows, (x: RoomTask) => x.id != t.id);
  }

  /** Updating a key that is absent changes nothing. */
  lemma {:induction false} UpdateAbsentIsNoop(rows: seq<RoomTask>, t: RoomTask)
    requires !HasId(rows, t.id)
    ensures UpdateRow(rows, t) == rows
  {
    if |rows| > 0 {
      HasIdCons(rows, t.id);
      UpdateAbsentIsNoop(rows[1..], t);
      assert [rows[0]] + rows[1..] == rows;
    }
  }

  /** On a key that is present, update and insert-or-replace agree. */
  lemma {:induction false} UpdateIsReplace(rows: seq<RoomTask>, t: RoomTask)
    requires KeyOrdered(rows)
    requires HasId(rows, t.id)
    ensures UpdateRow(rows, t) == Upsert(rows, t)
  {
    if rows[0].id == t.id {
      assert !HasId(rows[1..], t.id);
      UpdateAbsentIsNoop(rows[1..], t);
    } else {
      assert t.id > rows[0].id by {
        var i :| 0 <= i < |rows| && rows[i].id == t.id;
      }
      HasIdCons(rows, t.id);
      UpdateIsReplace(rows[1..], t);
    }
  }

  /** A task with an auto-generated key above every stored key goes to the
      end of the table and nothing else moves. */
  lemma {:induction false} FreshKeyAppends(rows: seq<RoomTask>, t: RoomTask)
    requires KeyOrdered(rows)
    requires forall i :: 0 <= i < |rows| ==> rows[i].id < t.id
    ensures Upsert(rows, t) == rows + [t]
  {
    if |rows| > 0 {
      FreshKeyAppends(rows[1..], t);
      assert [rows[0]] + (rows[1..] + [t]) == rows + [t];
    }
  }

  /** The calls the table receives, in order. */
  datatype Call = InsertCall(task: RoomTask) | UpdateCall(task: RoomTask) | DeleteCall(task: RoomTask)

  /** The column a sorted query orders by. */
  datatype SortKey = ByPriority | ByDate

  function Key(t: RoomTask, k: SortKey): int
  {
    match k
    case ByPriority => t.priority
    case ByDate => t.date
  }

  /** `a` may come before `b` under `ORDER BY k ASC` (or `DESC`). */
  predicate InOrder(a: RoomTask, b: RoomTask, k: SortKey, asc: bool)
  {
    if asc then Key(a, k) <= Key(b, k) else Key(a, k) >= Key(b, k)
  }

  /** Every adjacent pair is in order. */
  predicate Sorted(s: seq<RoomTask>, k: SortKey, asc: bool)
  {
    forall i :: 0 < i < |s| ==> InOrder(s[i - 1], s[i], k, asc)
  }

  /** Adjacent order extends to every pair. */
  lemma {:induction false} SortedPairwise(s: seq<RoomTask>, k: SortKey, asc: bool)
    requires Sorted(s, k, asc)
    ensures forall i, j :: 0 <= i < j < |s| ==> InOrder(s[i], s[j], k, asc)
  {
    if |s| > 1 {
      SortedPairwise(s[1..], k, asc);
      forall i, j | 0 <= i < j < |s| ensures InOrder(s[i], s[j], k, asc) {
        if i == 0 && j > 1 {
          assert s[1] == s[1..][0] && s[j] == s[1..][j - 1];
        } else if i > 0 {
          assert s[i] == s[1..][i - 1] && s[j] == s[1..][j - 1];
        }
      }
    }
  }

  /** Inserts `x` before the first element it may precede, so that it stays
      ahead of the elements with an equal key. */
  function InsertByKey(x: RoomTask, s: seq<RoomTask>, k: SortKey, asc: bool): (r: seq<RoomTask>)
    requires Sorted(s, k, asc)
    ensures Sorted(r, k, asc)
    ensures multiset(r) == multiset(s) + multiset{x}
    ensures |r| > 0 && (r[0] == x || (|s| > 0 && r[0] == s[0]))
  {
    if |s| == 0 then [x]
    else if InOrder(x, s[0], k, asc) then [x] + s
    else
      var rest := InsertByKey(x, s[1..], k, asc);
      assert s == [s[0]] + s[1..];
      [s[0]] + rest
  }

  /** A stable insertion sort by `k`. */
  function SortByKey(s: seq<RoomTask>, k: SortKey, asc: bool): (r: seq<RoomTask>)
    ensures Sorted(r, k, asc)
    ensures multiset(r) == multiset(s)
  {
    if |s| == 0 then []
    else
      assert s == [s[0]] + s[1..];
      InsertByKey(s[0], SortByKey(s[1..], k, asc), k, asc)
  }

  /** The table behind `TaskDao`, with the AUTOINCREMENT counter and a log of
      the mutating calls it has received. */
  class TaskDao {
    var rows: seq<RoomTask>
    var nextId: int
    ghost var calls: seq<Call>

    /** Keys are unique and ordered, and below the next auto-generated key. */
    predicate Valid()
      reads this
    {
      KeyOrdered(rows) && 1 <= nextId && forall i :: 0 <= i < |rows| ==> rows[i].id < nextId
    }

    constructor ()
      ensures Valid() && rows == [] && nextId == 1 && calls == []
    {
      rows, nextId, calls := [], 1, [];
    }

    /** `getAllTasks`: every row, in key order. */
    method GetAllTasks() returns (r: seq<RoomTask>)
      requires Valid()
      ensures KeyOrdered(r)
      ensures forall x :: x in r <==> x in rows
      ensures r == rows
    {
      r := rows;
    }

    /** `insert` with `REPLACE` on conflict; a task with id 0 gets the next key. */
    method Insert(task: RoomTask)
      requires Valid()
      modifies this
      ensures Valid()
      ensures rows == Upsert(old(rows), StoredAs(task, old(nextId)))
      ensures nextId == if StoredAs(task, old(nextId)).id < old(nextId) then old(nextId)
                        else StoredAs(task, old(nextId)).id + 1
      ensures calls == old(calls) + [InsertCall(task)]
    {
      var stored := StoredAs(task, nextId);
      rows := Upsert(rows, stored);
      if stored.id >= nextId {
        nextId := stored.id + 1;
      }
      calls := calls + [InsertCall(task)];
    }

    /** `update`: the row with the task's key takes its values. */
    method Update(task: RoomTask)
      requires Valid()
      modifies this
      ensures Valid()
      ensures rows == UpdateRow(old(rows), task) && nextId == old(nextId)
      ensures calls == old(calls) + [UpdateCall(task)]
    {
      rows := UpdateRow(rows, task);
      calls := calls + [UpdateCall(task)];
    }

    /** `delete`: the row with the task's key goes. */
    method Delete(task: RoomTask)
      requires Valid()
      modifies this
      ensures Valid()
      ensures rows == DeleteRow(old(rows), task) && nextId == old(nextId)
      ensures calls == old(calls) + [DeleteCall(task)]
    {
      DeleteKeepsOrder(rows, task);
      rows := DeleteRow(rows, task);
      calls := calls + [DeleteCall(task)];
    }

    /** `ORDER BY priority ASC`. */
    function GetTasksSortedByPriorityAsc(): (r: seq<RoomTask>)
      reads this
      ensures Sorted(r, ByPriority, true) && multiset(r) == multiset(rows)
    {
      SortByKey(rows, ByPriority, true)
    }

    /** `ORDER BY priority DESC`. */
    function GetTasksSortedByPriorityDesc(): (r: seq<RoomTask>)
      reads this
      ensures Sorted(r, ByPriority, false) && multiset(r) == multiset(rows)
    {
      SortByKey(rows, ByPriority, false)
    }

    /** `ORDER BY date ASC`. */
    function GetTasksSortedByDateAsc(): (r: seq<RoomTask>)
      reads this
      ensures Sorted(r, ByDate, true) && multiset(r) == multiset(rows)
    {
      SortByKey(rows, ByDate, true)
    }

    /** `ORDER BY date DESC`. */
    function GetTasksSortedByDateDesc(): (r: seq<RoomTask>)
      reads this
      ensures Sorted(r, ByDate, false) && multiset(r) == multiset(rows)
    {
      SortByKey(rows, ByDate, false)
    }
  }

  /** The three tasks of the sort tests: priorities 1, 3, 2 and dates now,
      now + 1000 and now - 1000. */
  predicate SortTestTasks(now: int, t1: RoomTask, t2: RoomTask, t3: RoomTask)
  {
    && t1.priority == 1 && t2.priority == 3 && t3.priority == 2
    && t1.date == now && t2.date == now + 1000 && t3.date == now - 1000
  }

  lemma SortExamplePriorityAsc(now: int, t1: RoomTask, t2: RoomTask, t3: RoomTask)
    requires SortTestTasks(now, t1, t2, t3)
    ensures SortByKey([t1, t2, t3], ByPriority, true) == [t1, t3, t2]
  {
    SortThree(t1, t2, t3, ByPriority, true);
    assert InsertByKey(t2, [t3], ByPriority, true) == [t3, t2];
  }

  lemma SortExamplePriorityDesc(now: int, t1: RoomTask, t2: RoomTask, t3: RoomTask)
    requires SortTestTasks(now, t1, t2, t3)
    ensures SortByKey([t1, t2, t3], ByPriority, false) == [t2, t3, t1]
  {
    SortThree(t1, t2, t3, ByPriority, false);
    assert InsertByKey(t2, [t3], ByPriority, false) == [t2, t3];
    assert [t2, t3][1..] == [t3];
    assert InsertByKey(t1, [t3], ByPriority, false) == [t3, t1];
  }

  lemma SortExampleDateAsc(now: int, t1: RoomTask, t2: RoomTask, t3: RoomTask)
    requires SortTestTasks(now, t1, t2, t3)
    ensures SortByKey([t1, t2, t3], ByDate, true) == [t3, t1, t2]
  {
    SortThree(t1, t2, t3, ByDate, true);
    assert InsertByKey(t2, [t3], ByDate, true) == [t3, t2];
    assert [t3, t2][1..] == [t2];
    assert InsertByKey(t1, [t2], ByDate, true) == [t1, t2];
  }

  lemma SortExampleDateDesc(now: int, t1: RoomTask, t2: RoomTask, t3: RoomTask)
    requires SortTestTasks(now, t1, t2, t3)
    ensures SortByKey([t1, t2, t3], ByDate, false) == [t2, t1, t3]
  {
    SortThree(t1, t2, t3, ByDate, false);
    assert InsertByKey(t2, [t3], ByDate, false) == [t2, t3];
    assert [t2, t3][1..] == [t3];
    assert InsertByKey(t1, [t3], ByDate, false) == [t1, t3];
  }

  /** Unfolds the sort of three elements into its two insertions. */
  lemma SortThree(t1: RoomTask, t2: RoomTask, t3: RoomTask, k: SortKey, asc: bool)
    ensures SortByKey([t1, t2, t3], k, asc) ==
      InsertByKey(t1, InsertByKey(t2, [t3], k, asc), k, asc)
  {
    var s := [t1, t2, t3];
    assert s[1..] == [t2, t3] && s[1..][1..] == [t3] && s[1..][1..][1..] == [];
    assert SortByKey([t3], k, asc) == [t3];
  }
}
