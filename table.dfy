/**
 * A SQLite table as the alarm and holiday code sees it: rows in rowid order (the order
 * in which an unordered query returns them), each carrying its integer primary key.
 * A row's content is whatever the owning module stores; the operations here are the
 * ones the providers perform on whole rows: update by id, delete by id, insert, and
 * the selections that queries make.
 */
module Tables {
  import opened Common

  datatype Row<T> = Row(id: int, data: T)

  /** Rowid order: ids strictly increase along the table, so no id occurs twice. */
  predicate Sorted<T(==,!new)>(rows: seq<Row<T>>)
  {
    forall i, j :: 0 <= i < j < |rows| ==> rows[i].id < rows[j].id
  }

  function Ids<T(==,!new)>(rows: seq<Row<T>>): set<int>
  {
    set r | r in rows :: r.id
  }

  /** The largest id in the table, or 0 for an empty table. */
  function MaxId<T(==,!new)>(rows: seq<Row<T>>): (m: int)
    ensures forall r :: r in rows ==> r.id <= m
    ensures rows != [] ==> exists r :: r in rows && r.id == m
    ensures rows == [] ==> m == 0
  {
    if rows == [] then 0
    else
      var m := MaxId(rows[1..]);
      assert forall r :: r in rows ==> r == rows[0] || r in rows[1..];
      if rows[1..] == [] || rows[0].id > m then rows[0].id else m
  }

  /** Every row drawn from behind the head of a table in rowid order has a larger id. */
  lemma HeadBelowRest<T(!new)>(rows: seq<Row<T>>, rest: seq<Row<T>>)
    requires Sorted(rows) && rows != [] && forall x :: x in rest ==> x in rows[1..]
    ensures forall x :: x in rest ==> rows[0].id < x.id
  {
    forall x | x in rest ensures rows[0].id < x.id {
      var k :| 0 <= k < |rows[1..]| && rows[1..][k] == x;
      assert rows[k + 1] == x;
    }
  }

  lemma ConsSorted<T(!new)>(head: Row<T>, rest: seq<Row<T>>)
    requires Sorted(rest) && forall x :: x in rest ==> head.id < x.id
    ensures Sorted([head] + rest)
  {
    var r := [head] + rest;
    forall i, j | 0 <= i < j < |r| ensures r[i].id < r[j].id {
      assert r[j] == rest[j - 1];
      if i > 0 {
        assert r[i] == rest[i - 1];
      }
    }
  }

  /** UPDATE ... WHERE _id = id: the row with that id (if any) gets the new content. */
  function Replace<T(==,!new)>(rows: seq<Row<T>>, id: int, data: T): (r: seq<Row<T>>)
    ensures |r| == |rows|
    ensures forall i :: 0 <= i < |rows| ==> r[i].id == rows[i].id
    ensures forall i :: 0 <= i < |rows| ==> r[i].data == (if rows[i].id == id then data else rows[i].data)
  {
    seq(|rows|, i requires 0 <= i < |rows| => if rows[i].id == id then Row(id, data) else rows[i])
  }

  lemma ReplaceKeepsOrder<T(!new)>(rows: seq<Row<T>>, id: int, data: T)
    requires Sorted(rows)
    ensures Sorted(Replace(rows, id, data)) && Ids(Replace(rows, id, data)) == Ids(rows)
  {
    var r := Replace(rows, id, data);
    forall x | x in Ids(rows) ensures x in Ids(r) {
      var i :| 0 <= i < |rows| && rows[i].id == x;
      assert r[i] in r;
    }
  }

  /** DELETE ... WHERE _id = id. */
  function Remove<T(==,!new)>(rows: seq<Row<T>>, id: int): (r: seq<Row<T>>)
    ensures forall x :: x in r <==> x in rows && x.id != id
    ensures Sorted(rows) ==> Sorted(r)
    ensures |r| <= |rows|
  {
    if rows == [] then []
    else
      var tail := Remove(rows[1..], id);
      assert forall x :: x in rows <==> x == rows[0] || x in rows[1..];
      if rows[0].id == id then tail else [rows[0]] + tail
  }

  /** The number of rows a DELETE ... WHERE _id = id removes. */
  function CountId<T(==,!new)>(rows: seq<Row<T>>, id: int): (n: nat)
    ensures n == |rows| - |Remove(rows, id)|
    ensures n == 0 <==> id !in Ids(rows)
  {
    if rows == [] then 0
    else
      var n := CountId(rows[1..], id);
      assert Ids(rows) == {rows[0].id} + Ids(rows[1..]);
      if rows[0].id == id then n + 1 else n
  }

  /** In rowid order an id occurs at most once, so a delete by id removes at most one row. */
  lemma {:induction false} CountIdAtMostOne<T(!new)>(rows: seq<Row<T>>, id: int)
    requires Sorted(rows)
    ensures CountId(rows, id) <= 1
  {
    if rows != [] {
      CountIdAtMostOne(rows[1..], id);
      if rows[0].id == id {
        assert id !in Ids(rows[1..]);
      }
    }
  }

  /** INSERT of a row with a new id, placed at its rowid position. */
  function Insert<T(==,!new)>(rows: seq<Row<T>>, row: Row<T>): (r: seq<Row<T>>)
    ensures forall x :: x in r <==> x in rows || x == row
    ensures |r| == |rows| + 1
    ensures Sorted(rows) && row.id !in Ids(rows) ==> Sorted(r)
  {
    if rows == [] then [row]
    else if row.id < rows[0].id then [row] + rows
    else
      var tail := Insert(rows[1..], row);
      assert forall x :: x in rows <==> x == rows[0] || x in rows[1..];
      assert Sorted(rows) && row.id !in Ids(rows) ==> Sorted([rows[0]] + tail) by {
        if Sorted(rows) && row.id !in Ids(rows) {
          assert Ids(rows[1..]) <= Ids(rows);
          assert Sorted(rows[1..]);
        }
      }
      [rows[0]] + tail
  }

  /** The rows a query with a WHERE clause returns, in rowid order. */
  function Filter<T(==,!new)>(rows: seq<Row<T>>, p: Row<T> -> bool): (r: seq<Row<T>>)
    ensures forall x :: x in r <==> x in rows && p(x)
    ensures forall x :: x in r ==> p(x)
    ensures Sorted(rows) ==> Sorted(r)
    ensures |r| <= |rows|
  {
    if rows == [] then []
    else
      var tail := Filter(rows[1..], p);
      assert forall x :: x in rows <==> x == rows[0] || x in rows[1..];
      assert Sorted(rows) ==> Sorted([rows[0]] + tail) by {
        if Sorted(rows) {
          HeadBelowRest(rows, tail);
          ConsSorted(rows[0], tail);
        }
      }
      if p(rows[0]) then [rows[0]] + tail else tail
  }

  /**
   * The position of the row a single-row query returns: the first match in rowid order,
   * or -1 when nothing matches.
   */
  function FirstIndex<T(==,!new)>(rows: seq<Row<T>>, p: Row<T> -> bool): (i: int)
    ensures i == -1 <==> forall x :: x in rows ==> !p(x)
    ensures i != -1 ==> 0 <= i < |rows| && p(rows[i])
    ensures i != -1 ==> forall j :: 0 <= j < i ==> !p(rows[j])
  {
    if rows == [] then -1
    else if p(rows[0]) then 0
    else
      var k := FirstIndex(rows[1..], p);
      assert forall x :: x in rows <==> x == rows[0] || x in rows[1..];
      if k == -1 then -1 else k + 1
  }

  /** The row a single-row query returns, if any. */
  function First<T(==,!new)>(rows: seq<Row<T>>, p: Row<T> -> bool): (r: Option<Row<T>>)
    ensures r.None? <==> forall x :: x in rows ==> !p(x)
    ensures r.Some? ==> r.value in rows && p(r.value)
  {
    var i := FirstIndex(rows, p);
    if i == -1 then None else Some(rows[i])
  }

  /**
   * A running minimum over the rows: the candidate is replaced only by a row whose key
   * is strictly smaller, so the result is the first position holding the least key.
   */
  method ArgMin<T>(rows: seq<Row<T>>, key: Row<T> -> int) returns (best: nat)
    requires rows != []
    ensures best < |rows|
    ensures forall j :: 0 <= j < |rows| ==> key(rows[best]) <= key(rows[j])
    ensures forall j :: 0 <= j < best ==> key(rows[best]) < key(rows[j])
  {
    best := 0;
    for i := 1 to |rows|
      invariant best < i
      invariant forall j :: 0 <= j < i ==> key(rows[best]) <= key(rows[j])
      invariant forall j :: 0 <= j < best ==> key(rows[best]) < key(rows[j])
    {
      if key(rows[i]) < key(rows[best]) {
        best := i;
      }
    }
  }

  /** A scan that stops at the first row satisfying p: its position, or -1 after the last row. */
  method FindFirst<T(!new)>(rows: seq<Row<T>>, p: Row<T> -> bool) returns (k: int)
    ensures k == FirstIndex(rows, p)
  {
    var i := 0;
    while i < |rows|
      invariant 0 <= i <= |rows|
      invariant forall j :: 0 <= j < i ==> !p(rows[j])
    {
      if p(rows[i]) {
        return i;
      }
      i := i + 1;
    }
    return -1;
  }

  /**
   * One step of a delete-while-scanning loop: the rows left are those of `before`
   * except the visited ones whose id is not `kept`; visiting `inst` (deleting it by id
   * unless it is the kept one) extends that to the next prefix of the scan.
   */
  lemma VisitStep<T(!new)>(before: seq<Row<T>>, scan: seq<Row<T>>, i: nat, rows: seq<Row<T>>, kept: int)
    requires Sorted(before) && i < |scan| && scan[i] in before
    requires forall x :: x in rows <==> x in before && !(x in scan[..i] && x.id != kept)
    ensures scan[..i + 1] == scan[..i] + [scan[i]]
    ensures var after := if scan[i].id != kept then Remove(rows, scan[i].id) else rows;
      forall x :: x in after <==> x in before && !(x in scan[..i + 1] && x.id != kept)
  {
    assert scan[..i + 1] == scan[..i] + [scan[i]];
    forall x | x in before && x.id == scan[i].id ensures x == scan[i] {
      var a :| 0 <= a < |before| && before[a] == x;
      var b :| 0 <= b < |before| && before[b] == scan[i];
      assert a == b;
    }
  }

  /** The ids of a list of rows, in order. */
  function IdList<T>(rows: seq<Row<T>>): (ids: seq<int>)
    ensures |ids| == |rows| && forall i :: 0 <= i < |rows| ==> ids[i] == rows[i].id
  {
    seq(|rows|, i requires 0 <= i < |rows| => rows[i].id)
  }

  lemma {:induction false} FilterSnoc<T(!new)>(rows: seq<Row<T>>, x: Row<T>, p: Row<T> -> bool)
    ensures Filter(rows + [x], p) == Filter(rows, p) + (if p(x) then [x] else [])
  {
    if rows != [] {
      assert (rows + [x])[1..] == rows[1..] + [x];
      FilterSnoc(rows[1..], x, p);
    }
  }

  /** The selection `_id != kept`. */
  function OtherThan<T>(kept: int): Row<T> -> bool
  {
    (r: Row<T>) => r.id != kept
  }

  /** The ids, in scan order, of the scanned rows other than `kept`, built up one row at a time. */
  function IdsOtherThan<T>(scanned: seq<Row<T>>, kept: int): (ids: seq<int>)
    ensures |ids| <= |scanned| && kept !in ids
  {
    if scanned == [] then []
    else
      var last := scanned[|scanned| - 1];
      IdsOtherThan(scanned[..|scanned| - 1], kept) + (if last.id != kept then [last.id] else [])
  }

  /** Scanning one more row extends a log that started from `log0`. */
  lemma IdsOtherThanSnoc<T>(log0: seq<int>, scanned: seq<Row<T>>, x: Row<T>, kept: int)
    ensures log0 + IdsOtherThan(scanned + [x], kept)
         == log0 + IdsOtherThan(scanned, kept) + (if x.id != kept then [x.id] else [])
  {
    assert (scanned + [x])[..|scanned|] == scanned;
  }

  /** Built up row by row, the log is the id list of the query `_id != kept` over the scanned rows. */
  lemma {:induction false} IdsOtherThanSelects<T(!new)>(scanned: seq<Row<T>>, kept: int)
    ensures IdsOtherThan(scanned, kept) == IdList(Filter(scanned, OtherThan(kept)))
  {
    if scanned != [] {
      var init, x := scanned[..|scanned| - 1], scanned[|scanned| - 1];
      IdsOtherThanSelects(init, kept);
      assert scanned == init + [x];
      FilterSnoc(init, x, OtherThan(kept));
      IdListAppend(Filter(init, OtherThan(kept)), if x.id != kept then [x] else []);
    }
  }

  lemma IdListAppend<T>(a: seq<Row<T>>, b: seq<Row<T>>)
    ensures IdList(a + b) == IdList(a) + IdList(b)
  {
  }
}
