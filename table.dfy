/**
 * A SQLite table whose key is an `INTEGER PRIMARY KEY AUTOINCREMENT` column.
 * Rows are kept in key order, the order a full-table scan visits them, and
 * `lastId` is the table's `sqlite_sequence` entry: the largest key the table
 * has ever held (0 before any insert). Everything is generic in the record
 * type; `key` reads a record's id and `withId` replaces it.
 */
module Table {

  import opened Wrappers

  predicate Ascending<R>(rows: seq<R>, key: R -> int) {
    forall i, j :: 0 <= i < j < |rows| ==> key(rows[i]) < key(rows[j])
  }

  predicate HasKey<R>(rows: seq<R>, k: int, key: R -> int) {
    exists i :: 0 <= i < |rows| && key(rows[i]) == k
  }

  predicate DistinctKeys<R>(rows: seq<R>, key: R -> int) {
    forall i, j :: 0 <= i < j < |rows| ==> key(rows[i]) != key(rows[j])
  }

  /** `SELECT * FROM table WHERE id = :k`: the row with key `k`, or NULL. */
  function Find<R>(rows: seq<R>, k: int, key: R -> int): (r: Option<R>)
    ensures r.Some? <==> HasKey(rows, k, key)
    ensures r.Some? ==> key(r.value) == k && r.value in rows
  {
    if rows == [] then None
    else if key(rows[0]) == k then Some(rows[0])
    else Find(rows[1..], k, key)
  }

  /** In a table in key order the row with a given key is the only one. */
  lemma FindInAscending<R>(rows: seq<R>, i: int, key: R -> int)
    requires Ascending(rows, key) && 0 <= i < |rows|
    ensures Find(rows, key(rows[i]), key) == Some(rows[i])
  {
    var r := Find(rows, key(rows[i]), key);
    var j :| 0 <= j < |rows| && rows[j] == r.value;
    assert i == j;
  }

  /** Places `r` among `rows` by key. */
  function InsertByKey<R>(rows: seq<R>, r: R, key: R -> int): (res: seq<R>)
    ensures multiset(res) == multiset(rows) + multiset{r}
  {
    if rows == [] || key(r) < key(rows[0]) then [r] + rows
    else
      assert rows == [rows[0]] + rows[1..];
      [rows[0]] + InsertByKey(rows[1..], r, key)
  }

  lemma ConsAscending<R>(h: R, t: seq<R>, key: R -> int)
    requires Ascending(t, key)
    requires forall i :: 0 <= i < |t| ==> key(h) < key(t[i])
    ensures Ascending([h] + t, key)
  {
    var res := [h] + t;
    forall i, j | 0 <= i < j < |res| ensures key(res[i]) < key(res[j]) {
      assert res[j] == t[j - 1];
      if i > 0 { assert res[i] == t[i - 1]; }
    }
  }

  lemma {:induction false} InsertByKeyAscending<R>(rows: seq<R>, r: R, key: R -> int)
    requires Ascending(rows, key) && !HasKey(rows, key(r), key)
    ensures Ascending(InsertByKey(rows, r, key), key)
  {
    if rows == [] || key(r) < key(rows[0]) {
      ConsAscending(r, rows, key);
    } else {
      var tail := rows[1..];
      assert !HasKey(tail, key(r), key) by {
        forall i | 0 <= i < |tail| ensures key(tail[i]) != key(r) { assert tail[i] == rows[i + 1]; }
      }
      InsertByKeyAscending(tail, r, key);
      var t := InsertByKey(tail, r, key);
      forall i | 0 <= i < |t| ensures key(rows[0]) < key(t[i]) {
        assert t[i] in multiset(tail) + multiset{r};
        if t[i] != r {
          var k :| 0 <= k < |tail| && tail[k] == t[i];
          assert tail[k] == rows[k + 1];
        }
      }
      ConsAscending(rows[0], t, key);
    }
  }

  lemma {:induction false} InsertAboveAll<R>(rows: seq<R>, r: R, key: R -> int)
    requires forall i :: 0 <= i < |rows| ==> key(rows[i]) < key(r)
    ensures InsertByKey(rows, r, key) == rows + [r]
  {
    if rows != [] {
      InsertAboveAll(rows[1..], r, key);
      assert [rows[0]] + (rows[1..] + [r]) == rows + [r];
    }
  }

  /** `UPDATE table SET ... WHERE id = key(r)`: the row with `r`'s key becomes `r`. */
  function ReplaceByKey<R>(rows: seq<R>, r: R, key: R -> int): (res: seq<R>)
    ensures |res| == |rows|
    ensures forall i :: 0 <= i < |rows| ==> res[i] == if key(rows[i]) == key(r) then r else rows[i]
  {
    if rows == [] then []
    else [if key(rows[0]) == key(r) then r else rows[0]] + ReplaceByKey(rows[1..], r, key)
  }

  /** `DELETE FROM table WHERE id = k`. */
  function RemoveByKey<R>(rows: seq<R>, k: int, key: R -> int): (res: seq<R>)
    ensures forall i :: 0 <= i < |res| ==> res[i] in rows && key(res[i]) != k
    ensures forall i :: 0 <= i < |rows| && key(rows[i]) != k ==> rows[i] in res
    ensures |res| <= |rows|
  {
    if rows == [] then []
    else if key(rows[0]) == k then RemoveByKey(rows[1..], k, key)
    else [rows[0]] + RemoveByKey(rows[1..], k, key)
  }

  lemma {:induction false} RemoveByKeyAscending<R>(rows: seq<R>, k: int, key: R -> int)
    requires Ascending(rows, key)
    ensures Ascending(RemoveByKey(rows, k, key), key)
  {
    if rows != [] {
      var tail := rows[1..];
      RemoveByKeyAscending(tail, k, key);
      var t := RemoveByKey(tail, k, key);
      if key(rows[0]) != k {
        forall i | 0 <= i < |t| ensures key(rows[0]) < key(t[i]) {
          var m :| 0 <= m < |tail| && tail[m] == t[i];
          assert tail[m] == rows[m + 1];
        }
        ConsAscending(rows[0], t, key);
      }
    }
  }

  lemma SameFirstRow<R>(a: seq<R>, b: seq<R>, key: R -> int)
    requires Ascending(a, key) && Ascending(b, key)
    requires multiset(a) == multiset(b) && a != [] && b != []
    ensures a[0] == b[0]
  {
    assert a[0] in multiset(b) && b[0] in multiset(a);
    var j :| 0 <= j < |b| && b[j] == a[0];
    var i :| 0 <= i < |a| && a[i] == b[0];
    assert key(a[0]) <= key(a[i]) == key(b[0]) <= key(b[j]) == key(a[0]);
  }

  lemma TailMultiset<R>(a: seq<R>)
    requires a != []
    ensures multiset(a[1..]) == multiset(a) - multiset{a[0]}
  {
    assert a == [a[0]] + a[1..];
  }

  /** Two tables in key order holding the same rows are the same table. */
  lemma {:induction false} AscendingUnique<R>(a: seq<R>, b: seq<R>, key: R -> int)
    requires Ascending(a, key) && Ascending(b, key)
    requires multiset(a) == multiset(b)
    ensures a == b
  {
    assert |a| == |multiset(a)| == |multiset(b)| == |b|;
    if a != [] {
      SameFirstRow(a, b, key);
      TailMultiset(a);
      TailMultiset(b);
      AscendingTail(a, key);
      AscendingTail(b, key);
      AscendingUnique(a[1..], b[1..], key);
      assert a == [a[0]] + a[1..] && b == [b[0]] + b[1..];
    }
  }

  lemma AscendingTail<R>(rows: seq<R>, key: R -> int)
    requires Ascending(rows, key) && rows != []
    ensures Ascending(rows[1..], key)
  {
    forall i, j | 0 <= i < j < |rows| - 1 ensures key(rows[1..][i]) < key(rows[1..][j]) {
      assert rows[1..][i] == rows[i + 1] && rows[1..][j] == rows[j + 1];
    }
  }

  lemma AscendingDistinct<R>(rows: seq<R>, key: R -> int)
    requires Ascending(rows, key)
    ensures DistinctKeys(rows, key)
  {
  }

  lemma {:induction false} DistinctKeysUniqueRows<R>(rows: seq<R>, key: R -> int)
    requires DistinctKeys(rows, key)
    ensures forall x :: multiset(rows)[x] <= 1
    ensures forall x, y :: x in rows && y in rows && key(x) == key(y) ==> x == y
  {
    if rows != [] {
      var n := |rows| - 1;
      var init := rows[..n];
      assert DistinctKeys(init, key) by {
        forall i, j | 0 <= i < j < |init| ensures key(init[i]) != key(init[j]) {
          assert init[i] == rows[i] && init[j] == rows[j];
        }
      }
      DistinctKeysUniqueRows(init, key);
      assert rows == init + [rows[n]];
      assert rows[n] !in init by {
        forall i | 0 <= i < n ensures init[i] != rows[n] { assert init[i] == rows[i]; }
      }
      forall x, y | x in rows && y in rows && key(x) == key(y) ensures x == y {
        var i :| 0 <= i < |rows| && rows[i] == x;
        var j :| 0 <= j < |rows| && rows[j] == y;
        assert i == j;
      }
    }
  }

  lemma UniqueRowsDistinctKeys<R>(rows: seq<R>, key: R -> int)
    requires forall x :: multiset(rows)[x] <= 1
    requires forall x, y :: x in rows && y in rows && key(x) == key(y) ==> x == y
    ensures DistinctKeys(rows, key)
  {
    forall i, j | 0 <= i < j < |rows| ensures key(rows[i]) != key(rows[j]) {
      assert rows == rows[..j] + rows[j..];
      assert rows[i] in rows[..j] && rows[j] in rows[j..];
      assert multiset(rows)[rows[j]] == multiset(rows[..j])[rows[j]] + multiset(rows[j..])[rows[j]];
    }
  }

  /** Reordering rows keeps their keys distinct. */
  lemma DistinctKeysPermutation<R>(a: seq<R>, b: seq<R>, key: R -> int)
    requires DistinctKeys(a, key) && multiset(a) == multiset(b)
    ensures DistinctKeys(b, key)
  {
    DistinctKeysUniqueRows(a, key);
    forall x, y | x in b && y in b && key(x) == key(y) ensures x == y {
      assert x in multiset(a) && y in multiset(a);
    }
    UniqueRowsDistinctKeys(b, key);
  }

  /** Two orderings of the same rows have the same length and the same elements. */
  lemma SameElements<R>(a: seq<R>, b: seq<R>)
    requires multiset(a) == multiset(b)
    ensures |a| == |b|
    ensures forall i :: 0 <= i < |a| ==> a[i] in b
    ensures forall i :: 0 <= i < |b| ==> b[i] in a
  {
    assert |a| == |multiset(a)| == |multiset(b)| == |b|;
    forall i | 0 <= i < |a| ensures a[i] in b {
      assert a[i] in multiset(a);
    }
    forall i | 0 <= i < |b| ensures b[i] in a {
      assert b[i] in multiset(b);
    }
  }

  // ---- ORDER BY date DESC ----

  predicate NonIncreasing<R>(rows: seq<R>, date: R -> int) {
    forall i, j :: 0 <= i < j < |rows| ==> date(rows[i]) >= date(rows[j])
  }

  lemma {:induction false} BoundedByHead<R>(t: seq<R>, s: seq<R>, x: R, date: R -> int)
    requires s != [] && NonIncreasing(s, date) && date(x) < date(s[0])
    requires multiset(t) == multiset(s[1..]) + multiset{x}
    ensures forall j :: 0 <= j < |t| ==> date(t[j]) <= date(s[0])
  {
    forall j | 0 <= j < |t| ensures date(t[j]) <= date(s[0]) {
      assert t[j] in multiset(t);
      if t[j] != x {
        assert t[j] in multiset(s[1..]);
        var k :| 0 <= k < |s[1..]| && s[1..][k] == t[j];
        assert s[1..][k] == s[k + 1];
      }
    }
  }

  /** Places `x` into a list ordered by `date`, newest first, before rows of equal date. */
  function InsertDesc<R>(x: R, s: seq<R>, date: R -> int): (res: seq<R>)
    requires NonIncreasing(s, date)
    ensures multiset(res) == multiset(s) + multiset{x}
    ensures NonIncreasing(res, date)
  {
    if s == [] || date(x) >= date(s[0]) then
      ConsNonIncreasing(x, s, date);
      [x] + s
    else
      NonIncreasingTail(s, date);
      var t := InsertDesc(x, s[1..], date);
      BoundedByHead(t, s, x, date);
      ConsNonIncreasing(s[0], t, date);
      assert s == [s[0]] + s[1..];
      [s[0]] + t
  }

  lemma NonIncreasingTail<R>(s: seq<R>, date: R -> int)
    requires NonIncreasing(s, date) && s != []
    ensures NonIncreasing(s[1..], date)
  {
    forall i, j | 0 <= i < j < |s| - 1 ensures date(s[1..][i]) >= date(s[1..][j]) {
      assert s[1..][i] == s[i + 1] && s[1..][j] == s[j + 1];
    }
  }

  lemma ConsNonIncreasing<R>(h: R, t: seq<R>, date: R -> int)
    requires NonIncreasing(t, date)
    requires forall j :: 0 <= j < |t| ==> date(t[j]) <= date(h)
    ensures NonIncreasing([h] + t, date)
  {
    var r := [h] + t;
    forall i, j | 0 <= i < j < |r| ensures date(r[i]) >= date(r[j]) {
      assert r[j] == t[j - 1];
      if i > 0 { assert r[i] == t[i - 1]; }
    }
  }

  /** `ORDER BY date DESC` over the table order; rows of equal date keep table order. */
  function SortDesc<R>(rows: seq<R>, date: R -> int): (res: seq<R>)
    ensures multiset(res) == multiset(rows)
    ensures NonIncreasing(res, date)
  {
    if rows == [] then []
    else
      assert rows == [rows[0]] + rows[1..];
      InsertDesc(rows[0], SortDesc(rows[1..], date), date)
  }

  // ---- the table state and its writes ----

  datatype TableState<R> = TableState(rows: seq<R>, lastId: nat)

  /** Keys in scan order, no row with the "unassigned" key 0, and no key above `sqlite_sequence`. */
  ghost predicate ValidState<R>(t: TableState<R>, key: R -> int) {
    && Ascending(t.rows, key)
    && forall i :: 0 <= i < |t.rows| ==> key(t.rows[i]) != 0 && key(t.rows[i]) <= t.lastId
  }

  /** `withId` sets the key that `key` reads. */
  ghost predicate SetsKey<R(!new)>(key: R -> int, withId: (R, int) -> R) {
    forall r, n :: key(withId(r, n)) == n
  }

  datatype InsertResult<R> = Inserted(state: TableState<R>) | Conflict

  /**
   * Room's default `@Insert` of an `autoGenerate` entity: key 0 means
   * "unassigned", so the row gets `sqlite_sequence + 1`; any other key is
   * written as given, and one already present aborts with a constraint error.
   */
  function InsertRow<R>(t: TableState<R>, r: R, key: R -> int, withId: (R, int) -> R): InsertResult<R> {
    if key(r) == 0 then
      Inserted(TableState(t.rows + [withId(r, t.lastId + 1)], t.lastId + 1))
    else if HasKey(t.rows, key(r), key) then
      Conflict
    else
      Inserted(TableState(InsertByKey(t.rows, r, key), if key(r) > t.lastId then key(r) else t.lastId))
  }

  lemma InsertRowValid<R(!new)>(t: TableState<R>, r: R, key: R -> int, withId: (R, int) -> R)
    requires ValidState(t, key) && SetsKey(key, withId)
    ensures InsertRow(t, r, key, withId).Inserted? <==> key(r) == 0 || !HasKey(t.rows, key(r), key)
    ensures InsertRow(t, r, key, withId).Inserted? ==> ValidState(InsertRow(t, r, key, withId).state, key)
  {
    if key(r) != 0 && !HasKey(t.rows, key(r), key) {
      InsertByKeyAscending(t.rows, r, key);
      var res := InsertByKey(t.rows, r, key);
      forall i | 0 <= i < |res| ensures key(res[i]) != 0 && key(res[i]) <= InsertRow(t, r, key, withId).state.lastId {
        assert res[i] in multiset(res);
        if res[i] != r {
          var j :| 0 <= j < |t.rows| && t.rows[j] == res[i];
        }
      }
    }
  }

  /** The table after `UPDATE`: the row with `r`'s key, if any, replaced by `r`. */
  function UpdateRow<R>(t: TableState<R>, r: R, key: R -> int): TableState<R> {
    TableState(ReplaceByKey(t.rows, r, key), t.lastId)
  }

  lemma UpdateRowValid<R>(t: TableState<R>, r: R, key: R -> int)
    requires ValidState(t, key)
    ensures ValidState(UpdateRow(t, r, key), key)
  {
  }

  /** The table after `DELETE ... WHERE id = key(r)`. */
  function DeleteRow<R>(t: TableState<R>, r: R, key: R -> int): TableState<R> {
    TableState(RemoveByKey(t.rows, key(r), key), t.lastId)
  }

  lemma DeleteRowValid<R>(t: TableState<R>, r: R, key: R -> int)
    requires ValidState(t, key)
    ensures ValidState(DeleteRow(t, r, key), key)
  {
    RemoveByKeyAscending(t.rows, key(r), key);
  }

  /** `DELETE FROM table`: every row goes; `sqlite_sequence` stays. */
  function ClearRows<R>(t: TableState<R>): TableState<R> {
    TableState([], t.lastId)
  }

  /**
   * A Room DAO's table: the rows, `sqlite_sequence`, and the writes
   * `@Insert`, `@Update`, `@Delete` and `DELETE FROM`.
   */
  class Store<R(!new)> {
    const key: R -> int
    const withId: (R, int) -> R
    var rows: seq<R>
    var lastId: nat

    function State(): TableState<R>
      reads this
    {
      TableState(rows, lastId)
    }

    ghost predicate Valid()
      reads this
    {
      ValidState(State(), key) && SetsKey(key, withId)
    }

    constructor (key: R -> int, withId: (R, int) -> R)
      requires SetsKey(key, withId)
      ensures this.key == key && this.withId == withId
      ensures rows == [] && lastId == 0
      ensures Valid()
    {
      this.key := key;
      this.withId := withId;
      rows := [];
      lastId := 0;
    }

    /**
     * `@Insert`: a row with key 0 gets the next key and goes last; any other
     * key is stored as given unless it is taken, which aborts the statement.
     */
    method Insert(r: R) returns (ok: bool)
      requires Valid()
      modifies this
      ensures Valid()
      ensures ok <==> key(r) == 0 || !HasKey(old(rows), key(r), key)
      ensures ok ==> State() == InsertRow(old(State()), r, key, withId).state
      ensures !ok ==> State() == old(State())
      ensures key(r) == 0 ==> rows == old(rows) + [withId(r, old(lastId) + 1)] && lastId == old(lastId) + 1
      ensures ok && key(r) != 0 ==> multiset(rows) == multiset(old(rows)) + multiset{r}
    {
      InsertRowValid(State(), r, key, withId);
      var res := InsertRow(State(), r, key, withId);
      if res.Inserted? {
        rows, lastId := res.state.rows, res.state.lastId;
        ok := true;
      } else {
        ok := false;
      }
    }

    /** `@Update`: the row whose key is `r`'s becomes `r`; no such row, no change. */
    method Update(r: R)
      requires Valid()
      modifies this
      ensures Valid()
      ensures State() == UpdateRow(old(State()), r, key)
      ensures |rows| == |old(rows)| && lastId == old(lastId)
      ensures forall i :: 0 <= i < |rows| ==> rows[i] == if key(old(rows)[i]) == key(r) then r else old(rows)[i]
    {
      UpdateRowValid(State(), r, key);
      rows := ReplaceByKey(rows, r, key);
    }

    /** `@Delete`: the row whose key is `r`'s goes; every other row stays. */
    method Delete(r: R)
      requires Valid()
      modifies this
      ensures Valid()
      ensures State() == DeleteRow(old(State()), r, key)
      ensures !HasKey(rows, key(r), key) && lastId == old(lastId)
      ensures forall i :: 0 <= i < |old(rows)| && key(old(rows)[i]) != key(r) ==> old(rows)[i] in rows
      ensures forall i :: 0 <= i < |rows| ==> rows[i] in old(rows)
    {
      DeleteRowValid(State(), r, key);
      rows := RemoveByKey(rows, key(r), key);
    }

    /** `DELETE FROM table`: no rows remain and `sqlite_sequence` is kept. */
    method ClearAll()
      requires Valid()
      modifies this
      ensures Valid()
      ensures State() == ClearRows(old(State()))
      ensures rows == [] && lastId == old(lastId)
    {
      rows := [];
    }
  }
}
