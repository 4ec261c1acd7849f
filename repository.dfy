/**
 * `RepairRepository`: the two DAOs behind one object. Its writes pass
 * straight to the DAO they name; `restoreFromBackup` empties the repairs
 * table and inserts a decoded backup list one record at a time.
 */
module Repository {

  import opened Wrappers
  import opened Records
  import opened Table
  import RepairDao

  datatype InsertAllResult<R> = Done(state: TableState<R>) | Stopped(at: nat, state: TableState<R>)

  /**
   * Inserting the rows of `list` in order. The first insert that aborts stops
   * the sequence; the rows inserted before it stay, since nothing rolls them back.
   */
  function InsertAll<R>(t: TableState<R>, list: seq<R>, key: R -> int, withId: (R, int) -> R): (res: InsertAllResult<R>)
    ensures res.Stopped? ==> res.at < |list|
  {
    if list == [] then Done(t)
    else
      var n := |list| - 1;
      match InsertAll(t, list[..n], key, withId)
      case Stopped(at, st) => Stopped(at, st)
      case Done(st) =>
        match InsertRow(st, list[n], key, withId)
        case Conflict => Stopped(n, st)
        case Inserted(next) => Done(next)
  }

  /** Once the inserts have stopped, later rows of the list change nothing. */
  lemma {:induction false} StoppedStays<R>(t: TableState<R>, list: seq<R>, k: nat, key: R -> int, withId: (R, int) -> R)
    requires k <= |list| && InsertAll(t, list[..k], key, withId).Stopped?
    ensures InsertAll(t, list, key, withId) == InsertAll(t, list[..k], key, withId)
    decreases |list| - k
  {
    if k < |list| {
      var n := |list| - 1;
      assert list[..n][..k] == list[..k];
      StoppedStays(t, list[..n], k, key, withId);
    } else {
      assert list[..k] == list;
    }
  }

  /** A stop at position `at` leaves the table as the rows before `at` left it, and the row at `at` is the one refused. */
  lemma {:induction false} StoppedAtConflict<R>(t: TableState<R>, list: seq<R>, key: R -> int, withId: (R, int) -> R)
    requires InsertAll(t, list, key, withId).Stopped?
    ensures var res := InsertAll(t, list, key, withId);
      && InsertAll(t, list[..res.at], key, withId) == Done(res.state)
      && InsertRow(res.state, list[res.at], key, withId).Conflict?
  {
    var n := |list| - 1;
    var res := InsertAll(t, list, key, withId);
    if InsertAll(t, list[..n], key, withId).Stopped? {
      StoppedAtConflict(t, list[..n], key, withId);
      assert list[..n][..res.at] == list[..res.at];
    } else {
      assert res.at == n;
    }
  }

  /** Every non-zero key of the list is present after inserts that all succeeded. */
  lemma {:induction false} InsertedKeysPresent<R>(t: TableState<R>, list: seq<R>, key: R -> int, withId: (R, int) -> R)
    requires InsertAll(t, list, key, withId).Done?
    ensures forall i :: 0 <= i < |list| && key(list[i]) != 0 ==> HasKey(InsertAll(t, list, key, withId).state.rows, key(list[i]), key)
  {
    if list != [] {
      var n := |list| - 1;
      InsertedKeysPresent(t, list[..n], key, withId);
      var st := InsertAll(t, list[..n], key, withId).state;
      var next := InsertAll(t, list, key, withId).state;
      forall i | 0 <= i < |list| && key(list[i]) != 0 ensures HasKey(next.rows, key(list[i]), key) {
        if key(list[n]) == 0 {
          if i < n {
            assert list[..n][i] == list[i];
            var m :| 0 <= m < |st.rows| && key(st.rows[m]) == key(list[i]);
            assert next.rows[m] == st.rows[m];
          }
        } else {
          assert multiset(next.rows) == multiset(st.rows) + multiset{list[n]};
          var x := if i == n then list[n] else (assert list[..n][i] == list[i]; var m :| 0 <= m < |st.rows| && key(st.rows[m]) == key(list[i]); st.rows[m]);
          assert x in multiset(next.rows);
          var m' :| 0 <= m' < |next.rows| && next.rows[m'] == x;
        }
      }
    }
  }

  /** Two rows with the same non-zero key stop the inserts, at the later one or earlier. */
  lemma DuplicateKeyStops<R>(t: TableState<R>, list: seq<R>, i: nat, j: nat, key: R -> int, withId: (R, int) -> R)
    requires i < j < |list| && key(list[i]) == key(list[j]) != 0
    ensures InsertAll(t, list, key, withId).Stopped?
    ensures InsertAll(t, list, key, withId).at <= j
  {
    var pre := list[..j + 1];
    assert pre[..j] == list[..j] && pre[j] == list[j];
    var before := InsertAll(t, list[..j], key, withId);
    if before.Done? {
      InsertedKeysPresent(t, list[..j], key, withId);
      assert list[..j][i] == list[i];
      assert HasKey(before.state.rows, key(list[j]), key);
      assert InsertRow(before.state, pre[j], key, withId).Conflict?;
    }
    assert InsertAll(t, pre, key, withId).Stopped?;
    StoppedStays(t, list, j + 1, key, withId);
  }

  ghost predicate Restorable<R>(list: seq<R>, key: R -> int) {
    && DistinctKeys(list, key)
    && forall i :: 0 <= i < |list| ==> key(list[i]) != 0
  }

  lemma PrefixRestorable<R>(list: seq<R>, n: nat, key: R -> int)
    requires Restorable(list, key) && n <= |list|
    ensures Restorable(list[..n], key)
  {
    var init := list[..n];
    forall a, b | 0 <= a < b < |init| ensures key(init[a]) != key(init[b]) {
      assert init[a] == list[a] && init[b] == list[b];
    }
  }

  /** A table holding exactly the first `n` rows of a list with distinct keys has no row with the key of row `n`. */
  lemma NextKeyAbsent<R>(rows: seq<R>, list: seq<R>, n: nat, key: R -> int)
    requires Restorable(list, key) && n < |list|
    requires multiset(rows) == multiset(list[..n])
    ensures !HasKey(rows, key(list[n]), key)
  {
    forall m | 0 <= m < |rows| ensures key(rows[m]) != key(list[n]) {
      assert rows[m] in multiset(list[..n]);
      var p :| 0 <= p < n && list[..n][p] == rows[m];
      assert list[..n][p] == list[p];
    }
  }

  /**
   * Into an empty table, a list with distinct non-zero keys goes in whole:
   * the table then holds exactly the list's rows, and `sqlite_sequence`
   * stays put when no key exceeds it.
   */
  lemma {:induction false} RestoreDistinct<R(!new)>(t: TableState<R>, list: seq<R>, key: R -> int, withId: (R, int) -> R)
    requires ValidState(t, key) && SetsKey(key, withId) && t.rows == []
    requires Restorable(list, key)
    ensures InsertAll(t, list, key, withId).Done?
    ensures var st := InsertAll(t, list, key, withId).state;
      && ValidState(st, key)
      && multiset(st.rows) == multiset(list)
      && ((forall i :: 0 <= i < |list| ==> key(list[i]) <= t.lastId) ==> st.lastId == t.lastId)
  {
    if list != [] {
      var n := |list| - 1;
      var init := list[..n];
      PrefixRestorable(list, n, key);
      RestoreDistinct(t, init, key, withId);
      var st := InsertAll(t, init, key, withId).state;
      NextKeyAbsent(st.rows, list, n, key);
      assert list == init + [list[n]];
      RestoreStep(t, init, list[n], key, withId);
      if forall i :: 0 <= i < |list| ==> key(list[i]) <= t.lastId {
        assert forall i :: 0 <= i < |init| ==> key(init[i]) <= t.lastId by {
          forall i | 0 <= i < |init| ensures key(init[i]) <= t.lastId { assert init[i] == list[i]; }
        }
        assert key(list[n]) <= t.lastId;
      }
    }
  }

  /** One more row whose non-zero key is absent goes in after inserts that all succeeded. */
  lemma RestoreStep<R(!new)>(t: TableState<R>, init: seq<R>, x: R, key: R -> int, withId: (R, int) -> R)
    requires SetsKey(key, withId) && InsertAll(t, init, key, withId).Done?
    requires ValidState(InsertAll(t, init, key, withId).state, key)
    requires key(x) != 0 && !HasKey(InsertAll(t, init, key, withId).state.rows, key(x), key)
    ensures InsertAll(t, init + [x], key, withId).Done?
    ensures var st := InsertAll(t, init, key, withId).state;
      var next := InsertAll(t, init + [x], key, withId).state;
      && ValidState(next, key)
      && multiset(next.rows) == multiset(st.rows) + multiset{x}
      && next.lastId == (if key(x) > st.lastId then key(x) else st.lastId)
  {
    var st := InsertAll(t, init, key, withId).state;
    assert (init + [x])[..|init|] == init;
    assert (init + [x])[|init|] == x;
    InsertRowValid(st, x, key, withId);
  }

  lemma RepairKeys()
    ensures SetsKey(RepairId, WithRepairId)
  {
  }

  /** Restoring the list the backup query returns leaves the repairs table exactly as it was. */
  lemma RestoreOfBackupIsIdentity(t: TableState<Repair>)
    requires ValidState(t, RepairId)
    ensures InsertAll(ClearRows(t), RepairDao.AllRepairsOrderedByDate(t.rows), RepairId, WithRepairId) == Done(t)
  {
    var list := RepairDao.AllRepairsOrderedByDate(t.rows);
    RepairKeys();
    AscendingDistinct(t.rows, RepairId);
    DistinctKeysPermutation(t.rows, list, RepairId);
    forall i | 0 <= i < |list| ensures RepairId(list[i]) != 0 && RepairId(list[i]) <= t.lastId {
      assert list[i] in multiset(t.rows);
    }
    RestoreDistinct(ClearRows(t), list, RepairId, WithRepairId);
    var st := InsertAll(ClearRows(t), list, RepairId, WithRepairId).state;
    AscendingUnique(st.rows, t.rows, RepairId);
  }

  datatype RestoreOutcome = Restored | Aborted(at: nat)

  class RepairRepository {
    const repairDao: Store<Repair>
    const orderDao: Store<Order>

    ghost predicate Valid()
      reads this, repairDao, orderDao
    {
      && repairDao.Valid() && repairDao.key == RepairId && repairDao.withId == WithRepairId
      && orderDao.Valid() && orderDao.key == OrderId && orderDao.withId == WithOrderId
    }

    constructor (repairDao: Store<Repair>, orderDao: Store<Order>)
      requires repairDao.Valid() && repairDao.key == RepairId && repairDao.withId == WithRepairId
      requires orderDao.Valid() && orderDao.key == OrderId && orderDao.withId == WithOrderId
      ensures this.repairDao == repairDao && this.orderDao == orderDao
      ensures Valid()
    {
      this.repairDao := repairDao;
      this.orderDao := orderDao;
    }

    /** `insert(repair)`; `false` is the constraint error an explicit, taken id raises. */
    method Insert(repair: Repair) returns (ok: bool)
      requires Valid()
      modifies repairDao
      ensures Valid()
      ensures ok <==> repair.id == 0 || !HasKey(old(repairDao.rows), repair.id, RepairId)
      ensures ok ==> repairDao.State() == InsertRow(old(repairDao.State()), repair, RepairId, WithRepairId).state
      ensures !ok ==> repairDao.State() == old(repairDao.State())
    {
      ok := repairDao.Insert(repair);
    }

    method Update(repair: Repair)
      requires Valid()
      modifies repairDao
      ensures Valid()
      ensures repairDao.State() == UpdateRow(old(repairDao.State()), repair, RepairId)
    {
      repairDao.Update(repair);
    }

    method Delete(repair: Repair)
      requires Valid()
      modifies repairDao
      ensures Valid()
      ensures repairDao.State() == DeleteRow(old(repairDao.State()), repair, RepairId)
    {
      repairDao.Delete(repair);
    }

    /** `insertOrder(order)`; `false` is the constraint error an explicit, taken id raises. */
    method InsertOrder(order: Order) returns (ok: bool)
      requires Valid()
      modifies orderDao
      ensures Valid()
      ensures ok <==> order.id == 0 || !HasKey(old(orderDao.rows), order.id, OrderId)
      ensures ok ==> orderDao.State() == InsertRow(old(orderDao.State()), order, OrderId, WithOrderId).state
      ensures !ok ==> orderDao.State() == old(orderDao.State())
    {
      ok := orderDao.Insert(order);
    }

    method UpdateOrder(order: Order)
      requires Valid()
      modifies orderDao
      ensures Valid()
      ensures orderDao.State() == UpdateRow(old(orderDao.State()), order, OrderId)
    {
      orderDao.Update(order);
    }

    method DeleteOrder(order: Order)
      requires Valid()
      modifies orderDao
      ensures Valid()
      ensures orderDao.State() == DeleteRow(old(orderDao.State()), order, OrderId)
    {
      orderDao.Delete(order);
    }

    /**
     * `restoreFromBackup(repairs)`: `clearAll()`, then `insert` for each
     * record in list order. An insert that aborts ends the restore with the
     * rows before it in place. The orders table is never touched.
     */
    method RestoreFromBackup(repairs: seq<Repair>) returns (outcome: RestoreOutcome)
      requires Valid()
      modifies repairDao
      ensures Valid()
      ensures var spec := InsertAll(ClearRows(old(repairDao.State())), repairs, RepairId, WithRepairId);
        && repairDao.State() == spec.state
        && (outcome.Restored? <==> spec.Done?)
        && (outcome.Aborted? ==> outcome.at == spec.at)
      ensures orderDao.State() == old(orderDao.State())
    {
      repairDao.ClearAll();
      ghost var start := repairDao.State();
      var i := 0;
      while i < |repairs|
        invariant 0 <= i <= |repairs|
        invariant Valid()
        invariant InsertAll(start, repairs[..i], RepairId, WithRepairId) == Done(repairDao.State())
        invariant orderDao.State() == old(orderDao.State())
      {
        assert repairs[..i + 1][..i] == repairs[..i];
        var ok := repairDao.Insert(repairs[i]);
        if !ok {
          assert InsertAll(start, repairs[..i + 1], RepairId, WithRepairId) == Stopped(i, repairDao.State());
          StoppedStays(start, repairs, i + 1, RepairId, WithRepairId);
          return Aborted(i);
        }
        i := i + 1;
      }
      assert repairs[..i] == repairs;
      outcome := Restored;
    }
  }
}
