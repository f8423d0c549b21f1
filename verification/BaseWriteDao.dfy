/** The DAO's own methods over a table that statements change in place. */
module BaseWriteDao {
  import opened Types
  import opened SqlLogic
  import opened WriteStatements
  import opened WriteLayouts
  import opened WriteDao
  import opened BulkUpdate
  import opened RowVersions

  datatype Failure = OptimisticLock(id: Value) | UniqueViolation

  datatype Reply = Done | Failed(failure: Failure)

  /** The table behind the write adapter; each method is one statement. */
  class PgWriteDbAdapter {
    const cell: CellOf
    var store: Store

    constructor (cell: CellOf)
      ensures store == EMPTY && this.cell == cell
    {
      this.cell := cell;
      store := EMPTY;
    }

    method Insert(rows: seq<Record>, now: Time) returns (ok: bool)
      modifies this
      ensures ok <==> IdsFree(old(store).table, rows)
      ensures Step(cell, old(store), Write.Insert(rows, now), store)
    {
      ok := IdsFree(store.table, rows);
      if ok {
        var keys := ColumnsOf(rows);
        store := Store(InsertEach(cell, store.table, keys, rows, now), BumpAll(store.versions, IdsIn(rows), now));
      }
    }

    method Update(id: Value, data: Record, lock: Option<Time>, now: Time) returns (rowCount: nat)
      modifies this
      ensures rowCount == if Matches(old(store).table, id, lock) then 1 else 0
      ensures Step(cell, old(store), Write.Update(id, data, lock, now), store)
    {
      rowCount := 0;
      if Matches(store.table, id, lock) {
        store := Store(AfterUpdate(cell, store.table, id, data, lock, now), BumpAll(store.versions, {id}, now));
        rowCount := 1;
      }
    }

    /** Some outcome of the bulk statement; with no column to set nothing is sent. */
    method UpdateMany(rows: seq<Record>, now: Time)
      requires rows != []
      modifies this
      ensures var keys := KeySet(rows[0]) - {"id"};
              if keys == {} then store == old(store) else Step(cell, old(store), Write.Bulk(keys, rows, now), store)
    {
      hide PickedFor, Written, Get, KeySet, BumpAll;
      var keys := KeySet(rows[0]) - {"id"};
      if keys == {} {
        return;
      }
      forall id | id in store.table
        ensures PickedFor(cell, store.table[id], keys, rows[..0], id, now, store.table[id])
      {
        NothingPicked(cell, store.table[id], keys, rows, id, now);
      }
      var t, u, i := store.table, store.table, 0;
      while i < |rows|
        invariant 0 <= i <= |rows| && u.Keys == t.Keys
        invariant forall id :: id in t ==> PickedFor(cell, t[id], keys, rows[..i], id, now, u[id])
      {
        ghost var before := u;
        var id := Get(rows[i], "id");
        if id in t {
          u := u[id := Written(cell, t[id], keys, rows[i], now)];
        }
        forall k | k in t
          ensures PickedFor(cell, t[k], keys, rows[..i + 1], k, now, u[k])
        {
          PickedMore(cell, t[k], keys, rows, i, k, now, before[k], u[k]);
        }
        i := i + 1;
      }
      assert rows[..i] == rows;
      store := Store(u, BumpAll(store.versions, IdsIn(rows) * t.Keys, now));
    }

    method Delete(id: Value, lock: Option<Time>, now: Time) returns (rowCount: nat)
      modifies this
      ensures rowCount == if Matches(old(store).table, id, lock) then 1 else 0
      ensures Step(cell, old(store), if lock.Some? then Write.LockedDelete(id, lock.value, now)
                  else Write.Delete({id}, now), store)
    {
      rowCount := if Matches(store.table, id, lock) then 1 else 0;
      store := Store(AfterDelete(store.table, id, lock), store.versions);
      assert lock.None? ==> old(store).table - {id} == store.table;
    }

    method DeleteAll(ids: set<Value>, now: Time)
      modifies this
      ensures Step(cell, old(store), Write.Delete(ids, now), store)
    {
      store := Store(store.table - ids, store.versions);
    }
  }

  lemma NothingPicked(cell: CellOf, was: Row, keys: set<string>, rows: seq<Record>, id: Value, now: Time)
    ensures PickedFor(cell, was, keys, rows[..0], id, now, was)
  {
  }

  lemma PickedMore(cell: CellOf, was: Row, keys: set<string>, rows: seq<Record>, i: nat, id: Value, now: Time,
                   before: Row, after: Row)
    requires i < |rows| && PickedFor(cell, was, keys, rows[..i], id, now, before)
    requires after == if Get(rows[i], "id") == id then Written(cell, was, keys, rows[i], now) else before
    ensures PickedFor(cell, was, keys, rows[..i + 1], id, now, after)
  {
    hide Written, Get;
    var more := rows[..i + 1];
    assert forall k :: 0 <= k < i ==> more[k] == rows[..i][k];
    if Get(rows[i], "id") == id {
      assert Get(more[i], "id") == id;
    }
  }

  class Dao {
    const adapter: PgWriteDbAdapter
    const user: Value

    constructor (adapter: PgWriteDbAdapter, user: Value)
      ensures this.adapter == adapter && this.user == user
    {
      this.adapter := adapter;
      this.user := user;
    }

    method CreateMany(rows: seq<Record>, now: Time) returns (r: Reply)
      modifies adapter
      ensures rows == [] ==> r.Done? && adapter.store == old(adapter.store)
      ensures rows != [] ==>
                var prepared := seq(|rows|, i requires 0 <= i < |rows| => PrepareInsertRow(rows[i], user));
                && (r.Done? <==> IdsFree(old(adapter.store).table, prepared))
                && Step(adapter.cell, old(adapter.store), Write.Insert(prepared, now), adapter.store)
    {
      if rows == [] {
        return Done;
      }
      var prepared := seq(|rows|, i requires 0 <= i < |rows| => PrepareInsertRow(rows[i], user));
      var ok := adapter.Insert(prepared, now);
      return if ok then Done else Failed(UniqueViolation);
    }

    /** Fails, and then changes nothing, exactly when a version is expected and the row
        does not have it; an unlocked update of a missing row is silent. */
    method Update(row: Record, expected: Option<Time>, now: Time) returns (r: Reply)
      modifies adapter
      ensures r == if expected.Some? && !Matches(old(adapter.store).table, Get(row, "id"), expected)
                   then Failed(OptimisticLock(Get(row, "id"))) else Done
      ensures r.Failed? ==> adapter.store == old(adapter.store)
      ensures Step(adapter.cell, old(adapter.store),
                   Write.Update(Get(row, "id"), PrepareUpdateRow(row, user), expected, now), adapter.store)
    {
      var id := Get(row, "id");
      var rowCount := adapter.Update(id, PrepareUpdateRow(row, user), expected, now);
      return if expected.Some? && rowCount == 0 then Failed(OptimisticLock(id)) else Done;
    }

    /** Its outcome is one of those BulkRefinesLoopIff and BulkMatchesLoopIff speak of. */
    method UpdateMany(rows: seq<Record>, now: Time)
      modifies adapter
      ensures if rows == [] then adapter.store == old(adapter.store)
              else Outcome(adapter.cell, old(adapter.store).table, rows, user, now, adapter.store.table)
    {
      if rows == [] {
        return;
      }
      UpdatedBySet(rows, user);
      adapter.UpdateMany(BulkRows(rows, user), now);
    }

    method Delete(id: Value, expected: Option<Time>, now: Time) returns (r: Reply)
      modifies adapter
      ensures r == if expected.Some? && !Matches(old(adapter.store).table, id, expected) then
                Failed(OptimisticLock(id)) else Done
      ensures r.Failed? ==> adapter.store == old(adapter.store)
      ensures adapter.store.table == AfterDelete(old(adapter.store).table, id, expected)
    {
      var rowCount := adapter.Delete(id, expected, now);
      return if expected.Some? && rowCount == 0 then Failed(OptimisticLock(id)) else Done;
    }

    method DeleteMany(ids: seq<Value>, now: Time)
      modifies adapter
      ensures adapter.store.table == old(adapter.store).table - (set id | id in ids)
    {
      if ids == [] {
        return;
      }
      adapter.DeleteAll((set id | id in ids), now);
    }
  }

  lemma UpdatedBySet(rows: seq<Record>, user: Value)
    requires rows != []
    ensures "updated_by" in BulkKeys(rows, user)
  {
    WithIdReads(rows[0], user, "updated_by");
    UpdateRowReads(rows[0], user, "updated_by");
  }
}
