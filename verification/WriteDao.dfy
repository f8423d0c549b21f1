/** The write-side DAO: prepared rows, audit columns, optimistic locks, and the table
    after each statement the adapter sends for it. */
module WriteDao {
  import opened Types
  import opened SqlLogic
  import opened WriteStatements
  import opened WriteLayouts

  // ------------------------------------------------------------------ prepared rows

  const INSERT_EXCLUDED := {"created_at", "updated_at"}

  const UPDATE_EXCLUDED := {"id", "created_at", "updated_at", "inserted_by"}

  function Strip(r: Record, excluded: set<string>): Record {
    if r == [] then [] else Strip(r[..|r| - 1], excluded) + (if r[|r| - 1].0 in excluded then [] else [r[|r| - 1]])
  }

  method StripKeys(row: Record, excluded: set<string>) returns (kept: Record)
    ensures kept == Strip(row, excluded)
  {
    kept := [];
    var i := 0;
    while i < |row|
      invariant 0 <= i <= |row| && kept == Strip(row[..i], excluded)
    {
      assert row[..i + 1][..i] == row[..i];
      if row[i].0 !in excluded {
        kept := kept + [row[i]];
      }
      i := i + 1;
    }
    assert row[..i] == row;
  }

  /** An object with one property set: in its place, or at the end. */
  function Put(r: Record, key: string, v: Value): Record {
    if r == [] then [(key, v)] else if r[0].0 == key then [(key, v)] + r[1..] else [r[0]] + Put(r[1..], key, v)
  }

  function PrepareInsertRow(row: Record, user: Value): Record {
    Put(Put(Strip(row, INSERT_EXCLUDED), "inserted_by", user), "updated_by", user)
  }

  function PrepareUpdateRow(row: Record, user: Value): Record { Put(Strip(row, UPDATE_EXCLUDED), "updated_by", user) }

  function PrepareUpdateRowWithId(row: Record, user: Value): Record {
    Put([("id", Get(row, "id"))] + Strip(row, UPDATE_EXCLUDED), "updated_by", user)
  }

  predicate Has(r: Record, key: string) { exists k :: 0 <= k < |r| && r[k].0 == key }

  lemma {:induction false} PutReads(r: Record, key: string, v: Value, other: string)
    ensures Get(Put(r, key, v), other) == if other == key then v else Get(r, other)
    ensures Has(Put(r, key, v), other) <==> other == key || Has(r, other)
  {
    if r == [] {
      assert Put(r, key, v)[0].0 == key;
    } else if r[0].0 == key {
      var p := Put(r, key, v);
      assert p[1..] == r[1..] && p[0].0 == r[0].0;
      assert forall k :: 1 <= k < |r| ==> p[k] == r[k];
    } else {
      var p := Put(r, key, v);
      PutReads(r[1..], key, v, other);
      assert p[1..] == Put(r[1..], key, v);
      HasSplit(r, other);
      HasSplit(p, other);
    }
  }

  lemma HasSplit(r: Record, key: string)
    requires r != []
    ensures Has(r, key) <==> r[0].0 == key || Has(r[1..], key)
  {
    if Has(r[1..], key) {
      var k :| 0 <= k < |r[1..]| && r[1..][k].0 == key;
      assert r[k + 1].0 == key;
    }
    if Has(r, key) {
      var k :| 0 <= k < |r| && r[k].0 == key;
      if k > 0 { assert r[1..][k - 1].0 == key; }
    }
  }

  lemma {:induction false} HasMore(r: Record, p: (string, Value), key: string)
    ensures Has(r + [p], key) <==> Has(r, key) || p.0 == key
    ensures Get(r + [p], key) == if Has(r, key) then Get(r, key) else if p.0 == key then p.1 else Null
  {
    var s := r + [p];
    if r == [] {
      assert s[0].0 == p.0 && s[1..] == [];
    } else {
      assert s[0] == r[0] && s[1..] == r[1..] + [p];
      HasMore(r[1..], p, key);
      HasSplit(r, key);
      HasSplit(s, key);
    }
  }

  lemma {:induction false} GetAbsent(r: Record, key: string)
    requires !Has(r, key)
    ensures Get(r, key) == Null
  {
    if r != [] {
      HasSplit(r, key);
      GetAbsent(r[1..], key);
    }
  }

  /** Stripping drops the excluded keys and no others. */
  lemma {:induction false} StripReads(r: Record, excluded: set<string>, key: string)
    ensures Has(Strip(r, excluded), key) <==> key !in excluded && Has(r, key)
    ensures Get(Strip(r, excluded), key) == if key in excluded then Null else Get(r, key)
  {
    if r != [] {
      var init, last := r[..|r| - 1], r[|r| - 1];
      assert r == init + [last];
      StripReads(init, excluded, key);
      HasMore(init, last, key);
      HasMore(Strip(init, excluded), last, key);
      if !Has(init, key) { GetAbsent(init, key); GetAbsent(Strip(init, excluded), key); }
      assert Strip(init, excluded) + [] == Strip(init, excluded);
    }
  }

  /** An update never writes the id, the creation columns or the caller's own notion of
      who updated; every other property goes through as it is. */
  lemma UpdateRowReads(row: Record, user: Value, key: string)
    ensures Has(PrepareUpdateRow(row, user), key) <==>
              key == "updated_by"
              || (key !in {"id", "created_at", "updated_at", "inserted_by"} && Has(row, key))
    ensures Get(PrepareUpdateRow(row, user), key)
            == if key == "updated_by" then user
            else if key in {"id", "created_at", "updated_at", "inserted_by"} then Null else Get(row, key)
  {
    StripReads(row, UPDATE_EXCLUDED, key);
    PutReads(Strip(row, UPDATE_EXCLUDED), "updated_by", user, key);
  }

  lemma InsertRowReads(row: Record, user: Value, key: string)
    ensures Has(PrepareInsertRow(row, user), key) <==>
              key == "updated_by" || key == "inserted_by" || (key !in {"created_at", "updated_at"} && Has(row, key))
    ensures Get(PrepareInsertRow(row, user), key)
            == if key == "updated_by" || key == "inserted_by" then user
            else if key in {"created_at", "updated_at"} then Null else Get(row, key)
  {
    StripReads(row, INSERT_EXCLUDED, key);
    PutReads(Strip(row, INSERT_EXCLUDED), "inserted_by", user, key);
    PutReads(Put(Strip(row, INSERT_EXCLUDED), "inserted_by", user), "updated_by", user, key);
  }

  /** With the id in front a row carries the same assignments. */
  lemma WithIdReads(row: Record, user: Value, key: string)
    requires key != "id"
    ensures Has(PrepareUpdateRowWithId(row, user), key) <==> Has(PrepareUpdateRow(row, user), key)
    ensures Get(PrepareUpdateRowWithId(row, user), key) == Get(PrepareUpdateRow(row, user), key)
  {
    var stripped := Strip(row, UPDATE_EXCLUDED);
    var withId := [("id", Get(row, "id"))] + stripped;
    assert withId[1..] == stripped;
    HasSplit(withId, key);
    PutReads(withId, "updated_by", user, key);
    PutReads(stripped, "updated_by", user, key);
  }

  // ---------------------------------------------------------------------- the table

  /** Timestamps in microseconds, as Postgres keeps them. */
  datatype Row = Row(cells: map<string, Value>, createdAt: Time, updatedAt: Time)

  type Table = map<Value, Row>

  /** date_trunc('milliseconds', t) */
  function Ms(t: Time): Time { t - t % 1000 }

  /** The assignments of a record to some columns. */
  function Assigned(cell: CellOf, keys: set<string>, r: Record): map<string, Value> {
    map k | k in keys :: cell(k, Get(r, k))
  }

  function KeySet(r: Record): (ks: set<string>)
    ensures forall k :: k in ks <==> Has(r, k)
  {
    set i | 0 <= i < |r| :: r[i].0
  }

  function Written(cell: CellOf, was: Row, keys: set<string>, r: Record, now: Time): Row {
    Row(was.cells + Assigned(cell, keys, r), was.createdAt, Ms(now))
  }

  /** The row an update or delete by id affects. */
  predicate Matches(t: Table, id: Value, lock: Option<Time>) {
    id in t && (lock.Some? ==> t[id].updatedAt == Ms(lock.value))
  }

  function AfterUpdate(cell: CellOf, t: Table, id: Value, r: Record, lock: Option<Time>, now: Time): Table {
    if Matches(t, id, lock) then t[id := Written(cell, t[id], KeySet(r), r, now)] else t
  }

  function AfterDelete(t: Table, id: Value, lock: Option<Time>): Table { if Matches(t, id, lock) then t - {id} else t }

  /** One row of an INSERT into some columns; its id is a column like any other. */
  function AfterInsert(cell: CellOf, t: Table, keys: set<string>, r: Record, now: Time): Table {
    t[Get(r, "id") := Row(Assigned(cell, keys, r), Ms(now), Ms(now))]
  }

  function InsertEach(cell: CellOf, t: Table, keys: set<string>, rows: seq<Record>, now: Time): Table {
    if rows == [] then t
    else AfterInsert(cell, InsertEach(cell, t, keys, rows[..|rows| - 1], now), keys, rows[|rows| - 1], now)
  }

  /** The columns of an INSERT: those of its first row. */
  function ColumnsOf(rows: seq<Record>): set<string> { if rows == [] then {} else KeySet(rows[0]) }

  /** The primary key admits the rows: no id twice, none already there. */
  predicate IdsFree(t: Table, rows: seq<Record>) {
    && (forall i :: 0 <= i < |rows| ==> Get(rows[i], "id") !in t)
    && forall i, j :: 0 <= i < j < |rows| ==> Get(rows[i], "id") != Get(rows[j], "id")
  }

  /** What a single UPDATE ... FROM (VALUES ...) leaves of one row: with several matches
      it takes one of them, the database does not say which. */
  ghost predicate PickedFor(cell: CellOf, was: Row, keys: set<string>, rows: seq<Record>, id: Value, now: Time,
                            r: Row) {
    if exists i :: 0 <= i < |rows| && Get(rows[i], "id") == id
    then exists i :: 0 <= i < |rows| && Get(rows[i], "id") == id && r == Written(cell, was, keys, rows[i], now)
    else r == was
  }

  ghost predicate BulkOutcome(cell: CellOf, t: Table, keys: set<string>, rows: seq<Record>, now: Time, u: Table) {
    u.Keys == t.Keys && forall id :: id in t ==> PickedFor(cell, t[id], keys, rows, id, now, u[id])
  }
}
