/** The write adapter's statements run on their parameters: the table they leave is the
    one the DAO relies on. */
module WriteEffects {
  import opened Types
  import opened SqlLogic
  import opened WriteStatements
  import opened WriteLayouts
  import opened WriteTexts
  import opened StatementReading
  import opened WriteReading
  import opened WriteReadBack
  import opened WriteDao
  import BulkUpdate

  // --------------------------------------------------------------- running a statement

  /** The n-th parameter. */
  function Given(ps: seq<Value>, n: nat): Value { if 1 <= n <= |ps| then ps[n - 1] else Null }

  /** What a row of a VALUES list has under a column name. */
  function Held(columns: seq<string>, row: seq<Source>, name: string): Source {
    if columns == [] || row == [] then Unclear
    else if columns[0] == name then row[0]
    else Held(columns[1..], row[1..], name)
  }

  function ValueIn(ps: seq<Value>, src: Source): Value { if src.Bound? then Given(ps, src.n) else Null }

  /** A row after the assignments, with the data row it was joined with. */
  function Assign(sets: seq<(string, Source)>, columns: seq<string>, row: seq<Source>, ps: seq<Value>, was: Row,
                  now: Time): Row {
    if sets == [] then was
    else
      var r, last := Assign(sets[..|sets| - 1], columns, row, ps, was, now), sets[|sets| - 1];
      match last.1
      case FromData(c) => r.(cells := r.cells[last.0 := ValueIn(ps, Held(columns, row, c))])
      case Bound(n) => r.(cells := r.cells[last.0 := Given(ps, n)])
      case Now => if last.0 == "updated_at" then r.(updatedAt := Ms(now)) else r
      case Unclear => r
  }

  /** The data row is joined with the table's row of this id. */
  predicate Joins(s: Statement, ps: seq<Value>, i: int, id: Value)
    requires s.UpdateFrom?
  {
    0 <= i < |s.rows| && s.on == JOIN && Equal3(id, ValueIn(ps, Held(s.columns, s.rows[i], "id"))) == True
  }

  ghost predicate RowRun(s: Statement, ps: seq<Value>, was: Row, id: Value, now: Time, r: Row)
    requires s.UpdateFrom?
  {
    if exists i :: Joins(s, ps, i, id)
    then exists i :: Joins(s, ps, i, id) && r == Assign(s.sets, s.columns, s.rows[i], ps, was, now)
    else r == was
  }

  /** What an UPDATE ... FROM (VALUES ...) may leave: each row takes the assignments of
      some data row it joins with. */
  ghost predicate BulkRun(s: Statement, ps: seq<Value>, t: Table, now: Time, u: Table) {
    s.UpdateFrom? && u.Keys == t.Keys && forall id :: id in t ==> RowRun(s, ps, t[id], id, now, u[id])
  }

  predicate DistinctNames(keys: seq<string>) { forall i, j :: 0 <= i < j < |keys| ==> keys[i] != keys[j] }

  function NameSet(keys: seq<string>): set<string> { set k | k in keys }

  // ------------------------------------------------------------------- reading values

  lemma {:induction false} HeldAt(columns: seq<string>, row: seq<Source>, j: nat)
    requires DistinctNames(columns) && j < |columns| && |columns| <= |row|
    ensures Held(columns, row, columns[j]) == row[j]
  {
    if j > 0 {
      assert columns[1..][j - 1] == columns[j] && row[1..][j - 1] == row[j];
      assert columns[0] != columns[j];
      HeldAt(columns[1..], row[1..], j - 1);
    }
  }

  /** Parameter i * w + j + 1 is what the adapter stores for key j of row i. */
  lemma GivenAt(cell: CellOf, keys: seq<string>, rows: seq<Record>, i: nat, j: nat)
    requires i < |rows| && j < |keys|
    ensures Given(AllValues(cell, keys, rows), Times(i, |keys|) + j + 1) == cell(keys[j], Get(rows[i], keys[j]))
  {
    hide AllValues, Times, Get;
    var all, from := AllValues(cell, keys, rows), Times(i, |keys|);
    ValuesOfRow(cell, keys, rows, i);
    assert all[from + j] == all[from..from + |keys|][j];
  }

  /** A row of the VALUES list holds the record's values under the keys. */
  ghost predicate HasValues(columns: seq<string>, row: seq<Source>, ps: seq<Value>, cell: CellOf, keys: seq<string>,
                        r: Record) {
    forall j :: 0 <= j < |keys| ==> ValueIn(ps, Held(columns, row, keys[j])) == cell(keys[j], Get(r, keys[j]))
  }

  lemma RowHolds(columns: seq<string>, rows: seq<seq<Source>>, cell: CellOf, keys: seq<string>, records: seq<Record>,
                 stamps: nat, i: nat)
    requires RowsAre(rows, |records|, |keys|, stamps) && i < |records|
    requires DistinctNames(columns) && keys <= columns && |columns| == |keys| + stamps
    ensures HasValues(columns, rows[i], AllValues(cell, keys, records), cell, keys, records[i])
  {
    hide AllValues, Times, Get, DistinctNames;
    assert RowOf(rows[i], Times(i, |keys|), |keys|, stamps);
    forall j | 0 <= j < |keys|
      ensures ValueIn(AllValues(cell, keys, records), Held(columns, rows[i], keys[j]))
              == cell(keys[j], Get(records[i], keys[j]))
    {
      HeldAt(columns, rows[i], j);
      GivenAt(cell, keys, records, i, j);
    }
  }

  // ----------------------------------------------------------------------- assignments

  lemma OneMoreAssigned(cells: map<string, Value>, cell: CellOf, init: seq<string>, last: string, r: Record)
    ensures cells + Assigned(cell, NameSet(init + [last]), r)
            == (cells + Assigned(cell, NameSet(init), r))[last := cell(last, Get(r, last))]
  {
    assert NameSet(init + [last]) == NameSet(init) + {last};
  }

  lemma NoneAssigned(cells: map<string, Value>, cell: CellOf, r: Record)
    ensures cells + Assigned(cell, NameSet([]), r) == cells
  {
  }

  /** One more data column or parameter assigned. */
  lemma AssignMore(sets: seq<(string, Source)>, k: string, src: Source, columns: seq<string>, row: seq<Source>,
                   ps: seq<Value>, was: Row, now: Time)
    requires src.FromData? || src.Bound?
    ensures var r := Assign(sets, columns, row, ps, was, now);
            Assign(sets + [(k, src)], columns, row, ps, was, now)
            == r.(cells := r.cells[k := ValueIn(ps, if src.FromData? then Held(columns, row, src.column) else src)])
  {
    var all := sets + [(k, src)];
    assert all[..|all| - 1] == sets && all[|all| - 1] == (k, src);
  }

  lemma {:induction false} DataAssigns(keys: seq<string>, columns: seq<string>, row: seq<Source>, ps: seq<Value>,
                                       cell: CellOf, r: Record, was: Row, now: Time)
    requires HasValues(columns, row, ps, cell, keys, r)
    ensures Assign(DataSources(keys), columns, row, ps, was, now)
            == was.(cells := was.cells + Assigned(cell, NameSet(keys), r))
  {
    hide Assigned, NameSet, Get, ValueIn, Held;
    if keys == [] {
      NoneAssigned(was.cells, cell, r);
    } else {
      var init, last := keys[..|keys| - 1], keys[|keys| - 1];
      DataAssigns(init, columns, row, ps, cell, r, was, now);
      assert keys == init + [last] && DataSources(keys) == DataSources(init) + [(last, FromData(last))];
      AssignMore(DataSources(init), last, FromData(last), columns, row, ps, was, now);
      OneMoreAssigned(was.cells, cell, init, last, r);
    }
  }

  lemma ThenStamp(sets: seq<(string, Source)>, columns: seq<string>, row: seq<Source>, ps: seq<Value>,
                  was: Row, now: Time)
    ensures Assign(sets + [("updated_at", Now)], columns, row, ps, was, now)
            == Assign(sets, columns, row, ps, was, now).(updatedAt := Ms(now))
  {
    var all := sets + [("updated_at", Now)];
    assert all[..|all| - 1] == sets && all[|all| - 1] == ("updated_at", Now);
  }

  /** The bulk statement's assignments, with a data row, are what the model calls Written. */
  lemma DataWrites(keys: seq<string>, columns: seq<string>, row: seq<Source>, ps: seq<Value>, cell: CellOf, r: Record,
                   was: Row, now: Time)
    requires HasValues(columns, row, ps, cell, keys, r)
    ensures Assign(DataSources(keys) + [("updated_at", Now)], columns, row, ps, was, now)
            == Written(cell, was, NameSet(keys), r, now)
  {
    ThenStamp(DataSources(keys), columns, row, ps, was, now);
    DataAssigns(keys, columns, row, ps, cell, r, was, now);
  }

  // -------------------------------------------------------------------- the bulk update

  lemma IdIsLast(keys: seq<string>)
    requires DistinctNames(keys) && "id" !in keys
    ensures DistinctNames(keys + ["id"])
  {
  }

  /** Row i of the statement: what it is joined on and what it assigns. */
  lemma BulkRow(s: Statement, cell: CellOf, keys: seq<string>, records: seq<Record>, i: nat, was: Row,
                id: Value, now: Time)
    requires DistinctNames(keys) && "id" !in keys && i < |records| && !id.Null?
    requires s.UpdateFrom? && s.sets == DataSources(keys) + [("updated_at", Now)] && s.columns == keys + ["id"]
    requires s.on == JOIN && RowsAre(s.rows, |records|, |keys| + 1, 0)
    ensures var ps := AllValues(IdRaw(cell), keys + ["id"], records);
            && (Joins(s, ps, i, id) <==> Get(records[i], "id") == id)
            && Assign(s.sets, s.columns, s.rows[i], ps, was, now)
               == Written(cell, was, NameSet(keys), records[i], now)
  {
    hide AllValues, Times, Get, DistinctNames, Assign, Written, RowsAre;
    var all := keys + ["id"];
    var ps := AllValues(IdRaw(cell), all, records);
    IdIsLast(keys);
    RowHolds(all, s.rows, IdRaw(cell), all, records, 0, i);
    RowCount(s.rows, |records|, |all|, 0);
    assert all[|keys|] == "id";
    assert ValueIn(ps, Held(all, s.rows[i], "id")) == Get(records[i], "id");
    assert HasValues(all, s.rows[i], ps, cell, keys, records[i]) by {
      forall j | 0 <= j < |keys|
        ensures ValueIn(ps, Held(all, s.rows[i], keys[j])) == cell(keys[j], Get(records[i], keys[j]))
      {
        assert all[j] == keys[j] && keys[j] != "id";
      }
    }
    DataWrites(keys, all, s.rows[i], ps, cell, records[i], was, now);
  }

  lemma RowCount(rows: seq<seq<Source>>, count: nat, width: nat, stamps: nat)
    requires RowsAre(rows, count, width, stamps)
    ensures |rows| == count
  {
  }

  lemma RowRunIs(s: Statement, cell: CellOf, keys: seq<string>, records: seq<Record>, was: Row, id: Value,
                 now: Time, r: Row)
    requires DistinctNames(keys) && "id" !in keys && !id.Null?
    requires s.UpdateFrom? && s.sets == DataSources(keys) + [("updated_at", Now)] && s.columns == keys + ["id"]
    requires s.on == JOIN && RowsAre(s.rows, |records|, |keys| + 1, 0)
    ensures RowRun(s, AllValues(IdRaw(cell), keys + ["id"], records), was, id, now, r)
            <==> PickedFor(cell, was, NameSet(keys), records, id, now, r)
  {
    hide AllValues, Get, DistinctNames, Assign, Written, Held, RowOf;
    var ps := AllValues(IdRaw(cell), keys + ["id"], records);
    forall i | 0 <= i < |records|
      ensures Joins(s, ps, i, id) <==> Get(records[i], "id") == id
      ensures i < |s.rows| && Assign(s.sets, s.columns, s.rows[i], ps, was, now)
              == Written(cell, was, NameSet(keys), records[i], now)
    {
      BulkRow(s, cell, keys, records, i, was, id, now);
    }
  }

  /** The emitted bulk statement, read back from its text and run on its parameters, can
      leave exactly the tables the model of updateMany allows. */
  lemma BulkRunIs(table: string, cat: Catalog, keys: seq<string>, records: seq<Record>, t: Table, now: Time, u: Table)
    requires IsName(table) && AllNames(keys) && DistinctNames(keys) && "id" !in keys && records != [] && Null !in t
    ensures var text := UpdateManyText(table, keys, Groups(CastsOf(cat), keys + ["id"], |records|, ")"));
            var ps := AllValues(IdRaw(CellsOf(cat)), keys + ["id"], records);
            BulkRun(ReadUpdateFrom(Lex(text)), ps, t, now, u)
            <==> BulkOutcome(CellsOf(cat), t, NameSet(keys), records, now, u)
  {
    hide Lex, Groups, CastsOf, AllValues, RowRun, PickedFor, ReadUpdateFrom, UpdateManyText, IsName, DistinctNames,
         DataSources, NameSet, RowsAre, CellsOf, IdRaw;
    UpdateManyReads(table, cat, keys, |records|);
    var s := ReadUpdateFrom(Lex(UpdateManyText(table, keys, Groups(CastsOf(cat), keys + ["id"], |records|, ")"))));
    if u.Keys == t.Keys {
      forall id | id in t
        ensures RowRun(s, AllValues(IdRaw(CellsOf(cat)), keys + ["id"], records), t[id], id, now, u[id])
                <==> PickedFor(CellsOf(cat), t[id], NameSet(keys), records, id, now, u[id])
      {
        RowRunIs(s, CellsOf(cat), keys, records, t[id], id, now, u[id]);
      }
    }
  }

  // ------------------------------------------------------------------- prepared rows

  /** An object's keys: no name twice. */
  predicate IsObject(r: Record) { forall i, j :: 0 <= i < j < |r| ==> r[i].0 != r[j].0 }

  lemma {:induction false} StripIsObject(r: Record, excluded: set<string>)
    requires IsObject(r)
    ensures IsObject(Strip(r, excluded)) && forall p :: p in Strip(r, excluded) ==> p in r && p.0 !in excluded
  {
    if r != [] {
      var init := r[..|r| - 1];
      assert forall p :: p in init ==> p in r && p.0 != r[|r| - 1].0;
      StripIsObject(init, excluded);
    }
  }

  lemma {:induction false} PutEntries(r: Record, key: string, v: Value, p: (string, Value))
    requires p in Put(r, key, v)
    ensures p == (key, v) || p in r
  {
    if r != [] && r[0].0 != key && p != r[0] { PutEntries(r[1..], key, v, p); }
  }

  lemma {:induction false} PutIsObject(r: Record, key: string, v: Value)
    requires IsObject(r)
    ensures IsObject(Put(r, key, v)) && (r != [] ==> Put(r, key, v)[0].0 == r[0].0)
  {
    if r != [] && r[0].0 != key {
      var rest := Put(r[1..], key, v);
      PutIsObject(r[1..], key, v);
      forall j | 0 <= j < |rest|
        ensures rest[j].0 != r[0].0
      {
        PutEntries(r[1..], key, v, rest[j]);
      }
    }
  }

  lemma BulkRowIsObject(row: Record, user: Value)
    requires IsObject(row)
    ensures var p := PrepareUpdateRowWithId(row, user);
            IsObject(p) && forall e :: e in p ==> e.0 in {"id", "updated_by"} || e in row
  {
    StripIsObject(row, UPDATE_EXCLUDED);
    var stripped := Strip(row, UPDATE_EXCLUDED);
    assert forall p :: p in stripped ==> p.0 != "id";
    var withId := [("id", Get(row, "id"))] + stripped;
    PutIsObject(withId, "updated_by", user);
    forall e | e in Put(withId, "updated_by", user)
      ensures e.0 in {"id", "updated_by"} || e in row
    {
      PutEntries(withId, "updated_by", user, e);
    }
  }

  lemma {:induction false} WithoutIdDistinct(keys: seq<string>)
    requires DistinctNames(keys)
    ensures DistinctNames(WithoutId(keys))
  {
    if keys != [] {
      var init := keys[..|keys| - 1];
      WithoutIdDistinct(init);
      var some, last := WithoutId(init), keys[|keys| - 1];
      forall i | 0 <= i < |some|
        ensures some[i] != last
      {
        assert some[i] in some && some[i] in init;
      }
      assert some + [] == some;
    }
  }

  lemma KeysAreSet(r: Record)
    ensures NameSet(WithoutId(KeysOf(r))) == KeySet(r) - {"id"}
  {
    forall k
      ensures k in KeysOf(r) <==> k in KeySet(r)
    {
      if k in KeySet(r) {
        var i :| 0 <= i < |r| && r[i].0 == k;
        assert KeysOf(r)[i] == k;
      }
    }
  }

  lemma KeysOfBulk(row: Record, user: Value)
    requires IsObject(row) && AllNames(KeysOf(row))
    ensures var keys := WithoutId(KeysOf(PrepareUpdateRowWithId(row, user)));
            DistinctNames(keys) && AllNames(keys) && NameSet(keys) == KeySet(PrepareUpdateRowWithId(row, user)) - {"id"}
  {
    hide IsName, Get, NameSet, KeySet;
    var p := PrepareUpdateRowWithId(row, user);
    BulkRowIsObject(row, user);
    WithoutIdDistinct(KeysOf(p));
    KeysAreSet(p);
    AuditNames();
    forall k | k in KeysOf(p)
      ensures IsName(k)
    {
      var i :| 0 <= i < |p| && p[i].0 == k;
      assert p[i] in p;
      if p[i] in row {
        var j :| 0 <= j < |row| && row[j] == p[i];
        assert KeysOf(row)[j] in KeysOf(row);
      }
    }
  }

  lemma AuditNames()
    ensures IsName("updated_by") && IsName("id")
  {
    assert |Upper("updated_by")| == 10;
    IdIsName();
  }

  /** The DAO's updateMany, whole: for the rows as the caller gave them, the tables the
      emitted statement may leave are exactly the outcomes the bulk-update results speak of. */
  lemma UpdateManyRuns(table: string, cat: Catalog, rows: seq<Record>, user: Value, t: Table, now: Time, u: Table)
    requires IsName(table) && rows != [] && IsObject(rows[0]) && AllNames(KeysOf(rows[0])) && Null !in t
    ensures var bulk := BulkUpdate.BulkRows(rows, user);
            var keys := WithoutId(KeysOf(bulk[0]));
            var text := UpdateManyText(table, keys, Groups(CastsOf(cat), keys + ["id"], |rows|, ")"));
            BulkRun(ReadUpdateFrom(Lex(text)), AllValues(IdRaw(CellsOf(cat)), keys + ["id"], bulk), t, now, u)
            <==> BulkUpdate.Outcome(CellsOf(cat), t, rows, user, now, u)
  {
    hide Lex, Groups, CastsOf, AllValues, BulkRun, BulkOutcome, ReadUpdateFrom, UpdateManyText, IsName, DistinctNames,
         CellsOf, IdRaw, WithoutId, KeySet, PrepareUpdateRowWithId;
    var bulk := BulkUpdate.BulkRows(rows, user);
    KeysOfBulk(rows[0], user);
    BulkRunIs(table, cat, WithoutId(KeysOf(bulk[0])), bulk, t, now, u);
  }

  // ----------------------------------------------------------------- insert and update

  function Stamp(columns: seq<string>, row: seq<Source>, name: string, now: Time): Time {
    if Held(columns, row, name) == Now then Ms(now) else 0
  }

  /** The row an INSERT makes of one group of values. */
  function NewRow(columns: seq<string>, row: seq<Source>, ps: seq<Value>, now: Time): Row {
    Row(map k | k in columns && Held(columns, row, k).Bound? :: ValueIn(ps, Held(columns, row, k)),
                 Stamp(columns, row, "created_at", now), Stamp(columns, row, "updated_at", now))
  }

  function InsertRun(columns: seq<string>, rows: seq<seq<Source>>, ps: seq<Value>, t: Table, now: Time): Table {
    if rows == [] then t
    else
      var last := rows[|rows| - 1];
      InsertRun(columns, rows[..|rows| - 1], ps, t, now)
      [ValueIn(ps, Held(columns, last, "id")) := NewRow(columns, last, ps, now)]
  }

  const STAMP_COLUMNS := ["created_at", "updated_at"]

  lemma NewRowIs(rows: seq<seq<Source>>, cell: CellOf, keys: seq<string>, records: seq<Record>, i: nat, now: Time)
    requires RowsAre(rows, |records|, |keys|, STAMPS) && i < |records| && DistinctNames(keys + STAMP_COLUMNS)
    ensures var columns, ps := keys + STAMP_COLUMNS, AllValues(cell, keys, records);
            && i < |rows| && HasValues(columns, rows[i], ps, cell, keys, records[i])
            && NewRow(columns, rows[i], ps, now)
               == Row(Assigned(cell, NameSet(keys), records[i]), Ms(now), Ms(now))
  {
    hide AllValues, Times, Get, DistinctNames, Held;
    var columns, ps := keys + STAMP_COLUMNS, AllValues(cell, keys, records);
    var row := rows[i];
    RowHolds(columns, rows, cell, keys, records, STAMPS, i);
    assert RowOf(row, Times(i, |keys|), |keys|, STAMPS);
    forall j | 0 <= j < |columns|
      ensures Held(columns, row, columns[j]) == row[j]
    {
      HeldAt(columns, row, j);
    }
    assert columns[|keys|] == "created_at" && columns[|keys| + 1] == "updated_at";
    NewCells(columns, row, ps, cell, keys, records[i]);
  }

  lemma NewCells(columns: seq<string>, row: seq<Source>, ps: seq<Value>, cell: CellOf, keys: seq<string>, r: Record)
    requires keys <= columns && |columns| == |row| && HasValues(columns, row, ps, cell, keys, r)
    requires forall j :: 0 <= j < |columns| ==> Held(columns, row, columns[j]) == row[j]
    requires forall j :: 0 <= j < |columns| ==> (row[j].Bound? <==> j < |keys|)
    ensures (map k | k in columns && Held(columns, row, k).Bound? :: ValueIn(ps, Held(columns, row, k)))
            == Assigned(cell, NameSet(keys), r)
  {
    hide Get, Held;
    var cells := map k | k in columns && Held(columns, row, k).Bound? :: ValueIn(ps, Held(columns, row, k));
    forall k
      ensures k in cells <==> k in keys
      ensures k in keys ==> cells[k] == cell(k, Get(r, k))
    {
      if k in columns && Held(columns, row, k).Bound? {
        var j :| 0 <= j < |columns| && columns[j] == k;
        assert row[j].Bound? && keys[j] == k;
      }
      if k in keys {
        var j :| 0 <= j < |keys| && keys[j] == k;
        assert columns[j] == k && row[j].Bound?;
      }
    }
  }

  /** The id column takes its parameters as they are: it holds no JSON. */
  predicate PlainId(cat: Catalog) {
    cat.typeOf("id").Some? ==> Upper(cat.typeOf("id").value) != "JSON" && Upper(cat.typeOf("id").value) != "JSONB"
  }

  lemma {:induction false} InsertRunIs(rows: seq<seq<Source>>, cell: CellOf, keys: seq<string>, records: seq<Record>,
                                       t: Table, now: Time, m: nat)
    requires RowsAre(rows, |records|, |keys|, STAMPS) && m <= |records| && DistinctNames(keys + STAMP_COLUMNS)
    requires "id" in keys && forall v :: cell("id", v) == v
    ensures |rows| == |records|
    ensures InsertRun(keys + STAMP_COLUMNS, rows[..m], AllValues(cell, keys, records), t, now)
            == InsertEach(cell, t, NameSet(keys), records[..m], now)
  {
    hide AllValues, Get, DistinctNames, Held, NewRow, Assigned, NameSet, RowOf;
    if m > 0 {
      var columns, ps := keys + STAMP_COLUMNS, AllValues(cell, keys, records);
      InsertRunIs(rows, cell, keys, records, t, now, m - 1);
      NewRowIs(rows, cell, keys, records, m - 1, now);
      assert rows[..m][..m - 1] == rows[..m - 1] && records[..m][..m - 1] == records[..m - 1];
      var j :| 0 <= j < |keys| && keys[j] == "id";
      assert ValueIn(ps, Held(columns, rows[m - 1], keys[j])) == cell(keys[j], Get(records[m - 1], keys[j]));
    }
  }

  /** The emitted insert, read back from its text and run on its parameters, leaves the
      table the model of insert describes. */
  lemma InsertRuns(table: string, cat: Catalog, records: seq<Record>, returning: seq<string>, t: Table, now: Time)
    requires IsName(table) && records != [] && PlainId(cat)
    requires var keys := KeysOf(records[0]); AllNames(keys) && DistinctNames(keys + STAMP_COLUMNS) && "id" in keys
    ensures var keys := KeysOf(records[0]);
            var text := InsertText(table, keys, Groups(CastsOf(cat), keys, |records|, STAMPED),
                                   ReturningText(returning));
            var s := ReadInsert(Lex(text));
            s.InsertInto? && InsertRun(s.columns, s.rows, AllValues(CellsOf(cat), keys, records), t, now)
                             == InsertEach(CellsOf(cat), t, ColumnsOf(records), records, now)
  {
    hide Lex, Groups, CastsOf, AllValues, ReadInsert, InsertText, IsName, DistinctNames, NameSet, RowsAre,
         ReturningText, InsertEach, InsertRun, KeySet;
    var keys := KeysOf(records[0]);
    InsertReads(table, cat, keys, |records|, returning);
    var s := ReadInsert(Lex(InsertText(table, keys, Groups(CastsOf(cat), keys, |records|, STAMPED),
                                       ReturningText(returning))));
    InsertRunIs(s.rows, CellsOf(cat), keys, records, t, now, |records|);
    assert s.rows[..|records|] == s.rows && records[..|records|] == records;
    ColumnsAre(records[0]);
  }

  lemma ColumnsAre(r: Record)
    ensures NameSet(KeysOf(r)) == KeySet(r)
  {
    forall k
      ensures k in KeysOf(r) <==> k in KeySet(r)
    {
      if k in KeySet(r) {
        var i :| 0 <= i < |r| && r[i].0 == k;
        assert KeysOf(r)[i] == k;
      }
    }
  }

  lemma {:induction false} BoundAssigns(cell: CellOf, keys: seq<string>, r: Record, ps: seq<Value>, was: Row,
                                        now: Time)
    requires Cells(cell, keys, r) <= ps
    ensures Assign(BoundSources(keys), [], [], ps, was, now)
            == was.(cells := was.cells + Assigned(cell, NameSet(keys), r))
  {
    hide Assigned, NameSet, Get;
    if keys == [] {
      NoneAssigned(was.cells, cell, r);
    } else {
      var init, last := keys[..|keys| - 1], keys[|keys| - 1];
      assert forall j :: 0 <= j < |init| ==> Cells(cell, init, r)[j] == Cells(cell, keys, r)[j];
      BoundAssigns(cell, init, r, ps, was, now);
      assert keys == init + [last] && BoundSources(keys) == BoundSources(init) + [(last, Bound(|keys|))];
      AssignMore(BoundSources(init), last, Bound(|keys|), [], [], ps, was, now);
      assert Given(ps, |keys|) == Cells(cell, keys, r)[|keys| - 1];
      OneMoreAssigned(was.cells, cell, init, last, r);
    }
  }

  /** The emitted update assigns to a row what the model of update writes, whatever is
      pushed after the values of its SET list. */
  lemma UpdateRuns(table: string, cat: Catalog, data: Record, more: seq<Value>, w: string, lock: string,
                   returning: string, was: Row, now: Time)
    requires IsName(table) && AllNames(KeysOf(data))
    ensures var keys := KeysOf(data);
            var s := ReadUpdate(Lex(UpdateText(table, SetList(CastsOf(cat), keys), w, lock, returning)));
            && s.UpdateSet? && s.where == Lex(w + (lock + returning))
            && Assign(s.sets, [], [], Cells(CellsOf(cat), keys, data) + more, was, now)
               == Written(CellsOf(cat), was, KeySet(data), data, now)
  {
    hide Lex, CastsOf, ReadUpdate, UpdateText, SetList, IsName, NameSet, KeySet, Assigned, Assign, BoundSources, Get;
    var keys := KeysOf(data);
    var ps := Cells(CellsOf(cat), keys, data) + more;
    UpdateReads(table, cat, keys, w, lock, returning);
    ThenStamp(BoundSources(keys), [], [], ps, was, now);
    BoundAssigns(CellsOf(cat), keys, data, ps, was, now);
    ColumnsAre(data);
  }
}
