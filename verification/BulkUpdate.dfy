/** The one-statement bulk update against the row-by-row loop it stands for. */
module BulkUpdate {
  import opened Types
  import opened SqlLogic
  import opened WriteStatements
  import opened WriteLayouts
  import opened WriteDao

  function IdOf(r: Record): Value { Get(r, "id") }

  /** The rows written one after the other in one transaction, without locks. */
  function UpdateEach(cell: CellOf, t: Table, rows: seq<Record>, user: Value, now: Time): Table {
    if rows == [] then t
    else
      var last := rows[|rows| - 1];
      AfterUpdate(cell, UpdateEach(cell, t, rows[..|rows| - 1], user, now), IdOf(last), PrepareUpdateRow(last, user),
                  None, now)
  }

  /** The columns of the bulk statement: those of its first row. */
  function BulkKeys(rows: seq<Record>, user: Value): set<string>
    requires rows != []
  {
    KeySet(PrepareUpdateRowWithId(rows[0], user)) - {"id"}
  }

  function BulkRows(rows: seq<Record>, user: Value): (r: seq<Record>)
    ensures |r| == |rows| && forall i :: 0 <= i < |r| ==> r[i] == PrepareUpdateRowWithId(rows[i], user)
  {
    seq(|rows|, i requires 0 <= i < |rows| => PrepareUpdateRowWithId(rows[i], user))
  }

  /** What row i says about a column, as stored. */
  function Says(cell: CellOf, row: Record, user: Value, key: string): Value {
    cell(key, Get(PrepareUpdateRow(row, user), key))
  }

  function OwnKeys(row: Record, user: Value): set<string> { KeySet(PrepareUpdateRow(row, user)) }

  lemma BulkIdOf(row: Record, user: Value)
    ensures IdOf(PrepareUpdateRowWithId(row, user)) == IdOf(row)
  {
    var stripped := Strip(row, UPDATE_EXCLUDED);
    PutReads([("id", Get(row, "id"))] + stripped, "updated_by", user, "id");
  }

  lemma KeysWithoutId(row: Record, user: Value)
    ensures KeySet(PrepareUpdateRowWithId(row, user)) - {"id"} == OwnKeys(row, user) && "id" !in OwnKeys(row, user)
  {
    UpdateRowReads(row, user, "id");
    forall key
      ensures key in KeySet(PrepareUpdateRowWithId(row, user)) - {"id"} <==> key in OwnKeys(row, user)
    {
      if key != "id" { WithIdReads(row, user, key); }
    }
  }

  /** One row as the bulk statement writes it. */
  function BulkWritten(cell: CellOf, was: Row, rows: seq<Record>, i: nat, user: Value, now: Time): Row
    requires i < |rows|
  {
    Written(cell, was, OwnKeys(rows[0], user), PrepareUpdateRow(rows[i], user), now)
  }

  lemma BulkWrites(cell: CellOf, was: Row, rows: seq<Record>, i: nat, user: Value, now: Time)
    requires i < |rows|
    ensures Written(cell, was, BulkKeys(rows, user), BulkRows(rows, user)[i], now)
            == BulkWritten(cell, was, rows, i, user, now)
  {
    KeysWithoutId(rows[0], user);
    var keys := OwnKeys(rows[0], user);
    forall key | key in keys
      ensures Get(BulkRows(rows, user)[i], key) == Get(PrepareUpdateRow(rows[i], user), key)
    {
      WithIdReads(rows[i], user, key);
    }
    assert Assigned(cell, keys, BulkRows(rows, user)[i]) == Assigned(cell, keys, PrepareUpdateRow(rows[i], user));
  }

  /** The outcomes of the bulk statement on the raw rows. */
  ghost predicate Outcome(cell: CellOf, t: Table, rows: seq<Record>, user: Value, now: Time, u: Table)
    requires rows != []
  {
    BulkOutcome(cell, t, BulkKeys(rows, user), BulkRows(rows, user), now, u)
  }

  ghost predicate Updates(rows: seq<Record>, i: int, id: Value) { 0 <= i < |rows| && IdOf(rows[i]) == id }

  /** The same, said of the rows the caller gave. */
  ghost predicate ChosenFor(cell: CellOf, was: Row, rows: seq<Record>, user: Value, id: Value, now: Time, r: Row) {
    if exists i :: Updates(rows, i, id)
    then exists i :: Updates(rows, i, id) && r == BulkWritten(cell, was, rows, i, user, now)
    else r == was
  }

  ghost predicate Chosen(cell: CellOf, t: Table, rows: seq<Record>, user: Value, now: Time, u: Table) {
    u.Keys == t.Keys && forall id :: id in t ==> ChosenFor(cell, t[id], rows, user, id, now, u[id])
  }

  lemma SameRow(cell: CellOf, was: Row, rows: seq<Record>, user: Value, id: Value, now: Time, i: nat)
    requires i < |rows|
    ensures Get(BulkRows(rows, user)[i], "id") == id <==> Updates(rows, i, id)
    ensures Written(cell, was, BulkKeys(rows, user), BulkRows(rows, user)[i], now)
            == BulkWritten(cell, was, rows, i, user, now)
  {
    BulkIdOf(rows[i], user);
    BulkWrites(cell, was, rows, i, user, now);
  }

  lemma PickedIsChosen(cell: CellOf, was: Row, rows: seq<Record>, user: Value, id: Value, now: Time, r: Row)
    requires rows != []
    ensures PickedFor(cell, was, BulkKeys(rows, user), BulkRows(rows, user), id, now, r)
            <==> ChosenFor(cell, was, rows, user, id, now, r)
  {
    hide Written, BulkWritten, Get, IdOf;
    var bulk := BulkRows(rows, user);
    forall i | 0 <= i < |rows|
      ensures Get(bulk[i], "id") == id <==> Updates(rows, i, id)
      ensures Written(cell, was, BulkKeys(rows, user), bulk[i], now) == BulkWritten(cell, was, rows, i, user, now)
    {
      SameRow(cell, was, rows, user, id, now, i);
    }
  }

  lemma OutcomeChosen(cell: CellOf, t: Table, rows: seq<Record>, user: Value, now: Time, u: Table)
    requires rows != []
    ensures Outcome(cell, t, rows, user, now, u) <==> Chosen(cell, t, rows, user, now, u)
  {
    hide PickedFor, ChosenFor, BulkKeys, BulkRows;
    if u.Keys == t.Keys {
      forall id | id in t
        ensures PickedFor(cell, t[id], BulkKeys(rows, user), BulkRows(rows, user), id, now, u[id])
                <==> ChosenFor(cell, t[id], rows, user, id, now, u[id])
      {
        PickedIsChosen(cell, t[id], rows, user, id, now, u[id]);
      }
    }
  }

  // ----------------------------------------------------------------- the loop, by row

  /** What the loop makes of one row. */
  function RowAfter(cell: CellOf, was: Row, rows: seq<Record>, user: Value, id: Value, now: Time): Row {
    if rows == [] then was
    else
      var last := rows[|rows| - 1];
      var so := RowAfter(cell, was, rows[..|rows| - 1], user, id, now);
      if IdOf(last) == id then Written(cell, so, OwnKeys(last, user), PrepareUpdateRow(last, user), now) else so
  }

  lemma {:induction false} EachByRow(cell: CellOf, t: Table, rows: seq<Record>, user: Value, now: Time)
    ensures UpdateEach(cell, t, rows, user, now).Keys == t.Keys
    ensures forall id :: id in t ==>
              UpdateEach(cell, t, rows, user, now)[id] == RowAfter(cell, t[id], rows, user, id, now)
  {
    hide Written, OwnKeys, PrepareUpdateRow, IdOf;
    if rows != [] {
      EachByRow(cell, t, rows[..|rows| - 1], user, now);
      assert forall last :: OwnKeys(last, user) == KeySet(PrepareUpdateRow(last, user)) by { OwnKeysAre(user); }
    }
  }

  lemma OwnKeysAre(user: Value)
    ensures forall last :: OwnKeys(last, user) == KeySet(PrepareUpdateRow(last, user))
  {
  }

  predicate SameKeys(rows: seq<Record>, user: Value, keys: set<string>) {
    forall i :: 0 <= i < |rows| ==> OwnKeys(rows[i], user) == keys
  }

  /** Writing the same columns again forgets what was written before. */
  lemma WrittenTwice(cell: CellOf, was: Row, keys: set<string>, a: Record, b: Record, now: Time)
    ensures Written(cell, Written(cell, was, keys, a, now), keys, b, now) == Written(cell, was, keys, b, now)
  {
    assert was.cells + Assigned(cell, keys, a) + Assigned(cell, keys, b) == was.cells + Assigned(cell, keys, b);
  }

  /** With the same columns in every row the last row for an id decides. */
  lemma {:induction false} LastDecides(cell: CellOf, was: Row, rows: seq<Record>, user: Value, id: Value, now: Time,
                                       keys: set<string>)
    returns (last: int)
    requires SameKeys(rows, user, keys)
    ensures last == -1 ==> RowAfter(cell, was, rows, user, id, now) == was && forall i :: !Updates(rows, i, id)
    ensures last != -1 ==> Updates(rows, last, id)
                           && RowAfter(cell, was, rows, user, id, now)
                              == Written(cell, was, keys, PrepareUpdateRow(rows[last], user), now)
  {
    hide Written, OwnKeys, PrepareUpdateRow, IdOf;
    last := -1;
    if rows != [] {
      var n := |rows| - 1;
      var init := rows[..n];
      last := LastDecides(cell, was, init, user, id, now, keys);
      if IdOf(rows[n]) == id {
        if last != -1 {
          WrittenTwice(cell, was, keys, PrepareUpdateRow(rows[last], user), PrepareUpdateRow(rows[n], user), now);
        }
        last := n;
      } else {
        assert forall i :: Updates(rows, i, id) ==> Updates(init, i, id);
      }
    }
  }

  // --------------------------------------------------------------------- refinement

  /** Rows that share an id the table has say the same about every column. */
  predicate Agree(cell: CellOf, t: Table, rows: seq<Record>, user: Value, keys: set<string>) {
    forall i, j :: 0 <= i < |rows| && 0 <= j < |rows| && IdOf(rows[i]) == IdOf(rows[j]) && IdOf(rows[i]) in t ==>
      Assigned(cell, keys, PrepareUpdateRow(rows[i], user)) == Assigned(cell, keys, PrepareUpdateRow(rows[j], user))
  }

  lemma SameWritten(cell: CellOf, was: Row, keys: set<string>, a: Record, b: Record, now: Time)
    ensures Written(cell, was, keys, a, now) == Written(cell, was, keys, b, now)
            <==> Assigned(cell, keys, a) == Assigned(cell, keys, b)
  {
    var x, y := Assigned(cell, keys, a), Assigned(cell, keys, b);
    if was.cells + x == was.cells + y {
      forall k | k in keys
        ensures x[k] == y[k]
      {
        assert (was.cells + x)[k] == (was.cells + y)[k];
      }
      assert x == y;
    }
  }

  lemma ChosenIsLoop(cell: CellOf, t: Table, rows: seq<Record>, user: Value, now: Time, keys: set<string>, u: Table)
    requires rows != [] && SameKeys(rows, user, keys) && Agree(cell, t, rows, user, keys)
             && Chosen(cell, t, rows, user, now, u)
    ensures u == UpdateEach(cell, t, rows, user, now)
  {
    EachByRow(cell, t, rows, user, now);
    forall id | id in t
      ensures u[id] == RowAfter(cell, t[id], rows, user, id, now)
    {
      var last := LastDecides(cell, t[id], rows, user, id, now, keys);
      assert ChosenFor(cell, t[id], rows, user, id, now, u[id]);
      if last != -1 {
        var i :| Updates(rows, i, id) && u[id] == BulkWritten(cell, t[id], rows, i, user, now);
        SameWritten(cell, t[id], keys, PrepareUpdateRow(rows[i], user), PrepareUpdateRow(rows[last], user), now);
      }
    }
  }

  /** The loop's own table is one of the outcomes, so there always is one. */
  lemma LoopIsAnOutcome(cell: CellOf, t: Table, rows: seq<Record>, user: Value, now: Time, keys: set<string>)
    requires rows != [] && SameKeys(rows, user, keys)
    ensures Chosen(cell, t, rows, user, now, UpdateEach(cell, t, rows, user, now))
  {
    EachByRow(cell, t, rows, user, now);
    var u := UpdateEach(cell, t, rows, user, now);
    forall id | id in t
      ensures ChosenFor(cell, t[id], rows, user, id, now, u[id])
    {
      var last := LastDecides(cell, t[id], rows, user, id, now, keys);
      if last != -1 { assert u[id] == BulkWritten(cell, t[id], rows, last, user, now); }
    }
  }

  lemma AnotherPick(cell: CellOf, t: Table, rows: seq<Record>, user: Value, now: Time, u: Table, p: nat)
    requires rows != [] && Chosen(cell, t, rows, user, now, u) && p < |rows| && IdOf(rows[p]) in t
    ensures var id := IdOf(rows[p]);
            Chosen(cell, t, rows, user, now, u[id := BulkWritten(cell, t[id], rows, p, user, now)])
  {
    hide BulkWritten;
    var id := IdOf(rows[p]);
    assert Updates(rows, p, id);
    assert ChosenFor(cell, t[id], rows, user, id, now, BulkWritten(cell, t[id], rows, p, user, now));
  }

  /** Two rows for one id that disagree: the database may keep the one the loop drops. */
  lemma OtherOutcome(cell: CellOf, t: Table, rows: seq<Record>, user: Value, now: Time, keys: set<string>, i: nat,
                     j: nat)
    returns (u: Table)
    requires rows != [] && SameKeys(rows, user, keys) && i < |rows| && j < |rows|
    requires IdOf(rows[i]) == IdOf(rows[j]) && IdOf(rows[i]) in t
    requires Assigned(cell, keys, PrepareUpdateRow(rows[i], user))
             != Assigned(cell, keys, PrepareUpdateRow(rows[j], user))
    ensures Chosen(cell, t, rows, user, now, u) && u != UpdateEach(cell, t, rows, user, now)
  {
    hide Written, Assigned, PrepareUpdateRow, OwnKeys, IdOf, UpdateEach, RowAfter, Chosen;
    var id := IdOf(rows[i]);
    assert Updates(rows, i, id);
    LoopIsAnOutcome(cell, t, rows, user, now, keys);
    EachByRow(cell, t, rows, user, now);
    var last := LastDecides(cell, t[id], rows, user, id, now, keys);
    var same := Assigned(cell, keys, PrepareUpdateRow(rows[i], user))
                == Assigned(cell, keys, PrepareUpdateRow(rows[last], user));
    var p := if same then j else i;
    SameWritten(cell, t[id], keys, PrepareUpdateRow(rows[p], user), PrepareUpdateRow(rows[last], user), now);
    AnotherPick(cell, t, rows, user, now, UpdateEach(cell, t, rows, user, now), p);
    u := UpdateEach(cell, t, rows, user, now)[id := BulkWritten(cell, t[id], rows, p, user, now)];
  }

  /** For rows with the same columns, whatever the database picks is what the row-by-row
      loop leaves if and only if rows for the same stored id agree; distinct ids do. */
  lemma BulkRefinesLoopIff(cell: CellOf, t: Table, rows: seq<Record>, user: Value, now: Time, keys: set<string>)
    requires rows != [] && SameKeys(rows, user, keys)
    ensures (forall u :: Outcome(cell, t, rows, user, now, u) ==> u == UpdateEach(cell, t, rows, user, now))
            <==> Agree(cell, t, rows, user, keys)
    ensures Outcome(cell, t, rows, user, now, UpdateEach(cell, t, rows, user, now))
  {
    LoopIsAnOutcome(cell, t, rows, user, now, keys);
    OutcomeChosen(cell, t, rows, user, now, UpdateEach(cell, t, rows, user, now));
    if Agree(cell, t, rows, user, keys) {
      forall u | Outcome(cell, t, rows, user, now, u)
        ensures u == UpdateEach(cell, t, rows, user, now)
      {
        OutcomeChosen(cell, t, rows, user, now, u);
        ChosenIsLoop(cell, t, rows, user, now, keys, u);
      }
    } else {
      var i, j :| 0 <= i < |rows| && 0 <= j < |rows| && IdOf(rows[i]) == IdOf(rows[j]) && IdOf(rows[i]) in t
                  && Assigned(cell, keys, PrepareUpdateRow(rows[i], user))
                     != Assigned(cell, keys, PrepareUpdateRow(rows[j], user));
      var u := OtherOutcome(cell, t, rows, user, now, keys, i, j);
      OutcomeChosen(cell, t, rows, user, now, u);
    }
  }

  // ------------------------------------------------------------ rows of different shape

  predicate DistinctIds(rows: seq<Record>) {
    forall i, j :: 0 <= i < j < |rows| ==> IdOf(rows[i]) != IdOf(rows[j])
  }

  /** A column only the first row names is set to NULL in this row; a column the first
      row does not name is not written. Neither shows when the row already has it so. */
  predicate ShapeHarmless(cell: CellOf, was: Row, keys: set<string>, row: Record, user: Value) {
    && (forall k :: k in keys - OwnKeys(row, user) ==> k in was.cells && was.cells[k] == cell(k, Null))
    && (forall k :: k in OwnKeys(row, user) - keys ==> k in was.cells && was.cells[k] == Says(cell, row, user, k))
  }

  predicate AgreeAt(x: map<string, Value>, y: map<string, Value>, k: string) {
    (k in x <==> k in y) && (k in x && k in y ==> x[k] == y[k])
  }

  lemma EqualIff(x: map<string, Value>, y: map<string, Value>)
    ensures x == y <==> forall k :: AgreeAt(x, y, k)
  {
    if forall k :: AgreeAt(x, y, k) {
      assert forall k :: k in x ==> AgreeAt(x, y, k);
      assert forall k :: k in y ==> AgreeAt(x, y, k);
    }
  }

  predicate HarmlessAt(cell: CellOf, was: Row, keys: set<string>, own: set<string>, r: Record, k: string) {
    && (k in keys - own ==> k in was.cells && was.cells[k] == cell(k, Null))
    && (k in own - keys ==> k in was.cells && was.cells[k] == cell(k, Get(r, k)))
  }

  lemma ShapeAt(cell: CellOf, was: Row, keys: set<string>, own: set<string>, r: Record, k: string)
    requires k !in own ==> Get(r, k) == Null
    ensures AgreeAt(was.cells + Assigned(cell, keys, r), was.cells + Assigned(cell, own, r), k)
            <==> HarmlessAt(cell, was, keys, own, r, k)
  {
  }

  lemma ShapesIff(cell: CellOf, was: Row, keys: set<string>, row: Record, user: Value, now: Time)
    ensures Written(cell, was, keys, PrepareUpdateRow(row, user), now)
            == Written(cell, was, OwnKeys(row, user), PrepareUpdateRow(row, user), now)
            <==> ShapeHarmless(cell, was, keys, row, user)
  {
    hide PrepareUpdateRow, AgreeAt, Assigned, Get;
    var r, own := PrepareUpdateRow(row, user), OwnKeys(row, user);
    EqualIff(was.cells + Assigned(cell, keys, r), was.cells + Assigned(cell, own, r));
    forall k
      ensures AgreeAt(was.cells + Assigned(cell, keys, r), was.cells + Assigned(cell, own, r), k)
              <==> HarmlessAt(cell, was, keys, own, r, k)
    {
      if k !in own { GetAbsent(r, k); }
      ShapeAt(cell, was, keys, own, r, k);
    }
    if ShapeHarmless(cell, was, keys, row, user) {
      assert forall k :: HarmlessAt(cell, was, keys, own, r, k);
    }
    if forall k :: HarmlessAt(cell, was, keys, own, r, k) {
      forall k | k in keys - own ensures k in was.cells && was.cells[k] == cell(k, Null) {
        assert HarmlessAt(cell, was, keys, own, r, k);
      }
      forall k | k in own - keys ensures k in was.cells && was.cells[k] == Says(cell, row, user, k) {
        assert HarmlessAt(cell, was, keys, own, r, k);
      }
    }
  }

  lemma {:induction false} OnlyRowDecides(cell: CellOf, was: Row, rows: seq<Record>, user: Value, id: Value,
                                          now: Time, i: nat)
    requires DistinctIds(rows) && Updates(rows, i, id)
    ensures RowAfter(cell, was, rows, user, id, now)
            == Written(cell, was, OwnKeys(rows[i], user), PrepareUpdateRow(rows[i], user), now)
  {
    var n := |rows| - 1;
    if i < n {
      OnlyRowDecides(cell, was, rows[..n], user, id, now, i);
    } else {
      NoRowDecides(cell, was, rows[..n], user, id, now);
    }
  }

  lemma {:induction false} NoRowDecides(cell: CellOf, was: Row, rows: seq<Record>, user: Value, id: Value, now: Time)
    requires forall i :: 0 <= i < |rows| ==> IdOf(rows[i]) != id
    ensures RowAfter(cell, was, rows, user, id, now) == was
  {
    if rows != [] { NoRowDecides(cell, was, rows[..|rows| - 1], user, id, now); }
  }

  lemma SomeOutcome(cell: CellOf, t: Table, rows: seq<Record>, user: Value, now: Time) returns (u: Table)
    ensures rows != [] ==> Chosen(cell, t, rows, user, now, u)
  {
    hide IdOf;
    u := if rows == [] then t
         else map id | id in t :: if i :| Updates(rows, i, id) then BulkWritten(cell, t[id], rows, i, user, now)
              else t[id];
  }

  lemma OnlyRowChosen(cell: CellOf, t: Table, rows: seq<Record>, user: Value, now: Time, u: Table, i: nat)
    requires rows != [] && DistinctIds(rows) && Chosen(cell, t, rows, user, now, u) && i < |rows| && IdOf(rows[i]) in t
    ensures u[IdOf(rows[i])] == BulkWritten(cell, t[IdOf(rows[i])], rows, i, user, now)
  {
    hide BulkWritten;
    var id := IdOf(rows[i]);
    assert Updates(rows, i, id);
    assert ChosenFor(cell, t[id], rows, user, id, now, u[id]);
    var j :| Updates(rows, j, id) && u[id] == BulkWritten(cell, t[id], rows, j, user, now);
    assert i == j;
  }

  /** At one row: the statement and the loop agree exactly when the row's shape is harmless. */
  lemma RowAgreesIff(cell: CellOf, t: Table, rows: seq<Record>, user: Value, now: Time, u: Table, i: nat)
    requires rows != [] && DistinctIds(rows) && Chosen(cell, t, rows, user, now, u) && i < |rows| && IdOf(rows[i]) in t
    ensures var id := IdOf(rows[i]);
            u[id] == RowAfter(cell, t[id], rows, user, id, now)
            <==> ShapeHarmless(cell, t[id], OwnKeys(rows[0], user), rows[i], user)
  {
    hide Written, RowAfter, ShapeHarmless, Chosen, DistinctIds, PrepareUpdateRow, OwnKeys;
    var id := IdOf(rows[i]);
    OnlyRowChosen(cell, t, rows, user, now, u, i);
    OnlyRowDecides(cell, t[id], rows, user, id, now, i);
    ShapesIff(cell, t[id], OwnKeys(rows[0], user), rows[i], user, now);
  }

  predicate AllHarmless(cell: CellOf, t: Table, rows: seq<Record>, user: Value)
    requires rows != []
  {
    forall i :: 0 <= i < |rows| && IdOf(rows[i]) in t ==>
      ShapeHarmless(cell, t[IdOf(rows[i])], OwnKeys(rows[0], user), rows[i], user)
  }

  lemma ShapesDecide(cell: CellOf, t: Table, rows: seq<Record>, user: Value, now: Time, u: Table)
    requires rows != [] && DistinctIds(rows) && Chosen(cell, t, rows, user, now, u)
    ensures u == UpdateEach(cell, t, rows, user, now) <==> AllHarmless(cell, t, rows, user)
  {
    hide RowAfter, ShapeHarmless, UpdateEach, IdOf, BulkWritten;
    EachByRow(cell, t, rows, user, now);
    forall i | 0 <= i < |rows| && IdOf(rows[i]) in t
      ensures u[IdOf(rows[i])] == RowAfter(cell, t[IdOf(rows[i])], rows, user, IdOf(rows[i]), now)
              <==> ShapeHarmless(cell, t[IdOf(rows[i])], OwnKeys(rows[0], user), rows[i], user)
    {
      RowAgreesIff(cell, t, rows, user, now, u, i);
    }
    if AllHarmless(cell, t, rows, user) {
      forall id | id in t
        ensures u[id] == RowAfter(cell, t[id], rows, user, id, now)
      {
        assert ChosenFor(cell, t[id], rows, user, id, now, u[id]);
        if i :| Updates(rows, i, id) {
          assert IdOf(rows[i]) == id;
        } else {
          assert forall i :: 0 <= i < |rows| && IdOf(rows[i]) == id ==> Updates(rows, i, id);
          NoRowDecides(cell, t[id], rows, user, id, now);
        }
      }
    }
  }

  /** For distinct ids and rows of any shape: the one statement leaves what the loop
      leaves exactly when no row's shape differs from the first row's in a way the stored
      row would show. */
  lemma BulkMatchesLoopIff(cell: CellOf, t: Table, rows: seq<Record>, user: Value, now: Time)
    requires rows != [] && DistinctIds(rows)
    ensures (forall u :: Outcome(cell, t, rows, user, now, u) ==> u == UpdateEach(cell, t, rows, user, now))
            <==> AllHarmless(cell, t, rows, user)
  {
    hide Outcome, Chosen, UpdateEach, AllHarmless, DistinctIds;
    var some := SomeOutcome(cell, t, rows, user, now);
    OutcomeChosen(cell, t, rows, user, now, some);
    ShapesDecide(cell, t, rows, user, now, some);
    forall u | Outcome(cell, t, rows, user, now, u)
      ensures u == UpdateEach(cell, t, rows, user, now) <==> AllHarmless(cell, t, rows, user)
    {
      OutcomeChosen(cell, t, rows, user, now, u);
      ShapesDecide(cell, t, rows, user, now, u);
    }
  }

  /** The second row names a column the first does not: the loop stores it, the one
      statement drops it. */
  lemma ExtraColumnIsDropped(cell: CellOf, user: Value, now: Time) returns (t: Table, rows: seq<Record>, u: Table)
    ensures |rows| == 2 && DistinctIds(rows) && IdOf(rows[1]) in t && IdOf(rows[1]) in u
    ensures Outcome(cell, t, rows, user, now, u) && "note" !in u[IdOf(rows[1])].cells
    ensures var each := UpdateEach(cell, t, rows, user, now);
            IdOf(rows[1]) in each && "note" in each[IdOf(rows[1])].cells
  {
    hide Written, Get, PrepareUpdateRow, RowAfter, UpdateEach, Outcome, Chosen, BulkWritten;
    var first, second: Record := [("id", Text("a"))], [("id", Text("b")), ("note", Text("n"))];
    var was := Row(map[], 0, 0);
    t, rows := map[Text("a") := was, Text("b") := was], [first, second];
    TwoIds(first, second, "b");
    UpdateRowReads(first, user, "note");
    UpdateRowReads(second, user, "note");
    assert second[1].0 == "note";
    u := SomeOutcome(cell, t, rows, user, now);
    OutcomeChosen(cell, t, rows, user, now, u);
    OnlyRowChosen(cell, t, rows, user, now, u, 1);
    EachByRow(cell, t, rows, user, now);
    OnlyRowDecides(cell, was, rows, user, Text("b"), now, 1);
    WrittenColumns(cell, was, OwnKeys(first, user), PrepareUpdateRow(second, user), now, "note");
    WrittenColumns(cell, was, OwnKeys(second, user), PrepareUpdateRow(second, user), now, "note");
    ChosenKeys(cell, t, rows, user, now, u);
    BulkWrittenIs(cell, was, rows, 1, user, now);
  }

  lemma ChosenKeys(cell: CellOf, t: Table, rows: seq<Record>, user: Value, now: Time, u: Table)
    requires Chosen(cell, t, rows, user, now, u)
    ensures u.Keys == t.Keys
  {
  }

  lemma BulkWrittenIs(cell: CellOf, was: Row, rows: seq<Record>, i: nat, user: Value, now: Time)
    requires i < |rows|
    ensures BulkWritten(cell, was, rows, i, user, now)
            == Written(cell, was, OwnKeys(rows[0], user), PrepareUpdateRow(rows[i], user), now)
  {
  }

  lemma WrittenColumns(cell: CellOf, was: Row, keys: set<string>, r: Record, now: Time, key: string)
    ensures key in Written(cell, was, keys, r, now).cells <==> key in was.cells || key in keys
  {
  }

  lemma TwoIds(first: Record, second: Record, id: string)
    requires |first| == 1 && |second| == 2 && first[0] == ("id", Text("a")) && second[0] == ("id", Text(id))
             && id != "a"
    requires second[1].0 == "note"
    ensures IdOf(first) == Text("a") && IdOf(second) == Text(id)
    ensures !Has(first, "note") && Has(second, "note")
  {
  }
}
