/** Optimistic locking over whole runs of writes: which versions a locked write can be
    fooled by. */
module RowVersions {
  import opened Types
  import opened SqlLogic
  import opened WriteStatements
  import opened WriteLayouts
  import opened WriteDao

  /** One committed statement of any client; `at` is its CURRENT_TIMESTAMP. */
  datatype Write =
    | Insert(rows: seq<Record>, at: Time)
    | Update(id: Value, data: Record, lock: Option<Time>, at: Time)
    | Bulk(keys: set<string>, rows: seq<Record>, at: Time)
    | Delete(ids: set<Value>, at: Time)
    | LockedDelete(id: Value, expected: Time, at: Time)

  /** The rows and, for each id, every version it ever had, oldest first. */
  datatype Store = Store(table: Table, versions: map<Value, seq<Time>>)

  const EMPTY: Store := Store(map[], map[])

  function VersionsOf(s: Store, id: Value): seq<Time> { if id in s.versions then s.versions[id] else [] }

  function BumpAll(vs: map<Value, seq<Time>>, ids: set<Value>, at: Time): map<Value, seq<Time>> {
    map id | id in vs.Keys + ids :: (if id in vs then vs[id] else []) + if id in ids then [Ms(at)] else []
  }

  function IdsIn(rows: seq<Record>): set<Value> { set i | 0 <= i < |rows| :: Get(rows[i], "id") }

  /** What a statement does to the rows: an insert of a known id fails as a whole; of a
      bulk statement only that it writes the rows it names is used here. */
  ghost predicate Step(cell: CellOf, s: Store, w: Write, u: Store) {
    match w
    case Insert(rows, at) =>
      if IdsFree(s.table, rows) then
        u == Store(InsertEach(cell, s.table, ColumnsOf(rows), rows, at), BumpAll(s.versions, IdsIn(rows), at))
      else u == s
    case Update(id, data, lock, at) =>
      if Matches(s.table, id, lock) then
           u == Store(AfterUpdate(cell, s.table, id, data, lock, at), BumpAll(s.versions, {id}, at)) else u == s
    case Bulk(keys, rows, at) =>
      BulkOutcome(cell, s.table, keys, rows, at, u.table)
      && u.versions == BumpAll(s.versions, IdsIn(rows) * s.table.Keys, at)
    case Delete(ids, _) => u == Store(s.table - ids, s.versions)
    case LockedDelete(id, expected, _) => u == Store(AfterDelete(s.table, id, Some(expected)), s.versions)
  }

  ghost predicate Runs(cell: CellOf, ws: seq<Write>, states: seq<Store>) {
    && |states| == |ws| + 1 && states[0] == EMPTY
    && forall k :: 0 <= k < |ws| ==> Step(cell, states[k], ws[k], states[k + 1])
  }

  /** A stored row carries the last of its versions. */
  ghost predicate Tracked(s: Store) {
    forall id :: id in s.table ==>
      VersionsOf(s, id) != [] && s.table[id].updatedAt == VersionsOf(s, id)[|VersionsOf(s, id)| - 1]
  }

  lemma {:induction false} InsertedRows(cell: CellOf, t: Table, keys: set<string>, rows: seq<Record>, at: Time)
    ensures InsertEach(cell, t, keys, rows, at).Keys == t.Keys + IdsIn(rows)
    ensures forall id :: id in IdsIn(rows) ==> InsertEach(cell, t, keys, rows, at)[id].updatedAt == Ms(at)
    ensures forall id :: id in t && id !in IdsIn(rows) ==> InsertEach(cell, t, keys, rows, at)[id] == t[id]
  {
    if rows != [] {
      var n := |rows| - 1;
      InsertedRows(cell, t, keys, rows[..n], at);
      assert IdsIn(rows) == IdsIn(rows[..n]) + {Get(rows[n], "id")};
    }
  }

  lemma BulkVersions(cell: CellOf, t: Table, keys: set<string>, rows: seq<Record>, at: Time, u: Table, id: Value)
    requires BulkOutcome(cell, t, keys, rows, at, u) && id in t
    ensures id in u && u[id].updatedAt == if id in IdsIn(rows) then Ms(at) else t[id].updatedAt
  {
    assert PickedFor(cell, t[id], keys, rows, id, at, u[id]);
  }

  lemma TrackedBulk(cell: CellOf, s: Store, w: Write, u: Store)
    requires Tracked(s) && Step(cell, s, w, u) && w.Bulk?
    ensures Tracked(u)
  {
    hide BulkOutcome, IdsIn;
    BulkKeysKept(cell, s.table, w.keys, w.rows, w.at, u.table);
    forall id | id in u.table
      ensures VersionsOf(u, id) != [] && u.table[id].updatedAt == VersionsOf(u, id)[|VersionsOf(u, id)| - 1]
    {
      BulkVersions(cell, s.table, w.keys, w.rows, w.at, u.table, id);
    }
  }

  lemma TrackedInsert(cell: CellOf, s: Store, w: Write, u: Store)
    requires Tracked(s) && Step(cell, s, w, u) && w.Insert?
    ensures Tracked(u)
  {
    hide IdsFree, InsertEach, IdsIn, Ms, ColumnsOf, KeySet, BumpAll;
    InsertedRows(cell, s.table, ColumnsOf(w.rows), w.rows, w.at);
    if IdsFree(s.table, w.rows) {
      forall id | id in u.table
        ensures VersionsOf(u, id) != [] && u.table[id].updatedAt == VersionsOf(u, id)[|VersionsOf(u, id)| - 1]
      {
        VersionsAfter(s.versions, IdsIn(w.rows), w.at, id);
      }
    }
  }

  lemma VersionsAfter(vs: map<Value, seq<Time>>, ids: set<Value>, at: Time, id: Value)
    ensures var after := BumpAll(vs, ids, at);
            (id in after <==> id in vs || id in ids)
            && (id in after ==> after[id] == (if id in vs then vs[id] else []) + if id in ids then [Ms(at)] else [])
  {
  }

  lemma {:induction false} TrackedStep(cell: CellOf, s: Store, w: Write, u: Store)
    requires Tracked(s) && Step(cell, s, w, u)
    ensures Tracked(u)
  {
    hide BulkOutcome, IdsFree, InsertEach, IdsIn;
    match w
    case Insert(rows, at) => TrackedInsert(cell, s, w, u);
    case Update(id, data, lock, at) =>
    case Bulk(keys, rows, at) => TrackedBulk(cell, s, w, u);
    case Delete(ids, at) =>
    case LockedDelete(id, expected, at) =>
  }

  lemma BulkKeysKept(cell: CellOf, t: Table, keys: set<string>, rows: seq<Record>, at: Time, u: Table)
    requires BulkOutcome(cell, t, keys, rows, at, u)
    ensures u.Keys == t.Keys
  {
  }

  /** Versions are whole milliseconds: that is how the adapter writes them. */
  ghost predicate WholeMs(s: Store) {
    forall id, i :: 0 <= i < |VersionsOf(s, id)| ==> Ms(VersionsOf(s, id)[i]) == VersionsOf(s, id)[i]
  }

  /** A step adds at most one version, and then the row is there with that version. */
  lemma VersionsGrow(cell: CellOf, s: Store, w: Write, u: Store, id: Value)
    requires Step(cell, s, w, u)
    ensures VersionsOf(u, id) == VersionsOf(s, id)
            || (id in u.table && exists at :: VersionsOf(u, id) == VersionsOf(s, id) + [Ms(at)])
  {
    hide BulkOutcome, IdsFree;
    match w
    case Insert(rows, at) => InsertedRows(cell, s.table, ColumnsOf(rows), rows, at);
    case Update(who, data, lock, at) =>
    case Bulk(keys, rows, at) => BulkKeysKept(cell, s.table, keys, rows, at, u.table);
    case Delete(ids, at) =>
    case LockedDelete(who, expected, at) =>
  }

  lemma WholeMsStep(cell: CellOf, s: Store, w: Write, u: Store)
    requires WholeMs(s) && Step(cell, s, w, u)
    ensures WholeMs(u)
  {
    hide Step;
    forall id, i | 0 <= i < |VersionsOf(u, id)|
      ensures Ms(VersionsOf(u, id)[i]) == VersionsOf(u, id)[i]
    {
      VersionsGrow(cell, s, w, u, id);
    }
  }

  lemma {:induction false} RunKeeps(cell: CellOf, ws: seq<Write>, states: seq<Store>, n: nat)
    requires Runs(cell, ws, states) && n < |states|
    ensures Tracked(states[n]) && WholeMs(states[n])
  {
    hide Step, Tracked, WholeMs;
    if n > 0 {
      RunKeeps(cell, ws, states, n - 1);
      assert Step(cell, states[n - 1], ws[n - 1], states[n]);
      TrackedStep(cell, states[n - 1], ws[n - 1], states[n]);
      WholeMsStep(cell, states[n - 1], ws[n - 1], states[n]);
    } else {
      NothingYet();
    }
  }

  lemma NothingYet()
    ensures Tracked(EMPTY) && WholeMs(EMPTY)
  {
  }

  lemma {:induction false} VersionsPrefix(cell: CellOf, ws: seq<Write>, states: seq<Store>, n: nat, m: nat, id: Value)
    requires Runs(cell, ws, states) && n <= m < |states|
    ensures VersionsOf(states[n], id) <= VersionsOf(states[m], id)
  {
    hide Step, VersionsOf;
    if n < m {
      VersionsPrefix(cell, ws, states, n, m - 1, id);
      assert Step(cell, states[m - 1], ws[m - 1], states[m]);
      VersionsGrow(cell, states[m - 1], ws[m - 1], states[m], id);
    }
  }

  predicate Distinct(vs: seq<Time>) { forall i, j :: 0 <= i < j < |vs| ==> vs[i] != vs[j] }

  /** Now, no write that expects an earlier version of the row can get through. */
  ghost predicate StaleRefused(s: Store, id: Value) {
    forall i :: 0 <= i && i + 1 < |VersionsOf(s, id)| ==> !Matches(s.table, id, Some(VersionsOf(s, id)[i]))
  }

  lemma DistinctRefuses(s: Store, id: Value)
    requires Tracked(s) && WholeMs(s) && Distinct(VersionsOf(s, id))
    ensures StaleRefused(s, id)
  {
    if id in s.table {
      var vs := VersionsOf(s, id);
      forall i | 0 <= i && i + 1 < |vs|
        ensures !Matches(s.table, id, Some(vs[i]))
      {
        assert Ms(vs[i]) == vs[i] && vs[i] != vs[|vs| - 1];
      }
    }
  }

  lemma RefusedDistinct(s: Store, id: Value)
    requires Tracked(s) && WholeMs(s) && StaleRefused(s, id) && id in s.table
    requires Distinct(VersionsOf(s, id)[..|VersionsOf(s, id)| - 1])
    ensures Distinct(VersionsOf(s, id))
  {
    var vs := VersionsOf(s, id);
    var init := vs[..|vs| - 1];
    forall i, j | 0 <= i < j < |vs|
      ensures vs[i] != vs[j]
    {
      if j + 1 == |vs| {
        assert !Matches(s.table, id, Some(vs[i])) && Ms(vs[i]) == vs[i];
      } else {
        assert init[i] != init[j];
      }
    }
  }

  lemma {:induction false} AlwaysRefusedDistinct(cell: CellOf, ws: seq<Write>, states: seq<Store>, id: Value, n: nat)
    requires Runs(cell, ws, states) && n < |states|
    requires forall m :: 0 <= m < |states| ==> StaleRefused(states[m], id)
    ensures Distinct(VersionsOf(states[n], id))
  {
    hide Step, Tracked, WholeMs, StaleRefused, Distinct, VersionsOf;
    if n == 0 {
      NoVersions(id);
    } else {
      AlwaysRefusedDistinct(cell, ws, states, id, n - 1);
      assert Step(cell, states[n - 1], ws[n - 1], states[n]);
      VersionsGrow(cell, states[n - 1], ws[n - 1], states[n], id);
      if VersionsOf(states[n], id) != VersionsOf(states[n - 1], id) {
        RunKeeps(cell, ws, states, n);
        assert VersionsOf(states[n], id)[..|VersionsOf(states[n], id)| - 1] == VersionsOf(states[n - 1], id);
        RefusedDistinct(states[n], id);
      }
    }
  }

  lemma NoVersions(id: Value)
    ensures VersionsOf(EMPTY, id) == [] && Distinct(VersionsOf(EMPTY, id))
  {
  }

  /** In every run of locked and unlocked updates, bulk updates, inserts and deletes:
      a write that expects an outdated version of a row is refused at every moment if and
      only if the row never gets the same millisecond twice. */
  lemma NoLostUpdateIff(cell: CellOf, ws: seq<Write>, states: seq<Store>, id: Value)
    requires Runs(cell, ws, states)
    ensures (forall n :: 0 <= n < |states| ==> StaleRefused(states[n], id)) <==> Distinct(VersionsOf(states[|ws|], id))
  {
    hide Step, Tracked, WholeMs, StaleRefused, VersionsOf;
    if forall n :: 0 <= n < |states| ==> StaleRefused(states[n], id) {
      AlwaysRefusedDistinct(cell, ws, states, id, |ws|);
    }
    if Distinct(VersionsOf(states[|ws|], id)) {
      forall n | 0 <= n < |states|
        ensures StaleRefused(states[n], id)
      {
        RunKeeps(cell, ws, states, n);
        VersionsPrefix(cell, ws, states, n, |ws|, id);
        var vs, all := VersionsOf(states[n], id), VersionsOf(states[|ws|], id);
        assert forall k :: 0 <= k < |vs| ==> vs[k] == all[k];
        DistinctRefuses(states[n], id);
      }
    }
  }

  /** A write that expects the current version gets through. */
  lemma CurrentVersionPasses(cell: CellOf, ws: seq<Write>, states: seq<Store>, n: nat, id: Value)
    requires Runs(cell, ws, states) && n < |states| && id in states[n].table
    ensures VersionsOf(states[n], id) != []
    ensures Matches(states[n].table, id, Some(VersionsOf(states[n], id)[|VersionsOf(states[n], id)| - 1]))
  {
    RunKeeps(cell, ws, states, n);
  }

  /** For a row written by others: what a Date can hold of its timestamp matches it only
      if it has no microseconds. */
  lemma ReadThenWriteIff(t: Table, id: Value)
    requires id in t
    ensures Matches(t, id, Some(Ms(t[id].updatedAt))) <==> t[id].updatedAt % 1000 == 0
  {
    assert Ms(Ms(t[id].updatedAt)) == Ms(t[id].updatedAt);
  }

  // ------------------------------------------------------------------ audit columns

  /** A write whose rows went through prepareUpdateRow. */
  ghost predicate Prepared(w: Write) {
    match w
    case Update(_, data, _, _) => exists row, user :: data == PrepareUpdateRow(row, user)
    case Bulk(keys, rows, _) =>
      exists raw: seq<Record>, user ::
        |raw| == |rows| && raw != [] && keys == KeySet(PrepareUpdateRowWithId(raw[0], user)) - {"id"}
    case _ => true
  }

  lemma NoCreationColumns(w: Write)
    requires Prepared(w)
    ensures w.Update? ==> "inserted_by" !in KeySet(w.data)
    ensures w.Bulk? ==> "inserted_by" !in w.keys
  {
    if w.Update? {
      var row, user :| w.data == PrepareUpdateRow(row, user);
      UpdateRowReads(row, user, "inserted_by");
    }
    if w.Bulk? {
      var raw: seq<Record>, user :| |raw| == |w.rows| && raw != []
                                    && w.keys == KeySet(PrepareUpdateRowWithId(raw[0], user)) - {"id"};
      WithIdReads(raw[0], user, "inserted_by");
      UpdateRowReads(raw[0], user, "inserted_by");
    }
  }

  ghost predicate SameOrigin(a: Row, b: Row) {
    && a.createdAt == b.createdAt
    && ("inserted_by" in a.cells <==> "inserted_by" in b.cells)
    && ("inserted_by" in a.cells && "inserted_by" in b.cells ==> a.cells["inserted_by"] == b.cells["inserted_by"])
  }

  lemma WrittenKeepsOrigin(cell: CellOf, was: Row, keys: set<string>, r: Record, at: Time)
    requires "inserted_by" !in keys
    ensures SameOrigin(was, Written(cell, was, keys, r, at))
  {
  }

  /** While a row exists no prepared write changes who created it and when. */
  lemma OriginIsImmutable(cell: CellOf, s: Store, w: Write, u: Store, id: Value)
    requires Step(cell, s, w, u) && Prepared(w) && id in s.table && id in u.table
    ensures SameOrigin(s.table[id], u.table[id])
  {
    hide Prepared, IdsFree, Written;
    NoCreationColumns(w);
    match w
    case Insert(rows, at) =>
      InsertedRows(cell, s.table, ColumnsOf(rows), rows, at);
      InsertsMiss(s.table, rows, id);
    case Update(who, data, lock, at) => WrittenKeepsOrigin(cell, s.table[id], KeySet(data), data, at);
    case Bulk(keys, rows, at) =>
      assert PickedFor(cell, s.table[id], keys, rows, id, at, u.table[id]);
      forall i | 0 <= i < |rows|
        ensures SameOrigin(s.table[id], Written(cell, s.table[id], keys, rows[i], at))
      {
        WrittenKeepsOrigin(cell, s.table[id], keys, rows[i], at);
      }
    case Delete(ids, at) =>
    case LockedDelete(who, expected, at) =>
  }

  lemma InsertsMiss(t: Table, rows: seq<Record>, id: Value)
    requires id in t
    ensures IdsFree(t, rows) ==> id !in IdsIn(rows)
  {
  }

  /** Two writes in one millisecond: the second leaves the version it found, and a write
      that still expects the first goes through over it. */
  lemma SameMillisecondLosesUpdate(cell: CellOf) returns (ws: seq<Write>, states: seq<Store>, id: Value)
    ensures Runs(cell, ws, states) && |ws| == 3
    ensures ws[2].Update? && ws[2].id == id && ws[2].lock == Some(0)
    ensures VersionsOf(states[2], id) == [0, 0] && Matches(states[2].table, id, ws[2].lock)
    ensures !StaleRefused(states[2], id)
  {
    hide Step, VersionsOf, StaleRefused, Matches, Ms;
    id := Text("order-1");
    var row: Record := [("id", id)];
    assert Get(row, "id") == id;
    var insert, second, third := Insert([row], 0), Update(id, [], Some(0), 500), Update(id, [], Some(0), 2000);
    SameMs();
    var s1 := InsertOne(cell, row, id);
    var s2 := UpdateAtVersionZero(cell, s1, id, 500);
    var s3 := UpdateAtVersionZero(cell, s2, id, 2000);
    ws, states := [insert, second, third], [EMPTY, s1, s2, s3];
    NotRefused(s2, id);
  }

  lemma SameMs()
    ensures Ms(500) == 0
  {
  }

  lemma NotRefused(s: Store, id: Value)
    requires id in s.table && s.table[id].updatedAt == 0 && VersionsOf(s, id) == [0] + [0]
    ensures Matches(s.table, id, Some(0)) && !StaleRefused(s, id)
  {
    assert VersionsOf(s, id)[0] == 0;
  }

  lemma InsertOne(cell: CellOf, row: Record, id: Value) returns (s: Store)
    requires Get(row, "id") == id
    ensures Step(cell, EMPTY, Insert([row], 0), s)
    ensures id in s.table && s.table[id].updatedAt == 0 && VersionsOf(s, id) == [0]
  {
    InsertedRows(cell, map[], ColumnsOf([row]), [row], 0);
    assert IdsIn([row]) == {id};
    s := Store(InsertEach(cell, map[], ColumnsOf([row]), [row], 0), BumpAll(map[], {id}, 0));
    assert IdsFree(map[], [row]);
  }

  lemma UpdateAtVersionZero(cell: CellOf, s: Store, id: Value, at: Time) returns (u: Store)
    requires id in s.table && s.table[id].updatedAt == 0
    ensures Step(cell, s, Update(id, [], Some(0), at), u)
    ensures id in u.table && u.table[id].updatedAt == Ms(at) && VersionsOf(u, id) == VersionsOf(s, id) + [Ms(at)]
  {
    u := Store(AfterUpdate(cell, s.table, id, [], Some(0), at), BumpAll(s.versions, {id}, at));
  }
}
