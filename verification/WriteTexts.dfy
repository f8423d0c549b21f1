/** The UPDATE and DELETE statements: SET, WHERE and lock share one parameter list. */
module WriteTexts {
  import opened Types
  import opened SqlText
  import opened SqlLogic
  import opened SqlPrecedence
  import opened FilterKeys
  import opened FilterClause
  import opened WhereClause
  import opened Placeholders
  import opened SelectStatement
  import opened WriteStatements
  import opened WriteLayouts

  /** One assignment per key, numbered from $1. */
  function Sets(cast: CastOf, keys: seq<string>): seq<string> {
    if keys == [] then []
    else
      var last := keys[|keys| - 1];
      Sets(cast, keys[..|keys| - 1]) + [last + (" = " + (Ph(|keys|) + cast(last)))]
  }

  /** The clause of an expected version, numbered n, or nothing. */
  function LockClause(lock: Option<Value>, n: nat): string { if lock.None? then "" else SEPARATOR + LockText(n) }

  function LockParams(lock: Option<Value>): seq<Value> { if lock.None? then [] else [lock.value] }

  function ReturningText(returning: seq<string>): string {
    if returning == [] then "" else " RETURNING " + JoinList(returning)
  }

  function WhereOf(fs: seq<Filter>, n: nat): string { JoinTexts(FilterTexts(fs, n)) }

  const STAMP := "updated_at = " + NOW_MS

  function SetList(cast: CastOf, keys: seq<string>): string { JoinList(Sets(cast, keys) + [STAMP]) }

  function UpdateText(table: string, assignments: string, w: string, lock: string, returning: string): string {
    "UPDATE " + table + " SET " + (assignments + (" WHERE " + (w + (lock + returning))))
  }

  function DeleteText(table: string, w: string, lock: string): string {
    "DELETE FROM " + table + " WHERE " + (w + lock)
  }

  method Assignments(cast: CastOf, cell: CellOf, data: Record) returns (list: string, values: seq<Value>)
    ensures list == SetList(cast, KeysOf(data)) && values == Cells(cell, KeysOf(data), data)
  {
    values := [];
    var sets: seq<string> := [];
    var keys, j := KeysOf(data), 0;
    while j < |keys|
      invariant 0 <= j <= |keys|
      invariant sets == Sets(cast, keys[..j]) && values == Cells(cell, keys, data)[..j]
    {
      values := values + [cell(keys[j], Get(data, keys[j]))];
      assert keys[..j + 1][..j] == keys[..j];
      sets := sets + [keys[j] + (" = " + (Ph(|values|) + cast(keys[j])))];
      j := j + 1;
    }
    assert keys[..j] == keys;
    list := JoinList(sets + [STAMP]);
  }

  /** The clause and the lock after `start` parameters, and their own parameters. */
  method BuildLockedWhere(filters: seq<(string, Value)>, lock: Option<Value>, cat: Catalog, start: nat)
    returns (r: Result<(string, string)>, values: seq<Value>)
    ensures r.Ok? <==> filters != [] && AllParse(cat, filters)
    ensures r.Ok? ==>
              var fs := WriteFilters(cat, filters);
              && values == FilterParams(fs) + LockParams(lock)
              && r.value == (WhereOf(fs, start), LockClause(lock, start + |FilterParams(fs)| + 1))
  {
    hide WriteFilters, AllParse, FilterParams, FilterTexts, JoinTexts, LockText;
    var w: Result<string>;
    w, values := BuildWhere(filters, cat, start);
    if w.Err? {
      return Err(w.error), values;
    }
    if lock.None? {
      assert values + [] == values;
      return Ok((w.value, "")), values;
    }
    values := values + [lock.value];
    return Ok((w.value, SEPARATOR + LockText(start + |values|))), values;
  }

  method BuildUpdate(table: string, data: Record, filters: seq<(string, Value)>, lock: Option<Value>,
                     returning: seq<string>, cat: Catalog)
    returns (r: Result<string>, values: seq<Value>)
    ensures r.Ok? <==> filters != [] && AllParse(cat, filters)
    ensures r.Ok? ==>
              var fs, k := WriteFilters(cat, filters), |data|;
              && values == Cells(CellsOf(cat), KeysOf(data), data) + (FilterParams(fs) + LockParams(lock))
              && r.value == UpdateText(table, SetList(CastsOf(cat), KeysOf(data)), WhereOf(fs, k),
                                       LockClause(lock, k + |FilterParams(fs)| + 1), ReturningText(returning))
    ensures r.Ok? && Plain(table) && PlainTexts(KeysOf(data)) && PlainKeys(filters) && PlainTexts(returning) ==>
              Scan(r.value) == Range(1, |values|)
  {
    hide *;
    var sets: string;
    sets, values := Assignments(CastsOf(cat), CellsOf(cat), data);
    var w, more := BuildLockedWhere(filters, lock, cat, |values|);
    if w.Err? {
      return Err(w.error), values;
    }
    values := values + more;
    ghost var keys := KeysOf(data);
    assert |Cells(CellsOf(cat), keys, data)| == |keys| == |data|;
    if Plain(table) && PlainTexts(keys) && PlainKeys(filters) && PlainTexts(returning) {
      CatalogCastsFollow(cat);
      PlainWriteFilters(cat, filters);
      UpdateInOrder(table, CastsOf(cat), keys, WriteFilters(cat, filters), lock, returning);
    }
    return Ok(UpdateText(table, sets, w.value.0, w.value.1, ReturningText(returning))), values;
  }

  method BuildDelete(table: string, filters: seq<(string, Value)>, lock: Option<Value>, cat: Catalog)
    returns (r: Result<string>, values: seq<Value>)
    ensures r.Ok? <==> filters != [] && AllParse(cat, filters)
    ensures r.Ok? ==>
              var fs := WriteFilters(cat, filters);
              && values == FilterParams(fs) + LockParams(lock)
              && r.value == DeleteText(table, WhereOf(fs, 0), LockClause(lock, |FilterParams(fs)| + 1))
    ensures r.Ok? && Plain(table) && PlainKeys(filters) ==> Scan(r.value) == Range(1, |values|)
  {
    hide *;
    var w: Result<(string, string)>;
    w, values := BuildLockedWhere(filters, lock, cat, 0);
    if w.Err? {
      return Err(w.error), values;
    }
    if Plain(table) && PlainKeys(filters) {
      PlainWriteFilters(cat, filters);
      DeleteInOrder(table, WriteFilters(cat, filters), lock);
    }
    return Ok(DeleteText(table, w.value.0, w.value.1)), values;
  }

  /** The row keys of updateMany that are assigned. */
  function WithoutId(keys: seq<string>): (ks: seq<string>)
    ensures "id" !in ks && forall k :: k in ks <==> k in keys && k != "id"
  {
    if keys == [] then []
    else
      WithoutId(keys[..|keys| - 1]) + if keys[|keys| - 1] == "id" then [] else [keys[|keys| - 1]]
  }

  function InsertText(table: string, keys: seq<string>, groups: seq<string>, returning: string): string {
    "INSERT INTO " + table + " (" + JoinList(keys + ["created_at", "updated_at"]) + ") VALUES "
    + (JoinList(groups) + returning)
  }

  /** insert: the keys of the first row decide for all rows; no rows, no statement. */
  method BuildInsert(table: string, rows: seq<Record>, returning: seq<string>, cat: Catalog)
    returns (sql: Option<string>, values: seq<Value>)
    ensures sql.None? <==> rows == []
    ensures rows != [] ==>
              var keys := KeysOf(rows[0]);
              && values == AllValues(CellsOf(cat), keys, rows)
              && sql.value
                 == InsertText(table, keys, Groups(CastsOf(cat), keys, |rows|, STAMPED), ReturningText(returning))
    ensures rows != [] && Plain(table) && PlainTexts(KeysOf(rows[0])) && PlainTexts(returning) ==>
              Scan(sql.value) == Range(1, |values|)
  {
    hide *;
    if rows == [] {
      return None, [];
    }
    var keys := KeysOf(rows[0]);
    var groups: seq<string>;
    groups, values := InsertRows(CastsOf(cat), CellsOf(cat), keys, rows, STAMPED);
    if Plain(table) && PlainTexts(keys) && PlainTexts(returning) {
      InsertInOrder(table, cat, keys, rows, returning);
    }
    return Some(InsertText(table, keys, groups, ReturningText(returning))), values;
  }

  function DataSets(keys: seq<string>): (r: seq<string>)
    ensures |r| == |keys|
  {
    seq(|keys|, k requires 0 <= k < |keys| => keys[k] + (" = data." + keys[k]))
  }

  function UpdateManyText(table: string, keys: seq<string>, groups: seq<string>): string {
    "UPDATE " + table + " AS t SET " + JoinList(DataSets(keys) + [STAMP]) + " FROM (VALUES " +
    (JoinList(groups) + (") AS data(" + JoinList(keys + ["id"]) + ") WHERE t.id = data.id"))
  }

  /** updateMany: nothing is sent without rows or without a column to set. */
  method BuildUpdateMany(table: string, rows: seq<Record>, cat: Catalog)
    returns (sql: Option<string>, values: seq<Value>)
    ensures sql.None? <==> rows == [] || WithoutId(KeysOf(rows[0])) == []
    ensures sql.Some? ==>
              var keys := WithoutId(KeysOf(rows[0]));
              && values == AllValues(IdRaw(CellsOf(cat)), keys + ["id"], rows)
              && sql.value == UpdateManyText(table, keys, Groups(CastsOf(cat), keys + ["id"], |rows|, ")"))
    ensures sql.Some? && Plain(table) && PlainTexts(KeysOf(rows[0])) ==> Scan(sql.value) == Range(1, |values|)
  {
    hide *;
    values := [];
    if rows == [] {
      return None, values;
    }
    var keys := WithoutId(KeysOf(rows[0]));
    if keys == [] {
      return None, values;
    }
    var groups: seq<string>;
    groups, values := UpdateRows(CastsOf(cat), CellsOf(cat), keys, rows);
    if Plain(table) && PlainTexts(KeysOf(rows[0])) {
      StillPlain(KeysOf(rows[0]), keys);
      UpdateManyInOrder(table, cat, keys, rows);
    }
    return Some(UpdateManyText(table, keys, groups)), values;
  }

  // ------------------------------------------------------------------ placeholders

  lemma SetScan(key: string, n: nat, cast: string)
    requires Plain(key) && Follows(cast)
    ensures Scan(key + (" = " + (Ph(n) + cast))) == [n]
  {
    SlotScan(n, cast);
    ScanPlain(" = ", Ph(n) + cast);
    ScanPlain(key, " = " + (Ph(n) + cast));
  }

  lemma {:induction false} SetsScan(cast: CastOf, keys: seq<string>)
    requires CastsFollow(cast) && PlainTexts(keys)
    ensures ScanAll(Sets(cast, keys)) == Range(1, |keys|)
  {
    if keys != [] {
      var init, last := keys[..|keys| - 1], keys[|keys| - 1];
      assert last in keys;
      SetsScan(cast, init);
      SetScan(last, |keys|, cast(last));
      ScanAllMore(Sets(cast, init), last + (" = " + (Ph(|keys|) + cast(last))));
      RangeMore(1, |keys| - 1);
    }
  }

  lemma SetListScan(cast: CastOf, keys: seq<string>)
    requires CastsFollow(cast) && PlainTexts(keys)
    ensures Scan(SetList(cast, keys)) == Range(1, |keys|)
  {
    SetsScan(cast, keys);
    ScanList(Sets(cast, keys) + [STAMP]);
    ScanAllMore(Sets(cast, keys), STAMP);
    NowIsPlain();
    PlainJoin("updated_at = ", NOW_MS);
    ScanOfPlain(STAMP);
  }

  lemma LockScan(n: nat)
    ensures Scan(LockText(n)) == [n]
  {
    var head := LOCK_COLUMN + " = date_trunc('milliseconds', ";
    assert Plain(LOCK_COLUMN) && Plain(" = date_trunc('milliseconds', ");
    assert CastText(LOCK_CAST) == "::timestamptz" + "" && Plain("::timestamptz");
    var tail := CastText(LOCK_CAST) + ")";
    assert Placeholder(n, LOCK_CAST) + ")" == Ph(n) + tail;
    ScanAround(head, n, tail);
  }

  lemma LockClauseScan(lock: Option<Value>, n: nat)
    ensures Scan(LockClause(lock, n)) == Range(n, |LockParams(lock)|) && !StartsWithDigit(LockClause(lock, n))
  {
    if lock.Some? {
      LockScan(n);
      ScanPlain(SEPARATOR, LockText(n));
    }
  }

  lemma FiltersInOrder(fs: seq<Filter>, n: nat)
    requires PlainFilters(fs)
    ensures Scan(WhereOf(fs, n)) == Range(n + 1, |FilterParams(fs)|)
  {
    ScanJoined(FilterTexts(fs, n));
    FiltersScan(fs, n);
  }

  lemma ReturningFollows(returning: seq<string>)
    requires PlainTexts(returning)
    ensures Follows(ReturningText(returning))
  {
    PlainList(returning);
    PlainJoin(" RETURNING ", JoinList(returning));
  }

  lemma RangesMeet(i: nat, j: nat, k: nat)
    ensures Range(1, i) + (Range(i + 1, j) + Range(i + j + 1, k)) == Range(1, i + j + k)
  {
    RangeJoin(i + 1, j, k);
    RangeJoin(1, i, j + k);
  }

  lemma WhereScan3(w: string, lock: string, rest: string)
    requires Follows(rest) && !StartsWithDigit(lock)
    ensures Scan(w + (lock + rest)) == Scan(w) + Scan(lock)
  {
    if lock == "" { assert lock + rest == rest; }
    ScanJoin(w, lock + rest);
    ScanJoin(lock, rest);
    ScanOfPlain(rest);
    assert Scan(lock) + [] == Scan(lock);
  }

  lemma BetweenScan(head: string, a: string, sep: string, b: string)
    requires Plain(head) && Follows(sep) && sep != ""
    ensures Scan(head + (a + (sep + b))) == Scan(a) + Scan(b)
  {
    ScanPlain(head, a + (sep + b));
    ScanJoin(a, sep + b);
    ScanPlain(sep, b);
  }

  /** Parts numbered one after the other make a statement numbered from $1. */
  lemma UpdateScan(table: string, assignments: string, w: string, lock: string, rest: string, i: nat, j: nat, k: nat)
    requires Plain(table) && Follows(rest) && !StartsWithDigit(lock)
    requires Scan(assignments) == Range(1, i) && Scan(w) == Range(i + 1, j) && Scan(lock) == Range(i + j + 1, k)
    ensures Scan(UpdateText(table, assignments, w, lock, rest)) == Range(1, i + j + k)
  {
    PlainJoin("UPDATE ", table);
    PlainJoin("UPDATE " + table, " SET ");
    BetweenScan("UPDATE " + table + " SET ", assignments, " WHERE ", w + (lock + rest));
    WhereScan3(w, lock, rest);
    RangesMeet(i, j, k);
  }

  lemma DeleteScan(table: string, w: string, lock: string, j: nat, k: nat)
    requires Plain(table) && !StartsWithDigit(lock) && Scan(w) == Range(1, j) && Scan(lock) == Range(j + 1, k)
    ensures Scan(DeleteText(table, w, lock)) == Range(1, j + k)
  {
    PlainJoin("DELETE FROM ", table);
    PlainJoin("DELETE FROM " + table, " WHERE ");
    ScanPlain("DELETE FROM " + table + " WHERE ", w + lock);
    ScanJoin(w, lock);
    RangeJoin(1, j, k);
  }

  lemma SetsThenWhere(table: string, cast: CastOf, keys: seq<string>, w: string, lock: string, returning: seq<string>,
                      j: nat, k: nat)
    requires Plain(table) && CastsFollow(cast) && PlainTexts(keys) && PlainTexts(returning) && !StartsWithDigit(lock)
    requires Scan(w) == Range(|keys| + 1, j) && Scan(lock) == Range(|keys| + j + 1, k)
    ensures Scan(UpdateText(table, SetList(cast, keys), w, lock, ReturningText(returning))) == Range(1, |keys| + j + k)
  {
    SetListScan(cast, keys);
    ReturningFollows(returning);
    UpdateScan(table, SetList(cast, keys), w, lock, ReturningText(returning), |keys|, j, k);
  }

  /** SET, WHERE, lock and RETURNING together show exactly $1 ... $k for the k values. */
  lemma UpdateInOrder(table: string, cast: CastOf, keys: seq<string>, fs: seq<Filter>, lock: Option<Value>,
                      returning: seq<string>)
    requires Plain(table) && CastsFollow(cast) && PlainTexts(keys) && PlainFilters(fs) && PlainTexts(returning)
    ensures var n := |keys| + |FilterParams(fs)|;
            Scan(UpdateText(table, SetList(cast, keys), WhereOf(fs, |keys|), LockClause(lock, n + 1),
                            ReturningText(returning)))
            == Range(1, n + |LockParams(lock)|)
  {
    hide *;
    var n := |FilterParams(fs)|;
    FiltersInOrder(fs, |keys|);
    LockClauseScan(lock, |keys| + n + 1);
    SetsThenWhere(table, cast, keys, WhereOf(fs, |keys|), LockClause(lock, |keys| + n + 1), returning, n,
                  |LockParams(lock)|);
  }

  lemma DeleteInOrder(table: string, fs: seq<Filter>, lock: Option<Value>)
    requires Plain(table) && PlainFilters(fs)
    ensures var n := |FilterParams(fs)|;
            Scan(DeleteText(table, WhereOf(fs, 0), LockClause(lock, n + 1))) == Range(1, n + |LockParams(lock)|)
  {
    hide *;
    FiltersInOrder(fs, 0);
    LockClauseScan(lock, |FilterParams(fs)| + 1);
    DeleteScan(table, WhereOf(fs, 0), LockClause(lock, |FilterParams(fs)| + 1), |FilterParams(fs)|, |LockParams(lock)|);
  }

  /** No filter key contains a `$`. */
  predicate PlainKeys(filters: seq<(string, Value)>) { forall e :: e in filters ==> Plain(e.0) }

  lemma PlainWriteFilter(cat: Catalog, e: (string, Value))
    requires WriteFilter(cat, e).Ok? && Plain(e.0)
    ensures PlainFilter(WriteFilter(cat, e).value)
  {
    var key := ParseFilterKey(e.0).value;
    CastForOk(cat.typeOf(key.field), 0);
    CastForOk(cat.typeOf(key.field), 1);
  }

  lemma {:induction false} PlainWriteFilters(cat: Catalog, es: seq<(string, Value)>)
    requires AllParse(cat, es) && PlainKeys(es)
    ensures PlainFilters(WriteFilters(cat, es))
  {
    hide WriteFilter, PlainFilter;
    if es != [] {
      assert es[0] in es;
      PlainWriteFilter(cat, es[0]);
      PlainWriteFilters(cat, es[1..]);
      assert WriteFilters(cat, es)[1..] == WriteFilters(cat, es[1..]);
    }
  }

  lemma StillPlain(keys: seq<string>, some: seq<string>)
    requires PlainTexts(keys) && forall k :: k in some ==> k in keys
    ensures PlainTexts(some)
  {
  }

  /** Between two texts without placeholders a VALUES list keeps its own. */
  lemma ListScan(head: string, list: string, tail: string)
    requires Plain(head) && Follows(tail)
    ensures Scan(head + (list + tail)) == Scan(list)
  {
    ScanPlain(head, list + tail);
    ScanJoin(list, tail);
    ScanOfPlain(tail);
    assert Scan(list) + [] == Scan(list);
  }

  lemma InsertHead(table: string, keys: seq<string>)
    requires Plain(table) && PlainTexts(keys)
    ensures Plain("INSERT INTO " + table + " (" + JoinList(keys + ["created_at", "updated_at"]) + ") VALUES ")
  {
    var columns := keys + ["created_at", "updated_at"];
    assert Plain("created_at") && Plain("updated_at");
    PlainList(columns);
    PlainJoin("INSERT INTO ", table);
    PlainJoin("INSERT INTO " + table, " (");
    PlainJoin("INSERT INTO " + table + " (", JoinList(columns));
    PlainJoin("INSERT INTO " + table + " (" + JoinList(columns), ") VALUES ");
  }

  /** The insert statement shows exactly $1 ... $k for the k values of its rows. */
  lemma InsertInOrder(table: string, cat: Catalog, keys: seq<string>, rows: seq<Record>, returning: seq<string>)
    requires Plain(table) && PlainTexts(keys) && PlainTexts(returning)
    ensures Scan(InsertText(table, keys, Groups(CastsOf(cat), keys, |rows|, STAMPED), ReturningText(returning)))
            == Range(1, |AllValues(CellsOf(cat), keys, rows)|)
  {
    hide JoinList, Groups, AllValues, ReturningText, Scan, Follows, CastsFollow, PlainTexts;
    CatalogCastsFollow(cat);
    StampedFollows();
    LayoutInOrder(CastsOf(cat), CellsOf(cat), keys, rows, STAMPED);
    InsertHead(table, keys);
    ReturningFollows(returning);
    ListScan("INSERT INTO " + table + " (" + JoinList(keys + ["created_at", "updated_at"]) + ") VALUES ",
             JoinList(Groups(CastsOf(cat), keys, |rows|, STAMPED)), ReturningText(returning));
  }

  lemma PlainDataSets(keys: seq<string>)
    requires PlainTexts(keys)
    ensures PlainTexts(DataSets(keys) + [STAMP])
  {
    NowIsPlain();
    PlainJoin("updated_at = ", NOW_MS);
    forall t | t in DataSets(keys) + [STAMP]
      ensures Plain(t)
    {
      if t != STAMP {
        var k :| 0 <= k < |keys| && t == keys[k] + (" = data." + keys[k]);
        assert keys[k] in keys;
        PlainJoin(" = data.", keys[k]);
        PlainJoin(keys[k], " = data." + keys[k]);
      }
    }
  }

  lemma UpdateManyHead(table: string, keys: seq<string>)
    requires Plain(table) && PlainTexts(keys)
    ensures Plain("UPDATE " + table + " AS t SET " + JoinList(DataSets(keys) + [STAMP]) + " FROM (VALUES ")
  {
    hide JoinList, DataSets;
    PlainDataSets(keys);
    var list := DataSets(keys) + [STAMP];
    PlainList(list);
    PlainJoin("UPDATE ", table);
    PlainJoin("UPDATE " + table, " AS t SET ");
    PlainJoin("UPDATE " + table + " AS t SET ", JoinList(list));
    PlainJoin("UPDATE " + table + " AS t SET " + JoinList(list), " FROM (VALUES ");
  }

  lemma UpdateManyTail(keys: seq<string>)
    requires PlainTexts(keys)
    ensures Follows(") AS data(" + JoinList(keys + ["id"]) + ") WHERE t.id = data.id")
  {
    hide JoinList;
    assert Plain("id");
    PlainList(keys + ["id"]);
    PlainJoin(") AS data(", JoinList(keys + ["id"]));
    PlainJoin(") AS data(" + JoinList(keys + ["id"]), ") WHERE t.id = data.id");
  }

  /** The bulk update shows exactly $1 ... $k for the k values of its rows, ids included. */
  lemma UpdateManyInOrder(table: string, cat: Catalog, keys: seq<string>, rows: seq<Record>)
    requires Plain(table) && PlainTexts(keys)
    ensures Scan(UpdateManyText(table, keys, Groups(CastsOf(cat), keys + ["id"], |rows|, ")")))
            == Range(1, |AllValues(IdRaw(CellsOf(cat)), keys + ["id"], rows)|)
  {
    hide JoinList, Groups, AllValues, Scan, CastsFollow, PlainTexts, DataSets;
    CatalogCastsFollow(cat);
    LayoutInOrder(CastsOf(cat), IdRaw(CellsOf(cat)), keys + ["id"], rows, ")");
    UpdateManyHead(table, keys);
    UpdateManyTail(keys);
    ListScan("UPDATE " + table + " AS t SET " + JoinList(DataSets(keys) + [STAMP]) + " FROM (VALUES ",
             JoinList(Groups(CastsOf(cat), keys + ["id"], |rows|, ")")),
             ") AS data(" + JoinList(keys + ["id"]) + ") WHERE t.id = data.id");
  }

  // ----------------------------------------------------------------- what they stand for

  /** The assignment of a key shows one placeholder, and the parameter with that number
      is what the adapter stores for the key. */
  lemma AssignmentStandsForValue(cat: Catalog, data: Record, more: seq<Value>, j: nat)
    requires j < |data| && PlainTexts(KeysOf(data))
    ensures var keys, values := KeysOf(data), Cells(CellsOf(cat), KeysOf(data), data) + more;
            && |Sets(CastsOf(cat), keys)| == |keys| && Scan(Sets(CastsOf(cat), keys)[j]) == [j + 1]
            && data[j].0 + " = " <= Sets(CastsOf(cat), keys)[j]
            && values[j] == Stored(cat, data[j].0, Get(data, data[j].0))
  {
    hide Stored, CastFor, CastText;
    CatalogCastsFollow(cat);
    var keys := KeysOf(data);
    assert keys[j] in keys;
    SetAt(CastsOf(cat), keys, j);
    SetScan(keys[j], j + 1, CastsOf(cat)(keys[j]));
    assert keys[j] + (" = " + (Ph(j + 1) + CastsOf(cat)(keys[j])))
           == keys[j] + " = " + (Ph(j + 1) + CastsOf(cat)(keys[j]));
  }

  lemma {:induction false} SetAt(cast: CastOf, keys: seq<string>, j: nat)
    requires j < |keys|
    ensures |Sets(cast, keys)| == |keys| && Sets(cast, keys)[j] == keys[j] + (" = " + (Ph(j + 1) + cast(keys[j])))
  {
    var init := keys[..|keys| - 1];
    if j < |init| {
      SetAt(cast, init, j);
    } else if init != [] {
      SetAt(cast, init, 0);
    }
  }

  function LockTruths(env: Env, lock: Option<Value>): seq<Truth> {
    if lock.None? then [] else [env.other(LockItems(lock.value))]
  }

  /** The clause of the update statement, read with the statement's parameters, means
      every filter and the lock, however many columns are set before it. */
  lemma UpdateWhereMeans(env: Env, fs: seq<Filter>, before: seq<Value>, lock: Option<Value>)
    requires FiltersOk(fs) && fs != []
    ensures Meaning(env, WhereOf(fs, |before|) + LockClause(lock, |before| + |FilterParams(fs)| + 1),
                    before + (FilterParams(fs) + LockParams(lock)))
            == Conj(FilterTruths(env, fs) + LockTruths(env, lock))
  {
    hide Meaning, Conj, FilterTexts, FilterParams, FilterTruths, LockText, LockItems, JoinTexts, FiltersOk;
    if lock.Some? {
      LockedWhereMeans(env, fs, before, lock.value);
    } else {
      NoRaws(env, fs, before);
      WhereMeansConjunction(env, fs, [], before);
      assert WhereOf(fs, |before|) + "" == WhereOf(fs, |before|);
    }
  }

  lemma NoRaws(env: Env, fs: seq<Filter>, before: seq<Value>)
    ensures RawsOk([]) && AllParams(fs, []) == FilterParams(fs) + [] && RawTruths(env, []) == []
    ensures WhereSql(fs, [], |before|) == WhereOf(fs, |before|)
  {
    assert FilterTexts(fs, |before|) + [] == FilterTexts(fs, |before|);
  }
}
