/** build(): the page statement and the total statement around one WHERE clause. */
module SelectStatement {
  import opened Types
  import opened SqlText
  import opened SqlLogic
  import opened WhereClause
  import opened Placeholders
  import opened QueryBuilder

  datatype Paging = Paging(page: int, pageSize: int, distinctOn: seq<string>)

  /** The parts around the clause, already rendered and resolved. */
  datatype Query = Query(columns: string, joins: seq<string>, groupBys: seq<string>, order: string,
                         paging: Option<Paging>)

  datatype Product = Product(sql: string, countSql: Option<string>, params: seq<Value>)

  function Offset(page: int, pageSize: int): nat {
    if (page - 1) * pageSize < 0 then 0 else (page - 1) * pageSize
  }

  function IntText(n: int): string { if n < 0 then "-" + Decimal(-n) else Decimal(n) }

  function JoinList(parts: seq<string>): string {
    if parts == [] then "" else if |parts| == 1 then parts[0] else parts[0] + (", " + JoinList(parts[1..]))
  }

  function JoinsText(joins: seq<string>): string {
    if joins == [] then "" else JoinsText(joins[..|joins| - 1]) + (" " + joins[|joins| - 1])
  }

  function GroupText(groups: seq<string>): string { if groups == [] then "" else " GROUP BY " + JoinList(groups) }

  function WhereText(w: string): string { if w == "" then "" else " WHERE " + w }

  function OrderText(order: string): string { if order == "" then "" else " ORDER BY " + order }

  datatype Limit = Limit(size: int, offset: nat)

  function LimitText(l: Option<Limit>): string {
    if l.None? then "" else " LIMIT " + (IntText(l.value.size) + (" OFFSET " + Decimal(l.value.offset)))
  }

  /** The three statements build() can emit. `from` is the table with its joins. */
  datatype Statement =
    | Page(columns: string, distinct: seq<string>, from: string, w: string, groups: seq<string>, order: string,
           limit: Option<Limit>)
    | CountRows(from: string, w: string)
    | CountGroups(from: string, w: string, groups: seq<string>)

  function Head(columns: string, distinct: seq<string>, from: string): string {
    var on := if distinct == [] then "" else "DISTINCT ON (" + (JoinList(distinct) + ") ");
    "SELECT " + (on + (columns + (" FROM " + from)))
  }

  function Tail(groups: seq<string>, order: string, limit: Option<Limit>): string {
    GroupText(groups) + (OrderText(order) + LimitText(limit))
  }

  const COUNT := "SELECT COUNT(*)::bigint AS count FROM "

  function StatementText(s: Statement): string {
    match s
    case Page(columns, distinct, from, w, groups, order, limit) =>
      Head(columns, distinct, from) + (WhereText(w) + Tail(groups, order, limit))
    case CountRows(from, w) => COUNT + from + (WhereText(w) + "")
    case CountGroups(from, w, groups) =>
      COUNT + "(SELECT 1 FROM " + from + (WhereText(w) + (GroupText(groups) + ") AS _grouped"))
  }

  function FromText(q: Query, table: string): string { table + JoinsText(q.joins) }

  function DistinctOn(q: Query): seq<string> { if q.paging.None? then [] else q.paging.value.distinctOn }

  function LimitOf(q: Query): Option<Limit> {
    if q.paging.None? then None
    else Some(Limit(q.paging.value.pageSize, Offset(q.paging.value.page, q.paging.value.pageSize)))
  }

  function PageOf(q: Query, table: string, w: string): Statement {
    Page(q.columns, DistinctOn(q), FromText(q, table), w, q.groupBys, q.order, LimitOf(q))
  }

  /** Over the groups when there is a GROUP BY, over the rows otherwise. */
  function TotalOf(q: Query, table: string, w: string): Statement {
    if q.groupBys != [] then CountGroups(FromText(q, table), w, q.groupBys) else CountRows(FromText(q, table), w)
  }

  lemma HeadIs(columns: string, table: string, joins: string)
    ensures "SELECT " + columns + " FROM " + table + joins == Head(columns, [], table + joins)
  {
    var rest := columns + (" FROM " + (table + joins));
    assert "SELECT " + columns + " FROM " + table + joins == "SELECT " + ("" + rest);
  }

  /** DISTINCT ON goes in after the leading SELECT. */
  lemma DistinctIs(columns: string, distinct: seq<string>, from: string, rest: string)
    requires distinct != []
    ensures |"SELECT "| <= |Head(columns, [], from) + rest|
    ensures "SELECT DISTINCT ON (" + JoinList(distinct) + ") " + (Head(columns, [], from) + rest)[|"SELECT "|..]
            == Head(columns, distinct, from) + rest
  {
    hide JoinList;
    var on, all := JoinList(distinct), columns + (" FROM " + from);
    assert Head(columns, [], from) + rest == "SELECT " + (all + rest);
    assert "SELECT " + (("DISTINCT ON (" + (on + ") ")) + all) + rest
           == "SELECT DISTINCT ON (" + on + ") " + (all + rest);
  }

  lemma TailIs(head: string, w: string, groups: string, order: string, limit: string)
    ensures head + (w + (groups + order)) + limit == head + (w + (groups + (order + limit)))
  {
  }

  lemma ClausesAre(start: string, w: string, groups: string, order: string)
    ensures start + w + groups + order == start + (w + (groups + order)) && start + "" == start
    ensures start + w + "" == start + w && start + w + groups + "" == start + w + groups
  {
  }

  /** The FROM and JOIN part after some text. */
  method AddJoins(start: string, q: Query) returns (sql: string)
    ensures sql == start + JoinsText(q.joins)
  {
    sql := start;
    var i := 0;
    while i < |q.joins|
      invariant 0 <= i <= |q.joins| && sql == start + JoinsText(q.joins[..i])
    {
      assert q.joins[..i + 1][..i] == q.joins[..i];
      Assoc(start, JoinsText(q.joins[..i]), " " + q.joins[i]);
      sql := sql + (" " + q.joins[i]);
      i := i + 1;
    }
    assert q.joins[..i] == q.joins;
  }

  lemma CountIs(from: string, w: string, groups: string)
    ensures COUNT + ("(" + ("SELECT 1 FROM " + from + w + groups) + ") AS _grouped")
            == COUNT + "(SELECT 1 FROM " + from + (w + (groups + ") AS _grouped"))
    ensures COUNT + from + w == COUNT + from + (w + "")
  {
  }

  method BuildCountSql(q: Query, table: string, w: string) returns (sql: string)
    ensures sql == StatementText(TotalOf(q, table, w))
  {
    hide JoinList, JoinsText, COUNT;
    CountIs(FromText(q, table), WhereText(w), GroupText(q.groupBys));
    if q.groupBys != [] {
      sql := AddJoins("SELECT 1 FROM " + table, q);
      Assoc("SELECT 1 FROM ", table, JoinsText(q.joins));
      if w != "" {
        sql := sql + (" WHERE " + w);
      }
      sql := sql + (" GROUP BY " + JoinList(q.groupBys));
      sql := COUNT + ("(" + sql + ") AS _grouped");
    } else {
      sql := AddJoins(COUNT + table, q);
      Assoc(COUNT, table, JoinsText(q.joins));
      if w != "" {
        sql := sql + (" WHERE " + w);
      }
    }
  }

  /** WHERE, GROUP BY and ORDER BY, each only if there is something to say. */
  method AddClauses(start: string, w: string, groups: seq<string>, order: string) returns (sql: string)
    ensures sql == start + (WhereText(w) + (GroupText(groups) + OrderText(order)))
  {
    hide JoinList;
    ClausesAre(start, WhereText(w), GroupText(groups), OrderText(order));
    sql := start;
    if w != "" {
      sql := sql + (" WHERE " + w);
    }
    if groups != [] {
      sql := sql + (" GROUP BY " + JoinList(groups));
    }
    if order != "" {
      sql := sql + (" ORDER BY " + order);
    }
  }

  method BuildPageSql(q: Query, table: string, w: string) returns (sql: string)
    ensures sql == StatementText(PageOf(q, table, w))
  {
    hide JoinList, JoinsText, Head, IntText, Decimal, Offset, WhereText, GroupText, OrderText;
    ghost var from, rest := FromText(q, table), WhereText(w) + (GroupText(q.groupBys) + OrderText(q.order));
    HeadIs(q.columns, table, JoinsText(q.joins));
    sql := AddJoins("SELECT " + q.columns + " FROM " + table, q);
    sql := AddClauses(sql, w, q.groupBys, q.order);
    if q.paging.Some? && q.paging.value.distinctOn != [] {
      DistinctIs(q.columns, q.paging.value.distinctOn, from, rest);
      sql := "SELECT DISTINCT ON (" + JoinList(q.paging.value.distinctOn) + ") " + sql[|"SELECT "|..];
    }
    assert sql == Head(q.columns, DistinctOn(q), from) + rest;
    TailIs(Head(q.columns, DistinctOn(q), from), WhereText(w), GroupText(q.groupBys), OrderText(q.order),
           LimitText(LimitOf(q)));
    if q.paging.Some? {
      var p := q.paging.value;
      sql := sql + (" LIMIT " + (IntText(p.pageSize) + (" OFFSET " + Decimal(Offset(p.page, p.pageSize)))));
    } else {
      assert sql + "" == sql;
    }
  }

  method Build(resolve: Resolver, entries: seq<Entry>, raws: seq<Raw>, q: Query, table: Option<string>)
    returns (r: Result<Product>)
    ensures r.Ok? <==> table.Some? && AllResolve(resolve, entries) && AllMatch(raws)
    ensures r.Ok? ==>
              var fs := FiltersOf(resolve, entries);
              var w := WhereSql(fs, raws, 0);
              && r.value.params == AllParams(fs, raws)
              && r.value.sql == StatementText(PageOf(q, table.value, w))
              && r.value.countSql == if q.paging.Some? then Some(StatementText(TotalOf(q, table.value, w))) else None
  {
    if table.None? {
      return Err(".from(table) is required");
    }
    var w, params := BuildWhereSql(resolve, entries, raws, []);
    if w.Err? {
      return Err(w.error);
    }
    assert [] + AllParams(FiltersOf(resolve, entries), raws) == AllParams(FiltersOf(resolve, entries), raws);
    var sql := BuildPageSql(q, table.value, w.value);
    if q.paging.None? {
      return Ok(Product(sql, None, params));
    }
    var countSql := BuildCountSql(q, table.value, w.value);
    return Ok(Product(sql, Some(countSql), params));
  }

  // ------------------------------------------------------------------ placeholders

  predicate PlainTexts(ts: seq<string>) { forall t :: t in ts ==> Plain(t) }

  predicate PlainQuery(q: Query) {
    && Plain(q.columns) && Plain(q.order) && PlainTexts(q.joins) && PlainTexts(q.groupBys)
    && (q.paging.Some? ==> PlainTexts(q.paging.value.distinctOn))
  }

  lemma {:induction false} PlainList(ts: seq<string>)
    requires PlainTexts(ts)
    ensures Plain(JoinList(ts))
  {
    if |ts| >= 1 {
      assert ts[0] in ts;
      if |ts| > 1 {
        assert forall t :: t in ts[1..] ==> t in ts;
        PlainList(ts[1..]);
        PlainJoin(", ", JoinList(ts[1..]));
        PlainJoin(ts[0], ", " + JoinList(ts[1..]));
      }
    }
  }

  lemma {:induction false} PlainJoins(ts: seq<string>)
    requires PlainTexts(ts)
    ensures Plain(JoinsText(ts))
  {
    if ts != [] {
      assert ts[|ts| - 1] in ts;
      PlainJoins(ts[..|ts| - 1]);
      PlainJoin(" ", ts[|ts| - 1]);
      PlainJoin(JoinsText(ts[..|ts| - 1]), " " + ts[|ts| - 1]);
    }
  }

  lemma {:induction false} PlainDecimal(n: nat)
    ensures Plain(Decimal(n))
  {
    if n >= 10 { PlainDecimal(n / 10); }
  }

  lemma PlainFrom(table: string, joins: seq<string>)
    requires Plain(table) && PlainTexts(joins)
    ensures Plain(table + JoinsText(joins))
  {
    PlainJoins(joins);
    PlainJoin(table, JoinsText(joins));
  }

  lemma PlainHead(columns: string, distinct: seq<string>, from: string)
    requires Plain(columns) && PlainTexts(distinct) && Plain(from)
    ensures Plain(Head(columns, distinct, from))
  {
    hide JoinList;
    var on := JoinList(distinct);
    PlainList(distinct);
    PlainJoin(on, ") ");
    PlainJoin("DISTINCT ON (", on + ") ");
    PlainJoin(" FROM ", from);
    PlainJoin(columns, " FROM " + from);
    var before := if distinct == [] then "" else "DISTINCT ON (" + (on + ") ");
    PlainJoin(before, columns + (" FROM " + from));
    PlainJoin("SELECT ", before + (columns + (" FROM " + from)));
  }

  /** Text that may follow a clause without running into its last placeholder. */
  predicate Follows(s: string) { Plain(s) && !StartsWithDigit(s) }

  lemma GroupFollows(groups: seq<string>)
    requires PlainTexts(groups)
    ensures Follows(GroupText(groups))
  {
    PlainList(groups);
    PlainJoin(" GROUP BY ", JoinList(groups));
  }

  lemma LimitFollows(l: Option<Limit>)
    ensures Follows(LimitText(l))
  {
    if l.Some? {
      var size, offset := l.value.size, l.value.offset;
      PlainDecimal(if size < 0 then -size else size);
      PlainDecimal(offset);
      PlainJoin(" OFFSET ", Decimal(offset));
      PlainJoin(IntText(size), " OFFSET " + Decimal(offset));
      PlainJoin(" LIMIT ", IntText(size) + (" OFFSET " + Decimal(offset)));
    }
  }

  lemma BothFollow(a: string, b: string)
    requires Follows(a) && Follows(b)
    ensures Follows(a + b)
  {
    PlainJoin(a, b);
    if a == "" { assert a + b == b; }
  }

  lemma TailFollows(groups: seq<string>, order: string, limit: Option<Limit>)
    requires PlainTexts(groups) && Plain(order)
    ensures Follows(Tail(groups, order, limit))
  {
    hide LimitText;
    GroupFollows(groups);
    LimitFollows(limit);
    BothFollow(OrderText(order), LimitText(limit));
    BothFollow(GroupText(groups), OrderText(order) + LimitText(limit));
  }

  lemma ScanBetween(a: string, w: string, b: string)
    requires Plain(a) && Follows(b)
    ensures Scan(a + (WhereText(w) + b)) == Scan(w)
  {
    ScanPlain(a, WhereText(w) + b);
    ScanOfPlain(b);
    if w == "" {
      assert WhereText(w) + b == b;
    } else {
      Assoc(" WHERE ", w, b);
      ScanPlain(" WHERE ", w + b);
      ScanJoin(w, b);
    }
  }

  lemma PageScan(q: Query, table: string, w: string)
    requires PlainQuery(q) && Plain(table)
    ensures Scan(StatementText(PageOf(q, table, w))) == Scan(w)
  {
    hide Head, Tail, WhereText, Scan, Plain, LimitOf, JoinsText;
    PlainFrom(table, q.joins);
    PlainHead(q.columns, DistinctOn(q), FromText(q, table));
    TailFollows(q.groupBys, q.order, LimitOf(q));
    ScanBetween(Head(q.columns, DistinctOn(q), FromText(q, table)), w, Tail(q.groupBys, q.order, LimitOf(q)));
  }

  lemma TotalScan(q: Query, table: string, w: string)
    requires PlainQuery(q) && Plain(table)
    ensures Scan(StatementText(TotalOf(q, table, w))) == Scan(w)
  {
    hide WhereText, Scan, GroupText, JoinList;
    var from := FromText(q, table);
    PlainFrom(table, q.joins);
    PlainJoin(COUNT, from);
    PlainJoin(COUNT + "(SELECT 1 FROM ", from);
    GroupFollows(q.groupBys);
    BothFollow(GroupText(q.groupBys), ") AS _grouped");
    if q.groupBys != [] {
      ScanBetween(COUNT + "(SELECT 1 FROM " + from, w, GroupText(q.groupBys) + ") AS _grouped");
    } else {
      ScanBetween(COUNT + from, w, "");
    }
  }

  /** The page statement and the total statement both show exactly $1 ... $k for the k
      parameters, in order, if and only if no raw fragment has a digit right after a `?`. */
  lemma BothStatementsNumbered(fs: seq<Filter>, raws: seq<Raw>, q: Query, table: string)
    requires PlainFilters(fs) && AllCounted(raws) && PlainQuery(q) && Plain(table)
    ensures var w, k := WhereSql(fs, raws, 0), |FilterParams(fs) + RawParams(raws)|;
            && (Scan(StatementText(PageOf(q, table, w))) == Range(1, k) <==> MarksApart(raws))
            && (Scan(StatementText(TotalOf(q, table, w))) == Range(1, k) <==> MarksApart(raws))
  {
    hide *;
    var w := WhereSql(fs, raws, 0);
    PageScan(q, table, w);
    TotalScan(q, table, w);
    WherePlaceholdersIff(fs, raws, 0);
  }
}
