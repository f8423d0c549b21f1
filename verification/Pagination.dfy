/** Pages of an ordered result and its total, and how page numbers are read. */
module Pagination {
  import opened Types
  import opened SqlText
  import opened SqlLogic
  import opened SqlPrecedence
  import opened FilterClause
  import opened WhereClause
  import opened QueryBuilder
  import opened SelectStatement

  // ------------------------------------------------------------------------ windows

  /** LIMIT size OFFSET offset over an ordered result. */
  function Window<T>(rows: seq<T>, size: nat, offset: nat): seq<T> {
    if offset >= |rows| then [] else rows[offset..Min(offset + size, |rows|)]
  }

  function NthPage<T>(rows: seq<T>, page: int, size: nat): seq<T> { Window(rows, size, Offset(page, size)) }

  function PagesTo<T>(rows: seq<T>, size: nat, last: nat): seq<T> {
    if last == 0 then [] else PagesTo(rows, size, last - 1) + NthPage(rows, last, size)
  }

  function PageCount(n: nat, size: nat): nat
    requires size >= 1
  {
    (n + size - 1) / size
  }

  lemma OffsetIs(page: nat, size: nat)
    requires page >= 1
    ensures Offset(page, size) == (page - 1) * size
  {
  }

  lemma NextPage(page: nat, size: nat)
    requires page >= 1
    ensures (page - 1) * size + size == page * size
  {
  }

  lemma {:induction false} PagesAreAPrefix<T>(rows: seq<T>, size: nat, last: nat)
    requires size >= 1
    ensures PagesTo(rows, size, last) == rows[..Min(last * size, |rows|)]
  {
    if last > 0 {
      PagesAreAPrefix(rows, size, last - 1);
      OffsetIs(last, size);
      NextPage(last, size);
    }
  }

  lemma EnoughPages(n: nat, size: nat, last: nat)
    requires size >= 1
    ensures last * size >= n <==> last >= PageCount(n, size)
  {
    var q := PageCount(n, size);
    assert q * size >= n && (q >= 1 ==> (q - 1) * size < n);
    if last >= q {
      assert (last - q) * size >= 0;
    } else {
      assert (q - 1 - last) * size >= 0;
    }
  }

  /** Pages 1, 2, ... laid end to end give the whole result, each row once and in order,
      if and only if there are at least ceil(n / size) of them. */
  lemma PagesTileIff<T>(rows: seq<T>, size: nat, last: nat)
    requires size >= 1
    ensures PagesTo(rows, size, last) == rows <==> last >= PageCount(|rows|, size)
  {
    PagesAreAPrefix(rows, size, last);
    EnoughPages(|rows|, size, last);
    assert rows[..|rows|] == rows;
  }

  /** A page number below 1 shows the first page. */
  lemma NoPageBeforeTheFirst<T>(rows: seq<T>, page: int, size: nat)
    requires page <= 1
    ensures NthPage(rows, page, size) == NthPage(rows, 1, size)
  {
    if page < 1 { assert (page - 1) * size <= 0; }
  }

  // ------------------------------------------------------------- what the statements give

  /** The database as the statements see it: the rows of a FROM text, what a row holds,
      the arrangement an ORDER BY text asks for, and whether a projection aggregates. An
      ungrouped aggregate gives one row, whose shape does not matter here. */
  datatype Db<!R> = Db(
    rows: string -> seq<R>,
    env: R -> Env,
    arrange: (string, seq<R>) -> seq<R>,
    aggregates: string -> bool,
    whole: R)

  /** Ordering moves rows and does nothing else. */
  ghost predicate Arranges<R(!new)>(db: Db<R>) {
    forall order, rows :: multiset(db.arrange(order, rows)) == multiset(rows)
  }

  predicate Passes<R>(db: Db<R>, w: string, params: seq<Value>, r: R) {
    w == "" || Meaning(db.env(r), w, params) == True
  }

  /** The rows a WHERE clause keeps. */
  function Kept<R>(db: Db<R>, w: string, params: seq<Value>, rows: seq<R>): seq<R> {
    if rows == [] then []
    else (if Passes(db, w, params, rows[0]) then [rows[0]] else []) + Kept(db, w, params, rows[1..])
  }

  type Key = seq<Value>

  /** The values of some columns; GROUP BY and DISTINCT ON take NULL as equal to NULL. */
  function KeyOf<R>(db: Db<R>, columns: seq<string>): R -> Key {
    (r: R) => seq(|columns|, k requires 0 <= k < |columns| => db.env(r).row(columns[k]))
  }

  /** One row per key, the first of each. */
  function PerKey<R, K(==)>(rows: seq<R>, key: R -> K): seq<R> {
    if rows == [] then []
    else
      var init := rows[..|rows| - 1];
      var last := rows[|rows| - 1];
      PerKey(init, key) + (if exists k :: 0 <= k < |init| && key(init[k]) == key(last) then [] else [last])
  }

  /** The rows before ORDER BY. */
  function Shown<R>(db: Db<R>, s: Statement, params: seq<Value>): seq<R>
    requires s.Page?
  {
    var kept := Kept(db, s.w, params, db.rows(s.from));
    if s.groups != [] then PerKey(kept, KeyOf(db, s.groups))
    else if db.aggregates(s.columns) then [db.whole]
    else kept
  }

  /** The result of a page statement without its LIMIT. */
  function AllRows<R>(db: Db<R>, s: Statement, params: seq<Value>): seq<R>
    requires s.Page?
  {
    var arranged := db.arrange(s.order, Shown(db, s, params));
    if s.distinct == [] then arranged else PerKey(arranged, KeyOf(db, s.distinct))
  }

  /** Its result; a negative LIMIT is an error. */
  function Rows<R>(db: Db<R>, s: Statement, params: seq<Value>): Result<seq<R>>
    requires s.Page?
  {
    var all := AllRows(db, s, params);
    if s.limit.None? then Ok(all)
    else if s.limit.value.size < 0 then Err("LIMIT must not be negative")
    else Ok(Window(all, s.limit.value.size, s.limit.value.offset))
  }

  /** The number a count statement gives. */
  function Count<R>(db: Db<R>, s: Statement, params: seq<Value>): nat
    requires s.CountRows? || s.CountGroups?
  {
    var kept := Kept(db, s.w, params, db.rows(s.from));
    if s.CountRows? then |kept| else |PerKey(kept, KeyOf(db, s.groups))|
  }

  // -------------------------------------------------------------------------- totals

  predicate KeysDiffer<R, K(==)>(rows: seq<R>, key: R -> K) {
    forall i, j :: 0 <= i < j < |rows| ==> key(rows[i]) != key(rows[j])
  }

  lemma {:induction false} PerKeyCounts<R, K>(rows: seq<R>, key: R -> K)
    ensures |PerKey(rows, key)| <= |rows|
    ensures |PerKey(rows, key)| == |rows| <==> KeysDiffer(rows, key)
  {
    if rows != [] {
      var init := rows[..|rows| - 1];
      PerKeyCounts(init, key);
    }
  }

  lemma TwoPlaces<R>(rows: seq<R>, x: R, y: R) returns (i: nat, j: nat)
    requires multiset{x, y} <= multiset(rows)
    ensures i < |rows| && j < |rows| && i != j && rows[i] == x && rows[j] == y
  {
    assert x in multiset(rows);
    i :| i < |rows| && rows[i] == x;
    var rest := rows[..i] + rows[i + 1..];
    assert rows == rows[..i] + [x] + rows[i + 1..];
    assert multiset(rows) == multiset(rest) + multiset{x};
    assert y in multiset(rest);
    j :| j < |rest| && rest[j] == y;
    j := if j < i then j else j + 1;
  }

  /** Whether keys repeat does not depend on the order. */
  lemma KeysDifferAnyOrder<R, K>(a: seq<R>, b: seq<R>, key: R -> K)
    requires multiset(a) == multiset(b) && KeysDiffer(a, key)
    ensures KeysDiffer(b, key)
  {
    forall i, j | 0 <= i < j < |b|
      ensures key(b[i]) != key(b[j])
    {
      assert b == b[..i] + [b[i]] + b[i + 1..j] + [b[j]] + b[j + 1..];
      var m, n := TwoPlaces(a, b[i], b[j]);
    }
  }

  lemma SameLength<R>(a: seq<R>, b: seq<R>)
    requires multiset(a) == multiset(b)
    ensures |a| == |b|
  {
    assert |multiset(a)| == |a| && |multiset(b)| == |b|;
  }

  /** The total the second statement reports is the number of rows the first one has
      without its LIMIT if and only if an aggregate, when ungrouped, has just one row to
      sum up, and otherwise DISTINCT ON drops nothing. */
  lemma TotalIsRowCountIff<R(!new)>(db: Db<R>, q: Query, table: string, w: string, params: seq<Value>)
    requires Arranges(db)
    ensures var page, kept := PageOf(q, table, w), Kept(db, w, params, db.rows(FromText(q, table)));
            Count(db, TotalOf(q, table, w), params) == |AllRows(db, page, params)| <==>
              if q.groupBys == [] && db.aggregates(q.columns) then |kept| == 1
              else DistinctOn(q) != [] ==>
                KeysDiffer(if q.groupBys != [] then PerKey(kept, KeyOf(db, q.groupBys))
                    else kept, KeyOf(db, DistinctOn(q)))
  {
    hide PerKey, Kept, KeyOf, FromText, LimitOf;
    var page := PageOf(q, table, w);
    var shown, key := Shown(db, page, params), KeyOf(db, DistinctOn(q));
    var arranged := db.arrange(q.order, shown);
    assert multiset(arranged) == multiset(shown);
    SameLength(arranged, shown);
    PerKeyCounts(arranged, key);
    if KeysDiffer(arranged, key) { KeysDifferAnyOrder(arranged, shown, key); }
    if KeysDiffer(shown, key) { KeysDifferAnyOrder(shown, arranged, key); }
    if q.groupBys == [] && db.aggregates(q.columns) && DistinctOn(q) != [] {
      assert |shown| == 1 && KeysDiffer(shown, key);
    }
  }

  // --------------------------------------------------------------------------- pages

  function WithPage(q: Query, page: int, size: nat, distinct: seq<string>): Query {
    q.(paging := Some(Paging(page, size, distinct)))
  }

  /** The result of the statement for page number `page`. */
  function PageRows<R>(db: Db<R>, q: Query, distinct: seq<string>, table: string, w: string, params: seq<Value>,
                       page: int, size: nat): (r: Result<seq<R>>)
    ensures r.Ok?
  {
    Rows(db, PageOf(WithPage(q, page, size, distinct), table, w), params)
  }

  /** Pages 1 to `last`, one statement each, laid end to end. */
  function PagesShown<R>(db: Db<R>, q: Query, distinct: seq<string>, table: string, w: string, params: seq<Value>,
                         size: nat, last: nat): seq<R>
  {
    if last == 0 then []
    else PagesShown(db, q, distinct, table, w, params, size, last - 1)
         + PageRows(db, q, distinct, table, w, params, last, size).value
  }

  /** Whatever the page number, the statement pages through the same rows. */
  lemma {:induction false} PagesShownAre<R>(db: Db<R>, q: Query, distinct: seq<string>, table: string, w: string,
                                           params: seq<Value>, size: nat, last: nat)
    ensures PagesShown(db, q, distinct, table, w, params, size, last)
            == PagesTo(AllRows(db, PageOf(WithPage(q, 1, size, distinct), table, w), params), size, last)
  {
    hide Shown, PerKey, KeyOf, Window, FromText;
    if last > 0 {
      PagesShownAre(db, q, distinct, table, w, params, size, last - 1);
      SameRows(db, WithPage(q, last, size, distinct), WithPage(q, 1, size, distinct), table, w, params);
    }
  }

  lemma SameRows<R>(db: Db<R>, p: Query, q: Query, table: string, w: string, params: seq<Value>)
    requires p.(paging := None) == q.(paging := None) && DistinctOn(p) == DistinctOn(q)
    ensures AllRows(db, PageOf(p, table, w), params) == AllRows(db, PageOf(q, table, w), params)
  {
    hide PerKey, KeyOf, Kept;
  }

  /** The statements for pages 1, 2, ... together return every row of the unpaginated
      statement once and in its order exactly when there are ceil(rows / size) of them;
      and if the reported total is the row count, ceil(total / size) is that number. */
  lemma StatementsTileIff<R(!new)>(db: Db<R>, q: Query, distinct: seq<string>, table: string, w: string,
                                   params: seq<Value>, size: nat, last: nat)
    requires size >= 1
    ensures var p := WithPage(q, 1, size, distinct);
            var all, total := AllRows(db, PageOf(p, table, w), params), Count(db, TotalOf(p, table, w), params);
            && (PagesShown(db, q, distinct, table, w, params, size, last) == all <==> last >= PageCount(|all|, size))
            && (total == |all| ==>
                  (PagesShown(db, q, distinct, table, w, params, size, last) == all <==>
                     last >= PageCount(total, size)))
  {
    hide AllRows, PagesShown, PagesTo, Count, PageCount, TotalOf;
    var p := WithPage(q, 1, size, distinct);
    PagesShownAre(db, q, distinct, table, w, params, size, last);
    PagesTileIff(AllRows(db, PageOf(p, table, w), params), size, last);
  }

  // --------------------------------------------------------------------- the rows it keeps

  function Meeting<R>(db: Db<R>, fs: seq<Filter>, raws: seq<Raw>, rows: seq<R>): seq<R> {
    if rows == [] then []
    else
      var env := db.env(rows[0]);
      (if Conj(FilterTruths(env, fs) + RawTruths(env, raws)) == True then [rows[0]] else [])
      + Meeting(db, fs, raws, rows[1..])
  }

  /** Both statements that build() emits work on exactly the rows in which every filter
      and every raw fragment holds. */
  lemma {:induction false} KeptMeetAll<R>(db: Db<R>, resolve: Resolver, entries: seq<Entry>, raws: seq<Raw>,
                                          rows: seq<R>)
    requires AllResolve(resolve, entries) && (forall e :: e in entries ==> Usable(resolve, e)) && RawsOk(raws)
    ensures var fs := FiltersOf(resolve, entries);
            Kept(db, WhereSql(fs, raws, 0), AllParams(fs, raws), rows) == Meeting(db, fs, raws, rows)
  {
    hide Meaning, FilterTruths, RawTruths, WhereSql, AllParams, RawsOk, Conj, FiltersOf, Usable;
    if rows != [] {
      var fs := FiltersOf(resolve, entries);
      KeptMeetAll(db, resolve, entries, raws, rows[1..]);
      EmittedWhereMeans(db.env(rows[0]), resolve, entries, raws, []);
      assert [] + AllParams(fs, raws) == AllParams(fs, raws);
      SaidOrNot(db.env(rows[0]), resolve, entries, raws);
    }
  }

  /** No conditions, no clause and nothing to meet; some, and there is a clause. */
  lemma SaidOrNot(env: Env, resolve: Resolver, entries: seq<Entry>, raws: seq<Raw>)
    requires AllResolve(resolve, entries) && RawsOk(raws)
    ensures var fs := FiltersOf(resolve, entries);
            if entries == [] && raws == [] then Conj(FilterTruths(env, fs) + RawTruths(env, raws)) == True
            else WhereSql(fs, raws, 0) != ""
  {
    hide FilterOf, RawOk, WhereSql;
    if entries != [] || raws != [] {
      WhereIsSaid(FiltersOf(resolve, entries), raws, 0);
    }
  }

  // ------------------------------------------------------------------- query parameters

  function Trimmed(s: string): string { if s != "" && IsBlank(s[0]) then Trimmed(s[1..]) else s }

  /** The number a text starts with; NaN without a digit. */
  function Unsigned(s: string): Option<int> {
    var k := DigitRun(s);
    if k == 0 then None else Some(ValueOf(s[..k]))
  }

  /** Number.parseInt(s, 10): leading blanks, a sign, then digits. */
  function ParseInt(s: string): Option<int> {
    var t := Trimmed(s);
    if t != "" && t[0] == '-' then
      var n := Unsigned(t[1..]);
      if n.None? then None else Some(-n.value)
    else Unsigned(if t != "" && t[0] == '+' then t[1..] else t)
  }

  /** Leading blanks up to i, an optional sign, and a digit at j. */
  ghost predicate NumeralAt(s: string, i: nat, j: nat) {
    && i <= j < |s| && (forall k :: 0 <= k < i ==> IsBlank(s[k])) && IsDigit(s[j])
    && (j == i || (j == i + 1 && (s[i] == '-' || s[i] == '+')))
  }

  lemma {:induction false} TrimmedIs(blanks: string, rest: string)
    requires (forall k :: 0 <= k < |blanks| ==> IsBlank(blanks[k])) && (rest == "" || !IsBlank(rest[0]))
    ensures Trimmed(blanks + rest) == rest
  {
    if blanks == "" {
      assert blanks + rest == rest;
    } else {
      assert (blanks + rest)[1..] == blanks[1..] + rest;
      TrimmedIs(blanks[1..], rest);
    }
  }

  lemma {:induction false} TrimmedEnds(s: string) returns (i: nat)
    ensures i <= |s| && Trimmed(s) == s[i..] && (i < |s| ==> !IsBlank(s[i]))
    ensures forall k :: 0 <= k < i ==> IsBlank(s[k])
  {
    if s != "" && IsBlank(s[0]) {
      var m := TrimmedEnds(s[1..]);
      i := m + 1;
      assert forall k :: 1 <= k < i ==> s[k] == s[1..][k - 1];
    } else {
      i := 0;
    }
  }

  lemma ParsesDigits(digits: string, rest: string)
    requires AllDigits(digits) && digits != "" && !StartsWithDigit(rest)
    ensures ParseInt(digits + rest) == Some(ValueOf(digits))
    ensures ParseInt("-" + digits + rest) == Some(0 - ValueOf(digits) as int)
    ensures ParseInt("+" + digits + rest) == Some(ValueOf(digits))
  {
    hide ValueOf, Unsigned;
    UnsignedReads(digits, rest);
    var s := digits + rest;
    assert s[0] == digits[0];
    assert "-" + digits + rest == "-" + s && ("-" + s)[1..] == s;
    assert "+" + digits + rest == "+" + s && ("+" + s)[1..] == s;
  }

  lemma UnsignedReads(digits: string, rest: string)
    requires AllDigits(digits) && digits != "" && !StartsWithDigit(rest)
    ensures Unsigned(digits + rest) == Some(ValueOf(digits))
  {
    hide ValueOf, DigitRun;
    DigitRunIs(digits, rest);
    assert (digits + rest)[..|digits|] == digits;
  }

  lemma ParseTrims(blanks: string, s: string)
    requires (forall k :: 0 <= k < |blanks| ==> IsBlank(blanks[k])) && s != "" && !IsBlank(s[0])
    ensures ParseInt(blanks + s) == ParseInt(s)
  {
    TrimmedIs(blanks, s);
    TrimmedIs("", s);
    assert "" + s == s;
  }

  /** Blanks, a sign and the digits of a number, followed by anything else, read as that
      number: "12.5", " 12px" and "12" are all twelve. */
  lemma ParseIntReads(blanks: string, digits: string, rest: string)
    requires forall k :: 0 <= k < |blanks| ==> IsBlank(blanks[k])
    requires AllDigits(digits) && digits != "" && !StartsWithDigit(rest)
    ensures ParseInt(blanks + (digits + rest)) == Some(ValueOf(digits))
    ensures ParseInt(blanks + ("-" + digits + rest)) == Some(0 - ValueOf(digits) as int)
    ensures ParseInt(blanks + ("+" + digits + rest)) == Some(ValueOf(digits))
  {
    hide ParseInt, ValueOf;
    ParsesDigits(digits, rest);
    assert (digits + rest)[0] == digits[0];
    ParseTrims(blanks, digits + rest);
    ParseTrims(blanks, "-" + digits + rest);
    ParseTrims(blanks, "+" + digits + rest);
  }

  /** A written integer reads as itself. */
  lemma ParseIntOfText(n: int)
    ensures ParseInt(IntText(n)) == Some(n) && ParseInt(TextOf(Num(n))) == Some(n)
  {
    hide ParseInt;
    var digits := Decimal(if n < 0 then -n else n);
    DecimalValue(if n < 0 then -n else n);
    ParsesDigits(digits, "");
    assert digits + "" == digits && "-" + digits + "" == "-" + digits;
  }

  /** There is a number exactly when a digit follows the blanks and at most one sign. */
  lemma ParsesIff(s: string)
    ensures ParseInt(s).Some? <==> exists i, j :: NumeralAt(s, i, j)
  {
    var i := TrimmedEnds(s);
    var t := s[i..];
    if ParseInt(s).Some? {
      var signed := t != "" && (t[0] == '-' || t[0] == '+');
      assert NumeralAt(s, i, if signed then i + 1 else i);
    }
    if m: nat, j: nat :| NumeralAt(s, m, j) {
      assert !IsBlank(s[m]);
      assert m == i && t[0] == s[i] && t[j - i] == s[j];
    }
  }

  /** A page parameter the parser accepts. */
  predicate Positive(raw: Option<string>) { raw.Some? && ParseInt(raw.value).Some? && ParseInt(raw.value).value > 0 }

  datatype Issue = PageIssue | PageSizeIssue

  const DEFAULT_PAGE := 1

  method ParsePagination(page: Option<string>, pageSize: Option<string>, defaultPageSize: int, maxPageSize: int,
                         strict: bool)
    returns (r: Option<(int, int)>, issues: seq<Issue>)
    ensures r.None? <==> page.None? && pageSize.None?
    ensures r.Some? ==> r.value.0 >= 1 && (Positive(page) ==> Some(r.value.0) == ParseInt(page.value))
    ensures r.Some? ==> !Positive(page) ==> r.value.0 == 1
    ensures r.Some? && pageSize.Some? && !Positive(pageSize) ==> r.value.1 == defaultPageSize
    ensures r.Some? && Positive(pageSize) ==>
              r.value.1 == if ParseInt(pageSize.value).value < maxPageSize then ParseInt(pageSize.value).value
              else maxPageSize
    ensures r.Some? && pageSize.None? ==>
              r.value.1 == if 0 < defaultPageSize && maxPageSize <= defaultPageSize then maxPageSize
              else defaultPageSize
    ensures r.Some? && maxPageSize >= 1 ==>
              (r.value.1 > maxPageSize <==> pageSize.Some? && !Positive(pageSize) && defaultPageSize > maxPageSize)
    ensures PageIssue in issues <==> strict && page.Some? && !Positive(page)
    ensures PageSizeIssue in issues <==> strict && pageSize.Some? && !Positive(pageSize)
  {
    issues := [];
    if page.None? && pageSize.None? {
      return None, issues;
    }
    var parsedPage := if page.Some? then ParseInt(page.value) else Some(DEFAULT_PAGE);
    var parsedSize := if pageSize.Some? then ParseInt(pageSize.value) else Some(defaultPageSize);
    var pageValid := parsedPage.Some? && parsedPage.value > 0;
    var sizeValid := parsedSize.Some? && parsedSize.value > 0;
    if strict && page.Some? && !pageValid {
      issues := issues + [PageIssue];
    }
    if strict && pageSize.Some? && !sizeValid {
      issues := issues + [PageSizeIssue];
    }
    var size := if sizeValid then (if parsedSize.value < maxPageSize then parsedSize.value else maxPageSize)
                else defaultPageSize;
    return Some((if pageValid then parsedPage.value else DEFAULT_PAGE, size)), issues;
  }

  /** Two rows with one value in the DISTINCT ON column: one row shown, a total of two. */
  lemma DistinctTotalDiffers(env: Env) returns (db: Db<nat>, q: Query)
    ensures Arranges(db) && DistinctOn(q) == ["customer_id"]
    ensures Count(db, TotalOf(q, "orders", ""), []) == 2 && |AllRows(db, PageOf(q, "orders", ""), [])| == 1
  {
    db := Db(_ => [0, 1], _ => env, (_, rows) => rows, _ => false, 0);
    q := Query("*", [], [], "", Some(Paging(1, 10, ["customer_id"])));
    var rows: seq<nat> := [0, 1];
    assert rows[1..] == [1] && rows[1..][1..] == [];
    assert Kept(db, "", [], [1]) == [1] + Kept(db, "", [], []) by { assert [1][1..] == []; }
    assert Kept(db, "", [], rows) == [0] + Kept(db, "", [], [1]);
    assert Kept(db, "", [], rows) == rows;
    var key := KeyOf(db, ["customer_id"]);
    assert key(0) == key(1);
    assert rows[..1] == [0] && [0][..0] == [];
    assert PerKey<nat, Key>([0], key) == PerKey<nat, Key>([], key) + [0];
    assert PerKey<nat, Key>(rows, key) == PerKey<nat, Key>([0], key) + [];
  }
}
