/** The placeholders of an emitted clause, read from left to right, are exactly the
    numbers of the parameters pushed for it. */
module Placeholders {
  import opened SqlText
  import opened SqlLogic
  import opened FilterKeys
  import opened FilterClause
  import opened WhereClause

  predicate PlainFilter(f: Filter) { Plain(f.column) && (f.cast.Cast? ==> Plain(f.cast.typeName)) }

  predicate PlainFilters(fs: seq<Filter>) { fs == [] || (PlainFilter(fs[0]) && PlainFilters(fs[1..])) }

  /** A raw fragment the caller numbered nothing in, with one parameter per `?`. */
  predicate Counted(raw: Raw) { Plain(raw.sql) && Marks(raw.sql) == |raw.params| }

  predicate AllCounted(raws: seq<Raw>) { raws == [] || (Counted(raws[0]) && AllCounted(raws[1..])) }

  predicate MarksApart(raws: seq<Raw>) { raws == [] || (NoDigitAfterMark(raws[0].sql) && MarksApart(raws[1..])) }

  lemma ScanOfPlain(a: string)
    requires Plain(a)
    ensures Scan(a) == []
  {
    ScanPlain(a, "");
    assert a + "" == a;
  }

  lemma ScanAround(a: string, n: nat, b: string)
    requires Plain(a) && Plain(b) && !StartsWithDigit(b)
    ensures Scan(a + (Ph(n) + b)) == [n]
  {
    ScanPlain(a, Ph(n) + b);
    ScanPh(n, b);
    ScanOfPlain(b);
  }

  lemma {:induction false} PlainBrackets(dims: nat)
    ensures Plain(Brackets(dims))
  {
    if dims > 0 { PlainBrackets(dims - 1); }
  }

  lemma PlainCast(f: Filter)
    requires PlainFilter(f)
    ensures Plain(CastText(f.cast)) && !StartsWithDigit(CastText(f.cast))
  {
    if f.cast.Cast? { PlainBrackets(f.cast.dims); }
  }

  lemma Regroup(column: string, op: string, ph: string, c: string)
    ensures column + op + (ph + c) == column + op + (ph + (c + ""))
    ensures column + " = ANY(" + (ph + c) + ")" == column + " = ANY(" + (ph + (c + ")"))
    ensures "(" + column + " <> ALL(" + (ph + c) + ") OR " + column + " IS NULL)"
            == "(" + column + " <> ALL(" + (ph + (c + (") OR " + column + " IS NULL)")))
  {
  }

  function OpText(op: Op): string {
    match op
    case Contains => " ILIKE "
    case Gt => " > "
    case Gte => " >= "
    case Lt => " < "
    case Lte => " <= "
    case _ => " = "
  }

  /** The clause is its parameter's placeholder between two texts without any. */
  lemma ClauseAround(f: Filter, n: nat) returns (a: string, b: string)
    requires PlainFilter(f) && PushedBy(f) != []
    ensures Plain(a) && Plain(b) && !StartsWithDigit(b) && ClauseOf(f, n) == a + (Ph(n + 1) + b)
  {
    hide CastText, Ph, OpText, Pattern;
    PlainCast(f);
    var column, c := f.column, CastText(f.cast);
    Regroup(column, OpText(f.op), Ph(n + 1), c);
    OpsPlain(f.op);
    PlainPieces(column);
    if f.op.In? {
      a, b := column + " = ANY(", c + ")";
      PlainJoin(c, ")");
    } else if f.op.NotIn? {
      a, b := "(" + column + " <> ALL(", c + (") OR " + column + " IS NULL)");
      PlainJoin(c, ") OR " + column + " IS NULL)");
    } else {
      a, b := column + OpText(f.op), c + "";
      PlainJoin(column, OpText(f.op));
      PlainJoin(c, "");
      OpTextUsed(f, n);
    }
  }

  lemma OpTextUsed(f: Filter, n: nat)
    requires PushedBy(f) != [] && !f.op.In? && !f.op.NotIn?
    ensures ClauseOf(f, n) == f.column + OpText(f.op) + Placeholder(n + 1, f.cast)
  {
    hide Placeholder;
  }

  lemma OpsPlain(op: Op)
    ensures Plain(OpText(op)) && Plain(")") && Plain("")
  {
  }

  lemma PlainPieces(column: string)
    requires Plain(column)
    ensures Plain(column + " = ANY(") && Plain("(" + column + " <> ALL(") && Plain(") OR " + column + " IS NULL)")
  {
    PlainJoin(column, " = ANY(");
    PlainJoin("(", column);
    PlainJoin("(" + column, " <> ALL(");
    PlainJoin(") OR ", column);
    PlainJoin(") OR " + column, " IS NULL)");
  }

  lemma ClauseScan(f: Filter, n: nat)
    requires PlainFilter(f)
    ensures Scan(ClauseOf(f, n)) == Range(n + 1, |PushedBy(f)|)
  {
    if PushedBy(f) != [] {
      var a, b := ClauseAround(f, n);
      ScanAround(a, n + 1, b);
    } else {
      ScanOfPlain(f.column + " IS NULL");
      ScanOfPlain(f.column + " IS NOT NULL");
    }
  }

  function ScanAll(texts: seq<string>): seq<nat> {
    if texts == [] then [] else Scan(texts[0]) + ScanAll(texts[1..])
  }

  lemma {:induction false} ScanAllJoin(a: seq<string>, b: seq<string>)
    ensures ScanAll(a + b) == ScanAll(a) + ScanAll(b)
  {
    if a == [] {
      assert a + b == b;
    } else {
      assert (a + b)[1..] == a[1..] + b;
      ScanAllJoin(a[1..], b);
    }
  }

  lemma {:induction false} ScanJoined(texts: seq<string>)
    ensures Scan(JoinTexts(texts)) == ScanAll(texts)
  {
    if |texts| == 1 {
      assert ScanAll(texts[1..]) == [];
    } else if |texts| > 1 {
      ScanJoined(texts[1..]);
      ScanJoin(texts[0], SEPARATOR + JoinTexts(texts[1..]));
      ScanPlain(SEPARATOR, JoinTexts(texts[1..]));
    }
  }

  lemma {:induction false} FiltersScan(fs: seq<Filter>, n: nat)
    requires PlainFilters(fs)
    ensures ScanAll(FilterTexts(fs, n)) == Range(n + 1, |FilterParams(fs)|)
  {
    if fs != [] {
      ClauseScan(fs[0], n);
      FiltersScan(fs[1..], n + |PushedBy(fs[0])|);
      RangeJoin(n + 1, |PushedBy(fs[0])|, |FilterParams(fs[1..])|);
    }
  }

  lemma SplitEqual<T>(a: seq<T>, b: seq<T>, c: seq<T>, d: seq<T>)
    requires |a| == |c|
    ensures a + b == c + d <==> a == c && b == d
  {
    assert (a + b)[..|a|] == a && (a + b)[|a|..] == b && (c + d)[..|c|] == c && (c + d)[|c|..] == d;
  }

  lemma RawStepIff(head: seq<nat>, rest: seq<nat>, n: nat, j: nat, k: nat)
    requires |head| == j
    ensures head + rest == Range(n, j + k) <==> head == Range(n, j) && rest == Range(n + j, k)
  {
    RangeJoin(n, j, k);
    SplitEqual(head, rest, Range(n, j), Range(n + j, k));
  }

  lemma {:induction false} RawsScanIff(raws: seq<Raw>, n: nat)
    requires AllCounted(raws)
    ensures ScanAll(RawTexts(raws, n)) == Range(n + 1, |RawParams(raws)|) <==> MarksApart(raws)
  {
    hide Rebase, Scan, Marks, Plain, NoDigitAfterMark;
    if raws != [] {
      var raw, k := raws[0], |raws[0].params|;
      assert Marks(raw.sql) == k;
      ScanRebaseLength(raw.sql, n + 1);
      PlaceholdersInOrderIff(raw.sql, n + 1);
      RawsScanIff(raws[1..], n + k);
      RawStepIff(Scan(Rebase(raw.sql, n + 1)), ScanAll(RawTexts(raws[1..], n + k)), n + 1, k, |RawParams(raws[1..])|);
    }
  }

  lemma WhereScan(fs: seq<Filter>, raws: seq<Raw>, n: nat)
    ensures Scan(WhereSql(fs, raws, n)) == ScanAll(FilterTexts(fs, n)) + ScanAll(RawTexts(raws, n + |FilterParams(fs)|))
  {
    ScanJoined(AllTexts(fs, raws, n));
    ScanAllJoin(FilterTexts(fs, n), RawTexts(raws, n + |FilterParams(fs)|));
  }

  lemma RawPartDecides(scan: seq<nat>, filters: seq<nat>, raws: seq<nat>, n: nat, j: nat, k: nat, apart: bool)
    requires scan == filters + raws && filters == Range(n, j) && (raws == Range(n + j, k) <==> apart)
    ensures scan == Range(n, j + k) <==> apart
  {
    RangeJoin(n, j, k);
    SplitEqual(filters, raws, Range(n, j), Range(n + j, k));
  }

  lemma WhereParts(fs: seq<Filter>, raws: seq<Raw>, n: nat) returns (filters: seq<nat>, rest: seq<nat>)
    requires PlainFilters(fs) && AllCounted(raws)
    ensures Scan(WhereSql(fs, raws, n)) == filters + rest && filters == Range(n + 1, |FilterParams(fs)|)
    ensures rest == Range(n + 1 + |FilterParams(fs)|, |RawParams(raws)|) <==> MarksApart(raws)
  {
    hide Scan, WhereSql, FilterTexts, RawTexts, ScanAll, FilterParams, RawParams;
    filters, rest := ScanAll(FilterTexts(fs, n)), ScanAll(RawTexts(raws, n + |FilterParams(fs)|));
    WhereScan(fs, raws, n);
    FiltersScan(fs, n);
    RawsScanIff(raws, n + |FilterParams(fs)|);
  }

  /** Placed after n parameters, a clause shows $n+1 ... $n+k in order for its k
      parameters if and only if no raw fragment has a digit directly after a `?`. */
  lemma WherePlaceholdersIff(fs: seq<Filter>, raws: seq<Raw>, n: nat)
    requires PlainFilters(fs) && AllCounted(raws)
    ensures Scan(WhereSql(fs, raws, n)) == Range(n + 1, |FilterParams(fs) + RawParams(raws)|) <==> MarksApart(raws)
  {
    hide Scan, WhereSql, FilterParams, RawParams, MarksApart, PlainFilters, AllCounted;
    var filters, rest := WhereParts(fs, raws, n);
    RawPartDecides(Scan(WhereSql(fs, raws, n)), filters, rest, n + 1, |FilterParams(fs)|, |RawParams(raws)|,
                   MarksApart(raws));
  }

  lemma {:induction false} NoMarks(s: string)
    requires '?' !in s
    ensures Marks(s) == 0 && Rebase(s, 1) == s
  {
    if s != "" { NoMarks(s[1..]); }
  }

  lemma OneMarkThenFive()
    ensures Marks("?5") == 1 && Rebase("?5", 1) == "$15"
  {
    assert "?5"[1..] == "5" && "5"[1..] == "";
    assert Rebase("5", 2) == "5" && Marks("5") == 0;
    assert Ph(1) == "$1";
  }

  lemma OneRaw(raw: Raw)
    ensures WhereSql([], [raw], 0) == Rebase(raw.sql, 1) && RawParams([raw]) == raw.params
  {
    hide Rebase;
    assert [raw][1..] == [];
    assert RawTexts([raw], 0) == [Rebase(raw.sql, 1)] + RawTexts([], |raw.params|);
    assert AllTexts([], [raw], 0) == [Rebase(raw.sql, 1)];
    assert RawParams([raw]) == raw.params + RawParams([]);
  }

  lemma ScanFifteen()
    ensures Scan("$15") == [15]
  {
    assert Decimal(15) == Decimal(1) + "5" && Decimal(1) == "1";
    ScanPh(15, "");
    assert Ph(15) + "" == "$15";
  }

  /** `a = ?5` with one parameter asks for parameter 15. */
  lemma DigitAfterMarkRunsOn(v: Value)
    ensures var raw := Raw("a = ?5", [v]);
            Counted(raw) && Scan(WhereSql([], [raw], 0)) == [15] && |RawParams([raw])| == 1
  {
    hide Scan, Rebase, Marks, Decimal, WhereSql, RawParams;
    var raw := Raw("a = ?5", [v]);
    assert raw.sql == "a = " + "?5";
    RebaseAppend("a = ", "?5", 1);
    NoMarks("a = ");
    OneMarkThenFive();
    OneRaw(raw);
    ScanPlain("a = ", "$15");
    ScanFifteen();
  }
}
