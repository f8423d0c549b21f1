/** The write adapter's statements: their text, their parameters, and which parameter
    each placeholder stands for. */
module WriteStatements {
  import opened Types
  import opened SqlText
  import opened SqlLogic
  import opened SqlPrecedence
  import opened SqlLexing
  import opened FilterKeys
  import opened FilterClause
  import opened FilterMeaning
  import opened WhereClause
  import opened Placeholders
  import opened QueryBuilder
  import opened SelectStatement

  /** An object: its own keys in order. */
  type Record = seq<(string, Value)>

  function KeysOf(r: Record): (ks: seq<string>)
    ensures |ks| == |r|
  {
    seq(|r|, k requires 0 <= k < |r| => r[k].0)
  }

  /** A missing property is undefined, which the driver sends as NULL. */
  function Get(r: Record, key: string): Value {
    if r == [] then Null else if r[0].0 == key then r[0].1 else Get(r[1..], key)
  }

  /** Column types, and JSON.stringify. */
  datatype Catalog = Catalog(typeOf: string -> Option<string>, stringify: Value -> string)

  datatype PgType = Uuid | Integer | Boolean | Timestamptz | Date | Numeric | Json | Jsonb | Bytea | Str

  function NameOf(t: PgType): string {
    match t
    case Uuid => "UUID"
    case Integer => "INTEGER"
    case Boolean => "BOOLEAN"
    case Timestamptz => "TIMESTAMPTZ"
    case Date => "DATE"
    case Numeric => "NUMERIC"
    case Json => "JSON"
    case Jsonb => "JSONB"
    case Bytea => "BYTEA"
    case Str => "TEXT"
  }

  function ScalarType(dataType: string): PgType {
    if dataType == "uuid" then Uuid
    else if dataType in ["integer", "smallint", "bigint"] then Integer
    else if dataType == "boolean" then Boolean
    else if dataType in ["timestamp without time zone", "timestamp with time zone", "timestamptz"] then Timestamptz
    else if dataType == "date" then Date
    else if dataType in ["numeric", "real", "double precision"] then Numeric
    else if dataType == "json" then Json
    else if dataType == "jsonb" then Jsonb
    else if dataType == "bytea" then Bytea
    else Str
  }

  /** mapPostgresType, applied `more` times to an array type. */
  function CastFor(dataType: Option<string>, more: nat): Cast {
    if dataType.None? then Cast(NameOf(Str), more)
    else if dataType.value == "_uuid" then Cast(NameOf(Uuid), 1 + more)
    else if dataType.value == "_int4" then Cast(NameOf(Integer), 1 + more)
    else if dataType.value == "_text" || dataType.value == "_varchar" then Cast(NameOf(Str), 1 + more)
    else Cast(NameOf(ScalarType(dataType.value)), more)
  }

  /** The type a parameter is cast to; list operators ask for one array level more. */
  lemma NumberCasts(dataType: string, more: nat)
    ensures dataType in ["integer", "smallint", "bigint"] ==> CastFor(Some(dataType), more) == Cast("INTEGER", more)
    ensures dataType in ["numeric", "real", "double precision"] ==>
              CastFor(Some(dataType), more) == Cast("NUMERIC", more)
  {
  }

  lemma TimeCasts(dataType: string, more: nat)
    ensures dataType in ["timestamp without time zone", "timestamp with time zone", "timestamptz"] ==>
              CastFor(Some(dataType), more) == Cast("TIMESTAMPTZ", more)
    ensures dataType == "date" ==> CastFor(Some(dataType), more) == Cast("DATE", more)
    ensures dataType == "boolean" ==> CastFor(Some(dataType), more) == Cast("BOOLEAN", more)
  {
  }

  lemma UuidCasts(more: nat)
    ensures CastFor(Some("uuid"), more) == Cast("UUID", more) && CastFor(Some("bytea"), more) == Cast("BYTEA", more)
  {
  }

  lemma JsonCasts(more: nat)
    ensures CastFor(Some("json"), more) == Cast("JSON", more) && CastFor(Some("jsonb"), more) == Cast("JSONB", more)
  {
  }

  lemma ArrayCasts(dataType: string, more: nat)
    ensures dataType == "_uuid" ==> CastFor(Some(dataType), more) == Cast("UUID", 1 + more)
    ensures dataType == "_int4" ==> CastFor(Some(dataType), more) == Cast("INTEGER", 1 + more)
    ensures dataType in ["_text", "_varchar"] ==> CastFor(Some(dataType), more) == Cast("TEXT", 1 + more)
  {
  }

  const SCALARS := map[
    "uuid" := "UUID", "integer" := "INTEGER", "smallint" := "INTEGER", "bigint" := "INTEGER", "boolean" := "BOOLEAN",
    "timestamp without time zone" := "TIMESTAMPTZ", "timestamp with time zone" := "TIMESTAMPTZ",
    "timestamptz" := "TIMESTAMPTZ", "date" := "DATE", "numeric" := "NUMERIC", "real" := "NUMERIC",
    "double precision" := "NUMERIC", "json" := "JSON", "jsonb" := "JSONB", "bytea" := "BYTEA"]

  const ARRAYS := map["_uuid" := "UUID", "_int4" := "INTEGER", "_text" := "TEXT", "_varchar" := "TEXT"]

  /** The casts as a table; a type that is not in it is cast to text. */
  lemma CastsAre(dataType: string, more: nat)
    ensures CastFor(None, more) == Cast("TEXT", more)
    ensures CastFor(Some(dataType), more)
            == if dataType in SCALARS then Cast(SCALARS[dataType], more)
               else if dataType in ARRAYS then Cast(ARRAYS[dataType], 1 + more)
               else Cast("TEXT", more)
  {
    hide CastFor;
    if dataType in SCALARS {
      NumberCasts(dataType, more);
      TimeCasts(dataType, more);
      UuidCasts(more);
      JsonCasts(more);
    } else if dataType in ARRAYS {
      ArrayCasts(dataType, more);
    } else {
      OtherCasts(dataType, more);
    }
    NoType(more);
  }

  lemma OtherCasts(dataType: string, more: nat)
    requires dataType !in SCALARS && dataType !in ARRAYS
    ensures CastFor(Some(dataType), more) == Cast("TEXT", more)
  {
  }

  lemma NoType(more: nat)
    ensures CastFor(None, more) == Cast("TEXT", more)
  {
  }

  /** `::type`, then one `[]` per array level. */
  lemma CastTexts(name: string, dims: nat)
    ensures CastText(Cast(name, 0)) == "::" + name
    ensures CastText(Cast(name, dims + 1)) == CastText(Cast(name, dims)) + "[]"
  {
    hide Brackets;
    BracketLast(dims);
    NoBrackets();
    Assoc("::" + name, Brackets(dims), "[]");
  }

  lemma NoBrackets()
    ensures Brackets(0) == ""
  {
  }

  lemma {:induction false} BracketLast(dims: nat)
    ensures Brackets(dims + 1) == Brackets(dims) + "[]"
  {
    if dims > 0 { BracketLast(dims - 1); }
  }

  lemma NameIsWord(t: PgType)
    ensures IsWord(NameOf(t)) && Plain(NameOf(t)) && RoleOfWord(NameOf(t)) == Plainly
  {
    hide *;
    NameIsUpper(t);
    NameIsPlain(t);
  }

  lemma NameIsUpper(t: PgType)
    ensures RoleOfWord(NameOf(t)) == Plainly
  {
    assert Upper(NameOf(t)) == NameOf(t);
  }

  lemma NameIsPlain(t: PgType)
    ensures IsWord(NameOf(t)) && Plain(NameOf(t))
  {
  }

  lemma CastForOk(dataType: Option<string>, more: nat)
    ensures var c := CastFor(dataType, more); CastOk(c) && Plain(c.typeName)
  {
    NameIsWord(Str);
    NameIsWord(Uuid);
    NameIsWord(Integer);
    if dataType.Some? { NameIsWord(ScalarType(dataType.value)); }
  }

  /** What is pushed for a column: JSON columns take text. */
  function Stored(cat: Catalog, key: string, v: Value): Value {
    var t := cat.typeOf(key);
    if v.Null? || t.None? || (Upper(t.value) != "JSONB" && Upper(t.value) != "JSON") || v.Text? then v
    else Text(cat.stringify(v))
  }

  // ------------------------------------------------------------------------- buildWhere

  /** A bare key with a list is sugar for `in`; list operators take an array cast. */
  function WriteFilter(cat: Catalog, e: (string, Value)): Result<Filter> {
    var parsed := ParseFilterKey(e.0);
    if parsed.Err? then Err(parsed.error)
    else
      var key := parsed.value;
      var op := if key.op.Eq? && e.1.List? then In else key.op;
      Ok(Filter(key.field, op, e.1, CastFor(cat.typeOf(key.field), if op.In? || op.NotIn? then 1 else 0)))
  }

  /** A bare key is equality, or membership when its value is a list; `eq` says the same,
      every other suffix its own operator. Only membership casts to an array. */
  lemma WriteFilterReads(cat: Catalog, field: string, value: Value)
    requires Separable(field)
    ensures var t := cat.typeOf(field);
            var plain := Filter(field, if value.List? then In else Eq, value, CastFor(t, if value.List? then 1 else 0));
            && WriteFilter(cat, (field, value)) == Ok(plain)
            && WriteFilter(cat, (field + "__eq", value)) == Ok(plain)
            && WriteFilter(cat, (field + "__in", value)) == Ok(Filter(field, In, value, CastFor(t, 1)))
            && WriteFilter(cat, (field + "__notIn", value)) == Ok(Filter(field, NotIn, value, CastFor(t, 1)))
            && WriteFilter(cat, (field + "__contains", value)) == Ok(Filter(field, Contains, value, CastFor(t, 0)))
            && WriteFilter(cat, (field + "__gt", value)) == Ok(Filter(field, Gt, value, CastFor(t, 0)))
            && WriteFilter(cat, (field + "__gte", value)) == Ok(Filter(field, Gte, value, CastFor(t, 0)))
            && WriteFilter(cat, (field + "__lt", value)) == Ok(Filter(field, Lt, value, CastFor(t, 0)))
            && WriteFilter(cat, (field + "__lte", value)) == Ok(Filter(field, Lte, value, CastFor(t, 0)))
  {
    hide ParseFilterKey, CastFor, Separable;
    OperatorKeys(field);
    BareKey(field);
  }

  lemma BareKey(field: string)
    requires Separable(field)
    ensures ParseFilterKey(field) == Ok(Key(field, Eq, false))
  {
  }

  /** JSON columns are sent text, every other column its value; NULL stays NULL. */
  lemma StoredIs(cat: Catalog, key: string, v: Value)
    ensures var t := cat.typeOf(key);
            var json := t.Some? && Upper(t.value) in {"JSON", "JSONB"};
            && (json ==> Stored(cat, key, v).Null? || Stored(cat, key, v).Text?)
            && (json && !v.Null? && !v.Text? ==> Stored(cat, key, v) == Text(cat.stringify(v)))
            && (!json || v.Null? || v.Text? ==> Stored(cat, key, v) == v)
  {
  }

  predicate AllParse(cat: Catalog, es: seq<(string, Value)>) { forall e :: e in es ==> WriteFilter(cat, e).Ok? }

  function WriteFilters(cat: Catalog, es: seq<(string, Value)>): (fs: seq<Filter>)
    requires AllParse(cat, es)
    ensures |fs| == |es| && forall k :: 0 <= k < |fs| ==> fs[k] == WriteFilter(cat, es[k]).value
  {
    seq(|es|, k requires 0 <= k < |es| => WriteFilter(cat, es[k]).value)
  }

  predicate Named(e: (string, Value)) {
    var parsed := ParseFilterKey(e.0);
    parsed.Ok? ==> IsColumn(parsed.value.field) && Plain(parsed.value.field)
  }

  lemma WriteFilterIsOk(cat: Catalog, e: (string, Value))
    requires WriteFilter(cat, e).Ok? && Named(e)
    ensures FilterOk(WriteFilter(cat, e).value) && PlainFilter(WriteFilter(cat, e).value)
  {
    var key := ParseFilterKey(e.0).value;
    CastForOk(cat.typeOf(key.field), 0);
    CastForOk(cat.typeOf(key.field), 1);
  }

  lemma {:induction false} WriteFiltersAreOk(cat: Catalog, es: seq<(string, Value)>)
    requires AllParse(cat, es) && forall e :: e in es ==> Named(e)
    ensures FiltersOk(WriteFilters(cat, es)) && PlainFilters(WriteFilters(cat, es))
  {
    if es != [] {
      assert es[0] in es;
      WriteFilterIsOk(cat, es[0]);
      WriteFiltersAreOk(cat, es[1..]);
      assert WriteFilters(cat, es)[1..] == WriteFilters(cat, es[1..]);
    }
  }

  lemma NextParsed(cat: Catalog, es: seq<(string, Value)>, i: nat)
    requires i < |es| && AllParse(cat, es[..i]) && WriteFilter(cat, es[i]).Ok?
    ensures AllParse(cat, es[..i + 1])
    ensures WriteFilters(cat, es[..i + 1]) == WriteFilters(cat, es[..i]) + [WriteFilter(cat, es[i]).value]
  {
    assert es[..i + 1] == es[..i] + [es[i]];
  }

  method BuildWhere(filters: seq<(string, Value)>, cat: Catalog, startIndex: nat)
    returns (r: Result<string>, values: seq<Value>)
    ensures r.Ok? <==> filters != [] && AllParse(cat, filters)
    ensures r.Ok? ==>
              && r.value == JoinTexts(FilterTexts(WriteFilters(cat, filters), startIndex))
              && values == FilterParams(WriteFilters(cat, filters))
  {
    var clauses, i := [], 0;
    values := [];
    if filters == [] {
      return Err("WHERE clause requires at least one filter"), values;
    }
    while i < |filters|
      invariant 0 <= i <= |filters| && AllParse(cat, filters[..i])
      invariant clauses == FilterTexts(WriteFilters(cat, filters[..i]), startIndex)
      invariant values == FilterParams(WriteFilters(cat, filters[..i]))
    {
      var f := WriteFilter(cat, filters[i]);
      if f.Err? {
        assert filters[i] in filters;
        return Err(f.error), values;
      }
      NextParsed(cat, filters, i);
      OneMoreFilter(WriteFilters(cat, filters[..i]), f.value, startIndex);
      clauses := clauses + [ClauseOf(f.value, startIndex + |values|)];
      values := values + PushedBy(f.value);
      i := i + 1;
    }
    assert filters[..i] == filters;
    return Ok(JoinTexts(clauses)), values;
  }

  // ------------------------------------------------------------------ optimistic lock

  const LOCK_COLUMN := "updated_at"

  const LOCK_CAST := Cast("timestamptz", 0)

  /** The clause that is added when the caller expects a version. */
  function LockText(n: nat): string {
    LOCK_COLUMN + " = date_trunc('milliseconds', " + (Placeholder(n, LOCK_CAST) + ")")
  }

  function LockTailT(n: nat, c: Cast): Template { Symbol(',', Space(PlaceholderT(n, c, Symbol(')', End)))) }

  function LockT(n: nat): Template {
    Name(LOCK_COLUMN,
         Space(Symbol('=', Space(Name("date_trunc", Symbol('(', Literal("milliseconds", LockTailT(n, LOCK_CAST))))))))
  }

  function LockHead(): seq<Item> { [W(LOCK_COLUMN), S('='), W("date_trunc")] }

  function LockArgument(): seq<Item> { [Q("'milliseconds"), S(',')] }

  /** `updated_at = date_trunc('milliseconds', v::timestamptz)` */
  function LockItems(v: Value): seq<Item> {
    (LockHead() + [S('(')] + LockArgument()) + ([V(v)] + CastItems(LOCK_CAST) + [S(')')])
  }

  lemma LockWords()
    ensures IsColumn(LOCK_COLUMN) && CastOk(LOCK_CAST) && IsWord("date_trunc")
    ensures RoleOf(W("date_trunc")) == Plainly
  {
    assert |Upper("timestamptz")| == 11 && |Upper("date_trunc")| == 10 && |Upper(LOCK_COLUMN)| == 10;
  }

  lemma LockTailWritten(n: nat, c: Cast)
    ensures Written(LockTailT(n, c)) == ", " + (Placeholder(n, c) + ")")
  {
    hide Placeholder, PlaceholderT;
    var ph := PlaceholderT(n, c, Symbol(')', End));
    assert Written(Symbol(')', End)) == ")";
    PlaceholderWritten(n, c, Symbol(')', End));
    WrittenSpace(ph);
    WrittenSymbol(',', Space(ph));
  }

  lemma LockRegroup(p: string)
    ensures LOCK_COLUMN + (" " + ("=" + (" " + ("date_trunc" + ("(" + ("'" + ("milliseconds" + "'" + (", " + p))))))))
            == LOCK_COLUMN + " = date_trunc('milliseconds', " + p
  {
  }

  lemma LockWritten(n: nat)
    ensures Written(LockT(n)) == LockText(n)
  {
    LockTailWritten(n, LOCK_CAST);
    var lit := Literal("milliseconds", LockTailT(n, LOCK_CAST));
    WrittenSymbol('(', lit);
    var trunc := Name("date_trunc", Symbol('(', lit));
    WrittenSpace(trunc);
    WrittenSymbol('=', Space(trunc));
    WrittenSpace(Symbol('=', Space(trunc)));
    LockRegroup(Placeholder(n, LOCK_CAST) + ")");
  }

  lemma LockSpaced(n: nat)
    ensures WellSpaced(LockT(n))
  {
    hide PlaceholderT;
    LockWords();
    PlaceholderSpaced(n, LOCK_CAST, Symbol(')', End));
    assert WellSpaced(LockTailT(n, LOCK_CAST));
    var lit := Literal("milliseconds", LockTailT(n, LOCK_CAST));
    assert WellSpaced(lit);
    assert WellSpaced(Symbol('(', lit));
    var trunc := Name("date_trunc", Symbol('(', lit));
    assert WellSpaced(trunc);
    AfterSymbolSpaced('=', trunc);
    AfterColumnSpaced(LOCK_COLUMN, Symbol('=', Space(trunc)));
  }

  lemma SymbolItems(c: char, t: Template, params: seq<Value>)
    ensures Items(Symbol(c, Space(t)), params) == [S(c)] + Items(t, params)
  {
  }

  lemma LockTailItems(n: nat, c: Cast, params: seq<Value>)
    requires 1 <= n <= |params|
    ensures Items(LockTailT(n, c), params) == [S(',')] + ([V(params[n - 1])] + CastItems(c) + [S(')')])
  {
    hide PlaceholderT, CastItems;
    var close := Symbol(')', End);
    assert Items(close, params) == [S(')')];
    PlaceholderItems(n, c, close, params);
    SymbolItems(',', PlaceholderT(n, c, close), params);
  }

  lemma RegroupItems(rest: seq<Item>)
    ensures [W(LOCK_COLUMN), S('=')] + ([W("date_trunc")] + ([S('(')] + ([Q("'milliseconds")] + ([S(',')] + rest))))
            == (LockHead() + [S('(')] + LockArgument()) + rest
  {
  }

  lemma LockItemsAre(n: nat, params: seq<Value>)
    requires 1 <= n <= |params|
    ensures Items(LockT(n), params) == LockItems(params[n - 1])
  {
    hide LockTailT, CastItems, Items;
    LockTailItems(n, LOCK_CAST, params);
    var lit := Literal("milliseconds", LockTailT(n, LOCK_CAST));
    LiteralItems("milliseconds", LockTailT(n, LOCK_CAST), params);
    var trunc := Name("date_trunc", Symbol('(', lit));
    CallItems("date_trunc", lit, params);
    HeadItems(LOCK_COLUMN, '=', trunc, params);
    RegroupItems([V(params[n - 1])] + CastItems(LOCK_CAST) + [S(')')]);
  }

  lemma LiteralItems(body: string, t: Template, params: seq<Value>)
    ensures Items(Literal(body, t), params) == [Q("'" + body)] + Items(t, params)
    ensures body == "milliseconds" ==> "'" + body == "'milliseconds"
  {
  }

  lemma CallItems(name: string, t: Template, params: seq<Value>)
    ensures Items(Name(name, Symbol('(', t)), params) == [W(name)] + ([S('(')] + Items(t, params))
  {
  }

  lemma LockEnds(v: Value)
    ensures EndDepth(LockItems(v), 0) == 0
  {
    hide RoleOfWord;
    LockWords();
    CastPlain(LOCK_CAST);
    var middle := [V(v)] + CastItems(LOCK_CAST);
    var open, close := [S('(')], [S(')')];
    assert open[1..] == [] && close[1..] == [];
    Flat(LockHead(), 0);
    Flat(LockArgument(), 1);
    Flat(middle, 1);
    DepthJoin(LockHead(), open, 0);
    DepthJoin(LockHead() + open, LockArgument(), 0);
    DepthJoin(middle, close, 1);
    DepthJoin(LockHead() + open + LockArgument(), middle + close, 0);
  }

  lemma LockIsOther(env: Env, v: Value)
    ensures DropCasts(LockItems(v)) == (LockHead() + [S('(')] + LockArgument()) + ([V(v)] + [S(')')]) ==>
              Atom(env, LockItems(v)) == env.other(LockItems(v))
  {
    hide DropCasts;
  }

  lemma LockIsAtom(env: Env, v: Value)
    ensures Means(env, LockItems(v), env.other(LockItems(v)))
  {
    hide RoleOfWord, Atom, EvalOr, EvalAnd, FindTop, EndAt, EndDepth, DropCasts;
    LockWords();
    AtomOf(env, LockHead() + [S('(')] + LockArgument(), v, LOCK_CAST, [S(')')]);
    LockEnds(v);
    LockIsOther(env, v);
  }

  /** The lock as text and parameter is one plain condition on the row. */
  lemma LockMeans(env: Env, n: nat, params: seq<Value>)
    requires 1 <= n <= |params|
    ensures FragmentMeans(env, LockText(n), params, env.other(LockItems(params[n - 1])))
  {
    LockWritten(n);
    LockSpaced(n);
    WrittenLexes(LockT(n));
    ItemsResolve(LockT(n), params);
    LockItemsAre(n, params);
    LockIsAtom(env, params[n - 1]);
  }

  /** The lock as it is written, token by token. */
  lemma LockReads(n: nat)
    ensures Lex(LockText(n))
            == [Word("updated_at"), Sym('='), Word("date_trunc"), Sym('('), Quoted("'milliseconds"), Sym(','), Param(n),
                Sym(':'), Sym(':'), Word("timestamptz"), Sym(')')]
    ensures QuotesClosed(LockText(n))
  {
    LockWritten(n);
    LockSpaced(n);
    WrittenLexes(LockT(n));
    LockTokens(n);
  }

  lemma LockTokens(n: nat)
    ensures Tokens(LockT(n))
            == [Word("updated_at"), Sym('='), Word("date_trunc"), Sym('('), Quoted("'milliseconds"), Sym(','), Param(n),
                Sym(':'), Sym(':'), Word("timestamptz"), Sym(')')]
  {
    LockTailTokens(n);
    var lit := Literal("milliseconds", LockTailT(n, LOCK_CAST));
    assert "'" + "milliseconds" == "'milliseconds";
    assert Tokens(lit) == [Quoted("'milliseconds")] + Tokens(LockTailT(n, LOCK_CAST));
    assert Tokens(Symbol('(', lit)) == [Sym('(')] + Tokens(lit);
    var trunc := Name("date_trunc", Symbol('(', lit));
    assert Tokens(trunc) == [Word("date_trunc")] + Tokens(Symbol('(', lit));
    assert Tokens(Symbol('=', Space(trunc))) == [Sym('=')] + Tokens(trunc);
  }

  lemma LockTailTokens(n: nat)
    ensures Tokens(LockTailT(n, LOCK_CAST))
            == [Sym(','), Param(n), Sym(':'), Sym(':'), Word("timestamptz"), Sym(')')]
  {
    var close := Symbol(')', End);
    assert Tokens(close) == [Sym(')')];
    var name := Name("timestamptz", BracketsT(0, close));
    assert Tokens(name) == [Word("timestamptz"), Sym(')')];
    var colons := Symbol(':', Symbol(':', name));
    assert Tokens(colons) == [Sym(':')] + ([Sym(':')] + Tokens(name));
    assert LockTailT(n, LOCK_CAST) == Symbol(',', Space(Slot(n, colons)));
    assert Tokens(Space(Slot(n, colons))) == [Param(n)] + Tokens(colons);
  }

  lemma LockItemsRead(v: Value)
    ensures LockItems(v) == [W("updated_at"), S('='), W("date_trunc"), S('('), Q("'milliseconds"), S(','), V(v), S(':'),
                             S(':'), W("timestamptz"), S(')')]
  {
  }

  lemma {:induction false} JoinMore(texts: seq<string>, last: string)
    requires texts != []
    ensures JoinTexts(texts + [last]) == JoinTexts(texts) + (SEPARATOR + last)
  {
    var all := texts + [last];
    assert all[0] == texts[0] && all[1..] == texts[1..] + [last];
    if |texts| == 1 {
      assert texts[1..] + [last] == [last];
    } else {
      JoinMore(texts[1..], last);
      assert texts[0] + (SEPARATOR + (JoinTexts(texts[1..]) + (SEPARATOR + last)))
          == texts[0] + (SEPARATOR + JoinTexts(texts[1..])) + (SEPARATOR + last);
    }
  }

  lemma LockFragmentMeans(env: Env, n: nat, params: seq<Value>)
    requires 1 <= n <= |params|
    ensures AllMean(env, [LockText(n)], params, [env.other(LockItems(params[n - 1]))])
  {
    LockMeans(env, n, params);
    ConsMeans(env, LockText(n), [], params, env.other(LockItems(params[n - 1])), []);
  }

  lemma LockJoins(env: Env, texts: seq<string>, n: nat, params: seq<Value>, truths: seq<Truth>)
    requires AllMean(env, texts, params, truths) && texts != [] && 1 <= n <= |params|
    ensures Meaning(env, JoinTexts(texts) + (SEPARATOR + LockText(n)), params)
            == Conj(truths + [env.other(LockItems(params[n - 1]))])
  {
    LockFragmentMeans(env, n, params);
    JoinMore(texts, LockText(n));
    BothJoined(env, texts, [LockText(n)], params, truths, [env.other(LockItems(params[n - 1]))]);
  }

  lemma SetThenFilters(env: Env, fs: seq<Filter>, before: seq<Value>, expected: Value) returns (params: seq<Value>)
    requires FiltersOk(fs)
    ensures params == before + (FilterParams(fs) + [expected]) && params[|params| - 1] == expected
    ensures |params| == |before| + |FilterParams(fs)| + 1
    ensures AllMean(env, FilterTexts(fs, |before|), params, FilterTruths(env, fs))
  {
    params := before + (FilterParams(fs) + [expected]);
    Middle(before, FilterParams(fs), [expected]);
    FiltersMean(env, fs, |before|, params);
  }

  /** The WHERE clause of a locked update or delete, after the SET parameters, means all
      its filters and the lock: no filter can let a row past the lock. */
  lemma LockedWhereMeans(env: Env, fs: seq<Filter>, before: seq<Value>, expected: Value)
    requires FiltersOk(fs) && fs != []
    ensures var n := |before| + |FilterParams(fs)| + 1;
            Meaning(env, JoinTexts(FilterTexts(fs, |before|)) + (SEPARATOR + LockText(n)),
                    before + (FilterParams(fs) + [expected]))
            == Conj(FilterTruths(env, fs) + [env.other(LockItems(expected))])
  {
    var params := SetThenFilters(env, fs, before, expected);
    LockJoins(env, FilterTexts(fs, |before|), |params|, params, FilterTruths(env, fs));
  }
}
