/** The read-side query builder: filters and raw fragments become one WHERE clause, and
    the same clause and parameters serve the page and its total. */
module QueryBuilder {
  import opened Types
  import opened SqlText
  import opened SqlLogic
  import opened SqlPrecedence
  import opened SqlLexing
  import opened FilterKeys
  import opened FilterClause
  import opened WhereClause
  import opened Placeholders
  import CaseNames

  // ------------------------------------------------------------------- identifiers

  predicate IsIdentChar(c: char) { IsWordStart(c) || IsDigit(c) }

  predicate IsIdent(s: string) {
    s != "" && IsWordStart(s[0]) && forall k :: 0 <= k < |s| ==> IsIdentChar(s[k])
  }

  /** `name` or `qualifier.name` */
  predicate IsQualified(s: string) {
    IsIdent(s) || exists k :: 0 <= k < |s| && s[k] == '.' && IsIdent(s[..k]) && IsIdent(s[k + 1..])
  }

  lemma QualifiedIsWord(s: string)
    requires IsQualified(s)
    ensures IsWord(s) && Plain(s)
  {
    if !IsIdent(s) {
      var d :| 0 <= d < |s| && s[d] == '.' && IsIdent(s[..d]) && IsIdent(s[d + 1..]);
      forall k | 0 <= k < |s|
        ensures IsWordChar(s[k]) && s[k] != '$'
      {
        if k < d { assert s[k] == s[..d][k]; } else if k > d { assert s[k] == s[d + 1..][k - d - 1]; }
      }
      assert s[0] == s[..d][0];
    }
  }

  // ----------------------------------------------------------------------- filters

  type Resolver = string -> string

  type Entry = (string, Value)

  /** One entry of the filter map; the errors are the builder's exceptions. */
  function FilterOf(resolve: Resolver, e: Entry): Result<Filter> {
    var parsed := ParseFilterKey(e.0);
    if parsed.Err? then Err(parsed.error)
    else
      var key := parsed.value;
      if key.hadSuffix && !IsIdent(key.field) then Err("invalid field name " + key.field)
      else if !IsQualified(key.field) then Err("invalid identifier " + key.field)
      else Ok(Filter(if IsIdent(key.field) then resolve(key.field) else key.field, key.op, e.1, NoCast))
  }

  predicate AllResolve(resolve: Resolver, es: seq<Entry>) { forall e :: e in es ==> FilterOf(resolve, e).Ok? }

  function FiltersOf(resolve: Resolver, es: seq<Entry>): (fs: seq<Filter>)
    requires AllResolve(resolve, es)
    ensures |fs| == |es| && forall k :: 0 <= k < |fs| ==> fs[k] == FilterOf(resolve, es[k]).value
  {
    seq(|es|, k requires 0 <= k < |es| => FilterOf(resolve, es[k]).value)
  }

  predicate AllMatch(raws: seq<Raw>) { forall r :: r in raws ==> Marks(r.sql) == |r.params| }

  /** The entry's column, if the entry is accepted, can be mentioned as it is. */
  predicate Usable(resolve: Resolver, e: Entry) {
    var f := FilterOf(resolve, e);
    f.Ok? ==> IsColumn(f.value.column) && Plain(f.value.column)
  }

  lemma {:induction false} FiltersAreOk(resolve: Resolver, es: seq<Entry>)
    requires AllResolve(resolve, es) && forall e :: e in es ==> Usable(resolve, e)
    ensures FiltersOk(FiltersOf(resolve, es)) && PlainFilters(FiltersOf(resolve, es))
  {
    if es != [] {
      assert es[0] in es;
      FiltersAreOk(resolve, es[1..]);
      assert FiltersOf(resolve, es)[1..] == FiltersOf(resolve, es[1..]);
    }
  }

  lemma {:induction false} SnakeKeepsIdent(s: string)
    ensures forall k :: 0 <= k < |CaseNames.CamelToSnake(s)| && (forall i :: 0 <= i < |s| ==> IsIdentChar(s[i])) ==>
              IsIdentChar(CaseNames.CamelToSnake(s)[k])
    ensures s != "" && IsWordStart(s[0]) ==>
              CaseNames.CamelToSnake(s) != "" && IsWordStart(CaseNames.CamelToSnake(s)[0])
  {
    if s != "" {
      if |s| >= 2 && CaseNames.IsLow(s[0]) && CaseNames.IsUpper(s[1]) {
        SnakeKeepsIdent(s[2..]);
      } else {
        SnakeKeepsIdent(s[1..]);
      }
    }
  }

  /** With the default resolver every entry the builder accepts is usable unless its
      column reads as one of the words that structure a condition. */
  lemma DefaultColumnsUsableIff(e: Entry)
    requires FilterOf(s => CaseNames.CamelToSnake(s), e).Ok?
    ensures var column := FilterOf(s => CaseNames.CamelToSnake(s), e).value.column;
            Usable(s => CaseNames.CamelToSnake(s), e) <==>
              Upper(column) !in {"AND", "OR", "NOT", "BETWEEN", "CASE", "END"}
  {
    var field := ParseFilterKey(e.0).value.field;
    if IsIdent(field) {
      SnakeKeepsIdent(field);
      QualifiedIsWord(CaseNames.CamelToSnake(field));
    } else {
      QualifiedIsWord(field);
    }
  }

  /** The builder takes a field called `and`; its column reads as an operator. */
  lemma FieldNamedAnd(value: Value)
    ensures FilterOf(s => CaseNames.CamelToSnake(s), ("and", value)).Ok?
    ensures !Usable(s => CaseNames.CamelToSnake(s), ("and", value))
  {
    assert "and"[1..] == "nd" && "nd"[1..] == "d" && "d"[1..] == "";
    assert CaseNames.CamelToSnake("d") == "d";
    assert CaseNames.CamelToSnake("nd") == "n" + "d";
    assert CaseNames.CamelToSnake("and") == "a" + "nd";
    assert FirstDelimiter("d") == 1 && FirstDelimiter("nd") == 2;
    assert Upper("and") == "AND";
    DefaultColumnsUsableIff(("and", value));
  }

  // ------------------------------------------------------------------- one more piece

  lemma {:induction false} OneMoreFilter(fs: seq<Filter>, f: Filter, n: nat)
    ensures FilterParams(fs + [f]) == FilterParams(fs) + PushedBy(f)
    ensures FilterTexts(fs + [f], n) == FilterTexts(fs, n) + [ClauseOf(f, n + |FilterParams(fs)|)]
  {
    hide ClauseOf, PushedBy;
    if fs == [] {
      assert fs + [f] == [f] && [f][1..] == [];
      assert FilterParams([f]) == PushedBy(f) + FilterParams([]);
    } else {
      assert (fs + [f])[1..] == fs[1..] + [f];
      OneMoreFilter(fs[1..], f, n + |PushedBy(fs[0])|);
      Assoc(PushedBy(fs[0]), FilterParams(fs[1..]), PushedBy(f));
    }
  }

  lemma {:induction false} OneMoreRaw(raws: seq<Raw>, r: Raw, n: nat)
    ensures RawParams(raws + [r]) == RawParams(raws) + r.params
    ensures RawTexts(raws + [r], n) == RawTexts(raws, n) + [Rebase(r.sql, n + |RawParams(raws)| + 1)]
  {
    if raws == [] {
      assert raws + [r] == [r] && [r][1..] == [];
      assert RawParams([r]) == r.params + RawParams([]);
    } else {
      assert (raws + [r])[1..] == raws[1..] + [r];
      OneMoreRaw(raws[1..], r, n + |raws[0].params|);
      Assoc(raws[0].params, RawParams(raws[1..]), r.params);
    }
  }

  lemma NextResolved(resolve: Resolver, es: seq<Entry>, i: nat)
    requires i < |es| && AllResolve(resolve, es[..i]) && FilterOf(resolve, es[i]).Ok?
    ensures AllResolve(resolve, es[..i + 1])
    ensures FiltersOf(resolve, es[..i + 1]) == FiltersOf(resolve, es[..i]) + [FilterOf(resolve, es[i]).value]
  {
    assert es[..i + 1] == es[..i] + [es[i]];
  }

  method FilterFragments(resolve: Resolver, entries: seq<Entry>, before: seq<Value>)
    returns (r: Result<seq<string>>, params: seq<Value>)
    ensures r.Ok? <==> AllResolve(resolve, entries)
    ensures r.Ok? ==>
              && r.value == FilterTexts(FiltersOf(resolve, entries), |before|)
              && params == before + FilterParams(FiltersOf(resolve, entries))
  {
    hide FilterOf, ClauseOf, PushedBy, FilterTexts, FilterParams;
    var fragments, i := [], 0;
    NoFilters(|before|);
    params := before;
    while i < |entries|
      invariant 0 <= i <= |entries| && AllResolve(resolve, entries[..i])
      invariant fragments == FilterTexts(FiltersOf(resolve, entries[..i]), |before|)
      invariant params == before + FilterParams(FiltersOf(resolve, entries[..i]))
    {
      var f := FilterOf(resolve, entries[i]);
      if f.Err? {
        assert entries[i] in entries;
        return Err(f.error), params;
      }
      NextResolved(resolve, entries, i);
      OneMoreFilter(FiltersOf(resolve, entries[..i]), f.value, |before|);
      fragments := fragments + [ClauseOf(f.value, |params|)];
      params := params + PushedBy(f.value);
      i := i + 1;
    }
    assert entries[..i] == entries;
    return Ok(fragments), params;
  }

  method RawFragments(raws: seq<Raw>, before: seq<Value>) returns (r: Result<seq<string>>, params: seq<Value>)
    ensures r.Ok? <==> AllMatch(raws)
    ensures r.Ok? ==> r.value == RawTexts(raws, |before|) && params == before + RawParams(raws)
  {
    var fragments, i := [], 0;
    params := before;
    while i < |raws|
      invariant 0 <= i <= |raws| && AllMatch(raws[..i])
      invariant fragments == RawTexts(raws[..i], |before|)
      invariant params == before + RawParams(raws[..i])
    {
      var rebased, more := RebaseQuestionMarks(raws[i].sql, params, raws[i].params);
      if rebased.Err? {
        assert raws[i] in raws;
        return Err(rebased.error), more;
      }
      assert raws[..i + 1] == raws[..i] + [raws[i]];
      OneMoreRaw(raws[..i], raws[i], |before|);
      fragments := fragments + [rebased.value];
      params := more;
      i := i + 1;
    }
    assert raws[..i] == raws;
    return Ok(fragments), params;
  }

  /** buildWhereSql: pushes onto `params` and returns the clause, or throws. */
  method BuildWhereSql(resolve: Resolver, entries: seq<Entry>, raws: seq<Raw>, before: seq<Value>)
    returns (r: Result<string>, params: seq<Value>)
    ensures r.Ok? <==> AllResolve(resolve, entries) && AllMatch(raws)
    ensures r.Ok? ==>
              var fs := FiltersOf(resolve, entries);
              r.value == WhereSql(fs, raws, |before|) && params == before + AllParams(fs, raws)
  {
    var filters, pushed := FilterFragments(resolve, entries, before);
    if filters.Err? {
      return Err(filters.error), pushed;
    }
    var rest, all := RawFragments(raws, pushed);
    if rest.Err? {
      return Err(rest.error), all;
    }
    Assoc(before, FilterParams(FiltersOf(resolve, entries)), RawParams(raws));
    return Ok(JoinTexts(filters.value + rest.value)), all;
  }

  /** For every filter map and every list of raw fragments without a top-level OR, the
      clause and parameters that buildWhereSql returns mean the conjunction of what the
      operators and the fragments mean; with nothing to say there is no clause. */
  lemma EmittedWhereMeans(env: Env, resolve: Resolver, entries: seq<Entry>, raws: seq<Raw>, before: seq<Value>)
    requires AllResolve(resolve, entries) && (forall e :: e in entries ==> Usable(resolve, e)) && RawsOk(raws)
    ensures var fs := FiltersOf(resolve, entries);
            var truths := FilterTruths(env, fs) + RawTruths(env, raws);
            if entries == [] && raws == [] then WhereSql(fs, raws, |before|) == ""
            else Meaning(env, WhereSql(fs, raws, |before|), before + AllParams(fs, raws)) == Conj(truths)
  {
    FiltersAreOk(resolve, entries);
    if entries != [] || raws != [] {
      WhereMeansConjunction(env, FiltersOf(resolve, entries), raws, before);
    }
  }
}
