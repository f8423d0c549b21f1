/** The WHERE clause of the read-side query builder and of the write-side adapter: text
    and parameters built in one pass, and what they mean together. */
module WhereClause {
  import opened Types
  import opened SqlText
  import opened SqlLogic
  import opened SqlPrecedence
  import opened SqlLexing
  import opened FilterKeys
  import opened FilterClause
  import opened FilterMeaning

  /** A filter whose column is already resolved; the read side casts nothing. */
  datatype Filter = Filter(column: string, op: Op, value: Value, cast: Cast)

  /** A raw `where` fragment with its parameters. */
  datatype Raw = Raw(sql: string, params: seq<Value>)

  const SEPARATOR := " AND "

  function JoinTexts(parts: seq<string>): string {
    if parts == [] then "" else if |parts| == 1 then parts[0] else parts[0] + (SEPARATOR + JoinTexts(parts[1..]))
  }

  function PushedBy(f: Filter): seq<Value> { Pushed(f.op, f.value) }

  function FilterParams(fs: seq<Filter>): seq<Value> {
    if fs == [] then [] else PushedBy(fs[0]) + FilterParams(fs[1..])
  }

  function ClauseOf(f: Filter, n: nat): string {
    BuildFilterClause(f.column, f.op, f.value, Placeholder(n + 1, f.cast))
  }

  /** Each clause is numbered from the parameters pushed so far. */
  function FilterTexts(fs: seq<Filter>, n: nat): seq<string> {
    if fs == [] then [] else [ClauseOf(fs[0], n)] + FilterTexts(fs[1..], n + |PushedBy(fs[0])|)
  }

  function RawParams(raws: seq<Raw>): seq<Value> {
    if raws == [] then [] else raws[0].params + RawParams(raws[1..])
  }

  function RawTexts(raws: seq<Raw>, n: nat): seq<string> {
    if raws == [] then [] else [Rebase(raws[0].sql, n + 1)] + RawTexts(raws[1..], n + |raws[0].params|)
  }

  function AllTexts(fs: seq<Filter>, raws: seq<Raw>, n: nat): seq<string> {
    FilterTexts(fs, n) + RawTexts(raws, n + |FilterParams(fs)|)
  }

  function WhereSql(fs: seq<Filter>, raws: seq<Raw>, n: nat): string { JoinTexts(AllTexts(fs, raws, n)) }

  function AllParams(fs: seq<Filter>, raws: seq<Raw>): seq<Value> { FilterParams(fs) + RawParams(raws) }

  // ------------------------------------------------------------------ the join as text

  ghost predicate FragmentMeans(env: Env, text: string, params: seq<Value>, truth: Truth) {
    QuotesClosed(text) && Means(env, Resolve(Lex(text), params), truth)
  }

  predicate AllPairs<A, B>(p: (A, B) -> bool, xs: seq<A>, ys: seq<B>) {
    if xs == [] || ys == [] then xs == [] && ys == []
    else p(xs[0], ys[0]) && AllPairs(p, xs[1..], ys[1..])
  }

  lemma {:induction false} AllPairsJoin<A, B>(p: (A, B) -> bool, a: seq<A>, b: seq<A>, ta: seq<B>, tb: seq<B>)
    requires AllPairs(p, a, ta) && AllPairs(p, b, tb)
    ensures AllPairs(p, a + b, ta + tb)
  {
    if a == [] {
      assert a + b == b && ta + tb == tb;
    } else {
      AllPairsJoin(p, a[1..], b, ta[1..], tb);
      assert (a + b)[1..] == a[1..] + b && (ta + tb)[1..] == ta[1..] + tb;
    }
  }

  ghost function Meant(env: Env, params: seq<Value>): (string, Truth) -> bool {
    (text, truth) => FragmentMeans(env, text, params, truth)
  }

  ghost predicate AllMean(env: Env, texts: seq<string>, params: seq<Value>, truths: seq<Truth>) {
    AllPairs(Meant(env, params), texts, truths)
  }

  lemma ConsMeans(env: Env, text: string, texts: seq<string>, params: seq<Value>, truth: Truth, truths: seq<Truth>)
    requires FragmentMeans(env, text, params, truth) && AllMean(env, texts, params, truths)
    ensures AllMean(env, [text] + texts, params, [truth] + truths)
  {
    assert ([text] + texts)[1..] == texts && ([truth] + truths)[1..] == truths;
  }

  lemma {:induction false} EachMeans(env: Env, texts: seq<string>, params: seq<Value>, truths: seq<Truth>)
    requires AllMean(env, texts, params, truths)
    ensures |truths| == |texts|
    ensures forall k :: 0 <= k < |texts| ==> FragmentMeans(env, texts[k], params, truths[k])
  {
    if texts != [] {
      EachMeans(env, texts[1..], params, truths[1..]);
    }
  }

  lemma LexJoined(a: string, rest: string)
    requires QuotesClosed(a)
    ensures Lex(a + (SEPARATOR + rest)) == Lex(a) + ([Word("AND")] + Lex(rest))
  {
    hide Lex, QuotesClosed;
    var t := SEPARATOR + rest;
    LexAppend(a, t);
    assert t == " " + ("AND" + (" " + rest));
    LexSpace("AND" + (" " + rest));
    LexWord("AND", " " + rest);
    LexSpace(rest);
  }

  lemma ResolveJoin(a: seq<Tok>, b: seq<Tok>, params: seq<Value>)
    ensures Resolve(a + b, params) == Resolve(a, params) + Resolve(b, params)
  {
  }

  function ItemsOfAll(texts: seq<string>, params: seq<Value>): (r: seq<seq<Item>>)
    ensures |r| == |texts| && forall k :: 0 <= k < |r| ==> r[k] == Resolve(Lex(texts[k]), params)
  {
    seq(|texts|, k requires 0 <= k < |texts| => Resolve(Lex(texts[k]), params))
  }

  lemma LexedJoin(a: string, rest: string, params: seq<Value>)
    requires QuotesClosed(a)
    ensures Resolve(Lex(a + (SEPARATOR + rest)), params) == Resolve(Lex(a), params) + [AND] + Resolve(Lex(rest), params)
  {
    LexJoined(a, rest);
    ResolveJoin(Lex(a), [Word("AND")] + Lex(rest), params);
    ResolveFirst(Word("AND"), Lex(rest), params);
    Assoc(Resolve(Lex(a), params), [AND], Resolve(Lex(rest), params));
  }

  lemma {:induction false} JoinedItems(texts: seq<string>, params: seq<Value>)
    requires texts != [] && forall k :: 0 <= k < |texts| ==> QuotesClosed(texts[k])
    ensures Resolve(Lex(JoinTexts(texts)), params) == JoinAnd(ItemsOfAll(texts, params))
  {
    if |texts| > 1 {
      var rest := texts[1..];
      JoinedItems(rest, params);
      assert ItemsOfAll(texts, params)[1..] == ItemsOfAll(rest, params);
      LexedJoin(texts[0], JoinTexts(rest), params);
    }
  }

  /** Joined with AND and no parentheses, fragments that each mean their truth, with no
      top-level OR, mean the conjunction. */
  lemma JoinMeans(env: Env, texts: seq<string>, params: seq<Value>, truths: seq<Truth>)
    requires texts != [] && AllMean(env, texts, params, truths)
    ensures Meaning(env, JoinTexts(texts), params) == Conj(truths)
  {
    EachMeans(env, texts, params, truths);
    var parts := ItemsOfAll(texts, params);
    JoinedItems(texts, params);
    assert forall k :: 0 <= k < |parts| ==> Means(env, parts[k], truths[k]);
    JoinIsConjunction(env, parts);
    assert Meanings(env, parts) == truths;
  }

  // -------------------------------------------------------------- the fragments' meaning

  predicate FilterOk(f: Filter) { IsColumn(f.column) && CastOk(f.cast) }

  function FilterTruths(env: Env, fs: seq<Filter>): (r: seq<Truth>)
    ensures |r| == |fs|
  {
    if fs == [] then [] else [Denotes(env, env.row(fs[0].column), fs[0].op, fs[0].value)] + FilterTruths(env, fs[1..])
  }

  /** What a raw fragment means on its own, its parameters put in for its marks. */
  function RawTruth(env: Env, raw: Raw): Truth { EvalOr(env, Fill(Lex(raw.sql), raw.params)) }

  function RawTruths(env: Env, raws: seq<Raw>): (r: seq<Truth>)
    ensures |r| == |raws|
  {
    if raws == [] then [] else [RawTruth(env, raws[0])] + RawTruths(env, raws[1..])
  }

  /** Square brackets close and hold no logical operator. */
  predicate BracketsHold(items: seq<Item>, d: int) {
    if items == [] then d == 0
    else
      && (d > 0 ==> RoleOf(items[0]) !in {IsAnd, IsOr, IsNot, IsBetween})
      && BracketsHold(items[1..], if items[0] == S('[') then d + 1 else if items[0] == S(']') then d - 1 else d)
  }

  /** A fragment the caller may rely on: something said, one parameter per mark, clean
      marks, parentheses that never close more than is open, and no OR outside them. */
  predicate RawOk(raw: Raw) {
    var items := Fill(Lex(raw.sql), raw.params);
    && items != [] && Clean(raw.sql) && Marks(raw.sql) == |raw.params|
    && Closed(items) && NoTopOr(items) && BracketsHold(items, 0)
  }

  predicate FiltersOk(fs: seq<Filter>) { fs == [] || (FilterOk(fs[0]) && FiltersOk(fs[1..])) }

  predicate RawsOk(raws: seq<Raw>) { raws == [] || (RawOk(raws[0]) && RawsOk(raws[1..])) }

  lemma Slices<T>(s: seq<T>, n: nat, p: seq<T>, q: seq<T>)
    requires n + |p| + |q| <= |s| && s[n..n + |p| + |q|] == p + q
    ensures s[n..n + |p|] == p && s[n + |p|..n + |p| + |q|] == q
  {
    assert s[n..n + |p|] == s[n..n + |p| + |q|][..|p|];
    assert s[n + |p|..n + |p| + |q|] == s[n..n + |p| + |q|][|p|..];
  }

  lemma FilterFragment(env: Env, f: Filter, n: nat, params: seq<Value>)
    requires FilterOk(f) && n + |PushedBy(f)| <= |params| && params[n..n + |PushedBy(f)|] == PushedBy(f)
    ensures FragmentMeans(env, ClauseOf(f, n), params, Denotes(env, env.row(f.column), f.op, f.value))
  {
    if PushedBy(f) != [] { assert params[n] == params[n..n + |PushedBy(f)|][0]; }
    FilterClauseMeans(env, f.column, f.op, f.value, n + 1, f.cast, params);
  }

  lemma {:induction false} FiltersMean(env: Env, fs: seq<Filter>, n: nat, params: seq<Value>)
    requires FiltersOk(fs)
    requires n + |FilterParams(fs)| <= |params| && params[n..n + |FilterParams(fs)|] == FilterParams(fs)
    ensures AllMean(env, FilterTexts(fs, n), params, FilterTruths(env, fs))
  {
    hide FilterOk, FragmentMeans, Denotes, ClauseOf, PushedBy;
    if fs != [] {
      Slices(params, n, PushedBy(fs[0]), FilterParams(fs[1..]));
      FilterFragment(env, fs[0], n, params);
      FiltersMean(env, fs[1..], n + |PushedBy(fs[0])|, params);
      ConsMeans(env, ClauseOf(fs[0], n), FilterTexts(fs[1..], n + |PushedBy(fs[0])|), params,
                Denotes(env, env.row(fs[0].column), fs[0].op, fs[0].value), FilterTruths(env, fs[1..]));
    }
  }

  lemma RawMeans(env: Env, raw: Raw, n: nat, params: seq<Value>)
    requires RawOk(raw)
    requires n + |raw.params| <= |params| && params[n..n + |raw.params|] == raw.params
    ensures FragmentMeans(env, Rebase(raw.sql, n + 1), params, RawTruth(env, raw))
  {
    CleanRebases(raw.sql, n + 1);
    CleanMarks(raw.sql);
    NumberedMeansFilled(Lex(raw.sql), raw.params, n + 1, params);
  }

  lemma {:induction false} RawsMean(env: Env, raws: seq<Raw>, n: nat, params: seq<Value>)
    requires RawsOk(raws)
    requires n + |RawParams(raws)| <= |params| && params[n..n + |RawParams(raws)|] == RawParams(raws)
    ensures AllMean(env, RawTexts(raws, n), params, RawTruths(env, raws))
  {
    hide RawOk, FragmentMeans, Rebase, RawTruth;
    if raws != [] {
      Slices(params, n, raws[0].params, RawParams(raws[1..]));
      RawMeans(env, raws[0], n, params);
      RawsMean(env, raws[1..], n + |raws[0].params|, params);
      ConsMeans(env, Rebase(raws[0].sql, n + 1), RawTexts(raws[1..], n + |raws[0].params|), params,
                RawTruth(env, raws[0]), RawTruths(env, raws[1..]));
    }
  }

  /** Two lists of fragments joined by AND, no parentheses, mean the conjunction of all. */
  lemma BothJoined(env: Env, a: seq<string>, b: seq<string>, params: seq<Value>, ta: seq<Truth>, tb: seq<Truth>)
    requires AllMean(env, a, params, ta) && AllMean(env, b, params, tb) && |ta| + |tb| > 0
    ensures Meaning(env, JoinTexts(a + b), params) == Conj(ta + tb)
  {
    AllPairsJoin(Meant(env, params), a, b, ta, tb);
    EachMeans(env, a + b, params, ta + tb);
    JoinMeans(env, a + b, params, ta + tb);
  }

  lemma Middle<T>(a: seq<T>, b: seq<T>, c: seq<T>)
    ensures |a| + |b| <= |a + (b + c)| && (a + (b + c))[|a|..|a| + |b|] == b
    ensures |a| + |b| + |c| <= |a + (b + c)| && (a + (b + c))[|a| + |b|..|a| + |b| + |c|] == c
  {
  }

  lemma RawsAfterFilters(fs: seq<Filter>, raws: seq<Raw>, before: seq<Value>)
    ensures var n, params := |before| + |FilterParams(fs)|, before + AllParams(fs, raws);
            n + |RawParams(raws)| <= |params| && params[n..n + |RawParams(raws)|] == RawParams(raws)
  {
    Middle(before, FilterParams(fs), RawParams(raws));
  }

  lemma FilterHalfMeans(env: Env, fs: seq<Filter>, raws: seq<Raw>, before: seq<Value>)
    requires FiltersOk(fs)
    ensures AllMean(env, FilterTexts(fs, |before|), before + AllParams(fs, raws), FilterTruths(env, fs))
  {
    Middle(before, FilterParams(fs), RawParams(raws));
    FiltersMean(env, fs, |before|, before + AllParams(fs, raws));
  }

  lemma RawHalfMeans(env: Env, fs: seq<Filter>, raws: seq<Raw>, before: seq<Value>)
    requires RawsOk(raws)
    ensures AllMean(env, RawTexts(raws, |before| + |FilterParams(fs)|), before + AllParams(fs, raws),
                    RawTruths(env, raws))
  {
    RawsAfterFilters(fs, raws, before);
    RawsMean(env, raws, |before| + |FilterParams(fs)|, before + AllParams(fs, raws));
  }

  lemma WhereIsJoin(fs: seq<Filter>, raws: seq<Raw>, n: nat)
    ensures WhereSql(fs, raws, n) == JoinTexts(FilterTexts(fs, n) + RawTexts(raws, n + |FilterParams(fs)|))
  {
  }

  /** The emitted WHERE clause with the emitted parameters, placed after `before`, means
      the conjunction of what every filter and every raw fragment means. */
  lemma WhereMeansConjunction(env: Env, fs: seq<Filter>, raws: seq<Raw>, before: seq<Value>)
    requires FiltersOk(fs) && RawsOk(raws) && |fs| + |raws| > 0
    ensures Meaning(env, WhereSql(fs, raws, |before|), before + AllParams(fs, raws))
            == Conj(FilterTruths(env, fs) + RawTruths(env, raws))
  {
    hide *;
    WhereIsJoin(fs, raws, |before|);
    FilterHalfMeans(env, fs, raws, before);
    RawHalfMeans(env, fs, raws, before);
    BothJoined(env, FilterTexts(fs, |before|), RawTexts(raws, |before| + |FilterParams(fs)|),
               before + AllParams(fs, raws),
               FilterTruths(env, fs), RawTruths(env, raws));
  }

  lemma FirstText(fs: seq<Filter>, raws: seq<Raw>, n: nat)
    requires |fs| + |raws| > 0 && (fs == [] ==> RawOk(raws[0]))
    ensures AllTexts(fs, raws, n) != [] && AllTexts(fs, raws, n)[0] != ""
  {
    hide Clean, Closed, NoTopOr, BracketsHold, Rebase, RawTexts, FilterTexts, FilterParams;
    if fs == [] {
      SomeText(raws[0], n);
      assert RawTexts(raws, n) == [Rebase(raws[0].sql, n + 1)] + RawTexts(raws[1..], n + |raws[0].params|) by {
        FirstRaw(raws, n);
      }
      assert FilterTexts(fs, n) == [] && FilterParams(fs) == [] by { NoFilters(n); }
    } else {
      assert FilterTexts(fs, n) == [ClauseOf(fs[0], n)] + FilterTexts(fs[1..], n + |PushedBy(fs[0])|) by {
        FirstFilter(fs, n);
      }
      ClauseSays(fs[0], n);
    }
  }

  lemma NoFilters(n: nat)
    ensures FilterTexts([], n) == [] && FilterParams([]) == []
  {
  }

  lemma FirstRaw(raws: seq<Raw>, n: nat)
    requires raws != []
    ensures RawTexts(raws, n) == [Rebase(raws[0].sql, n + 1)] + RawTexts(raws[1..], n + |raws[0].params|)
  {
  }

  lemma FirstFilter(fs: seq<Filter>, n: nat)
    requires fs != []
    ensures FilterTexts(fs, n) == [ClauseOf(fs[0], n)] + FilterTexts(fs[1..], n + |PushedBy(fs[0])|)
  {
  }

  lemma ClauseSays(f: Filter, n: nat)
    ensures ClauseOf(f, n) != ""
  {
    hide Placeholder;
  }

  lemma SomeText(raw: Raw, n: nat)
    requires RawOk(raw)
    ensures Rebase(raw.sql, n + 1) != ""
  {
    hide Clean, Closed, NoTopOr, BracketsHold;
    assert Fill([], raw.params) == [];
    assert raw.sql != "";
  }

  /** Something to say, and the clause is not empty. */
  lemma WhereIsSaid(fs: seq<Filter>, raws: seq<Raw>, n: nat)
    requires |fs| + |raws| > 0 && (fs == [] ==> RawOk(raws[0]))
    ensures WhereSql(fs, raws, n) != ""
  {
    hide AllTexts, RawOk;
    FirstText(fs, raws, n);
  }

  /** A raw fragment alone needs no care: with nothing to join, a top-level OR is fine. */
  lemma SingleRawMeans(env: Env, raw: Raw, before: seq<Value>)
    requires Clean(raw.sql) && Marks(raw.sql) == |raw.params|
    ensures Meaning(env, WhereSql([], [raw], |before|), before + AllParams([], [raw])) == RawTruth(env, raw)
  {
    var params := before + AllParams([], [raw]);
    assert [raw][1..] == [];
    assert RawParams([raw]) == raw.params + RawParams([]);
    assert AllParams([], [raw]) == raw.params && params[|before|..|before| + |raw.params|] == raw.params;
    assert RawTexts([raw], |before|) == [Rebase(raw.sql, |before| + 1)] + RawTexts([], |before| + |raw.params|);
    assert AllTexts([], [raw], |before|) == [Rebase(raw.sql, |before| + 1)];
    CleanRebases(raw.sql, |before| + 1);
    CleanMarks(raw.sql);
    NumberedMeansFilled(Lex(raw.sql), raw.params, |before| + 1, params);
  }
}
