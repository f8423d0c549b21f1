/** What the `contains` operator finds: SQL's pattern matching against the pattern that is
    pushed for it. */
module LikePatterns {
  import opened Types
  import opened SqlLogic
  import opened SqlLexing
  import opened FilterKeys
  import opened FilterClause
  import opened FilterMeaning
  import opened WhereClause
  import opened QueryBuilder

  /** How ILIKE folds a character before it compares. */
  type Folding = char -> char

  /** LIKE: `%` stands for any text, `_` for any character, `\` takes the next character
      as it is, every other character for itself up to folding. */
  predicate Like(fold: Folding, text: string, pattern: string)
    decreases |pattern|, |text|
  {
    if pattern == "" then text == ""
    else if pattern[0] == '%' then Like(fold, text, pattern[1..]) || (text != "" && Like(fold, text[1..], pattern))
    else if pattern[0] == '_' then text != "" && Like(fold, text[1..], pattern[1..])
    else if pattern[0] == '\\' && |pattern| >= 2 then
      text != "" && fold(text[0]) == fold(pattern[1]) && Like(fold, text[1..], pattern[2..])
    else text != "" && fold(text[0]) == fold(pattern[0]) && Like(fold, text[1..], pattern[1..])
  }

  /** The database's ILIKE on texts is that one. */
  ghost predicate Likes(env: Env, fold: Folding) {
    forall text: string, pattern: string :: env.ilike(Text(text), Text(pattern)) <==> Like(fold, text, pattern)
  }

  /** No character with a meaning of its own. */
  predicate Verbatim(s: string) { forall k :: 0 <= k < |s| ==> s[k] != '%' && s[k] != '_' && s[k] != '\\' }

  /** From position i on the text reads s, up to folding. */
  predicate FoundAt(fold: Folding, text: string, s: string, i: nat) {
    i + |s| <= |text| && forall k :: 0 <= k < |s| ==> fold(text[i + k]) == fold(s[k])
  }

  lemma {:induction false} AnyRest(fold: Folding, text: string)
    ensures Like(fold, text, "%")
  {
    assert "%"[1..] == "";
    if text != "" { AnyRest(fold, text[1..]); }
  }

  /** Text and then anything. */
  lemma {:induction false} StartsIff(fold: Folding, text: string, s: string)
    requires Verbatim(s)
    ensures Like(fold, text, s + "%") <==> FoundAt(fold, text, s, 0)
    decreases |s|
  {
    if s == "" {
      assert s + "%" == "%";
      AnyRest(fold, text);
    } else {
      assert (s + "%")[0] == s[0] && (s + "%")[1..] == s[1..] + "%";
      if text != "" {
        StartsIff(fold, text[1..], s[1..]);
        if FoundAt(fold, text, s, 0) {
          assert forall k :: 0 <= k < |s[1..]| ==> fold(text[1..][k]) == fold(text[k + 1]);
        }
        if fold(text[0]) == fold(s[0]) && FoundAt(fold, text[1..], s[1..], 0) {
          forall k | 0 <= k < |s|
            ensures fold(text[k]) == fold(s[k])
          {
            if k > 0 { assert fold(text[1..][0 + (k - 1)]) == fold(s[1..][k - 1]); }
          }
        }
      }
    }
  }

  lemma FoundLater(fold: Folding, text: string, s: string, i: nat)
    requires text != ""
    ensures FoundAt(fold, text[1..], s, i) <==> FoundAt(fold, text, s, i + 1)
  {
    var t, j := text[1..], i + 1;
    if FoundAt(fold, text, s, j) {
      forall k | 0 <= k < |s|
        ensures fold(t[i + k]) == fold(s[k])
      {
        assert fold(text[j + k]) == fold(s[k]);
      }
    }
    if FoundAt(fold, t, s, i) {
      forall k | 0 <= k < |s|
        ensures fold(text[j + k]) == fold(s[k])
      {
        assert fold(t[i + k]) == fold(s[k]);
      }
    }
  }

  /** Anything, then text, then anything. */
  lemma {:induction false} InsideIff(fold: Folding, text: string, s: string)
    requires Verbatim(s)
    ensures Like(fold, text, "%" + s + "%") <==> exists i: nat :: FoundAt(fold, text, s, i)
    decreases |text|
  {
    var p := "%" + s + "%";
    assert p[1..] == s + "%";
    StartsIff(fold, text, s);
    if text != "" {
      InsideIff(fold, text[1..], s);
      if i: nat :| FoundAt(fold, text[1..], s, i) {
        FoundLater(fold, text, s, i);
      }
      if i: nat :| FoundAt(fold, text, s, i) && i > 0 {
        FoundLater(fold, text, s, i - 1);
      }
    }
  }

  /** The value pushed for `contains`, and what the clause means with it: true exactly
      when the column's text has the searched text at some position, whatever the case;
      unknown for NULL. */
  lemma ContainsFindsIff(env: Env, fold: Folding, column: string, s: string, n: nat, c: Cast, params: seq<Value>)
    requires IsColumn(column) && CastOk(c) && 1 <= n <= |params| && Likes(env, fold) && Verbatim(s)
    requires Pushed(Contains, Text(s)) == [params[n - 1]]
    requires env.row(column).Text? || env.row(column).Null?
    ensures var sql := BuildFilterClause(column, Contains, Text(s), Placeholder(n, c));
            Meaning(env, sql, params)
            == if env.row(column).Null? then Unknown
               else if exists i: nat :: FoundAt(fold, env.row(column).s, s, i) then True else False
  {
    hide BuildFilterClause, Placeholder, IsColumn, CastOk, Likes, FoundAt, Like;
    FilterClauseMeans(env, column, Contains, Text(s), n, c, params);
    PatternOf(s);
    if env.row(column).Text? {
      LikesAre(env, fold, env.row(column).s, "%" + s + "%");
      InsideIff(fold, env.row(column).s, s);
    }
  }

  lemma PatternOf(s: string)
    ensures Pattern(Text(s)) == Text("%" + s + "%")
  {
  }

  lemma LikesAre(env: Env, fold: Folding, text: string, pattern: string)
    requires Likes(env, fold)
    ensures env.ilike(Text(text), Text(pattern)) <==> Like(fold, text, pattern)
  {
  }

  /** The same for what the read-side builder emits for a `field__contains` filter. */
  lemma EmittedContainsFindsIff(env: Env, fold: Folding, resolve: Resolver, field: string, s: string)
    requires Likes(env, fold) && Verbatim(s) && Separable(field) && IsIdent(field) && IsColumn(resolve(field))
    requires env.row(resolve(field)).Text? || env.row(resolve(field)).Null?
    ensures AllResolve(resolve, [(field + "__contains", Text(s))])
    ensures var fs := FiltersOf(resolve, [(field + "__contains", Text(s))]);
            var v := env.row(resolve(field));
            Meaning(env, WhereSql(fs, [], 0), AllParams(fs, []))
            == if v.Null? then Unknown else if exists i: nat :: FoundAt(fold, v.s, s, i) then True else False
  {
    hide BuildFilterClause, Placeholder, IsColumn, Likes, FoundAt, Like, Meaning, Separable, IsIdent, FilterOf;
    var e := (field + "__contains", Text(s));
    var f := Filter(resolve(field), Contains, Text(s), NoCast);
    ContainsKey(resolve, field, Text(s));
    var fs := FiltersOf(resolve, [e]);
    assert fs == [f];
    OneFilter(f);
    assert [] + Pushed(Contains, Text(s)) == Pushed(Contains, Text(s));
    ContainsFindsIff(env, fold, resolve(field), s, 1, NoCast, Pushed(Contains, Text(s)));
  }

  lemma ContainsKey(resolve: Resolver, field: string, value: Value)
    requires Separable(field) && IsIdent(field)
    ensures FilterOf(resolve, (field + "__contains", value)) == Ok(Filter(resolve(field), Contains, value, NoCast))
  {
    hide Separable, IsIdent, ParseFilterKey;
    OperatorKeys(field);
  }

  lemma OneFilter(f: Filter)
    ensures WhereSql([f], [], 0) == ClauseOf(f, 0) && AllParams([f], []) == PushedBy(f)
  {
    hide ClauseOf, PushedBy;
    assert [f][1..] == [];
    assert FilterTexts([f], 0) == [ClauseOf(f, 0)] + FilterTexts([], |PushedBy(f)|);
    assert FilterParams([f]) == PushedBy(f) + FilterParams([]);
    assert AllTexts([f], [], 0) == [ClauseOf(f, 0)];
    assert PushedBy(f) + [] + [] == PushedBy(f);
  }

  /** The searched text is not escaped: an underscore finds any text that is not empty. */
  lemma UnderscoreFindsAll(fold: Folding, text: string)
    ensures Like(fold, text, "%_%") <==> text != ""
  {
    assert "%_%"[1..] == "_%" && "_%"[1..] == "%";
    if text != "" {
      AnyRest(fold, text[1..]);
    } else {
      assert !Like(fold, text, "_%");
    }
  }
}
