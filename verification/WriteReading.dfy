/** The adapter's statements read back from their text: which column gets which value. */
module WriteReading {
  import opened Types
  import opened SqlText
  import opened SqlLogic
  import opened SqlLexing
  import opened FilterClause
  import opened SelectStatement
  import opened StatementReading
  import opened WriteStatements
  import opened WriteLayouts
  import opened WriteTexts

  // ------------------------------------------------------------------- what is read

  /** Where a value comes from: a column of the data list, a parameter, or the clock. */
  datatype Source = FromData(column: string) | Bound(n: nat) | Now | Unclear

  const NOW_TOKENS: seq<Tok> :=
    [Word("date_trunc"), Sym('('), Quoted("'milliseconds"), Sym(','), Word("CURRENT_TIMESTAMP"), Sym(')')]

  /** `::type`, with any number of `[]`. */
  predicate IsCast(toks: seq<Tok>) {
    toks == [] ||
    (&& |toks| >= 3 && toks[0] == Sym(':') && toks[1] == Sym(':') && toks[2].Word?
     && forall t :: t in toks[3..] ==> t == Sym('[') || t == Sym(']'))
  }

  function SourceOf(toks: seq<Tok>): Source {
    if toks != [] && toks[0].Param? && IsCast(toks[1..]) then Bound(toks[0].n)
    else if |toks| == 1 && toks[0].Word? && "data." <= toks[0].w then FromData(toks[0].w[|"data."|..])
    else if toks == NOW_TOKENS then Now
    else Unclear
  }

  function SourcesOf(parts: seq<seq<Tok>>): (r: seq<Source>)
    ensures |r| == |parts| && forall k :: 0 <= k < |r| ==> r[k] == SourceOf(parts[k])
  {
    seq(|parts|, k requires 0 <= k < |parts| => SourceOf(parts[k]))
  }

  /** `column = value` */
  function AssignmentOf(toks: seq<Tok>): (string, Source) {
    if |toks| >= 2 && toks[0].Word? && toks[1] == Sym('=') then (toks[0].w, SourceOf(toks[2..])) else ("", Unclear)
  }

  function AssignmentsOf(parts: seq<seq<Tok>>): (r: seq<(string, Source)>)
    ensures |r| == |parts| && forall k :: 0 <= k < |r| ==> r[k] == AssignmentOf(parts[k])
  {
    seq(|parts|, k requires 0 <= k < |parts| => AssignmentOf(parts[k]))
  }

  function NameOfColumn(toks: seq<Tok>): string { if |toks| == 1 && toks[0].Word? then toks[0].w else "" }

  function NamesOf(parts: seq<seq<Tok>>): (r: seq<string>)
    ensures |r| == |parts| && forall k :: 0 <= k < |r| ==> r[k] == NameOfColumn(parts[k])
  {
    seq(|parts|, k requires 0 <= k < |parts| => NameOfColumn(parts[k]))
  }

  /** The rows of a VALUES list. */
  function RowsOf(groups: seq<seq<Tok>>): (r: seq<seq<Source>>)
    ensures |r| == |groups| && forall k :: 0 <= k < |r| ==> r[k] == SourcesOf(Listed(Inside(groups[k])))
  {
    seq(|groups|, k requires 0 <= k < |groups| => SourcesOf(Listed(Inside(groups[k]))))
  }

  datatype Statement =
    | InsertInto(columns: seq<string>, rows: seq<seq<Source>>, returning: seq<Tok>)
    | UpdateSet(sets: seq<(string, Source)>, where: seq<Tok>)
    | UpdateFrom(sets: seq<(string, Source)>, columns: seq<string>, rows: seq<seq<Source>>, on: seq<Tok>)

  /** INSERT INTO table (columns) VALUES rows [RETURNING ...] */
  function ReadInsert(toks: seq<Tok>): Statement {
    var head, rest := Before(toks, Keyword("VALUES")), After(toks, Keyword("VALUES"));
    InsertInto(NamesOf(Listed(Inside(if |head| >= 3 then head[3..] else []))),
               RowsOf(Listed(Before(rest, Keyword("RETURNING")))), After(rest, Keyword("RETURNING")))
  }

  /** UPDATE table SET sets WHERE ... */
  function ReadUpdate(toks: seq<Tok>): Statement {
    var rest := After(toks, Keyword("SET"));
    UpdateSet(AssignmentsOf(Listed(Before(rest, Keyword("WHERE")))), After(rest, Keyword("WHERE")))
  }

  /** UPDATE table AS t SET sets FROM (VALUES rows) AS data(columns) WHERE condition */
  function ReadUpdateFrom(toks: seq<Tok>): Statement {
    var rest := After(toks, Keyword("SET"));
    var from := After(rest, Keyword("FROM"));
    var data := After(from, Keyword("AS"));
    var head := Before(data, Keyword("WHERE"));
    UpdateFrom(AssignmentsOf(Listed(Before(rest, Keyword("FROM")))),
               NamesOf(Listed(Inside(if head != [] then head[1..] else []))),
               RowsOf(Listed(After(Inside(Before(from, Keyword("AS"))), Keyword("VALUES")))),
               After(data, Keyword("WHERE")))
  }

  // ------------------------------------------------------------------- single pieces

  const RESERVED := {"SET", "FROM", "AS", "WHERE", "VALUES", "RETURNING"}

  /** A name that stands for a column or table and cuts nothing. */
  predicate IsName(k: string) { IsWord(k) && Upper(k) !in RESERVED }

  predicate AllNames(ks: seq<string>) { forall k :: k in ks ==> IsName(k) }

  /** A part of a list: no separator of a statement shows outside its parentheses. */
  predicate IsPart(toks: seq<Tok>) {
    && Whole(toks, Comma) && Nested(toks)
    && forall w :: w in RESERVED ==> Whole(toks, Keyword(w))
  }

  predicate AllParts(parts: seq<seq<Tok>>) { forall p :: p in parts ==> IsPart(p) }

  predicate IsPlainTok(t: Tok) {
    t !in {Sym('('), Sym(')'), Sym(',')} && (t.Word? ==> Upper(t.w) !in RESERVED)
  }

  predicate IsPlain(toks: seq<Tok>) { forall t :: t in toks ==> IsPlainTok(t) }

  lemma PlainCuts(toks: seq<Tok>, w: string)
    requires IsPlain(toks) && w in RESERVED
    ensures Whole(toks, Keyword(w))
  {
    FlatIsWhole(toks, Keyword(w));
  }

  lemma PlainIsPart(toks: seq<Tok>)
    requires IsPlain(toks)
    ensures IsPart(toks)
  {
    FlatIsWithin(toks, 1);
    FlatIsWhole(toks, Comma);
    forall w | w in RESERVED
      ensures Whole(toks, Keyword(w))
    {
      PlainCuts(toks, w);
    }
  }

  lemma NameReads(k: string)
    requires IsName(k)
    ensures Reads(k, [Word(k)]) && IsPlain([Word(k)])
  {
    var t := Name(k, End);
    assert Written(t) == k + "" && k + "" == k;
    ReadsTemplate(t);
  }

  function BracketTokens(dims: nat): seq<Tok> {
    if dims == 0 then [] else [Sym('['), Sym(']')] + BracketTokens(dims - 1)
  }

  function CastTokens(c: Cast): seq<Tok> {
    match c case NoCast => [] case Cast(t, dims) => [Sym(':'), Sym(':'), Word(t)] + BracketTokens(dims)
  }

  lemma {:induction false} BracketsAre(dims: nat)
    ensures forall t :: t in BracketTokens(dims) ==> t == Sym('[') || t == Sym(']')
  {
    if dims > 0 { BracketsAre(dims - 1); }
  }

  lemma {:induction false} BracketsRead(dims: nat)
    ensures Tokens(BracketsT(dims, End)) == BracketTokens(dims)
  {
    if dims > 0 {
      BracketsRead(dims - 1);
      var more := BracketsT(dims - 1, End);
      assert Tokens(Symbol(']', more)) == [Sym(']')] + Tokens(more);
      assert [Sym('[')] + ([Sym(']')] + Tokens(more)) == [Sym('['), Sym(']')] + Tokens(more);
    }
  }

  lemma CastReads(n: nat, c: Cast)
    ensures Tokens(PlaceholderT(n, c, End)) == [Param(n)] + CastTokens(c)
  {
    hide BracketsT, BracketTokens;
    if c.Cast? {
      BracketsRead(c.dims);
      var b := BracketsT(c.dims, End);
      assert Tokens(Name(c.typeName, b)) == [Word(c.typeName)] + Tokens(b);
      assert Tokens(Symbol(':', Name(c.typeName, b))) == [Sym(':')] + Tokens(Name(c.typeName, b));
      assert [Sym(':')] + ([Sym(':')] + ([Word(c.typeName)] + Tokens(b))) == CastTokens(c);
    }
  }

  predicate IsPlainCast(c: Cast) { CastOk(c) && (c.Cast? ==> Upper(c.typeName) !in RESERVED) }

  lemma CastIsPlain(c: Cast)
    requires IsPlainCast(c)
    ensures IsPlain(CastTokens(c)) && IsCast(CastTokens(c))
  {
    if c.Cast? {
      BracketsAre(c.dims);
      assert CastTokens(c)[3..] == BracketTokens(c.dims);
    }
  }

  /** `$n::type` reads as the n-th parameter. */
  lemma SlotReads(n: nat, c: Cast)
    requires IsPlainCast(c)
    ensures var toks := [Param(n)] + CastTokens(c);
            Reads(Ph(n) + CastText(c), toks) && IsPlain(toks) && SourceOf(toks) == Bound(n)
  {
    hide CastText, CastTokens, PlaceholderT, Ph;
    PlaceholderWritten(n, c, End);
    PlaceholderSpaced(n, c, End);
    assert Placeholder(n, c) + "" == Ph(n) + CastText(c);
    ReadsTemplate(PlaceholderT(n, c, End));
    CastReads(n, c);
    CastIsPlain(c);
    assert ([Param(n)] + CastTokens(c))[1..] == CastTokens(c);
  }

  lemma TypeNames(t: PgType)
    ensures Upper(NameOf(t)) !in RESERVED
  {
    assert Upper(NameOf(t)) == NameOf(t);
  }

  lemma CastForIsPlain(dataType: Option<string>)
    ensures IsPlainCast(CastFor(dataType, 0))
  {
    hide CastOk, Upper, NameOf;
    CastForOk(dataType, 0);
    TypeNames(Uuid);
    TypeNames(Integer);
    TypeNames(Str);
    if dataType.Some? { TypeNames(ScalarType(dataType.value)); }
  }

  // ------------------------------------------------------------------------- values

  const STAMP_T: Template := Symbol(',', Space(Name("CURRENT_TIMESTAMP", Symbol(')', End))))

  const NOW_T: Template := Name("date_trunc", Symbol('(', Literal("milliseconds", STAMP_T)))

  lemma NowWords()
    ensures IsWord("CURRENT_TIMESTAMP") && IsWord("date_trunc")
    ensures forall k :: 0 <= k < |"milliseconds"| ==> "milliseconds"[k] != '\''
  {
  }

  lemma StampTemplate()
    ensures WellSpaced(STAMP_T) && Written(STAMP_T) == ", CURRENT_TIMESTAMP)"
    ensures Tokens(STAMP_T) == [Sym(','), Word("CURRENT_TIMESTAMP"), Sym(')')]
  {
    hide Written, Tokens, WellSpaced, IsWord;
    NowWords();
    NothingStep();
    var close := Symbol(')', End);
    SymbolStep(')', End);
    var name := Name("CURRENT_TIMESTAMP", close);
    NameStep("CURRENT_TIMESTAMP", close);
    SpaceStep(name);
    SymbolStep(',', Space(name));
    assert "," + (" " + ("CURRENT_TIMESTAMP" + (")" + ""))) == ", CURRENT_TIMESTAMP)";
  }

  lemma MillisecondsStep(t: Template)
    requires WellSpaced(t)
    ensures WellSpaced(Literal("milliseconds", t))
    ensures Tokens(Literal("milliseconds", t)) == [Quoted("'milliseconds")] + Tokens(t)
    ensures Written(Literal("milliseconds", t)) == "'" + ("milliseconds" + "'" + Written(t))
  {
    NowWords();
    assert "'" + "milliseconds" == "'milliseconds";
  }

  lemma NowTokens()
    ensures WellSpaced(NOW_T) && Tokens(NOW_T) == NOW_TOKENS
  {
    hide Written, Tokens, WellSpaced, IsWord;
    NowWords();
    StampTemplate();
    MillisecondsStep(STAMP_T);
    var lit := Literal("milliseconds", STAMP_T);
    SymbolStep('(', lit);
    NameStep("date_trunc", Symbol('(', lit));
  }

  lemma NowPieces(rest: string)
    ensures "date_trunc" + ("(" + ("'" + (("milliseconds" + "'") + rest))) == "date_trunc(" + "'milliseconds'" + rest
  {
  }

  lemma NowWritten()
    ensures Written(NOW_T) == NOW_MS
  {
    hide Written, WellSpaced;
    StampTemplate();
    MillisecondsStep(STAMP_T);
    var lit := Literal("milliseconds", STAMP_T);
    WrittenSymbol('(', lit);
    WrittenName("date_trunc", Symbol('(', lit));
    NowPieces(", CURRENT_TIMESTAMP)");
  }

  lemma NowReads()
    ensures Reads(NOW_MS, NOW_TOKENS) && IsPart(NOW_TOKENS) && SourceOf(NOW_TOKENS) == Now
  {
    hide Reads, IsPart, Written, Tokens, WellSpaced;
    NowTokens();
    NowWritten();
    ReadsTemplate(NOW_T);
    NowIsPart();
  }

  lemma NowIsPart()
    ensures IsPart(NOW_TOKENS)
  {
    var inner := [Quoted("'milliseconds"), Sym(','), Word("CURRENT_TIMESTAMP")];
    assert NOW_TOKENS == [Word("date_trunc")] + ([Sym('(')] + (inner + [Sym(')')]));
    assert |Upper("date_trunc")| == 10;
    PlainIsPart([Word("date_trunc")]);
    FlatIsWithin(inner, 1);
    ParenthesesArePart(inner);
    PartsJoin([Word("date_trunc")], [Sym('(')] + (inner + [Sym(')')]));
  }

  lemma ParenthesesArePart(toks: seq<Tok>)
    requires Nested(toks)
    ensures IsPart([Sym('(')] + (toks + [Sym(')')]))
  {
    Parenthesized(toks, Comma);
    NestedInParens(toks);
    forall w | w in RESERVED
      ensures Whole([Sym('(')] + (toks + [Sym(')')]), Keyword(w))
    {
      Parenthesized(toks, Keyword(w));
    }
  }

  lemma PartsJoin(a: seq<Tok>, b: seq<Tok>)
    requires IsPart(a) && IsPart(b)
    ensures IsPart(a + b)
  {
    WholeJoin(a, b, Comma);
    WithinJoin(a, b, 1);
    forall w | w in RESERVED
      ensures Whole(a + b, Keyword(w))
    {
      WholeJoin(a, b, Keyword(w));
    }
  }

  // -------------------------------------------------------------------- assignments

  /** `k = ` before a value. */
  lemma EqualsReads(k: string, v: string)
    requires IsWord(k)
    ensures Lex(k + (" = " + v)) == [Word(k), Sym('=')] + Lex(v)
    ensures QuotesClosed(k + (" = " + v)) == QuotesClosed(v)
  {
    hide Lex, QuotesClosed, IsWord, Stops;
    var after := "=" + (" " + v);
    assert " = " + v == " " + after;
    LexAfterSpace(v);
    LexSymbol('=', " " + v);
    ClosedChar('=', " " + v);
    LexAfterSpace(after);
    assert !StartsWithWordChar(" " + after);
    LexWord(k, " " + after);
    ClosedWord(k, " " + after);
    assert [Word(k)] + ([Sym('=')] + Lex(v)) == [Word(k), Sym('=')] + Lex(v);
  }

  /** Closed text that can be a part of a list. */
  ghost predicate Readable(t: string) { QuotesClosed(t) && IsPart(Lex(t)) }

  ghost predicate AllReadable(texts: seq<string>) { forall t :: t in texts ==> Readable(t) }

  lemma HeadIsPart(k: string)
    requires IsName(k)
    ensures IsPart([Word(k), Sym('=')])
  {
    PlainIsPart([Word(k), Sym('=')]);
  }

  lemma AssignmentReads(k: string, v: string)
    requires IsName(k) && Readable(v)
    ensures Readable(k + (" = " + v)) && AssignmentOf(Lex(k + (" = " + v))) == (k, SourceOf(Lex(v)))
  {
    hide Lex, QuotesClosed, IsPart, SourceOf;
    EqualsReads(k, v);
    HeadIsPart(k);
    PartsJoin([Word(k), Sym('=')], Lex(v));
    assert ([Word(k), Sym('=')] + Lex(v))[2..] == Lex(v);
  }

  lemma DataNameIs(key: string)
    requires IsName(key)
    ensures IsName("data." + key) && SourceOf([Word("data." + key)]) == FromData(key)
  {
    var w := "data." + key;
    assert forall k :: 5 <= k < |w| ==> w[k] == key[k - 5];
    assert IsWord(w);
    assert Upper(w)[0] == 'D';
    assert "data." <= w && w[|"data."|..] == key;
  }

  lemma ReadsPart(text: string, toks: seq<Tok>)
    requires Reads(text, toks) && IsPart(toks)
    ensures Readable(text) && Lex(text) == toks
  {
  }

  lemma DataSetReads(key: string)
    requires IsName(key)
    ensures var t := key + (" = data." + key); Readable(t) && AssignmentOf(Lex(t)) == (key, FromData(key))
  {
    hide Reads, Readable, IsPart, SourceOf, AssignmentOf, IsName, IsPlain, Lex;
    DataNameIs(key);
    NameReads("data." + key);
    PlainIsPart([Word("data." + key)]);
    ReadsPart("data." + key, [Word("data." + key)]);
    AssignmentReads(key, "data." + key);
    assert " = data." + key == " = " + ("data." + key);
  }

  lemma StampReads()
    ensures Readable(STAMP) && AssignmentOf(Lex(STAMP)) == ("updated_at", Now)
  {
    hide Reads, Readable, IsPart, SourceOf, AssignmentOf, Lex;
    NowReads();
    ReadsPart(NOW_MS, NOW_TOKENS);
    assert Upper("updated_at")[0] == 'U' && |Upper("updated_at")| == 10;
    AssignmentReads("updated_at", NOW_MS);
    assert "updated_at" + (" = " + NOW_MS) == STAMP;
  }

  lemma CastSlotReads(cat: Catalog, key: string, n: nat)
    ensures var t := Ph(n) + CastsOf(cat)(key); Readable(t) && SourceOf(Lex(t)) == Bound(n)
  {
    hide Reads, Readable, IsPart, SourceOf, IsPlain, Lex, CastFor, CastText;
    var c := CastFor(cat.typeOf(key), 0);
    CastForIsPlain(cat.typeOf(key));
    SlotReads(n, c);
    PlainIsPart([Param(n)] + CastTokens(c));
    ReadsPart(Ph(n) + CastText(c), [Param(n)] + CastTokens(c));
  }

  lemma SetReads(cat: Catalog, key: string, n: nat)
    requires IsName(key)
    ensures var t := key + (" = " + (Ph(n) + CastsOf(cat)(key))); Readable(t) && AssignmentOf(Lex(t)) == (key, Bound(n))
  {
    hide Readable, AssignmentOf, SourceOf, Lex;
    CastSlotReads(cat, key, n);
    AssignmentReads(key, Ph(n) + CastsOf(cat)(key));
  }

  lemma ColumnReads(key: string)
    requires IsName(key)
    ensures Readable(key) && Lex(key) == [Word(key)] && NameOfColumn(Lex(key)) == key
  {
    hide Lex, QuotesClosed, IsPart;
    NameReads(key);
    PlainIsPart([Word(key)]);
  }

  // -------------------------------------------------------------------------- lists

  /** Joined, the texts can be told apart again and nothing shows outside them. */
  ghost predicate Lists(text: string, texts: seq<string>) {
    && QuotesClosed(text) && Listed(Lex(text)) == LexEach(texts) && Nested(Lex(text))
    && forall w :: w in RESERVED ==> Whole(Lex(text), Keyword(w))
  }

  lemma ListReads(texts: seq<string>)
    requires texts != [] && AllReadable(texts)
    ensures Lists(JoinList(texts), texts)
  {
    hide Lex, QuotesClosed, Whole, Nested;
    LexList(texts);
    var parts := LexEach(texts);
    forall p | p in parts
      ensures IsPart(p)
    {
      var k :| 0 <= k < |parts| && parts[k] == p;
      assert texts[k] in texts;
    }
    ListedCommas(parts);
    CommasNested(parts);
    forall w | w in RESERVED
      ensures Whole(Lex(JoinList(texts)), Keyword(w))
    {
      CommasWhole(parts, Keyword(w));
    }
  }

  function InParens(list: string): string { "(" + (list + ")") }

  lemma LexClose()
    ensures Lex(")") == [Sym(')')] && QuotesClosed(")") && Stops(")")
  {
    LexSymbol(')', "");
    ClosedChar(')', "");
    assert ")" + "" == ")";
    assert Lex("") == [];
  }

  lemma ParensRead(list: string)
    requires QuotesClosed(list)
    ensures QuotesClosed(InParens(list)) && Lex(InParens(list)) == [Sym('(')] + (Lex(list) + [Sym(')')])
  {
    hide Lex, QuotesClosed;
    LexClose();
    LexThen(list, ")");
    LexAfterParen(list + ")");
  }

  /** A parenthesized list is again a part, and its own parts are inside. */
  lemma GroupReads(texts: seq<string>)
    requires texts != [] && AllReadable(texts)
    ensures var g := InParens(JoinList(texts)); Readable(g) && Listed(Inside(Lex(g))) == LexEach(texts)
  {
    hide Lex, QuotesClosed, IsPart, Nested, InParens, AllReadable;
    ListReads(texts);
    var list := JoinList(texts);
    ParensRead(list);
    ParenthesesArePart(Lex(list));
    InsideParens(Lex(list));
  }

  lemma InsideParens(toks: seq<Tok>)
    ensures Inside([Sym('(')] + (toks + [Sym(')')])) == toks
  {
  }
}
