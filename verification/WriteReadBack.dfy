/** Whole statements of the write adapter, read back from their text. */
module WriteReadBack {
  import opened Types
  import opened SqlText
  import opened SqlLogic
  import opened SqlLexing
  import opened SelectStatement
  import opened StatementReading
  import opened WriteStatements
  import opened WriteLayouts
  import opened WriteTexts
  import opened WriteReading

  // ------------------------------------------------------------------ fixed pieces

  lemma FixedWords()
    ensures IsWord("UPDATE") && IsWord("SET") && IsWord("AS") && IsWord("FROM") && IsWord("VALUES") && IsWord("WHERE")
    ensures IsWord("INSERT") && IsWord("INTO") && IsWord("t") && IsWord("data") && IsWord("t.id") && IsWord("data.id")
  {
  }

  lemma UpdateHeadReads(table: string)
    requires IsWord(table)
    ensures Reads("UPDATE " + table + " SET", [Word("UPDATE"), Word(table), Word("SET")])
  {
    hide Written, Tokens, WellSpaced, IsWord, Reads;
    FixedWords();
    var a := Name("SET", End);
    LastName("SET");
    SpacedName(table, a);
    SpacedName("UPDATE", Name(table, Space(a)));
    ReadsTemplate(Name("UPDATE", Space(Name(table, Space(a)))));
    assert "UPDATE" + (" " + (table + (" " + "SET"))) == "UPDATE " + table + " SET";
    assert [Word("UPDATE")] + ([Word(table)] + [Word("SET")]) == [Word("UPDATE"), Word(table), Word("SET")];
  }

  lemma BulkHeadReads(table: string)
    requires IsWord(table)
    ensures Reads("UPDATE " + table + " AS t SET",
                  [Word("UPDATE"), Word(table), Word("AS"), Word("t"), Word("SET")])
  {
    hide Written, Tokens, WellSpaced, IsWord, Reads;
    FixedWords();
    var a := Name("SET", End);
    LastName("SET");
    var b := Name("t", Space(a));
    SpacedName("t", a);
    var c := Name("AS", Space(b));
    SpacedName("AS", b);
    SpacedName(table, c);
    SpacedName("UPDATE", Name(table, Space(c)));
    ReadsTemplate(Name("UPDATE", Space(Name(table, Space(c)))));
    assert "UPDATE" + (" " + (table + (" " + ("AS" + (" " + ("t" + (" " + "SET")))))))
           == "UPDATE " + table + " AS t SET";
    assert [Word("UPDATE")] + ([Word(table)] + ([Word("AS")] + ([Word("t")] + [Word("SET")])))
           == [Word("UPDATE"), Word(table), Word("AS"), Word("t"), Word("SET")];
  }

  lemma InsertHeadReads(table: string)
    requires IsWord(table)
    ensures Reads("INSERT INTO " + table, [Word("INSERT"), Word("INTO"), Word(table)])
  {
    hide Written, Tokens, WellSpaced, IsWord, Reads;
    FixedWords();
    var a := Name(table, End);
    LastName(table);
    SpacedName("INTO", a);
    SpacedName("INSERT", Name("INTO", Space(a)));
    ReadsTemplate(Name("INSERT", Space(Name("INTO", Space(a)))));
    assert "INSERT" + (" " + ("INTO" + (" " + table))) == "INSERT INTO " + table;
    assert [Word("INSERT")] + ([Word("INTO")] + [Word(table)]) == [Word("INSERT"), Word("INTO"), Word(table)];
  }

  lemma FromReads()
    ensures Reads(" FROM (VALUES", [Word("FROM"), Sym('('), Word("VALUES")])
  {
    hide Written, Tokens, WellSpaced, IsWord, Reads;
    FixedWords();
    var a := Symbol('(', Name("VALUES", End));
    LastName("VALUES");
    SymbolStep('(', Name("VALUES", End));
    var b := Name("FROM", Space(a));
    SpacedName("FROM", a);
    SpaceStep(b);
    ReadsTemplate(Space(b));
    assert " " + ("FROM" + (" " + ("(" + "VALUES"))) == " FROM (VALUES";
    assert [Word("FROM")] + ([Sym('(')] + [Word("VALUES")]) == [Word("FROM"), Sym('('), Word("VALUES")];
  }

  lemma DataReads()
    ensures Reads(") AS data", [Sym(')'), Word("AS"), Word("data")])
  {
    hide Written, Tokens, WellSpaced, IsWord, Reads;
    FixedWords();
    LastName("data");
    var a := Name("AS", Space(Name("data", End)));
    SpacedName("AS", Name("data", End));
    SpaceStep(a);
    SymbolStep(')', Space(a));
    ReadsTemplate(Symbol(')', Space(a)));
    assert ")" + (" " + ("AS" + (" " + "data"))) == ") AS data";
    assert [Sym(')')] + ([Word("AS")] + [Word("data")]) == [Sym(')'), Word("AS"), Word("data")];
  }

  const JOIN: seq<Tok> := [Word("t.id"), Sym('='), Word("data.id")]

  lemma JoinReads()
    ensures Reads("t.id" + (" = " + "data.id"), JOIN)
  {
    hide Reads, Lex, QuotesClosed;
    FixedWords();
    LastName("data.id");
    ReadsTemplate(Name("data.id", End));
    EqualsRead("t.id", "data.id", [Word("data.id")]);
    assert [Word("t.id"), Sym('=')] + [Word("data.id")] == JOIN;
  }

  lemma EqualsRead(k: string, v: string, tv: seq<Tok>)
    requires IsWord(k) && Reads(v, tv)
    ensures Reads(k + (" = " + v), [Word(k), Sym('=')] + tv)
  {
    EqualsReads(k, v);
  }

  lemma OnPieces(on: string)
    ensures " " + "WHERE" + " " + on == " WHERE " + on
    ensures [')'] + (" WHERE " + ("t.id" + (" = " + "data.id"))) == ") WHERE t.id = data.id"
  {
  }

  lemma OnReads()
    ensures Reads(") WHERE t.id = data.id", [Sym(')'), Word("WHERE")] + JOIN)
  {
    hide Lex, QuotesClosed;
    var on := "t.id" + (" = " + "data.id");
    FixedWords();
    JoinReads();
    KeywordReads("WHERE", on);
    LexSymbol(')', " WHERE " + on);
    ClosedChar(')', " WHERE " + on);
    OnPieces(on);
    assert [Sym(')')] + ([Word("WHERE")] + JOIN) == [Sym(')'), Word("WHERE")] + JOIN;
  }

  lemma ValuesReads()
    ensures Reads(") VALUES", [Sym(')'), Word("VALUES")])
  {
    hide Written, Tokens, WellSpaced, IsWord, Reads;
    FixedWords();
    LastName("VALUES");
    SpaceStep(Name("VALUES", End));
    SymbolStep(')', Space(Name("VALUES", End)));
    ReadsTemplate(Symbol(')', Space(Name("VALUES", End))));
    assert ")" + (" " + "VALUES") == ") VALUES";
    assert [Sym(')')] + [Word("VALUES")] == [Sym(')'), Word("VALUES")];
  }

  lemma SpaceReads(b: string, tb: seq<Tok>)
    requires Reads(b, tb)
    ensures Reads(" " + b, tb) && Stops(" " + b)
  {
    LexAfterSpace(b);
  }

  lemma OpenReads(b: string, tb: seq<Tok>)
    requires Reads(b, tb)
    ensures Reads("(" + b, [Sym('(')] + tb) && Stops("(" + b)
  {
    LexAfterParen(b);
  }

  // --------------------------------------------------------------- the statements' tokens

  function BulkTokens(table: string, sets: seq<Tok>, groups: seq<Tok>, columns: seq<Tok>): seq<Tok> {
    [Word("UPDATE"), Word(table), Word("AS"), Word("t"), Word("SET")]
    + (sets + ([Word("FROM"), Sym('('), Word("VALUES")]
               + (groups + ([Sym(')'), Word("AS"), Word("data")]
                            + ([Sym('(')] + (columns + ([Sym(')'), Word("WHERE")] + JOIN)))))))
  }

  function BulkText(table: string, sets: string, groups: string, columns: string): string {
    ("UPDATE " + table + " AS t SET")
    + (" " + (sets + (" FROM (VALUES"
                      + (" " + (groups + (") AS data" + ("(" + (columns + ") WHERE t.id = data.id"))))))))
  }

  lemma BulkTextIs(table: string, keys: seq<string>, groups: seq<string>)
    ensures UpdateManyText(table, keys, groups)
            == BulkText(table, JoinList(DataSets(keys) + [STAMP]), JoinList(groups), JoinList(keys + ["id"]))
  {
    hide JoinList, DataSets;
    BulkPieces("UPDATE " + table + " AS t SET", JoinList(DataSets(keys) + [STAMP]), JoinList(groups),
               JoinList(keys + ["id"]));
  }

  lemma BulkPieces(head: string, s: string, g: string, c: string)
    ensures head + " " + s + " FROM (VALUES " + (g + (") AS data(" + c + ") WHERE t.id = data.id"))
            == head + (" " + (s + (" FROM (VALUES"
                                   + (" " + (g + (") AS data" + ("(" + (c + ") WHERE t.id = data.id"))))))))
  {
    var on := ") WHERE t.id = data.id";
    assert ") AS data(" + c + on == ") AS data" + ("(" + (c + on));
    var rest := g + (") AS data" + ("(" + (c + on)));
    assert " FROM (VALUES " + rest == " FROM (VALUES" + (" " + rest);
    assert head + " " + s + " FROM (VALUES " + rest == head + (" " + (s + (" FROM (VALUES " + rest)));
  }

  lemma BulkLexes(table: string, s: string, g: string, c: string)
    requires IsWord(table) && QuotesClosed(s) && QuotesClosed(g) && QuotesClosed(c)
    ensures Lex(BulkText(table, s, g, c)) == BulkTokens(table, Lex(s), Lex(g), Lex(c))
  {
    hide Lex, QuotesClosed, IsWord, Stops;
    BulkHeadReads(table);
    FromReads();
    DataReads();
    OnReads();
    Starts();
    var u := c + ") WHERE t.id = data.id";
    LexThen(c, ") WHERE t.id = data.id");
    OpenReads(u, Lex(u));
    LexThen(") AS data", "(" + u);
    var w := ") AS data" + ("(" + u);
    LexThen(g, w);
    SpaceReads(g + w, Lex(g + w));
    LexThen(" FROM (VALUES", " " + (g + w));
    var y := " FROM (VALUES" + (" " + (g + w));
    LexThen(s, y);
    SpaceReads(s + y, Lex(s + y));
    LexThen("UPDATE " + table + " AS t SET", " " + (s + y));
  }

  lemma Starts()
    ensures Stops(") WHERE t.id = data.id") && forall x: string :: Stops(") AS data" + x) && Stops(" FROM (VALUES" + x)
  {
  }

  // ------------------------------------------------------------------- read back

  /** The text before a cut, for each of the keywords. */
  predicate CutsNothing(toks: seq<Tok>) { forall w :: w in RESERVED ==> Whole(toks, Keyword(w)) }

  lemma PlainCutsNothing(toks: seq<Tok>)
    requires IsPlain(toks)
    ensures CutsNothing(toks)
  {
    PlainIsPart(toks);
  }

  lemma KeywordCuts(a: seq<Tok>, w: string, b: seq<Tok>)
    requires Whole(a, Keyword(w)) && Upper(w) == w
    ensures Before(a + ([Word(w)] + b), Keyword(w)) == a && After(a + ([Word(w)] + b), Keyword(w)) == b
  {
    CutAt(a, Word(w), b, Keyword(w));
  }

  lemma KeywordsAreUpper()
    ensures Upper("SET") == "SET" && Upper("FROM") == "FROM" && Upper("AS") == "AS" && Upper("WHERE") == "WHERE"
    ensures Upper("VALUES") == "VALUES" && Upper("RETURNING") == "RETURNING"
  {
  }

  lemma ParensCutNothing(a: seq<Tok>, toks: seq<Tok>)
    requires IsPlain(a) && Nested(toks)
    ensures CutsNothing(a + ([Sym('(')] + (toks + [Sym(')')])))
  {
    PlainIsPart(a);
    ParenthesesArePart(toks);
    PartsJoin(a, [Sym('(')] + (toks + [Sym(')')]));
  }

  lemma AfterSet(table: string, rest: seq<Tok>)
    requires IsName(table)
    ensures After([Word("UPDATE"), Word(table), Word("AS"), Word("t"), Word("SET")] + rest, Keyword("SET")) == rest
    ensures After([Word("UPDATE"), Word(table), Word("SET")] + rest, Keyword("SET")) == rest
  {
    hide IsName, After, Whole;
    KeywordsAreUpper();
    HeadsCutNothing(table);
    assert "SET" in RESERVED;
    KeywordCuts([Word("UPDATE"), Word(table), Word("AS"), Word("t")], "SET", rest);
    KeywordCuts([Word("UPDATE"), Word(table)], "SET", rest);
    assert [Word("UPDATE"), Word(table), Word("AS"), Word("t")] + ([Word("SET")] + rest)
           == [Word("UPDATE"), Word(table), Word("AS"), Word("t"), Word("SET")] + rest;
    assert [Word("UPDATE"), Word(table)] + ([Word("SET")] + rest) == [Word("UPDATE"), Word(table), Word("SET")] + rest;
  }

  lemma HeadsCutNothing(table: string)
    requires IsName(table)
    ensures Whole([Word("UPDATE"), Word(table), Word("AS"), Word("t")], Keyword("SET"))
    ensures CutsNothing([Word("UPDATE"), Word(table)]) && CutsNothing([Word("INSERT"), Word("INTO"), Word(table)])
  {
    hide CutsNothing, Whole;
    HeadWords();
    FlatIsWhole([Word("UPDATE"), Word(table), Word("AS"), Word("t")], Keyword("SET"));
    PlainCutsNothing([Word("UPDATE"), Word(table)]);
    PlainCutsNothing([Word("INSERT"), Word("INTO"), Word(table)]);
  }

  lemma HeadWords()
    ensures Upper("UPDATE") == "UPDATE" && Upper("INSERT") == "INSERT" && Upper("INTO") == "INTO"
    ensures Upper("AS") == "AS" && |Upper("t")| == 1
  {
  }

  lemma CutFrom(sets: seq<Tok>, rest: seq<Tok>)
    requires Whole(sets, Keyword("FROM"))
    ensures var toks := sets + ([Word("FROM"), Sym('('), Word("VALUES")] + rest);
            && Before(toks, Keyword("FROM")) == sets
            && After(toks, Keyword("FROM")) == [Sym('('), Word("VALUES")] + rest
  {
    hide Before, After, Whole;
    KeywordsAreUpper();
    KeywordCuts(sets, "FROM", [Sym('('), Word("VALUES")] + rest);
    assert [Word("FROM")] + ([Sym('('), Word("VALUES")] + rest) == [Word("FROM"), Sym('('), Word("VALUES")] + rest;
  }

  /** `(VALUES groups) AS data ...` */
  lemma CutAs(groups: seq<Tok>, rest: seq<Tok>)
    requires Nested(groups)
    ensures var toks := [Sym('('), Word("VALUES")] + (groups + ([Sym(')'), Word("AS"), Word("data")] + rest));
            && Inside(Before(toks, Keyword("AS"))) == [Word("VALUES")] + groups
            && After(toks, Keyword("AS")) == [Word("data")] + rest
  {
    hide Before, After, Whole, Nested;
    KeywordsAreUpper();
    var list := [Word("VALUES")] + groups;
    ValuesNested(groups);
    Parenthesized(list, Keyword("AS"));
    var a := [Sym('(')] + (list + [Sym(')')]);
    KeywordCuts(a, "AS", [Word("data")] + rest);
    InsideParens(list);
    AsPieces(groups, rest);
  }

  lemma AsPieces(groups: seq<Tok>, rest: seq<Tok>)
    ensures [Sym('('), Word("VALUES")] + (groups + ([Sym(')'), Word("AS"), Word("data")] + rest))
            == ([Sym('(')] + (([Word("VALUES")] + groups) + [Sym(')')])) + ([Word("AS")] + ([Word("data")] + rest))
  {
  }

  lemma ValuesNested(groups: seq<Tok>)
    requires Nested(groups)
    ensures Nested([Word("VALUES")] + groups) && Within([Word("VALUES")] + groups, 1)
    ensures EndNesting([Word("VALUES")] + groups, 1) == 1
  {
    FlatIsWithin([Word("VALUES")], 1);
    WithinJoin([Word("VALUES")], groups, 1);
  }

  lemma CutValues(groups: seq<Tok>)
    ensures After([Word("VALUES")] + groups, Keyword("VALUES")) == groups
  {
    KeywordsAreUpper();
    KeywordCuts([], "VALUES", groups);
    assert [] + ([Word("VALUES")] + groups) == [Word("VALUES")] + groups;
  }

  /** `data(columns) WHERE ...` */
  lemma CutWhere(columns: seq<Tok>)
    requires Nested(columns)
    ensures var toks := [Word("data")] + ([Sym('(')] + (columns + ([Sym(')'), Word("WHERE")] + JOIN)));
            && Before(toks, Keyword("WHERE")) == [Word("data")] + ([Sym('(')] + (columns + [Sym(')')]))
            && After(toks, Keyword("WHERE")) == JOIN
  {
    hide Before, After, Nested, Whole;
    KeywordsAreUpper();
    HeadWords();
    var a := [Word("data")] + ([Sym('(')] + (columns + [Sym(')')]));
    assert |Upper("data")| == 4 && Upper("data")[0] == 'D';
    ParensCutNothing([Word("data")], columns);
    assert "WHERE" in RESERVED;
    KeywordCuts(a, "WHERE", JOIN);
    assert a + ([Word("WHERE")] + JOIN)
           == [Word("data")] + ([Sym('(')] + (columns + ([Sym(')'), Word("WHERE")] + JOIN)));
  }

  lemma HeadOff(t: Tok, rest: seq<Tok>)
    ensures [t] + rest != [] && ([t] + rest)[1..] == rest
  {
  }

  /** Read back, the tokens of the bulk statement give its lists. */
  lemma BulkReadsBack(table: string, sets: seq<Tok>, groups: seq<Tok>, columns: seq<Tok>)
    requires IsName(table) && Whole(sets, Keyword("FROM")) && Nested(groups) && Nested(columns)
    ensures ReadUpdateFrom(BulkTokens(table, sets, groups, columns))
            == UpdateFrom(AssignmentsOf(Listed(sets)), NamesOf(Listed(columns)), RowsOf(Listed(groups)), JOIN)
  {
    hide Before, After, Inside, Whole, Nested, IsName, AssignmentsOf, NamesOf, RowsOf, Listed;
    var tail := [Sym('(')] + (columns + ([Sym(')'), Word("WHERE")] + JOIN));
    var from := groups + ([Sym(')'), Word("AS"), Word("data")] + tail);
    AfterSet(table, sets + ([Word("FROM"), Sym('('), Word("VALUES")] + from));
    CutFrom(sets, from);
    CutAs(groups, tail);
    CutValues(groups);
    CutWhere(columns);
    HeadOff(Word("data"), [Sym('(')] + (columns + [Sym(')')]));
    InsideParens(columns);
  }

  // ------------------------------------------------------------------- their lists

  lemma {:induction false} SlotAt(cast: CastOf, keys: seq<string>, n: nat, j: nat)
    requires j < |keys|
    ensures Slots(cast, keys, n)[j] == Ph(n + j + 1) + cast(keys[j])
  {
    var init := keys[..|keys| - 1];
    if j < |init| { SlotAt(cast, init, n, j); }
  }

  lemma {:induction false} GroupAt(cast: CastOf, keys: seq<string>, count: nat, close: string, i: nat)
    requires i < count
    ensures |Groups(cast, keys, count, close)| == count
    ensures Groups(cast, keys, count, close)[i] == Group(cast, keys, Times(i, |keys|), close)
  {
    hide Group;
    if i < count - 1 {
      GroupAt(cast, keys, count - 1, close, i);
    } else if count > 1 {
      GroupAt(cast, keys, count - 1, close, 0);
    }
  }

  lemma SlotsReadable(cat: Catalog, keys: seq<string>, n: nat)
    ensures AllReadable(Slots(CastsOf(cat), keys, n))
    ensures forall j :: 0 <= j < |keys| ==> SourceOf(Lex(Slots(CastsOf(cat), keys, n)[j])) == Bound(n + j + 1)
  {
    hide Readable, SourceOf, Lex, CastsOf;
    var slots := Slots(CastsOf(cat), keys, n);
    forall j | 0 <= j < |keys|
      ensures Readable(slots[j]) && SourceOf(Lex(slots[j])) == Bound(n + j + 1)
    {
      SlotAt(CastsOf(cat), keys, n, j);
      CastSlotReads(cat, keys[j], n + j + 1);
    }
  }

  /** A row of values: its own run of parameters, then timestamps. */
  predicate RowOf(row: seq<Source>, before: nat, width: nat, stamps: nat) {
    && |row| == width + stamps && (forall j :: 0 <= j < width ==> row[j] == Bound(before + j + 1))
    && forall j :: width <= j < width + stamps ==> row[j] == Now
  }

  const STAMPS := 2

  function Close(stamps: nat): string { if stamps == STAMPS then STAMPED else ")" }

  lemma PlainGroup(cat: Catalog, keys: seq<string>, n: nat)
    requires keys != []
    ensures var g := Group(CastsOf(cat), keys, n, ")");
            Readable(g) && RowOf(SourcesOf(Listed(Inside(Lex(g)))), n, |keys|, 0)
  {
    hide Readable, SourceOf, Lex, CastsOf, Listed, Inside, JoinList;
    SlotsReadable(cat, keys, n);
    GroupReads(Slots(CastsOf(cat), keys, n));
  }

  lemma StampedGroup(cat: Catalog, keys: seq<string>, n: nat)
    requires keys != []
    ensures Group(CastsOf(cat), keys, n, STAMPED)
            == InParens(JoinList(Slots(CastsOf(cat), keys, n) + [NOW_MS, NOW_MS]))
  {
    hide JoinList, CastsOf;
    var slots := Slots(CastsOf(cat), keys, n);
    JoinListMore(slots, NOW_MS);
    JoinListMore(slots + [NOW_MS], NOW_MS);
    assert slots + [NOW_MS] + [NOW_MS] == slots + [NOW_MS, NOW_MS];
    StampedPieces(JoinList(slots), NOW_MS);
  }

  lemma StampedPieces(list: string, now: string)
    ensures list + (", " + now + ", " + now + ")") == list + (", " + now) + (", " + now) + ")"
  {
  }

  lemma StampedRow(cat: Catalog, keys: seq<string>, n: nat)
    requires keys != []
    ensures var g := Group(CastsOf(cat), keys, n, STAMPED);
            Readable(g) && RowOf(SourcesOf(Listed(Inside(Lex(g)))), n, |keys|, STAMPS)
  {
    hide Readable, SourceOf, Lex, CastsOf, Listed, Inside, JoinList, Group, Reads, IsPart;
    var slots := Slots(CastsOf(cat), keys, n);
    SlotsReadable(cat, keys, n);
    NowReads();
    ReadsPart(NOW_MS, NOW_TOKENS);
    StampedGroup(cat, keys, n);
    GroupReads(slots + [NOW_MS, NOW_MS]);
  }

  /** A VALUES list read back: row i holds the i-th run of parameters. */
  lemma GroupsRead(cat: Catalog, keys: seq<string>, count: nat, stamps: nat)
    requires keys != [] && count > 0 && stamps in {0, STAMPS}
    ensures var list := JoinList(Groups(CastsOf(cat), keys, count, Close(stamps)));
            && QuotesClosed(list) && Nested(Lex(list)) && Whole(Lex(list), Keyword("RETURNING"))
            && RowsAre(RowsOf(Listed(Lex(list))), count, |keys|, stamps)
  {
    hide Readable, RowOf, Lex, CastsOf, Listed, Inside, JoinList, Group, Groups, QuotesClosed, Nested, Whole, Times;
    var groups := Groups(CastsOf(cat), keys, count, Close(stamps));
    forall i | 0 <= i < count
      ensures |groups| == count && Readable(groups[i])
      ensures RowOf(SourcesOf(Listed(Inside(Lex(groups[i])))), Times(i, |keys|), |keys|, stamps)
    {
      GroupAt(CastsOf(cat), keys, count, Close(stamps), i);
      PlainGroup(cat, keys, Times(i, |keys|));
      StampedRow(cat, keys, Times(i, |keys|));
    }
    GroupAt(CastsOf(cat), keys, count, Close(stamps), 0);
    ListReads(groups);
    assert "RETURNING" in RESERVED;
  }

  predicate RowsAre(rows: seq<seq<Source>>, count: nat, width: nat, stamps: nat) {
    |rows| == count && forall i :: 0 <= i < count ==> RowOf(rows[i], Times(i, width), width, stamps)
  }

  lemma NamesRead(keys: seq<string>)
    requires AllNames(keys) && keys != []
    ensures Lists(JoinList(keys), keys) && NamesOf(Listed(Lex(JoinList(keys)))) == keys
  {
    hide Readable, Lex, JoinList, NameOfColumn, IsName;
    forall k | k in keys
      ensures Readable(k) && NameOfColumn(Lex(k)) == k
    {
      ColumnReads(k);
    }
    ListReads(keys);
    var names := NamesOf(Listed(Lex(JoinList(keys))));
    assert forall j :: 0 <= j < |keys| ==> keys[j] in keys && names[j] == keys[j];
  }

  /** What the assignments of updateMany say: each column takes the data column of its
      own name. */
  function DataSources(keys: seq<string>): (r: seq<(string, Source)>)
    ensures |r| == |keys| && forall j :: 0 <= j < |r| ==> r[j] == (keys[j], FromData(keys[j]))
  {
    seq(|keys|, j requires 0 <= j < |keys| => (keys[j], FromData(keys[j])))
  }

  lemma DataSetsRead(keys: seq<string>)
    requires AllNames(keys)
    ensures var texts := DataSets(keys) + [STAMP];
            && Lists(JoinList(texts), texts)
            && AssignmentsOf(Listed(Lex(JoinList(texts)))) == DataSources(keys) + [("updated_at", Now)]
  {
    hide Readable, Lex, JoinList, AssignmentOf, IsName;
    var texts := DataSets(keys) + [STAMP];
    StampReads();
    forall j | 0 <= j < |keys|
      ensures Readable(texts[j]) && AssignmentOf(Lex(texts[j])) == (keys[j], FromData(keys[j]))
    {
      assert keys[j] in keys;
      DataSetReads(keys[j]);
    }
    ListReads(texts);
  }

  /** The assignments of an update: each column takes the parameter of its position. */
  function BoundSources(keys: seq<string>): (r: seq<(string, Source)>)
    ensures |r| == |keys| && forall j :: 0 <= j < |r| ==> r[j] == (keys[j], Bound(j + 1))
  {
    seq(|keys|, j requires 0 <= j < |keys| => (keys[j], Bound(j + 1)))
  }

  lemma SetsRead(cat: Catalog, keys: seq<string>)
    requires AllNames(keys)
    ensures var texts := Sets(CastsOf(cat), keys) + [STAMP];
            && Lists(JoinList(texts), texts)
            && AssignmentsOf(Listed(Lex(JoinList(texts)))) == BoundSources(keys) + [("updated_at", Now)]
  {
    hide Readable, Lex, JoinList, AssignmentOf, IsName, Sets, CastsOf;
    var texts := Sets(CastsOf(cat), keys) + [STAMP];
    StampReads();
    SetsLength(CastsOf(cat), keys);
    forall j | 0 <= j < |keys|
      ensures Readable(texts[j]) && AssignmentOf(Lex(texts[j])) == (keys[j], Bound(j + 1))
    {
      assert keys[j] in keys;
      SetAt(CastsOf(cat), keys, j);
      SetReads(cat, keys[j], j + 1);
    }
    ListReads(texts);
  }

  lemma {:induction false} SetsLength(cast: CastOf, keys: seq<string>)
    ensures |Sets(cast, keys)| == |keys|
  {
    if keys != [] { SetsLength(cast, keys[..|keys| - 1]); }
  }

  // -------------------------------------------------------------- whole statements

  /** updateMany's statement, read back from its text: column keys[j] takes the data
      column of the same name, which in row i holds parameter i * w + j + 1 with w one
      more than the number of columns; the last data column is the id, and rows are
      matched on it. */
  lemma UpdateManyReads(table: string, cat: Catalog, keys: seq<string>, count: nat)
    requires IsName(table) && AllNames(keys) && count > 0
    ensures var w := |keys| + 1;
            var s := ReadUpdateFrom(Lex(UpdateManyText(table, keys, Groups(CastsOf(cat), keys + ["id"], count, ")"))));
            && s.UpdateFrom? && s.sets == DataSources(keys) + [("updated_at", Now)] && s.columns == keys + ["id"]
            && s.on == JOIN && RowsAre(s.rows, count, w, 0)
  {
    hide Lex, JoinList, Groups, CastsOf, DataSets, DataSources, Listed, NamesOf, RowsOf, AssignmentsOf, IsName;
    var all := keys + ["id"];
    IdIsName();
    var groups := Groups(CastsOf(cat), all, count, ")");
    DataSetsRead(keys);
    GroupsRead(cat, all, count, 0);
    NamesRead(all);
    var s, g, c := JoinList(DataSets(keys) + [STAMP]), JoinList(groups), JoinList(all);
    TableIsWord(table);
    BulkTextIs(table, keys, groups);
    BulkLexes(table, s, g, c);
    assert "FROM" in RESERVED;
    BulkReadsBack(table, Lex(s), Lex(g), Lex(c));
  }

  lemma IdIsName()
    ensures IsName("id")
  {
    assert |Upper("id")| == 2 && Upper("id")[0] == 'I';
  }

  lemma TableIsWord(k: string)
    requires IsName(k)
    ensures IsWord(k)
  {
  }

  function InsertTokens(table: string, columns: seq<Tok>, rest: seq<Tok>): seq<Tok> {
    [Word("INSERT"), Word("INTO"), Word(table)] + ([Sym('(')] + (columns + ([Sym(')'), Word("VALUES")] + rest)))
  }

  lemma InsertPieces(head: string, c: string, rest: string)
    ensures head + " (" + c + ") VALUES " + rest == head + (" " + ("(" + (c + (") VALUES" + (" " + rest)))))
  {
  }

  lemma InsertLexes(table: string, c: string, rest: string)
    requires IsWord(table) && QuotesClosed(c)
    ensures Lex("INSERT INTO " + table + " (" + c + ") VALUES " + rest) == InsertTokens(table, Lex(c), Lex(rest))
  {
    hide Lex, QuotesClosed, IsWord, Stops;
    InsertHeadReads(table);
    ValuesReads();
    InsertPieces("INSERT INTO " + table, c, rest);
    LexAfterSpace(rest);
    LexThen(") VALUES", " " + rest);
    var u := ") VALUES" + (" " + rest);
    ValuesStops(" " + rest);
    LexThen(c, u);
    LexAfterParen(c + u);
    LexAfterSpace("(" + (c + u));
    LexThen("INSERT INTO " + table, " " + ("(" + (c + u)));
  }

  lemma ValuesStops(rest: string)
    ensures Stops(") VALUES" + rest)
  {
  }

  lemma InsertReadsBack(table: string, columns: seq<Tok>, groups: seq<Tok>, rest: seq<Tok>)
    requires IsName(table) && Nested(columns) && Whole(groups, Keyword("RETURNING"))
    requires rest == [] || rest[0] == Word("RETURNING")
    ensures ReadInsert(InsertTokens(table, columns, groups + rest))
            == InsertInto(NamesOf(Listed(columns)), RowsOf(Listed(groups)), if rest == [] then [] else rest[1..])
  {
    hide Before, After, Inside, Whole, Nested, IsName, NamesOf, RowsOf, Listed, CutsNothing;
    var into := [Word("INSERT"), Word("INTO"), Word(table)];
    InsertHeadCuts(into, table, columns, groups + rest);
    CutReturning(groups, rest);
    InsideParens(columns);
    var parens := [Sym('(')] + (columns + [Sym(')')]);
    assert (into + parens)[3..] == parens;
  }

  lemma InsertHeadCuts(into: seq<Tok>, table: string, columns: seq<Tok>, rest: seq<Tok>)
    requires IsName(table) && Nested(columns) && into == [Word("INSERT"), Word("INTO"), Word(table)]
    ensures Before(InsertTokens(table, columns, rest), Keyword("VALUES"))
            == into + ([Sym('(')] + (columns + [Sym(')')]))
    ensures After(InsertTokens(table, columns, rest), Keyword("VALUES")) == rest
  {
    hide Before, After, Nested, Whole, IsName;
    KeywordsAreUpper();
    InsertHeadPlain(table);
    ParensCutNothing(into, columns);
    assert "VALUES" in RESERVED;
    var head := into + ([Sym('(')] + (columns + [Sym(')')]));
    KeywordCuts(head, "VALUES", rest);
    assert InsertTokens(table, columns, rest) == head + ([Word("VALUES")] + rest);
  }

  lemma InsertHeadPlain(table: string)
    requires IsName(table)
    ensures IsPlain([Word("INSERT"), Word("INTO"), Word(table)])
  {
    HeadWords();
  }

  lemma CutReturning(groups: seq<Tok>, rest: seq<Tok>)
    requires Whole(groups, Keyword("RETURNING")) && (rest == [] || rest[0] == Word("RETURNING"))
    ensures Before(groups + rest, Keyword("RETURNING")) == groups
    ensures After(groups + rest, Keyword("RETURNING")) == if rest == [] then [] else rest[1..]
  {
    hide Before, After, Whole;
    KeywordsAreUpper();
    if rest == [] {
      assert groups + rest == groups;
      NoCut(groups, Keyword("RETURNING"));
    } else {
      KeywordCuts(groups, "RETURNING", rest[1..]);
      assert [Word("RETURNING")] + rest[1..] == rest;
    }
  }

  lemma ReturningReads(g: string, returning: seq<string>) returns (rest: seq<Tok>)
    requires QuotesClosed(g)
    ensures Lex(g + ReturningText(returning)) == Lex(g) + rest
    ensures rest == if returning == [] then [] else [Word("RETURNING")] + Lex(JoinList(returning))
  {
    hide Lex, QuotesClosed, JoinList, IsWord, Stops;
    if returning == [] {
      rest := [];
      assert g + "" == g;
    } else {
      var list := JoinList(returning);
      ReturningWord();
      KeywordReads("RETURNING", list);
      assert " " + "RETURNING" + " " + list == " RETURNING " + list;
      LexThen(g, " RETURNING " + list);
      rest := [Word("RETURNING")] + Lex(list);
    }
  }

  lemma ReturningWord()
    ensures IsWord("RETURNING")
  {
  }

  lemma StampNames()
    ensures IsName("created_at") && IsName("updated_at")
  {
    assert |Upper("created_at")| == 10 && |Upper("updated_at")| == 10;
  }

  /** insert's statement, read back from its text: in row i column keys[j] takes parameter
      i * w + j + 1 with w the number of keys, and both stamps take the clock. */
  lemma InsertReads(table: string, cat: Catalog, keys: seq<string>, count: nat, returning: seq<string>)
    requires IsName(table) && AllNames(keys) && keys != [] && count > 0
    ensures var text := InsertText(table, keys, Groups(CastsOf(cat), keys, count, STAMPED), ReturningText(returning));
            var s := ReadInsert(Lex(text));
            && s.InsertInto? && s.columns == keys + ["created_at", "updated_at"]
            && RowsAre(s.rows, count, |keys|, STAMPS)
            && s.returning == if returning == [] then [] else Lex(JoinList(returning))
  {
    hide Lex, JoinList, Groups, CastsOf, Listed, NamesOf, RowsOf, IsName, ReturningText, QuotesClosed, Nested, Whole;
    var columns := keys + ["created_at", "updated_at"];
    StampNames();
    NamesRead(columns);
    GroupsRead(cat, keys, count, STAMPS);
    var c, g := JoinList(columns), JoinList(Groups(CastsOf(cat), keys, count, STAMPED));
    var rest := ReturningReads(g, returning);
    TableIsWord(table);
    InsertLexes(table, c, g + ReturningText(returning));
    InsertReadsBack(table, Lex(c), Lex(g), rest);
  }

  // ------------------------------------------------------------------------ update

  lemma UpdatePieces(table: string, s: string, rest: string)
    ensures "UPDATE " + table + " SET " + (s + (" WHERE " + rest))
            == ("UPDATE " + table + " SET") + (" " + (s + (" " + "WHERE" + " " + rest)))
  {
    assert " " + "WHERE" + " " == " WHERE ";
    assert "UPDATE " + table + " SET " == ("UPDATE " + table + " SET") + " ";
  }

  lemma UpdateLexes(table: string, s: string, rest: string)
    requires IsWord(table) && QuotesClosed(s)
    ensures Lex("UPDATE " + table + " SET " + (s + (" WHERE " + rest)))
            == [Word("UPDATE"), Word(table), Word("SET")] + (Lex(s) + ([Word("WHERE")] + Lex(rest)))
  {
    hide Lex, QuotesClosed, IsWord, Stops;
    UpdateHeadReads(table);
    UpdatePieces(table, s, rest);
    FixedWords();
    KeywordReads("WHERE", rest);
    var y := " " + "WHERE" + " " + rest;
    LexThen(s, y);
    LexAfterSpace(s + y);
    LexThen("UPDATE " + table + " SET", " " + (s + y));
  }

  /** update's statement, read back from its text: column keys[j] takes parameter j + 1,
      updated_at the clock, and the condition is the clause with its lock. */
  lemma UpdateReads(table: string, cat: Catalog, keys: seq<string>, w: string, lock: string, returning: string)
    requires IsName(table) && AllNames(keys)
    ensures ReadUpdate(Lex(UpdateText(table, SetList(CastsOf(cat), keys), w, lock, returning)))
            == UpdateSet(BoundSources(keys) + [("updated_at", Now)], Lex(w + (lock + returning)))
  {
    hide Lex, JoinList, CastsOf, Listed, IsName, AssignmentsOf, BoundSources, Sets, After, Before, Whole;
    var s, rest := SetList(CastsOf(cat), keys), w + (lock + returning);
    SetsRead(cat, keys);
    TableIsWord(table);
    UpdateLexes(table, s, rest);
    AfterSet(table, Lex(s) + ([Word("WHERE")] + Lex(rest)));
    KeywordsAreUpper();
    assert "WHERE" in RESERVED;
    KeywordCuts(Lex(s), "WHERE", Lex(rest));
  }
}
