/** The statements of build() read back: which clause stands where, and which number is
    the limit. */
module PageReading {
  import opened Types
  import opened SqlText
  import opened SqlLogic
  import opened SqlLexing
  import opened SelectStatement
  import opened StatementReading

  // ----------------------------------------------------------------------- numbers

  /** A whole number written in digits, with or without a minus sign. */
  function NumberOf(toks: seq<Tok>): Option<int> {
    if |toks| == 1 && toks[0].Word? && AllDigits(toks[0].w) then Some(ValueOf(toks[0].w))
    else if |toks| == 2 && toks[0] == Sym('-') && toks[1].Word? && AllDigits(toks[1].w) then
      Some(0 - ValueOf(toks[1].w) as int)
    else None
  }

  /** LIMIT size OFFSET offset */
  function LimitIn(toks: seq<Tok>): Option<(int, int)> {
    if toks == [] || toks[0] != Word("LIMIT") then None
    else
      var size := NumberOf(Before(toks[1..], Keyword("OFFSET")));
      var offset := NumberOf(After(toks[1..], Keyword("OFFSET")));
      if size.Some? && offset.Some? then Some((size.value, offset.value)) else None
  }

  lemma LexDigits(ds: string, rest: string)
    requires AllDigits(ds) && ds != "" && !StartsWithWordChar(rest)
    ensures Lex(ds + rest) == [Word(ds)] + Lex(rest) && QuotesClosed(ds + rest) == QuotesClosed(rest)
  {
    hide Lex, QuotesClosed;
    var s := ds + rest;
    LexWordRun(s);
    assert s[1..] == ds[1..] + rest;
    WordRunIs(ds[1..], rest);
    assert s[1..][..|ds| - 1] == ds[1..] && s[1..][|ds| - 1..] == rest;
    assert [ds[0]] + ds[1..] == ds;
  }

  function IntTokens(n: int): seq<Tok> {
    if n < 0 then [Sym('-'), Word(Decimal(-n))] else [Word(Decimal(n))]
  }

  lemma LexInt(n: int, rest: string)
    requires !StartsWithWordChar(rest)
    ensures Lex(IntText(n) + rest) == IntTokens(n) + Lex(rest)
    ensures NumberOf(IntTokens(n)) == Some(n) && IsFlatNumber(IntTokens(n))
  {
    hide Lex, QuotesClosed, ValueOf, Decimal;
    DecimalValue(if n < 0 then -n else n);
    if n < 0 {
      LexDigits(Decimal(-n), rest);
      LexSymbol('-', Decimal(-n) + rest);
      assert "-" + Decimal(-n) + rest == "-" + (Decimal(-n) + rest);
      DigitsAreNoWord(Decimal(-n));
    } else {
      LexDigits(Decimal(n), rest);
      DigitsAreNoWord(Decimal(n));
    }
  }

  predicate IsFlatNumber(toks: seq<Tok>) { Whole(toks, Keyword("OFFSET")) }

  lemma DigitsAreNoWord(ds: string)
    requires AllDigits(ds) && ds != ""
    ensures IsFlatNumber([Word(ds)]) && IsFlatNumber([Sym('-'), Word(ds)])
  {
    assert Upper(ds)[0] == ds[0];
    FlatIsWhole([Word(ds)], Keyword("OFFSET"));
    FlatIsWhole([Sym('-'), Word(ds)], Keyword("OFFSET"));
  }

  lemma LimitWords()
    ensures IsWord("LIMIT") && IsWord("OFFSET") && Upper("OFFSET") == "OFFSET"
  {
  }

  lemma LimitLexes(size: int, offset: nat)
    ensures Lex(LimitText(Some(Limit(size, offset))))
            == [Word("LIMIT")] + (IntTokens(size) + ([Word("OFFSET")] + IntTokens(offset)))
  {
    hide Lex, QuotesClosed, IsWord, IntTokens, IntText;
    LimitWords();
    var o := Decimal(offset);
    LexInt(offset, "");
    assert IntText(offset) == o by { DecimalText(offset); }
    assert o + "" == o && IntTokens(offset) + Lex("") == IntTokens(offset) by { LexNothing(); }
    KeywordReads("OFFSET", o);
    var rest := " " + "OFFSET" + " " + o;
    assert rest == " OFFSET " + o;
    LexInt(size, rest);
    KeywordReads("LIMIT", IntText(size) + rest);
    assert " " + "LIMIT" + " " + (IntText(size) + rest) == " LIMIT " + (IntText(size) + rest);
  }

  lemma DecimalText(n: nat)
    ensures IntText(n) == Decimal(n)
  {
  }

  /** The number after LIMIT is the page size and the number after OFFSET the offset. */
  lemma LimitReads(l: Limit)
    ensures LimitIn(Lex(LimitText(Some(l)))) == Some((l.size, l.offset as int))
  {
    hide Lex, IntTokens, NumberOf, Before, After, LimitText;
    LimitLexes(l.size, l.offset);
    LimitWords();
    LexInt(l.size, "");
    LexInt(l.offset, "");
    var toks := [Word("LIMIT")] + (IntTokens(l.size) + ([Word("OFFSET")] + IntTokens(l.offset)));
    CutAt(IntTokens(l.size), Word("OFFSET"), IntTokens(l.offset), Keyword("OFFSET"));
    assert toks[1..] == IntTokens(l.size) + ([Word("OFFSET")] + IntTokens(l.offset));
  }

  // ----------------------------------------------------------------- optional clauses

  /** A clause that may be missing, and does not run into what is before it. */
  predicate IsClause(b: string) { b == "" || Stops(b) }

  lemma LexClause(a: string, b: string)
    requires QuotesClosed(a) && IsClause(b)
    ensures Lex(a + b) == Lex(a) + Lex(b) && (QuotesClosed(b) ==> QuotesClosed(a + b))
  {
    hide Lex, QuotesClosed, Stops;
    if b == "" {
      assert a + b == a;
      LexNothing();
    } else {
      LexThen(a, b);
    }
  }

  lemma Both(a: string, b: string)
    requires IsClause(a) && IsClause(b)
    ensures IsClause(a + b)
  {
    assert a == "" ==> a + b == b;
  }

  function WhereTokens(w: string): seq<Tok> { if w == "" then [] else [Word("WHERE")] + Lex(w) }

  function GroupTokens(groups: seq<string>): seq<Tok> {
    if groups == [] then [] else [Word("GROUP"), Word("BY")] + Lex(JoinList(groups))
  }

  function OrderTokens(order: string): seq<Tok> {
    if order == "" then [] else [Word("ORDER"), Word("BY")] + Lex(order)
  }

  function DistinctTokens(distinct: seq<string>): seq<Tok> {
    if distinct == [] then []
    else [Word("DISTINCT"), Word("ON"), Sym('(')] + (Lex(JoinList(distinct)) + [Sym(')')])
  }

  lemma ClauseWords()
    ensures IsWord("WHERE") && IsWord("GROUP") && IsWord("ORDER") && IsWord("BY") && IsWord("SELECT") && IsWord("FROM")
    ensures IsWord("DISTINCT") && IsWord("ON")
  {
  }

  lemma WhereLexes(w: string)
    ensures Lex(WhereText(w)) == WhereTokens(w) && IsClause(WhereText(w))
    ensures QuotesClosed(w) ==> QuotesClosed(WhereText(w))
  {
    hide Lex, QuotesClosed, IsWord;
    LexNothing();
    ClauseWords();
    KeywordReads("WHERE", w);
    assert " " + "WHERE" + " " + w == " WHERE " + w;
  }

  /** ` first BY list` */
  lemma ByLexes(first: string, list: string)
    requires IsWord(first)
    ensures var t := " " + first + " BY " + list;
            && Lex(t) == [Word(first), Word("BY")] + Lex(list) && Stops(t)
            && QuotesClosed(t) == QuotesClosed(list)
  {
    hide Lex, QuotesClosed, IsWord;
    ClauseWords();
    LexAfterSpace(list);
    LexWord("BY", " " + list);
    ClosedWord("BY", " " + list);
    var byList := "BY" + (" " + list);
    KeywordReads(first, byList);
    assert " " + first + " " + byList == " " + first + " BY " + list;
    assert [Word(first)] + ([Word("BY")] + Lex(list)) == [Word(first), Word("BY")] + Lex(list);
  }

  lemma GroupLexes(groups: seq<string>)
    ensures Lex(GroupText(groups)) == GroupTokens(groups) && IsClause(GroupText(groups))
    ensures QuotesClosed(JoinList(groups)) ==> QuotesClosed(GroupText(groups))
  {
    hide Lex, QuotesClosed, IsWord, JoinList, Stops;
    LexNothing();
    ClauseWords();
    ByLexes("GROUP", JoinList(groups));
    assert " " + "GROUP" + " BY " + JoinList(groups) == " GROUP BY " + JoinList(groups);
  }

  lemma OrderLexes(order: string)
    ensures Lex(OrderText(order)) == OrderTokens(order) && IsClause(OrderText(order))
    ensures QuotesClosed(order) ==> QuotesClosed(OrderText(order))
  {
    hide Lex, QuotesClosed, IsWord, Stops;
    LexNothing();
    ClauseWords();
    ByLexes("ORDER", order);
    assert " " + "ORDER" + " BY " + order == " ORDER BY " + order;
  }

  lemma LimitIsClause(l: Option<Limit>)
    ensures IsClause(LimitText(l))
  {
  }

  function TailTokens(w: string, groups: seq<string>, order: string, limit: Option<Limit>): seq<Tok> {
    WhereTokens(w) + (GroupTokens(groups) + (OrderTokens(order) + Lex(LimitText(limit))))
  }

  lemma TailLexes(w: string, groups: seq<string>, order: string, limit: Option<Limit>)
    requires QuotesClosed(w) && QuotesClosed(JoinList(groups)) && QuotesClosed(order)
    ensures Lex(WhereText(w) + Tail(groups, order, limit)) == TailTokens(w, groups, order, limit)
    ensures IsClause(WhereText(w) + Tail(groups, order, limit))
  {
    hide Lex, QuotesClosed, WhereText, GroupText, OrderText, LimitText, IsClause, WhereTokens, GroupTokens,
         OrderTokens, JoinList;
    LimitIsClause(limit);
    OrderLexes(order);
    GroupLexes(groups);
    WhereLexes(w);
    var a := OrderText(order) + LimitText(limit);
    LexClause(OrderText(order), LimitText(limit));
    Both(OrderText(order), LimitText(limit));
    LexClause(GroupText(groups), a);
    Both(GroupText(groups), a);
    LexClause(WhereText(w), GroupText(groups) + a);
    Both(WhereText(w), GroupText(groups) + a);
  }

  // ---------------------------------------------------------------------- the statements

  /** `columns FROM from ...` */
  lemma FromLexes(columns: string, from: string, rest: string)
    requires QuotesClosed(columns) && QuotesClosed(from) && IsClause(rest)
    ensures Lex(columns + (" FROM " + from) + rest) == Lex(columns) + ([Word("FROM")] + (Lex(from) + Lex(rest)))
  {
    hide Lex, QuotesClosed, IsWord, IsClause, Stops;
    ClauseWords();
    KeywordReads("FROM", from + rest);
    assert " " + "FROM" + " " + (from + rest) == " FROM " + (from + rest);
    assert columns + (" FROM " + from) + rest == columns + (" FROM " + (from + rest));
    LexThen(columns, " FROM " + (from + rest));
    LexClause(from, rest);
  }

  lemma DistinctLexes(distinct: seq<string>, rest: string)
    requires QuotesClosed(JoinList(distinct))
    ensures Lex((if distinct == [] then "" else "DISTINCT ON (" + (JoinList(distinct) + ") ")) + rest)
            == DistinctTokens(distinct) + Lex(rest)
  {
    hide Lex, QuotesClosed, IsWord, JoinList, Stops;
    if distinct == [] {
      assert "" + rest == rest;
    } else {
      var list := JoinList(distinct);
      ClauseWords();
      LexAfterSpace(rest);
      CloseLexes(" " + rest);
      LexThen(list, ")" + (" " + rest));
      LexAfterParen(list + (")" + (" " + rest)));
      var inner := "(" + (list + (")" + (" " + rest)));
      KeywordReads("ON", inner);
      LexWord("DISTINCT", " " + "ON" + " " + inner);
      assert "DISTINCT ON (" + (list + ") ") + rest == "DISTINCT" + (" " + "ON" + " " + inner);
      DistinctPieces(Lex(list), Lex(rest));
    }
  }

  lemma CloseLexes(rest: string)
    ensures Lex(")" + rest) == [Sym(')')] + Lex(rest) && Stops(")" + rest)
  {
    LexSymbol(')', rest);
  }

  lemma DistinctPieces(list: seq<Tok>, rest: seq<Tok>)
    ensures [Word("DISTINCT")] + ([Word("ON")] + ([Sym('(')] + (list + ([Sym(')')] + rest))))
            == [Word("DISTINCT"), Word("ON"), Sym('(')] + (list + [Sym(')')]) + rest
  {
  }

  /** The tokens of the joins, one clause after the other. */
  function JoinTokens(joins: seq<string>): seq<Tok> {
    if joins == [] then [] else JoinTokens(joins[..|joins| - 1]) + Lex(joins[|joins| - 1])
  }

  lemma {:induction false} JoinsLex(joins: seq<string>)
    requires forall j :: j in joins ==> QuotesClosed(j)
    ensures Lex(JoinsText(joins)) == JoinTokens(joins) && QuotesClosed(JoinsText(joins)) && IsClause(JoinsText(joins))
  {
    hide Lex, QuotesClosed, IsClause, Stops;
    NoText();
    if joins != [] {
      var init, last := joins[..|joins| - 1], joins[|joins| - 1];
      assert last in joins && forall j :: j in init ==> j in joins;
      JoinsLex(init);
      LexAfterSpace(last);
      SpaceIsClause(last);
      LexClause(JoinsText(init), " " + last);
      Both(JoinsText(init), " " + last);
    }
  }

  lemma NoText()
    ensures Lex("") == [] && QuotesClosed("") && IsClause("")
  {
  }

  lemma SpaceIsClause(b: string)
    ensures IsClause(" " + b)
  {
  }

  /** The rows come from the table and then every join, in the order they were added. */
  lemma FromTextReads(q: Query, table: string)
    requires QuotesClosed(table) && forall j :: j in q.joins ==> QuotesClosed(j)
    ensures Lex(FromText(q, table)) == Lex(table) + JoinTokens(q.joins) && QuotesClosed(FromText(q, table))
  {
    hide Lex, QuotesClosed, IsClause;
    JoinsLex(q.joins);
    LexClause(table, JoinsText(q.joins));
  }

  /** No piece leaves a quote open. */
  predicate ClosedPieces(columns: string, distinct: seq<string>, from: string, w: string, groups: seq<string>,
                         order: string) {
    && QuotesClosed(columns) && QuotesClosed(JoinList(distinct)) && QuotesClosed(from) && QuotesClosed(w)
    && QuotesClosed(JoinList(groups)) && QuotesClosed(order)
  }

  /** The page statement token by token: SELECT, DISTINCT ON, columns, FROM, WHERE,
      GROUP BY, ORDER BY and LIMIT, in this order, each with its own list. */
  lemma PageReads(s: Statement)
    requires s.Page? && ClosedPieces(s.columns, s.distinct, s.from, s.w, s.groups, s.order)
    ensures Lex(StatementText(s))
            == [Word("SELECT")] + (DistinctTokens(s.distinct)
                                   + (Lex(s.columns) + ([Word("FROM")]
                                                        + (Lex(s.from) + TailTokens(s.w, s.groups, s.order, s.limit)))))
  {
    hide Lex, QuotesClosed, IsWord, JoinList, IsClause, WhereText, Tail, TailTokens, DistinctTokens, Stops;
    var rest := WhereText(s.w) + Tail(s.groups, s.order, s.limit);
    TailLexes(s.w, s.groups, s.order, s.limit);
    FromLexes(s.columns, s.from, rest);
    var body := s.columns + (" FROM " + s.from) + rest;
    DistinctLexes(s.distinct, body);
    var on := if s.distinct == [] then "" else "DISTINCT ON (" + (JoinList(s.distinct) + ") ");
    ClauseWords();
    LexAfterSpace(on + body);
    LexWord("SELECT", " " + (on + body));
    PagePieces(on, s.columns + (" FROM " + s.from), rest);
  }

  lemma PagePieces(on: string, body: string, rest: string)
    ensures "SELECT " + (on + body) + rest == "SELECT" + (" " + (on + (body + rest)))
  {
  }

  const COUNT_TOKENS: seq<Tok> :=
    [Word("SELECT"), Word("COUNT"), Sym('('), Sym('*'), Sym(')'), Sym(':'), Sym(':'), Word("bigint"), Word("AS"),
     Word("count"), Word("FROM")]

  lemma CountWords()
    ensures IsWord("SELECT") && IsWord("COUNT") && IsWord("bigint") && IsWord("AS") && IsWord("count") && IsWord("FROM")
    ensures IsWord("_grouped")
  {
  }

  /** `::bigint AS count FROM` */
  lemma CountTailReads()
    ensures Reads("::bigint AS count FROM",
                  [Sym(':'), Sym(':'), Word("bigint"), Word("AS"), Word("count"), Word("FROM")])
  {
    hide Written, Tokens, WellSpaced, IsWord, Reads;
    CountWords();
    var a := Name("FROM", End);
    LastName("FROM");
    var b := Name("count", Space(a));
    SpacedName("count", a);
    var c := Name("AS", Space(b));
    SpacedName("AS", b);
    var d := Name("bigint", Space(c));
    SpacedName("bigint", c);
    SymbolStep(':', d);
    SymbolStep(':', Symbol(':', d));
    ReadsTemplate(Symbol(':', Symbol(':', d)));
    CountTailPieces();
  }

  lemma CountTailPieces()
    ensures ":" + (":" + ("bigint" + (" " + ("AS" + (" " + ("count" + (" " + "FROM"))))))) == "::bigint AS count FROM"
    ensures [Sym(':')] + ([Sym(':')] + ([Word("bigint")] + ([Word("AS")] + ([Word("count")] + [Word("FROM")]))))
            == [Sym(':'), Sym(':'), Word("bigint"), Word("AS"), Word("count"), Word("FROM")]
  {
  }

  /** `SELECT COUNT(*)` */
  lemma CountHeadReads()
    ensures Reads("SELECT COUNT(*)", [Word("SELECT"), Word("COUNT"), Sym('('), Sym('*'), Sym(')')])
  {
    hide Written, Tokens, WellSpaced, IsWord, Reads;
    CountWords();
    NothingStep();
    var a := Symbol(')', End);
    SymbolStep(')', End);
    SymbolStep('*', a);
    SymbolStep('(', Symbol('*', a));
    var b := Name("COUNT", Symbol('(', Symbol('*', a)));
    NameStep("COUNT", Symbol('(', Symbol('*', a)));
    SpacedName("SELECT", b);
    ReadsTemplate(Name("SELECT", Space(b)));
    CountHeadPieces();
  }

  lemma CountHeadPieces()
    ensures "SELECT" + (" " + ("COUNT" + ("(" + ("*" + (")" + ""))))) == "SELECT COUNT(*)"
    ensures [Word("SELECT")] + ([Word("COUNT")] + ([Sym('(')] + ([Sym('*')] + ([Sym(')')] + []))))
            == [Word("SELECT"), Word("COUNT"), Sym('('), Sym('*'), Sym(')')]
  {
  }

  lemma CountLexes(rest: string)
    ensures Lex(COUNT + rest) == COUNT_TOKENS + Lex(rest)
  {
    hide Lex, QuotesClosed;
    CountHeadReads();
    CountTailReads();
    LexAfterSpace(rest);
    CountPieces(rest);
    CountTailStops(" " + rest);
    LexThen("::bigint AS count FROM", " " + rest);
    LexThen("SELECT COUNT(*)", "::bigint AS count FROM" + (" " + rest));
    CountTokens(Lex(rest));
  }

  lemma CountPieces(rest: string)
    ensures COUNT + rest == "SELECT COUNT(*)" + ("::bigint AS count FROM" + (" " + rest))
  {
    assert COUNT == "SELECT COUNT(*)" + "::bigint AS count FROM" + " ";
  }

  lemma CountTailStops(rest: string)
    ensures Stops("::bigint AS count FROM" + rest)
  {
  }

  lemma CountTokens(rest: seq<Tok>)
    ensures [Word("SELECT"), Word("COUNT"), Sym('('), Sym('*'), Sym(')')]
            + ([Sym(':'), Sym(':'), Word("bigint"), Word("AS"), Word("count"), Word("FROM")] + rest)
            == COUNT_TOKENS + rest
  {
  }

  /** The total without GROUP BY counts the rows of the same FROM and WHERE. */
  lemma CountRowsReads(from: string, w: string)
    requires QuotesClosed(from)
    ensures Lex(StatementText(CountRows(from, w))) == COUNT_TOKENS + (Lex(from) + WhereTokens(w))
  {
    hide Lex, QuotesClosed, WhereText, WhereTokens, IsClause;
    WhereLexes(w);
    assert WhereText(w) + "" == WhereText(w);
    assert COUNT + from + WhereText(w) == COUNT + (from + WhereText(w));
    CountLexes(from + WhereText(w));
    LexClause(from, WhereText(w));
  }

  /** The total with GROUP BY counts the groups. */
  lemma CountGroupsReads(from: string, w: string, groups: seq<string>)
    requires QuotesClosed(from) && QuotesClosed(w) && QuotesClosed(JoinList(groups))
    ensures Lex(StatementText(CountGroups(from, w, groups)))
            == COUNT_TOKENS + ([Sym('('), Word("SELECT"), Word("1"), Word("FROM")]
                               + (Lex(from) + (WhereTokens(w) + (GroupTokens(groups)
                                                                 + [Sym(')'), Word("AS"), Word("_grouped")]))))
  {
    hide Lex, QuotesClosed, WhereText, WhereTokens, GroupText, GroupTokens, IsClause, JoinList, Stops;
    WhereLexes(w);
    GroupLexes(groups);
    GroupedReads();
    var a := GroupText(groups) + ") AS _grouped";
    LexClause(GroupText(groups), ") AS _grouped");
    Both(GroupText(groups), ") AS _grouped");
    LexClause(WhereText(w), a);
    Both(WhereText(w), a);
    var rest := from + (WhereText(w) + a);
    LexClause(from, WhereText(w) + a);
    OneLexes(rest);
    CountGroupsPieces(from, WhereText(w), a);
    CountLexes("(SELECT 1 FROM " + rest);
  }

  lemma GroupedReads()
    ensures Lex(") AS _grouped") == [Sym(')'), Word("AS"), Word("_grouped")] && IsClause(") AS _grouped")
  {
    hide Lex, QuotesClosed, IsWord, Stops;
    CountWords();
    LexNothing();
    LexWord("_grouped", "");
    KeywordReads("AS", "_grouped");
    GroupedPieces();
    CloseLexes(" AS _grouped");
  }

  lemma GroupedPieces()
    ensures "_grouped" + "" == "_grouped" && " " + "AS" + " " + "_grouped" == " AS _grouped"
    ensures ")" + " AS _grouped" == ") AS _grouped"
  {
  }

  lemma OneLexes(rest: string)
    ensures Lex("(SELECT 1 FROM " + rest) == [Sym('('), Word("SELECT"), Word("1"), Word("FROM")] + Lex(rest)
  {
    hide Lex, QuotesClosed, IsWord;
    CountWords();
    KeywordReads("FROM", rest);
    var from := " " + "FROM" + " " + rest;
    LexDigits("1", from);
    LexAfterSpace("1" + from);
    LexWord("SELECT", " " + ("1" + from));
    LexAfterParen("SELECT" + (" " + ("1" + from)));
    assert "(" + ("SELECT" + (" " + ("1" + from))) == "(SELECT 1 FROM " + rest;
    assert [Sym('(')] + ([Word("SELECT")] + ([Word("1")] + ([Word("FROM")] + Lex(rest))))
           == [Sym('('), Word("SELECT"), Word("1"), Word("FROM")] + Lex(rest);
  }

  lemma CountGroupsPieces(from: string, w: string, a: string)
    ensures COUNT + "(SELECT 1 FROM " + from + (w + a) == COUNT + ("(SELECT 1 FROM " + (from + (w + a)))
  {
  }
}
