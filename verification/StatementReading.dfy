/** Reading emitted statements back: their tokens cut at keywords and commas outside
    parentheses. */
module StatementReading {
  import opened SqlLogic
  import opened SqlLexing
  import opened SelectStatement

  // ------------------------------------------------------------------- cutting tokens

  datatype Separator = Comma | Keyword(w: string)

  predicate Separates(sep: Separator, t: Tok) {
    match sep case Comma => t == Sym(',') case Keyword(w) => t.Word? && Upper(t.w) == w
  }

  function Nesting(t: Tok): int { if t == Sym('(') then 1 else if t == Sym(')') then -1 else 0 }

  /** Position of the first separator outside parentheses, or the length. */
  function Find(toks: seq<Tok>, sep: Separator, d: int): (k: nat)
    ensures k <= |toks|
  {
    if toks == [] then 0
    else if d == 0 && Separates(sep, toks[0]) then 0
    else 1 + Find(toks[1..], sep, d + Nesting(toks[0]))
  }

  function EndNesting(toks: seq<Tok>, d: int): int {
    if toks == [] then d else EndNesting(toks[1..], d + Nesting(toks[0]))
  }

  function Before(toks: seq<Tok>, sep: Separator): seq<Tok> { toks[..Find(toks, sep, 0)] }

  function After(toks: seq<Tok>, sep: Separator): seq<Tok> {
    if Find(toks, sep, 0) < |toks| then toks[Find(toks, sep, 0) + 1..] else []
  }

  /** The parts of a comma-separated list. */
  function Listed(toks: seq<Tok>): seq<seq<Tok>>
    decreases |toks|
  {
    var k := Find(toks, Comma, 0);
    if k < |toks| then [toks[..k]] + Listed(toks[k + 1..]) else [toks]
  }

  /** What stands between the first and the last token. */
  function Inside(toks: seq<Tok>): seq<Tok> { if |toks| < 2 then [] else toks[1..|toks| - 1] }

  /** Has no such separator of its own, and closes what it opens. */
  predicate Whole(toks: seq<Tok>, sep: Separator) { Find(toks, sep, 0) == |toks| && EndNesting(toks, 0) == 0 }

  lemma {:induction false} FindPast(a: seq<Tok>, b: seq<Tok>, sep: Separator, d: int)
    requires Find(a, sep, d) == |a|
    ensures Find(a + b, sep, d) == |a| + Find(b, sep, EndNesting(a, d))
    ensures EndNesting(a + b, d) == EndNesting(b, EndNesting(a, d))
  {
    hide Separates, Nesting;
    if a == [] {
      assert a + b == b;
    } else {
      assert (a + b)[0] == a[0] && (a + b)[1..] == a[1..] + b;
      FindPast(a[1..], b, sep, d + Nesting(a[0]));
    }
  }

  /** Cutting `a sep b` at the separator. */
  lemma CutAt(a: seq<Tok>, t: Tok, b: seq<Tok>, sep: Separator)
    requires Whole(a, sep) && Separates(sep, t)
    ensures Before(a + ([t] + b), sep) == a && After(a + ([t] + b), sep) == b
  {
    FindPast(a, [t] + b, sep, 0);
    var s := a + ([t] + b);
    assert s[..|a|] == a && s[|a| + 1..] == b;
  }

  lemma NoCut(a: seq<Tok>, sep: Separator)
    requires Whole(a, sep)
    ensures Before(a, sep) == a && After(a, sep) == []
  {
  }

  lemma WholeJoin(a: seq<Tok>, b: seq<Tok>, sep: Separator)
    requires Whole(a, sep) && Whole(b, sep)
    ensures Whole(a + b, sep)
  {
    FindPast(a, b, sep, 0);
  }

  function Commas(parts: seq<seq<Tok>>): seq<Tok> {
    if parts == [] then [] else if |parts| == 1 then parts[0] else parts[0] + ([Sym(',')] + Commas(parts[1..]))
  }

  predicate AllWhole(parts: seq<seq<Tok>>, sep: Separator) { forall p :: p in parts ==> Whole(p, sep) }

  lemma {:induction false} ListedCommas(parts: seq<seq<Tok>>)
    requires parts != [] && AllWhole(parts, Comma)
    ensures Listed(Commas(parts)) == parts
  {
    assert parts[0] in parts;
    if |parts| > 1 {
      var rest := Commas(parts[1..]);
      assert forall p :: p in parts[1..] ==> p in parts;
      ListedCommas(parts[1..]);
      CutAt(parts[0], Sym(','), rest, Comma);
      FindPast(parts[0], [Sym(',')] + rest, Comma, 0);
      assert parts == [parts[0]] + parts[1..];
    }
  }

  lemma {:induction false} CommasWhole(parts: seq<seq<Tok>>, sep: Separator)
    requires AllWhole(parts, sep) && sep.Keyword?
    ensures Whole(Commas(parts), sep)
  {
    if |parts| >= 1 {
      assert parts[0] in parts;
      if |parts| > 1 {
        assert forall p :: p in parts[1..] ==> p in parts;
        CommasWhole(parts[1..], sep);
        WholeJoin([Sym(',')], Commas(parts[1..]), sep);
        WholeJoin(parts[0], [Sym(',')] + Commas(parts[1..]), sep);
      }
    }
  }

  // ------------------------------------------------------------- in parentheses

  /** Never back outside before the end. */
  predicate Within(toks: seq<Tok>, d: int) {
    toks == [] || (d >= 1 && Within(toks[1..], d + Nesting(toks[0])))
  }

  lemma {:induction false} WithinHides(toks: seq<Tok>, sep: Separator, d: int)
    requires Within(toks, d)
    ensures Find(toks, sep, d) == |toks|
  {
    if toks != [] { WithinHides(toks[1..], sep, d + Nesting(toks[0])); }
  }

  lemma {:induction false} WithinClose(toks: seq<Tok>, d: int)
    requires Within(toks, d) && d >= 1 && EndNesting(toks, d) == 1
    ensures Within(toks + [Sym(')')], d) && EndNesting(toks + [Sym(')')], d) == 0
  {
    if toks == [] {
      assert toks + [Sym(')')] == [Sym(')')] && [Sym(')')][1..] == [];
    } else {
      var s := toks + [Sym(')')];
      assert s[0] == toks[0] && s[1..] == toks[1..] + [Sym(')')];
      if toks[1..] == [] { assert d + Nesting(toks[0]) == 1; }
      WithinClose(toks[1..], d + Nesting(toks[0]));
    }
  }

  /** Whatever is in the parentheses, no separator shows outside. */
  lemma Parenthesized(toks: seq<Tok>, sep: Separator)
    requires Within(toks, 1) && EndNesting(toks, 1) == 1
    ensures Whole([Sym('(')] + (toks + [Sym(')')]), sep)
  {
    var s := [Sym('(')] + (toks + [Sym(')')]);
    assert s[1..] == toks + [Sym(')')];
    WithinClose(toks, 1);
    WithinHides(toks + [Sym(')')], sep, 1);
  }

  predicate NoParens(toks: seq<Tok>) { forall t :: t in toks ==> Nesting(t) == 0 }

  lemma {:induction false} FlatIsWithin(toks: seq<Tok>, d: int)
    requires NoParens(toks) && d >= 1
    ensures Within(toks, d) && EndNesting(toks, d) == d
  {
    if toks != [] {
      assert toks[0] in toks;
      FlatIsWithin(toks[1..], d);
    }
  }

  lemma {:induction false} FlatIsWhole(toks: seq<Tok>, sep: Separator)
    requires NoParens(toks) && forall t :: t in toks ==> !Separates(sep, t)
    ensures Whole(toks, sep)
  {
    hide Separates;
    if toks != [] {
      assert toks[0] in toks;
      FlatIsWhole(toks[1..], sep);
    }
  }

  lemma {:induction false} WithinJoin(a: seq<Tok>, b: seq<Tok>, d: int)
    requires Within(a, d) && Within(b, EndNesting(a, d))
    ensures Within(a + b, d) && EndNesting(a + b, d) == EndNesting(b, EndNesting(a, d))
  {
    hide Nesting;
    if a == [] {
      assert a + b == b;
    } else {
      assert (a + b)[0] == a[0] && (a + b)[1..] == a[1..] + b;
      WithinJoin(a[1..], b, d + Nesting(a[0]));
    }
  }

  /** One level deeper than a part that closes what it opens, everything is inside. */
  predicate Nested(toks: seq<Tok>) { Within(toks, 1) && EndNesting(toks, 1) == 1 }

  lemma {:induction false} OneDeeper(toks: seq<Tok>, d: int)
    requires Within(toks, d)
    ensures Within(toks, d + 1) && EndNesting(toks, d + 1) == EndNesting(toks, d) + 1
  {
    hide Nesting;
    if toks != [] { OneDeeper(toks[1..], d + Nesting(toks[0])); }
  }

  lemma NestedInParens(toks: seq<Tok>)
    requires Nested(toks)
    ensures Nested([Sym('(')] + (toks + [Sym(')')]))
  {
    OneDeeper(toks, 1);
    FlatEnd();
    WithinJoin(toks, [Sym(')')], 2);
    var s := [Sym('(')] + (toks + [Sym(')')]);
    assert s[1..] == toks + [Sym(')')];
  }

  lemma FlatEnd()
    ensures Within([Sym(')')], 2) && EndNesting([Sym(')')], 2) == 1
  {
    assert [Sym(')')][1..] == [];
  }

  predicate AllNested(parts: seq<seq<Tok>>) { forall p :: p in parts ==> Nested(p) }

  lemma {:induction false} CommasNested(parts: seq<seq<Tok>>)
    requires AllNested(parts)
    ensures Nested(Commas(parts))
  {
    if |parts| >= 1 {
      assert parts[0] in parts;
      if |parts| > 1 {
        assert forall p :: p in parts[1..] ==> p in parts;
        CommasNested(parts[1..]);
        FlatIsWithin([Sym(',')], 1);
        WithinJoin([Sym(',')], Commas(parts[1..]), 1);
        WithinJoin(parts[0], [Sym(',')] + Commas(parts[1..]), 1);
      }
    }
  }

  // --------------------------------------------------------------- lists of texts

  function LexEach(texts: seq<string>): (r: seq<seq<Tok>>)
    ensures |r| == |texts| && forall k :: 0 <= k < |r| ==> r[k] == Lex(texts[k])
  {
    seq(|texts|, k requires 0 <= k < |texts| => Lex(texts[k]))
  }

  predicate AllClosed(texts: seq<string>) { forall t :: t in texts ==> QuotesClosed(t) }

  /** A text followed by one that does not continue its last word. */
  lemma LexThen(a: string, b: string)
    requires QuotesClosed(a) && Stops(b)
    ensures Lex(a + b) == Lex(a) + Lex(b) && QuotesClosed(a + b) == QuotesClosed(b)
  {
    LexAppend(a, b);
  }

  lemma LexAfterSpace(b: string)
    ensures Lex(" " + b) == Lex(b) && QuotesClosed(" " + b) == QuotesClosed(b) && Stops(" " + b)
  {
    LexSpace(b);
    ClosedChar(' ', b);
  }

  lemma LexAfterParen(b: string)
    ensures Lex("(" + b) == [Sym('(')] + Lex(b) && QuotesClosed("(" + b) == QuotesClosed(b) && Stops("(" + b)
  {
    LexSymbol('(', b);
    ClosedChar('(', b);
  }

  lemma LexAfterComma(b: string)
    ensures Lex(", " + b) == [Sym(',')] + Lex(b) && QuotesClosed(", " + b) == QuotesClosed(b) && Stops(", " + b)
  {
    hide Lex, QuotesClosed;
    assert ", " + b == "," + (" " + b);
    LexSymbol(',', " " + b);
    ClosedChar(',', " " + b);
    LexAfterSpace(b);
  }

  /** A joined list lexes part by part. */
  lemma {:induction false} LexList(texts: seq<string>)
    requires AllClosed(texts)
    ensures Lex(JoinList(texts)) == Commas(LexEach(texts)) && QuotesClosed(JoinList(texts))
  {
    hide Lex, QuotesClosed;
    if texts == [] {
      LexNothing();
    } else {
      assert texts[0] in texts;
      if |texts| > 1 {
        assert forall t :: t in texts[1..] ==> t in texts;
        LexList(texts[1..]);
        assert LexEach(texts)[1..] == LexEach(texts[1..]);
        LexAfterComma(JoinList(texts[1..]));
        LexThen(texts[0], ", " + JoinList(texts[1..]));
      }
    }
  }

  lemma LexNothing()
    ensures Lex("") == [] && QuotesClosed("")
  {
  }

  /** A keyword of its own after a list. */
  lemma KeywordReads(w: string, rest: string)
    requires IsWord(w)
    ensures Lex(" " + w + " " + rest) == [Word(w)] + Lex(rest)
    ensures QuotesClosed(" " + w + " " + rest) == QuotesClosed(rest) && Stops(" " + w + " " + rest)
  {
    hide Lex, QuotesClosed, IsWord;
    assert " " + w + " " + rest == " " + (w + (" " + rest));
    LexAfterSpace(rest);
    LexAfterSpace(w + (" " + rest));
    LexWord(w, " " + rest);
    ClosedWord(w, " " + rest);
  }

  // ------------------------------------------------------------------- fixed pieces

  /** The text is closed and lexes to these tokens. */
  ghost predicate Reads(text: string, toks: seq<Tok>) { QuotesClosed(text) && Lex(text) == toks }

  lemma ReadsTemplate(t: Template)
    requires WellSpaced(t)
    ensures Reads(Written(t), Tokens(t))
  {
    WrittenLexes(t);
  }

  /** A template one piece longer. */
  lemma SpaceStep(t: Template)
    requires WellSpaced(t)
    ensures WellSpaced(Space(t)) && Written(Space(t)) == " " + Written(t) && Tokens(Space(t)) == Tokens(t)
  {
  }

  lemma SymbolStep(c: char, t: Template)
    requires WellSpaced(t) && IsSymbol(c)
    ensures WellSpaced(Symbol(c, t)) && Written(Symbol(c, t)) == [c] + Written(t)
    ensures Tokens(Symbol(c, t)) == [Sym(c)] + Tokens(t)
  {
  }

  lemma NameStep(w: string, t: Template)
    requires WellSpaced(t) && IsWord(w) && !t.Name? && !t.Slot?
    ensures WellSpaced(Name(w, t)) && Written(Name(w, t)) == w + Written(t)
    ensures Tokens(Name(w, t)) == [Word(w)] + Tokens(t)
  {
  }

  lemma NothingStep()
    ensures WellSpaced(End) && Written(End) == "" && Tokens(End) == []
  {
  }

  lemma SpacedName(w: string, t: Template)
    requires IsWord(w) && WellSpaced(t)
    ensures WellSpaced(Name(w, Space(t))) && Written(Name(w, Space(t))) == w + (" " + Written(t))
    ensures Tokens(Name(w, Space(t))) == [Word(w)] + Tokens(t)
  {
    SpaceStep(t);
    NameStep(w, Space(t));
  }

  lemma LastName(w: string)
    requires IsWord(w)
    ensures WellSpaced(Name(w, End)) && Written(Name(w, End)) == w && Tokens(Name(w, End)) == [Word(w)]
  {
    NothingStep();
    NameStep(w, End);
    assert w + "" == w;
  }
}
