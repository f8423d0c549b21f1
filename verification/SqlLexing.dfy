/** How pieces of SQL text lex when they are put together, and what rebasing the
    question marks of a raw fragment does to its tokens. */
module SqlLexing {
  import opened Types
  import opened SqlText
  import opened SqlLogic

  // ------------------------------------------------------------------ single pieces

  lemma LexSpace(rest: string)
    ensures Lex(" " + rest) == Lex(rest)
  {
    assert (" " + rest)[1..] == rest;
  }

  predicate IsSymbol(c: char) {
    !IsSpace(c) && !IsWordStart(c) && !IsDigit(c) && c != '$' && c != '.' && !IsQuote(c) && c != '?'
  }

  lemma LexSymbol(c: char, rest: string)
    requires IsSymbol(c)
    ensures Lex([c] + rest) == [Sym(c)] + Lex(rest)
  {
    assert ([c] + rest)[1..] == rest;
  }

  predicate IsWord(w: string) {
    w != "" && IsWordStart(w[0]) && forall k :: 0 <= k < |w| ==> IsWordChar(w[k])
  }

  predicate StartsWithWordChar(s: string) { s != "" && IsWordChar(s[0]) }

  lemma {:induction false} WordRunIs(w: string, rest: string)
    requires (forall k :: 0 <= k < |w| ==> IsWordChar(w[k])) && !StartsWithWordChar(rest)
    ensures WordRun(w + rest) == |w|
  {
    if w == "" {
      assert w + rest == rest;
    } else {
      assert (w + rest)[1..] == w[1..] + rest;
      WordRunIs(w[1..], rest);
    }
  }

  lemma LexWord(w: string, rest: string)
    requires IsWord(w) && !StartsWithWordChar(rest)
    ensures Lex(w + rest) == [Word(w)] + Lex(rest)
  {
    var r := w[1..] + rest;
    assert (w + rest)[1..] == r;
    WordRunIs(w[1..], rest);
    assert r[..|w| - 1] == w[1..] && r[|w| - 1..] == rest;
    assert [w[0]] + w[1..] == w;
  }

  lemma LexPh(n: nat, rest: string)
    requires !StartsWithDigit(rest)
    ensures Lex(Ph(n) + rest) == [Param(n)] + Lex(rest)
  {
    DecimalValue(n);
    var r := Decimal(n) + rest;
    assert (Ph(n) + rest)[1..] == r;
    DigitRunIs(Decimal(n), rest);
    assert r[..|Decimal(n)|] == Decimal(n) && r[|Decimal(n)|..] == rest;
  }

  // -------------------------------------------------------------------- concatenation

  /** Every quote is closed. */
  predicate QuotesClosed(s: string)
    decreases |s|
  {
    if s == "" then true
    else
      var c, r := s[0], s[1..];
      if IsQuote(c) then
        var k := Closing(r, c);
        k < |r| && QuotesClosed(r[k + 1..])
      else if IsWordStart(c) || IsDigit(c) then QuotesClosed(r[WordRun(r)..])
      else if c == '$' && StartsWithDigit(r) then QuotesClosed(r[DigitRun(r)..])
      else QuotesClosed(r)
  }

  lemma {:induction false} ClosingIs(a: string, q: char, rest: string)
    requires forall i :: 0 <= i < |a| ==> a[i] != q
    ensures Closing(a + [q] + rest, q) == |a|
  {
    if a == "" {
      assert a + [q] + rest == [q] + rest;
    } else {
      assert (a + [q] + rest)[1..] == a[1..] + [q] + rest;
      ClosingIs(a[1..], q, rest);
    }
  }

  lemma LexQuoted(c: char, body: string, rest: string)
    requires IsQuote(c) && forall i :: 0 <= i < |body| ==> body[i] != c
    ensures Lex([c] + (body + [c] + rest)) == [Quoted([c] + body)] + Lex(rest)
    ensures QuotesClosed([c] + (body + [c] + rest)) == QuotesClosed(rest)
  {
    var r := body + [c] + rest;
    assert ([c] + r)[1..] == r;
    ClosingIs(body, c, rest);
    assert r[..|body|] == body && r[|body| + 1..] == rest;
  }

  lemma Dropped(r: string, b: string, k: nat)
    requires k <= |r|
    ensures (r + b)[..k] == r[..k] && (r + b)[k..] == r[k..] + b
  {
  }

  /** Text that does not continue a word before it. */
  predicate Stops(b: string) { b != "" && !IsWordChar(b[0]) }

  lemma {:induction false} WordRunStops(r: string, b: string)
    requires Stops(b)
    ensures WordRun(r + b) == WordRun(r)
  {
    if r == "" {
      assert r + b == b;
    } else {
      assert (r + b)[1..] == r[1..] + b;
      WordRunStops(r[1..], b);
    }
  }

  lemma {:induction false} DigitRunStops(r: string, b: string)
    requires Stops(b)
    ensures DigitRun(r + b) == DigitRun(r) && StartsWithDigit(r + b) == StartsWithDigit(r)
  {
    if r == "" {
      assert r + b == b;
    } else {
      assert (r + b)[1..] == r[1..] + b;
      DigitRunStops(r[1..], b);
    }
  }

  ghost predicate Appends(a: string, b: string) {
    Lex(a + b) == Lex(a) + Lex(b) && QuotesClosed(a + b) == QuotesClosed(b)
  }

  /** The first token of a text that starts with a word. */
  lemma LexWordRun(s: string)
    requires s != "" && (IsWordStart(s[0]) || IsDigit(s[0]))
    ensures var r, k := s[1..], WordRun(s[1..]);
            Lex(s) == [Word([s[0]] + r[..k])] + Lex(r[k..]) && QuotesClosed(s) == QuotesClosed(r[k..])
  {
    hide WordRun, DigitRun, ValueOf, Closing, StartsWithDigit;
  }

  lemma LexDigitRun(s: string)
    requires s != "" && s[0] == '$' && StartsWithDigit(s[1..])
    ensures var r, k := s[1..], DigitRun(s[1..]);
            Lex(s) == [Param(ValueOf(r[..k]))] + Lex(r[k..]) && QuotesClosed(s) == QuotesClosed(r[k..])
  {
    hide WordRun, DigitRun, ValueOf, Closing, StartsWithDigit;
  }

  lemma LexOther(s: string)
    requires s != "" && !IsWordStart(s[0]) && !IsDigit(s[0]) && !IsQuote(s[0])
    requires !(s[0] == '$' && StartsWithDigit(s[1..]))
    ensures Lex(s) == (if IsSpace(s[0]) then [] else if s[0] == '?' then [Mark] else [Sym(s[0])]) + Lex(s[1..])
    ensures QuotesClosed(s) == QuotesClosed(s[1..])
  {
    hide WordRun, DigitRun, ValueOf, Closing, StartsWithDigit;
  }

  lemma AppendWord(a: string, b: string)
    requires a != "" && (IsWordStart(a[0]) || IsDigit(a[0])) && Stops(b)
    requires Appends(a[1..][WordRun(a[1..])..], b)
    ensures Appends(a, b)
  {
    hide Lex, QuotesClosed, WordRun, Stops;
    var r, k := a[1..], WordRun(a[1..]);
    assert (a + b)[1..] == r + b;
    WordRunStops(r, b);
    Dropped(r, b, k);
    LexWordRun(a);
    LexWordRun(a + b);
    Assoc([Word([a[0]] + r[..k])], Lex(r[k..]), Lex(b));
  }

  lemma AppendParam(a: string, b: string)
    requires a != "" && a[0] == '$' && StartsWithDigit(a[1..]) && Stops(b)
    requires Appends(a[1..][DigitRun(a[1..])..], b)
    ensures Appends(a, b)
  {
    hide Lex, QuotesClosed, DigitRun, Stops, StartsWithDigit;
    var r, k := a[1..], DigitRun(a[1..]);
    assert (a + b)[1..] == r + b;
    DigitRunStops(r, b);
    Dropped(r, b, k);
    LexDigitRun(a);
    LexDigitRun(a + b);
    Assoc([Param(ValueOf(r[..k]))], Lex(r[k..]), Lex(b));
  }

  lemma RegroupQuoted(c: char, body: string, rest: string, b: string)
    ensures [c] + (body + [c] + rest) + b == [c] + (body + [c] + (rest + b))
  {
  }

  lemma AppendQuoted(c: char, body: string, rest: string, b: string)
    requires IsQuote(c) && (forall i :: 0 <= i < |body| ==> body[i] != c) && Appends(rest, b)
    ensures Appends([c] + (body + [c] + rest), b)
  {
    LexQuoted(c, body, rest);
    LexQuoted(c, body, rest + b);
    RegroupQuoted(c, body, rest, b);
    Assoc([Quoted([c] + body)], Lex(rest), Lex(b));
  }

  lemma QuotePieces(a: string)
    requires a != "" && Closing(a[1..], a[0]) < |a[1..]|
    ensures var k := Closing(a[1..], a[0]);
            a == [a[0]] + (a[1..][..k] + [a[0]] + a[1..][k + 1..])
  {
  }

  lemma AppendOther(a: string, b: string)
    requires a != "" && Stops(b) && Appends(a[1..], b)
    requires !IsWordStart(a[0]) && !IsDigit(a[0]) && !IsQuote(a[0]) && !(a[0] == '$' && StartsWithDigit(a[1..]))
    ensures Appends(a, b)
  {
    hide Lex, QuotesClosed, Stops, StartsWithDigit;
    var r := a[1..];
    assert (a + b)[1..] == r + b;
    DigitRunStops(r, b);
    LexOther(a);
    LexOther(a + b);
    Assoc(if IsSpace(a[0]) then [] else if a[0] == '?' then [Mark] else [Sym(a[0])], Lex(r), Lex(b));
  }

  /** Such text does not run into what is before it. */
  lemma {:induction false} LexAppend(a: string, b: string)
    requires QuotesClosed(a) && Stops(b)
    ensures Appends(a, b)
    decreases |a|
  {
    if a == "" {
      assert a + b == b;
    } else {
      var c, r := a[0], a[1..];
      if IsQuote(c) {
        LexAppend(r[Closing(r, c) + 1..], b);
        QuotePieces(a);
        AppendQuoted(c, r[..Closing(r, c)], r[Closing(r, c) + 1..], b);
      } else if IsWordStart(c) || IsDigit(c) {
        LexAppend(r[WordRun(r)..], b);
        AppendWord(a, b);
      } else if c == '$' && StartsWithDigit(r) {
        LexAppend(r[DigitRun(r)..], b);
        AppendParam(a, b);
      } else {
        LexAppend(r, b);
        AppendOther(a, b);
      }
    }
  }

  // ------------------------------------------------------------------- raw fragments

  predicate Unmarked(s: string) { forall k :: 0 <= k < |s| ==> s[k] != '?' && s[k] != '$' }

  /** `--` and the opening of a block comment. */
  predicate OpensComment(c: char, r: string) { r != "" && ((c == '-' && r[0] == '-') || (c == '/' && r[0] == '*')) }

  /** A raw fragment whose every `?` is a parameter mark of its own: no comment, no `$`,
      quotes closed, no word that changes how a string is quoted, and no `?` inside
      quotes or touching a word. */
  predicate Clean(s: string)
    decreases |s|
  {
    if s == "" then true
    else
      var c, r := s[0], s[1..];
      if IsSpace(c) then Clean(r)
      else if IsWordStart(c) || IsDigit(c) then
        var k := WordRun(r);
        Unmarked(r[..k]) && (k < |r| ==> r[k] != '?' && r[k] != '\'') && Clean(r[k..])
      else if c == '$' then false
      else if IsQuote(c) then
        var k := Closing(r, c);
        k < |r| && Unmarked(r[..k]) && Clean(r[k + 1..])
      else if c == '?' then !StartsWithWordChar(r) && Clean(r)
      else !OpensComment(c, r) && Clean(r)
  }

  /** The i-th mark becomes placeholder next + i. */
  function Number(toks: seq<Tok>, next: nat): seq<Tok> {
    if toks == [] then []
    else if toks[0].Mark? then [Param(next)] + Number(toks[1..], next + 1)
    else [toks[0]] + Number(toks[1..], next)
  }

  lemma NumberFirst(t: Tok, toks: seq<Tok>, next: nat)
    ensures Number([t] + toks, next) == if t.Mark? then [Param(next)] + Number(toks, next + 1)
            else [t] + Number(toks, next)
  {
    assert ([t] + toks)[1..] == toks;
  }

  lemma {:induction false} RebaseUnmarked(a: string, b: string, next: nat)
    requires Unmarked(a)
    ensures Rebase(a + b, next) == a + Rebase(b, next)
  {
    if a == "" {
      assert a + b == b;
    } else {
      assert (a + b)[1..] == a[1..] + b;
      RebaseUnmarked(a[1..], b, next);
      assert a == [a[0]] + a[1..];
    }
  }

  /** Rebased, a run of unmarked text is copied and the rest is rebased. */
  lemma RebaseSplit(s: string, k: nat, next: nat)
    requires k <= |s| && Unmarked(s[..k])
    ensures Rebase(s, next) == s[..k] + Rebase(s[k..], next)
  {
    assert s == s[..k] + s[k..];
    RebaseUnmarked(s[..k], s[k..], next);
  }

  ghost predicate Rebased(s: string, next: nat) {
    Lex(Rebase(s, next)) == Number(Lex(s), next) && QuotesClosed(Rebase(s, next))
  }

  lemma RebasedWord(s: string, next: nat)
    requires s != "" && (IsWordStart(s[0]) || IsDigit(s[0])) && Clean(s)
    requires Rebased(s[1..][WordRun(s[1..])..], next)
    ensures Rebased(s, next)
  {
    var c, r := s[0], s[1..];
    var k := WordRun(r);
    var t := Rebase(r[k..], next);
    RebaseSplit(r, k, next);
    assert Rebase(s, next) == [c] + (r[..k] + t);
    assert (Rebase(s, next))[1..] == r[..k] + t;
    WordRunIs(r[..k], t);
    assert (r[..k] + t)[..k] == r[..k] && (r[..k] + t)[k..] == t;
    NumberFirst(Word([c] + r[..k]), Lex(r[k..]), next);
  }

  /** Rebased, a quoted piece keeps its text. */
  lemma RebaseQuoted(s: string, next: nat)
    requires s != "" && IsQuote(s[0]) && Clean(s)
    ensures var k := Closing(s[1..], s[0]);
            && k < |s[1..]| && s == [s[0]] + (s[1..][..k] + [s[0]] + s[1..][k + 1..])
            && Rebase(s, next) == [s[0]] + (s[1..][..k] + [s[0]] + Rebase(s[1..][k + 1..], next))
  {
    hide Lex, QuotesClosed, Number;
    var c, r := s[0], s[1..];
    var k := Closing(r, c);
    assert r[..k + 1] == r[..k] + [c];
    assert Unmarked(r[..k + 1]);
    RebaseSplit(r, k + 1, next);
    QuotePieces(s);
  }

  lemma RebasedQuote(s: string, next: nat)
    requires s != "" && IsQuote(s[0]) && Clean(s)
    requires Rebased(s[1..][Closing(s[1..], s[0]) + 1..], next)
    ensures Rebased(s, next)
  {
    hide Lex, QuotesClosed, Number, Rebase, Clean, Closing;
    var c, r := s[0], s[1..];
    RebaseQuoted(s, next);
    var k := Closing(r, c);
    var body, rest := r[..k], r[k + 1..];
    assert forall i :: 0 <= i < |body| ==> body[i] == r[i];
    LexQuoted(c, body, Rebase(rest, next));
    LexQuoted(c, body, rest);
    NumberFirst(Quoted([c] + body), Lex(rest), next);
  }

  lemma ClosedPh(n: nat, rest: string)
    requires !StartsWithDigit(rest)
    ensures QuotesClosed(Ph(n) + rest) == QuotesClosed(rest)
  {
    DecimalValue(n);
    var r := Decimal(n) + rest;
    assert (Ph(n) + rest)[1..] == r;
    DigitRunIs(Decimal(n), rest);
    assert r[|Decimal(n)|..] == rest;
  }

  lemma RebasedMark(s: string, next: nat)
    requires s != "" && s[0] == '?' && Clean(s) && Rebased(s[1..], next + 1)
    ensures Rebased(s, next)
  {
    var t := Rebase(s[1..], next + 1);
    RebaseStart(s[1..], next + 1);
    LexPh(next, t);
    ClosedPh(next, t);
    NumberFirst(Mark, Lex(s[1..]), next);
  }

  lemma RebasedOther(s: string, next: nat)
    requires s != "" && !IsWordStart(s[0]) && !IsDigit(s[0]) && !IsQuote(s[0]) && s[0] != '?' && Clean(s)
    requires Rebased(s[1..], next)
    ensures Rebased(s, next)
  {
    var c, r := s[0], s[1..];
    assert Rebase(s, next)[1..] == Rebase(r, next);
    if !IsSpace(c) { NumberFirst(Sym(c), Lex(r), next); }
  }

  lemma {:induction false} CleanRebases(s: string, next: nat)
    requires Clean(s)
    ensures Rebased(s, next)
    decreases |s|
  {
    hide Lex, QuotesClosed, Number, Rebase;
    if s == "" {
      NothingToRebase(next);
    } else {
      var c, r := s[0], s[1..];
      if IsWordStart(c) || IsDigit(c) {
        CleanRebases(r[WordRun(r)..], next);
        RebasedWord(s, next);
      } else if IsQuote(c) {
        CleanRebases(r[Closing(r, c) + 1..], next);
        RebasedQuote(s, next);
      } else if c == '?' {
        CleanRebases(r, next + 1);
        RebasedMark(s, next);
      } else {
        CleanRebases(r, next);
        RebasedOther(s, next);
      }
    }
  }

  lemma NothingToRebase(next: nat)
    ensures Rebased("", next)
  {
  }

  /** The tokens of a fragment with its own parameters put in for the marks. */
  function Fill(toks: seq<Tok>, ps: seq<Value>): seq<Item> {
    if toks == [] then []
    else if toks[0].Mark? then [if ps == [] then Hole else V(ps[0])] + Fill(toks[1..], if ps == [] then [] else ps[1..])
    else [Bind(toks[0], [])] + Fill(toks[1..], ps)
  }

  predicate NoParams(toks: seq<Tok>) { forall k :: 0 <= k < |toks| ==> !toks[k].Param? }

  function MarkCount(toks: seq<Tok>): nat {
    if toks == [] then 0 else (if toks[0].Mark? then 1 else 0) + MarkCount(toks[1..])
  }

  lemma ResolveFirst(t: Tok, toks: seq<Tok>, params: seq<Value>)
    ensures Resolve([t] + toks, params) == [Bind(t, params)] + Resolve(toks, params)
  {
  }

  /** Numbered marks and the parameters they were pushed with say the same. */
  lemma {:induction false} NumberedMeansFilled(toks: seq<Tok>, ps: seq<Value>, next: nat, params: seq<Value>)
    requires NoParams(toks) && MarkCount(toks) == |ps| && next >= 1
    requires next - 1 + |ps| <= |params| && params[next - 1..next - 1 + |ps|] == ps
    ensures Resolve(Number(toks, next), params) == Fill(toks, ps)
  {
    if toks != [] {
      var rest := toks[1..];
      if toks[0].Mark? {
        assert params[next - 1] == params[next - 1..next - 1 + |ps|][0];
        assert params[next..next + |ps| - 1] == params[next - 1..next - 1 + |ps|][1..];
        NumberedMeansFilled(rest, ps[1..], next + 1, params);
        ResolveFirst(Param(next), Number(rest, next + 1), params);
      } else {
        NumberedMeansFilled(rest, ps, next, params);
        ResolveFirst(toks[0], Number(rest, next), params);
      }
    }
  }

  /** In a clean fragment the `?` characters are exactly the mark tokens. */
  lemma {:induction false} CleanMarks(s: string)
    requires Clean(s)
    ensures MarkCount(Lex(s)) == Marks(s) && NoParams(Lex(s))
    decreases |s|
  {
    if s != "" {
      var c, r := s[0], s[1..];
      if IsWordStart(c) || IsDigit(c) {
        var k := WordRun(r);
        CleanMarks(r[k..]);
        UnmarkedCounts(r, k);
      } else if IsQuote(c) {
        var k := Closing(r, c);
        CleanMarks(r[k + 1..]);
        assert Unmarked(r[..k + 1]);
        UnmarkedCounts(r, k + 1);
      } else {
        CleanMarks(r);
      }
    }
  }

  lemma {:induction false} UnmarkedCounts(r: string, k: nat)
    requires k <= |r| && Unmarked(r[..k])
    ensures Marks(r) == Marks(r[k..])
  {
    if k > 0 {
      assert r[0] == r[..k][0];
      assert r[1..][..k - 1] == r[..k][1..];
      UnmarkedCounts(r[1..], k - 1);
      assert r[1..][k - 1..] == r[k..];
    }
  }

  // -------------------------------------------------------------- text from a template

  /** Text the builder itself writes, piece by piece. */
  datatype Template =
    | End
    | Space(tail: Template)
    | Name(w: string, tail: Template)
    | Symbol(c: char, tail: Template)
    | Slot(n: nat, tail: Template)
    | Literal(body: string, tail: Template)

  function Written(t: Template): string {
    match t
    case End => ""
    case Space(tail) => " " + Written(tail)
    case Name(w, tail) => w + Written(tail)
    case Symbol(c, tail) => [c] + Written(tail)
    case Slot(n, tail) => Ph(n) + Written(tail)
    case Literal(body, tail) => "'" + (body + "'" + Written(tail))
  }

  function Tokens(t: Template): seq<Tok> {
    match t
    case End => []
    case Space(tail) => Tokens(tail)
    case Name(w, tail) => [Word(w)] + Tokens(tail)
    case Symbol(c, tail) => [Sym(c)] + Tokens(tail)
    case Slot(n, tail) => [Param(n)] + Tokens(tail)
    case Literal(body, tail) => [Quoted("'" + body)] + Tokens(tail)
  }

  /** No two pieces run into each other. */
  predicate WellSpaced(t: Template) {
    match t
    case End => true
    case Space(tail) => WellSpaced(tail)
    case Name(w, tail) => IsWord(w) && !tail.Name? && !tail.Slot? && WellSpaced(tail)
    case Symbol(c, tail) => IsSymbol(c) && WellSpaced(tail)
    case Slot(_, tail) => !tail.Name? && !tail.Slot? && WellSpaced(tail)
    case Literal(body, tail) => (forall k :: 0 <= k < |body| ==> body[k] != '\'') && WellSpaced(tail)
  }

  lemma ClosedWord(w: string, rest: string)
    requires IsWord(w) && !StartsWithWordChar(rest)
    ensures QuotesClosed(w + rest) == QuotesClosed(rest)
  {
    var r := w[1..] + rest;
    assert (w + rest)[1..] == r;
    WordRunIs(w[1..], rest);
    assert r[|w| - 1..] == rest;
  }

  lemma ClosedChar(c: char, rest: string)
    requires IsSymbol(c) || IsSpace(c)
    ensures QuotesClosed([c] + rest) == QuotesClosed(rest)
  {
    assert ([c] + rest)[1..] == rest;
  }

  lemma {:induction false} WrittenLexes(t: Template)
    requires WellSpaced(t)
    ensures Lex(Written(t)) == Tokens(t) && QuotesClosed(Written(t))
  {
    match t
    case End =>
    case Space(tail) =>
      WrittenLexes(tail);
      LexSpace(Written(tail));
      ClosedChar(' ', Written(tail));
    case Name(w, tail) =>
      WrittenLexes(tail);
      TailStarts(tail);
      LexWord(w, Written(tail));
      ClosedWord(w, Written(tail));
    case Symbol(c, tail) =>
      WrittenLexes(tail);
      LexSymbol(c, Written(tail));
      ClosedChar(c, Written(tail));
    case Slot(n, tail) =>
      WrittenLexes(tail);
      TailStarts(tail);
      LexPh(n, Written(tail));
      ClosedPh(n, Written(tail));
    case Literal(body, tail) =>
      WrittenLexes(tail);
      LexQuoted('\'', body, Written(tail));
  }

  lemma TailStarts(t: Template)
    requires WellSpaced(t) && !t.Name? && !t.Slot?
    ensures !StartsWithWordChar(Written(t)) && !StartsWithDigit(Written(t))
  {
  }
}
