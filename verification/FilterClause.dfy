/** One filter operator rendered as SQL, and what it means. Both renderers use it: the
    read side pushes a bare `$n`, the write side `$n::TYPE` or `$n::TYPE[]`. */
module FilterClause {
  import opened SqlText
  import opened SqlLogic
  import opened SqlLexing
  import opened FilterKeys

  datatype Cast = NoCast | Cast(typeName: string, dims: nat)

  function Brackets(dims: nat): string { if dims == 0 then "" else "[]" + Brackets(dims - 1) }

  function CastText(c: Cast): string {
    match c case NoCast => "" case Cast(t, dims) => "::" + t + Brackets(dims)
  }

  /** What pushParam returns for the n-th parameter. */
  function Placeholder(n: nat, c: Cast): string { Ph(n) + CastText(c) }

  function JoinCommas(parts: seq<string>): string {
    if parts == [] then "" else if |parts| == 1 then parts[0] else parts[0] + "," + JoinCommas(parts[1..])
  }

  /** String(value) */
  function TextOf(v: Value): string
    decreases v, 0
  {
    match v
    case Null => "null"
    case Bool(b) => if b then "true" else "false"
    case Num(n) => if n < 0 then "-" + Decimal(-n) else Decimal(n)
    case Text(s) => s
    case List(es) => JoinCommas(TextsOf(es))
  }

  function TextsOf(es: seq<Value>): seq<string>
    decreases es, 1
  {
    if es == [] then [] else [if es[0].Null? then "" else TextOf(es[0])] + TextsOf(es[1..])
  }

  function Pattern(v: Value): Value { Text("%" + TextOf(v) + "%") }

  /** The value pushed for this operator, if any. */
  function Pushed(op: Op, value: Value): seq<Value> {
    match op
    case Eq => if value.Null? then [] else [value]
    case Contains => [Pattern(value)]
    case IsNull => []
    case IsNotNull => []
    case _ => [value]
  }

  /** `ph` is what pushParam returns when it is called. */
  function BuildFilterClause(column: string, op: Op, value: Value, ph: string): string {
    match op
    case Eq => if value.Null? then column + " IS NULL" else column + " = " + ph
    case Contains => column + " ILIKE " + ph
    case In => column + " = ANY(" + ph + ")"
    case NotIn => "(" + column + " <> ALL(" + ph + ") OR " + column + " IS NULL)"
    case Gt => column + " > " + ph
    case Gte => column + " >= " + ph
    case Lt => column + " < " + ph
    case Lte => column + " <= " + ph
    case IsNull => if value == Bool(false) then column + " IS NOT NULL" else column + " IS NULL"
    case IsNotNull => if value == Bool(false) then column + " IS NULL" else column + " IS NOT NULL"
  }

  // --------------------------------------------------------------- what it should mean

  /** Membership in a list that may contain NULL, unknown when only NULL could decide. */
  function Membership(v: Value, list: Value): Truth {
    if !list.List? then Unknown
    else if list.elems == [] then False
    else if v.Null? then Unknown
    else if v in list.elems then True
    else if Null in list.elems then Unknown
    else False
  }

  /** notIn accepts a NULL column. */
  function NonMembership(v: Value, list: Value): Truth {
    if v.Null? then True
    else if !list.List? then Unknown
    else if v in list.elems then False
    else if Null in list.elems then Unknown
    else True
  }

  function Denotes(env: Env, v: Value, op: Op, value: Value): Truth {
    match op
    case Eq => if value.Null? then Holds(v.Null?) else if v.Null? then Unknown else Holds(v == value)
    case Contains => if v.Null? then Unknown else Holds(env.ilike(v, Pattern(value)))
    case In => Membership(v, value)
    case NotIn => NonMembership(v, value)
    case Gt => if v.Null? || value.Null? then Unknown else Holds(env.less(value, v))
    case Gte => if v.Null? || value.Null? then Unknown else Holds(env.less(value, v) || v == value)
    case Lt => if v.Null? || value.Null? then Unknown else Holds(env.less(v, value))
    case Lte => if v.Null? || value.Null? then Unknown else Holds(env.less(v, value) || v == value)
    case IsNull => Holds(v.Null? == (value != Bool(false)))
    case IsNotNull => Holds(v.Null? == (value == Bool(false)))
  }

  lemma {:induction false} AnyIsMembership(v: Value, es: seq<Value>)
    ensures AnyEqual(v, es) == Membership(v, List(es))
  {
    if es != [] { AnyIsMembership(v, es[1..]); }
  }

  lemma {:induction false} AllIsNonMembership(v: Value, es: seq<Value>)
    ensures Or3(AllDiffer(v, es), Holds(v.Null?)) == NonMembership(v, List(es))
    ensures !v.Null? ==> AllDiffer(v, es) == NonMembership(v, List(es))
  {
    if es != [] { AllIsNonMembership(v, es[1..]); }
  }

  // ---------------------------------------------------------------------- its tokens

  /** A column reference that is not taken for an operator. */
  predicate IsColumn(c: string) { IsWord(c) && RoleOfWord(c) == Plainly }

  predicate CastOk(c: Cast) { c.Cast? ==> IsWord(c.typeName) && RoleOfWord(c.typeName) == Plainly }

  function BracketsT(dims: nat, tail: Template): Template {
    if dims == 0 then tail else Symbol('[', Symbol(']', BracketsT(dims - 1, tail)))
  }

  function PlaceholderT(n: nat, c: Cast, tail: Template): Template {
    Slot(n, match c case NoCast => tail case Cast(t, dims) => Symbol(':', Symbol(':', Name(t, BracketsT(dims, tail)))))
  }

  function IsNullT(tail: Template): Template { Name("IS", Space(Name("NULL", tail))) }

  function IsNotNullT(tail: Template): Template { Name("IS", Space(Name("NOT", Space(Name("NULL", tail))))) }

  /** The clause as the pieces it is written from. */
  function ClauseT(column: string, op: Op, value: Value, n: nat, c: Cast): Template {
    var ph := PlaceholderT(n, c, End);
    match op
    case Eq => Name(column, Space(if value.Null? then IsNullT(End) else Symbol('=', Space(ph))))
    case Contains => Name(column, Space(Name("ILIKE", Space(ph))))
    case In => Name(column, Space(Symbol('=', Space(Name("ANY", Symbol('(', PlaceholderT(n, c, Symbol(')', End))))))))
    case NotIn =>
      var all := Name("ALL", Symbol('(', PlaceholderT(n, c, NotInTailT(column))));
      Symbol('(', Name(column, Space(Symbol('<', Symbol('>', Space(all))))))
    case Gt => Name(column, Space(Symbol('>', Space(ph))))
    case Gte => Name(column, Space(Symbol('>', Symbol('=', Space(ph)))))
    case Lt => Name(column, Space(Symbol('<', Space(ph))))
    case Lte => Name(column, Space(Symbol('<', Symbol('=', Space(ph)))))
    case IsNull => Name(column, Space(if value == Bool(false) then IsNotNullT(End) else IsNullT(End)))
    case IsNotNull => Name(column, Space(if value == Bool(false) then IsNullT(End) else IsNotNullT(End)))
  }

  function NotInTailT(column: string): Template {
    Symbol(')', Space(Name("OR", Space(Name(column, Space(IsNullT(Symbol(')', End))))))))
  }

  lemma BracketPair(more: string, rest: string)
    ensures "[]" + more + rest == "[" + ("]" + (more + rest))
  {
  }

  lemma {:induction false} BracketsWritten(dims: nat, tail: Template)
    ensures Written(BracketsT(dims, tail)) == Brackets(dims) + Written(tail)
  {
    if dims > 0 {
      BracketsWritten(dims - 1, tail);
      var more := BracketsT(dims - 1, tail);
      BracketPair(Brackets(dims - 1), Written(tail));
      assert Written(Symbol(']', more)) == "]" + Written(more);
    }
  }

  lemma {:induction false} BracketsSpaced(dims: nat, tail: Template)
    ensures WellSpaced(tail) ==> WellSpaced(BracketsT(dims, tail))
    ensures !tail.Name? && !tail.Slot? ==> !BracketsT(dims, tail).Name? && !BracketsT(dims, tail).Slot?
  {
    if dims > 0 {
      BracketsSpaced(dims - 1, tail);
      var more := BracketsT(dims - 1, tail);
      assert WellSpaced(more) ==> WellSpaced(Symbol(']', more));
    }
  }

  lemma CastPieces(ph: string, t: string, dims: string, rest: string)
    ensures ph + ("::" + t + dims) + rest == ph + (":" + (":" + (t + (dims + rest))))
    ensures ph + "" + rest == ph + rest
  {
  }

  lemma PlaceholderWritten(n: nat, c: Cast, tail: Template)
    ensures Written(PlaceholderT(n, c, tail)) == Placeholder(n, c) + Written(tail)
  {
    hide Ph, Brackets, BracketsT;
    if c.Cast? {
      BracketsWritten(c.dims, tail);
      var b := BracketsT(c.dims, tail);
      CastPieces(Ph(n), c.typeName, Brackets(c.dims), Written(tail));
      WrittenName(c.typeName, b);
      WrittenSymbol(':', Name(c.typeName, b));
    } else {
      CastPieces(Ph(n), "", "", Written(tail));
    }
  }

  lemma PlaceholderSpaced(n: nat, c: Cast, tail: Template)
    requires CastOk(c) && WellSpaced(tail) && !tail.Name? && !tail.Slot?
    ensures WellSpaced(PlaceholderT(n, c, tail))
  {
    if c.Cast? {
      BracketsSpaced(c.dims, tail);
      var b := Name(c.typeName, BracketsT(c.dims, tail));
      assert WellSpaced(b);
      assert WellSpaced(Symbol(':', b));
    }
  }

  lemma NullTexts(x: string)
    ensures "IS" + (" " + ("NULL" + x)) == "IS NULL" + x
    ensures "IS" + (" " + ("NOT" + (" " + ("NULL" + x)))) == "IS NOT NULL" + x
  {
  }

  lemma NullTestWritten(tail: Template)
    ensures Written(IsNullT(tail)) == "IS NULL" + Written(tail)
    ensures Written(IsNotNullT(tail)) == "IS NOT NULL" + Written(tail)
  {
    NullTexts(Written(tail));
    var t1 := Name("NULL", tail);
    assert Written(Space(t1)) == " " + ("NULL" + Written(tail));
    var t2 := Name("NOT", Space(t1));
    assert Written(t2) == "NOT" + Written(Space(t1));
    assert Written(Space(t2)) == " " + Written(t2);
  }

  lemma NullTestSpaced(tail: Template)
    requires WellSpaced(tail) && !tail.Name? && !tail.Slot?
    ensures WellSpaced(IsNullT(tail)) && WellSpaced(IsNotNullT(tail))
  {
    var t1 := Name("NULL", tail);
    assert WellSpaced(Space(t1));
    var t2 := Name("NOT", Space(t1));
    assert WellSpaced(t2);
    assert WellSpaced(Space(t2));
  }

  lemma NotInTailText(column: string)
    ensures ")" + (" " + ("OR" + (" " + (column + (" " + "IS NULL)"))))) == ") OR " + column + " IS NULL)"
  {
  }

  lemma NotInTailWritten(column: string)
    ensures Written(NotInTailT(column)) == ") OR " + column + " IS NULL)"
  {
    NullTestWritten(Symbol(')', End));
    assert Written(Symbol(')', End)) == ")";
    var t1 := IsNullT(Symbol(')', End));
    var t2 := Name(column, Space(t1));
    assert Written(Space(t1)) == " " + Written(t1);
    assert Written(t2) == column + (" " + "IS NULL)");
    var t3 := Name("OR", Space(t2));
    assert Written(Space(t2)) == " " + Written(t2);
    assert Written(t3) == "OR" + (" " + (column + (" " + "IS NULL)")));
    assert Written(Space(t3)) == " " + Written(t3);
    NotInTailText(column);
  }

  lemma NotInTailSpaced(column: string)
    requires IsColumn(column)
    ensures WellSpaced(NotInTailT(column))
  {
    NullTestSpaced(Symbol(')', End));
    var t1 := IsNullT(Symbol(')', End));
    assert WellSpaced(Space(t1));
    var t2 := Name(column, Space(t1));
    assert WellSpaced(t2);
    assert WellSpaced(Space(t2));
    var t3 := Name("OR", Space(t2));
    assert WellSpaced(t3);
    assert WellSpaced(Space(t3));
  }

  // ------------------------------------------------------------- the clause as written

  lemma ClauseTexts(column: string, ph: string)
    ensures column + (" " + "IS NULL") == column + " IS NULL"
    ensures column + (" " + "IS NOT NULL") == column + " IS NOT NULL"
    ensures column + (" " + ("=" + (" " + ph))) == column + " = " + ph
    ensures column + (" " + ("ILIKE" + (" " + ph))) == column + " ILIKE " + ph
    ensures column + (" " + (">" + (" " + ph))) == column + " > " + ph
    ensures column + (" " + ("<" + (" " + ph))) == column + " < " + ph
    ensures column + (" " + (">" + ("=" + (" " + ph)))) == column + " >= " + ph
    ensures column + (" " + ("<" + ("=" + (" " + ph)))) == column + " <= " + ph
    ensures column + (" " + ("=" + (" " + ("ANY" + ("(" + (ph + ")")))))) == column + " = ANY(" + ph + ")"
  {
  }

  lemma NotInText(column: string, ph: string, tail: string)
    ensures "(" + (column + (" " + ("<" + (">" + (" " + ("ALL" + ("(" + (ph + tail))))))))
            == "(" + column + " <> ALL(" + ph + tail
  {
  }

  lemma WrittenSpace(t: Template)
    ensures Written(Space(t)) == " " + Written(t)
  {
  }

  lemma WrittenSymbol(c: char, t: Template)
    ensures Written(Symbol(c, t)) == [c] + Written(t)
  {
  }

  lemma WrittenName(w: string, t: Template)
    ensures Written(Name(w, t)) == w + Written(t)
  {
  }

  lemma {:induction false} ClauseWritten(column: string, op: Op, value: Value, n: nat, c: Cast)
    requires IsColumn(column) && CastOk(c)
    ensures Written(ClauseT(column, op, value, n, c)) == BuildFilterClause(column, op, value, Placeholder(n, c))
  {
    hide PlaceholderT, Placeholder, IsNullT, IsNotNullT, IsColumn, CastOk, NotInTailT;
    var ph := PlaceholderT(n, c, End);
    var p := Placeholder(n, c);
    PlaceholderWritten(n, c, End);
    assert p + "" == p;
    NullTestWritten(End);
    assert "IS NULL" + "" == "IS NULL" && "IS NOT NULL" + "" == "IS NOT NULL";
    ClauseTexts(column, p);
    WrittenSpace(ph);
    match op
    case Eq => WrittenSpace(IsNullT(End)); WrittenSymbol('=', Space(ph)); WrittenSpace(Symbol('=', Space(ph)));
    case Contains => WrittenName("ILIKE", Space(ph)); WrittenSpace(Name("ILIKE", Space(ph)));
    case In => InWritten(column, n, c);
    case NotIn => NotInWritten(column, n, c);
    case Gt => WrittenSymbol('>', Space(ph)); WrittenSpace(Symbol('>', Space(ph)));
    case Gte =>
      var e := Symbol('=', Space(ph));
      WrittenSymbol('=', Space(ph)); WrittenSymbol('>', e); WrittenSpace(Symbol('>', e));
    case Lt => WrittenSymbol('<', Space(ph)); WrittenSpace(Symbol('<', Space(ph)));
    case Lte =>
      var e := Symbol('=', Space(ph));
      WrittenSymbol('=', Space(ph)); WrittenSymbol('<', e); WrittenSpace(Symbol('<', e));
    case IsNull => WrittenSpace(IsNullT(End)); WrittenSpace(IsNotNullT(End));
    case IsNotNull => WrittenSpace(IsNullT(End)); WrittenSpace(IsNotNullT(End));
  }

  lemma InWritten(column: string, n: nat, c: Cast)
    ensures Written(ClauseT(column, In, Null, n, c)) == column + " = ANY(" + Placeholder(n, c) + ")"
  {
    hide PlaceholderT, Placeholder;
    var q := PlaceholderT(n, c, Symbol(')', End));
    PlaceholderWritten(n, c, Symbol(')', End));
    assert Written(Symbol(')', End)) == ")";
    WrittenSymbol('(', q);
    var a := Name("ANY", Symbol('(', q));
    WrittenName("ANY", Symbol('(', q));
    WrittenSpace(a);
    WrittenSymbol('=', Space(a));
    WrittenSpace(Symbol('=', Space(a)));
    WrittenName(column, Space(Symbol('=', Space(a))));
    ClauseTexts(column, Placeholder(n, c));
  }

  lemma NotInWritten(column: string, n: nat, c: Cast)
    requires IsColumn(column) && CastOk(c)
    ensures Written(ClauseT(column, NotIn, Null, n, c))
            == "(" + column + " <> ALL(" + Placeholder(n, c) + ") OR " + column + " IS NULL)"
  {
    hide PlaceholderT, Placeholder, IsColumn, CastOk, NotInTailT;
    var tail := NotInTailT(column);
    NotInTailWritten(column);
    var q := PlaceholderT(n, c, tail);
    PlaceholderWritten(n, c, tail);
    WrittenSymbol('(', q);
    var a := Name("ALL", Symbol('(', q));
    WrittenName("ALL", Symbol('(', q));
    WrittenSpace(a);
    WrittenSymbol('>', Space(a));
    WrittenSymbol('<', Symbol('>', Space(a)));
    WrittenSpace(Symbol('<', Symbol('>', Space(a))));
    WrittenName(column, Space(Symbol('<', Symbol('>', Space(a)))));
    NotInText(column, Placeholder(n, c), Written(tail));
    assert "(" + column + " <> ALL(" + Placeholder(n, c) + (") OR " + column + " IS NULL)")
        == "(" + column + " <> ALL(" + Placeholder(n, c) + ") OR " + column + " IS NULL)";
  }

  lemma InSpaced(column: string, n: nat, c: Cast)
    requires IsColumn(column) && CastOk(c)
    ensures WellSpaced(ClauseT(column, In, Null, n, c))
  {
    hide PlaceholderT, IsNullT, IsNotNullT, NotInTailT;
    var q := PlaceholderT(n, c, Symbol(')', End));
    PlaceholderSpaced(n, c, Symbol(')', End));
    var a := Name("ANY", Symbol('(', q));
    assert WellSpaced(a);
    AfterSymbolSpaced('=', a);
    AfterColumnSpaced(column, Symbol('=', Space(a)));
  }

  lemma NotInSpaced(column: string, n: nat, c: Cast)
    requires IsColumn(column) && CastOk(c)
    ensures WellSpaced(ClauseT(column, NotIn, Null, n, c))
  {
    hide PlaceholderT, IsNullT, IsNotNullT;
    NotInTailSpaced(column);
    var q := PlaceholderT(n, c, NotInTailT(column));
    PlaceholderSpaced(n, c, NotInTailT(column));
    var a := Name("ALL", Symbol('(', q));
    assert WellSpaced(a);
    AfterSymbolSpaced('>', a);
    var b := Symbol('<', Symbol('>', Space(a)));
    assert WellSpaced(b);
    AfterColumnSpaced(column, b);
  }

  lemma AfterColumnSpaced(column: string, t: Template)
    requires IsColumn(column) && WellSpaced(t)
    ensures WellSpaced(Name(column, Space(t)))
  {
    assert WellSpaced(Space(t));
  }

  lemma AfterSymbolSpaced(c: char, t: Template)
    requires (c == '=' || c == '<' || c == '>') && WellSpaced(t)
    ensures WellSpaced(Symbol(c, Space(t))) && WellSpaced(Symbol(c, Symbol('=', Space(t))))
  {
    assert WellSpaced(Space(t));
    assert WellSpaced(Symbol('=', Space(t)));
  }

  lemma CompareSpaced(column: string, op: Op, value: Value, n: nat, c: Cast)
    requires IsColumn(column) && CastOk(c) && (op.Gt? || op.Gte? || op.Lt? || op.Lte?)
    ensures WellSpaced(ClauseT(column, op, value, n, c))
  {
    var ph := PlaceholderT(n, c, End);
    PlaceholderSpaced(n, c, End);
    var sym := if op.Gt? || op.Gte? then '>' else '<';
    AfterSymbolSpaced(sym, ph);
    AfterColumnSpaced(column, if op.Gt? || op.Lt? then Symbol(sym, Space(ph)) else Symbol(sym, Symbol('=', Space(ph))));
  }

  lemma NullClauseSpaced(column: string, op: Op, value: Value, n: nat, c: Cast)
    requires IsColumn(column) && CastOk(c) && (op.IsNull? || op.IsNotNull?)
    ensures WellSpaced(ClauseT(column, op, value, n, c))
  {
    NullTestSpaced(End);
    AfterColumnSpaced(column, IsNullT(End));
    AfterColumnSpaced(column, IsNotNullT(End));
  }

  lemma EqSpaced(column: string, value: Value, n: nat, c: Cast)
    requires IsColumn(column) && CastOk(c)
    ensures WellSpaced(ClauseT(column, Eq, value, n, c)) && WellSpaced(ClauseT(column, Contains, value, n, c))
  {
    hide PlaceholderT, IsNullT, IsNotNullT, NotInTailT;
    var ph := PlaceholderT(n, c, End);
    PlaceholderSpaced(n, c, End);
    NullTestSpaced(End);
    AfterSymbolSpaced('=', ph);
    AfterColumnSpaced(column, if value.Null? then IsNullT(End) else Symbol('=', Space(ph)));
    assert WellSpaced(Space(ph));
    AfterColumnSpaced(column, Name("ILIKE", Space(ph)));
  }

  lemma ClauseSpaced(column: string, op: Op, value: Value, n: nat, c: Cast)
    requires IsColumn(column) && CastOk(c)
    ensures WellSpaced(ClauseT(column, op, value, n, c))
  {
    match op
    case Eq => EqSpaced(column, value, n, c);
    case Contains => EqSpaced(column, value, n, c);
    case In => InSpaced(column, n, c);
    case NotIn => NotInSpaced(column, n, c);
    case IsNull => NullClauseSpaced(column, op, value, n, c);
    case IsNotNull => NullClauseSpaced(column, op, value, n, c);
    case _ => CompareSpaced(column, op, value, n, c);
  }

  lemma ClauseLexes(column: string, op: Op, value: Value, n: nat, c: Cast)
    requires IsColumn(column) && CastOk(c)
    ensures var sql := BuildFilterClause(column, op, value, Placeholder(n, c));
            Lex(sql) == Tokens(ClauseT(column, op, value, n, c)) && QuotesClosed(sql)
  {
    ClauseWritten(column, op, value, n, c);
    ClauseSpaced(column, op, value, n, c);
    WrittenLexes(ClauseT(column, op, value, n, c));
  }
}
