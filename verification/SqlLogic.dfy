/** The meaning of a WHERE clause given as SQL text and parameters: a lexer, SQL's
    precedence (NOT over AND over OR) and three-valued logic. */
module SqlLogic {
  import opened SqlText

  // ----------------------------------------------------------- three-valued logic

  datatype Truth = True | False | Unknown

  function And3(a: Truth, b: Truth): Truth {
    if a == False || b == False then False else if a == True && b == True then True else Unknown
  }

  function Or3(a: Truth, b: Truth): Truth {
    if a == True || b == True then True else if a == False && b == False then False else Unknown
  }

  function Not3(a: Truth): Truth {
    match a case True => False case False => True case Unknown => Unknown
  }

  datatype Value = Null | Bool(b: bool) | Num(n: int) | Text(s: string) | List(elems: seq<Value>)

  /** A row and what this model leaves to the database: the order of a column type,
      pattern matching, and predicates other than the ones the builder emits. */
  datatype Env = Env(
    row: string -> Value,
    less: (Value, Value) -> bool,
    ilike: (Value, Value) -> bool,
    other: seq<Item> -> Truth)

  function Holds(b: bool): Truth { if b then True else False }

  function Equal3(a: Value, b: Value): Truth {
    if a.Null? || b.Null? then Unknown else Holds(a == b)
  }

  /** `a < b`, unknown when either side is NULL. */
  function Less3(env: Env, a: Value, b: Value): Truth {
    if a.Null? || b.Null? then Unknown else Holds(env.less(a, b))
  }

  function Like3(env: Env, a: Value, p: Value): Truth {
    if a.Null? || p.Null? then Unknown else Holds(env.ilike(a, p))
  }

  /** `a = ANY(elems)`: true if some comparison is, false if all are. */
  function AnyEqual(a: Value, elems: seq<Value>): Truth {
    if elems == [] then False else Or3(Equal3(a, elems[0]), AnyEqual(a, elems[1..]))
  }

  /** `a <> ALL(elems)`: false if some comparison is, true if all are. */
  function AllDiffer(a: Value, elems: seq<Value>): Truth {
    if elems == [] then True else And3(Not3(Equal3(a, elems[0])), AllDiffer(a, elems[1..]))
  }

  // ------------------------------------------------------------------------ tokens

  datatype Tok = Word(w: string) | Sym(c: char) | Param(n: nat) | Mark | Quoted(s: string)

  predicate IsSpace(c: char) { c == ' ' || c == '\n' || c == '\t' || c == '\r' }

  predicate IsWordStart(c: char) { 'a' <= c <= 'z' || 'A' <= c <= 'Z' || c == '_' }

  /** Characters that continue a word; Postgres lets an identifier contain `$`. */
  predicate IsWordChar(c: char) { IsWordStart(c) || IsDigit(c) || c == '$' || c == '.' }

  function WordRun(s: string): (k: nat)
    ensures k <= |s| && (k < |s| ==> !IsWordChar(s[k])) && forall i :: 0 <= i < k ==> IsWordChar(s[i])
  {
    if s != "" && IsWordChar(s[0]) then 1 + WordRun(s[1..]) else 0
  }

  predicate IsQuote(c: char) { c == '\'' || c == '"' }

  /** Position of the next `q`, or the length of the text. */
  function Closing(s: string, q: char): (k: nat)
    ensures k <= |s| && (k < |s| ==> s[k] == q) && forall i :: 0 <= i < k ==> s[i] != q
  {
    if s == "" || s[0] == q then 0 else 1 + Closing(s[1..], q)
  }

  function Lex(s: string): seq<Tok>
    decreases |s|
  {
    if s == "" then []
    else
      var c, r := s[0], s[1..];
      if IsSpace(c) then Lex(r)
      else if IsWordStart(c) || IsDigit(c) then [Word([c] + r[..WordRun(r)])] + Lex(r[WordRun(r)..])
      else if c == '$' && StartsWithDigit(r) then [Param(ValueOf(r[..DigitRun(r)]))] + Lex(r[DigitRun(r)..])
      else if IsQuote(c) then
        var k := Closing(r, c);
        [Quoted([c] + r[..k])] + Lex(r[if k < |r| then k + 1 else k..])
      else if c == '?' then [Mark] + Lex(r)
      else [Sym(c)] + Lex(r)
  }

  // --------------------------------------------------------- tokens with parameters

  /** A token after parameter substitution. */
  datatype Item = W(w: string) | S(c: char) | V(v: Value) | Q(s: string) | Hole

  function Bind(t: Tok, params: seq<Value>): Item {
    match t
    case Word(w) => W(w)
    case Sym(c) => S(c)
    case Param(n) => if 1 <= n <= |params| then V(params[n - 1]) else Hole
    case Mark => Hole
    case Quoted(s) => Q(s)
  }

  function Resolve(toks: seq<Tok>, params: seq<Value>): (r: seq<Item>)
    ensures |r| == |toks| && forall k :: 0 <= k < |r| ==> r[k] == Bind(toks[k], params)
  {
    seq(|toks|, k requires 0 <= k < |toks| => Bind(toks[k], params))
  }

  function UpperChar(c: char): char { if 'a' <= c <= 'z' then c - 32 as char else c }

  function Upper(s: string): string { seq(|s|, k requires 0 <= k < |s| => UpperChar(s[k])) }

  // -------------------------------------------------------------------- precedence

  /** What a token does to the structure of a condition. */
  datatype Role = Opens | Closes | IsAnd | IsOr | IsNot | IsBetween | Plainly

  function RoleOfWord(w: string): Role {
    var u := Upper(w);
    if u == "AND" then IsAnd
    else if u == "OR" then IsOr
    else if u == "NOT" then IsNot
    else if u == "BETWEEN" then IsBetween
    else if u == "CASE" then Opens
    else if u == "END" then Closes
    else Plainly
  }

  function RoleOf(i: Item): Role {
    match i
    case W(w) => RoleOfWord(w)
    case S(c) => if c == '(' then Opens else if c == ')' then Closes else Plainly
    case _ => Plainly
  }

  /** Depth in parentheses and CASE expressions, and how many BETWEENs at the outer level
      still wait for their AND. A depth below 0 closes what was never opened, and nothing
      after it mends that. */
  datatype At = At(depth: int, owed: nat)

  const TOP := At(0, 0)

  function Move(i: Item, at: At): At {
    if at.depth < 0 then at else
    match RoleOf(i)
    case Opens => At(at.depth + 1, at.owed)
    case Closes => At(at.depth - 1, at.owed)
    case IsBetween => if at.depth == 0 then At(0, at.owed + 1) else at
    case IsAnd => if at.depth == 0 && at.owed > 0 then At(0, at.owed - 1) else at
    case _ => at
  }

  /** Position of the first logical operator outside parentheses, or the length. */
  function FindTop(items: seq<Item>, role: Role, at: At): (k: nat)
    ensures k <= |items|
  {
    if items == [] then 0
    else if at == TOP && RoleOf(items[0]) == role then 0
    else 1 + FindTop(items[1..], role, Move(items[0], at))
  }

  function EndAt(items: seq<Item>, at: At): At {
    if items == [] then at else EndAt(items[1..], Move(items[0], at))
  }

  function Depth(i: Item): int { match RoleOf(i) case Opens => 1 case Closes => -1 case _ => 0 }

  /** The parenthesis opened at the start, at depth d, closes with the last item. */
  predicate ClosesLast(items: seq<Item>, d: int) {
    items != [] &&
    if |items| == 1 then d + Depth(items[0]) == 0
    else d + Depth(items[0]) != 0 && ClosesLast(items[1..], d + Depth(items[0]))
  }

  predicate Wrapped(items: seq<Item>) { |items| >= 2 && items[0] == S('(') && ClosesLast(items, 0) }

  function EvalOr(env: Env, items: seq<Item>): Truth
    decreases |items|, 3
  {
    var k := FindTop(items, IsOr, TOP);
    if k < |items| then Or3(EvalAnd(env, items[..k]), EvalOr(env, items[k + 1..])) else EvalAnd(env, items)
  }

  function EvalAnd(env: Env, items: seq<Item>): Truth
    decreases |items|, 2
  {
    var k := FindTop(items, IsAnd, TOP);
    if k < |items| then And3(EvalNot(env, items[..k]), EvalAnd(env, items[k + 1..])) else EvalNot(env, items)
  }

  function EvalNot(env: Env, items: seq<Item>): Truth
    decreases |items|, 1
  {
    if items != [] && RoleOf(items[0]) == IsNot then Not3(EvalNot(env, items[1..])) else EvalPrimary(env, items)
  }

  function EvalPrimary(env: Env, items: seq<Item>): Truth
    decreases |items|, 0
  {
    if Wrapped(items) then EvalOr(env, items[1..|items| - 1]) else Atom(env, items)
  }

  function SkipDims(items: seq<Item>): (r: seq<Item>)
    ensures |r| <= |items|
  {
    if |items| >= 2 && items[0] == S('[') && items[1] == S(']') then SkipDims(items[2..]) else items
  }

  /** Casts after a parameter, `::TYPE` or `::TYPE[]`, do not change its value here. */
  function DropCasts(items: seq<Item>): seq<Item>
    decreases |items|
  {
    if items == [] then []
    else if |items| >= 4 && items[0].V? && items[1] == S(':') && items[2] == S(':') && items[3].W?
    then [items[0]] + DropCasts(SkipDims(items[4..]))
    else [items[0]] + DropCasts(items[1..])
  }

  /** The predicates the builder emits; any other is the database's business. ANY and
      ALL over something that is not a list are an error there, unknown here. */
  function Atom(env: Env, items: seq<Item>): Truth {
    var p := DropCasts(items);
    if |p| == 3 && p[0].W? && p[1] == S('=') && p[2].V? then Equal3(env.row(p[0].w), p[2].v)
    else if |p| == 3 && p[0].W? && p[1] == W("ILIKE") && p[2].V? then Like3(env, env.row(p[0].w), p[2].v)
    else if |p| == 3 && p[0].W? && p[1] == S('>') && p[2].V? then Less3(env, p[2].v, env.row(p[0].w))
    else if |p| == 3 && p[0].W? && p[1] == S('<') && p[2].V? then Less3(env, env.row(p[0].w), p[2].v)
    else if |p| == 4 && p[0].W? && p[1] == S('>') && p[2] == S('=') && p[3].V? then
      Or3(Less3(env, p[3].v, env.row(p[0].w)), Equal3(env.row(p[0].w), p[3].v))
    else if |p| == 4 && p[0].W? && p[1] == S('<') && p[2] == S('=') && p[3].V? then
      Or3(Less3(env, env.row(p[0].w), p[3].v), Equal3(env.row(p[0].w), p[3].v))
    else if |p| == 3 && p[0].W? && p[1] == W("IS") && p[2] == W("NULL") then Holds(env.row(p[0].w).Null?)
    else if |p| == 4 && p[0].W? && p[1] == W("IS") && p[2] == W("NOT") && p[3] == W("NULL") then
           Holds(!env.row(p[0].w).Null?)
    else if |p| == 6 && p[0].W? && p[1] == S('=') && p[2] == W("ANY") && p[3] == S('(') && p[4].V?
         && p[5] == S(')') then
      if p[4].v.List? then AnyEqual(env.row(p[0].w), p[4].v.elems) else Unknown
    else if |p| == 7 && p[0].W? && p[1] == S('<') && p[2] == S('>') && p[3] == W("ALL") && p[4] == S('(') && p[5].V?
         && p[6] == S(')') then
      if p[5].v.List? then AllDiffer(env.row(p[0].w), p[5].v.elems) else Unknown
    else env.other(items)
  }

  /** What a clause means in a row, given its parameters. */
  function Meaning(env: Env, sql: string, params: seq<Value>): Truth {
    EvalOr(env, Resolve(Lex(sql), params))
  }
}
