/** A rendered filter clause means its operator, in three-valued logic. */
module FilterMeaning {
  import opened SqlLogic
  import opened SqlPrecedence
  import opened SqlLexing
  import opened FilterKeys
  import opened FilterClause

  // ------------------------------------------------------------------ the items of it

  function Items(t: Template, params: seq<Value>): seq<Item> {
    match t
    case End => []
    case Space(tail) => Items(tail, params)
    case Name(w, tail) => [W(w)] + Items(tail, params)
    case Symbol(c, tail) => [S(c)] + Items(tail, params)
    case Slot(n, tail) => [Bind(Param(n), params)] + Items(tail, params)
    case Literal(body, tail) => [Q("'" + body)] + Items(tail, params)
  }

  lemma {:induction false} ItemsResolve(t: Template, params: seq<Value>)
    ensures Resolve(Tokens(t), params) == Items(t, params)
  {
    match t
    case End =>
    case Space(tail) => ItemsResolve(tail, params);
    case Name(w, tail) =>
      ItemsResolve(tail, params);
      ResolveFirst(Word(w), Tokens(tail), params);
    case Symbol(c, tail) =>
      ItemsResolve(tail, params);
      ResolveFirst(Sym(c), Tokens(tail), params);
    case Slot(n, tail) =>
      ItemsResolve(tail, params);
      ResolveFirst(Param(n), Tokens(tail), params);
    case Literal(body, tail) =>
      ItemsResolve(tail, params);
      ResolveFirst(Quoted("'" + body), Tokens(tail), params);
  }

  function BracketItems(dims: nat): seq<Item> { if dims == 0 then [] else [S('['), S(']')] + BracketItems(dims - 1) }

  function CastItems(c: Cast): seq<Item> {
    match c case NoCast => [] case Cast(t, dims) => [S(':'), S(':'), W(t)] + BracketItems(dims)
  }

  lemma {:induction false} BracketsItems(dims: nat, tail: Template, params: seq<Value>)
    ensures Items(BracketsT(dims, tail), params) == BracketItems(dims) + Items(tail, params)
  {
    if dims > 0 {
      BracketsItems(dims - 1, tail, params);
      var more := BracketsT(dims - 1, tail);
      assert Items(Symbol(']', more), params) == [S(']')] + Items(more, params);
    }
  }

  lemma PlaceholderItems(n: nat, c: Cast, tail: Template, params: seq<Value>)
    ensures Items(PlaceholderT(n, c, tail), params) == [Bind(Param(n), params)] + CastItems(c) + Items(tail, params)
  {
    if c.Cast? {
      BracketsItems(c.dims, tail, params);
      var b := Name(c.typeName, BracketsT(c.dims, tail));
      assert Items(b, params) == [W(c.typeName)] + (BracketItems(c.dims) + Items(tail, params));
      assert Items(Symbol(':', b), params) == [S(':')] + Items(b, params);
    }
  }

  // ------------------------------------------------------------------ casts fall away

  predicate NoBracket(rest: seq<Item>) { rest != [] ==> rest[0] != S('[') && rest[0] != S(':') }

  lemma {:induction false} SkipBrackets(dims: nat, rest: seq<Item>)
    requires NoBracket(rest)
    ensures SkipDims(BracketItems(dims) + rest) == rest
  {
    if dims == 0 {
      assert BracketItems(dims) + rest == rest;
    } else {
      assert (BracketItems(dims) + rest)[2..] == BracketItems(dims - 1) + rest;
      SkipBrackets(dims - 1, rest);
    }
  }

  lemma DropAtValue(v: Value, c: Cast, rest: seq<Item>)
    requires NoBracket(rest)
    ensures DropCasts([V(v)] + CastItems(c) + rest) == [V(v)] + DropCasts(rest)
  {
    var s := [V(v)] + CastItems(c) + rest;
    match c
    case NoCast =>
      assert s == [V(v)] + rest && s[1..] == rest;
    case Cast(t, dims) =>
      SkipBrackets(dims, rest);
      CastAfterValue(v, t, BracketItems(dims), rest);
  }

  lemma CastAfterValue(v: Value, t: string, dims: seq<Item>, rest: seq<Item>)
    requires SkipDims(dims + rest) == rest
    ensures DropCasts([V(v)] + ([S(':'), S(':'), W(t)] + dims) + rest) == [V(v)] + DropCasts(rest)
  {
    hide SkipDims;
    var s := [V(v)] + ([S(':'), S(':'), W(t)] + dims) + rest;
    assert s == [V(v), S(':'), S(':'), W(t)] + (dims + rest);
    assert s[4..] == dims + rest;
  }

  lemma {:induction false} DropPrefix(prefix: seq<Item>, rest: seq<Item>)
    requires forall k :: 0 <= k < |prefix| ==> !prefix[k].V?
    ensures DropCasts(prefix + rest) == prefix + DropCasts(rest)
  {
    hide SkipDims;
    if prefix == [] {
      assert prefix + rest == rest;
    } else {
      assert (prefix + rest)[1..] == prefix[1..] + rest;
      DropPrefix(prefix[1..], rest);
      assert prefix == [prefix[0]] + prefix[1..];
    }
  }

  lemma {:induction false} BracketsPlain(dims: nat)
    ensures Unsplit(BracketItems(dims))
    ensures forall k :: 0 <= k < |BracketItems(dims)| ==> Depth(BracketItems(dims)[k]) == 0
  {
    if dims > 0 { BracketsPlain(dims - 1); }
  }

  lemma CastPlain(c: Cast)
    requires CastOk(c)
    ensures Unsplit(CastItems(c)) && forall k :: 0 <= k < |CastItems(c)| ==> Depth(CastItems(c)[k]) == 0
  {
    if c.Cast? { BracketsPlain(c.dims); }
  }

  lemma KeywordsOf()
    ensures RoleOfWord("ILIKE") == Plainly && RoleOfWord("ANY") == Plainly && RoleOfWord("ALL") == Plainly
    ensures RoleOfWord("IS") == Plainly && RoleOfWord("NULL") == Plainly
    ensures RoleOfWord("NOT") == IsNot && RoleOfWord("OR") == IsOr
  {
    assert |Upper("ILIKE")| == 5 && |Upper("IS")| == 2 && Upper("IS")[0] == 'I' && |Upper("NULL")| == 4
           && Upper("NULL")[0] == 'N';
    assert |Upper("ANY")| == 3 && Upper("ANY")[2] == 'Y' && |Upper("ALL")| == 3 && Upper("ALL")[2] == 'L';
    assert Upper("NOT") == "NOT" && Upper("OR") == "OR";
  }

  /** One comparison with a parameter: what Atom sees is the clause without its cast. */
  lemma AtomOf(env: Env, prefix: seq<Item>, v: Value, c: Cast, suffix: seq<Item>)
    requires CastOk(c) && Unsplit(prefix) && Unsplit(suffix) && NoBracket(suffix)
    requires prefix != [] && prefix[0] != S('(') && RoleOf(prefix[0]) != IsNot
    requires forall k :: 0 <= k < |prefix| ==> !prefix[k].V?
    requires forall k :: 0 <= k < |suffix| ==> !suffix[k].V?
    ensures var s := prefix + ([V(v)] + CastItems(c) + suffix);
            && DropCasts(s) == prefix + ([V(v)] + suffix)
            && PlainAtom(s)
            && EvalOr(env, s) == EvalAnd(env, s) == Atom(env, s)
            && NoTopOr(s) && (Closed(s) <==> EndDepth(s, 0) == 0)
  {
    hide RoleOfWord, Atom, EvalOr, EvalAnd, FindTop, EndAt;
    var s := prefix + ([V(v)] + CastItems(c) + suffix);
    CastPlain(c);
    DropPrefix(prefix, [V(v)] + CastItems(c) + suffix);
    DropAtValue(v, c, suffix);
    DropPrefix(suffix, []);
    assert suffix + [] == suffix;
    PlainAtomEval(env, s);
  }

  // --------------------------------------------------------------- clause by clause

  /** A clause's own items, when its parameter is `v`. */
  ghost predicate Means(env: Env, items: seq<Item>, truth: Truth) {
    EvalOr(env, items) == truth && NoTopOr(items) && Closed(items)
  }

  lemma {:induction false} Flat(items: seq<Item>, d: int)
    requires forall k :: 0 <= k < |items| ==> Depth(items[k]) == 0
    ensures EndDepth(items, d) == d && (d >= 1 ==> Deep(items, d))
  {
    if items != [] { Flat(items[1..], d); }
  }

  lemma {:induction false} DepthJoin(a: seq<Item>, b: seq<Item>, d: int)
    ensures EndDepth(a + b, d) == EndDepth(b, EndDepth(a, d))
    ensures Deep(a, d) && Deep(b, EndDepth(a, d)) ==> Deep(a + b, d)
  {
    if a == [] {
      assert a + b == b;
    } else {
      assert (a + b)[1..] == a[1..] + b;
      DepthJoin(a[1..], b, DepthAfter(a[0], d));
    }
  }

  /** column, then symbols or ILIKE, then the parameter. */
  lemma ScalarItems(env: Env, prefix: seq<Item>, v: Value, c: Cast)
    requires CastOk(c) && Unsplit(prefix) && prefix != [] && prefix[0] != S('(') && RoleOf(prefix[0]) != IsNot
    requires forall k :: 0 <= k < |prefix| ==> !prefix[k].V? && Depth(prefix[k]) == 0
    ensures var s := prefix + ([V(v)] + CastItems(c));
            DropCasts(s) == prefix + [V(v)] && Means(env, s, Atom(env, s))
  {
    hide RoleOfWord, Atom, EvalOr, FindTop, EndAt, DropCasts;
    var s := prefix + ([V(v)] + CastItems(c));
    assert [V(v)] + CastItems(c) + [] == [V(v)] + CastItems(c);
    AtomOf(env, prefix, v, c, []);
    CastPlain(c);
    Flat(s, 0);
  }

  lemma ColumnItem(column: string)
    requires IsColumn(column)
    ensures RoleOf(W(column)) == Plainly && Depth(W(column)) == 0 && !Splits(W(column))
  {
  }

  lemma AtomScalar(env: Env, items: seq<Item>, column: string, v: Value)
    ensures DropCasts(items) == [W(column), S('=')] + [V(v)] && !v.Null? ==>
              Atom(env, items) == Denotes(env, env.row(column), Eq, v)
    ensures DropCasts(items) == [W(column), S('>')] + [V(v)] ==>
              Atom(env, items) == Denotes(env, env.row(column), Gt, v)
    ensures DropCasts(items) == [W(column), S('<')] + [V(v)] ==>
              Atom(env, items) == Denotes(env, env.row(column), Lt, v)
    ensures DropCasts(items) == [W(column), S('>'), S('=')] + [V(v)] ==>
              Atom(env, items) == Denotes(env, env.row(column), Gte, v)
    ensures DropCasts(items) == [W(column), S('<'), S('=')] + [V(v)] ==>
              Atom(env, items) == Denotes(env, env.row(column), Lte, v)
  {
    hide DropCasts;
  }

  function Comparison(column: string, op: Op): seq<Item> {
    match op
    case Gt => [W(column), S('>')]
    case Lt => [W(column), S('<')]
    case Gte => [W(column), S('>'), S('=')]
    case Lte => [W(column), S('<'), S('=')]
    case _ => [W(column), S('=')]
  }

  predicate Compares(op: Op) { op.Eq? || op.Gt? || op.Gte? || op.Lt? || op.Lte? }

  lemma ComparisonPlain(column: string, op: Op)
    requires IsColumn(column)
    ensures var prefix := Comparison(column, op);
            && Unsplit(prefix) && prefix != [] && prefix[0] != S('(') && RoleOf(prefix[0]) != IsNot
            && forall k :: 0 <= k < |prefix| ==> !prefix[k].V? && Depth(prefix[k]) == 0
  {
    hide RoleOfWord;
    ColumnItem(column);
  }

  lemma ScalarMeans(env: Env, column: string, op: Op, v: Value, c: Cast)
    requires IsColumn(column) && CastOk(c) && Compares(op) && (op.Eq? ==> !v.Null?)
    ensures Means(env, Comparison(column, op) + ([V(v)] + CastItems(c)), Denotes(env, env.row(column), op, v))
  {
    hide IsColumn, CastOk, Means, Atom, DropCasts, Denotes, Unsplit, Depth;
    ComparisonPlain(column, op);
    ScalarItems(env, Comparison(column, op), v, c);
    AtomScalar(env, Comparison(column, op) + ([V(v)] + CastItems(c)), column, v);
  }

  lemma AtomLike(env: Env, items: seq<Item>, column: string, v: Value)
    requires DropCasts(items) == [W(column), W("ILIKE")] + [V(Pattern(v))]
    ensures Atom(env, items) == Denotes(env, env.row(column), Contains, v)
  {
    hide DropCasts, Pattern;
    assert !Pattern(v).Null? by { PatternIsText(v); }
  }

  lemma PatternIsText(v: Value)
    ensures Pattern(v).Text?
  {
  }

  lemma LikeMeans(env: Env, column: string, value: Value, c: Cast)
    requires IsColumn(column) && CastOk(c)
    ensures Means(env, [W(column), W("ILIKE")] + ([V(Pattern(value))] + CastItems(c)),
                  Denotes(env, env.row(column), Contains, value))
  {
    hide IsColumn, CastOk, Means, Atom, DropCasts, Denotes, RoleOfWord, Pattern;
    ColumnItem(column);
    KeywordsOf();
    var prefix := [W(column), W("ILIKE")];
    assert Unsplit(prefix) && forall k :: 0 <= k < |prefix| ==> !prefix[k].V? && Depth(prefix[k]) == 0;
    ScalarItems(env, prefix, Pattern(value), c);
    AtomLike(env, prefix + ([V(Pattern(value))] + CastItems(c)), column, value);
  }

  lemma AtomNull(env: Env, column: string)
    ensures Atom(env, [W(column), W("IS"), W("NULL")]) == Holds(env.row(column).Null?)
    ensures Atom(env, [W(column), W("IS"), W("NOT"), W("NULL")]) == Holds(!env.row(column).Null?)
  {
    hide DropCasts;
    DropNone([W(column), W("IS"), W("NULL")]);
    DropNone([W(column), W("IS"), W("NOT"), W("NULL")]);
  }

  lemma DropNone(items: seq<Item>)
    requires forall k :: 0 <= k < |items| ==> !items[k].V?
    ensures DropCasts(items) == items
  {
    DropPrefix(items, []);
    assert items + [] == items;
  }

  lemma WordsMean(env: Env, items: seq<Item>)
    requires items != [] && items[0] != S('(') && RoleOf(items[0]) != IsNot
    requires forall k :: 0 <= k < |items| ==> RoleOf(items[k]) == Plainly || RoleOf(items[k]) == IsNot
    ensures Means(env, items, Atom(env, items))
  {
    hide RoleOfWord, Atom, EvalOr, FindTop, EndAt;
    PlainAtomEval(env, items);
    Flat(items, 0);
  }

  lemma NullTestMeans(env: Env, column: string)
    requires IsColumn(column)
    ensures Means(env, [W(column), W("IS"), W("NULL")], Holds(env.row(column).Null?))
    ensures Means(env, [W(column), W("IS"), W("NOT"), W("NULL")], Holds(!env.row(column).Null?))
  {
    hide Means, Atom, RoleOfWord;
    ColumnItem(column);
    KeywordsOf();
    AtomNull(env, column);
    WordsMean(env, [W(column), W("IS"), W("NULL")]);
    WordsMean(env, [W(column), W("IS"), W("NOT"), W("NULL")]);
  }

  lemma AtomAny(env: Env, items: seq<Item>, column: string, v: Value)
    requires DropCasts(items) == [W(column), S('='), W("ANY"), S('(')] + ([V(v)] + [S(')')])
    ensures Atom(env, items) == Membership(env.row(column), v)
  {
    hide DropCasts;
    if v.List? { AnyIsMembership(env.row(column), v.elems); }
  }

  lemma AtomAll(env: Env, items: seq<Item>, column: string, v: Value)
    requires DropCasts(items) == [W(column), S('<'), S('>'), W("ALL"), S('(')] + ([V(v)] + [S(')')])
    ensures Atom(env, items) == if v.List? then AllDiffer(env.row(column), v.elems) else Unknown
  {
    hide DropCasts, AllDiffer;
  }

  lemma Parens(head: seq<Item>, middle: seq<Item>)
    ensures (head + [S('(')]) + (middle + [S(')')]) == head + [S('(')] + middle + [S(')')]
  {
  }

  /** `head ( parameter )`: an atom whose parentheses close. */
  lemma CallMeans(env: Env, head: seq<Item>, v: Value, c: Cast)
    requires CastOk(c) && head != [] && RoleOf(head[0]) != IsNot
    requires forall k :: 0 <= k < |head| ==> !head[k].V? && RoleOf(head[k]) == Plainly
    ensures var s := (head + [S('(')]) + ([V(v)] + CastItems(c) + [S(')')]);
            && DropCasts(s) == head + [S('(')] + ([V(v)] + [S(')')])
            && EvalAnd(env, s) == Atom(env, s) && Means(env, s, Atom(env, s))
            && EndDepth(s, 1) == 1 && Deep(s, 1)
  {
    hide RoleOfWord, Atom, EvalOr, EvalAnd, FindTop, EndAt, DropCasts, EndDepth, Deep;
    AtomOf(env, head + [S('(')], v, c, [S(')')]);
    ParenDepth(head, [V(v)] + CastItems(c), c);
    Parens(head, [V(v)] + CastItems(c));
  }

  lemma AnyMeans(env: Env, column: string, v: Value, c: Cast)
    requires IsColumn(column) && CastOk(c)
    ensures Means(env, [W(column), S('='), W("ANY"), S('(')] + ([V(v)] + CastItems(c) + [S(')')]),
                  Membership(env.row(column), v))
  {
    hide IsColumn, CastOk, Means, Atom, DropCasts, Membership, RoleOfWord, EvalAnd, EndDepth, Deep;
    ColumnItem(column);
    KeywordsOf();
    var head := [W(column), S('='), W("ANY")];
    assert head + [S('(')] == [W(column), S('='), W("ANY"), S('(')];
    CallMeans(env, head, v, c);
    AtomAny(env, (head + [S('(')]) + ([V(v)] + CastItems(c) + [S(')')]), column, v);
  }

  /** `head ( middle )` with nothing else in parentheses. */
  lemma ParenDepth(head: seq<Item>, middle: seq<Item>, c: Cast)
    requires CastOk(c) && middle != [] && middle[0].V? && middle[1..] == CastItems(c)
    requires forall k :: 0 <= k < |head| ==> Depth(head[k]) == 0
    ensures EndDepth(head + [S('(')] + middle + [S(')')], 0) == 0
    ensures EndDepth(head + [S('(')] + middle + [S(')')], 1) == 1
    ensures Deep(head + [S('(')] + middle + [S(')')], 1)
  {
    hide RoleOfWord;
    CastPlain(c);
    assert forall k :: 0 < k < |middle| ==> middle[k] == middle[1..][k - 1];
    Flat(head, 0);
    Flat(head, 1);
    Flat(middle, 1);
    Flat(middle, 2);
    var open, close := [S('(')], [S(')')];
    assert open[1..] == [] && close[1..] == [];
    DepthJoin(head, open, 0);
    DepthJoin(head, open, 1);
    DepthJoin(head + open, middle, 0);
    DepthJoin(head + open, middle, 1);
    DepthJoin(head + open + middle, close, 0);
    DepthJoin(head + open + middle, close, 1);
  }

  lemma AllMeans(env: Env, column: string, v: Value, c: Cast)
    requires IsColumn(column) && CastOk(c)
    ensures var left := [W(column), S('<'), S('>'), W("ALL"), S('(')] + ([V(v)] + CastItems(c) + [S(')')]);
            && EvalAnd(env, left) == (if v.List? then AllDiffer(env.row(column), v.elems) else Unknown)
            && NoTopOr(left) && Closed(left) && EndDepth(left, 1) == 1 && Deep(left, 1)
  {
    hide IsColumn, CastOk, Atom, DropCasts, AllDiffer, RoleOfWord, EvalAnd, EvalOr, EndDepth, Deep, NoTopOr, Closed;
    ColumnItem(column);
    KeywordsOf();
    var head := [W(column), S('<'), S('>'), W("ALL")];
    assert head + [S('(')] == [W(column), S('<'), S('>'), W("ALL"), S('(')];
    CallMeans(env, head, v, c);
    AtomAll(env, (head + [S('(')]) + ([V(v)] + CastItems(c) + [S(')')]), column, v);
  }

  lemma OrBetween(env: Env, left: seq<Item>, right: seq<Item>)
    requires Closed(left) && NoTopOr(left) && Deep(left, 1) && EndDepth(left, 1) == 1
    requires forall k :: 0 <= k < |right| ==> Depth(right[k]) == 0
    ensures var inner := left + [W("OR")] + right;
            && EvalOr(env, inner) == Or3(EvalAnd(env, left), EvalOr(env, right))
            && Deep(inner, 1) && EndDepth(inner, 1) == 1
  {
    hide RoleOfWord, EvalOr, EvalAnd, FindTop, EndAt, EndDepth, Deep;
    KeywordsOf();
    FindTopJoin(left, W("OR"), right, IsOr, TOP);
    EvalOrAt(env, left, W("OR"), right);
    OrDepth(left, right);
  }

  lemma OrDepth(left: seq<Item>, right: seq<Item>)
    requires Deep(left, 1) && EndDepth(left, 1) == 1
    requires forall k :: 0 <= k < |right| ==> Depth(right[k]) == 0
    ensures var inner := left + [W("OR")] + right; Deep(inner, 1) && EndDepth(inner, 1) == 1
  {
    hide RoleOfWord, EndDepth, Deep;
    KeywordsOf();
    Flat([W("OR")] + right, 1);
    DepthJoin(left, [W("OR")] + right, 1);
    assert left + ([W("OR")] + right) == left + [W("OR")] + right;
  }

  lemma NotInMeans(env: Env, column: string, v: Value, c: Cast)
    requires IsColumn(column) && CastOk(c)
    ensures var left := [W(column), S('<'), S('>'), W("ALL"), S('(')] + ([V(v)] + CastItems(c) + [S(')')]);
            Means(env, [S('(')] + (left + [W("OR")] + [W(column), W("IS"), W("NULL")]) + [S(')')],
                  NonMembership(env.row(column), v))
  {
    hide IsColumn, CastOk, RoleOfWord, EvalAnd, EvalOr, EndDepth, Deep, NoTopOr, Closed;
    var left := [W(column), S('<'), S('>'), W("ALL"), S('(')] + ([V(v)] + CastItems(c) + [S(')')]);
    var right := [W(column), W("IS"), W("NULL")];
    ColumnItem(column);
    KeywordsOf();
    AllMeans(env, column, v, c);
    NullTestMeans(env, column);
    assert forall k :: 0 <= k < |right| ==> Depth(right[k]) == 0;
    OrBetween(env, left, right);
    if v.List? { AllIsNonMembership(env.row(column), v.elems); }
    WrappedEval(env, left + [W("OR")] + right);
  }

  lemma {:induction false} ClauseMeans(env: Env, column: string, op: Op, value: Value, n: nat, c: Cast,
                                       params: seq<Value>)
    requires IsColumn(column) && CastOk(c) && n >= 1
    requires Pushed(op, value) != [] ==> n <= |params| && params[n - 1] == Pushed(op, value)[0]
    ensures Means(env, Items(ClauseT(column, op, value, n, c), params), Denotes(env, env.row(column), op, value))
  {
    hide Means, PlaceholderT, CastItems, IsNullT, IsNotNullT, NotInTailT, IsColumn, CastOk, Membership, NonMembership;
    var ph := PlaceholderT(n, c, End);
    PlaceholderItems(n, c, End, params);
    assert [Bind(Param(n), params)] + CastItems(c) + [] == [Bind(Param(n), params)] + CastItems(c);
    match op
    case Eq =>
      if value.Null? {
        NullTestMeans(env, column);
        NullItems(column, params);
      } else {
        HeadItems(column, '=', ph, params);
        ScalarMeans(env, column, op, value, c);
      }
    case Contains =>
      LikeMeans(env, column, value, c);
      LikeItems(column, ph, params);
    case In =>
      AnyMeans(env, column, value, c);
      InItems(column, n, c, params);
    case NotIn =>
      NotInMeans(env, column, value, c);
      NotInItems(column, n, c, params);
    case Gt => HeadItems(column, '>', ph, params); ScalarMeans(env, column, op, value, c);
    case Gte => HeadItems2(column, '>', ph, params); ScalarMeans(env, column, op, value, c);
    case Lt => HeadItems(column, '<', ph, params); ScalarMeans(env, column, op, value, c);
    case Lte => HeadItems2(column, '<', ph, params); ScalarMeans(env, column, op, value, c);
    case IsNull =>
      NullTestMeans(env, column);
      NullItems(column, params);
    case IsNotNull =>
      NullTestMeans(env, column);
      NullItems(column, params);
  }

  lemma HeadItems(column: string, c: char, t: Template, params: seq<Value>)
    ensures Items(Name(column, Space(Symbol(c, Space(t)))), params) == [W(column), S(c)] + Items(t, params)
  {
    assert Items(Symbol(c, Space(t)), params) == [S(c)] + Items(t, params);
  }

  lemma HeadItems2(column: string, c: char, t: Template, params: seq<Value>)
    ensures Items(Name(column, Space(Symbol(c, Symbol('=', Space(t))))), params)
            == [W(column), S(c), S('=')] + Items(t, params)
  {
    assert Items(Symbol('=', Space(t)), params) == [S('=')] + Items(t, params);
    assert Items(Symbol(c, Symbol('=', Space(t))), params) == [S(c)] + Items(Symbol('=', Space(t)), params);
  }

  lemma LikeItems(column: string, t: Template, params: seq<Value>)
    ensures Items(Name(column, Space(Name("ILIKE", Space(t)))), params) == [W(column), W("ILIKE")] + Items(t, params)
  {
    assert Items(Name("ILIKE", Space(t)), params) == [W("ILIKE")] + Items(t, params);
  }

  lemma NullItemsThen(column: string, tail: Template, params: seq<Value>)
    ensures Items(Name(column, Space(IsNullT(tail))), params) == [W(column), W("IS"), W("NULL")] + Items(tail, params)
    ensures Items(Name(column, Space(IsNotNullT(tail))), params)
            == [W(column), W("IS"), W("NOT"), W("NULL")] + Items(tail, params)
  {
    var t1 := Name("NULL", tail);
    assert Items(Space(t1), params) == [W("NULL")] + Items(tail, params);
    assert Items(Name("NOT", Space(t1)), params) == [W("NOT")] + Items(t1, params);
    assert Items(IsNullT(tail), params) == [W("IS")] + Items(t1, params);
    assert Items(IsNotNullT(tail), params) == [W("IS")] + Items(Name("NOT", Space(t1)), params);
  }

  lemma NullItems(column: string, params: seq<Value>)
    ensures Items(Name(column, Space(IsNullT(End))), params) == [W(column), W("IS"), W("NULL")]
    ensures Items(Name(column, Space(IsNotNullT(End))), params) == [W(column), W("IS"), W("NOT"), W("NULL")]
  {
    NullItemsThen(column, End, params);
    assert Items(End, params) == [];
  }

  lemma InItems(column: string, n: nat, c: Cast, params: seq<Value>)
    ensures Items(ClauseT(column, In, Null, n, c), params)
            == [W(column), S('='), W("ANY"), S('(')] + ([Bind(Param(n), params)] + CastItems(c) + [S(')')])
  {
    var close := Symbol(')', End);
    var q := PlaceholderT(n, c, close);
    PlaceholderItems(n, c, close, params);
    assert Items(close, params) == [S(')')];
    var open := Symbol('(', q);
    assert Items(open, params) == [S('(')] + Items(q, params);
    var any := Name("ANY", open);
    assert Items(any, params) == [W("ANY")] + Items(open, params);
    HeadItems(column, '=', any, params);
  }

  lemma RegroupNotIn(a: seq<Item>, ph: seq<Item>, b: seq<Item>)
    requires |a| == 5
    ensures [S('(')] + ([a[0]]
                + ([a[1]] + ([a[2]] + ([a[3]] + ([a[4]] + (ph + ([S(')')] + ([W("OR")] + (b + [S(')')])))))))))
            == [S('(')] + (a + (ph + [S(')')]) + [W("OR")] + b) + [S(')')]
  {
  }

  lemma NotInTailItems(column: string, params: seq<Value>)
    ensures Items(NotInTailT(column), params) == [S(')')] + ([W("OR")] + ([W(column), W("IS"), W("NULL")] + [S(')')]))
  {
    var close := Symbol(')', End);
    assert Items(close, params) == [S(')')];
    NullItemsThen(column, close, params);
    var t2 := Name(column, Space(IsNullT(close)));
    var t3 := Name("OR", Space(t2));
    assert Items(t3, params) == [W("OR")] + Items(t2, params);
  }

  lemma NotInItems(column: string, n: nat, c: Cast, params: seq<Value>)
    ensures var left := [W(column), S('<'), S('>'), W("ALL"), S('(')]
            + ([Bind(Param(n), params)] + CastItems(c) + [S(')')]);
            Items(ClauseT(column, NotIn, Null, n, c), params)
            == [S('(')] + (left + [W("OR")] + [W(column), W("IS"), W("NULL")]) + [S(')')]
  {
    NotInTailItems(column, params);
    var q := PlaceholderT(n, c, NotInTailT(column));
    PlaceholderItems(n, c, NotInTailT(column), params);
    var open := Symbol('(', q);
    assert Items(open, params) == [S('(')] + Items(q, params);
    var all := Name("ALL", open);
    assert Items(all, params) == [W("ALL")] + Items(open, params);
    var cmp := Symbol('>', Space(all));
    assert Items(cmp, params) == [S('>')] + Items(all, params);
    assert Items(Symbol('<', cmp), params) == [S('<')] + Items(cmp, params);
    var named := Name(column, Space(Symbol('<', cmp)));
    assert Items(named, params) == [W(column)] + Items(Symbol('<', cmp), params);
    RegroupNotIn([W(column), S('<'), S('>'), W("ALL"), S('(')], [Bind(Param(n), params)] + CastItems(c),
                 [W(column), W("IS"), W("NULL")]);
  }

  /** The clause as text, lexed with its parameters, means its operator. */
  lemma FilterClauseMeans(env: Env, column: string, op: Op, value: Value, n: nat, c: Cast, params: seq<Value>)
    requires IsColumn(column) && CastOk(c) && n >= 1
    requires Pushed(op, value) != [] ==> n <= |params| && params[n - 1] == Pushed(op, value)[0]
    ensures var sql := BuildFilterClause(column, op, value, Placeholder(n, c));
            QuotesClosed(sql) && Means(env, Resolve(Lex(sql), params), Denotes(env, env.row(column), op, value))
  {
    ClauseLexes(column, op, value, n, c);
    ItemsResolve(ClauseT(column, op, value, n, c), params);
    ClauseMeans(env, column, op, value, n, c, params);
  }
}
