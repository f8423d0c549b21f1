/** Joining conditions with AND and no parentheses: when it keeps their meaning. */
module SqlPrecedence {
  import opened SqlLogic

  const AND: Item := W("AND")

  function Conj(ts: seq<Truth>): Truth {
    if ts == [] then True else And3(ts[0], Conj(ts[1..]))
  }

  function JoinAnd(parts: seq<seq<Item>>): seq<Item> {
    if parts == [] then []
    else if |parts| == 1 then parts[0]
    else parts[0] + [AND] + JoinAnd(parts[1..])
  }

  /** A condition that closes what it opens and no more, with an AND for each BETWEEN. */
  predicate Closed(items: seq<Item>) { EndAt(items, TOP) == TOP }

  predicate NoTopOr(items: seq<Item>) { FindTop(items, IsOr, TOP) == |items| }

  lemma AndRole()
    ensures RoleOf(AND) == IsAnd
  {
    assert Upper("AND") == "AND";
  }

  /** Looking for an operator in `a sep b`, when a ends at the top. */
  lemma {:induction false} FindTopJoin(a: seq<Item>, sep: Item, b: seq<Item>, role: Role, at: At)
    requires EndAt(a, at) == TOP && Move(sep, TOP) == TOP
    ensures FindTop(a, role, at) < |a| ==> FindTop(a + [sep] + b, role, at) == FindTop(a, role, at)
    ensures FindTop(a, role, at) == |a| ==>
              FindTop(a + [sep] + b, role, at) == |a| + (if RoleOf(sep) == role then 0 else 1 + FindTop(b, role, TOP))
    ensures EndAt(a + [sep] + b, at) == EndAt(b, TOP)
  {
    hide Move, RoleOf;
    var s := a + [sep] + b;
    if a == [] {
      assert s == [sep] + b && s[1..] == b;
    } else {
      assert s[0] == a[0] && s[1..] == a[1..] + [sep] + b;
      FindTopJoin(a[1..], sep, b, role, Move(a[0], at));
    }
  }

  /** What follows a top-level operator ends where the whole ends. */
  lemma {:induction false} AfterTop(a: seq<Item>, role: Role, at: At)
    requires FindTop(a, role, at) < |a| && (role == IsAnd || role == IsOr)
    ensures EndAt(a[FindTop(a, role, at) + 1..], TOP) == EndAt(a, at)
    ensures EndAt(a[..FindTop(a, role, at)], at) == TOP
  {
    hide RoleOf;
    if !(at == TOP && RoleOf(a[0]) == role) {
      AfterTop(a[1..], role, Move(a[0], at));
      var k := FindTop(a[1..], role, Move(a[0], at));
      assert a[1..][k + 1..] == a[k + 2..];
      assert a[..k + 1][1..] == a[1..][..k];
    }
  }

  lemma AndAssoc(a: Truth, b: Truth, c: Truth)
    ensures And3(And3(a, b), c) == And3(a, And3(b, c))
  {
  }

  lemma EvalAndAt(env: Env, l: seq<Item>, i: Item, r: seq<Item>)
    requires FindTop(l + [i] + r, IsAnd, TOP) == |l|
    ensures EvalAnd(env, l + [i] + r) == And3(EvalNot(env, l), EvalAnd(env, r))
  {
    var s := l + [i] + r;
    assert s[..|l|] == l && s[|l| + 1..] == r;
  }

  lemma EvalOrAt(env: Env, l: seq<Item>, i: Item, r: seq<Item>)
    requires FindTop(l + [i] + r, IsOr, TOP) == |l|
    ensures EvalOr(env, l + [i] + r) == Or3(EvalAnd(env, l), EvalOr(env, r))
  {
    var s := l + [i] + r;
    assert s[..|l|] == l && s[|l| + 1..] == r;
  }

  lemma Regroup(l: seq<Item>, i: Item, m: seq<Item>, j: Item, r: seq<Item>)
    ensures l + [i] + m + [j] + r == l + [i] + (m + [j] + r)
  {
  }

  lemma Around<T>(s: seq<T>, k: nat)
    requires k < |s|
    ensures s == s[..k] + [s[k]] + s[k + 1..]
  {
  }

  lemma {:induction false} AndSplits(env: Env, a: seq<Item>, b: seq<Item>)
    requires Closed(a)
    ensures EvalAnd(env, a + [AND] + b) == And3(EvalAnd(env, a), EvalAnd(env, b))
    decreases |a|
  {
    AndRole();
    FindTopJoin(a, AND, b, IsAnd, TOP);
    var k := FindTop(a, IsAnd, TOP);
    if k < |a| {
      AfterTop(a, IsAnd, TOP);
      var l, i, r := a[..k], a[k], a[k + 1..];
      AndSplits(env, r, b);
      Around(a, k);
      EvalAndAt(env, l, i, r);
      Regroup(l, i, r, AND, b);
      EvalAndAt(env, l, i, r + [AND] + b);
      AndAssoc(EvalNot(env, l), EvalAnd(env, r), EvalAnd(env, b));
    } else {
      EvalAndAt(env, a, AND, b);
    }
  }

  lemma {:induction false} JoinShape(parts: seq<seq<Item>>)
    requires parts != [] && forall i :: 0 <= i < |parts| ==> Closed(parts[i])
    ensures Closed(JoinAnd(parts))
    ensures NoTopOr(JoinAnd(parts)) <==> forall i :: 0 <= i < |parts| ==> NoTopOr(parts[i])
  {
    if |parts| > 1 {
      AndRole();
      var rest := parts[1..];
      JoinShape(rest);
      FindTopJoin(parts[0], AND, JoinAnd(rest), IsOr, TOP);
      assert forall i :: 0 < i < |parts| ==> parts[i] == rest[i - 1];
      if NoTopOr(JoinAnd(parts)) {
        forall i | 0 <= i < |parts| ensures NoTopOr(parts[i]) {
          if i > 0 { assert NoTopOr(rest[i - 1]); }
        }
      }
    }
  }

  function Meanings(env: Env, parts: seq<seq<Item>>): (r: seq<Truth>)
    ensures |r| == |parts| && forall i :: 0 <= i < |r| ==> r[i] == EvalOr(env, parts[i])
  {
    seq(|parts|, i requires 0 <= i < |parts| => EvalOr(env, parts[i]))
  }

  lemma {:induction false} JoinIsConjunction(env: Env, parts: seq<seq<Item>>)
    requires parts != [] && forall i :: 0 <= i < |parts| ==> Closed(parts[i]) && NoTopOr(parts[i])
    ensures EvalOr(env, JoinAnd(parts)) == Conj(Meanings(env, parts))
  {
    JoinShape(parts);
    var ms := Meanings(env, parts);
    if |parts| == 1 {
      assert ms[1..] == [];
    } else {
      var rest := parts[1..];
      assert forall i :: 0 <= i < |rest| ==> rest[i] == parts[i + 1];
      JoinIsConjunction(env, rest);
      AndSplits(env, parts[0], JoinAnd(rest));
      JoinShape(rest);
      assert ms[1..] == Meanings(env, rest);
    }
  }

  lemma NoOrEval(env: Env, a: seq<Item>)
    requires NoTopOr(a)
    ensures EvalOr(env, a) == EvalAnd(env, a)
  {
  }

  /** A condition with a top-level OR after the last AND escapes the join: the clause
      still means the conjunction in a row exactly when whatever the OR's right side
      accepts there, the rest of the clause accepts too. */
  lemma TopLevelOrEscapesIff(env: Env, a: seq<Item>, f: seq<Item>)
    requires Closed(a) && NoTopOr(a) && Closed(f) && !NoTopOr(f)
    ensures var right := EvalOr(env, f[FindTop(f, IsOr, TOP) + 1..]);
            EvalOr(env, a + [AND] + f) == And3(EvalOr(env, a), EvalOr(env, f)) <==> And3(EvalOr(env, a), right) == right
  {
    hide EvalOr, EvalAnd, FindTop, EndAt, RoleOf;
    AndRole();
    NoOrEval(env, a);
    var k := FindTop(f, IsOr, TOP);
    var left, i, right := f[..k], f[k], f[k + 1..];
    FindTopJoin(a, AND, f, IsOr, TOP);
    Around(f, k);
    EvalOrAt(env, left, i, right);
    assert a + [AND] + f == (a + [AND] + left) + [i] + right;
    EvalOrAt(env, a + [AND] + left, i, right);
    AndSplits(env, a, left);
    Lattice(EvalAnd(env, a), EvalAnd(env, left), EvalOr(env, right));
  }

  lemma Lattice(a: Truth, b: Truth, c: Truth)
    ensures Or3(And3(a, b), c) == And3(a, Or3(b, c)) <==> And3(a, c) == c
  {
  }

  lemma NoOrJoin(env: Env, a: seq<Item>, b: seq<Item>)
    requires Closed(a) && NoTopOr(a) && Closed(b) && NoTopOr(b)
    ensures Closed(a + [AND] + b) && NoTopOr(a + [AND] + b)
    ensures EvalOr(env, a + [AND] + b) == EvalAnd(env, a + [AND] + b) == And3(EvalOr(env, a), EvalOr(env, b))
    ensures EvalOr(env, a) == EvalAnd(env, a)
  {
    AndRole();
    FindTopJoin(a, AND, b, IsOr, TOP);
    AndSplits(env, a, b);
  }

  lemma OrAt(env: Env, l: seq<Item>, i: Item, r: seq<Item>)
    requires Closed(l) && NoTopOr(l) && RoleOf(i) == IsOr
    ensures EvalOr(env, l + [i] + r) == Or3(EvalOr(env, l), EvalOr(env, r))
  {
    FindTopJoin(l, i, r, IsOr, TOP);
    EvalOrAt(env, l, i, r);
  }

  lemma RegroupOr(a: seq<Item>, l: seq<Item>, i: Item, r: seq<Item>, b: seq<Item>)
    ensures a + [AND] + (l + [i] + r) + [AND] + b == (a + [AND] + l) + [i] + (r + [AND] + b)
  {
  }

  lemma LatticeBoth(a: Truth, l: Truth, r: Truth, b: Truth)
    ensures Or3(And3(a, l), And3(r, b)) == And3(a, And3(Or3(l, r), b))
            <==> And3(And3(a, l), b) == And3(a, l) && And3(And3(r, b), a) == And3(r, b)
  {
  }

  /** `l OR r` between two conditions: what is before binds to l, what is after to r. The
      clause means the conjunction in a row exactly when the condition after holds
      wherever `before AND l` does, and the one before wherever `r AND after` does. */
  lemma OrBetweenIff(env: Env, a: seq<Item>, l: seq<Item>, i: Item, r: seq<Item>, b: seq<Item>)
    requires Closed(a) && NoTopOr(a) && Closed(b) && NoTopOr(b) && Closed(l) && NoTopOr(l) && Closed(r) && NoTopOr(r)
    requires RoleOf(i) == IsOr
    ensures var ta, tl, tr, tb := EvalOr(env, a), EvalOr(env, l), EvalOr(env, r), EvalOr(env, b);
            EvalOr(env, a + [AND] + (l + [i] + r) + [AND] + b) == And3(ta, And3(EvalOr(env, l + [i] + r), tb))
            <==> And3(And3(ta, tl), tb) == And3(ta, tl) && And3(And3(tr, tb), ta) == And3(tr, tb)
  {
    hide *;
    NoOrJoin(env, a, l);
    NoOrJoin(env, r, b);
    OrAt(env, l, i, r);
    OrAt(env, a + [AND] + l, i, r + [AND] + b);
    RegroupOr(a, l, i, r, b);
    LatticeBoth(EvalOr(env, a), EvalOr(env, l), EvalOr(env, r), EvalOr(env, b));
  }

  // ------------------------------------------------------- single conditions

  /** Holds no operator that splits a condition. */
  predicate Splits(i: Item) { RoleOf(i) == IsAnd || RoleOf(i) == IsOr || RoleOf(i) == IsBetween }

  predicate Unsplit(items: seq<Item>) { forall k :: 0 <= k < |items| ==> !Splits(items[k]) }

  function DepthAfter(i: Item, d: int): int { if d < 0 then d else d + Depth(i) }

  function EndDepth(items: seq<Item>, d: int): int {
    if items == [] then d else EndDepth(items[1..], DepthAfter(items[0], d))
  }

  lemma {:induction false} FindTopNone(items: seq<Item>, role: Role, d: int)
    requires Unsplit(items) && (role == IsAnd || role == IsOr)
    ensures FindTop(items, role, At(d, 0)) == |items| && EndAt(items, At(d, 0)) == At(EndDepth(items, d), 0)
  {
    hide RoleOf;
    if items != [] {
      assert !Splits(items[0]);
      FindTopNone(items[1..], role, DepthAfter(items[0], d));
    }
  }

  predicate PlainAtom(items: seq<Item>) {
    items != [] && items[0] != S('(') && RoleOf(items[0]) != IsNot && Unsplit(items)
  }

  lemma PlainAtomEval(env: Env, items: seq<Item>)
    requires PlainAtom(items)
    ensures EvalOr(env, items) == EvalAnd(env, items) == Atom(env, items) && NoTopOr(items)
    ensures Closed(items) <==> EndDepth(items, 0) == 0
  {
    hide RoleOf, Atom;
    FindTopNone(items, IsOr, 0);
    FindTopNone(items, IsAnd, 0);
    assert EvalPrimary(env, items) == Atom(env, items);
    assert EvalNot(env, items) == EvalPrimary(env, items);
    assert EvalAnd(env, items) == EvalNot(env, items);
  }

  /** Never back at depth 0 before the end. */
  predicate Deep(items: seq<Item>, d: int) {
    items == [] || (d >= 1 && Deep(items[1..], d + Depth(items[0])))
  }

  /** Inside parentheses nothing is logical, and only the depth moves. */
  lemma {:induction false} DeepHides(items: seq<Item>, role: Role, d: int)
    requires Deep(items, d) && (items != [] ==> d >= 1)
    ensures FindTop(items, role, At(d, 0)) == |items| && EndAt(items, At(d, 0)) == At(EndDepth(items, d), 0)
  {
    hide RoleOf;
    if items != [] {
      assert Move(items[0], At(d, 0)) == At(d + Depth(items[0]), 0);
      DeepHides(items[1..], role, d + Depth(items[0]));
    }
  }

  lemma {:induction false} DeepClose(inner: seq<Item>, d: int)
    requires Deep(inner, d) && d >= 1 && EndDepth(inner, d) == 1
    ensures Deep(inner + [S(')')], d) && ClosesLast(inner + [S(')')], d) && EndDepth(inner + [S(')')], d) == 0
  {
    hide RoleOfWord;
    var s := inner + [S(')')];
    if inner == [] {
      assert s == [S(')')] && s[1..] == [];
    } else {
      assert s[0] == inner[0] && s[1..] == inner[1..] + [S(')')];
      if |inner| > 1 {
        assert d + Depth(inner[0]) >= 1 by { assert Deep(inner[1..], d + Depth(inner[0])) && inner[1..] != []; }
      } else {
        assert inner[1..] == [];
      }
      DeepClose(inner[1..], d + Depth(inner[0]));
    }
  }

  /** A parenthesized condition means what is inside. */
  lemma WrappedEval(env: Env, inner: seq<Item>)
    requires Deep(inner, 1) && EndDepth(inner, 1) == 1
    ensures var s := [S('(')] + inner + [S(')')];
            Closed(s) && NoTopOr(s) && EvalOr(env, s) == EvalOr(env, inner)
  {
    hide RoleOfWord, Atom;
    var s := [S('(')] + inner + [S(')')];
    assert s[1..] == inner + [S(')')];
    DeepClose(inner, 1);
    DeepHides(s[1..], IsOr, 1);
    DeepHides(s[1..], IsAnd, 1);
    assert FindTop(s, IsOr, TOP) == |s| && FindTop(s, IsAnd, TOP) == |s|;
    assert s[1..|s| - 1] == inner;
    assert EvalPrimary(env, s) == EvalOr(env, inner);
    assert EvalNot(env, s) == EvalPrimary(env, s);
    assert EvalAnd(env, s) == EvalNot(env, s);
  }

  /** `a AND b OR c` in a row where only c holds: the join accepts it, though the first
      condition does not. */
  lemma OrEscapesTheJoin(env: Env)
    requires env.other([W("a")]) == False && env.other([W("b")]) == False && env.other([W("c")]) == True
    ensures var a, f := [W("a")], [W("b"), W("OR"), W("c")];
            EvalOr(env, a + [AND] + f) == True && And3(EvalOr(env, a), EvalOr(env, f)) == False
  {
    hide FindTop, EndAt, EvalOr, EvalAnd;
    SingleWord(env, "a");
    SingleWord(env, "b");
    SingleWord(env, "c");
    assert RoleOf(W("OR")) == IsOr by { assert Upper("OR") == "OR"; }
    NoOrJoin(env, [W("a")], [W("b")]);
    OrAt(env, [W("b")], W("OR"), [W("c")]);
    assert [W("b")] + [W("OR")] + [W("c")] == [W("b"), W("OR"), W("c")];
    OrAt(env, [W("a")] + [AND] + [W("b")], W("OR"), [W("c")]);
    assert [W("a")] + [AND] + [W("b")] + [W("OR")] + [W("c")] == [W("a")] + [AND] + [W("b"), W("OR"), W("c")];
  }

  lemma SingleWord(env: Env, w: string)
    requires RoleOfWord(w) == Plainly
    ensures EvalOr(env, [W(w)]) == env.other([W(w)]) && NoTopOr([W(w)]) && Closed([W(w)])
  {
    var s := [W(w)];
    assert s[1..] == [];
    PlainAtomEval(env, s);
    assert DropCasts(s) == s;
  }
}
