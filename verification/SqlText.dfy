/** SQL text with numbered placeholders, character by character. */
module SqlText {
  import opened Types

  predicate IsDigit(c: char) { '0' <= c <= '9' }

  function DigitOf(d: nat): char
    requires d < 10
  {
    '0' + d as char
  }

  function DigitValue(c: char): nat
    requires IsDigit(c)
  {
    (c - '0') as nat
  }

  function Decimal(n: nat): string {
    if n < 10 then [DigitOf(n)] else Decimal(n / 10) + [DigitOf(n % 10)]
  }

  predicate AllDigits(s: string) { forall k :: 0 <= k < |s| ==> IsDigit(s[k]) }

  function ValueOf(s: string): nat
    requires AllDigits(s)
  {
    if s == "" then 0 else 10 * ValueOf(s[..|s| - 1]) + DigitValue(s[|s| - 1])
  }

  lemma {:induction false} DecimalValue(n: nat)
    ensures |Decimal(n)| >= 1 && AllDigits(Decimal(n)) && ValueOf(Decimal(n)) == n
  {
    if n >= 10 {
      DecimalValue(n / 10);
      assert Decimal(n)[..|Decimal(n)| - 1] == Decimal(n / 10);
    } else {
      assert Decimal(n)[..0] == "";
    }
  }

  /** `$n` */
  function Ph(n: nat): string { "$" + Decimal(n) }

  /** Length of the run of digits a text starts with. */
  function DigitRun(s: string): (k: nat)
    ensures k <= |s| && AllDigits(s[..k]) && (k < |s| ==> !IsDigit(s[k]))
  {
    if s != "" && IsDigit(s[0]) then
      var k := DigitRun(s[1..]);
      assert s[..k + 1] == [s[0]] + s[1..][..k];
      k + 1
    else 0
  }

  /** The placeholder numbers a text contains, from left to right. */
  function Scan(s: string): seq<nat>
    decreases |s|
  {
    if s == "" then []
    else if s[0] == '$' && |s| > 1 && IsDigit(s[1]) then
      var k := DigitRun(s[1..]);
      [ValueOf(s[1..][..k])] + Scan(s[1..][k..])
    else Scan(s[1..])
  }

  predicate Plain(s: string) { forall k :: 0 <= k < |s| ==> s[k] != '$' }

  lemma PlainJoin(a: string, b: string)
    requires Plain(a) && Plain(b)
    ensures Plain(a + b)
  {
  }

  predicate StartsWithDigit(s: string) { s != "" && IsDigit(s[0]) }

  lemma {:induction false} ScanPlain(a: string, b: string)
    requires Plain(a)
    ensures Scan(a + b) == Scan(b)
  {
    if a == "" {
      assert a + b == b;
    } else {
      assert (a + b)[1..] == a[1..] + b;
      ScanPlain(a[1..], b);
    }
  }

  lemma {:induction false} DigitRunIs(ds: string, rest: string)
    requires AllDigits(ds) && !StartsWithDigit(rest)
    ensures DigitRun(ds + rest) == |ds|
  {
    if ds == "" {
      assert ds + rest == rest;
    } else {
      assert (ds + rest)[1..] == ds[1..] + rest;
      DigitRunIs(ds[1..], rest);
    }
  }

  lemma ScanPh(n: nat, rest: string)
    requires !StartsWithDigit(rest)
    ensures Scan(Ph(n) + rest) == [n] + Scan(rest)
  {
    DecimalValue(n);
    var s := Ph(n) + rest;
    assert s[1..] == Decimal(n) + rest;
    DigitRunIs(Decimal(n), rest);
    assert s[1..][..|Decimal(n)|] == Decimal(n);
    assert s[1..][|Decimal(n)|..] == rest;
  }

  /** a, a+1, ..., a+k-1 */
  function Range(a: nat, k: nat): (r: seq<nat>)
    ensures |r| == k && forall i :: 0 <= i < k ==> r[i] == a + i
  {
    seq(k, i requires 0 <= i < k => a + i)
  }

  lemma RangeJoin(a: nat, j: nat, k: nat)
    ensures Range(a, j) + Range(a + j, k) == Range(a, j + k)
  {
  }

  // ------------------------------------------------------------ question marks

  function Marks(f: string): nat {
    if f == "" then 0 else (if f[0] == '?' then 1 else 0) + Marks(f[1..])
  }

  /** Every `?` replaced by the next placeholder, inside quotes too. */
  function Rebase(f: string, next: nat): string {
    if f == "" then ""
    else if f[0] == '?' then Ph(next) + Rebase(f[1..], next + 1)
    else [f[0]] + Rebase(f[1..], next)
  }

  lemma {:induction false} RebaseAppend(a: string, b: string, next: nat)
    ensures Rebase(a + b, next) == Rebase(a, next) + Rebase(b, next + Marks(a))
    ensures Marks(a + b) == Marks(a) + Marks(b)
  {
    if a == "" {
      assert a + b == b;
    } else {
      assert (a + b)[1..] == a[1..] + b;
      if a[0] == '?' {
        RebaseAppend(a[1..], b, next + 1);
        Assoc(Ph(next), Rebase(a[1..], next + 1), Rebase(b, next + Marks(a)));
      } else {
        RebaseAppend(a[1..], b, next);
        Assoc([a[0]], Rebase(a[1..], next), Rebase(b, next + Marks(a)));
      }
    }
  }

  predicate NoDigitAfterMark(f: string) {
    f == "" || (!(f[0] == '?' && StartsWithDigit(f[1..])) && NoDigitAfterMark(f[1..]))
  }

  lemma RebaseStart(f: string, next: nat)
    ensures StartsWithDigit(Rebase(f, next)) <==> StartsWithDigit(f)
  {
  }

  lemma ScanMark(f: string, next: nat, tail: string)
    requires f != "" && f[0] == '?'
    requires !StartsWithDigit(Rebase(f[1..], next + 1) + tail)
    requires Scan(Rebase(f[1..], next + 1) + tail) == Range(next + 1, Marks(f[1..])) + Scan(tail)
    ensures Scan(Rebase(f, next) + tail) == Range(next, Marks(f)) + Scan(tail)
  {
    Assoc(Ph(next), Rebase(f[1..], next + 1), tail);
    ScanPh(next, Rebase(f[1..], next + 1) + tail);
    RangeFirst(next, Marks(f[1..]));
    Assoc([next], Range(next + 1, Marks(f[1..])), Scan(tail));
  }

  lemma {:induction false} ScanRebase(f: string, next: nat, tail: string)
    requires Plain(f) && NoDigitAfterMark(f) && (f != "" && f[|f| - 1] == '?' ==> !StartsWithDigit(tail))
    ensures Scan(Rebase(f, next) + tail) == Range(next, Marks(f)) + Scan(tail)
  {
    if f == "" {
      assert Rebase(f, next) + tail == tail;
    } else {
      var g := f[1..];
      if f[0] == '?' {
        ScanRebase(g, next + 1, tail);
        RebaseStart(g, next + 1);
        if g == "" { assert Rebase(g, next + 1) + tail == tail; }
        ScanMark(f, next, tail);
      } else {
        ScanRebase(g, next, tail);
        Assoc([f[0]], Rebase(g, next), tail);
        ScanPlain([f[0]], Rebase(g, next) + tail);
      }
    }
  }

  lemma RangeFirst(a: nat, k: nat)
    ensures [a] + Range(a + 1, k) == Range(a, k + 1)
  {
  }

  lemma {:induction false} ValueGrows(a: string, b: string)
    requires AllDigits(a) && AllDigits(b) && b != "" && ValueOf(a) >= 1
    ensures AllDigits(a + b) && ValueOf(a + b) > ValueOf(a)
    decreases |b|
  {
    var init := b[..|b| - 1];
    assert (a + b)[..|a + b| - 1] == a + init;
    if init == "" {
      assert a + init == a;
    } else {
      ValueGrows(a, init);
    }
  }

  /** A digit right after a `?` runs into the placeholder: `?5` becomes `$15`. */
  lemma ScanRunsOn(next: nat, rest: string)
    requires next >= 1 && StartsWithDigit(rest)
    ensures Scan(Ph(next) + rest) != [] && Scan(Ph(next) + rest)[0] > next
  {
    DecimalValue(next);
    var s := Ph(next) + rest;
    var k := DigitRun(rest);
    assert k >= 1;
    var ds := Decimal(next) + rest[..k];
    assert s[1..] == ds + rest[k..];
    DigitRunIs(ds, rest[k..]);
    assert s[1..][..|ds|] == ds;
    ValueGrows(Decimal(next), rest[..k]);
  }

  /** A rebased `$`-free fragment shows exactly its own placeholders, in order, if and
      only if no `?` is followed directly by a digit. */
  lemma {:induction false} PlaceholdersInOrderIff(f: string, next: nat)
    requires Plain(f) && next >= 1
    ensures Scan(Rebase(f, next)) == Range(next, Marks(f)) <==> NoDigitAfterMark(f)
  {
    if NoDigitAfterMark(f) {
      ScanRebase(f, next, "");
      assert Rebase(f, next) + "" == Rebase(f, next);
    } else {
      var g := f[1..];
      if f[0] == '?' {
        if StartsWithDigit(g) {
          RebaseStart(g, next + 1);
          ScanRunsOn(next, Rebase(g, next + 1));
        } else {
          RebaseStart(g, next + 1);
          ScanPh(next, Rebase(g, next + 1));
          PlaceholdersInOrderIff(g, next + 1);
          assert Scan(Rebase(f, next))[1..] == Scan(Rebase(g, next + 1));
          assert Range(next, Marks(f))[1..] == Range(next + 1, Marks(g));
        }
      } else {
        PlaceholdersInOrderIff(g, next);
        ScanPlain([f[0]], Rebase(g, next));
      }
    }
  }

  /** Text that does not start with a digit adds its own placeholders. */
  lemma {:induction false} ScanJoin(a: string, b: string)
    requires !StartsWithDigit(b)
    ensures Scan(a + b) == Scan(a) + Scan(b)
    decreases |a|
  {
    if a == "" {
      assert a + b == b;
    } else if a[0] == '$' && StartsWithDigit(a[1..]) {
      var r := a[1..];
      var k := DigitRun(r);
      assert (a + b)[1..] == r[..k] + (r[k..] + b);
      DigitRunIs(r[..k], r[k..] + b);
      ScanJoin(r[k..], b);
      assert (r[..k] + (r[k..] + b))[..k] == r[..k] && (r[..k] + (r[k..] + b))[k..] == r[k..] + b;
      Assoc([ValueOf(r[..k])], Scan(r[k..]), Scan(b));
    } else {
      assert (a + b)[1..] == a[1..] + b;
      assert a[1..] == "" ==> a[1..] + b == b;
      ScanJoin(a[1..], b);
    }
  }

  /** One number per mark, right or wrong. */
  lemma {:induction false} ScanRebaseLength(f: string, next: nat)
    requires Plain(f)
    ensures |Scan(Rebase(f, next))| == Marks(f)
    decreases |f|
  {
    if f != "" {
      var g := f[1..];
      if f[0] == '?' {
        var k := DigitRun(g);
        RebaseDigits(g, k, next + 1);
        RebaseStart(g[k..], next + 1);
        ScanMarkDigits(next, g[..k], Rebase(g[k..], next + 1));
        ScanRebaseLength(g[k..], next + 1);
      } else {
        ScanRebaseLength(g, next);
        ScanPlain([f[0]], Rebase(g, next));
      }
    }
  }

  lemma ScanMarkDigits(n: nat, more: string, rest: string)
    requires AllDigits(more) && !StartsWithDigit(rest)
    ensures |Scan(Ph(n) + (more + rest))| == 1 + |Scan(rest)|
  {
    DecimalValue(n);
    var ds := Decimal(n) + more;
    Assoc(Decimal(n), more, rest);
    var s := Ph(n) + (more + rest);
    assert s[1..] == ds + rest;
    DigitRunIs(ds, rest);
    assert (ds + rest)[|ds|..] == rest;
  }

  lemma {:induction false} RebaseDigits(g: string, k: nat, next: nat)
    requires k <= |g| && AllDigits(g[..k])
    ensures Rebase(g, next) == g[..k] + Rebase(g[k..], next) && Marks(g) == Marks(g[k..])
  {
    if k > 0 {
      assert g[0] == g[..k][0];
      assert g[1..][..k - 1] == g[..k][1..];
      RebaseDigits(g[1..], k - 1, next);
      assert g[1..][k - 1..] == g[k..];
      assert g[..k] == [g[0]] + g[1..k];
      assert g[1..][..k - 1] == g[1..k];
      Assoc([g[0]], g[1..k], Rebase(g[k..], next));
    }
  }

  lemma RebaseNext(f: string, k: nat, next: nat)
    requires k < |f|
    ensures Rebase(f[..k + 1], next)
            == Rebase(f[..k], next) + (if f[k] == '?' then Ph(next + Marks(f[..k])) else [f[k]])
    ensures Marks(f[..k + 1]) == Marks(f[..k]) + (if f[k] == '?' then 1 else 0)
  {
    assert f[..k + 1] == f[..k] + [f[k]];
    RebaseAppend(f[..k], [f[k]], next);
    assert [f[k]][1..] == "";
    var n := next + Marks(f[..k]);
    assert Rebase([f[k]], n) == (if f[k] == '?' then Ph(n) else [f[k]]) + "";
  }

  lemma MarksPrefix(f: string, k: nat)
    requires k <= |f|
    ensures Marks(f[..k]) <= Marks(f)
  {
    assert f == f[..k] + f[k..];
    RebaseAppend(f[..k], f[k..], 0);
  }

  lemma NothingRebased(next: nat)
    ensures Rebase("", next) == "" && Marks("") == 0
  {
  }

  /** rebaseQuestionMarks: pushes one source parameter per `?`, and throws when the
      fragment has more marks, or fewer, than it was given parameters. */
  method RebaseQuestionMarks<T>(sql: string, target: seq<T>, source: seq<T>) returns (r: Result<string>, params: seq<T>)
    ensures r.Ok? <==> Marks(sql) == |source|
    ensures r.Ok? ==> r.value == Rebase(sql, |target| + 1) && params == target + source
  {
    hide Ph, Rebase, Marks;
    var i, k, rebased := 0, 0, "";
    NothingRebased(|target| + 1);
    params := target;
    while k < |sql|
      invariant 0 <= k <= |sql| && 0 <= i <= |source|
      invariant i == Marks(sql[..k])
      invariant params == target + source[..i]
      invariant rebased == Rebase(sql[..k], |target| + 1)
    {
      RebaseNext(sql, k, |target| + 1);
      if sql[k] == '?' {
        if i >= |source| {
          MarksPrefix(sql, k + 1);
          return Err("more ? placeholders than parameters"), params;
        }
        params := params + [source[i]];
        i := i + 1;
        rebased := rebased + Ph(|params|);
      } else {
        rebased := rebased + [sql[k]];
      }
      k := k + 1;
    }
    assert sql[..k] == sql;
    if i < |source| {
      return Err("more parameters than ? placeholders"), params;
    }
    return Ok(rebased), params;
  }
}
