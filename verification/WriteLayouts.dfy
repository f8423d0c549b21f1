/** Rows laid out as SQL: which parameter each placeholder of an INSERT or an
    UPDATE ... FROM (VALUES ...) stands for. `cast` is the text after a key's
    placeholder, `cell` what is pushed for a key's value. */
module WriteLayouts {
  import opened SqlText
  import opened SqlLogic
  import FilterKeys
  import opened FilterClause
  import opened WhereClause
  import opened Placeholders
  import opened SelectStatement
  import opened WriteStatements

  type CastOf = string -> string

  type CellOf = (string, Value) -> Value

  /** What the adapter passes for them. */
  function CastsOf(cat: Catalog): CastOf { (key: string) => FilterClause.CastText(CastFor(cat.typeOf(key), 0)) }

  function CellsOf(cat: Catalog): CellOf { (key: string, v: Value) => Stored(cat, key, v) }

  /** updateMany pushes the id as it is. */
  function IdRaw(cell: CellOf): CellOf { (key: string, v: Value) => if key == "id" then v else cell(key, v) }

  const NOW_MS := "date_trunc(" + "'milliseconds'" + ", CURRENT_TIMESTAMP)"

  lemma NowIsPlain()
    ensures Plain(NOW_MS)
  {
    assert Plain("date_trunc(") && Plain("'milliseconds'") && Plain(", CURRENT_TIMESTAMP)");
    PlainJoin("date_trunc(", "'milliseconds'");
    PlainJoin("date_trunc(" + "'milliseconds'", ", CURRENT_TIMESTAMP)");
  }

  const STAMPED := ", " + NOW_MS + ", " + NOW_MS + ")"

  lemma StampedFollows()
    ensures Follows(STAMPED)
  {
    NowIsPlain();
    PlainJoin(", ", NOW_MS);
    PlainJoin(", " + NOW_MS, ", ");
    PlainJoin(", " + NOW_MS + ", ", NOW_MS);
    PlainJoin(", " + NOW_MS + ", " + NOW_MS, ")");
  }

  /** One placeholder per key, numbered after the n parameters pushed before. */
  function Slots(cast: CastOf, keys: seq<string>, n: nat): (r: seq<string>)
    ensures |r| == |keys|
  {
    if keys == [] then [] else Slots(cast, keys[..|keys| - 1], n) + [Ph(n + |keys|) + cast(keys[|keys| - 1])]
  }

  /** The values of one row, in the order of the keys. */
  function Cells(cell: CellOf, keys: seq<string>, row: Record): (r: seq<Value>)
    ensures |r| == |keys| && forall j :: 0 <= j < |keys| ==> r[j] == cell(keys[j], Get(row, keys[j]))
  {
    seq(|keys|, j requires 0 <= j < |keys| => cell(keys[j], Get(row, keys[j])))
  }

  function Group(cast: CastOf, keys: seq<string>, n: nat, close: string): string {
    "(" + (JoinList(Slots(cast, keys, n)) + close)
  }

  /** c * w, counted up. */
  function Times(c: nat, w: nat): nat { if c == 0 then 0 else Times(c - 1, w) + w }

  lemma {:induction false} TimesIs(c: nat, w: nat)
    ensures Times(c, w) == c * w
  {
    if c > 0 { TimesIs(c - 1, w); }
  }

  function Groups(cast: CastOf, keys: seq<string>, count: nat, close: string): seq<string> {
    if count == 0 then []
       else Groups(cast, keys, count - 1, close) + [Group(cast, keys, Times(count - 1, |keys|), close)]
  }

  function AllValues(cell: CellOf, keys: seq<string>, rows: seq<Record>): seq<Value> {
    if rows == [] then [] else AllValues(cell, keys, rows[..|rows| - 1]) + Cells(cell, keys, rows[|rows| - 1])
  }

  method PushRow(cast: CastOf, cell: CellOf, keys: seq<string>, row: Record, before: seq<Value>)
    returns (slots: seq<string>, values: seq<Value>)
    ensures slots == Slots(cast, keys, |before|) && values == before + Cells(cell, keys, row)
  {
    slots, values := [], before;
    var j := 0;
    while j < |keys|
      invariant 0 <= j <= |keys|
      invariant slots == Slots(cast, keys[..j], |before|)
      invariant values == before + Cells(cell, keys, row)[..j]
    {
      values := values + [cell(keys[j], Get(row, keys[j]))];
      assert keys[..j + 1][..j] == keys[..j];
      slots := slots + [Ph(|values|) + cast(keys[j])];
      j := j + 1;
    }
    assert keys[..j] == keys;
  }

  method PushGroup(cast: CastOf, cell: CellOf, keys: seq<string>, row: Record, before: seq<Value>, close: string)
    returns (group: string, values: seq<Value>)
    ensures group == Group(cast, keys, |before|, close) && values == before + Cells(cell, keys, row)
  {
    var slots: seq<string>;
    slots, values := PushRow(cast, cell, keys, row, before);
    group := "(" + (JoinList(slots) + close);
  }

  /** The VALUES list of an insert, where every row closes with STAMPED. */
  method InsertRows(cast: CastOf, cell: CellOf, keys: seq<string>, rows: seq<Record>, close: string)
    returns (groups: seq<string>, values: seq<Value>)
    ensures groups == Groups(cast, keys, |rows|, close) && values == AllValues(cell, keys, rows)
  {
    hide Group, Slots, Cells, JoinList;
    groups, values := [], [];
    var i := 0;
    while i < |rows|
      invariant 0 <= i <= |rows| && |values| == Times(i, |keys|)
      invariant groups == Groups(cast, keys, i, close) && values == AllValues(cell, keys, rows[..i])
    {
      assert rows[..i + 1][..i] == rows[..i];
      var group: string;
      group, values := PushGroup(cast, cell, keys, rows[i], values, close);
      groups := groups + [group];
      i := i + 1;
    }
    assert rows[..i] == rows;
  }

  lemma {:induction false} JoinListMore(parts: seq<string>, last: string)
    requires parts != []
    ensures JoinList(parts + [last]) == JoinList(parts) + (", " + last)
  {
    var all := parts + [last];
    assert all[0] == parts[0] && all[1..] == parts[1..] + [last];
    if |parts| == 1 {
      assert parts[1..] + [last] == [last];
    } else {
      JoinListMore(parts[1..], last);
      assert parts[0] + (", " + (JoinList(parts[1..]) + (", " + last)))
             == parts[0] + (", " + JoinList(parts[1..])) + (", " + last);
    }
  }

  lemma WithId(cast: CastOf, cell: CellOf, keys: seq<string>, row: Record, n: nat)
    requires keys != [] && "id" !in keys
    ensures Group(cast, keys + ["id"], n, ")")
            == "(" + (JoinList(Slots(cast, keys, n)) + (", " + (Ph(n + |keys| + 1) + cast("id") + ")")))
    ensures Cells(IdRaw(cell), keys + ["id"], row) == Cells(cell, keys, row) + [Get(row, "id")]
  {
    var all := keys + ["id"];
    assert all[..|all| - 1] == keys;
    var slot := Ph(n + |keys| + 1) + cast("id");
    assert Slots(cast, all, n) == Slots(cast, keys, n) + [slot];
    JoinListMore(Slots(cast, keys, n), slot);
    assert JoinList(Slots(cast, keys, n)) + (", " + slot) + ")"
           == JoinList(Slots(cast, keys, n)) + (", " + (slot + ")"));
  }

  method PushRowWithId(cast: CastOf, cell: CellOf, keys: seq<string>, row: Record, before: seq<Value>)
    returns (group: string, values: seq<Value>)
    requires keys != [] && "id" !in keys
    ensures group == Group(cast, keys + ["id"], |before|, ")")
    ensures values == before + Cells(IdRaw(cell), keys + ["id"], row)
  {
    WithId(cast, cell, keys, row, |before|);
    var slots: seq<string>;
    slots, values := PushRow(cast, cell, keys, row, before);
    values := values + [Get(row, "id")];
    group := "(" + (JoinList(slots) + (", " + (Ph(|values|) + cast("id") + ")")));
  }

  /** The VALUES list of updateMany: every row closes with its id. */
  method UpdateRows(cast: CastOf, cell: CellOf, keys: seq<string>, rows: seq<Record>)
    returns (groups: seq<string>, values: seq<Value>)
    requires keys != [] && "id" !in keys
    ensures groups == Groups(cast, keys + ["id"], |rows|, ")") && values == AllValues(IdRaw(cell), keys + ["id"], rows)
  {
    hide Group, Slots, Cells, JoinList, IdRaw;
    groups, values := [], [];
    var i := 0;
    ghost var all := keys + ["id"];
    while i < |rows|
      invariant 0 <= i <= |rows| && |values| == Times(i, |all|)
      invariant groups == Groups(cast, all, i, ")") && values == AllValues(IdRaw(cell), all, rows[..i])
    {
      assert rows[..i + 1][..i] == rows[..i];
      var group: string;
      group, values := PushRowWithId(cast, cell, keys, rows[i], values);
      groups := groups + [group];
      i := i + 1;
    }
    assert rows[..i] == rows;
  }

  // -------------------------------------------------------------- the placeholders

  /** Every cast can follow a placeholder. */
  ghost predicate CastsFollow(cast: CastOf) { forall key :: Follows(cast(key)) }

  lemma CatalogCastsFollow(cat: Catalog)
    ensures CastsFollow(CastsOf(cat))
  {
    forall key
      ensures Follows(CastsOf(cat)(key))
    {
      CastForOk(cat.typeOf(key), 0);
      PlainCast(Filter("", FilterKeys.Eq, Null, CastFor(cat.typeOf(key), 0)));
    }
  }

  lemma {:induction false} ScanList(texts: seq<string>)
    ensures Scan(JoinList(texts)) == ScanAll(texts)
  {
    if |texts| == 1 {
      assert ScanAll(texts[1..]) == [];
    } else if |texts| > 1 {
      ScanList(texts[1..]);
      ScanJoin(texts[0], ", " + JoinList(texts[1..]));
      ScanPlain(", ", JoinList(texts[1..]));
    }
  }

  lemma SlotScan(n: nat, cast: string)
    requires Follows(cast)
    ensures Scan(Ph(n) + cast) == [n]
  {
    ScanPh(n, cast);
    ScanOfPlain(cast);
  }

  lemma ScanAllMore(texts: seq<string>, last: string)
    ensures ScanAll(texts + [last]) == ScanAll(texts) + Scan(last)
  {
    ScanAllJoin(texts, [last]);
    assert ScanAll([last]) == Scan(last) + ScanAll([]);
  }

  lemma RangeMore(a: nat, k: nat)
    ensures Range(a, k) + [a + k] == Range(a, k + 1)
  {
  }

  lemma {:induction false} SlotsScan(cast: CastOf, keys: seq<string>, n: nat)
    requires CastsFollow(cast)
    ensures ScanAll(Slots(cast, keys, n)) == Range(n + 1, |keys|)
  {
    if keys != [] {
      var init, last := keys[..|keys| - 1], keys[|keys| - 1];
      SlotsScan(cast, init, n);
      SlotScan(n + |keys|, cast(last));
      ScanAllMore(Slots(cast, init, n), Ph(n + |keys|) + cast(last));
      RangeMore(n + 1, |keys| - 1);
    }
  }

  lemma GroupScan(cast: CastOf, keys: seq<string>, n: nat, close: string)
    requires CastsFollow(cast) && Follows(close)
    ensures Scan(Group(cast, keys, n, close)) == Range(n + 1, |keys|)
  {
    var slots := JoinList(Slots(cast, keys, n));
    SlotsScan(cast, keys, n);
    ScanList(Slots(cast, keys, n));
    ScanPlain("(", slots + close);
    ScanJoin(slots, close);
    ScanOfPlain(close);
  }

  lemma NoGroups()
    ensures ScanAll([]) == []
  {
  }

  lemma {:induction false} GroupsScan(cast: CastOf, keys: seq<string>, count: nat, close: string)
    requires CastsFollow(cast) && Follows(close)
    ensures ScanAll(Groups(cast, keys, count, close)) == Range(1, Times(count, |keys|))
  {
    hide Group, ScanAll, Scan, CastsFollow, Follows;
    NoGroups();
    if count > 0 {
      var n := Times(count - 1, |keys|);
      GroupsScan(cast, keys, count - 1, close);
      GroupScan(cast, keys, n, close);
      ScanAllMore(Groups(cast, keys, count - 1, close), Group(cast, keys, n, close));
      RangeJoin(1, n, |keys|);
    }
  }

  lemma {:induction false} ValuesLength(cell: CellOf, keys: seq<string>, rows: seq<Record>)
    ensures |AllValues(cell, keys, rows)| == Times(|rows|, |keys|)
  {
    if rows != [] {
      ValuesLength(cell, keys, rows[..|rows| - 1]);
    }
  }

  lemma SliceKept<T>(init: seq<T>, more: seq<T>, from: nat, w: nat)
    requires from + w <= |init|
    ensures (init + more)[from..from + w] == init[from..from + w]
  {
  }

  lemma SliceLast<T>(init: seq<T>, last: seq<T>)
    ensures (init + last)[|init|..|init| + |last|] == last
  {
  }

  /** Row i's part of the parameters is row i's values, starting at i * width. */
  lemma {:induction false} ValuesOfRow(cell: CellOf, keys: seq<string>, rows: seq<Record>, i: nat)
    requires i < |rows|
    ensures var from, all := Times(i, |keys|), AllValues(cell, keys, rows);
            from + |keys| <= |all| && all[from..from + |keys|] == Cells(cell, keys, rows[i])
  {
    var last := |rows| - 1;
    var init, cells := AllValues(cell, keys, rows[..last]), Cells(cell, keys, rows[last]);
    ValuesLength(cell, keys, rows[..last]);
    if i < last {
      ValuesOfRow(cell, keys, rows[..last], i);
      SliceKept(init, cells, Times(i, |keys|), |keys|);
    } else {
      SliceLast(init, cells);
    }
  }

  /** The placeholders of the VALUES list are $1 ... $k for its k parameters. */
  lemma LayoutInOrder(cast: CastOf, cell: CellOf, keys: seq<string>, rows: seq<Record>, close: string)
    requires CastsFollow(cast) && Follows(close)
    ensures Scan(JoinList(Groups(cast, keys, |rows|, close))) == Range(1, |AllValues(cell, keys, rows)|)
    ensures |AllValues(cell, keys, rows)| == |rows| * |keys|
  {
    ScanList(Groups(cast, keys, |rows|, close));
    GroupsScan(cast, keys, |rows|, close);
    ValuesLength(cell, keys, rows);
    TimesIs(|rows|, |keys|);
  }

  /** The parameter numbered i * width + j + 1 is the value of key j in row i. */
  lemma LayoutNumbersRows(cell: CellOf, keys: seq<string>, rows: seq<Record>, i: nat, j: nat)
    requires i < |rows| && j < |keys|
    ensures var all := AllValues(cell, keys, rows);
            0 <= i * |keys| + j < |all| && all[i * |keys| + j] == cell(keys[j], Get(rows[i], keys[j]))
  {
    hide AllValues, Times, Get;
    var all, from := AllValues(cell, keys, rows), Times(i, |keys|);
    ValuesOfRow(cell, keys, rows, i);
    TimesIs(i, |keys|);
    assert all[from + j] == all[from..from + |keys|][j];
  }
}
