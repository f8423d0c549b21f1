/** Rows and aggregates: which persisted properties survive being stored and loaded. */
module Mapper {
  import opened Types
  import opened SqlLogic
  import opened FilterClause
  import opened WriteStatements
  import opened WriteDao
  import opened CaseNames

  /** columnOverrides: domain key to column, in order, each key once. */
  type Overrides = seq<(string, string)>

  predicate OnceEach(ovs: Overrides) { forall i, j :: 0 <= i < j < |ovs| ==> ovs[i].0 != ovs[j].0 }

  function Columns(ovs: Overrides): map<string, string> {
    if ovs == [] then map[] else Columns(ovs[..|ovs| - 1])[ovs[|ovs| - 1].0 := ovs[|ovs| - 1].1]
  }

  /** Column to domain key; a later override of the same column wins. */
  function Inverse(ovs: Overrides): map<string, string> {
    if ovs == [] then map[] else Inverse(ovs[..|ovs| - 1])[ovs[|ovs| - 1].1 := ovs[|ovs| - 1].0]
  }

  function ColumnFor(ovs: Overrides, key: string): string {
    if key in Columns(ovs) then Columns(ovs)[key] else CamelToSnake(key)
  }

  function DomainKeyFor(ovs: Overrides, column: string): string {
    if column in Inverse(ovs) then Inverse(ovs)[column] else SnakeToCamel(column)
  }

  /** The row of an aggregate with these persisted keys and values. */
  function RowOf(ovs: Overrides, id: string, keys: seq<string>, values: string -> Value): Record {
    if keys == [] then [("id", Text(id))]
    else
      var last := keys[|keys| - 1];
      Put(RowOf(ovs, id, keys[..|keys| - 1], values), ColumnFor(ovs, last), values(last))
  }

  /** The properties handed to createDomain. */
  function PropsOf(ovs: Overrides, row: Record): Record {
    if row == [] then []
    else
      var last := row[|row| - 1];
      var so := PropsOf(ovs, row[..|row| - 1]);
      if last.0 == "id" then so else Put(so, DomainKeyFor(ovs, last.0), last.1)
  }

  /** String(row.id ?? '') */
  function IdOfRow(row: Record): string { if Get(row, "id").Null? then "" else TextOf(Get(row, "id")) }

  class BasePersistenceMapper {
    const columnOverrides: Overrides
    var inverseOverrides: Option<map<string, string>>

    ghost predicate Valid()
      reads this
    {
      inverseOverrides.Some? ==> inverseOverrides.value == Inverse(columnOverrides)
    }

    constructor (columnOverrides: Overrides)
      ensures Valid() && this.columnOverrides == columnOverrides
    {
      this.columnOverrides := columnOverrides;
      inverseOverrides := None;
    }

    method BuildInverseOverrides() returns (inverse: map<string, string>)
      modifies this
      ensures Valid() && inverse == Inverse(columnOverrides)
    {
      inverse := map[];
      var i := 0;
      while i < |columnOverrides|
        invariant 0 <= i <= |columnOverrides| && inverse == Inverse(columnOverrides[..i])
      {
        assert columnOverrides[..i + 1][..i] == columnOverrides[..i];
        inverse := inverse[columnOverrides[i].1 := columnOverrides[i].0];
        i := i + 1;
      }
      assert columnOverrides[..i] == columnOverrides;
      inverseOverrides := Some(inverse);
    }

    /** The arguments of createDomain. */
    method ToDomain(row: Record) returns (props: Record, id: string)
      requires Valid()
      modifies this
      ensures Valid() && props == PropsOf(columnOverrides, row) && id == IdOfRow(row)
    {
      id := IdOfRow(row);
      props := [];
      var i := 0;
      while i < |row|
        invariant 0 <= i <= |row| && Valid() && props == PropsOf(columnOverrides, row[..i])
      {
        assert row[..i + 1][..i] == row[..i];
        var (column, value) := row[i];
        if column != "id" {
          var inverse: map<string, string>;
          if inverseOverrides.Some? { inverse := inverseOverrides.value; } else { inverse := BuildInverseOverrides(); }
          props := Put(props, if column in inverse then inverse[column] else SnakeToCamel(column), value);
        }
        i := i + 1;
      }
      assert row[..i] == row;
    }

    method ToPersistence(id: string, keys: seq<string>, values: string -> Value) returns (row: Record)
      ensures row == RowOf(columnOverrides, id, keys, values)
    {
      row := [("id", Text(id))];
      var i := 0;
      while i < |keys|
        invariant 0 <= i <= |keys| && row == RowOf(columnOverrides, id, keys[..i], values)
      {
        assert keys[..i + 1][..i] == keys[..i];
        row := Put(row, ColumnFor(columnOverrides, keys[i]), values(keys[i]));
        i := i + 1;
      }
      assert keys[..i] == keys;
    }
  }

  // --------------------------------------------------------------- discovered properties

  /** An accessor of one prototype: its name and whether it can be read and written. */
  datatype Accessor = Accessor(name: string, readable: bool, writable: bool)

  predicate Persisted(a: Accessor) { a.name != "constructor" && a.name != "id" && a.readable && a.writable }

  ghost predicate Declares(proto: seq<Accessor>, key: string) {
    exists a :: a in proto && Persisted(a) && a.name == key
  }

  /** The accessor pairs of the whole prototype chain, each name once. A getter alone in
      a subclass does not hide the pair it overrides. */
  method DiscoverPersistedKeys(chain: seq<seq<Accessor>>) returns (keys: seq<string>)
    ensures forall k :: k in keys <==> exists p :: p in chain && Declares(p, k)
    ensures forall i, j :: 0 <= i < j < |keys| ==> keys[i] != keys[j]
    ensures "id" !in keys
  {
    keys := [];
    var i := 0;
    while i < |chain|
      invariant 0 <= i <= |chain|
      invariant forall k :: k in keys <==> exists p :: p in chain[..i] && Declares(p, k)
      invariant (forall a, b :: 0 <= a < b < |keys| ==> keys[a] != keys[b]) && "id" !in keys
    {
      ghost var before := keys;
      var proto := chain[i];
      var j := 0;
      while j < |proto|
        invariant 0 <= j <= |proto|
        invariant forall k :: k in keys <==> k in before || Declares(proto[..j], k)
        invariant (forall a, b :: 0 <= a < b < |keys| ==> keys[a] != keys[b]) && "id" !in keys
      {
        assert proto[..j + 1] == proto[..j] + [proto[j]];
        if Persisted(proto[j]) && proto[j].name !in keys {
          keys := keys + [proto[j].name];
        }
        j := j + 1;
      }
      assert proto[..j] == proto;
      assert chain[..i + 1] == chain[..i] + [chain[i]];
      i := i + 1;
    }
    assert chain[..i] == chain;
  }

  // ------------------------------------------------------------------ the round trip

  /** Loading what was stored gives the id and exactly the stored properties. */
  ghost predicate Returns(ovs: Overrides, id: string, keys: seq<string>, values: string -> Value) {
    var row := RowOf(ovs, id, keys, values);
    && IdOfRow(row) == id
    && forall key ::
         (Has(PropsOf(ovs, row), key) <==> key in keys) && (key in keys ==> Get(PropsOf(ovs, row), key) == values(key))
  }

  /** What a caller can check of a key: its column is its own and leads back to it. */
  predicate KeyReturns(ovs: Overrides, key: string) {
    ColumnFor(ovs, key) != "id" && DomainKeyFor(ovs, ColumnFor(ovs, key)) == key
  }

  predicate Apart(keys: seq<string>) { (forall i, j :: 0 <= i < j < |keys| ==> keys[i] != keys[j]) && "id" !in keys }

  function Pairs(names: string -> string, keys: seq<string>, values: string -> Value): (r: Record)
    ensures |r| == |keys| && forall i :: 0 <= i < |r| ==> r[i] == (names(keys[i]), values(keys[i]))
  {
    seq(|keys|, i requires 0 <= i < |keys| => (names(keys[i]), values(keys[i])))
  }

  lemma {:induction false} PutNew(r: Record, key: string, v: Value)
    requires !Has(r, key)
    ensures Put(r, key, v) == r + [(key, v)]
  {
    if r != [] {
      HasSplit(r, key);
      PutNew(r[1..], key, v);
    }
  }

  function ColumnNames(ovs: Overrides): string -> string { (key: string) => ColumnFor(ovs, key) }

  function OwnNames(): string -> string { (key: string) => key }

  lemma PairsMore(names: string -> string, keys: seq<string>, values: string -> Value, head: Record)
    requires keys != []
    ensures var n := |keys| - 1;
            head + Pairs(names, keys, values)
            == head + Pairs(names, keys[..n], values) + [(names(keys[n]), values(keys[n]))]
  {
  }

  /** The columns of earlier keys, and the id, are not the column of the last one. */
  lemma NewColumn(ovs: Overrides, id: string, keys: seq<string>, values: string -> Value)
    requires Apart(keys) && keys != [] && forall k :: k in keys ==> KeyReturns(ovs, k)
    ensures var n := |keys| - 1;
            !Has([("id", Text(id))] + Pairs(ColumnNames(ovs), keys[..n], values), ColumnFor(ovs, keys[n]))
  {
    hide ColumnFor, DomainKeyFor;
    var n := |keys| - 1;
    var r := [("id", Text(id))] + Pairs(ColumnNames(ovs), keys[..n], values);
    assert keys[n] in keys;
    forall i | 0 <= i < |r|
      ensures r[i].0 != ColumnFor(ovs, keys[n])
    {
      if i > 0 {
        assert keys[i - 1] in keys && r[i] == (ColumnFor(ovs, keys[i - 1]), values(keys[i - 1]));
      }
    }
  }

  lemma ApartInit(ovs: Overrides, keys: seq<string>)
    requires Apart(keys) && keys != [] && forall k :: k in keys ==> KeyReturns(ovs, k)
    ensures var n := |keys| - 1;
            Apart(keys[..n]) && keys[n] !in keys[..n] && KeyReturns(ovs, keys[n]) && forall k :: k in keys[..n] ==>
              KeyReturns(ovs, k)
  {
    var n := |keys| - 1;
    assert keys[n] in keys && forall k :: k in keys[..n] ==> k in keys;
  }

  lemma {:induction false} RowShape(ovs: Overrides, id: string, keys: seq<string>, values: string -> Value)
    requires Apart(keys) && forall k :: k in keys ==> KeyReturns(ovs, k)
    ensures RowOf(ovs, id, keys, values) == [("id", Text(id))] + Pairs(ColumnNames(ovs), keys, values)
  {
    hide ColumnFor, KeyReturns, Pairs, Put, Has, Apart;
    if keys == [] {
      NoPairs(ColumnNames(ovs), values, [("id", Text(id))]);
    } else {
      var n := |keys| - 1;
      ApartInit(ovs, keys);
      RowShape(ovs, id, keys[..n], values);
      NewColumn(ovs, id, keys, values);
      PutNew(RowOf(ovs, id, keys[..n], values), ColumnFor(ovs, keys[n]), values(keys[n]));
      PairsMore(ColumnNames(ovs), keys, values, [("id", Text(id))]);
    }
  }

  lemma NoPairs(names: string -> string, values: string -> Value, head: Record)
    ensures head + Pairs(names, [], values) == head && Pairs(names, [], values) == []
  {
  }

  lemma {:induction false} PropsShape(ovs: Overrides, id: string, keys: seq<string>, values: string -> Value)
    requires Apart(keys) && forall k :: k in keys ==> KeyReturns(ovs, k)
    ensures PropsOf(ovs, [("id", Text(id))] + Pairs(ColumnNames(ovs), keys, values)) == Pairs(OwnNames(), keys, values)
  {
    hide ColumnFor, DomainKeyFor, Pairs, Put, Has, Apart;
    var head := [("id", Text(id))];
    if keys == [] {
      NoPairs(ColumnNames(ovs), values, head);
      NoPairs(OwnNames(), values, head);
      assert head[..0] == [];
    } else {
      var n := |keys| - 1;
      ApartInit(ovs, keys);
      PropsShape(ovs, id, keys[..n], values);
      PairsMore(ColumnNames(ovs), keys, values, head);
      PairsMore(OwnNames(), keys, values, []);
      var row := head + Pairs(ColumnNames(ovs), keys, values);
      assert row[..|row| - 1] == head + Pairs(ColumnNames(ovs), keys[..n], values);
      GetPair(keys[..n], values, keys[n]);
      PutNew(Pairs(OwnNames(), keys[..n], values), keys[n], values(keys[n]));
    }
  }

  lemma {:induction false} GetPair(keys: seq<string>, values: string -> Value, key: string)
    ensures Has(Pairs(OwnNames(), keys, values), key) <==> key in keys
    ensures key in keys ==> Get(Pairs(OwnNames(), keys, values), key) == values(key)
  {
    var r := Pairs(OwnNames(), keys, values);
    if keys != [] {
      GetPair(keys[1..], values, key);
      assert r[1..] == Pairs(OwnNames(), keys[1..], values);
      HasSplit(r, key);
    }
  }

  lemma GoodKeysReturn(ovs: Overrides, id: string, keys: seq<string>, values: string -> Value)
    requires Apart(keys) && forall k :: k in keys ==> KeyReturns(ovs, k)
    ensures Returns(ovs, id, keys, values)
  {
    hide KeyReturns, RowOf, PropsOf, Pairs;
    RowShape(ovs, id, keys, values);
    PropsShape(ovs, id, keys, values);
    forall key
      ensures Has(Pairs(OwnNames(), keys, values), key) <==> key in keys
      ensures key in keys ==> Get(Pairs(OwnNames(), keys, values), key) == values(key)
    {
      GetPair(keys, values, key);
    }
  }

  // ---------------------------------------------------------------- when it does not

  /** The values that tell keys apart: each key's own name. */
  function Marked(): string -> Value { (key: string) => Text(key) }

  lemma {:induction false} PutEntries(r: Record, key: string, v: Value, p: (string, Value))
    requires p in Put(r, key, v)
    ensures p == (key, v) || p in r
  {
    if r != [] && r[0].0 != key && p != r[0] {
      assert p in Put(r[1..], key, v);
      PutEntries(r[1..], key, v, p);
    }
  }

  lemma {:induction false} RowEntries(ovs: Overrides, id: string, keys: seq<string>, p: (string, Value))
    returns (k: string)
    requires p in RowOf(ovs, id, keys, Marked()) && p.0 != "id"
    ensures k in keys && p == (ColumnFor(ovs, k), Text(k))
  {
    hide ColumnFor, Put;
    var n := |keys| - 1;
    PutEntries(RowOf(ovs, id, keys[..n], Marked()), ColumnFor(ovs, keys[n]), Text(keys[n]), p);
    if p == (ColumnFor(ovs, keys[n]), Text(keys[n])) {
      k := keys[n];
    } else {
      k := RowEntries(ovs, id, keys[..n], p);
    }
  }

  lemma {:induction false} PropsEntries(ovs: Overrides, row: Record, p: (string, Value)) returns (e: (string, Value))
    requires p in PropsOf(ovs, row)
    ensures e in row && e.0 != "id" && p == (DomainKeyFor(ovs, e.0), e.1)
  {
    hide DomainKeyFor, Put;
    var n := |row| - 1;
    if row[n].0 == "id" {
      e := PropsEntries(ovs, row[..n], p);
    } else {
      PutEntries(PropsOf(ovs, row[..n]), DomainKeyFor(ovs, row[n].0), row[n].1, p);
      if p == (DomainKeyFor(ovs, row[n].0), row[n].1) {
        e := row[n];
      } else {
        e := PropsEntries(ovs, row[..n], p);
      }
    }
  }

  lemma {:induction false} EntryFor(r: Record, key: string)
    requires Has(r, key)
    ensures (key, Get(r, key)) in r
  {
    HasSplit(r, key);
    if r[0].0 == key {
      assert r[0] == (key, Get(r, key));
    } else {
      EntryFor(r[1..], key);
    }
  }

  lemma ReturnedKeysAreGood(ovs: Overrides, id: string, keys: seq<string>, key: string)
    requires Returns(ovs, id, keys, Marked()) && key in keys
    ensures KeyReturns(ovs, key)
  {
    hide RowOf, PropsOf, ColumnFor, DomainKeyFor, Has, Get;
    var row := RowOf(ovs, id, keys, Marked());
    var props := PropsOf(ovs, row);
    assert Has(props, key) && Get(props, key) == Text(key);
    EntryFor(props, key);
    var e := PropsEntries(ovs, row, (key, Text(key)));
    var k := RowEntries(ovs, id, keys, e);
  }

  /** Every aggregate with these keys, whatever its values, comes back with its id and
      exactly its persisted properties if and only if every key's column leads back to
      the key and is not the id column. */
  lemma RoundTripIffKeysReturn(ovs: Overrides, id: string, keys: seq<string>)
    requires Apart(keys)
    ensures (forall values: string -> Value :: Returns(ovs, id, keys, values))
            <==> forall k :: k in keys ==> KeyReturns(ovs, k)
  {
    hide Returns, KeyReturns;
    if forall k :: k in keys ==> KeyReturns(ovs, k) {
      forall values: string -> Value
        ensures Returns(ovs, id, keys, values)
      {
        GoodKeysReturn(ovs, id, keys, values);
      }
    }
    if Returns(ovs, id, keys, Marked()) {
      forall k | k in keys
        ensures KeyReturns(ovs, k)
      {
        ReturnedKeysAreGood(ovs, id, keys, k);
      }
    }
  }

  // ------------------------------------------------------------ the condition, by key

  lemma {:induction false} ColumnsAre(ovs: Overrides, key: string)
    requires OnceEach(ovs)
    ensures key in Columns(ovs) <==> exists i :: 0 <= i < |ovs| && ovs[i].0 == key
    ensures forall i :: 0 <= i < |ovs| && ovs[i].0 == key ==> key in Columns(ovs) && Columns(ovs)[key] == ovs[i].1
  {
    if ovs != [] {
      var n := |ovs| - 1;
      ColumnsAre(ovs[..n], key);
      if i :| 0 <= i < n && ovs[i].0 == key { assert ovs[..n][i].0 == key; }
    }
  }

  lemma {:induction false} InverseIs(ovs: Overrides, column: string)
    ensures column in Inverse(ovs) <==> exists i :: 0 <= i < |ovs| && ovs[i].1 == column
    ensures forall i :: 0 <= i < |ovs| && ovs[i].1 == column && (forall j :: i < j < |ovs| ==> ovs[j].1 != column) ==>
              column in Inverse(ovs) && Inverse(ovs)[column] == ovs[i].0
    ensures column in Inverse(ovs) ==>
              exists i :: 0 <= i < |ovs| && ovs[i] == (Inverse(ovs)[column], column) && forall j :: i < j < |ovs| ==>
                ovs[j].1 != column
  {
    if ovs != [] {
      var n := |ovs| - 1;
      var init := ovs[..n];
      InverseIs(init, column);
      assert forall k :: 0 <= k < n ==> init[k] == ovs[k];
      if ovs[n].1 == column {
        assert ovs[n] == (Inverse(ovs)[column], column);
      } else if column in Inverse(init) {
        var i :| 0 <= i < |init| && init[i] == (Inverse(init)[column], column) && forall j :: i < j < |init| ==>
          init[j].1 != column;
        assert ovs[i] == (Inverse(ovs)[column], column);
      }
    }
  }

  ghost predicate Overriding(ovs: Overrides, i: int, key: string) { 0 <= i < |ovs| && ovs[i].0 == key }

  /** An overridden key leads back unless a later override takes its column; any other
      key does when no override takes its column and its name is canonical. */
  lemma LeadsBackIff(ovs: Overrides, key: string)
    requires OnceEach(ovs)
    ensures DomainKeyFor(ovs, ColumnFor(ovs, key)) == key <==>
              if exists i :: Overriding(ovs, i, key)
              then exists i :: Overriding(ovs, i, key) && forall j :: i < j < |ovs| ==> ovs[j].1 != ovs[i].1
              else (forall j :: 0 <= j < |ovs| ==> ovs[j].1 != CamelToSnake(key)) && Canonical(key)
  {
    hide CamelToSnake, SnakeToCamel, Canonical, Columns, Inverse;
    ColumnsAre(ovs, key);
    NamesReturnIff(key);
    var column := ColumnFor(ovs, key);
    InverseIs(ovs, column);
    if i :| Overriding(ovs, i, key) {
      assert column == ovs[i].1;
      if Inverse(ovs)[column] == key {
        var l :| 0 <= l < |ovs| && ovs[l] == (Inverse(ovs)[column], column) && forall j :: l < j < |ovs| ==>
          ovs[j].1 != column;
        assert l == i;
      }
    } else if column in Inverse(ovs) {
      var l :| 0 <= l < |ovs| && ovs[l] == (Inverse(ovs)[column], column);
      assert !Overriding(ovs, l, key);
    }
  }
}
