/** Which of the filter keys the query schema generates the two SQL renderers accept. */
module GeneratedKeys {
  import opened Types
  import opened SqlLogic
  import opened FilterKeys
  import opened FilterClause
  import opened WhereClause
  import opened QueryBuilder
  import opened WriteStatements

  // ------------------------------------------------------------------------ parsing

  lemma OperatorsHaveNoUnderscore(s: string, i: nat)
    requires OpNamed(s).Some? && i < |s|
    ensures s[i] != '_'
  {
  }

  /** A key whose field swallows its own delimiter names no operator. */
  lemma OperatorKeyParsesIff(field: string, op: Op)
    ensures ParseFilterKey(PrintKey(field, op)) == Ok(Key(field, op, true)) <==> Separable(field)
    ensures ParseFilterKey(PrintKey(field, op)).Ok? <==> Separable(field)
  {
    hide OpNamed, OpName, FirstDelimiter;
    var s := PrintKey(field, op);
    var k := FirstDelimiter(s);
    PrintThenParseIff(field, op);
    DelimiterOfPrinted(field, OpName(op));
    if !Separable(field) {
      var rest := s[k + 2..];
      var i := |field| + 1 - (k + 2);
      assert s[|field| + 1] == '_' && rest[i] == s[|field| + 1];
      if OpNamed(rest).Some? { OperatorsHaveNoUnderscore(rest, i); }
    }
  }

  lemma BareKeyParses(field: string)
    requires Separable(field)
    ensures ParseFilterKey(field) == Ok(Key(field, Eq, false))
  {
  }

  // --------------------------------------------------------------------- both renderers

  /** The read-side builder takes an operator key exactly for a separable field that is
      one plain identifier, and then filters that field's column by that operator. */
  lemma ReadAcceptsIff(resolve: Resolver, field: string, op: Op, value: Value)
    ensures FilterOf(resolve, (PrintKey(field, op), value)).Ok? <==> Separable(field) && IsIdent(field)
    ensures IsIdent(field) <==>
              field != "" && !('0' <= field[0] <= '9') && forall k :: 0 <= k < |field| ==>
                'a' <= field[k] <= 'z' || 'A' <= field[k] <= 'Z' || '0' <= field[k] <= '9' || field[k] == '_'
    ensures Separable(field) && IsIdent(field) ==>
              FilterOf(resolve, (PrintKey(field, op), value)) == Ok(Filter(resolve(field), op, value, NoCast))
  {
    hide FirstDelimiter, OpName, OpNamed;
    OperatorKeyParsesIff(field, op);
  }

  /** The write-side adapter checks no identifier: a separable field is enough. */
  lemma WriteAcceptsIff(cat: Catalog, field: string, op: Op, value: Value)
    ensures WriteFilter(cat, (PrintKey(field, op), value)).Ok? <==> Separable(field)
    ensures Separable(field) && !op.Eq? ==>
              var f := WriteFilter(cat, (PrintKey(field, op), value)).value;
              f.column == field && f.op == op && f.value == value
  {
    hide FirstDelimiter, OpName, OpNamed;
    OperatorKeyParsesIff(field, op);
  }

  lemma BareKeyAccepted(resolve: Resolver, cat: Catalog, field: string, value: Value)
    requires Separable(field)
    ensures IsIdent(field) ==> FilterOf(resolve, (field, value)).Ok?
    ensures WriteFilter(cat, (field, value)).Ok?
  {
    BareKeyParses(field);
  }

  lemma AnOperatorOf(kind: Kind) returns (op: Op)
    ensures op in OperatorsByKind(kind)
  {
    op := IsNull;
  }

  /** Every key the schema generates is accepted by the read-side builder, whatever its
      value, if and only if every field is a separable identifier. */
  lemma ReadAcceptsAllIff(resolve: Resolver, cat: Catalog, fields: seq<(string, Kind)>, value: Value)
    ensures (forall k :: Generated(fields, k) ==> FilterOf(resolve, (k, value)).Ok?) <==>
            forall f :: f in fields ==> Separable(f.0) && IsIdent(f.0)
  {
    hide FilterOf, Separable, IsIdent, PrintKey, OperatorsByKind;
    if forall k :: Generated(fields, k) ==> FilterOf(resolve, (k, value)).Ok? {
      forall f | f in fields
        ensures Separable(f.0) && IsIdent(f.0)
      {
        var op := AnOperatorOf(f.1);
        assert GeneratedFrom(f, PrintKey(f.0, op));
        assert Generated(fields, PrintKey(f.0, op));
        ReadAcceptsIff(resolve, f.0, op, value);
      }
    }
    if forall f :: f in fields ==> Separable(f.0) && IsIdent(f.0) {
      forall k | Generated(fields, k)
        ensures FilterOf(resolve, (k, value)).Ok?
      {
        var f :| f in fields && GeneratedFrom(f, k);
        BareKeyAccepted(resolve, cat, f.0, value);
        if k != f.0 {
          var op :| op in OperatorsByKind(f.1) && k == PrintKey(f.0, op);
          ReadAcceptsIff(resolve, f.0, op, value);
        }
      }
    }
  }

  /** The same for the write-side adapter: if and only if every field is separable. */
  lemma WriteAcceptsAllIff(cat: Catalog, fields: seq<(string, Kind)>, value: Value)
    ensures (forall k :: Generated(fields, k) ==> WriteFilter(cat, (k, value)).Ok?) <==>
            forall f :: f in fields ==> Separable(f.0)
  {
    hide WriteFilter, Separable, PrintKey, OperatorsByKind;
    if forall k :: Generated(fields, k) ==> WriteFilter(cat, (k, value)).Ok? {
      forall f | f in fields
        ensures Separable(f.0)
      {
        var op := AnOperatorOf(f.1);
        assert GeneratedFrom(f, PrintKey(f.0, op));
        assert Generated(fields, PrintKey(f.0, op));
        WriteAcceptsIff(cat, f.0, op, value);
      }
    }
    if forall f :: f in fields ==> Separable(f.0) {
      forall k | Generated(fields, k)
        ensures WriteFilter(cat, (k, value)).Ok?
      {
        var f :| f in fields && GeneratedFrom(f, k);
        BareKeyAccepted(x => x, cat, f.0, value);
        if k != f.0 {
          var op :| op in OperatorsByKind(f.1) && k == PrintKey(f.0, op);
          WriteAcceptsIff(cat, f.0, op, value);
        }
      }
    }
  }

  /** A dotted field: its bare key and the write side are fine, its operator keys are not
      taken by the read side. */
  lemma DottedFieldFails(resolve: Resolver, cat: Catalog, value: Value)
    ensures Separable("a.b")
    ensures FilterOf(resolve, ("a.b", value)).Ok?
    ensures FilterOf(resolve, (PrintKey("a.b", In), value)).Err?
    ensures WriteFilter(cat, (PrintKey("a.b", In), value)).Ok?
  {
    var s := "a.b";
    assert s[1..] == ".b" && s[1..][1..] == "b";
    assert s[..1] == "a" && s[2..] == "b";
    assert s[1] == '.';
    assert FirstDelimiter("b") == 1;
    assert ".b"[1..] == "b" && ".b"[..2] != DELIMITER;
    assert s[..2] != DELIMITER;
    assert IsIdent(s[..1]) && IsIdent(s[2..]);
    assert IsQualified(s);
    BareKeyParses(s);
    ReadAcceptsIff(resolve, s, In, value);
    WriteAcceptsIff(cat, s, In, value);
  }

  /** A field that ends in an underscore: neither side takes its operator keys. */
  lemma TrailingUnderscoreFails(resolve: Resolver, cat: Catalog, value: Value)
    ensures FilterOf(resolve, (PrintKey("a_", In), value)).Err? && WriteFilter(cat, (PrintKey("a_", In), value)).Err?
  {
    ReadAcceptsIff(resolve, "a_", In, value);
    WriteAcceptsIff(cat, "a_", In, value);
  }
}
