/** Filter keys such as `expiresAt__lt`: how they are printed by the query schema and
    parsed by both SQL renderers. */
module FilterKeys {
  import opened Types

  datatype Op = Eq | Contains | In | NotIn | Gt | Gte | Lt | Lte | IsNull | IsNotNull

  datatype Key = Key(field: string, op: Op, hadSuffix: bool)

  datatype Kind = StringKind | NumberKind | BooleanKind | DateKind | EnumKind

  const DELIMITER := "__"

  function OpName(op: Op): string {
    match op
    case Eq => "eq"
    case Contains => "contains"
    case In => "in"
    case NotIn => "notIn"
    case Gt => "gt"
    case Gte => "gte"
    case Lt => "lt"
    case Lte => "lte"
    case IsNull => "isNull"
    case IsNotNull => "isNotNull"
  }

  function OpNamed(s: string): Option<Op> {
    if s == "eq" then Some(Eq)
    else if s == "contains" then Some(Contains)
    else if s == "in" then Some(In)
    else if s == "notIn" then Some(NotIn)
    else if s == "gt" then Some(Gt)
    else if s == "gte" then Some(Gte)
    else if s == "lt" then Some(Lt)
    else if s == "lte" then Some(Lte)
    else if s == "isNull" then Some(IsNull)
    else if s == "isNotNull" then Some(IsNotNull)
    else None
  }

  /** Where the first `__` starts, or the length of the text. */
  function FirstDelimiter(s: string): (k: nat)
    ensures k <= |s| && (k < |s| ==> k + 2 <= |s|)
  {
    if |s| < 2 then |s|
    else if s[..2] == DELIMITER then 0
    else 1 + FirstDelimiter(s[1..])
  }

  function ParseFilterKey(rawKey: string): Result<Key> {
    var k := FirstDelimiter(rawKey);
    if k == |rawKey| then Ok(Key(rawKey, Eq, false))
    else
      var op := OpNamed(rawKey[k + 2..]);
      if op.None? then Err("unknown operator in key " + rawKey) else Ok(Key(rawKey[..k], op.value, true))
  }

  function PrintKey(field: string, op: Op): string { field + DELIMITER + OpName(op) }

  /** No `__` inside, and no trailing `_` that would join the delimiter. */
  predicate Separable(field: string) {
    FirstDelimiter(field) == |field| && (field != "" ==> field[|field| - 1] != '_')
  }

  lemma {:induction false} NoDelimiterIff(s: string)
    ensures FirstDelimiter(s) == |s| <==> forall i :: 0 <= i && i + 1 < |s| ==> s[i] != '_' || s[i + 1] != '_'
  {
    if |s| >= 2 {
      NoDelimiterIff(s[1..]);
      assert s[..2] == [s[0], s[1]];
      if FirstDelimiter(s) == |s| {
        forall i | 0 <= i && i + 1 < |s|
          ensures s[i] != '_' || s[i + 1] != '_'
        {
          if i > 0 { assert s[1..][i - 1] == s[i] && s[1..][i] == s[i + 1]; }
        }
      } else if s[..2] != DELIMITER {
        var i :| 0 <= i && i + 1 < |s[1..]| && s[1..][i] == '_' && s[1..][i + 1] == '_';
        assert s[i + 1] == '_' && s[i + 2] == '_';
      } else {
        assert s[0] == '_' && s[0 + 1] == '_';
      }
    }
  }

  /** No two underscores in a row, and none at the end. */
  lemma SeparableIff(field: string)
    ensures Separable(field) <==>
              (forall i :: 0 <= i && i + 1 < |field| ==> field[i] != '_' || field[i + 1] != '_')
              && (field != "" ==> field[|field| - 1] != '_')
  {
    NoDelimiterIff(field);
  }

  lemma {:induction false} DelimiterOfPrinted(field: string, rest: string)
    ensures Separable(field) ==> FirstDelimiter(field + DELIMITER + rest) == |field|
    ensures !Separable(field) ==> FirstDelimiter(field + DELIMITER + rest) < |field|
  {
    var s := field + DELIMITER + rest;
    if field == "" {
      assert s[..2] == DELIMITER;
    } else {
      assert s[1..] == field[1..] + DELIMITER + rest;
      if |field| == 1 {
        assert s[..2] == [field[0], '_'];
        DelimiterOfPrinted("", rest);
        assert field[1..] == "";
      } else {
        assert s[..2] == field[..2];
        DelimiterOfPrinted(field[1..], rest);
      }
    }
  }

  lemma OpNameNamed(op: Op)
    ensures OpNamed(OpName(op)) == Some(op)
  {
  }

  /** Printing a key and parsing it gives field and operator back exactly for fields
      without `__` and without a trailing `_`. */
  lemma PrintThenParseIff(field: string, op: Op)
    ensures ParseFilterKey(PrintKey(field, op)) == Ok(Key(field, op, true)) <==> Separable(field)
  {
    var s := PrintKey(field, op);
    DelimiterOfPrinted(field, OpName(op));
    if Separable(field) {
      OpNameNamed(op);
      assert s[..|field|] == field;
      assert s[|field| + 2..] == OpName(op);
    }
  }

  /** The ten operator suffixes. */
  lemma OperatorKeys(field: string)
    requires Separable(field)
    ensures ParseFilterKey(field + "__eq") == Ok(Key(field, Eq, true))
    ensures ParseFilterKey(field + "__contains") == Ok(Key(field, Contains, true))
    ensures ParseFilterKey(field + "__in") == Ok(Key(field, In, true))
    ensures ParseFilterKey(field + "__notIn") == Ok(Key(field, NotIn, true))
    ensures ParseFilterKey(field + "__gt") == Ok(Key(field, Gt, true))
    ensures ParseFilterKey(field + "__gte") == Ok(Key(field, Gte, true))
    ensures ParseFilterKey(field + "__lt") == Ok(Key(field, Lt, true))
    ensures ParseFilterKey(field + "__lte") == Ok(Key(field, Lte, true))
    ensures ParseFilterKey(field + "__isNull") == Ok(Key(field, IsNull, true))
    ensures ParseFilterKey(field + "__isNotNull") == Ok(Key(field, IsNotNull, true))
  {
    hide ParseFilterKey, Separable;
    forall op: Op
      ensures ParseFilterKey(PrintKey(field, op)) == Ok(Key(field, op, true))
    {
      PrintThenParseIff(field, op);
    }
    PrintedKeys(field);
  }

  lemma PrintedKeys(field: string)
    ensures PrintKey(field, Eq) == field + "__eq" && PrintKey(field, Contains) == field + "__contains"
    ensures PrintKey(field, In) == field + "__in" && PrintKey(field, NotIn) == field + "__notIn"
    ensures PrintKey(field, IsNull) == field + "__isNull" && PrintKey(field, IsNotNull) == field + "__isNotNull"
    ensures PrintKey(field, Gt) == field + "__gt" && PrintKey(field, Gte) == field + "__gte"
    ensures PrintKey(field, Lt) == field + "__lt" && PrintKey(field, Lte) == field + "__lte"
  {
    hide PrintKey;
    PrintedNames(field);
    PrintedComparisons(field);
  }

  lemma PrintedNames(field: string)
    ensures PrintKey(field, Eq) == field + "__eq" && PrintKey(field, Contains) == field + "__contains"
    ensures PrintKey(field, In) == field + "__in" && PrintKey(field, NotIn) == field + "__notIn"
    ensures PrintKey(field, IsNull) == field + "__isNull" && PrintKey(field, IsNotNull) == field + "__isNotNull"
  {
  }

  lemma PrintedComparisons(field: string)
    ensures PrintKey(field, Gt) == field + "__gt" && PrintKey(field, Gte) == field + "__gte"
    ensures PrintKey(field, Lt) == field + "__lt" && PrintKey(field, Lte) == field + "__lte"
  {
  }

  /** Any other suffix is an error. */
  lemma UnknownOperator(field: string, suffix: string)
    requires Separable(field)
    ensures ParseFilterKey(field + "__" + suffix).Err?
            <==> suffix !in {"eq", "contains", "in", "notIn", "gt", "gte", "lt", "lte", "isNull", "isNotNull"}
  {
    hide FirstDelimiter;
    DelimiterOfPrinted(field, suffix);
    var s := field + DELIMITER + suffix;
    assert s[|field| + 2..] == suffix;
  }

  /** The operators the query schema offers for a field of each kind. */
  function OperatorsByKind(kind: Kind): seq<Op> {
    match kind
    case StringKind => [Contains, In, NotIn, IsNull, IsNotNull]
    case NumberKind => [Gt, Gte, Lt, Lte, In, NotIn, IsNull, IsNotNull]
    case DateKind => [Gt, Gte, Lt, Lte, In, NotIn, IsNull, IsNotNull]
    case BooleanKind => [IsNull, IsNotNull]
    case EnumKind => [In, NotIn, IsNull, IsNotNull]
  }

  /** The schema declares the bare field and one key per operator of its kind. */
  ghost predicate Generated(fields: seq<(string, Kind)>, k: string) {
    exists f :: f in fields && GeneratedFrom(f, k)
  }

  ghost predicate GeneratedFrom(f: (string, Kind), k: string) {
    k == f.0 || exists op :: op in OperatorsByKind(f.1) && k == PrintKey(f.0, op)
  }

  /** The keys a field adds to the schema, kind by kind. */
  lemma StringKeys(field: string, k: string)
    ensures GeneratedFrom((field, StringKind), k)
            <==> k in [field, field + "__contains", field + "__in", field + "__notIn", field + "__isNull",
                       field + "__isNotNull"]
  {
    hide PrintKey, GeneratedFrom;
    PrintedKeys(field);
    KeyOf(StringKind, field, k);
    assert PrintedFor(field, OperatorsByKind(StringKind))
           == [field + "__contains", field + "__in", field + "__notIn", field + "__isNull", field + "__isNotNull"];
  }

  /** A date field has the keys of a number. */
  lemma NumberKeys(field: string, k: string)
    ensures GeneratedFrom((field, NumberKind), k)
            <==> k in [field, field + "__gt", field + "__gte", field + "__lt", field + "__lte", field + "__in",
                       field + "__notIn", field + "__isNull", field + "__isNotNull"]
    ensures GeneratedFrom((field, DateKind), k) <==> GeneratedFrom((field, NumberKind), k)
  {
    hide PrintKey, GeneratedFrom;
    PrintedKeys(field);
    KeyOf(NumberKind, field, k);
    KeyOf(DateKind, field, k);
    assert PrintedFor(field, OperatorsByKind(NumberKind))
           == [field + "__gt", field + "__gte", field + "__lt", field + "__lte", field + "__in", field + "__notIn",
               field + "__isNull", field + "__isNotNull"];
  }

  lemma ChoiceKeys(field: string, k: string)
    ensures GeneratedFrom((field, BooleanKind), k) <==> k in [field, field + "__isNull", field + "__isNotNull"]
    ensures GeneratedFrom((field, EnumKind), k)
            <==> k in [field, field + "__in", field + "__notIn", field + "__isNull", field + "__isNotNull"]
  {
    hide PrintKey, GeneratedFrom;
    PrintedKeys(field);
    KeyOf(BooleanKind, field, k);
    KeyOf(EnumKind, field, k);
    assert PrintedFor(field, OperatorsByKind(BooleanKind)) == [field + "__isNull", field + "__isNotNull"];
    assert PrintedFor(field, OperatorsByKind(EnumKind))
           == [field + "__in", field + "__notIn", field + "__isNull", field + "__isNotNull"];
  }

  function PrintedFor(field: string, ops: seq<Op>): (r: seq<string>)
    ensures |r| == |ops| && forall j :: 0 <= j < |r| ==> r[j] == PrintKey(field, ops[j])
  {
    seq(|ops|, j requires 0 <= j < |ops| => PrintKey(field, ops[j]))
  }

  lemma KeyOf(kind: Kind, field: string, k: string)
    ensures GeneratedFrom((field, kind), k) <==> k == field || k in PrintedFor(field, OperatorsByKind(kind))
  {
    hide PrintKey, OperatorsByKind;
    var ops := OperatorsByKind(kind);
    if k in PrintedFor(field, ops) {
      var j :| 0 <= j < |ops| && PrintedFor(field, ops)[j] == k;
      assert ops[j] in ops;
    }
    if op :| op in ops && k == PrintKey(field, op) {
      var j :| 0 <= j < |ops| && ops[j] == op;
      assert PrintedFor(field, ops)[j] == k;
    }
  }

  method SchemaKeys(fields: seq<(string, Kind)>) returns (keys: seq<string>)
    ensures forall k :: k in keys <==> Generated(fields, k)
  {
    keys := [];
    var i := 0;
    while i < |fields|
      invariant 0 <= i <= |fields|
      invariant forall k :: k in keys <==> Generated(fields[..i], k)
    {
      var (field, kind) := fields[i];
      var ops := OperatorsByKind(kind);
      ghost var before := keys;
      keys := keys + [field];
      var j := 0;
      while j < |ops|
        invariant 0 <= j <= |ops|
        invariant forall k :: k in keys <==>
                    k in before || k == field || exists op :: op in ops[..j] && k == PrintKey(field, op)
      {
        keys := keys + [PrintKey(field, ops[j])];
        assert ops[..j + 1] == ops[..j] + [ops[j]];
        j := j + 1;
      }
      assert ops[..j] == ops;
      assert forall k :: k in keys <==> k in before || GeneratedFrom(fields[i], k);
      assert fields[..i + 1] == fields[..i] + [fields[i]];
      i := i + 1;
    }
    assert fields[..i] == fields;
  }
}
