/** The outbox insert read back from its text: every column gets its own field of the
    entry. */
module OutboxInsert {
  import opened Types
  import opened SqlLogic
  import opened SqlLexing
  import opened FilterClause
  import opened SelectStatement
  import opened StatementReading
  import opened WriteLayouts
  import opened WriteReading
  import opened WriteReadBack
  import opened PostgresLocalOutbox
  import WriteEffects

  // ------------------------------------------------------------------------ names

  lemma LongName(k: string)
    requires IsWord(k) && |k| >= 7 && |k| != |"RETURNING"|
    ensures IsName(k)
  {
  }

  lemma EventColumns()
    ensures IsWord("event_type") && IsWord("event_version") && IsWord("event_kind") && IsWord("payload")
    ensures IsWord("aggregate_id") && IsWord("correlation_id")
  {
  }

  lemma StateColumns()
    ensures IsWord("claimed_by") && IsWord("claimed_at") && IsWord("retry_count") && IsWord("last_error")
    ensures IsWord("published_at") && IsWord("created_at") && IsWord("occurred_at")
  {
  }

  lemma StatusIsName()
    ensures IsName("status")
  {
    assert Upper("status")[0] == 'S' && |Upper("status")| == 6;
  }

  lemma ColumnsAreNames()
    ensures AllNames(COLUMNS)
  {
    hide IsWord, IsName;
    EventColumns();
    StateColumns();
    StatusIsName();
    IdIsName();
    forall k | k in COLUMNS
      ensures IsName(k)
    {
      if k != "id" && k != "status" { LongName(k); }
    }
  }

  lemma ColumnsDiffer()
    ensures WriteEffects.DistinctNames(COLUMNS) && |COLUMNS| == INSERT_COLUMN_COUNT
  {
  }

  // ------------------------------------------------------------------------ values

  /** The payload is cast to jsonb, nothing else is. */
  lemma CellReads(base: nat, k: nat)
    ensures Readable(Cell(base, k)) && SourceOf(Lex(Cell(base, k))) == Bound(base + k)
  {
    hide Readable, SourceOf, Lex, Reads, IsPart, IsPlain;
    var c := if k == 5 then Cast("jsonb", 0) else NoCast;
    JsonbIsPlain();
    assert CastText(Cast("jsonb", 0)) == "::jsonb" + "" && "::jsonb" + "" == "::jsonb";
    SlotReads(base + k, c);
    PlainIsPart([Param(base + k)] + CastTokens(c));
    ReadsPart(Cell(base, k), [Param(base + k)] + CastTokens(c));
  }

  lemma JsonbIsPlain()
    ensures IsPlainCast(Cast("jsonb", 0)) && IsPlainCast(NoCast)
  {
    assert |Upper("jsonb")| == 5 && Upper("jsonb")[0] == 'J';
  }

  lemma {:induction false} CellAt(base: nat, n: nat, j: nat)
    requires j < n
    ensures |CellsTo(base, n)| == n && CellsTo(base, n)[j] == Cell(base, j + 1)
  {
    hide Cell;
    if j < n - 1 {
      CellAt(base, n - 1, j);
    } else if n > 1 {
      CellAt(base, n - 1, 0);
    }
  }

  lemma GroupValues(base: nat)
    ensures Readable(ValueGroup(base))
    ensures RowOf(SourcesOf(Listed(Inside(Lex(ValueGroup(base))))), base, INSERT_COLUMN_COUNT, 0)
  {
    hide Readable, SourceOf, Lex, Listed, Inside, JoinList, Cell, CellsTo;
    var cells := CellsTo(base, INSERT_COLUMN_COUNT);
    CellAt(base, INSERT_COLUMN_COUNT, 0);
    forall j | 0 <= j < INSERT_COLUMN_COUNT
      ensures Readable(cells[j]) && SourceOf(Lex(cells[j])) == Bound(base + j + 1)
    {
      CellAt(base, INSERT_COLUMN_COUNT, j);
      CellReads(base, j + 1);
    }
    GroupReads(cells);
  }

  lemma {:induction false} ValueGroupAt(count: nat, i: nat)
    requires i < count
    ensures |ValueGroups(count)| == count && ValueGroups(count)[i] == ValueGroup(i * INSERT_COLUMN_COUNT)
  {
    hide ValueGroup;
    if i < count - 1 {
      ValueGroupAt(count - 1, i);
    } else if count > 1 {
      ValueGroupAt(count - 1, 0);
    }
  }

  lemma ValueGroupsRead(count: nat)
    requires count > 0
    ensures var list := Lex(JoinList(ValueGroups(count)));
            && Whole(list, Keyword("RETURNING")) && QuotesClosed(JoinList(ValueGroups(count)))
            && RowsAre(RowsOf(Listed(list)), count, INSERT_COLUMN_COUNT, 0)
  {
    hide Readable, RowOf, Lex, Listed, Inside, JoinList, ValueGroup, ValueGroups, QuotesClosed, Nested, Whole;
    var groups := ValueGroups(count);
    forall i | 0 <= i < count
      ensures |groups| == count && Readable(groups[i])
      ensures RowOf(SourcesOf(Listed(Inside(Lex(groups[i])))), Times(i, INSERT_COLUMN_COUNT), INSERT_COLUMN_COUNT, 0)
    {
      ValueGroupAt(count, i);
      TimesIs(i, INSERT_COLUMN_COUNT);
      GroupValues(i * INSERT_COLUMN_COUNT);
    }
    ValueGroupAt(count, 0);
    ListReads(groups);
    assert "RETURNING" in RESERVED;
  }

  /** The statement read back: fifteen named columns, and row i holds parameters
      15 i + 1 to 15 i + 15 in their order. */
  lemma InsertReadsBack(table: string, count: nat)
    requires IsName(table) && count > 0
    ensures var s := ReadInsert(Lex(InsertSql(table, count)));
            && s.InsertInto? && s.returning == []
            && s.columns == ["id", "event_type", "event_version", "event_kind", "payload", "aggregate_id",
                             "correlation_id", "status", "claimed_by", "claimed_at", "retry_count", "last_error",
                             "published_at", "created_at", "occurred_at"]
            && RowsAre(s.rows, count, INSERT_COLUMN_COUNT, 0)
  {
    hide Lex, JoinList, Listed, NamesOf, RowsOf, IsName, QuotesClosed, Nested, Whole, ValueGroups;
    ColumnsAreNames();
    NamesRead(COLUMNS);
    ValueGroupsRead(count);
    var c, g := JoinList(COLUMNS), JoinList(ValueGroups(count));
    TableIsWord(table);
    InsertLexes(table, c, g);
    assert Lex(g) + [] == Lex(g);
    WriteReadBack.InsertReadsBack(table, Lex(c), Lex(g), []);
  }

  // ------------------------------------------------------------------- what is stored

  /** The value the statement puts under a column name for row i. */
  function Under(s: WriteReading.Statement, params: seq<Value>, i: nat, name: string): Value
    requires s.InsertInto? && i < |s.rows|
  {
    WriteEffects.ValueIn(params, WriteEffects.Held(s.columns, s.rows[i], name))
  }

  lemma UnderColumn(table: string, es: seq<Entry>, ids: seq<Id>, now: Time, i: nat, k: nat)
    requires IsName(table) && |ids| == |es| && i < |es| && k < INSERT_COLUMN_COUNT
    ensures var s := ReadInsert(Lex(InsertSql(table, |es|)));
            && s.InsertInto? && i < |s.rows|
            && Under(s, AllParams(es, ids, now), i, COLUMNS[k]) == ParamsOf(es[i], ids[i], now)[k]
  {
    hide Lex, InsertSql, ReadInsert, ParamsOf, AllParams, WriteEffects.Held, IsName, WriteEffects.DistinctNames;
    InsertReadsBack(table, |es|);
    var s := ReadInsert(Lex(InsertSql(table, |es|)));
    assert s.columns == COLUMNS;
    assert RowOf(s.rows[i], Times(i, INSERT_COLUMN_COUNT), INSERT_COLUMN_COUNT, 0);
    ColumnsDiffer();
    WriteEffects.HeldAt(s.columns, s.rows[i], k);
    TimesIs(i, INSERT_COLUMN_COUNT);
    InsertNumbersRows(es, ids, now, i);
    var all := AllParams(es, ids, now);
    assert all[i * INSERT_COLUMN_COUNT..(i + 1) * INSERT_COLUMN_COUNT][k] == all[i * INSERT_COLUMN_COUNT + k];
  }

  /** Column by column, what the emitted statement stores for entry i of a batch. */
  lemma ColumnsStore(table: string, es: seq<Entry>, ids: seq<Id>, now: Time, i: nat)
    requires IsName(table) && |ids| == |es| && i < |es|
    ensures var s, e := ReadInsert(Lex(InsertSql(table, |es|))), es[i];
            var params := AllParams(es, ids, now);
            && s.InsertInto? && |s.rows| == |es|
            && Under(s, params, i, "id") == Num(ids[i])
            && Under(s, params, i, "event_type") == Text(e.eventType)
            && Under(s, params, i, "event_version") == Num(if e.version.Some? then e.version.value else 1)
            && Under(s, params, i, "event_kind") == Text(e.eventKind)
            && Under(s, params, i, "payload") == Text(e.payload)
            && Under(s, params, i, "aggregate_id") == (if e.aggregateId.Some? then Text(e.aggregateId.value) else Null)
            && Under(s, params, i, "correlation_id")
               == (if e.correlationId.Some? then Text(e.correlationId.value) else Null)
            && Under(s, params, i, "status") == Text("PENDING") && Under(s, params, i, "retry_count") == Num(0)
            && Under(s, params, i, "claimed_by") == Null && Under(s, params, i, "claimed_at") == Null
            && Under(s, params, i, "last_error") == Null && Under(s, params, i, "published_at") == Null
            && Under(s, params, i, "created_at") == Num(if e.createdAt.Some? then e.createdAt.value else now)
            && Under(s, params, i, "occurred_at") == Num(e.occurredAt)
  {
    hide Lex, InsertSql, ReadInsert, AllParams, Under, IsName;
    InsertReadsBack(table, |es|);
    forall k | 0 <= k < INSERT_COLUMN_COUNT
      ensures var s := ReadInsert(Lex(InsertSql(table, |es|)));
              && s.InsertInto? && i < |s.rows|
              && Under(s, AllParams(es, ids, now), i, COLUMNS[k]) == ParamsOf(es[i], ids[i], now)[k]
    {
      UnderColumn(table, es, ids, now, i, k);
    }
    ColumnNames();
  }

  lemma ColumnNames()
    ensures COLUMNS[0] == "id" && COLUMNS[1] == "event_type" && COLUMNS[2] == "event_version"
    ensures COLUMNS[3] == "event_kind" && COLUMNS[4] == "payload" && COLUMNS[5] == "aggregate_id"
    ensures COLUMNS[6] == "correlation_id" && COLUMNS[7] == "status" && COLUMNS[8] == "claimed_by"
    ensures COLUMNS[9] == "claimed_at" && COLUMNS[10] == "retry_count" && COLUMNS[11] == "last_error"
    ensures COLUMNS[12] == "published_at" && COLUMNS[13] == "created_at" && COLUMNS[14] == "occurred_at"
  {
  }
}
