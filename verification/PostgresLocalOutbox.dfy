/** PgLocalOutbox itself: the multi-row insert as text and parameters, and the methods
    that move a row through its statuses. */
module PostgresLocalOutbox {
  import opened Types
  import opened SqlText
  import opened SqlLogic
  import opened Placeholders
  import opened SelectStatement
  import opened WriteLayouts
  import Outbox
  import Oldest

  const INSERT_COLUMN_COUNT := 15

  /** What the writer is given for one event. */
  datatype Entry = Entry(
    id: Option<Id>, eventType: string, version: Option<int>, eventKind: string, payload: string,
    aggregateId: Option<string>, correlationId: Option<string>, createdAt: Option<Time>, occurredAt: Time)

  function TextOrNull(o: Option<string>): Value { if o.Some? then Text(o.value) else Null }

  /** The fifteen parameters of one row. */
  function ParamsOf(e: Entry, id: Id, now: Time): (r: seq<Value>)
    ensures |r| == INSERT_COLUMN_COUNT
  {
    [Num(id), Text(e.eventType), Num(if e.version.Some? then e.version.value else 1), Text(e.eventKind),
     Text(e.payload),
     TextOrNull(e.aggregateId), TextOrNull(e.correlationId), Text("PENDING"), Null, Null,
     Num(0), Null, Null, Num(if e.createdAt.Some? then e.createdAt.value else now), Num(e.occurredAt)]
  }

  /** `$base+k`, the payload's with its cast. */
  function Cell(base: nat, k: nat): string { Ph(base + k) + if k == 5 then "::jsonb" else "" }

  function CellsTo(base: nat, k: nat): seq<string> { if k == 0 then [] else CellsTo(base, k - 1) + [Cell(base, k)] }

  function ValueGroup(base: nat): string { "(" + (JoinList(CellsTo(base, INSERT_COLUMN_COUNT)) + ")") }

  function ValueGroups(count: nat): seq<string> {
    if count == 0 then [] else ValueGroups(count - 1) + [ValueGroup((count - 1) * INSERT_COLUMN_COUNT)]
  }

  const COLUMNS := [
    "id", "event_type", "event_version", "event_kind", "payload", "aggregate_id", "correlation_id", "status",
    "claimed_by", "claimed_at", "retry_count", "last_error", "published_at", "created_at", "occurred_at"]

  function InsertSql(table: string, count: nat): string {
    "INSERT INTO " + table + " (" + JoinList(COLUMNS) + ") VALUES " + JoinList(ValueGroups(count))
  }

  function AllParams(es: seq<Entry>, ids: seq<Id>, now: Time): (r: seq<Value>)
    requires |ids| == |es|
    ensures |r| == |es| * INSERT_COLUMN_COUNT
  {
    if es == [] then []
    else AllParams(es[..|es| - 1], ids[..|es| - 1], now) + ParamsOf(es[|es| - 1], ids[|es| - 1], now)
  }

  /** The loop of insert: `ids` are the given ids, or fresh ones. */
  method LayOut(es: seq<Entry>, ids: seq<Id>, now: Time) returns (groups: seq<string>, params: seq<Value>)
    requires |ids| == |es|
    ensures groups == ValueGroups(|es|) && params == AllParams(es, ids, now)
  {
    hide ValueGroup, ParamsOf;
    groups, params := [], [];
    var i := 0;
    while i < |es|
      invariant 0 <= i <= |es|
      invariant groups == ValueGroups(i) && params == AllParams(es[..i], ids[..i], now)
    {
      assert es[..i + 1][..i] == es[..i] && ids[..i + 1][..i] == ids[..i];
      var base := i * INSERT_COLUMN_COUNT;
      groups := groups + [ValueGroup(base)];
      params := params + ParamsOf(es[i], ids[i], now);
      i := i + 1;
    }
    assert es[..i] == es && ids[..i] == ids;
  }

  lemma CellScan(base: nat, k: nat)
    ensures Scan(Cell(base, k)) == [base + k]
  {
    var cast := if k == 5 then "::jsonb" else "";
    assert Follows(cast);
    SlotScan(base + k, cast);
  }

  lemma {:induction false} CellsScan(base: nat, k: nat)
    ensures ScanAll(CellsTo(base, k)) == Range(base + 1, k)
  {
    if k > 0 {
      CellsScan(base, k - 1);
      CellScan(base, k);
      ScanAllMore(CellsTo(base, k - 1), Cell(base, k));
      RangeMore(base + 1, k - 1);
    }
  }

  lemma ValueGroupScan(base: nat)
    ensures Scan(ValueGroup(base)) == Range(base + 1, INSERT_COLUMN_COUNT)
  {
    hide CellsTo, Cell;
    var cells := CellsTo(base, INSERT_COLUMN_COUNT);
    CellsScan(base, INSERT_COLUMN_COUNT);
    ScanList(cells);
    ScanPlain("(", JoinList(cells) + ")");
    ScanJoin(JoinList(cells), ")");
    ScanOfPlain(")");
  }

  lemma {:induction false} ValueGroupsScan(count: nat)
    ensures ScanAll(ValueGroups(count)) == Range(1, count * INSERT_COLUMN_COUNT)
  {
    hide ValueGroup;
    if count > 0 {
      ValueGroupsScan(count - 1);
      ValueGroupScan((count - 1) * INSERT_COLUMN_COUNT);
      ScanAllMore(ValueGroups(count - 1), ValueGroup((count - 1) * INSERT_COLUMN_COUNT));
      RangeJoin(1, (count - 1) * INSERT_COLUMN_COUNT, INSERT_COLUMN_COUNT);
    }
  }

  lemma {:induction false} ParamsOfEntry(es: seq<Entry>, ids: seq<Id>, now: Time, i: nat)
    requires |ids| == |es| && i < |es|
    ensures AllParams(es, ids, now)[i * INSERT_COLUMN_COUNT..(i + 1) * INSERT_COLUMN_COUNT]
            == ParamsOf(es[i], ids[i], now)
  {
    hide ParamsOf;
    var n := |es| - 1;
    var init := AllParams(es[..n], ids[..n], now);
    if i < n {
      ParamsOfEntry(es[..n], ids[..n], now, i);
      SliceKept(init, ParamsOf(es[n], ids[n], now), i * INSERT_COLUMN_COUNT, INSERT_COLUMN_COUNT);
    } else {
      SliceLast(init, ParamsOf(es[n], ids[n], now));
    }
  }

  /** The insert shows $1 ... $15n in order for its 15n parameters, and the fifteen of
      row i are entry i's. */
  lemma InsertNumbersRows(es: seq<Entry>, ids: seq<Id>, now: Time, i: nat)
    requires |ids| == |es| && i < |es|
    ensures Scan(JoinList(ValueGroups(|es|))) == Range(1, |AllParams(es, ids, now)|)
    ensures AllParams(es, ids, now)[i * INSERT_COLUMN_COUNT..(i + 1) * INSERT_COLUMN_COUNT]
            == ParamsOf(es[i], ids[i], now)
  {
    hide *;
    ScanList(ValueGroups(|es|));
    ValueGroupsScan(|es|);
    ParamsOfEntry(es, ids, now, i);
  }

  // --------------------------------------------------------------------- the columns

  function NullableText(v: Value): Option<string> { if v.Text? then Some(v.s) else None }

  function NullableTime(v: Value): Option<Time> { if v.Num? then Some(v.n) else None }

  function StatusNamed(v: Value): Outbox.Status {
    if v == Text("CLAIMED") then Outbox.CLAIMED
    else if v == Text("SENT") then Outbox.SENT
    else if v == Text("FAILED") then Outbox.FAILED
    else Outbox.PENDING
  }

  /** Values the NOT NULL columns admit. */
  predicate Storable(v: seq<Value>) {
    |v| == INSERT_COLUMN_COUNT && v[1].Text? && v[3].Text? && v[10].Num? && v[10].n >= 0 && v[13].Num?
  }

  /** Fifteen values stored under the column list of the statement; `carry` is what this
      model keeps of the columns the protocol only carries. */
  function Stored(carry: seq<Value> -> string, v: seq<Value>): Outbox.Row
    requires Storable(v)
  {
    Outbox.Row(Message(v[1].s, v[3].s, NullableText(v[5]), carry([v[2], v[4], v[6], v[14]]), v[13].n),
               StatusNamed(v[7]), NullableText(v[8]), NullableTime(v[9]), v[10].n, NullableText(v[11]),
               NullableTime(v[12]))
  }

  function MessageOf(carry: seq<Value> -> string, e: Entry, now: Time): Message {
    Message(e.eventType, e.eventKind, e.aggregateId,
            carry([Num(if e.version.Some? then e.version.value else 1), Text(e.payload), TextOrNull(e.correlationId),
                   Num(e.occurredAt)]),
            if e.createdAt.Some? then e.createdAt.value else now)
  }

  /** Read back by column, an inserted row is the entry's message, pending and untried. */
  lemma InsertedRowIsNew(carry: seq<Value> -> string, e: Entry, id: Id, now: Time)
    ensures Storable(ParamsOf(e, id, now))
    ensures Stored(carry, ParamsOf(e, id, now)) == Outbox.NewRow(MessageOf(carry, e, now))
  {
    var v := ParamsOf(e, id, now);
    assert v[1] == Text(e.eventType) && v[3] == Text(e.eventKind) && v[5] == TextOrNull(e.aggregateId);
    assert v[7] == Text("PENDING") && "PENDING" != "SENT" && "PENDING" != "CLAIMED" && "PENDING" != "FAILED";
  }

  function Inserted(carry: seq<Value> -> string, es: seq<Entry>, ids: seq<Id>, now: Time): map<Id, Message>
    requires |ids| == |es|
  {
    if es == [] then map[]
    else Inserted(carry, es[..|es| - 1], ids[..|es| - 1], now)[ids[|es| - 1] := MessageOf(carry, es[|es| - 1], now)]
  }

  lemma {:induction false} InsertedAt(carry: seq<Value> -> string, es: seq<Entry>, ids: seq<Id>, now: Time, i: nat)
    requires |ids| == |es| && i < |es| && forall j, k :: 0 <= j < k < |ids| ==> ids[j] != ids[k]
    ensures ids[i] in Inserted(carry, es, ids, now)
    ensures Inserted(carry, es, ids, now)[ids[i]] == MessageOf(carry, es[i], now)
  {
    if i < |es| - 1 { InsertedAt(carry, es[..|es| - 1], ids[..|es| - 1], now, i); }
  }

  /** The row is what the i-th fifteen parameters store. */
  ghost predicate FromParams(carry: seq<Value> -> string, params: seq<Value>, i: nat, row: Outbox.Row) {
    && (i + 1) * INSERT_COLUMN_COUNT <= |params|
    && var v := params[i * INSERT_COLUMN_COUNT..(i + 1) * INSERT_COLUMN_COUNT];
       Storable(v) && row == Stored(carry, v)
  }

  lemma BatchStored(carry: seq<Value> -> string, es: seq<Entry>, ids: seq<Id>, now: Time, i: nat)
    requires |ids| == |es| && i < |es| && forall j, k :: 0 <= j < k < |ids| ==> ids[j] != ids[k]
    ensures ids[i] in Inserted(carry, es, ids, now)
    ensures FromParams(carry, AllParams(es, ids, now), i, Outbox.NewRow(Inserted(carry, es, ids, now)[ids[i]]))
  {
    hide Inserted, AllParams, ParamsOf, MessageOf, Stored, Outbox.NewRow;
    InsertedAt(carry, es, ids, now, i);
    InsertNumbersRows(es, ids, now, i);
    InsertedRowIsNew(carry, es[i], ids[i], now);
  }

  lemma InsertedRows(x: Outbox.Box, entries: map<Id, Message>, maxRetries: int)
    ensures var after := Outbox.Apply(x, Outbox.Insert(entries), maxRetries).rows;
            && after.Keys == x.rows.Keys + entries.Keys
            && forall id :: id in after ==>
                 after[id] == if id in entries then Outbox.NewRow(entries[id]) else x.rows[id]
  {
  }

  class PgLocalOutbox {
    const tableName: string
    const maxRetries: int
    const carry: seq<Value> -> string
    var rows: Outbox.Table
    ghost var log: Outbox.Log

    ghost function Box(): Outbox.Box
      reads this
    {
      Outbox.Box(rows, log)
    }

    ghost predicate Valid()
      reads this
    {
      maxRetries >= 1 && Outbox.Inv(Box(), maxRetries)
    }

    constructor (tableName: string, maxRetries: int, carry: seq<Value> -> string)
      ensures Box() == Outbox.EMPTY && this.maxRetries == maxRetries && (maxRetries >= 1 ==> Valid())
    {
      this.tableName := tableName;
      this.maxRetries := maxRetries;
      this.carry := carry;
      rows := map[];
      log := Outbox.EMPTY.log;
    }

    /** One statement, run atomically. */
    method Query(st: Outbox.Stmt)
      requires Outbox.Enabled(Box(), st)
      modifies this
      ensures Box() == Outbox.Apply(old(Box()), st, maxRetries)
      ensures old(Valid()) ==> Valid()
    {
      if Valid() { Outbox.InvStep(Box(), st, maxRetries); }
      log := Outbox.ApplyLog(Box(), st);
      rows := Outbox.ApplyRows(rows, st, maxRetries);
    }

    /** The rows become visible when the caller's transaction commits. */
    method Insert(es: seq<Entry>, ids: seq<Id>, now: Time) returns (sql: string, params: seq<Value>)
      requires |ids| == |es| && (forall i, j :: 0 <= i < j < |ids| ==> ids[i] != ids[j])
      requires forall i :: 0 <= i < |es| ==> ids[i] !in log.committed && (es[i].id.Some? ==> es[i].id.value == ids[i])
      modifies this
      ensures es == [] ==> Box() == old(Box())
      ensures es != [] ==>
                && Box() == Outbox.Apply(old(Box()), Outbox.Insert(Inserted(carry, es, ids, now)), maxRetries)
                && sql == InsertSql(tableName, |es|) && params == AllParams(es, ids, now)
      ensures es != [] ==>
                forall i :: 0 <= i < |es| ==> ids[i] in rows && FromParams(carry, params, i, rows[ids[i]])
      ensures forall id :: id in old(rows) && id !in ids ==> id in rows && rows[id] == old(rows)[id]
      ensures forall id :: id in rows ==> id in old(rows) || id in ids
    {
      hide Inserted, FromParams, AllParams, ValueGroups, Outbox.Apply, Outbox.NewRow, JoinList;
      sql, params := "", [];
      if es == [] {
        return;
      }
      var groups: seq<string>;
      groups, params := LayOut(es, ids, now);
      sql := "INSERT INTO " + tableName + " (" + JoinList(COLUMNS) + ") VALUES " + JoinList(groups);
      InsertedKeys(carry, es, ids, now);
      forall i | 0 <= i < |es|
        ensures ids[i] in Inserted(carry, es, ids, now)
        ensures FromParams(carry, params, i, Outbox.NewRow(Inserted(carry, es, ids, now)[ids[i]]))
      {
        BatchStored(carry, es, ids, now, i);
      }
      InsertedRows(Box(), Inserted(carry, es, ids, now), maxRetries);
      Query(Outbox.Insert(Inserted(carry, es, ids, now)));
    }

    /** The inner SELECT of a claim. */
    method Candidates(limit: nat, locked: set<Id>) returns (chosen: set<Id>)
      ensures Oldest.Is(Outbox.CreatedAt(rows), Outbox.Pool(rows) - locked, limit, chosen)
      ensures chosen <= Outbox.Pool(rows) && chosen !! locked && |chosen| <= limit
      ensures forall id :: id in chosen ==> id in rows && rows[id].status == Outbox.PENDING
      ensures locked == {} && limit >= |rows| ==>
                forall id :: id in rows && rows[id].status == Outbox.PENDING ==> id in chosen
      ensures forall u :: u in rows && rows[u].status == Outbox.PENDING && u !in locked && u !in chosen ==>
                |chosen| == limit && forall c :: c in chosen ==> rows[c].message.createdAt <= rows[u].message.createdAt
    {
      hide Oldest.Is, Outbox.CreatedAt;
      ghost var pool := Outbox.Pool(rows);
      PoolIsOfRows(rows);
      Oldest.SubsetSize(pool - locked, rows.Keys);
      assert locked == {} ==> pool - locked == pool;
      chosen := Oldest.Select(Outbox.CreatedAt(rows), Outbox.Pool(rows) - locked, limit);
      Oldest.AllTaken(Outbox.CreatedAt(rows), pool - locked, limit, chosen);
      Oldest.TakenFrom(Outbox.CreatedAt(rows), pool, locked, limit, chosen);
      forall u | u in rows && rows[u].status == Outbox.PENDING && u !in locked && u !in chosen
        ensures |chosen| == limit && forall c :: c in chosen ==> rows[c].message.createdAt <= rows[u].message.createdAt
      {
        Oldest.OldestFirst(Outbox.CreatedAt(rows), pool - locked, limit, chosen, u);
        TimesOf(rows);
      }
    }

    method Claim(who: string, limit: nat, at: Time, locked: set<Id>) returns (claimed: map<Id, Outbox.Row>)
      modifies this
      ensures Oldest.Is(Outbox.CreatedAt(old(rows)), Outbox.Pool(old(rows)) - locked, limit, claimed.Keys)
      ensures Box() == Outbox.Apply(old(Box()), Outbox.Claim(who, at, limit, claimed.Keys), maxRetries)
      ensures forall id :: id in claimed ==> id in rows && claimed[id] == rows[id]
      ensures forall id :: id in claimed ==> id !in locked && id in old(rows) && old(rows)[id].status == Outbox.PENDING
      ensures forall id :: id in claimed ==>
                rows[id] == old(rows)[id].(status := Outbox.CLAIMED, claimedBy := Some(who), claimedAt := Some(at))
      ensures rows.Keys == old(rows).Keys && forall id :: id in rows && id !in claimed ==> rows[id] == old(rows)[id]
      ensures locked == {} && limit >= |old(rows)| ==>
                forall id :: id in old(rows) && old(rows)[id].status == Outbox.PENDING ==> id in claimed
      ensures forall u :: u in rows && rows[u].status == Outbox.PENDING && u !in locked ==>
                |claimed.Keys| == limit && forall c :: c in claimed ==>
                  rows[c].message.createdAt <= rows[u].message.createdAt
    {
      hide Outbox.Pool, Oldest.Is, Outbox.CreatedAt, Outbox.Apply;
      var chosen := Candidates(limit, locked);
      PoolIsOfRows(rows);
      ClaimedRows(Box(), who, at, limit, chosen, maxRetries);
      Query(Outbox.Claim(who, at, limit, chosen));
      claimed := map id | id in chosen && id in rows :: rows[id];
      assert claimed.Keys == chosen;
    }

    /** By id alone: the caller need not hold the row any more. */
    method MarkSent(id: Id, at: Time)
      modifies this
      ensures Box() == Outbox.Apply(old(Box()), Outbox.MarkSent(id, at), maxRetries)
      ensures if id in old(rows)
              then rows == old(rows)[id := old(rows)[id].(status := Outbox.SENT, publishedAt := Some(at),
                                                          claimedBy := None, claimedAt := None)]
              else rows == old(rows)
    {
      Query(Outbox.MarkSent(id, at));
    }

    /** One more failure; when the row was published is kept. */
    method MarkFailed(id: Id, reason: string)
      modifies this
      ensures Box() == Outbox.Apply(old(Box()), Outbox.MarkFailed(id, reason), maxRetries)
      ensures id in old(rows) ==>
                var was := old(rows)[id];
                var status := if was.retries + 1 >= maxRetries then Outbox.FAILED else Outbox.PENDING;
                rows == old(rows)[id := Outbox.Row(was.message, status, None, None, was.retries + 1, Some(reason),
                                                   was.publishedAt)]
      ensures id !in old(rows) ==> rows == old(rows)
    {
      Query(Outbox.MarkFailed(id, reason));
    }

    /** A claim is stale when it was made before `olderThan`. */
    method ResetStale(olderThan: Time) returns (count: nat)
      modifies this
      ensures Box() == Outbox.Apply(old(Box()), Outbox.ResetStale(olderThan), maxRetries)
      ensures exists reset: set<Id> :: count == |reset| && forall id :: id in reset <==>
                id in old(rows) && old(rows)[id].status == Outbox.CLAIMED && old(rows)[id].claimedAt.Some?
                && old(rows)[id].claimedAt.value < olderThan
      ensures rows.Keys == old(rows).Keys
      ensures forall id :: id in rows ==>
                var was := old(rows)[id];
                rows[id] == if was.status == Outbox.CLAIMED && was.claimedAt.Some? && was.claimedAt.value < olderThan
                            then was.(status := Outbox.PENDING, claimedBy := None, claimedAt := None) else was
    {
      var reset := set id | id in rows && Outbox.Stale(rows[id], olderThan);
      count := |reset|;
      Query(Outbox.ResetStale(olderThan));
    }

    /** Sweeps SENT rows, the oldest first when `max` is a positive limit. */
    method Cleanup(olderThan: Time, max: Option<nat>) returns (count: nat)
      modifies this
      ensures exists chosen ::
                && Outbox.Swept(old(rows), olderThan, max, chosen)
                && count == |chosen|
                && Box() == Outbox.Apply(old(Box()), Outbox.Cleanup(olderThan, max, chosen), maxRetries)
      ensures rows.Keys <= old(rows).Keys && count == |old(rows).Keys - rows.Keys|
      ensures forall id :: id in rows ==> rows[id] == old(rows)[id]
      ensures forall id :: id in old(rows) && id !in rows ==>
                && old(rows)[id].status == Outbox.SENT && old(rows)[id].publishedAt.Some?
                && old(rows)[id].publishedAt.value < olderThan
      ensures max.None? || max.value == 0 ==>
                forall id :: id in rows && rows[id].status == Outbox.SENT && rows[id].publishedAt.Some? ==>
                  rows[id].publishedAt.value >= olderThan
      ensures max.Some? && max.value > 0 ==> count <= max.value
      ensures max.Some? && max.value > 0 ==>
                forall u :: u in rows && rows[u].status == Outbox.SENT && rows[u].publishedAt.Some?
                            && rows[u].publishedAt.value < olderThan ==>
                  count == max.value && forall c :: c in old(rows) && c !in rows ==>
                    old(rows)[c].publishedAt.value <= rows[u].publishedAt.value
    {
      ghost var before := rows;
      var chosen := Outbox.Expired(rows, olderThan);
      if max.Some? && max.value > 0 {
        chosen := Oldest.Select(Outbox.PublishedAt(rows), chosen, max.value);
      }
      Query(Outbox.Cleanup(olderThan, max, chosen));
      assert before.Keys - rows.Keys == chosen;
      count := |chosen|;
      if max.Some? && max.value > 0 {
        forall u | u in rows && rows[u].status == Outbox.SENT && rows[u].publishedAt.Some?
                   && rows[u].publishedAt.value < olderThan
          ensures count == max.value
          ensures forall c :: c in chosen ==> before[c].publishedAt.value <= rows[u].publishedAt.value
        {
          TimesOf(before);
          Oldest.OldestFirst(Outbox.PublishedAt(before), Outbox.Expired(before, olderThan), max.value, chosen, u);
        }
      }
    }
  }

  /** Only the claimed rows change, and only in the three columns of a claim. */
  lemma ClaimedRows(x: Outbox.Box, who: string, at: Time, limit: nat, chosen: set<Id>, maxRetries: int)
    ensures var after := Outbox.Apply(x, Outbox.Claim(who, at, limit, chosen), maxRetries).rows;
            && after.Keys == x.rows.Keys
            && forall id :: id in after ==>
                 after[id] == if id in chosen
                              then x.rows[id].(status := Outbox.CLAIMED, claimedBy := Some(who), claimedAt := Some(at))
                              else x.rows[id]
  {
  }

  lemma TimesOf(rows: Outbox.Table)
    ensures Outbox.CreatedAt(rows).Keys == rows.Keys
    ensures forall id :: id in rows ==> Outbox.CreatedAt(rows)[id] == rows[id].message.createdAt
    ensures forall id :: id in rows && rows[id].publishedAt.Some? ==>
              id in Outbox.PublishedAt(rows) && Outbox.PublishedAt(rows)[id] == rows[id].publishedAt.value
  {
  }

  lemma PoolIsOfRows(rows: Outbox.Table)
    ensures Outbox.Pool(rows) <= rows.Keys == Outbox.CreatedAt(rows).Keys
  {
  }

  lemma {:induction false} InsertedKeys(carry: seq<Value> -> string, es: seq<Entry>, ids: seq<Id>, now: Time)
    requires |ids| == |es|
    ensures Inserted(carry, es, ids, now).Keys == set i | 0 <= i < |ids| :: ids[i]
  {
    if es != [] { InsertedKeys(carry, es[..|es| - 1], ids[..|es| - 1], now); }
  }
}
