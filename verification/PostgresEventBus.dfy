/** PgEventBus itself: methods that run the statements of EventBus on a table they
    share with other clients. `others` is what those clients ran between two awaits. */
module PostgresEventBus {
  import opened Types
  import opened EventBus
  import Oldest

  /** What publish resolves to, or the error it throws. */
  datatype Published = Published(id: Id, inserted: bool) | NoRowFound

  lemma PoolIsOfRows(rows: Table, topics: seq<string>)
    ensures Pool(rows, topics) <= rows.Keys == CreatedAt(rows).Keys
  {
  }

  lemma WantedIsThere(rows: Table, topics: seq<string>)
    ensures forall id :: Wanted(rows, topics, id) ==> id in rows
  {
  }

  lemma CreationTimes(rows: Table)
    ensures CreatedAt(rows).Keys == rows.Keys
    ensures forall id :: id in rows ==> CreatedAt(rows)[id] == rows[id].event.createdAt
  {
  }

  /** A limited sweep takes the oldest expired rows. */
  lemma OldestSwept(rows: map<Id, Row>, olderThan: Time, limit: nat, chosen: set<Id>)
    requires Oldest.Is(CreatedAt(rows), Expired(rows, olderThan), limit, chosen)
    ensures forall u :: u in rows && u !in chosen && rows[u].status == FAILED && rows[u].event.createdAt < olderThan ==>
                          |chosen| == limit && forall c :: c in chosen ==>
                            c in rows && rows[c].event.createdAt <= rows[u].event.createdAt
  {
    hide Oldest.Is;
    CreationTimes(rows);
    assert Expired(rows, olderThan) - {} == Expired(rows, olderThan);
    Oldest.TakenFrom(CreatedAt(rows), Expired(rows, olderThan), {}, limit, chosen);
    forall u | u in rows && u !in chosen && rows[u].status == FAILED && rows[u].event.createdAt < olderThan
      ensures |chosen| == limit
      ensures forall c :: c in chosen ==> c in rows && rows[c].event.createdAt <= rows[u].event.createdAt
    {
      Oldest.OldestFirst(CreatedAt(rows), Expired(rows, olderThan), limit, chosen, u);
    }
  }

  /** What a sweep takes and what it leaves. */
  lemma SweptRows(b: EventBus.Bus, olderThan: Time, max: Option<nat>, chosen: set<Id>, maxRetries: int)
    requires Swept(b.rows, olderThan, max, chosen)
    ensures Apply(b, CleanupFailed(olderThan, max, chosen), maxRetries).rows == b.rows - chosen
    ensures chosen <= b.rows.Keys
    ensures forall id :: id in chosen ==> b.rows[id].status == FAILED && b.rows[id].event.createdAt < olderThan
    ensures max.None? || max.value == 0 ==>
              forall u :: u in b.rows && u !in chosen ==>
                !(b.rows[u].status == FAILED && b.rows[u].event.createdAt < olderThan)
    ensures max.Some? && max.value > 0 ==> |chosen| <= max.value
    ensures max.Some? && max.value > 0 ==>
              forall u :: u in b.rows && u !in chosen && b.rows[u].status == FAILED
                          && b.rows[u].event.createdAt < olderThan ==>
                |chosen| == max.value && forall c :: c in chosen ==>
                  b.rows[c].event.createdAt <= b.rows[u].event.createdAt
  {
    hide CreatedAt, Oldest.Is;
    CreationTimes(b.rows);
    assert Expired(b.rows, olderThan) - {} == Expired(b.rows, olderThan);
    if max.Some? && max.value > 0 {
      Oldest.TakenFrom(CreatedAt(b.rows), Expired(b.rows, olderThan), {}, max.value, chosen);
      OldestSwept(b.rows, olderThan, max.value, chosen);
    }
  }

  /** Only the claimed rows change, and only in the three columns of a claim. */
  lemma ClaimedRows(b: EventBus.Bus, who: string, at: Time, topics: seq<string>, limit: nat, chosen: set<Id>,
                    maxRetries: int)
    ensures var after := Apply(b, Claim(who, at, topics, limit, chosen), maxRetries).rows;
            && after.Keys == b.rows.Keys
            && forall id :: id in after ==>
                 after[id] == if id in chosen
                              then b.rows[id].(status := CLAIMED, claimedBy := Some(who), claimedAt := Some(at))
                              else b.rows[id]
  {
  }

  class PgEventBus {
    const maxRetries: int
    var rows: Table
    ghost var log: Log

    ghost function Bus(): EventBus.Bus
      reads this
    {
      EventBus.Bus(rows, log)
    }

    ghost predicate Valid()
      reads this
    {
      maxRetries >= 1 && Inv(Bus(), maxRetries)
    }

    constructor (maxRetries: int)
      ensures Bus() == EMPTY && this.maxRetries == maxRetries && (maxRetries >= 1 ==> Valid())
    {
      this.maxRetries := maxRetries;
      rows := map[];
      log := EMPTY.log;
    }

    /** pool.query: one statement, run atomically. */
    method Query(st: Stmt)
      requires Enabled(Bus(), st)
      modifies this
      ensures Bus() == Apply(old(Bus()), st, maxRetries)
      ensures old(Valid()) ==> Valid()
    {
      if Valid() { InvStep(Bus(), st, maxRetries); }
      log := ApplyLog(Bus(), st);
      rows := ApplyRows(rows, st, maxRetries);
    }

    /** Other clients run their statements. */
    method Interfere(others: seq<Stmt>)
      requires Runs(Bus(), others, maxRetries)
      modifies this
      ensures Bus() == After(old(Bus()), others, maxRetries)
      decreases |others|
    {
      if others != [] {
        Query(others[0]);
        Interfere(others[1..]);
      }
    }

    /** An insert that meets a live row with the same origin is skipped, and a second
        statement looks that row up, by which time others may have removed it. */
    method Publish(event: Event, id: Id, others: seq<Stmt>) returns (r: Published)
      requires id !in log.inserted
      requires Runs(Apply(Bus(), Insert(id, event), maxRetries), others, maxRetries)
      modifies this
      ensures !Conflicts(old(rows), event) ==>
                && r == Published(id, true)
                && id in rows && rows[id] == Row(event, PENDING, None, None, 0, None)
                && Bus() == Apply(old(Bus()), Insert(id, event), maxRetries)
      ensures Conflicts(old(rows), event) ==>
                && Bus() == After(old(Bus()), others, maxRetries)
                && (r.NoRowFound? <==> !Conflicts(rows, event))
                && (r.Published? ==> !r.inserted && r.id in rows && rows[r.id].event.origin == event.origin)
    {
      var skipped := Conflicts(rows, event);
      Query(Insert(id, event));
      if !skipped {
        return Published(id, true);
      }
      Interfere(others);
      if Conflicts(rows, event) {
        var existing :| existing in rows && rows[existing].event.origin == event.origin;
        r := Published(existing, false);
      } else {
        r := NoRowFound;
      }
    }

    /** The inner SELECT of a claim. */
    method Candidates(topics: seq<string>, limit: nat, locked: set<Id>) returns (chosen: set<Id>)
      ensures Oldest.Is(CreatedAt(rows), Pool(rows, topics) - locked, limit, chosen)
      ensures chosen <= Pool(rows, topics) && chosen !! locked && |chosen| <= limit
      ensures forall id :: id in chosen ==> Wanted(rows, topics, id)
      ensures locked == {} && limit >= |rows| ==> forall id :: id in chosen <==> Wanted(rows, topics, id)
      ensures forall u :: Wanted(rows, topics, u) && u !in locked && u !in chosen ==>
                |chosen| == limit && forall c :: c in chosen ==> rows[c].event.createdAt <= rows[u].event.createdAt
    {
      hide Pool, Eligible, Wanted, Oldest.Is, CreatedAt;
      forall id { PoolIsWanted(rows, topics, id); }
      ghost var pool := Pool(rows, topics);
      PoolIsOfRows(rows, topics);
      Oldest.SubsetSize(pool - locked, rows.Keys);
      assert locked == {} ==> pool - locked == pool;
      chosen := Oldest.Select(CreatedAt(rows), Pool(rows, topics) - locked, limit);
      Oldest.AllTaken(CreatedAt(rows), pool - locked, limit, chosen);
      Oldest.TakenFrom(CreatedAt(rows), pool, locked, limit, chosen);
      forall u | Wanted(rows, topics, u) && u !in locked && u !in chosen
        ensures |chosen| == limit && forall c :: c in chosen ==> rows[c].event.createdAt <= rows[u].event.createdAt
      {
        Oldest.OldestFirst(CreatedAt(rows), pool - locked, limit, chosen, u);
        CreationTimes(rows);
      }
    }

    /** Takes the oldest eligible rows that nobody holds locked, at most `limit`, and
        returns them as updated. */
    method Claim(who: string, limit: nat, topics: seq<string>, at: Time, locked: set<Id>)
      returns (claimed: map<Id, Row>)
      modifies this
      ensures Oldest.Is(CreatedAt(old(rows)), Pool(old(rows), topics) - locked, limit, claimed.Keys)
      ensures Bus() == Apply(old(Bus()), EventBus.Claim(who, at, topics, limit, claimed.Keys), maxRetries)
      ensures forall id :: id in claimed ==> id in rows && claimed[id] == rows[id]
      ensures forall id :: id in claimed ==> id !in locked && Wanted(old(rows), topics, id)
      ensures forall id :: id in claimed ==>
                rows[id] == old(rows)[id].(status := CLAIMED, claimedBy := Some(who), claimedAt := Some(at))
      ensures rows.Keys == old(rows).Keys && forall id :: id in rows && id !in claimed ==> rows[id] == old(rows)[id]
      ensures locked == {} && limit >= |old(rows)| ==> forall id :: id in claimed <==> Wanted(old(rows), topics, id)
      ensures forall u :: Wanted(old(rows), topics, u) && u !in locked && u !in claimed ==>
                |claimed.Keys| == limit && forall c :: c in claimed ==>
                  rows[c].event.createdAt <= rows[u].event.createdAt
    {
      hide Pool, Wanted, Oldest.Is, CreatedAt, Apply;
      var chosen := Candidates(topics, limit, locked);
      PoolIsOfRows(rows, topics);
      ClaimedRows(Bus(), who, at, topics, limit, chosen, maxRetries);
      WantedIsThere(rows, topics);
      Query(EventBus.Claim(who, at, topics, limit, chosen));
      claimed := map id | id in chosen && id in rows :: rows[id];
      assert claimed.Keys == chosen;
    }

    /** Deletes by id alone: the caller need not hold the row any more. */
    method MarkDone(id: Id)
      modifies this
      ensures Bus() == Apply(old(Bus()), EventBus.MarkDone(id), maxRetries)
      ensures id !in rows
    {
      Query(EventBus.MarkDone(id));
    }

    /** One more failure, by id alone; the claim, if any, is given up. */
    method MarkFailed(id: Id, reason: string)
      modifies this
      ensures Bus() == Apply(old(Bus()), EventBus.MarkFailed(id, reason), maxRetries)
      ensures id in old(rows) ==>
                var was := old(rows)[id];
                rows == old(rows)[id := Row(was.event, if was.retries + 1 >= maxRetries then FAILED else PENDING,
                                            None, None, was.retries + 1, Some(reason))]
      ensures id !in old(rows) ==> rows == old(rows)
    {
      Query(EventBus.MarkFailed(id, reason));
    }

    /** A claim is stale when it was made before `olderThan`. */
    method ResetStale(olderThan: Time) returns (count: nat)
      modifies this
      ensures Bus() == Apply(old(Bus()), EventBus.ResetStale(olderThan), maxRetries)
      ensures exists reset: set<Id> :: count == |reset| && forall id :: id in reset <==>
                id in old(rows) && old(rows)[id].status == CLAIMED && old(rows)[id].claimedAt.Some?
                && old(rows)[id].claimedAt.value < olderThan
      ensures rows.Keys == old(rows).Keys
      ensures forall id :: id in rows ==>
                var was := old(rows)[id];
                rows[id] == if was.status == CLAIMED && was.claimedAt.Some? && was.claimedAt.value < olderThan
                            then was.(status := PENDING, claimedBy := None, claimedAt := None) else was
    {
      var reset := set id | id in rows && Stale(rows[id], olderThan);
      count := |reset|;
      Query(EventBus.ResetStale(olderThan));
    }

    /** Sweeps FAILED rows, the oldest first when `max` is a positive limit. */
    method CleanupFailed(olderThan: Time, max: Option<nat>) returns (count: nat)
      modifies this
      ensures var chosen := old(rows).Keys - rows.Keys;
              && Swept(old(rows), olderThan, max, chosen) && count == |chosen|
              && Bus() == Apply(old(Bus()), EventBus.CleanupFailed(olderThan, max, chosen), maxRetries)
      ensures rows.Keys <= old(rows).Keys
      ensures forall id :: id in rows ==> rows[id] == old(rows)[id]
      ensures forall id :: id in old(rows) && id !in rows ==>
                old(rows)[id].status == FAILED && old(rows)[id].event.createdAt < olderThan
      ensures max.None? || max.value == 0 ==>
                forall id :: id in rows ==> !(rows[id].status == FAILED && rows[id].event.createdAt < olderThan)
      ensures max.Some? && max.value > 0 ==> count <= max.value
      ensures max.Some? && max.value > 0 ==>
                forall u :: u in rows && rows[u].status == FAILED && rows[u].event.createdAt < olderThan ==>
                  count == max.value && forall c :: c in old(rows) && c !in rows ==>
                    old(rows)[c].event.createdAt <= rows[u].event.createdAt
    {
      ghost var before := rows;
      var chosen := Expired(rows, olderThan);
      if max.Some? && max.value > 0 {
        chosen := Oldest.Select(CreatedAt(rows), chosen, max.value);
      }
      assert Enabled(Bus(), EventBus.CleanupFailed(olderThan, max, chosen));
      hide Swept, Expired, CreatedAt, Oldest.Is, Apply, Valid, Inv, Enabled;
      SweptRows(Bus(), olderThan, max, chosen, maxRetries);
      Query(EventBus.CleanupFailed(olderThan, max, chosen));
      assert before.Keys - rows.Keys == chosen;
      count := |chosen|;
    }
  }
}
