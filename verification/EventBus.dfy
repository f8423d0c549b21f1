/** The `events` table and the statements PgEventBus runs against it. Each SQL
    statement is one atomic step; `Log` is the history the properties speak of. */
module EventBus {
  import opened Types
  import Oldest

  datatype Status = PENDING | CLAIMED | FAILED

  datatype Row = Row(
    event: Event,
    status: Status,
    claimedBy: Option<string>,
    claimedAt: Option<Time>,
    retries: nat,
    lastError: Option<string>)

  type Table = map<Id, Row>

  /** Which rows ever entered and left, and how often each was claimed and reset.
      `batch` numbers the claim statement that claimed a row last. */
  datatype Log = Log(
    inserted: map<Id, Event>,
    done: map<Id, Row>,
    dropped: map<Id, Row>,
    claims: map<Id, nat>,
    resets: map<Id, nat>,
    batch: map<Id, nat>,
    batches: nat)

  datatype Bus = Bus(rows: Table, log: Log)

  const EMPTY: Bus := Bus(map[], Log(map[], map[], map[], map[], map[], map[], 0))

  datatype Stmt =
    | Insert(id: Id, event: Event)
    | Claim(who: string, at: Time, topics: seq<string>, limit: nat, chosen: set<Id>)
    | MarkDone(id: Id)
    | MarkFailed(id: Id, reason: string)
    | ResetStale(olderThan: Time)
    | CleanupFailed(olderThan: Time, max: Option<nat>, chosen: set<Id>)

  // ---------------------------------------------------------------- statements

  /** The partial unique index on origin_event_id would reject this insert. */
  predicate Conflicts(rows: Table, event: Event) {
    event.origin.Some? && exists id :: id in rows && rows[id].event.origin == event.origin
  }

  function NewRow(event: Event): Row {
    Row(event, PENDING, None, None, 0, None)
  }

  /** The NOT EXISTS guard: an aggregate with a CLAIMED row is busy. */
  predicate Busy(rows: Table, aggregate: Option<string>) {
    aggregate.Some? && exists id :: id in rows && rows[id].status == CLAIMED && rows[id].event.aggregate == aggregate
  }

  /** An empty topic list means no topic filter at all. */
  predicate Eligible(rows: Table, topics: seq<string>, id: Id) {
    && id in rows
    && rows[id].status == PENDING
    && (topics != [] ==> rows[id].event.eventType in topics)
    && !Busy(rows, rows[id].event.aggregate)
  }

  function Pool(rows: Table, topics: seq<string>): set<Id> {
    set id | id in rows && Eligible(rows, topics, id)
  }

  /** The rows a claim is meant for, column by column. */
  ghost predicate Wanted(rows: Table, topics: seq<string>, id: Id) {
    && id in rows
    && rows[id].status == PENDING
    && (topics == [] || exists k :: 0 <= k < |topics| && rows[id].event.eventType == topics[k])
    && (rows[id].event.aggregate.None?
        || !exists other :: other in rows && rows[other].status == CLAIMED
                            && rows[other].event.aggregate == rows[id].event.aggregate)
  }

  lemma PoolIsWanted(rows: Table, topics: seq<string>, id: Id)
    ensures id in Pool(rows, topics) <==> Wanted(rows, topics, id)
  {
  }

  function CreatedAt(rows: Table): map<Id, Time> {
    map id | id in rows :: rows[id].event.createdAt
  }

  function ClaimRows(rows: Table, who: string, at: Time, chosen: set<Id>): Table {
    map id | id in rows ::
      if id in chosen then rows[id].(status := CLAIMED, claimedBy := Some(who), claimedAt := Some(at)) else rows[id]
  }

  function FailRow(row: Row, reason: string, maxRetries: int): Row {
    Row(row.event, if row.retries + 1 >= maxRetries then FAILED else PENDING, None, None, row.retries + 1, Some(reason))
  }

  /** `claimed_at < $1` is unknown, hence not true, for a NULL claimed_at. */
  predicate Stale(row: Row, olderThan: Time) {
    row.status == CLAIMED && row.claimedAt.Some? && row.claimedAt.value < olderThan
  }

  function ResetRows(rows: Table, olderThan: Time): Table {
    map id | id in rows ::
      if Stale(rows[id], olderThan) then rows[id].(status := PENDING, claimedBy := None, claimedAt := None)
         else rows[id]
  }

  function Expired(rows: Table, olderThan: Time): set<Id> {
    set id | id in rows && rows[id].status == FAILED && rows[id].event.createdAt < olderThan
  }

  /** A limit of zero is falsy in the source and deletes without a limit. */
  predicate Swept(rows: Table, olderThan: Time, max: Option<nat>, chosen: set<Id>) {
    if max.Some? && max.value > 0
    then Oldest.Is(CreatedAt(rows), Expired(rows, olderThan), max.value, chosen)
    else chosen == Expired(rows, olderThan)
  }

  predicate Enabled(b: Bus, st: Stmt) {
    match st
    case Insert(id, _) => id !in b.log.inserted
    case Claim(_, _, topics, limit, chosen) => Oldest.Skipping(Pool(b.rows, topics), limit, chosen)
    case CleanupFailed(olderThan, max, chosen) => Swept(b.rows, olderThan, max, chosen)
    case _ => true
  }

  function Bump(counts: map<Id, nat>, ids: set<Id>): map<Id, nat> {
    map id | id in counts :: if id in ids then counts[id] + 1 else counts[id]
  }

  /** What a statement does to the table. */
  function ApplyRows(rows: Table, st: Stmt, maxRetries: int): Table {
    match st
    case Insert(id, event) => if Conflicts(rows, event) then rows else rows[id := NewRow(event)]
    case Claim(who, at, _, _, chosen) => ClaimRows(rows, who, at, chosen)
    case MarkDone(id) => rows - {id}
    case MarkFailed(id, reason) => if id in rows then rows[id := FailRow(rows[id], reason, maxRetries)] else rows
    case ResetStale(olderThan) => ResetRows(rows, olderThan)
    case CleanupFailed(_, _, chosen) => rows - chosen
  }

  /** What it adds to the history. */
  function ApplyLog(b: Bus, st: Stmt): Log {
    match st
    case Insert(id, event) =>
      if Conflicts(b.rows, event) then b.log
      else b.log.(inserted := b.log.inserted[id := event],
                  claims := b.log.claims[id := 0],
                  resets := b.log.resets[id := 0],
                  batch := b.log.batch[id := 0])
    case Claim(_, _, _, _, chosen) =>
      b.log.(claims := Bump(b.log.claims, chosen),
             batch := map id | id in b.log.batch :: if id in chosen then b.log.batches + 1 else b.log.batch[id],
             batches := b.log.batches + 1)
    case MarkDone(id) => if id in b.rows then b.log.(done := b.log.done[id := b.rows[id]]) else b.log
    case MarkFailed(_, _) => b.log
    case ResetStale(olderThan) =>
      b.log.(resets := Bump(b.log.resets, set id | id in b.rows && Stale(b.rows[id], olderThan)))
    case CleanupFailed(_, _, chosen) =>
      b.log.(dropped := b.log.dropped + map id | id in chosen && id in b.rows :: b.rows[id])
  }

  function Apply(b: Bus, st: Stmt, maxRetries: int): Bus {
    Bus(ApplyRows(b.rows, st, maxRetries), ApplyLog(b, st))
  }

  // ---------------------------------------------------------------- invariants

  /** Whatever was inserted is in the table, was deleted by markDone, or was swept
      away by cleanupFailed, and exactly one of the three. */
  ghost predicate Accounted(b: Bus) {
    && (forall id :: id in b.log.inserted <==> id in b.rows || id in b.log.done || id in b.log.dropped)
    && (forall id :: id in b.rows ==> id !in b.log.done && id !in b.log.dropped)
    && (forall id :: id in b.log.done ==> id !in b.log.dropped)
  }

  /** Rows keep the message they were inserted with, and only a FAILED row with no
      retries left is ever swept away. */
  ghost predicate Faithful(b: Bus, maxRetries: int) {
    && (forall id :: id in b.rows ==> id in b.log.inserted && b.rows[id].event == b.log.inserted[id])
    && (forall id :: id in b.log.done ==> id in b.log.inserted && b.log.done[id].event == b.log.inserted[id])
    && (forall id :: id in b.log.dropped ==>
          && id in b.log.inserted
          && b.log.dropped[id].event == b.log.inserted[id]
          && b.log.dropped[id].status == FAILED
          && b.log.dropped[id].retries >= maxRetries)
  }

  /** At most one live row per non-null origin_event_id. */
  ghost predicate OneLiveRowPerOrigin(b: Bus) {
    forall i, j ::
      (i in b.rows && j in b.rows && b.rows[i].event.origin.Some? && b.rows[i].event.origin == b.rows[j].event.origin)
      ==> i == j
  }

  /** All CLAIMED rows of one aggregate were claimed by one statement. */
  ghost predicate OneBatchPerAggregate(b: Bus) {
    && b.rows.Keys <= b.log.batch.Keys
    && (forall id :: id in b.log.batch ==> b.log.batch[id] <= b.log.batches)
    && forall i, j ::
         i in b.rows && j in b.rows && SharesClaimedAggregate(b.rows[i], b.rows[j])
         ==> && b.rows[i].claimedBy == b.rows[j].claimedBy
             && b.rows[i].claimedAt == b.rows[j].claimedAt
             && b.log.batch[i] == b.log.batch[j]
  }

  predicate SharesClaimedAggregate(r: Row, s: Row) {
    r.status == CLAIMED && s.status == CLAIMED && r.event.aggregate.Some? && r.event.aggregate == s.event.aggregate
  }

  /** claimed_by and claimed_at are set exactly while a row is CLAIMED. */
  ghost predicate ClaimColumns(b: Bus) {
    forall id :: id in b.rows ==>
      && (b.rows[id].status == CLAIMED <==> b.rows[id].claimedBy.Some?)
      && (b.rows[id].status == CLAIMED <==> b.rows[id].claimedAt.Some?)
  }

  ghost predicate RetryBudget(b: Bus, maxRetries: int) {
    forall id :: id in b.rows ==> (b.rows[id].status == FAILED <==> b.rows[id].retries >= maxRetries)
  }

  /** Every claim is paid for by a recorded failure, a stale reset, or the claim
      still being held. */
  ghost predicate ClaimsPaid(b: Bus) {
    && b.rows.Keys <= b.log.claims.Keys
    && b.rows.Keys <= b.log.resets.Keys
    && forall id :: id in b.rows ==>
         b.log.claims[id] <= b.rows[id].retries + b.log.resets[id] + (if b.rows[id].status == CLAIMED then 1 else 0)
  }

  ghost predicate Inv(b: Bus, maxRetries: int) {
    && Accounted(b)
    && Faithful(b, maxRetries)
    && OneLiveRowPerOrigin(b)
    && OneBatchPerAggregate(b)
    && ClaimColumns(b)
    && RetryBudget(b, maxRetries)
    && ClaimsPaid(b)
  }

  lemma {:induction false} AccountedStep(b: Bus, st: Stmt, maxRetries: int)
    requires Accounted(b) && Enabled(b, st)
    ensures Accounted(Apply(b, st, maxRetries))
  {
    match st
    case Insert(_, _) =>
    case Claim(_, _, _, _, _) =>
    case MarkDone(_) =>
    case MarkFailed(_, _) =>
    case ResetStale(_) =>
    case CleanupFailed(_, _, chosen) =>
      assert chosen <= Expired(b.rows, st.olderThan);
  }

  lemma FaithfulSweep(b: Bus, st: Stmt, maxRetries: int)
    requires Faithful(b, maxRetries) && RetryBudget(b, maxRetries) && Enabled(b, st) && st.CleanupFailed?
    ensures Faithful(Apply(b, st, maxRetries), maxRetries)
  {
    assert st.chosen <= Expired(b.rows, st.olderThan);
  }

  lemma FaithfulInsert(b: Bus, id: Id, event: Event, maxRetries: int)
    requires Accounted(b) && Faithful(b, maxRetries) && Enabled(b, Insert(id, event))
    ensures Faithful(Apply(b, Insert(id, event), maxRetries), maxRetries)
  {
  }

  /** No other statement brings a row in or changes its message. */
  lemma {:induction false} RowKept(b: Bus, st: Stmt, maxRetries: int, id: Id)
    requires !st.Insert? && id in Apply(b, st, maxRetries).rows
    ensures id in b.rows && Apply(b, st, maxRetries).rows[id].event == b.rows[id].event
  {
    match st
    case Claim(_, _, _, _, _) =>
    case MarkDone(_) =>
    case MarkFailed(_, _) =>
    case ResetStale(_) =>
    case CleanupFailed(_, _, _) =>
  }

  lemma LogKept(b: Bus, st: Stmt, maxRetries: int)
    requires !st.Insert? && !st.CleanupFailed?
    ensures var log := Apply(b, st, maxRetries).log;
            && log.inserted == b.log.inserted && log.dropped == b.log.dropped
            && forall id :: id in log.done ==>
                 (id in b.log.done && log.done[id] == b.log.done[id]) || (id in b.rows && log.done[id] == b.rows[id])
  {
  }

  lemma FaithfulOther(b: Bus, st: Stmt, maxRetries: int)
    requires Accounted(b) && Faithful(b, maxRetries) && Enabled(b, st) && !st.CleanupFailed?
    ensures Faithful(Apply(b, st, maxRetries), maxRetries)
  {
    hide Apply, Enabled;
    if st.Insert? {
      FaithfulInsert(b, st.id, st.event, maxRetries);
    } else {
      LogKept(b, st, maxRetries);
      forall id | id in Apply(b, st, maxRetries).rows
        ensures id in b.rows && Apply(b, st, maxRetries).rows[id].event == b.rows[id].event
      {
        RowKept(b, st, maxRetries, id);
      }
    }
  }

  lemma {:induction false} OneLiveRowStep(b: Bus, st: Stmt, maxRetries: int)
    requires OneLiveRowPerOrigin(b) && Enabled(b, st)
    ensures OneLiveRowPerOrigin(Apply(b, st, maxRetries))
  {
    match st
    case Insert(_, _) =>
    case Claim(_, _, _, _, _) =>
    case MarkDone(_) =>
    case MarkFailed(_, _) =>
    case ResetStale(_) =>
    case CleanupFailed(_, _, _) =>
  }

  lemma UnsharedClaim(b: Bus, st: Stmt, maxRetries: int)
    requires OneBatchPerAggregate(b) && st.Claim?
    requires forall id :: id in st.chosen && id in b.rows ==> !Busy(b.rows, b.rows[id].event.aggregate)
    ensures OneBatchPerAggregate(Apply(b, st, maxRetries))
  {
    var b' := Apply(b, st, maxRetries);
    forall i, j | i in b'.rows && j in b'.rows && SharesClaimedAggregate(b'.rows[i], b'.rows[j])
      ensures b'.rows[i].claimedBy == b'.rows[j].claimedBy
      ensures b'.rows[i].claimedAt == b'.rows[j].claimedAt
      ensures b'.log.batch[i] == b'.log.batch[j]
    {
      if i !in st.chosen && j !in st.chosen {
        assert SharesClaimedAggregate(b.rows[i], b.rows[j]);
      }
    }
  }

  /** The guard is read by the statement that claims, so a chosen row's aggregate
      has no other holder. */
  lemma OneBatchClaim(b: Bus, st: Stmt, maxRetries: int)
    requires OneBatchPerAggregate(b) && st.Claim? && Enabled(b, st)
    ensures OneBatchPerAggregate(Apply(b, st, maxRetries))
  {
    assert forall id :: id in st.chosen ==> Eligible(b.rows, st.topics, id);
    UnsharedClaim(b, st, maxRetries);
  }

  /** No other statement makes a row CLAIMED or changes a claim that stays. */
  lemma {:induction false} ClaimsOnlyEnd(b: Bus, st: Stmt, maxRetries: int, id: Id)
    requires !st.Claim? && Enabled(b, st) && b.rows.Keys <= b.log.batch.Keys
    requires id in Apply(b, st, maxRetries).rows && Apply(b, st, maxRetries).rows[id].status == CLAIMED
    ensures id in b.rows && b.rows[id] == Apply(b, st, maxRetries).rows[id]
    ensures id in Apply(b, st, maxRetries).log.batch && Apply(b, st, maxRetries).log.batch[id] == b.log.batch[id]
  {
    match st
    case Insert(_, _) =>
    case MarkDone(_) =>
    case MarkFailed(_, _) =>
    case ResetStale(_) =>
    case CleanupFailed(_, _, _) =>
  }

  lemma OneBatchOther(b: Bus, st: Stmt, maxRetries: int)
    requires OneBatchPerAggregate(b) && !st.Claim? && Enabled(b, st)
    ensures OneBatchPerAggregate(Apply(b, st, maxRetries))
  {
    var b' := Apply(b, st, maxRetries);
    forall i, j | i in b'.rows && j in b'.rows && SharesClaimedAggregate(b'.rows[i], b'.rows[j])
      ensures b'.rows[i].claimedBy == b'.rows[j].claimedBy
      ensures b'.rows[i].claimedAt == b'.rows[j].claimedAt
      ensures b'.log.batch[i] == b'.log.batch[j]
    {
      ClaimsOnlyEnd(b, st, maxRetries, i);
      ClaimsOnlyEnd(b, st, maxRetries, j);
      assert SharesClaimedAggregate(b.rows[i], b.rows[j]);
    }
  }

  lemma {:induction false} ColumnsAndBudgetStep(b: Bus, st: Stmt, maxRetries: int)
    requires maxRetries >= 1
    requires ClaimColumns(b) && RetryBudget(b, maxRetries) && Enabled(b, st)
    ensures ClaimColumns(Apply(b, st, maxRetries)) && RetryBudget(Apply(b, st, maxRetries), maxRetries)
  {
    match st
    case Insert(_, _) =>
    case Claim(_, _, _, _, _) =>
    case MarkDone(_) =>
    case MarkFailed(_, _) =>
    case ResetStale(_) =>
    case CleanupFailed(_, _, _) =>
  }

  lemma {:induction false} ClaimsPaidStep(b: Bus, st: Stmt, maxRetries: int)
    requires ClaimsPaid(b) && Enabled(b, st)
    ensures ClaimsPaid(Apply(b, st, maxRetries))
  {
    match st
    case Insert(_, _) =>
    case Claim(_, _, _, _, _) =>
    case MarkDone(_) =>
    case MarkFailed(_, _) =>
    case ResetStale(_) =>
    case CleanupFailed(_, _, _) =>
  }

  lemma InvStep(b: Bus, st: Stmt, maxRetries: int)
    requires maxRetries >= 1
    requires Inv(b, maxRetries) && Enabled(b, st)
    ensures Inv(Apply(b, st, maxRetries), maxRetries)
  {
    AccountedStep(b, st, maxRetries);
    if st.CleanupFailed? { FaithfulSweep(b, st, maxRetries); } else { FaithfulOther(b, st, maxRetries); }
    OneLiveRowStep(b, st, maxRetries);
    if st.Claim? { OneBatchClaim(b, st, maxRetries); } else { OneBatchOther(b, st, maxRetries); }
    ColumnsAndBudgetStep(b, st, maxRetries);
    ClaimsPaidStep(b, st, maxRetries);
  }

  // ---------------------------------------------------------------------- runs

  /** `stmts`, in this order, is what any number of clients did from `b` on. */
  ghost predicate Runs(b: Bus, stmts: seq<Stmt>, maxRetries: int)
    decreases |stmts|
  {
    stmts == [] || (Enabled(b, stmts[0]) && Runs(Apply(b, stmts[0], maxRetries), stmts[1..], maxRetries))
  }

  ghost function After(b: Bus, stmts: seq<Stmt>, maxRetries: int): Bus
    decreases |stmts|
  {
    if stmts == [] then b else After(Apply(b, stmts[0], maxRetries), stmts[1..], maxRetries)
  }

  lemma {:induction false} EveryRunFrom(b: Bus, stmts: seq<Stmt>, maxRetries: int)
    requires maxRetries >= 1
    requires Inv(b, maxRetries) && Runs(b, stmts, maxRetries)
    ensures Inv(After(b, stmts, maxRetries), maxRetries)
    decreases |stmts|
  {
    if stmts != [] {
      InvStep(b, stmts[0], maxRetries);
      EveryRunFrom(Apply(b, stmts[0], maxRetries), stmts[1..], maxRetries);
    }
  }

  /** One batch per aggregate, in every state any clients can reach. */
  lemma ClaimedAggregateHasOneBatch(stmts: seq<Stmt>, maxRetries: int, i: Id, j: Id)
    requires maxRetries >= 1 && Runs(EMPTY, stmts, maxRetries)
    requires i in After(EMPTY, stmts, maxRetries).rows && j in After(EMPTY, stmts, maxRetries).rows
    ensures var rows := After(EMPTY, stmts, maxRetries).rows;
            rows[i].status == CLAIMED && rows[j].status == CLAIMED
            && rows[i].event.aggregate.Some? && rows[i].event.aggregate == rows[j].event.aggregate
            ==> rows[i].claimedBy == rows[j].claimedBy && rows[i].claimedAt == rows[j].claimedAt
  {
    EveryRunFrom(EMPTY, stmts, maxRetries);
    var b := After(EMPTY, stmts, maxRetries);
    assert SharesClaimedAggregate(b.rows[i], b.rows[j]) ==> b.rows[i].claimedBy == b.rows[j].claimedBy;
  }

  /** While a row is held it has been claimed at most maxRetries times, not counting
      the claims that a stale reset took back. */
  lemma ClaimsAreBounded(stmts: seq<Stmt>, maxRetries: int, id: Id)
    requires maxRetries >= 1 && Runs(EMPTY, stmts, maxRetries)
    requires id in After(EMPTY, stmts, maxRetries).rows
    requires After(EMPTY, stmts, maxRetries).rows[id].status == CLAIMED
    ensures var b := After(EMPTY, stmts, maxRetries);
            id in b.log.claims && id in b.log.resets && b.log.claims[id] <= maxRetries + b.log.resets[id]
  {
    EveryRunFrom(EMPTY, stmts, maxRetries);
  }

  /** The retry budget holds in every run exactly when maxRetries allows one try. */
  lemma BudgetHoldsIffOneTryAllowed(maxRetries: int)
    ensures maxRetries >= 1
            <==> forall stmts :: Runs(EMPTY, stmts, maxRetries) ==>
              RetryBudget(After(EMPTY, stmts, maxRetries), maxRetries)
  {
    if maxRetries >= 1 {
      forall stmts | Runs(EMPTY, stmts, maxRetries)
        ensures RetryBudget(After(EMPTY, stmts, maxRetries), maxRetries)
      {
        EveryRunFrom(EMPTY, stmts, maxRetries);
      }
    } else {
      var st := Insert(0, Event("t", "k", "s", None, None, "", 0));
      var one := Apply(EMPTY, st, maxRetries);
      assert Runs(one, [], maxRetries) && [st][1..] == [];
      assert Runs(EMPTY, [st], maxRetries);
      assert After(EMPTY, [st], maxRetries) == one;
      assert one.rows[0].status == PENDING;
    }
  }

  // ------------------------------------------------- what is not promised, and when

  /** Claiming with a guard that was read in an older snapshot `seen`. Row locks make
      sure a chosen row is still PENDING; nothing rechecks its aggregate. */
  ghost predicate ClaimableFrom(seen: Table, rows: Table, topics: seq<string>, chosen: set<Id>) {
    forall id :: id in chosen ==> Eligible(seen, topics, id) && id in rows && rows[id].status == PENDING
                                  && rows[id].event == seen[id].event
  }

  lemma BusyMeansTwo(b: Bus, seen: Table, st: Stmt, maxRetries: int, i: Id)
    requires OneBatchPerAggregate(b) && st.Claim? && ClaimableFrom(seen, b.rows, st.topics, st.chosen)
    requires i in st.chosen && Busy(b.rows, b.rows[i].event.aggregate)
    ensures !OneBatchPerAggregate(Apply(b, st, maxRetries))
  {
    var b' := Apply(b, st, maxRetries);
    var j :| j in b.rows && b.rows[j].status == CLAIMED && b.rows[j].event.aggregate == b.rows[i].event.aggregate;
    assert j !in st.chosen;
    assert SharesClaimedAggregate(b'.rows[i], b'.rows[j]);
    assert b'.log.batch[i] != b'.log.batch[j];
  }

  /** Such a claim keeps one batch per aggregate exactly when no chosen row's
      aggregate became busy since the snapshot: the guard must be read under the lock. */
  lemma SnapshotClaim(b: Bus, seen: Table, st: Stmt, maxRetries: int)
    requires OneBatchPerAggregate(b) && st.Claim? && ClaimableFrom(seen, b.rows, st.topics, st.chosen)
    ensures OneBatchPerAggregate(Apply(b, st, maxRetries))
            <==> forall id :: id in st.chosen ==> !Busy(b.rows, b.rows[id].event.aggregate)
  {
    hide Apply, OneBatchPerAggregate, Busy;
    if forall id :: id in st.chosen ==> !Busy(b.rows, b.rows[id].event.aggregate) {
      UnsharedClaim(b, st, maxRetries);
    } else {
      var i :| i in st.chosen && Busy(b.rows, b.rows[i].event.aggregate);
      BusyMeansTwo(b, seen, st, maxRetries, i);
    }
  }

  /** Two rows of one aggregate; the second claim decides from a snapshot taken before the
      first one committed, and both rows end up held by different consumers. */
  lemma StaleSnapshotSplitsAggregate(maxRetries: int) returns (b: Bus, seen: Table, st: Stmt)
    requires maxRetries >= 1
    ensures Inv(b, maxRetries) && st.Claim? && ClaimableFrom(seen, b.rows, st.topics, st.chosen)
    ensures !OneBatchPerAggregate(Apply(b, st, maxRetries))
  {
    hide Inv, OneBatchPerAggregate;
    var event := Event("t", "k", "s", Some("order-1"), None, "", 0);
    EmptyInv(maxRetries);
    InvStep(EMPTY, Insert(0, event), maxRetries);
    var b1 := Apply(EMPTY, Insert(0, event), maxRetries);
    InvStep(b1, Insert(1, event), maxRetries);
    var b2 := Apply(b1, Insert(1, event), maxRetries);
    seen := b2.rows;
    assert seen == map[0 := NewRow(event), 1 := NewRow(event)];
    var first := Claim("one", 0, [], 1, {0});
    assert Eligible(seen, [], 0);
    InvStep(b2, first, maxRetries);
    b := Apply(b2, first, maxRetries);
    st := Claim("two", 0, [], 1, {1});
    assert b.rows[0].status == CLAIMED;
    assert Busy(b.rows, b.rows[1].event.aggregate);
    InvSplits(b, maxRetries);
    BusyMeansTwo(b, seen, st, maxRetries, 1);
  }

  lemma EmptyInv(maxRetries: int)
    ensures Inv(EMPTY, maxRetries)
  {
  }

  lemma InvSplits(b: Bus, maxRetries: int)
    requires Inv(b, maxRetries)
    ensures OneBatchPerAggregate(b)
  {
  }

  /** Dedup lasts while the row lives: an insert with an origin takes effect exactly
      when no live row has that origin, whatever was inserted before. */
  lemma DedupWindow(b: Bus, id: Id, event: Event, maxRetries: int)
    requires id !in b.log.inserted && Accounted(b) && event.origin.Some?
    ensures id in Apply(b, Insert(id, event), maxRetries).log.inserted
            <==> forall other :: other in b.rows ==> b.rows[other].event.origin != event.origin
  {
  }
}
