/** The `outbox_events` table and the statements PgLocalOutbox runs against it. */
module Outbox {
  import opened Types
  import Oldest

  datatype Status = PENDING | CLAIMED | SENT | FAILED

  datatype Row = Row(
    message: Message,
    status: Status,
    claimedBy: Option<string>,
    claimedAt: Option<Time>,
    retries: nat,
    lastError: Option<string>,
    publishedAt: Option<Time>)

  type Table = map<Id, Row>

  datatype Log = Log(
    committed: map<Id, Message>,
    cleaned: map<Id, Row>,
    claims: map<Id, nat>,
    resets: map<Id, nat>)

  datatype Box = Box(rows: Table, log: Log)

  const EMPTY: Box := Box(map[], Log(map[], map[], map[], map[]))

  datatype Stmt =
    | Insert(entries: map<Id, Message>)
    | Claim(who: string, at: Time, limit: nat, chosen: set<Id>)
    | MarkSent(id: Id, at: Time)
    | MarkFailed(id: Id, reason: string)
    | ResetStale(olderThan: Time)
    | Cleanup(olderThan: Time, max: Option<nat>, chosen: set<Id>)

  // ---------------------------------------------------------------- statements

  function NewRow(m: Message): Row {
    Row(m, PENDING, None, None, 0, None, None)
  }

  function Pool(rows: Table): set<Id> {
    set id | id in rows && rows[id].status == PENDING
  }

  function CreatedAt(rows: Table): map<Id, Time> {
    map id | id in rows :: rows[id].message.createdAt
  }

  function ClaimRows(rows: Table, who: string, at: Time, chosen: set<Id>): Table {
    map id | id in rows ::
      if id in chosen then rows[id].(status := CLAIMED, claimedBy := Some(who), claimedAt := Some(at)) else rows[id]
  }

  function SentRow(row: Row, at: Time): Row {
    row.(status := SENT, publishedAt := Some(at), claimedBy := None, claimedAt := None)
  }

  /** A failure keeps published_at: a row that was SENT may be PENDING again. */
  function FailRow(row: Row, reason: string, maxRetries: int): Row {
    row.(status := if row.retries + 1 >= maxRetries then FAILED else PENDING,
         claimedBy := None, claimedAt := None, retries := row.retries + 1, lastError := Some(reason))
  }

  predicate Stale(row: Row, olderThan: Time) {
    row.status == CLAIMED && row.claimedAt.Some? && row.claimedAt.value < olderThan
  }

  function ResetRows(rows: Table, olderThan: Time): Table {
    map id | id in rows ::
      if Stale(rows[id], olderThan) then rows[id].(status := PENDING, claimedBy := None, claimedAt := None)
         else rows[id]
  }

  function PublishedAt(rows: Table): map<Id, Time> {
    map id | id in rows && rows[id].publishedAt.Some? :: rows[id].publishedAt.value
  }

  function Expired(rows: Table, olderThan: Time): set<Id> {
    set id | id in rows && rows[id].status == SENT && rows[id].publishedAt.Some?
    && rows[id].publishedAt.value < olderThan
  }

  /** A limit of zero is falsy in the source and deletes without a limit. */
  predicate Swept(rows: Table, olderThan: Time, max: Option<nat>, chosen: set<Id>) {
    if max.Some? && max.value > 0
    then Oldest.Is(PublishedAt(rows), Expired(rows, olderThan), max.value, chosen)
    else chosen == Expired(rows, olderThan)
  }

  predicate Enabled(x: Box, st: Stmt) {
    match st
    case Insert(entries) => entries.Keys !! x.log.committed.Keys
    case Claim(_, _, limit, chosen) => Oldest.Skipping(Pool(x.rows), limit, chosen)
    case Cleanup(olderThan, max, chosen) => Swept(x.rows, olderThan, max, chosen)
    case _ => true
  }

  function Bump(counts: map<Id, nat>, ids: set<Id>): map<Id, nat> {
    map id | id in counts :: if id in ids then counts[id] + 1 else counts[id]
  }

  function ApplyRows(rows: Table, st: Stmt, maxRetries: int): Table {
    match st
    case Insert(entries) => rows + map id | id in entries :: NewRow(entries[id])
    case Claim(who, at, _, chosen) => ClaimRows(rows, who, at, chosen)
    case MarkSent(id, at) => if id in rows then rows[id := SentRow(rows[id], at)] else rows
    case MarkFailed(id, reason) => if id in rows then rows[id := FailRow(rows[id], reason, maxRetries)] else rows
    case ResetStale(olderThan) => ResetRows(rows, olderThan)
    case Cleanup(_, _, chosen) => rows - chosen
  }

  function ApplyLog(x: Box, st: Stmt): Log {
    match st
    case Insert(entries) =>
      x.log.(committed := x.log.committed + entries,
             claims := x.log.claims + map id | id in entries :: 0,
             resets := x.log.resets + map id | id in entries :: 0)
    case Claim(_, _, _, chosen) => x.log.(claims := Bump(x.log.claims, chosen))
    case MarkSent(_, _) => x.log
    case MarkFailed(_, _) => x.log
    case ResetStale(olderThan) =>
      x.log.(resets := Bump(x.log.resets, set id | id in x.rows && Stale(x.rows[id], olderThan)))
    case Cleanup(_, _, chosen) =>
      x.log.(cleaned := x.log.cleaned + map id | id in chosen && id in x.rows :: x.rows[id])
  }

  function Apply(x: Box, st: Stmt, maxRetries: int): Box {
    Box(ApplyRows(x.rows, st, maxRetries), ApplyLog(x, st))
  }

  // ---------------------------------------------------------------- invariants

  /** A committed message stays in the table until it is cleaned up while SENT. */
  ghost predicate Retained(x: Box) {
    && (forall id :: id in x.log.committed <==> id in x.rows || id in x.log.cleaned)
    && (forall id :: id in x.rows ==> id !in x.log.cleaned)
    && (forall id :: id in x.log.cleaned ==> x.log.cleaned[id].status == SENT)
  }

  ghost predicate Faithful(x: Box) {
    && (forall id :: id in x.rows ==> id in x.log.committed && x.rows[id].message == x.log.committed[id])
    && (forall id :: id in x.log.cleaned ==> id in x.log.committed && x.log.cleaned[id].message == x.log.committed[id])
  }

  /** A row that can still be sent has a try left, a FAILED one has none. SENT says
      nothing either way: it can be reached from both and is not final. */
  ghost predicate RetryBudget(x: Box, maxRetries: int) {
    forall id :: id in x.rows ==>
      && (x.rows[id].status == PENDING || x.rows[id].status == CLAIMED ==> x.rows[id].retries < maxRetries)
      && (x.rows[id].status == FAILED ==> x.rows[id].retries >= maxRetries)
  }

  ghost predicate ClaimsPaid(x: Box) {
    && x.rows.Keys <= x.log.claims.Keys
    && x.rows.Keys <= x.log.resets.Keys
    && forall id :: id in x.rows ==>
         x.log.claims[id] <= 1 + x.rows[id].retries + x.log.resets[id]
         && (x.rows[id].status == PENDING ==> x.log.claims[id] <= x.rows[id].retries + x.log.resets[id])
  }

  ghost predicate Inv(x: Box, maxRetries: int) {
    && Retained(x)
    && Faithful(x)
    && RetryBudget(x, maxRetries)
    && ClaimsPaid(x)
  }

  lemma {:induction false} RetainedStep(x: Box, st: Stmt, maxRetries: int)
    requires Retained(x) && Enabled(x, st)
    ensures Retained(Apply(x, st, maxRetries))
  {
    match st
    case Insert(_) =>
    case Claim(_, _, _, _) =>
    case MarkSent(_, _) =>
    case MarkFailed(_, _) =>
    case ResetStale(_) =>
    case Cleanup(_, _, chosen) => assert chosen <= Expired(x.rows, st.olderThan);
  }

  lemma FaithfulInsert(x: Box, st: Stmt, maxRetries: int)
    requires Faithful(x) && Enabled(x, st) && st.Insert?
    ensures Faithful(Apply(x, st, maxRetries))
  {
  }

  lemma {:induction false} FaithfulStep(x: Box, st: Stmt, maxRetries: int)
    requires Faithful(x) && Enabled(x, st)
    ensures Faithful(Apply(x, st, maxRetries))
  {
    hide Stale, Pool, Enabled, Expired;
    match st
    case Insert(_) => FaithfulInsert(x, st, maxRetries);
    case Claim(_, _, _, _) =>
    case MarkSent(_, _) =>
    case MarkFailed(_, _) =>
    case ResetStale(_) =>
    case Cleanup(_, _, _) =>
  }

  lemma {:induction false} RetryBudgetStep(x: Box, st: Stmt, maxRetries: int)
    requires maxRetries >= 1 && RetryBudget(x, maxRetries) && Enabled(x, st)
    ensures RetryBudget(Apply(x, st, maxRetries), maxRetries)
  {
    match st
    case Insert(_) =>
    case Claim(_, _, _, _) =>
    case MarkSent(_, _) =>
    case MarkFailed(_, _) =>
    case ResetStale(_) =>
    case Cleanup(_, _, _) =>
  }

  lemma {:induction false} ClaimsPaidStep(x: Box, st: Stmt, maxRetries: int)
    requires ClaimsPaid(x) && Enabled(x, st)
    ensures ClaimsPaid(Apply(x, st, maxRetries))
  {
    match st
    case Insert(_) =>
    case Claim(_, _, _, _) =>
    case MarkSent(_, _) =>
    case MarkFailed(_, _) =>
    case ResetStale(_) =>
    case Cleanup(_, _, _) =>
  }

  lemma InvStep(x: Box, st: Stmt, maxRetries: int)
    requires maxRetries >= 1 && Inv(x, maxRetries) && Enabled(x, st)
    ensures Inv(Apply(x, st, maxRetries), maxRetries)
  {
    RetainedStep(x, st, maxRetries);
    FaithfulStep(x, st, maxRetries);
    RetryBudgetStep(x, st, maxRetries);
    ClaimsPaidStep(x, st, maxRetries);
  }

  /** SENT is not final: exactly a markFailed takes it back, to PENDING while a try
      is left; a cleanup is the only other way out. */
  lemma {:induction false} LeavesSentIff(x: Box, st: Stmt, maxRetries: int, id: Id)
    requires Enabled(x, st) && Retained(x) && id in x.rows && x.rows[id].status == SENT
    ensures var rows := Apply(x, st, maxRetries).rows;
            && (id !in rows <==> st.Cleanup? && id in st.chosen)
            && (id in rows && rows[id].status != SENT <==> st.MarkFailed? && st.id == id)
            && (id in rows && rows[id].status == PENDING <==>
                  st.MarkFailed? && st.id == id && x.rows[id].retries + 1 < maxRetries)
  {
    match st
    case Insert(_) =>
    case Claim(_, _, _, chosen) => assert chosen <= Pool(x.rows);
    case MarkSent(_, _) =>
    case MarkFailed(_, _) =>
    case ResetStale(_) =>
    case Cleanup(_, _, _) =>
  }
}
