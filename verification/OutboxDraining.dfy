/** The outbox settles too: a measure that survives SENT going back to PENDING. */
module OutboxDraining {
  import opened Types
  import opened Outbox
  import Draining

  function TriesLeft(row: Row, maxRetries: int): nat {
    if row.retries >= maxRetries then 0 else maxRetries - row.retries
  }

  /** A row being SENT keeps what a late markFailed could still cost. */
  function Weight(row: Row, maxRetries: int): nat {
    var r := TriesLeft(row, maxRetries);
    if r == 0 then 0
    else match row.status
      case PENDING => 2 * r
      case CLAIMED => 2 * r - 1
      case SENT => 2 * r - 2
      case FAILED => 0
  }

  ghost function Weights(rows: Table, maxRetries: int): map<Id, nat> {
    map id | id in rows :: Weight(rows[id], maxRetries)
  }

  ghost function Backlog(x: Box, maxRetries: int): nat { Draining.Sum(Weights(x.rows, maxRetries)) }

  predicate Drains(st: Stmt) { !st.Insert? && !st.ResetStale? }

  predicate Waiting(x: Box, id: Id) { id in x.rows && (x.rows[id].status == PENDING || x.rows[id].status == CLAIMED) }

  predicate Progress(x: Box, st: Stmt) {
    match st
    case Claim(_, _, _, chosen) => chosen != {}
    case MarkSent(id, _) => Waiting(x, id)
    case MarkFailed(id, _) => Waiting(x, id)
    case _ => false
  }

  lemma WeightsFall(x: Box, st: Stmt, maxRetries: int)
    requires RetryBudget(x, maxRetries) && Enabled(x, st) && Drains(st)
    ensures var w, w' := Weights(x.rows, maxRetries), Weights(Apply(x, st, maxRetries).rows, maxRetries);
            w'.Keys <= w.Keys && forall k :: k in w' ==> w'[k] <= w[k]
  {
    match st
    case Claim(_, _, _, chosen) => assert chosen <= Pool(x.rows);
    case MarkSent(_, _) =>
    case MarkFailed(_, _) =>
    case Cleanup(_, _, _) =>
  }

  lemma SomeWeightDrops(x: Box, st: Stmt, maxRetries: int) returns (k: Id)
    requires RetryBudget(x, maxRetries) && Enabled(x, st) && Drains(st) && Progress(x, st)
    ensures var w, w' := Weights(x.rows, maxRetries), Weights(Apply(x, st, maxRetries).rows, maxRetries);
            k in w && (if k in w' then w'[k] else 0) < w[k]
  {
    match st
    case Claim(_, _, _, chosen) =>
      k :| k in chosen;
      assert k in Pool(x.rows);
    case MarkSent(id, _) => k := id;
    case MarkFailed(id, _) => k := id;
  }

  lemma BacklogFalls(x: Box, st: Stmt, maxRetries: int)
    requires RetryBudget(x, maxRetries) && Enabled(x, st) && Drains(st)
    ensures Backlog(Apply(x, st, maxRetries), maxRetries) <= Backlog(x, maxRetries)
    ensures Progress(x, st) ==> Backlog(Apply(x, st, maxRetries), maxRetries) < Backlog(x, maxRetries)
  {
    hide RetryBudget, Enabled, Drains, Progress, Apply, Weights;
    var w, w' := Weights(x.rows, maxRetries), Weights(Apply(x, st, maxRetries).rows, maxRetries);
    WeightsFall(x, st, maxRetries);
    Draining.SumDrops(w, w');
    if Progress(x, st) {
      var k := SomeWeightDrops(x, st, maxRetries);
    }
  }

  ghost predicate Runs(x: Box, stmts: seq<Stmt>, maxRetries: int)
    decreases |stmts|
  {
    stmts == [] || (Enabled(x, stmts[0]) && Runs(Apply(x, stmts[0], maxRetries), stmts[1..], maxRetries))
  }

  function After(x: Box, stmts: seq<Stmt>, maxRetries: int): Box
    requires Runs(x, stmts, maxRetries)
    decreases |stmts|
  {
    if stmts == [] then x else After(Apply(x, stmts[0], maxRetries), stmts[1..], maxRetries)
  }

  ghost function Moves(x: Box, stmts: seq<Stmt>, maxRetries: int): nat
    decreases |stmts|
  {
    if stmts == [] then 0
    else (if Progress(x, stmts[0]) then 1 else 0) + Moves(Apply(x, stmts[0], maxRetries), stmts[1..], maxRetries)
  }

  /** However replicas interleave, also late ones that take a SENT row back to PENDING:
      claims and first answers together number at most the backlog they started from. */
  lemma {:induction false} ForwardingTerminates(x: Box, stmts: seq<Stmt>, maxRetries: int)
    requires maxRetries >= 1 && Inv(x, maxRetries) && Runs(x, stmts, maxRetries)
    requires forall k :: 0 <= k < |stmts| ==> Drains(stmts[k])
    ensures Moves(x, stmts, maxRetries) + Backlog(After(x, stmts, maxRetries), maxRetries) <= Backlog(x, maxRetries)
    decreases |stmts|
  {
    hide Inv, Enabled, Drains, Progress, Apply, Backlog;
    if stmts != [] {
      BudgetOf(x, maxRetries);
      BacklogFalls(x, stmts[0], maxRetries);
      InvStep(x, stmts[0], maxRetries);
      ForwardingTerminates(Apply(x, stmts[0], maxRetries), stmts[1..], maxRetries);
    }
  }

  lemma BudgetOf(x: Box, maxRetries: int)
    requires Inv(x, maxRetries)
    ensures RetryBudget(x, maxRetries)
  {
  }
}
