/** Draining terminates: with no new messages and no stale resets the clients can
    make only finitely many steps that move the queue. */
module Draining {
  import opened Types
  import opened EventBus

  // ------------------------------------------------------------- sums over a map

  ghost function Sum(w: map<Id, nat>): nat
    decreases |w|
  {
    if w == map[] then 0
    else
      var k :| k in w;
      w[k] + Sum(w - {k})
  }

  lemma {:induction false} SumPick(w: map<Id, nat>, k: Id)
    requires k in w
    ensures Sum(w) == w[k] + Sum(w - {k})
    decreases |w|
  {
    var j :| j in w && Sum(w) == w[j] + Sum(w - {j});
    if j != k {
      SumPick(w - {j}, k);
      SumPick(w - {k}, j);
      assert w - {j} - {k} == w - {k} - {j};
    }
  }

  /** Fewer keys with smaller weights sum to less; `k` shows where it is strict. */
  lemma {:induction false} SumDrops(w: map<Id, nat>, w': map<Id, nat>)
    requires w'.Keys <= w.Keys && forall k :: k in w' ==> w'[k] <= w[k]
    ensures Sum(w') <= Sum(w)
    ensures (exists k :: k in w && (if k in w' then w'[k] else 0) < w[k]) ==> Sum(w') < Sum(w)
    decreases |w|
  {
    if w != map[] {
      var j :| j in w;
      SumPick(w, j);
      SumDrops(w - {j}, w' - {j});
      if j in w' {
        SumPick(w', j);
      } else {
        assert w' - {j} == w';
      }
      if k :| k in w && (if k in w' then w'[k] else 0) < w[k] && k != j {
        assert k in w - {j} && (if k in w' - {j} then (w' - {j})[k] else 0) < (w - {j})[k];
      }
    }
  }

  // ------------------------------------------------------------------ the measure

  /** What a row can still cost: one claim and one failure for each retry left. */
  function Weight(row: Row, maxRetries: int): nat {
    if row.status == FAILED || row.retries >= maxRetries then 0
    else if row.status == PENDING then 2 * (maxRetries - row.retries)
    else 2 * (maxRetries - row.retries) - 1
  }

  ghost function Weights(rows: Table, maxRetries: int): map<Id, nat> {
    map id | id in rows :: Weight(rows[id], maxRetries)
  }

  ghost function Backlog(b: Bus, maxRetries: int): nat {
    Sum(Weights(b.rows, maxRetries))
  }

  /** No new message, no claim taken back. */
  predicate Drains(st: Stmt) {
    !st.Insert? && !st.ResetStale?
  }

  /** A step that moves the queue: a claim that got something, an acknowledgement or
      a failure of a row that was still to be handled. */
  predicate Progress(b: Bus, st: Stmt) {
    match st
    case Claim(_, _, _, _, chosen) => chosen != {}
    case MarkDone(id) => id in b.rows && b.rows[id].status != FAILED
    case MarkFailed(id, _) => id in b.rows && b.rows[id].status != FAILED
    case _ => false
  }

  lemma {:induction false} WeightsFall(b: Bus, st: Stmt, maxRetries: int)
    requires RetryBudget(b, maxRetries) && Enabled(b, st) && Drains(st)
    ensures var w, w' := Weights(b.rows, maxRetries), Weights(Apply(b, st, maxRetries).rows, maxRetries);
            w'.Keys <= w.Keys && forall k :: k in w' ==> w'[k] <= w[k]
  {
    match st
    case Claim(_, _, _, _, chosen) => assert chosen <= Pool(b.rows, st.topics);
    case MarkDone(_) =>
    case MarkFailed(_, _) =>
    case CleanupFailed(_, _, _) =>
  }

  lemma {:induction false} SomeWeightDrops(b: Bus, st: Stmt, maxRetries: int) returns (k: Id)
    requires RetryBudget(b, maxRetries) && Enabled(b, st) && Drains(st) && Progress(b, st)
    ensures var w, w' := Weights(b.rows, maxRetries), Weights(Apply(b, st, maxRetries).rows, maxRetries);
            k in w && (if k in w' then w'[k] else 0) < w[k]
  {
    match st
    case Claim(_, _, _, _, chosen) =>
      k :| k in chosen;
      assert k in Pool(b.rows, st.topics);
    case MarkDone(id) => k := id;
    case MarkFailed(id, _) => k := id;
  }

  /** The backlog never grows, and every step that moves the queue lowers it. */
  lemma BacklogFalls(b: Bus, st: Stmt, maxRetries: int)
    requires RetryBudget(b, maxRetries) && Enabled(b, st) && Drains(st)
    ensures Backlog(Apply(b, st, maxRetries), maxRetries) <= Backlog(b, maxRetries)
    ensures Progress(b, st) ==> Backlog(Apply(b, st, maxRetries), maxRetries) < Backlog(b, maxRetries)
  {
    var w, w' := Weights(b.rows, maxRetries), Weights(Apply(b, st, maxRetries).rows, maxRetries);
    WeightsFall(b, st, maxRetries);
    SumDrops(w, w');
    if Progress(b, st) {
      var k := SomeWeightDrops(b, st, maxRetries);
    }
  }

  ghost function Moves(b: Bus, stmts: seq<Stmt>, maxRetries: int): nat
    decreases |stmts|
  {
    if stmts == [] then 0
    else (if Progress(b, stmts[0]) then 1 else 0) + Moves(Apply(b, stmts[0], maxRetries), stmts[1..], maxRetries)
  }

  /** However the clients interleave, the steps that move the queue number at most
      the backlog they started from. */
  lemma {:induction false} DrainingTerminates(b: Bus, stmts: seq<Stmt>, maxRetries: int)
    requires maxRetries >= 1 && Inv(b, maxRetries) && Runs(b, stmts, maxRetries)
    requires forall k :: 0 <= k < |stmts| ==> Drains(stmts[k])
    ensures Moves(b, stmts, maxRetries) + Backlog(After(b, stmts, maxRetries), maxRetries) <= Backlog(b, maxRetries)
    decreases |stmts|
  {
    if stmts != [] {
      BacklogFalls(b, stmts[0], maxRetries);
      InvStep(b, stmts[0], maxRetries);
      DrainingTerminates(Apply(b, stmts[0], maxRetries), stmts[1..], maxRetries);
    }
  }

  /** Nothing is left to do exactly when every remaining row is FAILED. */
  lemma DrainedIffAllFailed(b: Bus, maxRetries: int)
    requires RetryBudget(b, maxRetries)
    ensures Backlog(b, maxRetries) == 0 <==> forall id :: id in b.rows ==> b.rows[id].status == FAILED
  {
    var w := Weights(b.rows, maxRetries);
    if id :| id in b.rows && b.rows[id].status != FAILED {
      SumPick(w, id);
    } else {
      SumOfZeros(w);
    }
  }

  lemma {:induction false} SumOfZeros(w: map<Id, nat>)
    requires forall k :: k in w ==> w[k] == 0
    ensures Sum(w) == 0
    decreases |w|
  {
    if w != map[] {
      var k :| k in w;
      SumPick(w, k);
      SumOfZeros(w - {k});
    }
  }

  /** Until then every consumer that asks for the waiting row's type can move the queue:
      a held row can be acknowledged, and when nothing is held the aggregate guard blocks
      nobody, so the row itself can be claimed. */
  lemma NeverStuck(b: Bus, who: string, at: Time, topics: seq<string>, id: Id) returns (st: Stmt)
    requires id in b.rows && b.rows[id].status != FAILED
    requires topics == [] || b.rows[id].event.eventType in topics
    ensures Enabled(b, st) && Drains(st) && Progress(b, st)
    ensures if exists held :: held in b.rows && b.rows[held].status == CLAIMED
            then st.MarkDone? && st.id in b.rows && b.rows[st.id].status == CLAIMED
            else st == Claim(who, at, topics, 1, {id})
  {
    if held :| held in b.rows && b.rows[held].status == CLAIMED {
      st := MarkDone(held);
    } else {
      assert Wanted(b.rows, topics, id);
      PoolIsWanted(b.rows, topics, id);
      st := Claim(who, at, topics, 1, {id});
    }
  }
}
