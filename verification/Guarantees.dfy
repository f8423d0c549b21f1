/** What the pipeline guarantees in every run, from empty tables on. */
module Guarantees {
  import opened Types
  import opened Pipeline
  import opened Acknowledgement
  import B = EventBus
  import O = Outbox
  import C = ConsumerProcess

  ghost predicate Runs(s: Sys, steps: seq<Step>, lim: Limits)
    decreases |steps|
  {
    steps == [] || (Enabled(s, steps[0]) && Runs(Next(s, steps[0], lim), steps[1..], lim))
  }

  ghost function After(s: Sys, steps: seq<Step>, lim: Limits): Sys
    requires Runs(s, steps, lim)
    decreases |steps|
  {
    if steps == [] then s else After(Next(s, steps[0], lim), steps[1..], lim)
  }

  ghost predicate Safe(s: Sys, lim: Limits) { NoLossInv(s, lim) && AckInv(s) }

  lemma SafeStep(s: Sys, st: Step, lim: Limits)
    requires lim.outbox >= 1 && lim.bus >= 1 && Safe(s, lim) && Enabled(s, st)
    ensures Safe(Next(s, st, lim), lim)
  {
    NoLossStep(s, st, lim);
    TraceStep(s, st, lim);
    RemovalsStep(s, st, lim);
    ConsumersStep(s, st, lim);
  }

  lemma {:induction false} SafeRun(s: Sys, steps: seq<Step>, lim: Limits)
    requires lim.outbox >= 1 && lim.bus >= 1 && Safe(s, lim) && Runs(s, steps, lim)
    ensures Safe(After(s, steps, lim), lim)
    decreases |steps|
  {
    if steps != [] {
      SafeStep(s, steps[0], lim);
      SafeRun(Next(s, steps[0], lim), steps[1..], lim);
    }
  }

  /** Some run of some replicas, publishers and sweepers leads here from empty tables. */
  ghost predicate Reachable(s: Sys, lim: Limits) {
    exists steps :: Runs(EMPTY, steps, lim) && After(EMPTY, steps, lim) == s
  }

  lemma EmptyIsSafe(lim: Limits)
    ensures Safe(EMPTY, lim)
  {
  }

  lemma ReachableIsSafe(s: Sys, lim: Limits)
    requires lim.outbox >= 1 && lim.bus >= 1 && Reachable(s, lim)
    ensures Safe(s, lim)
  {
    var steps :| Runs(EMPTY, steps, lim) && After(EMPTY, steps, lim) == s;
    EmptyIsSafe(lim);
    SafeRun(EMPTY, steps, lim);
  }

  // -------------------------------------------------------------------- no event lost

  /** A committed message is still in the outbox or was cleaned up while SENT; once
      SENT or cleaned up it was on the bus, with its own content. */
  ghost predicate MessageSafe(s: Sys, id: Id)
    requires id in s.outbox.log.committed
  {
    && (id in s.outbox.rows || (id in s.outbox.log.cleaned && s.outbox.log.cleaned[id].status == O.SENT))
    && ((id in s.outbox.rows && s.outbox.rows[id].status != O.SENT) || ReachedBus(s, id))
  }

  /** The event is the message, column by column, under the outbox row's id as origin. */
  predicate Carries(event: Event, m: Message, id: Id) {
    && event.eventType == m.eventType && event.eventKind == m.eventKind && event.aggregate == m.aggregate
    && event.payload == m.payload && event.createdAt == m.createdAt && event.origin == Some(FromOutbox(id))
  }

  ghost predicate ReachedBus(s: Sys, id: Id)
    requires id in s.outbox.log.committed
  {
    exists x :: x in s.bus.log.inserted && Carries(s.bus.log.inserted[x], s.outbox.log.committed[id], id)
  }

  lemma MessageSafeNow(s: Sys, id: Id)
    requires O.Retained(s.outbox) && OriginsFaithful(s) && SentOnlyIfOnBus(s)
    requires id in s.outbox.log.committed
    ensures MessageSafe(s, id)
  {
    if !(id in s.outbox.rows && s.outbox.rows[id].status != O.SENT) {
      assert OnBus(s.bus, id);
      var x :| x in s.bus.log.inserted && s.bus.log.inserted[x].origin == Some(FromOutbox(id));
      assert s.bus.log.inserted[x] == Forwarded(s.outbox.log.committed[id], id, s.bus.log.inserted[x].source);
    }
  }

  lemma NoMessageLost(s: Sys, lim: Limits, id: Id)
    requires lim.outbox >= 1 && lim.bus >= 1 && Reachable(s, lim)
    requires id in s.outbox.log.committed
    ensures MessageSafe(s, id)
  {
    ReachableIsSafe(s, lim);
    MessageSafeNow(s, id);
  }

  /** A bus row ever inserted is still there, was removed by markDone, or was swept
      away as FAILED with no retries left; never two of these. */
  lemma NoBusRowLost(s: Sys, lim: Limits, x: Id)
    requires lim.outbox >= 1 && lim.bus >= 1 && Reachable(s, lim)
    requires x in s.bus.log.inserted
    ensures || (x in s.bus.rows && x !in s.bus.log.done && x !in s.bus.log.dropped
                && s.bus.rows[x].event == s.bus.log.inserted[x])
            || (x !in s.bus.rows && x in s.bus.log.done && x !in s.bus.log.dropped)
            || (x !in s.bus.rows && x !in s.bus.log.done && x in s.bus.log.dropped
                && s.bus.log.dropped[x].status == B.FAILED && s.bus.log.dropped[x].retries >= lim.bus)
  {
    ReachableIsSafe(s, lim);
  }

  // -------------------------------------------------------------------- ack soundness

  /** The replica had skipped it, an event of its own service and of a kind it skips. */
  ghost predicate SkippedFirst(s: Sys, r: nat, id: Id, k: nat) {
    && r < |s.consumers| && id in s.bus.log.inserted
    && s.bus.log.inserted[id].source == s.consumers[r].config.source
    && s.bus.log.inserted[id].eventKind in s.consumers[r].config.skipKinds
    && exists m :: 0 <= m < k && m < |s.trace| && s.trace[m] == Skipped(r, id)
  }

  ghost predicate HandledFirst(s: Sys, r: nat, id: Id, k: nat) {
    exists m: nat, d: nat :: d < m < k && AllReturnedAt(s.trace, s.bus, m, r, d, id)
  }

  ghost predicate AckJustified(s: Sys, r: nat, k: nat, id: Id) {
    k < |s.trace| && s.trace[k] == Removed(r, id) && (SkippedFirst(s, r, id, k) || HandledFirst(s, r, id, k))
  }

  lemma AckJustifiedNow(s: Sys, id: Id) returns (r: nat, k: nat)
    requires TraceOk(s) && RemovalsTraced(s) && id in s.bus.log.done
    ensures AckJustified(s, r, k, id)
  {
    k, r :| 0 <= k < |s.trace| && s.trace[k] == Removed(r, id);
    assert Backed(s, k);
    var m :| 0 <= m < k && (s.trace[m] == Skipped(r, id) || exists d :: s.trace[m] == Decided(r, d, id));
    assert Backed(s, m);
  }

  /** Whoever removed a row by markDone, even a replica whose claim had been reset, had
      skipped it as its own kind, or had just run all of its handlers to success. */
  lemma AckIsSound(s: Sys, lim: Limits, id: Id)
    requires lim.outbox >= 1 && lim.bus >= 1 && Reachable(s, lim)
    requires id in s.bus.log.done
    ensures exists r, k :: AckJustified(s, r, k, id)
  {
    ReachableIsSafe(s, lim);
    var r, k := AckJustifiedNow(s, id);
  }

  /** Whatever a replica skipped was its own service's and of a kind it skips, and what it
      dispatched was not: an event for which either fails is never skipped, and one for
      which both hold is never handled. */
  lemma OwnEventsAreSkipped(s: Sys, lim: Limits, k: nat, r: nat, id: Id)
    requires lim.outbox >= 1 && lim.bus >= 1 && Reachable(s, lim) && k < |s.trace|
    requires s.trace[k] == Skipped(r, id) || s.trace[k] == Dispatched(r, id)
    ensures r < |s.consumers| && id in s.bus.log.inserted
    ensures var event, config := s.bus.log.inserted[id], s.consumers[r].config;
            s.trace[k] == Skipped(r, id) <==> event.source == config.source && event.eventKind in config.skipKinds
  {
    ReachableIsSafe(s, lim);
    assert Backed(s, k);
  }

  /** Each replica dispatches only events of types it has registered handlers for. */
  lemma OnlyRegisteredTypes(s: Sys, lim: Limits, r: nat)
    requires lim.outbox >= 1 && lim.bus >= 1 && Reachable(s, lim)
    requires r < |s.consumers| && s.consumers[r].pc.Running?
    ensures C.HandlerCount(s.consumers[r], s.consumers[r].pc.entry.event.eventType) >= 1
  {
    ReachableIsSafe(s, lim);
    assert ConsumerOk(s, r);
  }
}
