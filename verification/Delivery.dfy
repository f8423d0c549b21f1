/** One run in full: a committed message travels through both tables to its handler. */
module Delivery {
  import opened Types
  import opened Pipeline
  import opened Guarantees
  import B = EventBus
  import O = Outbox
  import C = ConsumerProcess
  import F = ForwarderProcess

  lemma {:induction false} RunMore(s: Sys, steps: seq<Step>, st: Step, lim: Limits)
    requires Runs(s, steps, lim) && Enabled(After(s, steps, lim), st)
    ensures Runs(s, steps + [st], lim) && After(s, steps + [st], lim) == Next(After(s, steps, lim), st, lim)
    decreases |steps|
  {
    hide Enabled, Next;
    if steps == [] {
      assert [] + [st] == [st] && [st][1..] == [];
    } else {
      RunMore(Next(s, steps[0], lim), steps[1..], st, lim);
      assert (steps + [st])[1..] == steps[1..] + [st];
    }
  }

  lemma ReachMore(s: Sys, st: Step, lim: Limits)
    requires Reachable(s, lim) && Enabled(s, st)
    ensures Reachable(Next(s, st, lim), lim)
  {
    hide Enabled, Next;
    var steps :| Runs(EMPTY, steps, lim) && After(EMPTY, steps, lim) == s;
    RunMore(EMPTY, steps, st, lim);
  }

  const NOTE: Message := Message("order.placed", "domain", None, "{}", 0)
  const SENT_NOTE: Event := Forwarded(NOTE, 0, "orders")
  const WORKER: C.Config := C.Config("worker", "billing", {}, 1)
  const LIM: Limits := Limits(3, 3)

  function Forwarding(pc: F.Pc): seq<F.Forwarder> { [F.Forwarder("relay", "orders", pc)] }

  function Consuming(pc: C.Pc): seq<C.Consumer> { [C.Consumer(WORKER, map["order.placed" := 1], ["order.placed"], pc)] }

  function OutboxWith(row: O.Row, claims: nat): O.Box {
    O.Box(map[0 := row], O.Log(map[0 := NOTE], map[], map[0 := claims], map[0 := 0]))
  }

  lemma NothingYet()
    ensures Reachable(EMPTY, LIM)
  {
    assert Runs(EMPTY, [], LIM) && After(EMPTY, [], LIM) == EMPTY;
  }

  lemma Committed() returns (s: Sys)
    ensures Reachable(s, LIM) && s == Sys(OutboxWith(O.NewRow(NOTE), 0), B.EMPTY, Forwarding(F.Idle), [], [])
  {
    hide Reachable;
    NothingYet();
    var st := Outboxed(O.Insert(map[0 := NOTE]));
    ReachMore(EMPTY, st, LIM);
    s := Next(EMPTY, st, LIM);
    assert s.outbox == OutboxWith(O.NewRow(NOTE), 0);
    var join := JoinForwarder("relay", "orders");
    ReachMore(s, join, LIM);
    s := Next(s, join, LIM);
  }

  function Claimed(): O.Row { O.NewRow(NOTE).(status := O.CLAIMED, claimedBy := Some("relay"), claimedAt := Some(1)) }

  function Arrived(): B.Bus { B.Apply(B.EMPTY, B.Insert(7, SENT_NOTE), 3) }

  lemma ClaimedByRelay() returns (s: Sys)
    ensures Reachable(s, LIM)
            && s == Sys(OutboxWith(Claimed(), 1), B.EMPTY, Forwarding(F.Ready([F.Entry(0, NOTE)])), [], [])
  {
    hide Reachable;
    s := Committed();
    var o := O.Claim("relay", 1, 1, {0});
    assert O.Pool(s.outbox.rows) == {0};
    var entries := [F.Entry(0, NOTE)];
    assert entries[0].id == 0;
    var st := Forward(0, F.Claim(entries), Some(o), None);
    ReachMore(s, st, LIM);
    s := Next(s, st, LIM);
    assert s.outbox.rows == map[0 := Claimed()];
    assert s.outbox.log.claims == map[0 := 1];
  }

  /** The forwarder publishes and marks the entry SENT. */
  lemma ForwardedOnce() returns (s: Sys)
    ensures Reachable(s, LIM)
            && s == Sys(OutboxWith(O.SentRow(Claimed(), 2), 1), Arrived(), Forwarding(F.Ready([])), [], [])
  {
    hide Reachable;
    s := ClaimedByRelay();
    var publish := Forward(0, F.Publish(Acked, false), None, Some(B.Insert(7, SENT_NOTE)));
    ReachMore(s, publish, LIM);
    s := Next(s, publish, LIM);
    assert [F.Entry(0, NOTE)][1..] == [];
    assert s.forwarders == Forwarding(F.Sending(F.Entry(0, NOTE), []));
    var mark := Forward(0, F.MarkSent(Acked), Some(O.MarkSent(0, 2)), None);
    ReachMore(s, mark, LIM);
    s := Next(s, mark, LIM);
    assert s.forwarders == Forwarding(F.Ready([]));
    assert s.outbox.rows == map[0 := O.SentRow(Claimed(), 2)];
  }

  lemma Listening() returns (s: Sys)
    ensures Reachable(s, LIM) && s.bus == Arrived() && s.consumers == Consuming(C.Idle)
            && s.trace == [Registered(0, "order.placed")]
  {
    hide Reachable;
    s := ForwardedOnce();
    var join := JoinConsumer(WORKER);
    ReachMore(s, join, LIM);
    s := Next(s, join, LIM);
    assert s.consumers == [C.Consumer(WORKER, map[], [], C.Idle)];
    var on := Consume(0, C.On("order.placed"), None);
    ReachMore(s, on, LIM);
    s := Next(s, on, LIM);
    assert C.Register(C.Consumer(WORKER, map[], [], C.Idle), "order.placed") == Consuming(C.Idle)[0];
    assert s.consumers == Consuming(C.Idle);
  }

  lemma Taken() returns (s: Sys)
    ensures Reachable(s, LIM) && 7 in s.bus.rows && s.consumers == Consuming(C.Ready([C.Entry(7, SENT_NOTE)]))
  {
    hide Reachable;
    s := Listening();
    var rows := s.bus.rows;
    assert rows == map[7 := B.NewRow(SENT_NOTE)];
    var topics := ["order.placed"];
    assert B.Pool(rows, topics) == {7};
    var entries := [C.Entry(7, SENT_NOTE)];
    assert entries[0].id == 7;
    var st := Consume(0, C.Claim(entries), Some(B.Claim("worker", 3, topics, 1, {7})));
    ReachMore(s, st, LIM);
    s := Next(s, st, LIM);
  }

  /** The handler runs once and returns. */
  lemma Handled() returns (s: Sys, d: nat)
    ensures Reachable(s, LIM) && 7 in s.bus.rows
            && s.consumers == Consuming(C.Acking(C.Entry(7, SENT_NOTE), [], C.AllReturned(d)))
  {
    hide Reachable;
    s := Taken();
    d := |s.trace|;
    var dispatch := Consume(0, C.Dispatch(d), None);
    ReachMore(s, dispatch, LIM);
    s := Next(s, dispatch, LIM);
    assert [C.Entry(7, SENT_NOTE)][1..] == [];
    assert s.consumers == Consuming(C.Running(C.Entry(7, SENT_NOTE), [], d, 0, 1, None, None));
    var attempt := Consume(0, C.Attempt(C.Returned), None);
    ReachMore(s, attempt, LIM);
    s := Next(s, attempt, LIM);
    assert s.consumers == Consuming(C.Running(C.Entry(7, SENT_NOTE), [], d, 1, 1, None, None));
    var decide := Consume(0, C.Decide, None);
    ReachMore(s, decide, LIM);
    s := Next(s, decide, LIM);
    assert s.consumers == Consuming(C.Acking(C.Entry(7, SENT_NOTE), [], C.AllReturned(d)));
  }

  /** Some run commits a message, forwards it, handles it and acknowledges it: none of
      the guarantees holds for want of runs. */
  lemma DeliveryHappens() returns (s: Sys)
    ensures Reachable(s, LIM) && 7 in s.bus.log.done && s.consumers == Consuming(C.Ready([]))
  {
    var d: nat;
    s, d := Handled();
    var ack := Consume(0, C.MarkDone(Acked), Some(B.MarkDone(7)));
    ReachMore(s, ack, LIM);
    s := Next(s, ack, LIM);
  }
}
