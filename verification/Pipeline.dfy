/** The whole event pipeline: both tables, any number of forwarder and consumer
    replicas, direct publishers and sweepers, interleaved statement by statement. */
module Pipeline {
  import opened Types
  import B = EventBus
  import O = Outbox
  import C = ConsumerProcess
  import F = ForwarderProcess

  datatype Limits = Limits(outbox: int, bus: int)

  /** What happened at the consumers. A dispatch is named by the position of its own mark. */
  datatype Mark =
    | Registered(replica: nat, eventType: string)
    | Dispatched(replica: nat, id: Id)
    | Called(replica: nat, dispatch: nat, id: Id, handler: nat, outcome: C.Outcome)
    | Decided(replica: nat, dispatch: nat, id: Id)
    | Skipped(replica: nat, id: Id)
    | Removed(replica: nat, id: Id)

  datatype Sys = Sys(
    outbox: O.Box,
    bus: B.Bus,
    forwarders: seq<F.Forwarder>,
    consumers: seq<C.Consumer>,
    trace: seq<Mark>)

  const EMPTY: Sys := Sys(O.EMPTY, B.EMPTY, [], [], [])

  /** A step runs at most one statement on each table. Statements of nobody in
      particular are commits of units of work, direct publishers, stale sweeps,
      cleanups, and statements whose client died before the answer. */
  datatype Step =
    | Outboxed(o: O.Stmt)
    | Bussed(b: B.Stmt)
    | JoinForwarder(instance: string, source: string)
    | JoinConsumer(config: C.Config)
    | Forward(replica: nat, fact: F.Act, outboxStmt: Option<O.Stmt>, busStmt: Option<B.Stmt>)
    | Consume(replica: nat, cact: C.Act, stmt: Option<B.Stmt>)

  // ------------------------------------------------------------ forwarder statements

  /** RETURNING lists the claimed rows in some order. */
  ghost predicate ListsOutbox(entries: seq<F.Entry>, rows: O.Table, chosen: set<Id>) {
    && (forall k :: 0 <= k < |entries| ==>
          entries[k].id in chosen && entries[k].id in rows && entries[k].message == rows[entries[k].id].message)
    && (forall id :: id in chosen ==> exists k :: 0 <= k < |entries| && entries[k].id == id)
    && |entries| == |chosen|
  }

  function Outgoing(f: F.Forwarder, e: F.Entry): Event {
    Forwarded(e.message, e.id, f.source)
  }

  /** Which statements go with a forwarder's action. */
  ghost predicate ForwardRuns(s: Sys, f: F.Forwarder, a: F.Act, o: Option<O.Stmt>, b: Option<B.Stmt>)
    requires F.Enabled(f, a)
  {
    match a
    case Claim(entries) =>
      && o.Some? && o.value.Claim? && o.value.who == f.instance && b.None?
      && ListsOutbox(entries, s.outbox.rows, o.value.chosen)
    case Publish(reply, met) =>
      var event := Outgoing(f, f.pc.queue[0]);
      && o.None?
      && (if reply.Refused? then b.None? else b.Some? && b.value.Insert? && b.value.event == event)
      && met == B.Conflicts(s.bus.rows, event)
    case Lookup(_, found) => o.None? && b.None? && found == B.Conflicts(s.bus.rows, Outgoing(f, f.pc.entry))
    case MarkSent(reply) =>
      && b.None?
      && (if reply.Refused? then o.None? else o.Some? && o.value.MarkSent? && o.value.id == f.pc.entry.id)
    case MarkFailed(reply) =>
      && b.None?
      && (if reply.Refused? then o.None? else o.Some? && o.value.MarkFailed? && o.value.id == f.pc.entry.id)
    case Halt => o.None? && b.None?
  }

  // ------------------------------------------------------------- consumer statements

  ghost predicate ListsBus(entries: seq<C.Entry>, rows: B.Table, chosen: set<Id>) {
    && (forall k :: 0 <= k < |entries| ==>
          entries[k].id in chosen && entries[k].id in rows && entries[k].event == rows[entries[k].id].event)
    && (forall id :: id in chosen ==> exists k :: 0 <= k < |entries| && entries[k].id == id)
    && |entries| == |chosen|
  }

  ghost predicate ConsumeRuns(s: Sys, c: C.Consumer, a: C.Act, b: Option<B.Stmt>)
    requires C.Enabled(c, a)
  {
    match a
    case Claim(entries) =>
      && b.Some? && b.value.Claim? && b.value.who == c.config.instance && b.value.topics == c.topics
      && ListsBus(entries, s.bus.rows, b.value.chosen)
    case Dispatch(d) => b.None? && d == |s.trace|
    case MarkDone(reply) => if reply.Refused? then b.None? else b == Some(B.MarkDone(c.pc.entry.id))
    case MarkFailed(reply) =>
      if reply.Refused? then b.None? else b.Some? && b.value.MarkFailed? && b.value.id == c.pc.entry.id
    case _ => b.None?
  }

  /** What a consumer's action adds to the trace. */
  function Marks(s: Sys, r: nat, c: C.Consumer, a: C.Act): seq<Mark>
    requires C.Enabled(c, a)
  {
    match a
    case On(eventType) => [Registered(r, eventType)]
    case Skip => [Skipped(r, c.pc.queue[0].id)]
    case Dispatch(_) => [Dispatched(r, c.pc.queue[0].id)]
    case Attempt(outcome) =>
      if outcome.Stopped? then [] else [Called(r, c.pc.dispatch, c.pc.entry.id, c.pc.handler, outcome)]
    case Decide => if c.pc.failure.None? then [Decided(r, c.pc.dispatch, c.pc.entry.id)] else []
    case MarkDone(reply) => if !reply.Refused? && c.pc.entry.id in s.bus.rows then [Removed(r, c.pc.entry.id)] else []
    case _ => []
  }

  // -------------------------------------------------------------------------- steps

  /** Nobody but a consumer acknowledges, nobody but a forwarder marks SENT, and an
      outbox id is nobody else's origin key. */
  ghost predicate Enabled(s: Sys, st: Step) {
    match st
    case Outboxed(o) => !o.MarkSent? && O.Enabled(s.outbox, o)
    case Bussed(b) =>
      && !b.MarkDone? && B.Enabled(s.bus, b)
      && (b.Insert? && b.event.origin.Some? ==> !b.event.origin.value.FromOutbox?)
    case JoinForwarder(_, _) => true
    case JoinConsumer(_) => true
    case Forward(r, a, o, b) =>
      && r < |s.forwarders| && F.Enabled(s.forwarders[r], a)
      && ForwardRuns(s, s.forwarders[r], a, o, b)
      && (o.Some? ==> O.Enabled(s.outbox, o.value))
      && (b.Some? ==> B.Enabled(s.bus, b.value))
    case Consume(r, a, b) =>
      && r < |s.consumers| && C.Enabled(s.consumers[r], a)
      && ConsumeRuns(s, s.consumers[r], a, b)
      && (b.Some? ==> B.Enabled(s.bus, b.value))
  }

  function OutboxStmtOf(st: Step): Option<O.Stmt> {
    match st
    case Outboxed(o) => Some(o)
    case Forward(_, _, o, _) => o
    case _ => None
  }

  function BusStmtOf(st: Step): Option<B.Stmt> {
    match st
    case Bussed(b) => Some(b)
    case Forward(_, _, _, b) => b
    case Consume(_, _, b) => b
    case _ => None
  }

  ghost function Next(s: Sys, st: Step, lim: Limits): Sys
    requires Enabled(s, st)
  {
    Sys(
      if OutboxStmtOf(st).Some? then O.Apply(s.outbox, OutboxStmtOf(st).value, lim.outbox) else s.outbox,
      if BusStmtOf(st).Some? then B.Apply(s.bus, BusStmtOf(st).value, lim.bus) else s.bus,
      match st
      case JoinForwarder(instance, source) => s.forwarders + [F.Forwarder(instance, source, F.Idle)]
      case Forward(r, a, _, _) => s.forwarders[r := F.Next(s.forwarders[r], a)]
      case _ => s.forwarders,
      match st
      case JoinConsumer(config) => s.consumers + [C.Consumer(config, map[], [], C.Idle)]
      case Consume(r, a, _) => s.consumers[r := C.Next(s.consumers[r], a)]
      case _ => s.consumers,
      if st.Consume? then s.trace + Marks(s, st.replica, s.consumers[st.replica], st.cact) else s.trace)
  }

  // ------------------------------------------------------------- 1. no event is lost

  ghost predicate OnBus(bus: B.Bus, id: Id) {
    exists x :: x in bus.log.inserted && bus.log.inserted[x].origin == Some(FromOutbox(id))
  }

  /** What the bus received under an outbox id is that outbox message. */
  ghost predicate OriginsFaithful(s: Sys) {
    forall x ::
      && x in s.bus.log.inserted && s.bus.log.inserted[x].origin.Some?
      && s.bus.log.inserted[x].origin.value.FromOutbox? ==>
      var id := s.bus.log.inserted[x].origin.value.id;
      && id in s.outbox.log.committed
      && s.bus.log.inserted[x] == Forwarded(s.outbox.log.committed[id], id, s.bus.log.inserted[x].source)
  }

  ghost predicate SentOnlyIfOnBus(s: Sys) {
    && (forall id :: id in s.outbox.rows && s.outbox.rows[id].status == O.SENT ==> OnBus(s.bus, id))
    && (forall id :: id in s.outbox.log.cleaned ==> OnBus(s.bus, id))
  }

  predicate Knows(x: O.Box, e: F.Entry) {
    e.id in x.log.committed && e.message == x.log.committed[e.id]
  }

  predicate KnowsAll(x: O.Box, queue: seq<F.Entry>) {
    forall k :: 0 <= k < |queue| ==> Knows(x, queue[k])
  }

  /** A replica's own batch, however old, holds committed messages only, and a replica
      about to mark an entry SENT has seen it on the bus. */
  ghost predicate ForwarderOk(x: O.Box, bus: B.Bus, f: F.Forwarder) {
    match f.pc
    case Idle => true
    case Ready(queue) => KnowsAll(x, queue)
    case Looking(e, queue) => Knows(x, e) && KnowsAll(x, queue)
    case Sending(e, queue) => Knows(x, e) && KnowsAll(x, queue) && OnBus(bus, e.id)
    case Failing(e, queue) => Knows(x, e) && KnowsAll(x, queue)
  }

  ghost predicate ForwardersOk(s: Sys) {
    forall r :: 0 <= r < |s.forwarders| ==> ForwarderOk(s.outbox, s.bus, s.forwarders[r])
  }

  ghost predicate TablesOk(s: Sys, lim: Limits) {
    O.Inv(s.outbox, lim.outbox) && B.Inv(s.bus, lim.bus)
  }

  ghost predicate NoLossInv(s: Sys, lim: Limits) {
    TablesOk(s, lim) && OriginsFaithful(s) && SentOnlyIfOnBus(s) && ForwardersOk(s)
  }

  /** Histories only grow. */
  ghost predicate Grows(s: Sys, t: Sys) {
    && (forall id :: id in s.outbox.log.committed ==>
         id in t.outbox.log.committed && t.outbox.log.committed[id] == s.outbox.log.committed[id])
    && (forall x :: x in s.bus.log.inserted ==>
         x in t.bus.log.inserted && t.bus.log.inserted[x] == s.bus.log.inserted[x])
  }

  lemma OutboxGrows(x: O.Box, o: O.Stmt, max: int)
    requires O.Enabled(x, o)
    ensures forall id :: id in x.log.committed ==>
              id in O.Apply(x, o, max).log.committed && O.Apply(x, o, max).log.committed[id] == x.log.committed[id]
  {
  }

  lemma BusGrows(b: B.Bus, st: B.Stmt, max: int)
    requires B.Enabled(b, st)
    ensures forall x :: x in b.log.inserted ==>
              x in B.Apply(b, st, max).log.inserted && B.Apply(b, st, max).log.inserted[x] == b.log.inserted[x]
    ensures forall x :: x in B.Apply(b, st, max).log.inserted && x !in b.log.inserted ==>
              st.Insert? && x == st.id && B.Apply(b, st, max).log.inserted[x] == st.event
  {
  }

  lemma StepGrows(s: Sys, st: Step, lim: Limits)
    requires Enabled(s, st)
    ensures Grows(s, Next(s, st, lim))
  {
    if OutboxStmtOf(st).Some? { OutboxGrows(s.outbox, OutboxStmtOf(st).value, lim.outbox); }
    if BusStmtOf(st).Some? { BusGrows(s.bus, BusStmtOf(st).value, lim.bus); }
  }

  lemma TablesStep(s: Sys, st: Step, lim: Limits)
    requires lim.outbox >= 1 && lim.bus >= 1 && TablesOk(s, lim) && Enabled(s, st)
    ensures TablesOk(Next(s, st, lim), lim)
  {
    if OutboxStmtOf(st).Some? { O.InvStep(s.outbox, OutboxStmtOf(st).value, lim.outbox); }
    if BusStmtOf(st).Some? { B.InvStep(s.bus, BusStmtOf(st).value, lim.bus); }
  }

  lemma OriginsStep(s: Sys, st: Step, lim: Limits)
    requires OriginsFaithful(s) && ForwardersOk(s) && Enabled(s, st)
    ensures OriginsFaithful(Next(s, st, lim))
  {
    hide O.Apply, B.Apply;
    StepGrows(s, st, lim);
    if BusStmtOf(st).Some? {
      BusGrows(s.bus, BusStmtOf(st).value, lim.bus);
      if st.Forward? && st.fact.Publish? {
        assert ForwarderOk(s.outbox, s.bus, s.forwarders[st.replica]);
        assert Knows(s.outbox, s.forwarders[st.replica].pc.queue[0]);
      }
    }
  }

  lemma OnBusStays(s: Sys, t: Sys, id: Id)
    requires Grows(s, t) && OnBus(s.bus, id)
    ensures OnBus(t.bus, id)
  {
    var x :| x in s.bus.log.inserted && s.bus.log.inserted[x].origin == Some(FromOutbox(id));
    assert t.bus.log.inserted[x].origin == Some(FromOutbox(id));
  }

  /** A live row of the same origin, met by an insert or found by a lookup, or the row
      just inserted: either way the message is on the bus. */
  lemma ConflictMeansOnBus(b: B.Bus, event: Event, id: Id, lim: int)
    requires B.Faithful(b, lim) && event.origin == Some(FromOutbox(id)) && B.Conflicts(b.rows, event)
    ensures OnBus(b, id)
  {
    var x :| x in b.rows && b.rows[x].event.origin == event.origin;
    assert b.log.inserted[x].origin == Some(FromOutbox(id));
  }

  lemma {:induction false} BecomesSent(x: O.Box, o: O.Stmt, max: int, id: Id)
    requires O.Enabled(x, o) && id in O.Apply(x, o, max).rows && O.Apply(x, o, max).rows[id].status == O.SENT
    ensures (id in x.rows && x.rows[id].status == O.SENT) || (o.MarkSent? && o.id == id)
  {
    match o
    case Insert(_) =>
    case Claim(_, _, _, _) =>
    case MarkSent(_, _) =>
    case MarkFailed(_, _) =>
    case ResetStale(_) =>
    case Cleanup(_, _, _) =>
  }

  lemma BecomesCleaned(x: O.Box, o: O.Stmt, max: int, id: Id)
    requires O.Enabled(x, o) && id in O.Apply(x, o, max).log.cleaned && id !in x.log.cleaned
    ensures id in x.rows && x.rows[id].status == O.SENT
  {
    assert o.Cleanup? && o.chosen <= O.Expired(x.rows, o.olderThan);
  }

  lemma SentStep(s: Sys, st: Step, lim: Limits)
    requires SentOnlyIfOnBus(s) && ForwardersOk(s) && Enabled(s, st)
    ensures SentOnlyIfOnBus(Next(s, st, lim))
  {
    var t := Next(s, st, lim);
    StepGrows(s, st, lim);
    forall id | id in t.outbox.rows && t.outbox.rows[id].status == O.SENT
      ensures OnBus(t.bus, id)
    {
      if OutboxStmtOf(st).Some? {
        BecomesSent(s.outbox, OutboxStmtOf(st).value, lim.outbox, id);
        if !(id in s.outbox.rows && s.outbox.rows[id].status == O.SENT) {
          assert ForwarderOk(s.outbox, s.bus, s.forwarders[st.replica]);
        }
      }
      OnBusStays(s, t, id);
    }
    forall id | id in t.outbox.log.cleaned
      ensures OnBus(t.bus, id)
    {
      if id !in s.outbox.log.cleaned {
        BecomesCleaned(s.outbox, OutboxStmtOf(st).value, lim.outbox, id);
      }
      OnBusStays(s, t, id);
    }
  }

  lemma ForwarderStays(s: Sys, t: Sys, f: F.Forwarder)
    requires Grows(s, t) && ForwarderOk(s.outbox, s.bus, f)
    ensures ForwarderOk(t.outbox, t.bus, f)
  {
    if f.pc.Sending? {
      OnBusStays(s, t, f.pc.entry.id);
    }
  }

  lemma InsertedNow(b: B.Bus, id: Id, event: Event, max: int)
    requires B.Enabled(b, B.Insert(id, event)) && !B.Conflicts(b.rows, event)
    ensures var c := B.Apply(b, B.Insert(id, event), max); id in c.log.inserted && c.log.inserted[id] == event
  {
  }

  lemma ForwarderActs(s: Sys, st: Step, lim: Limits)
    requires O.Faithful(s.outbox) && B.Faithful(s.bus, lim.bus) && ForwardersOk(s) && Enabled(s, st) && st.Forward?
    ensures ForwarderOk(Next(s, st, lim).outbox, Next(s, st, lim).bus, F.Next(s.forwarders[st.replica], st.fact))
  {
    hide O.Apply, B.Apply, B.Conflicts, O.Pool;
    var f, t := s.forwarders[st.replica], Next(s, st, lim);
    StepGrows(s, st, lim);
    assert ForwarderOk(s.outbox, s.bus, f);
    match st.fact
    case Claim(_) =>
    case Publish(reply, met) =>
      if met { ConflictMeansOnBus(s.bus, Outgoing(f, f.pc.queue[0]), f.pc.queue[0].id, lim.bus); }
      else if reply.Acked? {
        InsertedNow(s.bus, st.busStmt.value.id, st.busStmt.value.event, lim.bus);
        assert t.bus.log.inserted[st.busStmt.value.id].origin == Some(FromOutbox(f.pc.queue[0].id));
      }
    case Lookup(_, found) =>
      if found { ConflictMeansOnBus(s.bus, Outgoing(f, f.pc.entry), f.pc.entry.id, lim.bus); }
    case MarkSent(_) =>
    case MarkFailed(_) =>
    case Halt =>
  }

  lemma ForwardersStep(s: Sys, st: Step, lim: Limits)
    requires TablesOk(s, lim) && ForwardersOk(s) && Enabled(s, st)
    ensures ForwardersOk(Next(s, st, lim))
  {
    hide O.Apply, B.Apply;
    var t := Next(s, st, lim);
    StepGrows(s, st, lim);
    forall r | 0 <= r < |t.forwarders|
      ensures ForwarderOk(t.outbox, t.bus, t.forwarders[r])
    {
      if st.Forward? && st.replica == r {
        ForwarderActs(s, st, lim);
      } else if r < |s.forwarders| {
        ForwarderStays(s, t, s.forwarders[r]);
      }
    }
  }

  lemma NoLossStep(s: Sys, st: Step, lim: Limits)
    requires lim.outbox >= 1 && lim.bus >= 1 && NoLossInv(s, lim) && Enabled(s, st)
    ensures NoLossInv(Next(s, st, lim), lim)
  {
    TablesStep(s, st, lim);
    OriginsStep(s, st, lim);
    SentStep(s, st, lim);
    ForwardersStep(s, st, lim);
  }
}
