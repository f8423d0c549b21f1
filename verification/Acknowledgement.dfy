/** Ack soundness: in every run of the pipeline a bus row is removed by markDone only
    after one dispatch in which every handler registered for its type returned
    normally, or because the consumer skips its own kind. */
module Acknowledgement {
  import opened Types
  import opened Pipeline
  import B = EventBus
  import C = ConsumerProcess

  /** Handlers of a type that replica `r` had registered by the end of `trace`. */
  function Count(trace: seq<Mark>, r: nat, eventType: string): nat {
    if trace == [] then 0
    else Count(trace[..|trace| - 1], r, eventType) + (if trace[|trace| - 1] == Registered(r, eventType) then 1 else 0)
  }

  lemma CountAppend(trace: seq<Mark>, m: Mark, r: nat, eventType: string)
    ensures Count(trace + [m], r, eventType)
            == Count(trace, r, eventType) + (if m == Registered(r, eventType) then 1 else 0)
  {
    assert (trace + [m])[..|trace|] == trace;
  }

  // ------------------------------------------------------- what the trace must show

  /** Handler `i` returned normally in dispatch `d`, somewhere before position `m`. */
  ghost predicate ReturnedBefore(trace: seq<Mark>, m: nat, r: nat, d: nat, id: Id, i: nat) {
    exists j :: d < j < m && j < |trace| && trace[j] == Called(r, d, id, i, C.Returned)
  }

  /** At `m`, replica `r` has run every handler it has registered for the event, all in
      the one dispatch that began at `d`, and each returned normally. */
  ghost predicate AllReturnedAt(trace: seq<Mark>, bus: B.Bus, m: nat, r: nat, d: nat, id: Id) {
    && m < |trace| && d < m && trace[d] == Dispatched(r, id) && id in bus.log.inserted
    && forall i: nat :: i < Count(trace[..m], r, bus.log.inserted[id].eventType) ==>
         ReturnedBefore(trace, m, r, d, id, i)
  }

  /** The event was sent by replica r's own service and is of a kind r skips. */
  ghost predicate SentByOwn(s: Sys, r: nat, id: Id)
    requires r < |s.consumers| && id in s.bus.log.inserted
  {
    && s.bus.log.inserted[id].source == s.consumers[r].config.source
    && s.bus.log.inserted[id].eventKind in s.consumers[r].config.skipKinds
  }

  ghost predicate SkipAllowed(s: Sys, r: nat, id: Id) {
    r < |s.consumers| && id in s.bus.log.inserted && SentByOwn(s, r, id)
  }

  ghost predicate DispatchAllowed(s: Sys, r: nat, id: Id) {
    r < |s.consumers| && id in s.bus.log.inserted && !SentByOwn(s, r, id)
  }

  /** Every mark is backed by earlier marks. */
  ghost predicate Backed(s: Sys, k: nat)
    requires k < |s.trace|
  {
    match s.trace[k]
    case Registered(r, _) => r < |s.consumers|
    case Dispatched(r, id) => DispatchAllowed(s, r, id)
    case Called(r, d, id, _, _) => d < k && s.trace[d] == Dispatched(r, id)
    case Decided(r, d, id) => AllReturnedAt(s.trace, s.bus, k, r, d, id)
    case Skipped(r, id) => SkipAllowed(s, r, id)
    case Removed(r, id) =>
      exists m :: 0 <= m < k && (s.trace[m] == Skipped(r, id) || exists d :: s.trace[m] == Decided(r, d, id))
  }

  ghost predicate TraceOk(s: Sys) {
    forall k :: 0 <= k < |s.trace| ==> Backed(s, k)
  }

  ghost predicate RemovalsTraced(s: Sys) {
    forall id :: id in s.bus.log.done ==> exists k, r :: 0 <= k < |s.trace| && s.trace[k] == Removed(r, id)
  }

  // ------------------------------------------------------------ what replicas carry

  predicate Genuine(bus: B.Bus, e: C.Entry) {
    e.id in bus.log.inserted && bus.log.inserted[e.id] == e.event
  }

  predicate AllGenuine(bus: B.Bus, queue: seq<C.Entry>) {
    forall k :: 0 <= k < |queue| ==> Genuine(bus, queue[k])
  }

  ghost predicate QueueOk(bus: B.Bus, c: C.Consumer) {
    match c.pc
    case Idle => true
    case Ready(queue) => AllGenuine(bus, queue)
    case Running(e, queue, _, _, _, _, _) => Genuine(bus, e) && AllGenuine(bus, queue)
    case Acking(e, queue, _) => Genuine(bus, e) && AllGenuine(bus, queue)
    case Failing(e, queue, _) => Genuine(bus, e) && AllGenuine(bus, queue)
  }

  ghost predicate CountsAgree(trace: seq<Mark>, r: nat, c: C.Consumer) {
    forall t: string :: C.HandlerCount(c, t) == Count(trace, r, t)
  }

  /** While no handler has failed, every handler already passed has returned. */
  ghost predicate DispatchOk(trace: seq<Mark>, r: nat, c: C.Consumer) {
    match c.pc
    case Running(e, _, d, h, _, _, failure) =>
      && d < |trace| && trace[d] == Dispatched(r, e.id)
      && (failure.None? ==> forall i: nat :: i < h ==> ReturnedBefore(trace, |trace|, r, d, e.id, i))
    case Acking(e, _, why) =>
      exists m :: 0 <= m < |trace| &&
        (match why
         case OwnKind => trace[m] == Skipped(r, e.id)
         case AllReturned(d) => trace[m] == Decided(r, d, e.id))
    case _ => true
  }

  ghost predicate ConsumerOk(s: Sys, r: nat)
    requires r < |s.consumers|
  {
    && C.Inv(s.consumers[r])
    && QueueOk(s.bus, s.consumers[r])
    && CountsAgree(s.trace, r, s.consumers[r])
    && DispatchOk(s.trace, r, s.consumers[r])
  }

  ghost predicate ConsumersOk(s: Sys) {
    forall r :: 0 <= r < |s.consumers| ==> ConsumerOk(s, r)
  }

  ghost predicate AckInv(s: Sys) {
    TraceOk(s) && RemovalsTraced(s) && ConsumersOk(s)
  }

  // -------------------------------------------------------------- earlier marks stay

  ghost predicate Extends(s: Sys, t: Sys) {
    && |s.trace| <= |t.trace| && t.trace[..|s.trace|] == s.trace
    && |s.consumers| <= |t.consumers|
    && (forall r :: 0 <= r < |s.consumers| ==> t.consumers[r].config == s.consumers[r].config)
    && (forall x :: x in s.bus.log.inserted ==>
         x in t.bus.log.inserted && t.bus.log.inserted[x] == s.bus.log.inserted[x])
  }

  lemma StepExtends(s: Sys, st: Step, lim: Limits)
    requires Enabled(s, st)
    ensures Extends(s, Next(s, st, lim))
  {
    StepGrows(s, st, lim);
  }

  lemma ReturnedStays(s: seq<Mark>, t: seq<Mark>, m: nat, m': nat, r: nat, d: nat, id: Id, i: nat)
    requires |s| <= |t| && t[..|s|] == s && m <= m' && ReturnedBefore(s, m, r, d, id, i)
    ensures ReturnedBefore(t, m', r, d, id, i)
  {
    var j :| d < j < m && j < |s| && s[j] == Called(r, d, id, i, C.Returned);
    assert t[j] == t[..|s|][j];
  }

  lemma BackedStays(s: Sys, t: Sys, k: nat)
    requires k < |s.trace| && Extends(s, t) && Backed(s, k)
    ensures Backed(t, k)
  {
    assert forall j :: 0 <= j < |s.trace| ==> t.trace[j] == t.trace[..|s.trace|][j];
    match s.trace[k]
    case Registered(_, _) =>
    case Dispatched(_, _) =>
    case Called(_, _, _, _, _) =>
    case Decided(r, d, id) =>
      assert t.trace[..k] == s.trace[..k];
      forall i: nat | i < Count(t.trace[..k], r, t.bus.log.inserted[id].eventType)
        ensures ReturnedBefore(t.trace, k, r, d, id, i)
      {
        ReturnedStays(s.trace, t.trace, k, k, r, d, id, i);
      }
    case Skipped(_, _) =>
    case Removed(r, id) =>
      var m :| 0 <= m < k && (s.trace[m] == Skipped(r, id) || exists d :: s.trace[m] == Decided(r, d, id));
      assert t.trace[m] == s.trace[m];
  }

  /** A replica that does not move is not disturbed by the others. */
  lemma BystanderStays(s: Sys, t: Sys, r: nat)
    requires r < |s.consumers| && Extends(s, t) && t.consumers[r] == s.consumers[r] && ConsumerOk(s, r)
    requires forall et: string :: Count(t.trace, r, et) == Count(s.trace, r, et)
    ensures ConsumerOk(t, r)
  {
    assert forall j :: 0 <= j < |s.trace| ==> t.trace[j] == t.trace[..|s.trace|][j];
    match s.consumers[r].pc
    case Running(e, _, d, h, _, _, failure) =>
      if failure.None? {
        forall i: nat | i < h
          ensures ReturnedBefore(t.trace, |t.trace|, r, d, e.id, i)
        {
          ReturnedStays(s.trace, t.trace, |s.trace|, |t.trace|, r, d, e.id, i);
        }
      }
    case _ =>
  }

  // ------------------------------------------------------------- the replica's step

  /** A claim with topics brings in only those topics, and rows as they were inserted. */
  lemma ClaimedIsGenuine(s: Sys, st: Step, lim: Limits)
    requires B.Faithful(s.bus, lim.bus) && Enabled(s, st) && st.Consume? && st.cact.Claim?
    ensures AllGenuine(s.bus, st.cact.entries)
    ensures C.BrokerContract(s.consumers[st.replica], st.cact)
  {
    var claim := st.stmt.value;
    assert claim.chosen <= B.Pool(s.bus.rows, claim.topics);
    forall k | 0 <= k < |st.cact.entries|
      ensures Genuine(s.bus, st.cact.entries[k])
      ensures st.cact.entries[k].event.eventType in claim.topics
    {
      assert st.cact.entries[k].id in B.Pool(s.bus.rows, claim.topics);
    }
  }

  lemma QueueStep(s: Sys, st: Step, lim: Limits)
    requires B.Faithful(s.bus, lim.bus) && ConsumersOk(s) && Enabled(s, st) && st.Consume?
    ensures C.Inv(C.Next(s.consumers[st.replica], st.cact))
    ensures QueueOk(Next(s, st, lim).bus, C.Next(s.consumers[st.replica], st.cact))
  {
    assert ConsumerOk(s, st.replica);
    if st.cact.Claim? { ClaimedIsGenuine(s, st, lim); }
    C.InvStep(s.consumers[st.replica], st.cact);
    QueueActs(s.bus, s.consumers[st.replica], st.cact);
    StepGrows(s, st, lim);
  }

  lemma {:induction false} QueueActs(bus: B.Bus, c: C.Consumer, a: C.Act)
    requires QueueOk(bus, c) && C.Enabled(c, a) && (a.Claim? ==> AllGenuine(bus, a.entries))
    ensures QueueOk(bus, C.Next(c, a))
  {
    match a
    case On(_) =>
    case Claim(_) =>
    case Skip =>
    case Drop =>
    case Dispatch(_) =>
    case Attempt(_) =>
    case Decide =>
    case MarkDone(_) =>
    case MarkFailed(_) =>
    case Halt =>
  }

  lemma CountStep(s: Sys, st: Step, lim: Limits, r: nat, eventType: string)
    requires Enabled(s, st)
    ensures Count(Next(s, st, lim).trace, r, eventType)
            == Count(s.trace, r, eventType)
            + (if st.Consume? && st.replica == r && st.cact == C.On(eventType) then 1 else 0)
  {
    if st.Consume? {
      var marks := Marks(s, st.replica, s.consumers[st.replica], st.cact);
      if marks == [] {
        assert s.trace + marks == s.trace;
      } else {
        assert marks == [marks[0]];
        CountAppend(s.trace, marks[0], r, eventType);
      }
    }
  }

  /** The mark a running dispatch leaves, and what is known of it afterwards. */
  lemma DispatchStep(s: Sys, st: Step, lim: Limits)
    requires ConsumersOk(s) && Enabled(s, st) && st.Consume?
    ensures DispatchOk(Next(s, st, lim).trace, st.replica, C.Next(s.consumers[st.replica], st.cact))
  {
    var r, t := st.replica, Next(s, st, lim);
    var c := s.consumers[r];
    var c' := C.Next(c, st.cact);
    assert ConsumerOk(s, r);
    StepExtends(s, st, lim);
    assert forall j :: 0 <= j < |s.trace| ==> t.trace[j] == t.trace[..|s.trace|][j];
    match st.cact
    case On(_) => DispatchKept(s, t, r, c, c');
    case Skip => assert t.trace[|s.trace|] == Skipped(r, c'.pc.entry.id);
    case Dispatch(_) => assert t.trace[|s.trace|] == Dispatched(r, c'.pc.entry.id);
    case Attempt(outcome) => AttemptStep(s, t, r, c, outcome);
    case Decide => if c.pc.failure.None? { assert t.trace[|s.trace|] == Decided(r, c.pc.dispatch, c.pc.entry.id); }
    case _ =>
  }

  lemma DispatchKept(s: Sys, t: Sys, r: nat, c: C.Consumer, c': C.Consumer)
    requires DispatchOk(s.trace, r, c) && c'.pc == c.pc
    requires |s.trace| <= |t.trace| && t.trace[..|s.trace|] == s.trace
    ensures DispatchOk(t.trace, r, c')
  {
    assert forall j :: 0 <= j < |s.trace| ==> t.trace[j] == t.trace[..|s.trace|][j];
    if c.pc.Running? && c.pc.failure.None? {
      forall i: nat | i < c.pc.handler
        ensures ReturnedBefore(t.trace, |t.trace|, r, c.pc.dispatch, c.pc.entry.id, i)
      {
        ReturnedStays(s.trace, t.trace, |s.trace|, |t.trace|, r, c.pc.dispatch, c.pc.entry.id, i);
      }
    }
  }

  lemma AttemptStep(s: Sys, t: Sys, r: nat, c: C.Consumer, outcome: C.Outcome)
    requires DispatchOk(s.trace, r, c) && C.Enabled(c, C.Attempt(outcome))
    requires t.trace == s.trace + Marks(s, r, c, C.Attempt(outcome))
    ensures DispatchOk(t.trace, r, C.Next(c, C.Attempt(outcome)))
  {
    var pc, pc' := c.pc, C.AfterAttempt(c.pc, outcome, c.config.maxAttempts);
    if pc'.failure.None? {
      forall i: nat | i < pc'.handler
        ensures ReturnedBefore(t.trace, |t.trace|, r, pc.dispatch, pc.entry.id, i)
      {
        if i < pc.handler {
          ReturnedStays(s.trace, t.trace, |s.trace|, |t.trace|, r, pc.dispatch, pc.entry.id, i);
        } else {
          assert t.trace[|s.trace|] == Called(r, pc.dispatch, pc.entry.id, i, C.Returned);
        }
      }
    }
  }

  /** The replica that acts. */
  lemma ActorStep(s: Sys, st: Step, lim: Limits)
    requires B.Faithful(s.bus, lim.bus) && ConsumersOk(s) && Enabled(s, st) && st.Consume?
    ensures ConsumerOk(Next(s, st, lim), st.replica)
  {
    hide B.Apply, QueueOk, DispatchOk;
    var r := st.replica;
    assert ConsumerOk(s, r);
    forall et: string { CountStep(s, st, lim, r, et); }
    QueueStep(s, st, lim);
    DispatchStep(s, st, lim);
  }

  lemma NewcomerStep(s: Sys, st: Step, lim: Limits)
    requires TraceOk(s) && Enabled(s, st) && st.JoinConsumer?
    ensures ConsumerOk(Next(s, st, lim), |s.consumers|)
  {
    forall et: string { NobodyYet(s, |s.consumers|, et, |s.trace|); }
    assert s.trace[..|s.trace|] == s.trace;
  }

  lemma ConsumersStep(s: Sys, st: Step, lim: Limits)
    requires B.Faithful(s.bus, lim.bus) && ConsumersOk(s) && Enabled(s, st)
    requires TraceOk(s)
    ensures ConsumersOk(Next(s, st, lim))
  {
    hide B.Apply, ConsumerOk, TraceOk;
    var t := Next(s, st, lim);
    StepExtends(s, st, lim);
    forall r | 0 <= r < |t.consumers|
      ensures ConsumerOk(t, r)
    {
      if st.Consume? && st.replica == r {
        ActorStep(s, st, lim);
      } else if r < |s.consumers| {
        assert ConsumerOk(s, r);
        forall et: string { CountStep(s, st, lim, r, et); }
        BystanderStays(s, t, r);
      } else {
        NewcomerStep(s, st, lim);
      }
    }
  }

  /** A replica that has not joined has registered nothing. */
  lemma {:induction false} NobodyYet(s: Sys, r: nat, eventType: string, n: nat)
    requires TraceOk(s) && r >= |s.consumers| && n <= |s.trace|
    ensures Count(s.trace[..n], r, eventType) == 0
    decreases n
  {
    if n > 0 {
      NobodyYet(s, r, eventType, n - 1);
      assert s.trace[..n][..n - 1] == s.trace[..n - 1];
      assert Backed(s, n - 1);
    }
  }

  // ----------------------------------------------------------------- the new mark

  lemma NewMarkBacked(s: Sys, st: Step, lim: Limits)
    requires ConsumersOk(s) && Enabled(s, st) && st.Consume?
    requires Marks(s, st.replica, s.consumers[st.replica], st.cact) != []
    ensures Backed(Next(s, st, lim), |s.trace|)
  {
    hide B.Apply, C.Inv;
    var r, t := st.replica, Next(s, st, lim);
    var c := s.consumers[r];
    assert ConsumerOk(s, r);
    StepExtends(s, st, lim);
    assert forall j :: 0 <= j < |s.trace| ==> t.trace[j] == t.trace[..|s.trace|][j];
    match st.cact
    case On(_) =>
    case Skip =>
    case Dispatch(_) =>
    case Attempt(_) =>
    case Decide =>
      assert t.trace[..|s.trace|] == s.trace;
      forall i: nat | i < Count(s.trace, r, c.pc.entry.event.eventType)
        ensures ReturnedBefore(t.trace, |s.trace|, r, c.pc.dispatch, c.pc.entry.id, i)
      {
        ReturnedStays(s.trace, t.trace, |s.trace|, |s.trace|, r, c.pc.dispatch, c.pc.entry.id, i);
      }
    case MarkDone(_) =>
      var m :| 0 <= m < |s.trace| &&
        (match c.pc.why
         case OwnKind => s.trace[m] == Skipped(r, c.pc.entry.id)
         case AllReturned(d) => s.trace[m] == Decided(r, d, c.pc.entry.id));
      assert t.trace[m] == s.trace[m];
  }

  lemma TraceStep(s: Sys, st: Step, lim: Limits)
    requires TraceOk(s) && ConsumersOk(s) && Enabled(s, st)
    ensures TraceOk(Next(s, st, lim))
  {
    var t := Next(s, st, lim);
    StepExtends(s, st, lim);
    forall k | 0 <= k < |t.trace|
      ensures Backed(t, k)
    {
      if k < |s.trace| {
        assert t.trace[k] == t.trace[..|s.trace|][k];
        BackedStays(s, t, k);
      } else {
        NewMarkBacked(s, st, lim);
      }
    }
  }

  lemma DoneByMark(b: B.Bus, st: B.Stmt, max: int, id: Id)
    requires id in B.Apply(b, st, max).log.done
    ensures id in b.log.done || (st.MarkDone? && st.id == id && id in b.rows)
  {
  }

  lemma RemovalsStep(s: Sys, st: Step, lim: Limits)
    requires RemovalsTraced(s) && Enabled(s, st)
    ensures RemovalsTraced(Next(s, st, lim))
  {
    hide B.Apply;
    var t := Next(s, st, lim);
    StepExtends(s, st, lim);
    forall id | id in t.bus.log.done
      ensures exists k, r :: 0 <= k < |t.trace| && t.trace[k] == Removed(r, id)
    {
      if id in s.bus.log.done {
        var k, r :| 0 <= k < |s.trace| && s.trace[k] == Removed(r, id);
        assert t.trace[k] == t.trace[..|s.trace|][k];
      } else {
        DoneByMark(s.bus, BusStmtOf(st).value, lim.bus, id);
        assert t.trace[|s.trace|] == Removed(st.replica, id);
      }
    }
  }
}
