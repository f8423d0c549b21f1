/** One EventConsumer as a process: what it may do between two awaits, whatever the
    other replicas do meanwhile. Statement outcomes and handler results come from
    outside and are part of the action. */
module ConsumerProcess {
  import opened Types

  /** How one attempt of a handler ends; Stopped is the shutdown check before it. */
  datatype Outcome = Returned | Threw(message: string) | Invalid(message: string) | Stopped

  datatype Entry = Entry(id: Id, event: Event)

  datatype Config = Config(
    instance: string,
    source: string,
    skipKinds: set<string>,
    maxAttempts: nat)

  /** Why an event is about to be acknowledged. */
  datatype Why = OwnKind | AllReturned(dispatch: nat)

  datatype Pc =
    | Idle
    | Ready(queue: seq<Entry>)
    | Running(entry: Entry, queue: seq<Entry>, dispatch: nat, handler: nat, attempt: nat,
              lastError: Option<string>, failure: Option<string>)
    | Acking(entry: Entry, queue: seq<Entry>, why: Why)
    | Failing(entry: Entry, queue: seq<Entry>, reason: string)

  /** `handlers` counts the handlers registered per event type; `topics` caches its keys. */
  datatype Consumer = Consumer(config: Config, handlers: map<string, nat>, topics: seq<string>, pc: Pc)

  datatype Act =
    | On(eventType: string)
    | Claim(entries: seq<Entry>)
    | Skip
    | Drop
    | Dispatch(dispatch: nat)
    | Attempt(outcome: Outcome)
    | Decide
    | MarkDone(reply: Reply)
    | MarkFailed(reply: Reply)
    | Halt

  function HandlerCount(c: Consumer, eventType: string): nat {
    if eventType in c.handlers then c.handlers[eventType] else 0
  }

  predicate OwnEvent(config: Config, event: Event) {
    event.source == config.source && event.eventKind in config.skipKinds
  }

  /** A handler may be registered while a dispatch of its type is under way: the loop
      runs over the live list, so Decide looks at the list as it then is. Halt is a
      crash, a stop between two events, or an error that ends the tick. */
  predicate Enabled(c: Consumer, a: Act) {
    match a
    case On(_) => true
    case Claim(_) => c.pc.Idle? && c.topics != []
    case Skip => c.pc.Ready? && c.pc.queue != [] && OwnEvent(c.config, c.pc.queue[0].event)
    case Drop =>
      && c.pc.Ready? && c.pc.queue != [] && !OwnEvent(c.config, c.pc.queue[0].event)
      && c.pc.queue[0].event.eventType !in c.handlers
    case Dispatch(_) =>
      && c.pc.Ready? && c.pc.queue != [] && !OwnEvent(c.config, c.pc.queue[0].event)
      && c.pc.queue[0].event.eventType in c.handlers
    case Attempt(_) => c.pc.Running? && c.pc.handler < HandlerCount(c, c.pc.entry.event.eventType)
    case Decide => c.pc.Running? && c.pc.handler >= HandlerCount(c, c.pc.entry.event.eventType)
    case MarkDone(_) => c.pc.Acking?
    case MarkFailed(_) => c.pc.Failing?
    case Halt => true
  }

  /** The next handler, with what this one left: no failure, or its last error. */
  function NextHandler(pc: Pc, failed: Option<string>): Pc
    requires pc.Running?
  {
    pc.(handler := pc.handler + 1, attempt := 1, lastError := None,
        failure := if failed.Some? then failed else pc.failure)
  }

  function AfterAttempt(pc: Pc, outcome: Outcome, maxAttempts: nat): Pc
    requires pc.Running?
  {
    match outcome
    case Returned => NextHandler(pc, None)
    case Stopped => NextHandler(pc, Some(if pc.lastError.Some? then pc.lastError.value else "shutdown in progress"))
    case Invalid(message) => NextHandler(pc, Some(message))
    case Threw(message) =>
      if pc.attempt >= maxAttempts then NextHandler(pc, Some(message))
      else pc.(attempt := pc.attempt + 1, lastError := Some(message))
  }

  function Register(c: Consumer, eventType: string): Consumer {
    c.(handlers := c.handlers[eventType := HandlerCount(c, eventType) + 1],
       topics := if eventType in c.handlers then c.topics else c.topics + [eventType])
  }

  function Next(c: Consumer, a: Act): Consumer
    requires Enabled(c, a)
  {
    match a
    case On(eventType) => Register(c, eventType)
    case Claim(entries) => c.(pc := Ready(entries))
    case Skip => c.(pc := Acking(c.pc.queue[0], c.pc.queue[1..], OwnKind))
    case Drop => c.(pc := Ready(c.pc.queue[1..]))
    case Dispatch(d) => c.(pc := Running(c.pc.queue[0], c.pc.queue[1..], d, 0, 1, None, None))
    case Attempt(outcome) => c.(pc := AfterAttempt(c.pc, outcome, c.config.maxAttempts))
    case Decide =>
      if c.pc.failure.None? then c.(pc := Acking(c.pc.entry, c.pc.queue, AllReturned(c.pc.dispatch)))
      else c.(pc := Failing(c.pc.entry, c.pc.queue, c.pc.failure.value))
    case MarkDone(reply) => c.(pc := if reply.Acked? then Ready(c.pc.queue) else Idle)
    case MarkFailed(reply) => c.(pc := if reply.Acked? then Ready(c.pc.queue) else Idle)
    case Halt => c.(pc := Idle)
  }

  // --------------------------------------------------------------- what a tick gets done

  /** The next event of the batch is taken up: skipped, dropped or dispatched. */
  predicate TakesUp(a: Act) { a.Skip? || a.Drop? || a.Dispatch? }

  function Taken(acts: seq<Act>): nat {
    if acts == [] then 0 else Taken(acts[..|acts| - 1]) + if TakesUp(acts[|acts| - 1]) then 1 else 0
  }

  /** Nothing is broken off. */
  predicate GoesOn(acts: seq<Act>) { forall a :: a in acts ==> !a.Halt? }

  /** A tick that claimed a batch takes up every event of it, and each to its end, unless
      the consumer is stopping or an answer fails. */
  predicate Completes(acts: seq<Act>, events: seq<Entry>, stopping: bool) {
    && acts != [] && acts[0] == Claim(events) && GoesOn(acts[..|acts| - 1])
    && match acts[|acts| - 1]
       case Halt => Taken(acts) == |events| || stopping
       case MarkDone(reply) => !reply.Acked?
       case MarkFailed(reply) => !reply.Acked?
       case _ => false
  }

  lemma TakenMore(acts: seq<Act>, a: Act)
    ensures Taken(acts + [a]) == Taken(acts) + (if TakesUp(a) then 1 else 0)
    ensures GoesOn(acts + [a]) <==> GoesOn(acts) && !a.Halt?
  {
    assert (acts + [a])[..|acts|] == acts;
    assert a in acts + [a];
    if GoesOn(acts + [a]) {
      forall b | b in acts
        ensures !b.Halt?
      {
        assert b in acts + [a];
      }
    }
  }

  lemma {:induction false} TakenJoin(acts: seq<Act>, more: seq<Act>)
    ensures Taken(acts + more) == Taken(acts) + Taken(more)
    ensures GoesOn(acts) && GoesOn(more) ==> GoesOn(acts + more)
  {
    if more == [] {
      assert acts + more == acts;
    } else {
      var init, last := more[..|more| - 1], more[|more| - 1];
      assert acts + more == (acts + init) + [last] && more == init + [last];
      TakenJoin(acts, init);
      TakenMore(acts + init, last);
      TakenMore(init, last);
    }
  }

  lemma {:induction false} AttemptsTakeNone(acts: seq<Act>)
    requires forall k :: 0 <= k < |acts| ==> acts[k].Attempt?
    ensures Taken(acts) == 0 && GoesOn(acts)
  {
    if acts != [] { AttemptsTakeNone(acts[..|acts| - 1]); }
  }

  /** The cached topic list is exactly the registered types, each with a handler. */
  ghost predicate TopicsCached(c: Consumer) {
    && (forall t :: t in c.topics <==> t in c.handlers)
    && (forall t :: t in c.handlers ==> c.handlers[t] >= 1)
  }

  /** Every claimed event still to be handled has a registered type: a claim without
      topics, which would take every type, is never issued. */
  ghost predicate QueueRegistered(c: Consumer) {
    match c.pc
    case Idle => true
    case Ready(queue) => forall k :: 0 <= k < |queue| ==> queue[k].event.eventType in c.handlers
    case Running(entry, queue, _, _, _, _, _) =>
      entry.event.eventType in c.handlers && forall k :: 0 <= k < |queue| ==> queue[k].event.eventType in c.handlers
    case Acking(_, queue, _) => forall k :: 0 <= k < |queue| ==> queue[k].event.eventType in c.handlers
    case Failing(_, queue, _) => forall k :: 0 <= k < |queue| ==> queue[k].event.eventType in c.handlers
  }

  ghost predicate Inv(c: Consumer) { TopicsCached(c) && QueueRegistered(c) }

  /** The broker answers a claim with events of the topics it was asked for. */
  predicate BrokerContract(c: Consumer, a: Act) {
    a.Claim? ==> forall k :: 0 <= k < |a.entries| ==> a.entries[k].event.eventType in c.topics
  }

  /** With such a broker the guard against unregistered types never fires. */
  lemma {:induction false} InvStep(c: Consumer, a: Act)
    requires Inv(c) && Enabled(c, a) && BrokerContract(c, a)
    ensures Inv(Next(c, a)) && !a.Drop?
  {
    match a
    case On(_) =>
    case Claim(_) =>
    case Skip =>
    case Drop =>
    case Dispatch(_) =>
    case Attempt(_) =>
    case Decide =>
    case MarkDone(_) =>
    case MarkFailed(_) =>
    case Halt =>
  }

  /** What happens to the next event: acknowledged unhandled exactly when this service
      sent it and its kind is one to skip, handled exactly when that is not so and its
      type has a handler. */
  lemma HeadDecides(c: Consumer, d: nat)
    requires c.pc.Ready? && c.pc.queue != []
    ensures var e := c.pc.queue[0].event;
            var own := e.source == c.config.source && e.eventKind in c.config.skipKinds;
            && (Enabled(c, Skip) <==> own)
            && (Enabled(c, Dispatch(d)) <==> !own && e.eventType in c.handlers)
            && (Enabled(c, Drop) <==> !own && e.eventType !in c.handlers)
  {
  }

  /** After the last handler the event is acknowledged exactly when none has failed. */
  lemma DecideIff(c: Consumer)
    requires Enabled(c, Decide)
    ensures Next(c, Decide).pc.Acking? <==> c.pc.failure.None?
    ensures Next(c, Decide).pc.Failing? <==> c.pc.failure.Some?
    ensures Next(c, Decide).pc.entry == c.pc.entry
  {
  }

  // ---------------------------------------------------------------------- replay

  /** `acts`, taken one after the other, lead from `c` to `end`. */
  ghost predicate Replays(c: Consumer, acts: seq<Act>, end: Consumer)
    decreases |acts|
  {
    if acts == [] then c == end else Enabled(c, acts[0]) && Replays(Next(c, acts[0]), acts[1..], end)
  }

  lemma {:induction false} ReplayMore(c: Consumer, acts: seq<Act>, mid: Consumer, a: Act)
    requires Replays(c, acts, mid) && Enabled(mid, a)
    ensures Replays(c, acts + [a], Next(mid, a))
    decreases |acts|
  {
    if acts == [] {
      assert [a][1..] == [];
      assert [] + [a] == [a];
      assert Replays(Next(c, a), [], Next(mid, a));
    } else {
      ReplayMore(Next(c, acts[0]), acts[1..], mid, a);
      assert (acts + [a])[1..] == acts[1..] + [a];
    }
  }
}
