/** EventConsumer itself: the polling loop and the retry loop, proved to take only
    steps that ConsumerProcess allows. */
module PollingConsumer {
  import opened Types
  import opened ConsumerProcess

  type Ran = o: Outcome | !o.Stopped? witness Returned

  /** Everything a tick learns from outside, indexed by the number of the await:
      the stop flag, the answer to a claim (None when it throws), what a handler does,
      and the answer to markDone or markFailed. */
  datatype World = World(stopping: nat -> bool, claimed: nat -> Option<seq<Entry>>, handler: nat -> Ran,
                         reply: nat -> Reply)

  function Flat(runs: seq<seq<Act>>): seq<Act> {
    if runs == [] then [] else Flat(runs[..|runs| - 1]) + runs[|runs| - 1]
  }

  /** How a handler's attempts ended. */
  predicate EndsWith(run: seq<Act>, outcome: Outcome) { run != [] && run[|run| - 1] == Attempt(outcome) }

  predicate FailsWith(run: seq<Act>, message: string) {
    EndsWith(run, Threw(message)) || EndsWith(run, Invalid(message))
  }

  /** No failure exactly when every handler returned; otherwise the message of the last
      one that threw, unless a stop came after it. */
  ghost predicate EndsAre(runs: seq<seq<Act>>, lastError: Option<string>) {
    && (forall k :: 0 <= k < |runs| ==> runs[k] != [] && runs[k][|runs[k]| - 1].Attempt?)
    && (lastError.None? <==> forall k :: 0 <= k < |runs| ==> EndsWith(runs[k], Returned))
    && forall k, message :: 0 <= k < |runs| && FailsWith(runs[k], message)
                            && (forall m :: k < m < |runs| ==> EndsWith(runs[m], Returned)) ==>
                              lastError == Some(message)
  }

  lemma NoRuns(acts: seq<Act>)
    ensures acts == acts + Flat([]) && EndsAre([], None)
  {
  }

  lemma OneMoreRun(acts: seq<Act>, runs: seq<seq<Act>>, run: seq<Act>, lastError: Option<string>,
                   failure: Option<string>)
    requires EndsAre(runs, lastError) && run != [] && run[|run| - 1].Attempt?
    requires failure.None? <==> EndsWith(run, Returned)
    requires forall message :: FailsWith(run, message) ==> failure == Some(message)
    ensures acts + Flat(runs) + run == acts + Flat(runs + [run])
    ensures EndsAre(runs + [run], if failure.Some? then failure else lastError)
  {
    var all := runs + [run];
    assert all[..|runs|] == runs && all[|runs|] == run;
    assert forall k :: 0 <= k < |runs| ==> all[k] == runs[k];
  }

  /** What an act says a handler or the broker answered is what one of the awaits from
      `from` up to `to` returned. */
  ghost predicate Heard(world: World, a: Act, from: nat, to: nat) {
    match a
    case Attempt(outcome) => outcome.Stopped? || exists c: nat :: from <= c < to && world.handler(c) == outcome
    case MarkDone(reply) => exists c: nat :: from <= c < to && world.reply(c) == reply
    case MarkFailed(reply) => exists c: nat :: from <= c < to && world.reply(c) == reply
    case _ => true
  }

  ghost predicate AllHeard(world: World, acts: seq<Act>, from: nat, to: nat) {
    forall a :: a in acts ==> Heard(world, a, from, to)
  }

  lemma HeardJoin(world: World, acts: seq<Act>, more: seq<Act>, from: nat, to: nat)
    requires AllHeard(world, acts, from, to) && AllHeard(world, more, from, to)
    ensures AllHeard(world, acts + more, from, to)
  {
  }

  lemma HeardLater(world: World, acts: seq<Act>, from: nat, mid: nat, to: nat)
    requires mid <= to && AllHeard(world, acts, from, mid)
    ensures AllHeard(world, acts, from, to)
  {
    forall a | a in acts
      ensures Heard(world, a, from, to)
    {
      assert Heard(world, a, from, mid);
    }
  }

  lemma NothingHeard(world: World, from: nat, to: nat)
    ensures AllHeard(world, [], from, to)
  {
  }

  lemma HeardOne(world: World, a: Act, from: nat, to: nat)
    requires Heard(world, a, from, to)
    ensures AllHeard(world, [a], from, to)
  {
  }

  /** What a tick over these topics, from one await to another, has to show for it. */
  ghost predicate Ticked(acts: seq<Act>, world: World, topics: seq<string>, from: nat, to: nat) {
    && AllHeard(world, acts, from, to)
    && if topics == [] || world.claimed(from).None? then acts == []
       else Completes(acts, world.claimed(from).value, world.stopping(to))
  }

  lemma NothingTaken()
    ensures Taken([]) == 0 && GoesOn([])
  {
  }

  lemma NothingDone(start: Consumer)
    ensures Replays(start, [], start) && Taken([]) == 0 && GoesOn([])
  {
  }

  /** A mark that got no answer. */
  predicate Unanswered(a: Act) { (a.MarkDone? || a.MarkFailed?) && !a.reply.Acked? }

  lemma BrokenOff(acts: seq<Act>, more: seq<Act>)
    requires more != [] && GoesOn(acts) && GoesOn(more)
    ensures var all := acts + more; all[|all| - 1] == more[|more| - 1] && GoesOn(all[..|all| - 1])
  {
    var all := acts + more;
    forall a | a in all[..|all| - 1]
      ensures !a.Halt?
    {
      var k :| 0 <= k < |all| - 1 && all[k] == a;
      if k < |acts| { assert a in acts; } else { assert more[k - |acts|] in more; }
    }
  }

  class EventConsumer {
    const config: Config
    var handlers: map<string, nat>
    var topicKeys: seq<string>
    var polling: bool
    var stopping: bool
    var inflight: bool
    var clock: nat

    /** The process state this object is in. */
    ghost var proc: Consumer

    ghost predicate Valid()
      reads this
    {
      && config.maxAttempts >= 1
      && proc.config == config && proc.handlers == handlers && proc.topics == topicKeys
      && TopicsCached(proc)
    }

    constructor (config: Config)
      requires config.maxAttempts >= 1
      ensures Valid() && this.config == config && handlers == map[] && !polling && !inflight && proc.pc == Idle
    {
      this.config := config;
      handlers, topicKeys, polling, stopping, inflight, clock := map[], [], false, false, false, 0;
      proc := Consumer(config, map[], [], Idle);
    }

    /** Registration is allowed at any moment, also during a tick. */
    method On(eventType: string)
      requires Valid()
      modifies this
      ensures Valid() && proc == Register(old(proc), eventType)
      ensures clock == old(clock) && polling == old(polling) && stopping == old(stopping) && inflight == old(inflight)
    {
      var isNewType := eventType !in handlers;
      handlers := handlers[eventType := (if isNewType then 0 else handlers[eventType]) + 1];
      if isNewType {
        topicKeys := topicKeys + [eventType];
      }
      proc := Register(proc, eventType);
    }

    method Start()
      modifies this`polling, this`stopping
      ensures polling && stopping == (old(polling) && old(stopping))
    {
      if !polling {
        stopping := false;
        polling := true;
      }
    }

    method Dispose()
      modifies this`polling, this`stopping
      ensures !polling && stopping
    {
      stopping := true;
      polling := false;
    }

    /** The interval callback: at most one tick in flight, none while stopping. */
    method TimerFires(world: World) returns (acts: seq<Act>)
      requires Valid() && (!inflight ==> proc.pc.Idle?)
      modifies this
      ensures Valid() && Replays(old(proc), acts, proc)
      ensures old(stopping) || old(inflight) ==> acts == [] && proc == old(proc) && clock == old(clock)
      ensures !old(stopping) && !old(inflight) ==> Ticked(acts, world, old(topicKeys), old(clock), clock)
      ensures inflight == old(inflight) && (!inflight ==> proc.pc.Idle?)
    {
      hide Ticked, Replays;
      NothingDone(proc);
      if stopping || inflight {
        return [];
      }
      inflight := true;
      acts := Tick(world);
      inflight := false;
    }

    ghost method Did(start: Consumer, acts: seq<Act>, a: Act)
      requires Replays(start, acts, proc) && Enabled(proc, a)
      modifies this`proc
      ensures proc == Next(old(proc), a) && Replays(start, acts + [a], proc)
    {
      ReplayMore(start, acts, proc, a);
      proc := Next(proc, a);
    }

    /** Claims a batch of the registered topics and handles it event by event. */
    method Tick(world: World) returns (acts: seq<Act>)
      requires Valid() && proc.pc.Idle?
      modifies this`proc, this`clock
      ensures Valid() && proc.pc.Idle?
      ensures Replays(old(proc), acts, proc)
      ensures clock >= old(clock) && Ticked(acts, world, topicKeys, old(clock), clock)
    {
      hide Replays, Taken, GoesOn, AllHeard;
      ghost var start, from := proc, clock;
      NothingHeard(world, from, clock);
      acts := [];
      NothingDone(start);
      if topicKeys == [] {
        return;
      }
      var claimed := world.claimed(clock);
      clock := clock + 1;
      NothingHeard(world, from, clock);
      if claimed.None? {
        return;
      }
      var events := claimed.value;
      HeardOne(world, Claim(events), from, clock);
      Did(start, acts, Claim(events));
      TakenMore(acts, Claim(events));
      acts := acts + [Claim(events)];
      assert acts == [Claim(events)];
      var i := 0;
      while i < |events|
        invariant 0 <= i <= |events|
        invariant Valid() && proc.pc == Ready(events[i..])
        invariant Replays(start, acts, proc)
        invariant acts != [] && acts[0] == Claim(events) && GoesOn(acts) && Taken(acts) == i
        invariant from <= clock && AllHeard(world, acts, from, clock)
      {
        if world.stopping(clock) {
          break;
        }
        ghost var before := clock;
        var more, ok := HandleEvent(events[i], events[i + 1..], world, start, acts, from);
        HeardLater(world, acts, from, before, clock);
        HeardJoin(world, acts, more, from, clock);
        TakenJoin(acts, more);
        BrokenOff(acts, more);
        acts := acts + more;
        if !ok {
          return;
        }
        i := i + 1;
      }
      Did(start, acts, Halt);
      TakenMore(acts, Halt);
      assert (acts + [Halt])[..|acts|] == acts;
      HeardOne(world, Halt, from, clock);
      HeardJoin(world, acts, [Halt], from, clock);
      acts := acts + [Halt];
    }

    /** The body of the loop over the batch; `ok` is false when an error ends the tick. */
    method HandleEvent(event: Entry, ghost rest: seq<Entry>, world: World, ghost start: Consumer,
                       ghost before: seq<Act>, ghost from: nat)
      returns (acts: seq<Act>, ok: bool)
      requires Valid() && proc.pc == Ready([event] + rest) && Replays(start, before, proc) && from <= clock
      modifies this`proc, this`clock
      ensures clock >= old(clock) && AllHeard(world, acts, from, clock)
      ensures Valid() && proc.pc == (if ok then Ready(rest) else Idle)
      ensures Replays(start, before + acts, proc)
      ensures acts != [] && GoesOn(acts) && Taken(acts) == 1 && (!ok ==> Unanswered(acts[|acts| - 1]))
    {
      hide Replays, Register, NextHandler, AfterAttempt, Taken, GoesOn, AllHeard;
      acts := [];
      NothingHeard(world, from, clock);
      NothingTaken();
      assert before + acts == before;
      var lastError: Option<string> := None;
      if OwnEvent(config, event.event) {
        acts := Take(Skip, acts, start, before, world, from);
      } else if event.event.eventType !in handlers {
        acts := Take(Drop, acts, start, before, world, from);
        return acts, true;
      } else {
        var d := clock;
        acts := Take(Dispatch(d), acts, start, before, world, from);
        ghost var runs: seq<seq<Act>>;
        lastError, acts, runs := RunHandlers(event.event.eventType, world, start, before, acts, from);
        acts := Take(Decide, acts, start, before, world, from);
      }
      acts, ok := Mark(lastError, rest, world, start, before, acts, from);
    }

    /** markDone when nothing failed, markFailed otherwise. */
    method Mark(lastError: Option<string>, ghost rest: seq<Entry>, world: World, ghost start: Consumer,
                ghost before: seq<Act>, acts: seq<Act>, ghost from: nat)
      returns (more: seq<Act>, ok: bool)
      requires Valid() && Replays(start, before + acts, proc)
      requires from <= clock && AllHeard(world, acts, from, clock)
      requires if lastError.None? then proc.pc.Acking? && proc.pc.queue == rest
               else proc.pc.Failing? && proc.pc.queue == rest && proc.pc.reason == lastError.value
      modifies this`proc, this`clock
      ensures Valid() && proc.pc == (if ok then Ready(rest) else Idle)
      ensures Replays(start, before + more, proc)
      ensures Taken(more) == Taken(acts) && (GoesOn(acts) ==> GoesOn(more))
      ensures more != [] && (!ok ==> Unanswered(more[|more| - 1]))
      ensures clock >= old(clock) && AllHeard(world, more, from, clock)
    {
      hide Replays, Register, NextHandler, AfterAttempt, Taken, GoesOn, AllHeard;
      var reply := world.reply(clock);
      clock := clock + 1;
      HeardLater(world, acts, from, old(clock), clock);
      more := Take(if lastError.None? then MarkDone(reply) else MarkFailed(reply), acts, start, before, world, from);
      ok := reply.Acked?;
    }

    /** Runs every registered handler, also after one has failed; `runs` are the attempts
        handler by handler, and the failure reported is that of the last one to fail. */
    method RunHandlers(eventType: string, world: World, ghost start: Consumer, ghost before: seq<Act>, acts: seq<Act>,
                       ghost from: nat)
      returns (lastError: Option<string>, more: seq<Act>, ghost runs: seq<seq<Act>>)
      requires Valid() && eventType in handlers && Replays(start, before + acts, proc)
      requires from <= clock && AllHeard(world, acts, from, clock)
      requires proc.pc.Running? && proc.pc.entry.event.eventType == eventType
      requires proc.pc.handler == 0 && proc.pc.attempt == 1 && proc.pc.lastError == None && proc.pc.failure == None
      modifies this`proc, this`clock
      ensures Valid() && Replays(start, before + more, proc)
      ensures proc.pc == old(proc).pc.(handler := handlers[eventType], failure := lastError)
      ensures |runs| == handlers[eventType] && more == acts + Flat(runs) && EndsAre(runs, lastError)
      ensures Taken(more) == Taken(acts) && (GoesOn(acts) ==> GoesOn(more))
      ensures clock >= old(clock) && AllHeard(world, more, from, clock)
    {
      hide Replays, Register, Flat, EndsAre, Taken, GoesOn, AllHeard;
      more, lastError, runs := acts, None, [];
      NoRuns(acts);
      var h := 0;
      while h < handlers[eventType]
        invariant 0 <= h <= handlers[eventType]
        invariant Valid() && proc.pc == old(proc).pc.(handler := h, failure := lastError)
        invariant Replays(start, before + more, proc)
        invariant |runs| == h && more == acts + Flat(runs) && EndsAre(runs, lastError)
        invariant Taken(more) == Taken(acts) && (GoesOn(acts) ==> GoesOn(more))
        invariant clock >= old(clock) && AllHeard(world, more, from, clock)
      {
        ghost var mid := clock;
        var failure, tries := ExecuteWithRetry(world, start, before + more, from);
        HeardLater(world, more, from, mid, clock);
        HeardJoin(world, more, tries, from, clock);
        assert before + (more + tries) == before + more + tries;
        OneMoreRun(acts, runs, tries, lastError, failure);
        AttemptsTakeNone(tries);
        TakenJoin(more, tries);
        runs := runs + [tries];
        more := more + tries;
        if failure.Some? {
          lastError := failure;
        }
        h := h + 1;
      }
    }

    method Take(a: Act, acts: seq<Act>, ghost start: Consumer, ghost before: seq<Act>, ghost world: World,
                ghost from: nat)
      returns (more: seq<Act>)
      requires Replays(start, before + acts, proc) && Enabled(proc, a)
      requires AllHeard(world, acts, from, clock) && Heard(world, a, from, clock)
      modifies this`proc
      ensures more == acts + [a] && proc == Next(old(proc), a) && Replays(start, before + more, proc)
      ensures Taken(more) == Taken(acts) + (if TakesUp(a) then 1 else 0)
      ensures GoesOn(more) <==> GoesOn(acts) && !a.Halt?
      ensures AllHeard(world, more, from, clock)
    {
      hide AllHeard, Heard;
      HeardOne(world, a, from, clock);
      HeardJoin(world, acts, [a], from, clock);
      TakenMore(acts, a);
      Did(start, before + acts, a);
      more := acts + [a];
      assert before + more == before + acts + [a];
    }

    /** One handler: retried after each throw while attempts are left; a schema error
        or a stop ends it at once. */
    method ExecuteWithRetry(world: World, ghost start: Consumer, ghost before: seq<Act>, ghost from: nat)
      returns (failure: Option<string>, acts: seq<Act>)
      requires Valid() && proc.pc.Running? && proc.pc.attempt == 1 && proc.pc.lastError == None
      requires proc.pc.handler < HandlerCount(proc, proc.pc.entry.event.eventType)
      requires Replays(start, before, proc) && from <= clock
      modifies this`proc, this`clock
      ensures Valid() && proc.pc == NextHandler(old(proc).pc, failure)
      ensures clock >= old(clock) && AllHeard(world, acts, from, clock)
      ensures Replays(start, before + acts, proc)
      ensures 1 <= |acts| <= config.maxAttempts
      ensures forall k :: 0 <= k < |acts| ==> acts[k].Attempt? && (k < |acts| - 1 ==> acts[k].outcome.Threw?)
      ensures match acts[|acts| - 1].outcome
              case Returned => failure == None
              case Threw(message) => failure == Some(message) && |acts| == config.maxAttempts
              case Invalid(message) => failure == Some(message)
              case Stopped =>
                failure == Some(if |acts| == 1 then "shutdown in progress" else acts[|acts| - 2].outcome.message)
    {
      hide Replays, Register, Taken, GoesOn, AllHeard;
      acts := [];
      NothingHeard(world, from, clock);
      assert before + acts == before;
      var attempt, lastError := 1, None;
      while true
        invariant 1 <= attempt <= config.maxAttempts && |acts| == attempt - 1
        invariant Valid() && proc.pc == old(proc).pc.(attempt := attempt, lastError := lastError)
        invariant Replays(start, before + acts, proc)
        invariant forall k :: 0 <= k < |acts| ==> acts[k].Attempt? && acts[k].outcome.Threw?
        invariant clock >= old(clock) && AllHeard(world, acts, from, clock)
        invariant lastError == if acts == [] then None else Some(acts[|acts| - 1].outcome.message)
        decreases config.maxAttempts - attempt
      {
        if world.stopping(clock) {
          acts := Take(Attempt(Stopped), acts, start, before, world, from);
          return Some(if lastError.Some? then lastError.value else "shutdown in progress"), acts;
        }
        var outcome: Outcome := world.handler(clock);
        clock := clock + 1;
        HeardLater(world, acts, from, clock - 1, clock);
        acts := Take(Attempt(outcome), acts, start, before, world, from);
        match outcome
        case Returned => return None, acts;
        case Invalid(message) => return Some(message), acts;
        case Threw(message) =>
          if attempt >= config.maxAttempts {
            return Some(message), acts;
          }
          lastError := Some(message);
          attempt := attempt + 1;
      }
    }
  }
}
