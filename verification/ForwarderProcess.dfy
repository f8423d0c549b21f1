/** One OutboxForwarder as a process, and the class that runs it. */
module ForwarderProcess {
  import opened Types

  datatype Entry = Entry(id: Id, message: Message)

  datatype Pc =
    | Idle
    | Ready(queue: seq<Entry>)
    | Looking(entry: Entry, queue: seq<Entry>)
    | Sending(entry: Entry, queue: seq<Entry>)
    | Failing(entry: Entry, queue: seq<Entry>)

  datatype Forwarder = Forwarder(instance: string, source: string, pc: Pc)

  /** `met` tells whether the insert met a row of the same origin, `found` whether the
      lookup still found it. */
  datatype Act =
    | Claim(entries: seq<Entry>)
    | Publish(reply: Reply, met: bool)
    | Lookup(reply: Reply, found: bool)
    | MarkSent(reply: Reply)
    | MarkFailed(reply: Reply)
    | Halt

  predicate Enabled(f: Forwarder, a: Act) {
    match a
    case Claim(_) => f.pc.Idle?
    case Publish(_, _) => f.pc.Ready? && f.pc.queue != []
    case Lookup(_, _) => f.pc.Looking?
    case MarkSent(_) => f.pc.Sending?
    case MarkFailed(_) => f.pc.Failing?
    case Halt => true
  }

  /** Any error between the claim and the end of markSent leads to markFailed, also
      when the statement that threw had run. */
  function Next(f: Forwarder, a: Act): Forwarder
    requires Enabled(f, a)
  {
    match a
    case Claim(entries) => f.(pc := Ready(entries))
    case Publish(reply, met) =>
      var e, q := f.pc.queue[0], f.pc.queue[1..];
      f.(pc := if !reply.Acked? then Failing(e, q) else if met then Looking(e, q) else Sending(e, q))
    case Lookup(reply, found) =>
      f.(pc := if reply.Acked? && found then Sending(f.pc.entry, f.pc.queue) else Failing(f.pc.entry, f.pc.queue))
    case MarkSent(reply) => f.(pc := if reply.Acked? then Ready(f.pc.queue) else Failing(f.pc.entry, f.pc.queue))
    case MarkFailed(reply) => f.(pc := if reply.Acked? then Ready(f.pc.queue) else Idle)
    case Halt => f.(pc := Idle)
  }

  ghost predicate Replays(f: Forwarder, acts: seq<Act>, end: Forwarder)
    decreases |acts|
  {
    if acts == [] then f == end else Enabled(f, acts[0]) && Replays(Next(f, acts[0]), acts[1..], end)
  }

  lemma {:induction false} ReplayMore(f: Forwarder, acts: seq<Act>, mid: Forwarder, a: Act)
    requires Replays(f, acts, mid) && Enabled(mid, a)
    ensures Replays(f, acts + [a], Next(mid, a))
    decreases |acts|
  {
    if acts == [] {
      assert [a][1..] == [];
      assert [] + [a] == [a];
      assert Replays(Next(f, a), [], Next(mid, a));
    } else {
      ReplayMore(Next(f, acts[0]), acts[1..], mid, a);
      assert (acts + [a])[1..] == acts[1..] + [a];
    }
  }

  /** What a tick learns from outside, indexed by the number of the await. */
  datatype World = World(
    stopping: nat -> bool,
    claimed: nat -> Option<seq<Entry>>,
    reply: nat -> Reply,
    met: nat -> bool,
    found: nat -> bool)

  // --------------------------------------------------------------- what a tick gets done

  function Published(acts: seq<Act>): nat {
    if acts == [] then 0 else Published(acts[..|acts| - 1]) + if acts[|acts| - 1].Publish? then 1 else 0
  }

  /** What an act says was answered is what the await with that number returned. */
  predicate HeardAt(world: World, a: Act, c: nat) {
    match a
    case Claim(entries) => world.claimed(c) == Some(entries)
    case Publish(reply, met) => reply == world.reply(c) && met == world.met(c)
    case Lookup(reply, found) => reply == world.reply(c) && found == world.found(c)
    case MarkSent(reply) => reply == world.reply(c)
    case MarkFailed(reply) => reply == world.reply(c)
    case Halt => true
  }

  /** One act per await from `from` on, and nothing is broken off. */
  predicate Going(world: World, acts: seq<Act>, from: nat) {
    forall k :: 0 <= k < |acts| ==> HeardAt(world, acts[k], from + k) && !acts[k].Halt?
  }

  /** A tick that claimed a batch publishes every entry of it, and sees each to its end,
      unless the forwarder is stopping or a markFailed fails. */
  predicate Ticked(acts: seq<Act>, world: World, from: nat, to: nat) {
    if world.claimed(from).None? then acts == []
    else
      && acts != [] && acts[0].Claim? && Going(world, acts[..|acts| - 1], from)
      && HeardAt(world, acts[|acts| - 1], from + |acts| - 1)
      && match acts[|acts| - 1]
         case Halt => Published(acts) == |world.claimed(from).value| || world.stopping(to)
         case MarkFailed(reply) => !reply.Acked?
         case _ => false
  }

  lemma GoingMore(world: World, acts: seq<Act>, a: Act, from: nat)
    requires Going(world, acts, from) && HeardAt(world, a, from + |acts|)
    ensures !a.Halt? ==> Going(world, acts + [a], from)
    ensures Published(acts + [a]) == Published(acts) + (if a.Publish? then 1 else 0)
  {
    hide HeardAt;
    var all := acts + [a];
    assert all[..|acts|] == acts && all[|acts|] == a;
    assert forall k :: 0 <= k < |acts| ==> all[k] == acts[k];
  }

  lemma NothingPublished(world: World, from: nat)
    ensures Going(world, [], from) && Published([]) == 0
  {
  }

  lemma NothingReplayed(f: Forwarder)
    ensures Replays(f, [], f)
  {
  }

  lemma NothingClaimed(world: World, from: nat, to: nat)
    ensures world.claimed(from).None? ==> Ticked([], world, from, to)
  {
  }

  lemma LastIs(world: World, acts: seq<Act>, from: nat, to: nat)
    requires world.claimed(from).Some? && acts != [] && acts[0].Claim? && Going(world, acts, from)
    requires acts[|acts| - 1].MarkFailed? && !acts[|acts| - 1].reply.Acked?
    ensures Ticked(acts, world, from, to)
  {
    hide HeardAt;
    var last := |acts| - 1;
    assert forall k :: 0 <= k < last ==> acts[..last][k] == acts[k];
    assert HeardAt(world, acts[last], from + last);
  }

  /** The last act of a tick. */
  lemma Ends(world: World, acts: seq<Act>, a: Act, from: nat, to: nat)
    requires world.claimed(from).Some? && acts != [] && acts[0].Claim? && Going(world, acts, from)
    requires HeardAt(world, a, from + |acts|)
    requires a.Halt? ==> Published(acts) == |world.claimed(from).value| || world.stopping(to)
    requires !a.Halt? ==> a.MarkFailed? && !a.reply.Acked?
    ensures Ticked(acts + [a], world, from, to)
  {
    hide HeardAt, Going, Published;
    GoingMore(world, acts, a, from);
    var all := acts + [a];
    assert all[..|all| - 1] == acts && all[|all| - 1] == a && all[0] == acts[0];
  }

  class OutboxForwarder {
    var polling: bool
    var stopping: bool
    var inflight: bool
    var clock: nat
    ghost var proc: Forwarder

    constructor (instance: string, source: string)
      ensures proc == Forwarder(instance, source, Idle) && !polling && !stopping && !inflight
    {
      polling, stopping, inflight, clock := false, false, false, 0;
      proc := Forwarder(instance, source, Idle);
    }

    method Start()
      modifies this`polling, this`stopping
      ensures polling && stopping == (old(polling) && old(stopping))
    {
      if !polling {
        stopping := false;
        polling := true;
      }
    }

    method Dispose()
      modifies this`polling, this`stopping
      ensures !polling && stopping
    {
      stopping := true;
      polling := false;
    }

    /** The interval callback: at most one tick in flight, none while stopping. */
    method TimerFires(world: World) returns (acts: seq<Act>)
      requires !inflight ==> proc.pc.Idle?
      modifies this
      ensures Replays(old(proc), acts, proc)
      ensures old(stopping) || old(inflight) ==> acts == [] && proc == old(proc) && clock == old(clock)
      ensures !old(stopping) && !old(inflight) ==> Ticked(acts, world, old(clock), clock)
      ensures inflight == old(inflight) && (!inflight ==> proc.pc.Idle?)
    {
      if stopping || inflight {
        return [];
      }
      inflight := true;
      acts := Tick(world);
      inflight := false;
    }

    method Take(a: Act, acts: seq<Act>, ghost start: Forwarder, ghost world: World, ghost from: nat)
      returns (more: seq<Act>)
      requires Replays(start, acts, proc) && Enabled(proc, a) && Going(world, acts, from)
      requires HeardAt(world, a, from + |acts|)
      modifies this`proc
      ensures more == acts + [a] && proc == Next(old(proc), a) && Replays(start, more, proc)
      ensures !a.Halt? ==> Going(world, more, from)
      ensures Published(more) == Published(acts) + (if a.Publish? then 1 else 0)
    {
      hide Going, HeardAt, Published, Replays;
      GoingMore(world, acts, a, from);
      ReplayMore(start, acts, proc, a);
      proc := Next(proc, a);
      more := acts + [a];
    }

    /** Claims a batch and, entry by entry, publishes and then marks it sent. */
    method Tick(world: World) returns (acts: seq<Act>)
      requires proc.pc.Idle?
      modifies this`proc, this`clock
      ensures proc.pc.Idle? && Replays(old(proc), acts, proc) && Ticked(acts, world, old(clock), clock)
    {
      hide Going, Published, Replays, Ticked;
      ghost var start, from := proc, clock;
      acts := [];
      NothingPublished(world, from);
      NothingReplayed(start);
      NothingClaimed(world, from, clock + 1);
      var claimed := world.claimed(clock);
      clock := clock + 1;
      if claimed.None? {
        return;
      }
      var entries := claimed.value;
      acts := Take(Claim(entries), acts, start, world, from);
      var i := 0;
      while i < |entries|
        invariant 0 <= i <= |entries|
        invariant proc.pc == Ready(entries[i..])
        invariant Replays(start, acts, proc)
        invariant acts != [] && acts[0].Claim? && Going(world, acts, from) && clock == from + |acts|
        invariant Published(acts) == i
      {
        if world.stopping(clock) {
          break;
        }
        var ok;
        acts, ok := Forward(entries[i], entries[i + 1..], world, start, acts, from);
        if !ok {
          LastIs(world, acts, from, clock);
          return;
        }
        i := i + 1;
      }
      Ends(world, acts, Halt, from, clock);
      acts := Take(Halt, acts, start, world, from);
    }

    /** The body of the loop over the batch; `ok` is false when markFailed itself threw. */
    method Forward(entry: Entry, ghost rest: seq<Entry>, world: World, ghost start: Forwarder, before: seq<Act>,
                   ghost from: nat)
      returns (acts: seq<Act>, ok: bool)
      requires proc.pc == Ready([entry] + rest) && Replays(start, before, proc)
      requires Going(world, before, from) && clock == from + |before|
      modifies this`proc, this`clock
      ensures before <= acts && Going(world, acts, from) && clock == from + |acts|
      ensures Published(acts) == Published(before) + 1
      ensures !ok ==> acts[|acts| - 1].MarkFailed? && !acts[|acts| - 1].reply.Acked?
      ensures proc.pc == (if ok then Ready(rest) else Idle)
      ensures Replays(start, acts, proc)
    {
      hide Going, Published, Replays;
      var published;
      acts, published := PublishEntry(entry, rest, world, start, before, from);
      if published {
        var reply := world.reply(clock);
        clock := clock + 1;
        acts := Take(MarkSent(reply), acts, start, world, from);
        if reply.Acked? {
          return acts, true;
        }
      }
      var reply := world.reply(clock);
      clock := clock + 1;
      acts := Take(MarkFailed(reply), acts, start, world, from);
      ok := reply.Acked?;
    }

    /** bus.publish: the insert and, when it met a row of the same origin, the lookup. */
    method PublishEntry(entry: Entry, ghost rest: seq<Entry>, world: World, ghost start: Forwarder, before: seq<Act>,
                        ghost from: nat)
      returns (acts: seq<Act>, published: bool)
      requires proc.pc == Ready([entry] + rest) && Replays(start, before, proc)
      requires Going(world, before, from) && clock == from + |before|
      modifies this`proc, this`clock
      ensures before <= acts && Going(world, acts, from) && clock == from + |acts|
      ensures Published(acts) == Published(before) + 1 && Replays(start, acts, proc)
      ensures proc.pc == if published then Sending(entry, rest) else Failing(entry, rest)
    {
      hide Going, Published, Replays;
      var reply, met := world.reply(clock), world.met(clock);
      clock := clock + 1;
      acts := Take(Publish(reply, met), before, start, world, from);
      published := reply.Acked? && !met;
      if reply.Acked? && met {
        var answer, found := world.reply(clock), world.found(clock);
        clock := clock + 1;
        acts := Take(Lookup(answer, found), acts, start, world, from);
        published := answer.Acked? && found;
      }
    }
  }
}
