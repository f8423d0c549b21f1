/** The unit of work, its transaction and the aggregates it drains, as objects. */
module UnitOfWorkObjects {
  import opened Types
  import opened UnitOfWorkTrace

  class AggregateRoot {
    const key: string
    var domainEvents: seq<AnyEvent>

    constructor (key: string)
      ensures this.key == key && domainEvents == []
    {
      this.key := key;
      domainEvents := [];
    }

    method AddDomainEvent(e: AnyEvent)
      modifies this
      ensures domainEvents == old(domainEvents) + [e]
    {
      domainEvents := domainEvents + [e];
    }

    method DrainDomainEvents() returns (events: seq<AnyEvent>)
      modifies this
      ensures events == old(domainEvents) && domainEvents == []
    {
      events := domainEvents;
      domainEvents := [];
    }
  }

  /** The committed rows of the database. */
  class Server {
    var committed: seq<string>
  }

  datatype TransactionState = NotStarted | Active | Committed | RolledBack

  class PgTransaction {
    const server: Server
    var state: TransactionState
    var pending: seq<string>
    var aborted: bool

    constructor (server: Server)
      ensures this.server == server && state == NotStarted && pending == [] && !aborted
    {
      this.server := server;
      state, pending, aborted := NotStarted, [], false;
    }

    method Start() returns (ok: bool)
      modifies this
      ensures ok <==> old(state) == NotStarted
      ensures state == if ok then Active else old(state)
      ensures pending == old(pending) && aborted == old(aborted)
    {
      ok := state == NotStarted;
      if ok { state := Active; }
    }

    /** Throws when the transaction is not active or the database refuses; one refusal
        makes it refuse everything after. */
    method Query(rows: seq<string>, refused: bool) returns (ok: bool)
      modifies this
      ensures ok <==> old(state) == Active && !old(aborted) && !refused
      ensures state == old(state)
      ensures pending == if ok then old(pending) + rows else old(pending)
      ensures aborted == (old(aborted) || (old(state) == Active && refused))
    {
      if state != Active {
        return false;
      }
      if aborted || refused {
        aborted := true;
        return false;
      }
      pending := pending + rows;
      return true;
    }

    method Commit(fails: bool) returns (ok: bool)
      modifies this, server
      ensures ok <==> old(state) == Active && !fails
      ensures state == if ok then Committed else old(state)
      ensures server.committed == if ok && !old(aborted) then old(server.committed) + old(pending)
              else old(server.committed)
    {
      if state != Active || fails {
        return false;
      }
      state := Committed;
      if !aborted { server.committed := server.committed + pending; }
      return true;
    }

    /** Does nothing unless active. */
    method Rollback()
      modifies this
      ensures state == if old(state) == Active then RolledBack else old(state)
    {
      if state != Active {
        return;
      }
      state, pending := RolledBack, [];
    }

    /** Warns about a transaction that was neither committed nor rolled back. */
    method Release() returns (warns: bool)
      ensures warns <==> state == Active
    {
      return state == Active;
    }
  }

  /** What one outermost call hands its operation. */
  class Context {
    const trx: PgTransaction
    var tracked: seq<(string, Agg)>
    var integrationEvents: seq<AnyEvent>
    ghost var trace: seq<Effect>
    ghost const init: seq<seq<AnyEvent>>

    constructor (trx: PgTransaction, ghost init: seq<seq<AnyEvent>>)
      ensures this.trx == trx && tracked == [] && integrationEvents == [] && trace == [] && this.init == init
    {
      this.trx := trx;
      tracked, integrationEvents := [], [];
      trace := [];
      this.init := init;
    }
  }

  predicate InRange(op: Op, n: nat) {
    match op
    case Raise(agg, _) => agg < n
    case Register(agg) => agg < n
    case Then(first, rest) => InRange(first, n) && InRange(rest, n)
    case Nested(body) => InRange(body, n)
    case Try(body, handler) => InRange(body, n) && InRange(handler, n)
    case _ => true
  }

  function BuffersOf(init: seq<seq<AnyEvent>>): Buffers { (a: Agg) => if a < |init| then init[a] else [] }

  ghost predicate KnownTo(t: seq<Effect>, n: nat) { forall k :: 0 <= k < |t| && t[k].Registered? ==> t[k].agg < n }

  /** Every entry names an instance under its own key, so no instance is listed twice. */
  lemma TrackedInstances(name: Naming, t: seq<Effect>, n: nat) returns (m: seq<(string, Agg)>)
    requires KnownTo(t, n)
    ensures m == Tracked(name, t)
    ensures forall k :: 0 <= k < |m| ==> m[k].1 < n
    ensures forall k :: 0 <= k < |m| ==> m[k].0 == name(m[k].1)
    ensures forall k, l :: 0 <= k < l < |m| ==> m[k].1 != m[l].1
  {
    m := Tracked(name, t);
    TrackedInFirstOrder(name, t);
    OneEntryPerKey(name, t, m);
    forall k | 0 <= k < |m|
      ensures m[k].1 < n && m[k].0 == name(m[k].1)
    {
      assert Current(name, t, m[k]);
    }
  }

  function Instances(m: seq<(string, Agg)>): set<Agg> {
    if m == [] then {} else Instances(m[..|m| - 1]) + {m[|m| - 1].1}
  }

  lemma {:induction false} IsInstance(m: seq<(string, Agg)>, a: Agg)
    ensures a in Instances(m) <==> exists k :: 0 <= k < |m| && m[k].1 == a
  {
    if m != [] {
      IsInstance(m[..|m| - 1], a);
      if k :| 0 <= k < |m| && m[k].1 == a && k < |m| - 1 { assert m[..|m| - 1][k].1 == a; }
    }
  }

  lemma EntryOf(name: Naming, m: seq<(string, Agg)>, a: Agg)
    requires forall k :: 0 <= k < |m| ==> m[k].0 == name(m[k].1)
    ensures a in Instances(m) <==> (name(a), a) in m
  {
    IsInstance(m, a);
    if a in Instances(m) {
      var k :| 0 <= k < |m| && m[k].1 == a;
      assert m[k].0 == name(m[k].1);
      assert m[k] == (name(a), a);
    }
    if (name(a), a) in m {
      var k :| 0 <= k < |m| && m[k] == (name(a), a);
      assert m[k].1 == a;
    }
  }

  lemma ListedInstance(name: Naming, t: seq<Effect>, n: nat, a: Agg)
    requires KnownTo(t, n)
    ensures a in Instances(Tracked(name, t)) <==> (name(a), a) in Tracked(name, t)
  {
    var m := TrackedInstances(name, t, n);
    EntryOf(name, m, a);
  }

  /** An effect other than a registration leaves the tracked instances alone. */
  lemma RaisedAppends(name: Naming, t: seq<Effect>, agg: Agg, e: AnyEvent, n: nat)
    requires KnownTo(t, n)
    ensures var u := t + [Raised(agg, e)];
            && Tracked(name, u) == Tracked(name, t) && Writes(u) == Writes(t) && Publications(u) == Publications(t)
               && KnownTo(u, n)
            && forall a :: RaisedOn(u, a) == RaisedOn(t, a) + if a == agg then [e] else []
  {
    var u := t + [Raised(agg, e)];
    assert u[..|u| - 1] == t;
  }

  class UnitOfWork {
    const server: Server
    const objects: seq<AggregateRoot>
    const serialize: AnyEvent -> string
    const env: Env
    var storage: Option<Context>

    constructor (server: Server, objects: seq<AggregateRoot>, serialize: AnyEvent -> string, env: Env)
      ensures this.server == server && this.objects == objects && this.serialize == serialize && this.env == env
              && storage == None
    {
      this.server, this.objects, this.serialize, this.env := server, objects, serialize, env;
      storage := None;
    }

    function Name(): Naming { (a: Agg) => if a < |objects| then objects[a].key else "" }

    function Objects(): set<AggregateRoot> { set o | o in objects }

    ghost predicate Distinct() { forall a, b :: 0 <= a < b < |objects| ==> objects[a] != objects[b] }

    /** The instances hold what they held plus what the trace raised on them. */
    ghost predicate Holds(init: seq<seq<AnyEvent>>, t: seq<Effect>)
      reads Objects()
    {
      |init| == |objects| && forall a :: 0 <= a < |objects| ==> objects[a].domainEvents == init[a] + RaisedOn(t, a)
    }

    ghost function Held(): (h: seq<seq<AnyEvent>>)
      reads Objects()
      ensures |h| == |objects| && forall a :: 0 <= a < |h| ==> h[a] == objects[a].domainEvents
    {
      seq(|objects|, a requires 0 <= a < |objects| reads Objects() => objects[a].domainEvents)
    }

    /** The instances after a call whose operation ran as r. */
    ghost predicate Kept(init: seq<seq<AnyEvent>>, r: Run)
      reads Objects()
    {
      |init| == |objects| && forall a :: 0 <= a < |objects| ==>
        objects[a].domainEvents == After(env, Name(), BuffersOf(init), r, a)
    }

    ghost predicate Reflects(c: Context)
      reads c, c.trx, Objects()
    {
      && c.trx.server == server && c.trx.state == Active
      && c.tracked == Tracked(Name(), c.trace) && c.integrationEvents == Publications(c.trace)
         && c.trx.pending == Writes(c.trace)
      && Holds(c.init, c.trace) && Distinct() && KnownTo(c.trace, |objects|)
    }

    method Query(c: Context, row: string, refused: bool) returns (ok: bool)
      requires Reflects(c)
      modifies c, c.trx
      ensures Reflects(c) && ok == (!old(c.trx.aborted) && !refused) && c.trx.aborted == !ok
      ensures c.trace == if ok then old(c.trace) + [Wrote(row)] else old(c.trace)
    {
      ok := c.trx.Query([row], refused);
      if ok { c.trace := c.trace + [Wrote(row)]; }
    }

    method RaiseOn(c: Context, agg: Agg, e: AnyEvent)
      requires Reflects(c) && agg < |objects|
      modifies c, Objects()
      ensures Reflects(c) && c.trace == old(c.trace) + [Raised(agg, e)]
    {
      hide Tracked, Writes, Publications, RaisedOn, KnownTo;
      RaisedAppends(Name(), c.trace, agg, e, |objects|);
      assert objects[agg] in Objects();
      objects[agg].AddDomainEvent(e);
      forall a | 0 <= a < |objects|
        ensures objects[a].domainEvents == c.init[a] + RaisedOn(c.trace + [Raised(agg, e)], a)
      {
        if a == agg {
          RegroupEvents(c.init[a], RaisedOn(c.trace, a), [e]);
        } else {
          RegroupEvents(c.init[a], RaisedOn(c.trace, a), []);
        }
      }
      c.trace := c.trace + [Raised(agg, e)];
    }

    method RegisterAggregate(c: Context, agg: Agg)
      requires Reflects(c) && agg < |objects|
      modifies c
      ensures Reflects(c) && c.trace == old(c.trace) + [Registered(agg)]
    {
      c.tracked := SetKey(c.tracked, objects[agg].key, agg);
      c.trace := c.trace + [Registered(agg)];
    }

    method RegisterIntegrationEvent(c: Context, e: AnyEvent)
      requires Reflects(c)
      modifies c
      ensures Reflects(c) && c.trace == old(c.trace) + [Published(e)]
    {
      c.integrationEvents := c.integrationEvents + [e];
      c.trace := c.trace + [Published(e)];
    }

    method Execute(op: Op, c: Context) returns (ok: bool)
      requires InRange(op, |objects|) && Reflects(c) && Distinct() && storage == Some(c)
      modifies c, c.trx, Objects()
      ensures Reflects(c)
      ensures var r := Exec(op, old(c.trx.aborted));
              ok == r.ok && c.trace == old(c.trace) + r.trace && c.trx.aborted == r.aborted
      decreases op, 0
    {
      hide Reflects, Distinct;
      ghost var before := c.trace;
      NoMore(before);
      match op
      case Skip => ok := true;
      case Write(row, refused) => ok := Query(c, row, refused);
      case Raise(agg, e) =>
        ok := true;
        RaiseOn(c, agg, e);
      case Register(agg) =>
        ok := true;
        RegisterAggregate(c, agg);
      case Publish(e) =>
        ok := true;
        RegisterIntegrationEvent(c, e);
      case Throw => ok := false;
      case Then(first, rest) =>
        ok := Execute(first, c);
        if ok {
          ghost var middle := c.trace;
          ok := Execute(rest, c);
          Joined(before, middle, c.trace);
        }
      case Nested(body) => ok := Transaction(body);
      case Try(body, handler) =>
        ok := Execute(body, c);
        if !ok {
          ghost var middle := c.trace;
          ok := Execute(handler, c);
          Joined(before, middle, c.trace);
        }
    }

    /** Events of the tracked instances in order; their buffers are emptied. */
    method Drain(c: Context) returns (events: seq<AnyEvent>)
      requires Holds(c.init, c.trace) && Distinct() && forall k :: 0 <= k < |c.tracked| ==> c.tracked[k].1 < |objects|
      requires forall k, l :: 0 <= k < l < |c.tracked| ==> c.tracked[k].1 != c.tracked[l].1
      modifies Objects()
      ensures events == Drained(BuffersOf(c.init), c.trace, c.tracked)
      ensures forall a :: 0 <= a < |objects| ==>
                objects[a].domainEvents == if a in Instances(c.tracked) then [] else c.init[a] + RaisedOn(c.trace, a)
    {
      hide Drained, RaisedOn, Instances, BuffersOf;
      events := [];
      var k := 0;
      NothingDrained(BuffersOf(c.init), c.trace, c.tracked);
      while k < |c.tracked|
        invariant 0 <= k <= |c.tracked|
        invariant events == Drained(BuffersOf(c.init), c.trace, c.tracked[..k])
        invariant forall a :: 0 <= a < |objects| ==>
                    objects[a].domainEvents == if a in Instances(c.tracked[..k]) then []
                    else c.init[a] + RaisedOn(c.trace, a)
      {
        var agg := c.tracked[k].1;
        NextInstance(c.tracked, k, agg);
        BufferOf(c.init, c.trace, agg);
        DrainedMore(BuffersOf(c.init), c.trace, c.tracked, k);
        var drained := objects[agg].DrainDomainEvents();
        events := events + drained;
        k := k + 1;
      }
      assert c.tracked[..k] == c.tracked;
    }

    /** Drains, and hands all events to the sink in one statement. */
    method Flush(c: Context) returns (ok: bool)
      requires Reflects(c)
      modifies c.trx, Objects()
      ensures var owed := Owed(Name(), BuffersOf(c.init), c.trace);
              && ok == (owed == [] || (!old(c.trx.aborted) && !env.sinkRefused))
              && c.trx.state == Active && c.trx.server == server
              && c.trx.pending == Writes(c.trace) + (if ok then Rows(serialize, owed) else [])
              && (ok ==> c.trx.aborted == old(c.trx.aborted))
      ensures forall a :: 0 <= a < |objects| ==>
                objects[a].domainEvents == if (objects[a].key, a) in Tracked(Name(), c.trace) then []
                else c.init[a] + RaisedOn(c.trace, a)
    {
      hide Tracked, Publications, Writes, RaisedOn, Instances;
      ghost var m := TrackedInstances(Name(), c.trace, |objects|);
      forall a | 0 <= a < |objects|
        ensures a in Instances(c.tracked) <==> (objects[a].key, a) in Tracked(Name(), c.trace)
      {
        ListedInstance(Name(), c.trace, |objects|, a);
      }
      var domainEvents := Drain(c);
      var all := domainEvents + c.integrationEvents;
      ok := true;
      if all != [] {
        ok := c.trx.Query(Rows(serialize, all), env.sinkRefused);
      }
    }

    /** What runs with the context in place: the operation, then the events it owes. */
    method Callback(op: Op, c: Context) returns (ok: bool)
      requires InRange(op, |objects|) && Reflects(c) && Distinct() && storage == Some(c) && c.trace == []
               && !c.trx.aborted
      modifies c, c.trx, Objects()
      ensures c.trx.state == Active && c.trx.server == server
      ensures var r := Exec(op, false);
              var owed := OwedIf(env, Name(), BuffersOf(c.init), r.trace);
              && ok == (r.ok && (owed == [] || (!r.aborted && !env.sinkRefused)))
              && (ok ==> c.trx.aborted == r.aborted && c.trx.pending == Writes(r.trace) + Rows(serialize, owed))
              && Kept(c.init, r)
      decreases op, 1
    {
      hide Exec, Owed, Tracked, Writes, Publications, RaisedOn;
      ok := Execute(op, c);
      ghost var r := Exec(op, false);
      assert c.trace == r.trace;
      if ok && env.configured {
        ok := Flush(c);
      }
    }

    /** The outermost call: begins, runs, and commits or rolls back. */
    method Outermost(op: Op) returns (ok: bool)
      requires InRange(op, |objects|) && Distinct() && storage == None
      modifies this, server, Objects()
      ensures Outcome(ok, server.committed)
              == Transact(Name(), BuffersOf(old(Held())), serialize, env, op, old(server.committed))
      ensures storage == None && Kept(old(Held()), Exec(op, false))
      decreases op, 2
    {
      hide Exec, OwedIf, Tracked, Writes, Publications, RaisedOn, Kept, Reflects, BuffersOf, Rows, After;
      ghost var init := Held();
      var trx := new PgTransaction(server);
      var started := trx.Start();
      var c := new Context(trx, init);
      storage := Some(c);
      FreshReflects(c);
      ok := Callback(op, c);
      storage := None;
      ok := Finish(trx, ok);
    }

    /** COMMIT when the callback returned, ROLLBACK when it or the COMMIT failed. */
    method Finish(trx: PgTransaction, returned: bool) returns (ok: bool)
      requires trx.server == server && trx.state == Active
      modifies trx, server
      ensures ok == (returned && !env.commitFails)
      ensures server.committed == if ok && !old(trx.aborted) then old(server.committed) + old(trx.pending)
              else old(server.committed)
    {
      ok := returned;
      if ok { ok := trx.Commit(env.commitFails); }
      if !ok { trx.Rollback(); }
      var _ := trx.Release();
    }

    lemma FreshReflects(c: Context)
      requires c.trx.server == server && c.trx.state == Active && c.trx.pending == [] && Distinct()
      requires c.tracked == [] && c.integrationEvents == [] && c.trace == [] && c.init == Held()
      ensures Reflects(c)
    {
    }

    /** An inner call joins the one it runs in; without one it is the outermost. */
    method Transaction(op: Op) returns (ok: bool)
      requires InRange(op, |objects|) && Distinct()
      requires storage.Some? ==> Reflects(storage.value)
      modifies if storage.Some? then {storage.value, storage.value.trx} else {this, server}
      modifies Objects()
      ensures old(storage).Some? ==>
                var c, r := old(storage).value, Exec(op, old(storage.value.trx.aborted));
                && Reflects(c) && c.trace == old(storage.value.trace) + r.trace && c.trx.aborted == r.aborted
                   && ok == r.ok
      ensures old(storage).None? ==>
                && Outcome(ok, server.committed)
                   == Transact(Name(), BuffersOf(old(Held())), serialize, env, op, old(server.committed))
                && storage == None && Kept(old(Held()), Exec(op, false))
      decreases op, 3
    {
      if storage.Some? {
        ok := Execute(op, storage.value);
      } else {
        ok := Outermost(op);
      }
    }
  }

  lemma {:induction false} DrainedMore(init: Buffers, t: seq<Effect>, m: seq<(string, Agg)>, k: nat)
    requires k < |m|
    ensures Drained(init, t, m[..k + 1]) == Drained(init, t, m[..k]) + Buffered(init, t, m[k].1)
  {
    var a, b := m[..k], m[..k + 1];
    if k == 0 {
      assert b[1..] == [];
    } else {
      assert b[1..] == m[1..][..k] && a[1..] == m[1..][..k - 1];
      DrainedMore(init, t, m[1..], k - 1);
      assert m[1..][k - 1] == m[k];
      assert Buffered(init, t, m[0].1) + (Drained(init, t, a[1..]) + Buffered(init, t, m[k].1))
          == Buffered(init, t, m[0].1) + Drained(init, t, a[1..]) + Buffered(init, t, m[k].1);
    }
  }

  lemma NothingDrained(init: Buffers, t: seq<Effect>, m: seq<(string, Agg)>)
    ensures Drained(init, t, m[..0]) == [] && Instances(m[..0]) == {}
  {
  }

  lemma NextInstance(m: seq<(string, Agg)>, k: nat, agg: Agg)
    requires k < |m| && m[k].1 == agg && forall l :: 0 <= l < k ==> m[l].1 != agg
    ensures agg !in Instances(m[..k]) && Instances(m[..k + 1]) == Instances(m[..k]) + {agg}
  {
    IsInstance(m[..k], agg);
    assert m[..k + 1][..k] == m[..k];
  }

  lemma BufferOf(init: seq<seq<AnyEvent>>, t: seq<Effect>, a: Agg)
    requires a < |init|
    ensures Buffered(BuffersOf(init), t, a) == init[a] + RaisedOn(t, a)
  {
  }

  lemma RegroupEvents(a: seq<AnyEvent>, b: seq<AnyEvent>, c: seq<AnyEvent>)
    ensures a + (b + c) == a + b + c && b + [] == b
  {
  }

  lemma NoMore(t: seq<Effect>)
    ensures t + [] == t
  {
  }

  lemma Joined(a: seq<Effect>, b: seq<Effect>, c: seq<Effect>)
    requires a <= b && b <= c
    ensures c == a + (b[|a|..] + c[|b|..])
  {
  }
}
