/** What a unit of work commits: an operation's trace, the events it owes the outbox,
    and the outcome of the transaction around it. */
module UnitOfWorkTrace {
  type AnyEvent = string

  /** An aggregate instance; two instances can stand for one entity. */
  type Agg = nat

  /** An operation as the unit of work sees it. `refused` marks a statement the
      database rejects; Nested is another transaction() call inside this one. */
  datatype Op =
    | Skip
    | Write(row: string, refused: bool)
    | Raise(agg: Agg, e: AnyEvent)
    | Register(agg: Agg)
    | Publish(e: AnyEvent)
    | Throw
    | Then(first: Op, rest: Op)
    | Nested(body: Op)
    | Try(body: Op, handler: Op)

  datatype Effect = Wrote(row: string) | Raised(agg: Agg, e: AnyEvent) | Registered(agg: Agg) | Published(e: AnyEvent)

  /** How far an operation got: what took effect, whether it returned, and whether a
      statement failed, after which Postgres refuses every other one. */
  datatype Run = Run(trace: seq<Effect>, ok: bool, aborted: bool)

  function Exec(op: Op, aborted: bool): Run {
    match op
    case Skip => Run([], true, aborted)
    case Write(row, refused) => if aborted || refused then Run([], false, true) else Run([Wrote(row)], true, false)
    case Raise(agg, e) => Run([Raised(agg, e)], true, aborted)
    case Register(agg) => Run([Registered(agg)], true, aborted)
    case Publish(e) => Run([Published(e)], true, aborted)
    case Throw => Run([], false, aborted)
    case Then(first, rest) =>
      var a := Exec(first, aborted);
      if !a.ok then a
      else
        var b := Exec(rest, a.aborted);
        Run(a.trace + b.trace, b.ok, b.aborted)
    case Nested(body) => Exec(body, aborted)
    case Try(body, handler) =>
      var a := Exec(body, aborted);
      if a.ok then a
      else
        var b := Exec(handler, a.aborted);
        Run(a.trace + b.trace, b.ok, b.aborted)
  }

  // ------------------------------------------------------------------ what it leaves

  function Writes(t: seq<Effect>): seq<string> {
    if t == [] then [] else Writes(t[..|t| - 1]) + match t[|t| - 1] case Wrote(row) => [row] case _ => []
  }

  function Publications(t: seq<Effect>): seq<AnyEvent> {
    if t == [] then [] else Publications(t[..|t| - 1]) + match t[|t| - 1] case Published(e) => [e] case _ => []
  }

  function RaisedOn(t: seq<Effect>, agg: Agg): seq<AnyEvent> {
    if t == [] then []
    else RaisedOn(t[..|t| - 1], agg) + match t[|t| - 1] case Raised(a, e) => if a == agg then [e] else [] case _ => []
  }

  /** Class name and id: what registerAggregate tracks an instance under. */
  type Naming = Agg -> string

  /** A JavaScript Map: setting a known key replaces its value in place. */
  function SetKey(m: seq<(string, Agg)>, key: string, agg: Agg): seq<(string, Agg)> {
    if m == [] then [(key, agg)]
    else if m[0].0 == key then [(key, agg)] + m[1..]
    else [m[0]] + SetKey(m[1..], key, agg)
  }

  function Tracked(name: Naming, t: seq<Effect>): seq<(string, Agg)> {
    if t == [] then []
    else
      var so := Tracked(name, t[..|t| - 1]);
      match t[|t| - 1] case Registered(agg) => SetKey(so, name(agg), agg) case _ => so
  }

  /** Events waiting in each instance before and after the operation. */
  type Buffers = Agg -> seq<AnyEvent>

  function Buffered(init: Buffers, t: seq<Effect>, agg: Agg): seq<AnyEvent> { init(agg) + RaisedOn(t, agg) }

  function Drained(init: Buffers, t: seq<Effect>, tracked: seq<(string, Agg)>): seq<AnyEvent> {
    if tracked == [] then [] else Buffered(init, t, tracked[0].1) + Drained(init, t, tracked[1..])
  }

  /** Domain events of the tracked instances, then integration events. */
  function Owed(name: Naming, init: Buffers, t: seq<Effect>): seq<AnyEvent> {
    Drained(init, t, Tracked(name, t)) + Publications(t)
  }

  // -------------------------------------------------------------- the registration order

  ghost predicate RegisteredAt(name: Naming, t: seq<Effect>, i: int, key: string) {
    0 <= i < |t| && t[i].Registered? && name(t[i].agg) == key
  }

  ghost predicate FirstAt(name: Naming, t: seq<Effect>, i: int, key: string) {
    RegisteredAt(name, t, i, key) && forall j :: j < i ==> !RegisteredAt(name, t, j, key)
  }

  ghost predicate LastAt(name: Naming, t: seq<Effect>, i: int, key: string) {
    RegisteredAt(name, t, i, key) && forall j :: i < j ==> !RegisteredAt(name, t, j, key)
  }

  /** The entry stands for the instance registered last under its key. */
  ghost predicate Current(name: Naming, t: seq<Effect>, entry: (string, Agg)) {
    exists i :: LastAt(name, t, i, entry.0) && t[i].agg == entry.1
  }

  ghost predicate Listed(m: seq<(string, Agg)>, key: string) { exists k :: 0 <= k < |m| && m[k].0 == key }

  /** Every registered key once, in the order of first registration, each with the
      instance registered last. */
  ghost predicate InFirstOrder(name: Naming, t: seq<Effect>, m: seq<(string, Agg)>) {
    && (forall k :: 0 <= k < |m| ==> Current(name, t, m[k]))
    && (forall i, key :: RegisteredAt(name, t, i, key) ==> Listed(m, key))
    && (forall k, l, i, j :: 0 <= k < l < |m| && FirstAt(name, t, i, m[k].0) && FirstAt(name, t, j, m[l].0) ==> i < j)
  }

  lemma {:induction false} SetKeyShape(m: seq<(string, Agg)>, key: string, agg: Agg)
    ensures !Listed(m, key) ==> SetKey(m, key, agg) == m + [(key, agg)]
    ensures Listed(m, key) ==> exists k :: 0 <= k < |m| && m[k].0 == key && SetKey(m, key, agg) == m[k := (key, agg)]
  {
    if m != [] {
      if m[0].0 == key {
        assert SetKey(m, key, agg) == m[0 := (key, agg)];
      } else {
        SetKeyShape(m[1..], key, agg);
        if k :| 0 <= k < |m| && m[k].0 == key { assert m[1..][k - 1].0 == key; }
        if Listed(m[1..], key) {
          var k :| 0 <= k < |m[1..]| && m[1..][k].0 == key && SetKey(m[1..], key, agg) == m[1..][k := (key, agg)];
          assert m[k + 1].0 == key && SetKey(m, key, agg) == m[k + 1 := (key, agg)];
        }
      }
    }
  }

  /** What one more effect means for positions. */
  lemma RegisteredMore(name: Naming, t: seq<Effect>, x: Effect, i: int, key: string)
    ensures RegisteredAt(name, t + [x], i, key)
            <==> RegisteredAt(name, t, i, key) || (i == |t| && x.Registered? && name(x.agg) == key)
  {
  }

  lemma FirstMore(name: Naming, t: seq<Effect>, x: Effect, i: int, key: string)
    requires FirstAt(name, t + [x], i, key)
    ensures FirstAt(name, t, i, key) || (i == |t| && forall j :: !RegisteredAt(name, t, j, key))
  {
    forall j ensures RegisteredAt(name, t, j, key) ==> RegisteredAt(name, t + [x], j, key) {
      RegisteredMore(name, t, x, j, key);
    }
    RegisteredMore(name, t, x, i, key);
  }

  lemma CurrentKept(name: Naming, t: seq<Effect>, x: Effect, entry: (string, Agg))
    requires Current(name, t, entry) && !(x.Registered? && name(x.agg) == entry.0)
    ensures Current(name, t + [x], entry)
  {
    var i :| LastAt(name, t, i, entry.0) && t[i].agg == entry.1;
    forall j ensures RegisteredAt(name, t + [x], j, entry.0) <==> RegisteredAt(name, t, j, entry.0) {
      RegisteredMore(name, t, x, j, entry.0);
    }
    assert LastAt(name, t + [x], i, entry.0);
  }

  lemma CurrentNow(name: Naming, t: seq<Effect>, agg: Agg)
    ensures Current(name, t + [Registered(agg)], (name(agg), agg))
  {
    assert LastAt(name, t + [Registered(agg)], |t|, name(agg));
  }

  /** Order of first registrations, after one more effect, for a list of the same keys
      or with the new key at the end. */
  lemma OrderKept(name: Naming, t: seq<Effect>, x: Effect, m: seq<(string, Agg)>, n: seq<(string, Agg)>)
    requires InFirstOrder(name, t, m) && |m| <= |n| <= |m| + 1 && forall k :: 0 <= k < |m| ==> n[k].0 == m[k].0
    requires |n| == |m| + 1 ==> !Listed(m, n[|m|].0)
    ensures forall k, l, i, j ::
              0 <= k < l < |n| && FirstAt(name, t + [x], i, n[k].0) && FirstAt(name, t + [x], j, n[l].0) ==> i < j
  {
    forall k, l, i, j | 0 <= k < l < |n| && FirstAt(name, t + [x], i, n[k].0) && FirstAt(name, t + [x], j, n[l].0)
      ensures i < j
    {
      FirstMore(name, t, x, i, n[k].0);
      FirstMore(name, t, x, j, n[l].0);
      assert Current(name, t, m[k]);
      if l < |m| { assert Current(name, t, m[l]); }
    }
  }

  lemma {:induction false} TrackedInFirstOrder(name: Naming, t: seq<Effect>)
    ensures InFirstOrder(name, t, Tracked(name, t))
  {
    if t != [] {
      var init, x := t[..|t| - 1], t[|t| - 1];
      assert t == init + [x];
      TrackedInFirstOrder(name, init);
      if x.Registered? {
        RegisteredNext(name, init, x.agg, Tracked(name, init));
      } else {
        OtherNext(name, init, x, Tracked(name, init));
      }
    }
  }

  lemma OtherNext(name: Naming, t: seq<Effect>, x: Effect, m: seq<(string, Agg)>)
    requires InFirstOrder(name, t, m) && !x.Registered?
    ensures InFirstOrder(name, t + [x], m)
  {
    forall k | 0 <= k < |m| ensures Current(name, t + [x], m[k]) { CurrentKept(name, t, x, m[k]); }
    forall i, key | RegisteredAt(name, t + [x], i, key) ensures Listed(m, key) { RegisteredMore(name, t, x, i, key); }
    OrderKept(name, t, x, m, m);
  }

  lemma RegisteredNext(name: Naming, t: seq<Effect>, agg: Agg, m: seq<(string, Agg)>)
    requires InFirstOrder(name, t, m)
    ensures InFirstOrder(name, t + [Registered(agg)], SetKey(m, name(agg), agg))
  {
    var x, key := Registered(agg), name(agg);
    var n := SetKey(m, key, agg);
    SetKeyShape(m, key, agg);
    OneEntryPerKey(name, t, m);
    CurrentNow(name, t, agg);
    forall k | 0 <= k < |n|
      ensures Current(name, t + [x], n[k])
    {
      if n[k] != (key, agg) { CurrentKept(name, t, x, m[k]); }
    }
    forall i, other | RegisteredAt(name, t + [x], i, other)
      ensures Listed(n, other)
    {
      RegisteredMore(name, t, x, i, other);
      if other == key {
        ListedAfter(m, key, agg, key);
      } else {
        ListedAfter(m, key, agg, other);
      }
    }
    OrderKept(name, t, x, m, n);
  }

  lemma ListedAfter(m: seq<(string, Agg)>, key: string, agg: Agg, other: string)
    ensures Listed(SetKey(m, key, agg), other) <==> other == key || Listed(m, other)
  {
    SetKeyShape(m, key, agg);
    var n := SetKey(m, key, agg);
    if Listed(m, key) {
      var k :| 0 <= k < |m| && m[k].0 == key && n == m[k := (key, agg)];
      assert n[k].0 == key;
      assert forall l :: 0 <= l < |m| ==> n[l].0 == m[l].0;
    } else {
      assert n[|m|].0 == key;
      assert forall l :: 0 <= l < |m| ==> n[l].0 == m[l].0;
    }
  }

  lemma OneEntryPerKey(name: Naming, t: seq<Effect>, m: seq<(string, Agg)>)
    requires InFirstOrder(name, t, m)
    ensures forall k, l :: 0 <= k < l < |m| ==> m[k].0 != m[l].0
  {
    forall k, l | 0 <= k < l < |m|
      ensures m[k].0 != m[l].0
    {
      assert Current(name, t, m[k]);
      var i :| LastAt(name, t, i, m[k].0);
      var f := FirstOf(name, t, i, m[k].0);
      var other := m[l].0;
      assert m[k].0 == other ==> FirstAt(name, t, f, other);
    }
  }

  lemma {:induction false} FirstOf(name: Naming, t: seq<Effect>, i: int, key: string) returns (f: int)
    requires RegisteredAt(name, t, i, key)
    ensures FirstAt(name, t, f, key)
    decreases i
  {
    if j :| j < i && RegisteredAt(name, t, j, key) {
      f := FirstOf(name, t, j, key);
    } else {
      f := i;
    }
  }

  /** An instance's events go to the outbox exactly when no other registration under the
      same key came after its own. */
  lemma DrainedIff(name: Naming, t: seq<Effect>, agg: Agg)
    ensures (name(agg), agg) in Tracked(name, t) <==> exists i :: LastAt(name, t, i, name(agg)) && t[i].agg == agg
  {
    TrackedInFirstOrder(name, t);
    var m, key := Tracked(name, t), name(agg);
    if (key, agg) in m {
      assert Current(name, t, (key, agg));
    }
    if i :| LastAt(name, t, i, key) && t[i].agg == agg {
      assert Listed(m, key);
      var k :| 0 <= k < |m| && m[k].0 == key;
      assert Current(name, t, m[k]);
      var j :| LastAt(name, t, j, key) && t[j].agg == m[k].1;
      assert i == j && m[k] == (key, agg);
    }
  }

  // ------------------------------------------------------------------ the transaction

  /** What the environment does: events wired or not, the sink's statement rejected or
      not, the COMMIT failing or not. */
  datatype Env = Env(configured: bool, sinkRefused: bool, commitFails: bool)

  datatype Outcome = Outcome(ok: bool, committed: seq<string>)

  function Rows(serialize: AnyEvent -> string, es: seq<AnyEvent>): (r: seq<string>)
    ensures |r| == |es| && forall k :: 0 <= k < |es| ==> r[k] == serialize(es[k])
  {
    seq(|es|, k requires 0 <= k < |es| => serialize(es[k]))
  }

  function OwedIf(env: Env, name: Naming, init: Buffers, t: seq<Effect>): seq<AnyEvent> {
    if env.configured then Owed(name, init, t) else []
  }

  /** The whole transaction. COMMIT after a failed statement rolls back and reports no
      error. */
  function Transact(name: Naming, init: Buffers, serialize: AnyEvent -> string, env: Env, op: Op,
                    committed: seq<string>): Outcome {
    var r := Exec(op, false);
    var owed := OwedIf(env, name, init, r.trace);
    if !r.ok then Outcome(false, committed)
    else if owed != [] && (r.aborted || env.sinkRefused) then Outcome(false, committed)
    else if env.commitFails then Outcome(false, committed)
    else if r.aborted then Outcome(true, committed)
    else Outcome(true, committed + (Writes(r.trace) + Rows(serialize, owed)))
  }

  /** No statement in it is refused. */
  predicate Quiet(op: Op) {
    match op
    case Write(_, refused) => !refused
    case Then(first, rest) => Quiet(first) && Quiet(rest)
    case Nested(body) => Quiet(body)
    case Try(body, handler) => Quiet(body) && Quiet(handler)
    case _ => true
  }

  /** No statement failure is caught inside the operation; errors of its own may be. */
  predicate Propagates(op: Op) {
    match op
    case Then(first, rest) => Propagates(first) && Propagates(rest)
    case Nested(body) => Propagates(body)
    case Try(body, handler) => Quiet(body) && Propagates(handler)
    case _ => true
  }

  lemma {:induction false} QuietStaysClean(op: Op)
    requires Quiet(op)
    ensures !Exec(op, false).aborted
  {
    match op
    case Then(first, rest) =>
      QuietStaysClean(first);
      QuietStaysClean(rest);
    case Nested(body) => QuietStaysClean(body);
    case Try(body, handler) =>
      QuietStaysClean(body);
      QuietStaysClean(handler);
    case _ =>
  }

  /** Returned although a statement failed: the operation caught the failure. */
  predicate Swallowed(op: Op) { Exec(op, false).ok && Exec(op, false).aborted }

  lemma {:induction false} PropagatedIsNotSwallowed(op: Op)
    requires Propagates(op)
    ensures !Swallowed(op)
  {
    match op
    case Then(first, rest) =>
      PropagatedIsNotSwallowed(first);
      if Exec(first, false).ok { PropagatedIsNotSwallowed(rest); }
    case Nested(body) => PropagatedIsNotSwallowed(body);
    case Try(body, handler) =>
      QuietStaysClean(body);
      PropagatedIsNotSwallowed(handler);
    case _ =>
  }

  /** All or nothing, for an operation that swallows no statement failure: on success
      exactly its writes and one row per event owed, in order; on failure nothing. */
  lemma Atomic(name: Naming, init: Buffers, serialize: AnyEvent -> string, env: Env, op: Op, committed: seq<string>)
    requires !Swallowed(op)
    ensures var r, out := Exec(op, false), Transact(name, init, serialize, env, op, committed);
            out.committed == if out.ok then
              committed + (Writes(r.trace) + Rows(serialize, OwedIf(env, name, init, r.trace))) else committed
  {
  }

  /** The same, for every operation that lets statement failures propagate. */
  lemma AtomicWhenPropagated(name: Naming, init: Buffers, serialize: AnyEvent -> string, env: Env, op: Op,
                             committed: seq<string>)
    requires Propagates(op)
    ensures var r, out := Exec(op, false), Transact(name, init, serialize, env, op, committed);
            out.committed == if out.ok then
              committed + (Writes(r.trace) + Rows(serialize, OwedIf(env, name, init, r.trace))) else committed
  {
    PropagatedIsNotSwallowed(op);
    Atomic(name, init, serialize, env, op, committed);
  }

  /** For any operation: a success that stores less than was written happens exactly when
      a statement failed, the operation caught it and owes no event. */
  lemma SilentLossIff(name: Naming, init: Buffers, serialize: AnyEvent -> string, env: Env, op: Op,
                      committed: seq<string>)
    ensures var r, out := Exec(op, false), Transact(name, init, serialize, env, op, committed);
            var owed := OwedIf(env, name, init, r.trace);
            out.ok && out.committed != committed + (Writes(r.trace) + Rows(serialize, owed))
            <==> r.ok && r.aborted && owed == [] && Writes(r.trace) != [] && !env.commitFails
  {
    var r := Exec(op, false);
    var owed := OwedIf(env, name, init, r.trace);
    assert Rows(serialize, []) == [];
    if owed == [] && Writes(r.trace) == [] {
      assert committed + (Writes(r.trace) + Rows(serialize, owed)) == committed;
    } else {
      assert |committed + (Writes(r.trace) + Rows(serialize, owed))| > |committed|;
    }
  }

  /** One write kept, one refused and caught, no events: success, and nothing stored. */
  lemma SilentLossHappens(name: Naming, init: Buffers, serialize: AnyEvent -> string) returns (op: Op)
    ensures Swallowed(op) && Writes(Exec(op, false).trace) == ["order"]
    ensures Transact(name, init, serialize, Env(false, false, false), op, []) == Outcome(true, [])
  {
    op := Then(Write("order", false), Try(Write("audit", true), Skip));
    var t := Exec(op, false).trace;
    assert t == [Wrote("order")];
    assert t[..0] == [] && Writes(t) == Writes(t[..0]) + ["order"];
  }

  /** What an instance still holds after the transaction, whatever became of it: draining
      empties the tracked ones once the operation has returned. */
  function After(env: Env, name: Naming, init: Buffers, r: Run, a: Agg): seq<AnyEvent> {
    if r.ok && env.configured && (name(a), a) in Tracked(name, r.trace) then [] else Buffered(init, r.trace, a)
  }

  /** A retry that registers the same instance owes its events again exactly when the
      first call failed before it drained: after a failed sink or COMMIT they are gone. */
  lemma RetryOwesIff(env: Env, name: Naming, init: Buffers, op: Op, a: Agg, left: Buffers)
    requires Buffered(init, Exec(op, false).trace, a) != [] && left(a) == After(env, name, init, Exec(op, false), a)
    ensures var r := Exec(op, false);
            Owed(name, left, [Registered(a)]) == Buffered(init, r.trace, a)
            <==> !(r.ok && env.configured && (name(a), a) in Tracked(name, r.trace))
  {
    hide Exec;
    var r := Exec(op, false);
    var t := [Registered(a)];
    assert t[..0] == [];
    assert Tracked(name, t) == [(name(a), a)];
    assert Tracked(name, t)[1..] == [];
    assert RaisedOn(t, a) == RaisedOn(t[..0], a) + [];
    assert Publications(t) == Publications(t[..0]) + [];
    assert Drained(left, t, [(name(a), a)]) == (left(a) + []) + Drained(left, t, []);
  }

  // ---------------------------------------------------------------------- joined calls

  /** The operation with its inner transaction() calls replaced by their bodies. */
  function Flat(op: Op): Op {
    match op
    case Then(first, rest) => Then(Flat(first), Flat(rest))
    case Nested(body) => Flat(body)
    case Try(body, handler) => Try(Flat(body), Flat(handler))
    case _ => op
  }

  lemma {:induction false} FlatExec(op: Op, aborted: bool)
    ensures Exec(Flat(op), aborted) == Exec(op, aborted)
  {
    match op
    case Then(first, rest) =>
      FlatExec(first, aborted);
      FlatExec(rest, Exec(first, aborted).aborted);
    case Nested(body) => FlatExec(body, aborted);
    case Try(body, handler) =>
      FlatExec(body, aborted);
      FlatExec(handler, Exec(body, aborted).aborted);
    case _ =>
  }

  /** Inner calls join: however deep they nest, the outcome is that of one transaction. */
  lemma NestingIsInvisible(name: Naming, init: Buffers, serialize: AnyEvent -> string, env: Env, op: Op,
                           committed: seq<string>)
    ensures Transact(name, init, serialize, env, op, committed)
            == Transact(name, init, serialize, env, Flat(op), committed)
  {
    FlatExec(op, false);
  }

  // ------------------------------------------------------- what is committed, by position

  /** `ps` are the positions of the effects of a sort, all of them, in order. */
  ghost predicate Positions(t: seq<Effect>, sort: Effect -> bool, ps: seq<nat>) {
    && (forall k, l :: 0 <= k < l < |ps| ==> ps[k] < ps[l])
    && (forall k :: 0 <= k < |ps| ==> ps[k] < |t| && sort(t[ps[k]]))
    && forall i :: 0 <= i < |t| && sort(t[i]) ==> i in ps
  }

  ghost function IsWrite(): Effect -> bool { (x: Effect) => x.Wrote? }

  ghost function IsPublication(): Effect -> bool { (x: Effect) => x.Published? }

  ghost function IsRaiseOn(agg: Agg): Effect -> bool { (x: Effect) => x.Raised? && x.agg == agg }

  function TextIn(x: Effect): string {
    match x case Wrote(row) => row case Raised(_, e) => e case Published(e) => e case Registered(_) => ""
  }

  /** The rows or events that stand at some positions. */
  function TextsAt(t: seq<Effect>, ps: seq<nat>): (r: seq<string>)
    ensures |r| == |ps| && forall k :: 0 <= k < |ps| && ps[k] < |t| ==> r[k] == TextIn(t[ps[k]])
  {
    seq(|ps|, k requires 0 <= k < |ps| => if ps[k] < |t| then TextIn(t[ps[k]]) else "")
  }

  function InstanceAt(t: seq<Effect>, i: nat): Agg { if i < |t| && t[i].Registered? then t[i].agg else 0 }

  lemma PositionsMore(t: seq<Effect>, x: Effect, sort: Effect -> bool, ps: seq<nat>) returns (more: seq<nat>)
    requires Positions(t, sort, ps)
    ensures Positions(t + [x], sort, more)
    ensures TextsAt(t + [x], more) == TextsAt(t, ps) + if sort(x) then [TextIn(x)] else []
  {
    more := if sort(x) then ps + [|t|] else ps;
    forall i | 0 <= i < |t + [x]| && sort((t + [x])[i])
      ensures i in more
    {
      if i == |t| { assert more[|more| - 1] == i; } else { assert t[i] == (t + [x])[i]; }
    }
  }

  /** What Writes, Publications and RaisedOn collect stands at those positions. */
  lemma {:induction false} CollectedAt(t: seq<Effect>, agg: Agg)
    returns (writes: seq<nat>, raised: seq<nat>, published: seq<nat>)
    ensures Positions(t, IsWrite(), writes) && TextsAt(t, writes) == Writes(t)
    ensures Positions(t, IsRaiseOn(agg), raised) && TextsAt(t, raised) == RaisedOn(t, agg)
    ensures Positions(t, IsPublication(), published) && TextsAt(t, published) == Publications(t)
  {
    writes, raised, published := [], [], [];
    if t != [] {
      var n := |t| - 1;
      var init, x := t[..n], t[n];
      writes, raised, published := CollectedAt(init, agg);
      assert t == init + [x];
      writes := PositionsMore(init, x, IsWrite(), writes);
      raised := PositionsMore(init, x, IsRaiseOn(agg), raised);
      published := PositionsMore(init, x, IsPublication(), published);
    }
  }

  /** One position for each registered key, that of its first registration, in order. */
  ghost predicate FirstRegistrations(name: Naming, t: seq<Effect>, firsts: seq<nat>) {
    && (forall k, l :: 0 <= k < l < |firsts| ==> firsts[k] < firsts[l])
    && (forall k :: 0 <= k < |firsts| ==> firsts[k] < |t| && t[firsts[k]].Registered?
                                          && FirstAt(name, t, firsts[k], name(t[firsts[k]].agg)))
    && forall i, key :: FirstAt(name, t, i, key) ==> i in firsts
  }

  ghost predicate FirstFor(name: Naming, t: seq<Effect>, i: nat, key: string) {
    FirstAt(name, t, i, key) && i < |t| && t[i].Registered? && name(t[i].agg) == key
  }

  /** The instance registered last under the k-th key, and where its events were raised. */
  ghost predicate DrainedAt(name: Naming, t: seq<Effect>, first: nat, last: nat, raised: seq<nat>) {
    && first < |t| && t[first].Registered? && LastAt(name, t, last, name(t[first].agg))
    && Positions(t, IsRaiseOn(InstanceAt(t, last)), raised)
  }

  /** For each key what its instance held before, then what was raised on it. */
  function DomainEvents(init: Buffers, t: seq<Effect>, lasts: seq<nat>, raised: seq<seq<nat>>): seq<AnyEvent>
    requires |raised| == |lasts|
  {
    if lasts == [] then []
    else init(InstanceAt(t, lasts[0])) + TextsAt(t, raised[0]) + DomainEvents(init, t, lasts[1..], raised[1..])
  }

  lemma {:induction false} DrainedIsDomainEvents(name: Naming, init: Buffers, t: seq<Effect>, m: seq<(string, Agg)>)
    returns (firsts: seq<nat>, lasts: seq<nat>, raised: seq<seq<nat>>)
    requires forall k :: 0 <= k < |m| ==> Current(name, t, m[k])
    ensures |firsts| == |lasts| == |raised| == |m|
    ensures forall k :: 0 <= k < |m| ==> DrainedAt(name, t, firsts[k], lasts[k], raised[k])
    ensures forall k :: 0 <= k < |m| ==> FirstFor(name, t, firsts[k], m[k].0)
    ensures DomainEvents(init, t, lasts, raised) == Drained(init, t, m)
  {
    hide Positions, TextsAt, RaisedOn, FirstAt, LastAt, RegisteredAt;
    firsts, lasts, raised := [], [], [];
    if m != [] {
      assert Current(name, t, m[0]);
      var first, last, on := OneDrained(name, t, m[0]);
      assert forall k :: 0 <= k < |m[1..]| ==> m[1..][k] == m[k + 1];
      var fs, ls, rs := DrainedIsDomainEvents(name, init, t, m[1..]);
      firsts, lasts, raised := [first] + fs, [last] + ls, [on] + rs;
      assert lasts[1..] == ls && raised[1..] == rs;
    }
  }

  lemma OneDrained(name: Naming, t: seq<Effect>, entry: (string, Agg)) returns (first: nat, last: nat, raised: seq<nat>)
    requires Current(name, t, entry)
    ensures DrainedAt(name, t, first, last, raised) && InstanceAt(t, last) == entry.1
    ensures FirstFor(name, t, first, entry.0)
    ensures TextsAt(t, raised) == RaisedOn(t, entry.1)
  {
    var l :| LastAt(name, t, l, entry.0) && t[l].agg == entry.1;
    last := l;
    first := FirstOf(name, t, l, entry.0);
    var w, on, p := CollectedAt(t, entry.1);
    raised := on;
  }

  lemma FirstsAreAll(name: Naming, t: seq<Effect>, m: seq<(string, Agg)>, firsts: seq<nat>)
    requires InFirstOrder(name, t, m) && |firsts| == |m|
    requires forall k :: 0 <= k < |m| ==> FirstFor(name, t, firsts[k], m[k].0)
    ensures FirstRegistrations(name, t, firsts)
  {
    forall i, key | FirstAt(name, t, i, key)
      ensures i in firsts
    {
      assert RegisteredAt(name, t, i, key);
      var k :| 0 <= k < |m| && m[k].0 == key;
      assert firsts[k] == i;
    }
  }

  /** A successful transaction with events configured, read off the trace alone: the
      committed rows are the writes in order, then for each registered key, in the order
      of first registration, the held and raised events of the instance registered last,
      then every integration event in the order of publication. */
  lemma CommittedByPosition(name: Naming, init: Buffers, serialize: AnyEvent -> string, env: Env, op: Op,
                            committed: seq<string>)
    returns (writes: seq<nat>, firsts: seq<nat>, lasts: seq<nat>, raised: seq<seq<nat>>, published: seq<nat>)
    requires !Swallowed(op) && Transact(name, init, serialize, env, op, committed).ok
    ensures var t := Exec(op, false).trace;
            && Positions(t, IsWrite(), writes) && Positions(t, IsPublication(), published)
            && FirstRegistrations(name, t, firsts) && |lasts| == |raised| == |firsts|
            && (forall k :: 0 <= k < |firsts| ==> DrainedAt(name, t, firsts[k], lasts[k], raised[k]))
            && Transact(name, init, serialize, env, op, committed).committed
               == committed + (TextsAt(t, writes)
                               + if !env.configured then []
                                 else Rows(serialize, DomainEvents(init, t, lasts, raised) + TextsAt(t, published)))
  {
    hide Exec, Tracked, Drained, Publications, Writes, DomainEvents, Swallowed, InFirstOrder, FirstRegistrations;
    var t := Exec(op, false).trace;
    var m := Tracked(name, t);
    TrackedInFirstOrder(name, t);
    AllCurrent(name, t, m);
    var w, _, p := CollectedAt(t, 0);
    writes, published := w, p;
    firsts, lasts, raised := DrainedIsDomainEvents(name, init, t, m);
    FirstsAreAll(name, t, m, firsts);
    Atomic(name, init, serialize, env, op, committed);
    assert Rows(serialize, []) == [];
  }

  lemma AllCurrent(name: Naming, t: seq<Effect>, m: seq<(string, Agg)>)
    requires InFirstOrder(name, t, m)
    ensures forall k :: 0 <= k < |m| ==> Current(name, t, m[k])
  {
  }

  /** An integration event alone, nothing refused: its row is stored. */
  lemma IntegrationEventIsStored(name: Naming, init: Buffers, serialize: AnyEvent -> string)
    ensures Transact(name, init, serialize, Env(true, false, false), Publish("user.registered"), [])
            == Outcome(true, [serialize("user.registered")])
  {
    var t := [Published("user.registered")];
    assert t[..0] == [];
    assert Publications(t) == Publications(t[..0]) + ["user.registered"];
    assert Tracked(name, t) == Tracked(name, t[..0]);
    assert Writes(t) == Writes(t[..0]) + [];
  }
}
