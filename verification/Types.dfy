/** Values shared by the messaging and persistence models. */
module Types {

  datatype Option<+T> = None | Some(value: T)

  datatype Result<+T> = Ok(value: T) | Err(error: string)

  /** A row key. UUIDs are drawn fresh, so any type with fresh values will do. */
  type Id = nat

  /** A timestamp in milliseconds. */
  type Time = int

  /** The publisher's dedup key. An outbox row id is a random UUID, so it never
      equals a key chosen by a direct publisher: the two kinds stay apart. */
  datatype Origin = FromOutbox(id: Id) | External(key: string)

  /** The immutable columns of a message. `payload` stands for every column the
      protocol only carries: payload, version, correlation id, occurred_at. */
  datatype Event = Event(
    eventType: string,
    eventKind: string,
    source: string,
    aggregate: Option<string>,
    origin: Option<Origin>,
    payload: string,
    createdAt: Time)

  /** What a service stores in its outbox; the forwarder adds source and origin. */
  datatype Message = Message(
    eventType: string,
    eventKind: string,
    aggregate: Option<string>,
    payload: string,
    createdAt: Time)

  /** How an outbox entry appears on the bus. */
  function Forwarded(m: Message, id: Id, source: string): Event {
    Event(m.eventType, m.eventKind, source, m.aggregate, Some(FromOutbox(id)), m.payload, m.createdAt)
  }

  /** What a client sees of a statement: it ran; it did not run and threw; it ran and
      threw all the same, because the answer was lost. */
  datatype Reply = Acked | Refused | Lost

  function Min(a: nat, b: nat): nat { if a <= b then a else b }

  lemma Assoc<T>(a: seq<T>, b: seq<T>, c: seq<T>)
    ensures a + b + c == a + (b + c)
  {
  }

  /** What String.prototype.trim and parseInt skip, as far as plain text goes. */
  predicate IsBlank(c: char) { c == ' ' || c == '\t' || c == '\n' || c == '\r' }
}

/** ORDER BY a timestamp LIMIT n: the oldest n keys of a pool. Ties may be broken
    either way, so this is a relation and not a function. */
module Oldest {
  import opened Types

  predicate Is(at: map<Id, Time>, pool: set<Id>, limit: nat, chosen: set<Id>)
    requires pool <= at.Keys
  {
    && chosen <= pool
    && |chosen| == Min(limit, |pool|)
    && forall c, u :: c in chosen && u in pool - chosen ==> at[c] <= at[u]
  }

  lemma {:induction false} Earliest(at: map<Id, Time>, pool: set<Id>) returns (first: Id)
    requires pool <= at.Keys && pool != {}
    ensures first in pool && forall u :: u in pool ==> at[first] <= at[u]
  {
    first :| first in pool;
    if pool != {first} {
      var rest := Earliest(at, pool - {first});
      if at[rest] < at[first] {
        first := rest;
      }
    } else {
      assert forall u :: u in pool ==> u == first;
    }
  }

  /** The statement always has an answer, whatever the pool and the limit. */
  lemma {:induction false} Exists(at: map<Id, Time>, pool: set<Id>, limit: nat)
    requires pool <= at.Keys
    ensures exists chosen :: Is(at, pool, limit, chosen)
    decreases limit
  {
    if limit == 0 || pool == {} {
      assert Is(at, pool, limit, {});
    } else {
      var first := Earliest(at, pool);
      Exists(at, pool - {first}, limit - 1);
      var rest :| Is(at, pool - {first}, limit - 1, rest);
      assert Is(at, pool, limit, rest + {first});
    }
  }

  lemma {:induction false} SubsetSize(a: set<Id>, b: set<Id>)
    requires a <= b
    ensures |a| <= |b| && (|a| == |b| ==> a == b)
  {
    if a != {} {
      var x :| x in a;
      SubsetSize(a - {x}, b - {x});
    } else if b != {} {
      var x :| x in b;
      assert |b| >= 1;
    }
  }

  /** With room for the whole pool nothing is left behind. */
  lemma AllTaken(at: map<Id, Time>, pool: set<Id>, limit: nat, chosen: set<Id>)
    requires pool <= at.Keys && Is(at, pool, limit, chosen)
    ensures limit >= |pool| ==> chosen == pool
  {
    SubsetSize(chosen, pool);
  }

  lemma TakenFrom(at: map<Id, Time>, pool: set<Id>, locked: set<Id>, limit: nat, chosen: set<Id>)
    requires pool <= at.Keys && Is(at, pool - locked, limit, chosen)
    ensures chosen <= pool && chosen !! locked && |chosen| <= limit
  {
  }

  /** What is taken is no younger than what is left, and below the limit nothing is left. */
  lemma OldestFirst(at: map<Id, Time>, pool: set<Id>, limit: nat, chosen: set<Id>, left: Id)
    requires pool <= at.Keys && Is(at, pool, limit, chosen) && left in pool && left !in chosen
    ensures |chosen| == limit && forall c :: c in chosen ==> at[c] <= at[left]
  {
    if |pool| <= limit { SubsetSize(chosen, pool); }
  }

  /** Some answer of the query. */
  method Select(at: map<Id, Time>, pool: set<Id>, limit: nat) returns (chosen: set<Id>)
    requires pool <= at.Keys
    ensures Is(at, pool, limit, chosen)
  {
    Exists(at, pool, limit);
    chosen :| chosen <= pool && Is(at, pool, limit, chosen);
  }

  /** FOR UPDATE SKIP LOCKED passes over whatever rows others hold locked. */
  predicate Skipping(pool: set<Id>, limit: nat, chosen: set<Id>) { chosen <= pool && |chosen| <= limit }

  /** What such a query may return, for some set of locked rows: any part of the pool
      within the limit. */
  lemma SkippingIff(at: map<Id, Time>, pool: set<Id>, limit: nat, chosen: set<Id>)
    requires pool <= at.Keys
    ensures Skipping(pool, limit, chosen) <==> exists locked :: Is(at, pool - locked, limit, chosen)
  {
    if Skipping(pool, limit, chosen) {
      var locked := pool - chosen;
      assert pool - locked == chosen;
      assert Is(at, pool - locked, limit, chosen);
    }
  }
}
