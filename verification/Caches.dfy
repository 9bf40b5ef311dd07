/** The response cache (app/providers/cache.py): a TTL store that evicts on read, and a
    backend that degrades to it for good on the first error of its primary. None is
    the MISS sentinel; the clock's reading is an argument of each call. */
module Caches {
  import opened Basics

  datatype Entry<V> = Entry(expires: real, value: V)

  type Store<V> = map<string, Entry<V>>

  // ---------------------------------------------------------------- the ideal TTL map

  /** The last write that has not expired by now. */
  function Lookup<V>(writes: Store<V>, key: string, now: real): Option<V> {
    if key in writes && now < writes[key].expires then Some(writes[key].value) else None
  }

  function Written<V>(writes: Store<V>, key: string, value: V, ttl: int, now: real): Store<V> {
    writes[key := Entry(now + ttl as real, value)]
  }

  /** The store holds every write that could still be read from time now on. */
  ghost predicate Covers<V>(store: Store<V>, writes: Store<V>, now: real) {
    && (forall k | k in store :: k in writes && store[k] == writes[k])
    && (forall k | k in writes && k !in store :: writes[k].expires <= now)
  }

  // ------------------------------------------------------------- one call, two models

  datatype Call<V> = Get(key: string) | Set(key: string, value: V, ttl: int) | Clear

  /** A call, when it happens, and whether the primary backend raises on it. */
  datatype Event<V> = Event(call: Call<V>, now: real, fails: bool)

  /** What the ideal map of writes becomes, and what it answers. */
  function IdealStep<V>(writes: Store<V>, e: Event<V>): (Store<V>, Option<V>) {
    match e.call
    case Get(key) => (writes, Lookup(writes, key, e.now))
    case Set(key, value, ttl) => (Written(writes, key, value, ttl, e.now), None)
    case Clear => (map[], None)
  }

  /** The in-memory store: reading an expired entry removes it. */
  function MemoryStep<V>(store: Store<V>, e: Event<V>): (Store<V>, Option<V>) {
    match e.call
    case Get(key) =>
      if key in store && e.now >= store[key].expires then (store - {key}, None)
      else (store, Lookup(store, key, e.now))
    case Set(key, value, ttl) => (Written(store, key, value, ttl, e.now), None)
    case Clear => (map[], None)
  }

  // ------------------------------------------------------------------ InMemoryCache

  class InMemoryCache<V> {
    var store: Store<V>
    ghost var writes: Store<V>
    ghost var latest: real

    ghost predicate Valid()
      reads this
    {
      Covers(store, writes, latest)
    }

    constructor (now: real)
      ensures Valid() && writes == map[] && latest == now
    {
      store, writes, latest := map[], map[], now;
    }

    /** Evicts what it finds expired, yet answers as if nothing were ever evicted. */
    method Get(key: string, now: real) returns (r: Option<V>)
      requires Valid() && latest <= now
      modifies this
      ensures Valid() && latest == now && writes == old(writes)
      ensures r == Lookup(writes, key, now)
      ensures (store, r) == MemoryStep(old(store), Event(Call.Get(key), now, false))
    {
      latest := now;
      if key !in store {
        return None;
      }
      var item := store[key];
      if now >= item.expires {
        store := store - {key};
        return None;
      }
      return Some(item.value);
    }

    method Set(key: string, value: V, ttl: int, now: real)
      requires Valid() && latest <= now
      modifies this
      ensures Valid() && latest == now && writes == Written(old(writes), key, value, ttl, now)
      ensures store == MemoryStep(old(store), Event(Call.Set(key, value, ttl), now, false)).0
    {
      store := store[key := Entry(now + ttl as real, value)];
      writes, latest := Written(writes, key, value, ttl, now), now;
    }

    method Clear(now: real)
      requires Valid() && latest <= now
      modifies this
      ensures Valid() && latest == now && writes == map[] && store == map[]
    {
      store, writes, latest := map[], map[], now;
    }
  }

  // ----------------------------------------------------------------- runs of the store

  function Ideal<V>(events: seq<Event<V>>): (Store<V>, seq<Option<V>>) {
    if events == [] then (map[], [])
    else
      var (writes, answers) := Ideal(events[..|events|-1]);
      var (next, answer) := IdealStep(writes, events[|events|-1]);
      (next, answers + [answer])
  }

  function Memory<V>(events: seq<Event<V>>): (Store<V>, seq<Option<V>>) {
    if events == [] then (map[], [])
    else
      var (store, answers) := Memory(events[..|events|-1]);
      var (next, answer) := MemoryStep(store, events[|events|-1]);
      (next, answers + [answer])
  }

  lemma {:induction false} RunsSnoc<V>(events: seq<Event<V>>, e: Event<V>)
    ensures Memory(events + [e])
         == (MemoryStep(Memory(events).0, e).0, Memory(events).1 + [MemoryStep(Memory(events).0, e).1])
    ensures Ideal(events + [e])
         == (IdealStep(Ideal(events).0, e).0, Ideal(events).1 + [IdealStep(Ideal(events).0, e).1])
  {
    assert (events + [e])[..|events|] == events;
  }

  predicate Monotone<V>(events: seq<Event<V>>) {
    forall i, j :: 0 <= i < j < |events| ==> events[i].now <= events[j].now
  }

  function LastNow<V>(events: seq<Event<V>>): real {
    if events == [] then 0.0 else events[|events|-1].now
  }

  lemma {:induction false} StepCovers<V>(store: Store<V>, writes: Store<V>, before: real, e: Event<V>)
    requires Covers(store, writes, before) && before <= e.now
    ensures MemoryStep(store, e).1 == IdealStep(writes, e).1
    ensures Covers(MemoryStep(store, e).0, IdealStep(writes, e).0, e.now)
  {
  }

  lemma {:induction false} MemoryCovers<V>(events: seq<Event<V>>)
    requires Monotone(events)
    ensures Memory(events).1 == Ideal(events).1
    ensures events != [] ==> Covers(Memory(events).0, Ideal(events).0, LastNow(events))
  {
    if events != [] {
      var n := |events| - 1;
      MemoryCovers(events[..n]);
      var (store, _) := Memory(events[..n]);
      var (writes, _) := Ideal(events[..n]);
      var before := if n == 0 then events[n].now else events[n-1].now;
      assert n > 0 ==> events[..n][n-1] == events[n-1];
      StepCovers(store, writes, before, events[n]);
    }
  }

  /** Eviction is invisible: over any run with a monotone clock the cache gives, call
      by call, the answers of the ideal map of last unexpired writes. */
  lemma {:induction false} CacheIsIdeal<V>(events: seq<Event<V>>)
    requires Monotone(events)
    ensures Memory(events).1 == Ideal(events).1
  {
    MemoryCovers(events);
  }

  /** The clock must not run backwards: an entry evicted at 10 is gone at 5, although
      the write it came from was still good then. */
  lemma {:induction false} ClockMustBeMonotone()
    ensures var events := [Event(Set("k", 1, 7), 0.0, false), Event(Get("k"), 10.0, false),
                           Event(Get("k"), 5.0, false)];
      Memory(events).1 != Ideal(events).1
  {
    var events := [Event(Set("k", 1, 7), 0.0, false), Event(Get("k"), 10.0, false), Event(Get("k"), 5.0, false)];
    RunsSnoc([], events[0]);
    RunsSnoc([events[0]], events[1]);
    RunsSnoc([events[0], events[1]], events[2]);
    assert [] + [events[0]] == [events[0]];
    assert [events[0]] + [events[1]] == [events[0], events[1]];
    assert events == [events[0], events[1]] + [events[2]];
    assert Ideal(events).1[2] == Some(1) && Memory(events).1[2] == None;
  }

  // ---------------------------------------------------------------- ResilientBackend

  datatype Backend<V> = Backend(primary: Store<V>, fallback: Store<V>, degraded: bool)

  /** One call on the degrading backend. A failing get or set degrades it for good and
      is served by the fallback; a failing clear of the primary is swallowed. */
  function BackendStep<V>(b: Backend<V>, e: Event<V>): (Backend<V>, Option<V>) {
    if e.call.Clear? then
      var primary := if b.degraded || e.fails then b.primary else map[];
      (Backend(primary, map[], b.degraded), None)
    else if b.degraded || e.fails then
      var (fallback, answer) := MemoryStep(b.fallback, e);
      (Backend(b.primary, fallback, true), answer)
    else
      var (primary, answer) := IdealStep(b.primary, e);
      (Backend(primary, b.fallback, false), answer)
  }

  function Serve<V>(events: seq<Event<V>>): (Backend<V>, seq<Option<V>>) {
    if events == [] then (Backend(map[], map[], false), [])
    else
      var (b, answers) := Serve(events[..|events|-1]);
      var (next, answer) := BackendStep(b, events[|events|-1]);
      (next, answers + [answer])
  }

  lemma {:induction false} ServeSnoc<V>(events: seq<Event<V>>, e: Event<V>)
    ensures Serve(events + [e])
         == (BackendStep(Serve(events).0, e).0, Serve(events).1 + [BackendStep(Serve(events).0, e).1])
  {
    assert (events + [e])[..|events|] == events;
  }

  class ResilientBackend<V> {
    var primary: Store<V>
    var fallback: InMemoryCache<V>
    var degraded: bool

    ghost function View(): Backend<V>
      reads this, fallback
    {
      Backend(primary, fallback.store, degraded)
    }

    constructor (memory: InMemoryCache<V>)
      ensures fallback == memory && primary == map[] && !degraded
    {
      primary, fallback, degraded := map[], memory, false;
    }

    /** fails says whether the primary raises during this call. */
    method Get(key: string, now: real, fails: bool) returns (r: Option<V>)
      requires fallback.Valid() && fallback.latest <= now
      modifies this, fallback
      ensures fallback == old(fallback) && fallback.Valid() && fallback.latest <= now
      ensures fallback.writes == old(fallback.writes)
      ensures (View(), r) == BackendStep(old(View()), Event(Call.Get(key), now, fails))
    {
      if degraded {
        r := fallback.Get(key, now);
        return;
      }
      if fails {
        degraded := true;
        r := fallback.Get(key, now);
        return;
      }
      return Lookup(primary, key, now);
    }

    method Set(key: string, value: V, ttl: int, now: real, fails: bool)
      requires fallback.Valid() && fallback.latest <= now
      modifies this, fallback
      ensures fallback == old(fallback) && fallback.Valid() && fallback.latest <= now
      ensures View() == BackendStep(old(View()), Event(Call.Set(key, value, ttl), now, fails)).0
    {
      if degraded {
        fallback.Set(key, value, ttl, now);
        return;
      }
      if fails {
        degraded := true;
        fallback.Set(key, value, ttl, now);
        return;
      }
      primary := Written(primary, key, value, ttl, now);
    }

    method Clear(now: real, fails: bool)
      requires fallback.Valid() && fallback.latest <= now
      modifies this, fallback
      ensures fallback == old(fallback) && fallback.Valid() && fallback.latest <= now
      ensures View() == BackendStep(old(View()), Event(Call.Clear, now, fails)).0
    {
      fallback.Clear(now);
      if !degraded && !fails {
        primary := map[];
      }
    }
  }

  /** Whatever the backend could still answer from is a write the ideal map has. */
  ghost predicate Faithful<V>(b: Backend<V>, writes: Store<V>) {
    && (!b.degraded ==> b.primary == writes && b.fallback == map[])
    && (forall k | k in b.fallback :: k in writes && b.fallback[k] == writes[k])
  }

  lemma {:induction false} StepFaithful<V>(b: Backend<V>, writes: Store<V>, e: Event<V>)
    requires Faithful(b, writes)
    requires !(e.call.Clear? && e.fails && !b.degraded)
    ensures Faithful(BackendStep(b, e).0, IdealStep(writes, e).0)
    ensures BackendStep(b, e).1 == IdealStep(writes, e).1 || BackendStep(b, e).1 == None
    ensures !b.degraded && !e.fails ==> BackendStep(b, e).1 == IdealStep(writes, e).1
  {
  }

  /** Some clear failed on a primary that was still in use. */
  ghost predicate LostClear<V>(events: seq<Event<V>>, i: int) {
    0 <= i < |events| && events[i].call.Clear? && events[i].fails && !Serve(events[..i]).0.degraded
  }

  lemma {:induction false} ServeFaithful<V>(events: seq<Event<V>>)
    requires forall i :: !LostClear(events, i)
    ensures Faithful(Serve(events).0, Ideal(events).0)
    ensures |Serve(events).1| == |Ideal(events).1| == |events|
    ensures forall i | 0 <= i < |events| :: Serve(events).1[i] == Ideal(events).1[i] || Serve(events).1[i] == None
  {
    if events != [] {
      var n := |events| - 1;
      forall i ensures !LostClear(events[..n], i) {
        assert 0 <= i < n ==> events[..n][..i] == events[..i];
        assert !LostClear(events, i);
      }
      ServeFaithful(events[..n]);
      assert !LostClear(events, n);
      StepFaithful(Serve(events[..n]).0, Ideal(events[..n]).0, events[n]);
    }
  }

  /** A cache that loses its primary mid-run never serves anything wrong: each answer is
      the ideal one or a miss, however and whenever the primary fails, as long as no
      clear is lost. No clock assumption is needed. */
  lemma {:induction false} DegradedIsNeverWrong<V>(events: seq<Event<V>>, i: nat)
    requires i < |events| && forall j :: !LostClear(events, j)
    ensures |Serve(events).1| == |Ideal(events).1| == |events|
    ensures Serve(events).1[i] == Ideal(events).1[i] || Serve(events).1[i] == None
  {
    ServeFaithful(events);
  }

  /** A lost clear is served stale: the primary's error is swallowed and the entry the
      caller cleared is still answered. */
  lemma {:induction false} LostClearServesStale()
    ensures var events := [Event(Set("k", 1, 60), 0.0, false), Event(Clear, 1.0, true), Event(Get("k"), 2.0, false)];
      && |Serve(events).1| == |Ideal(events).1| == 3
      && Serve(events).1[2] == Some(1) && Ideal(events).1[2] == None
  {
    var events := [Event(Set("k", 1, 60), 0.0, false), Event(Clear, 1.0, true), Event(Get("k"), 2.0, false)];
    RunsSnoc([], events[0]);
    RunsSnoc([events[0]], events[1]);
    RunsSnoc([events[0], events[1]], events[2]);
    ServeSnoc([], events[0]);
    ServeSnoc([events[0]], events[1]);
    ServeSnoc([events[0], events[1]], events[2]);
    assert [] + [events[0]] == [events[0]];
    assert [events[0]] + [events[1]] == [events[0], events[1]];
    assert events == [events[0], events[1]] + [events[2]];
  }

  // ------------------------------------------------------------------- ResponseCache

  /** `int(default_ttl * scale)` */
  function ScaledTtl(base: nat, scale: real): int {
    var x := base as real * scale;
    if x >= 0.0 then x.Floor else -((-x).Floor)
  }

  class ResponseCache<V> {
    const backend: InMemoryCache<V>
    const enabled: bool
    const ttlScale: real
    var hits: nat
    var misses: nat

    constructor (memory: InMemoryCache<V>, enabled: bool, ttlScale: real)
      ensures backend == memory && this.enabled == enabled && this.ttlScale == ttlScale
      ensures hits == 0 && misses == 0
    {
      backend, this.enabled, this.ttlScale := memory, enabled, ttlScale;
      hits, misses := 0, 0;
    }

    /** Every enabled lookup that the backend answers is counted as exactly one hit or
        one miss; a backend error, `fails`, leaves both counters and reaches the caller. */
    method Get(key: string, now: real, fails: bool) returns (r: Option<V>, raised: bool)
      requires backend.Valid() && backend.latest <= now
      modifies this, backend
      ensures backend.Valid() && backend.latest <= now && backend.writes == old(backend.writes)
      ensures raised == (enabled && fails)
      ensures r == if enabled && !fails then Lookup(backend.writes, key, now) else None
      ensures hits == old(hits) + if enabled && !fails && r.Some? then 1 else 0
      ensures misses == old(misses) + if enabled && !fails && r.None? then 1 else 0
    {
      if !enabled {
        return None, false;
      }
      if fails {
        return None, true;
      }
      raised := false;
      r := backend.Get(key, now);
      if r.None? {
        misses := misses + 1;
      } else {
        hits := hits + 1;
      }
    }

    /** base is the time to live the path's rule gives. A backend error is swallowed: the
        call returns, and nothing has been stored. */
    method Set(key: string, value: V, base: nat, now: real, fails: bool)
      requires backend.Valid() && backend.latest <= now
      modifies this, backend
      ensures backend.Valid() && backend.latest <= now && hits == old(hits) && misses == old(misses)
      ensures var ttl := ScaledTtl(base, ttlScale);
        backend.writes == if enabled && ttl > 0 && !fails then Written(old(backend.writes), key, value, ttl, now)
                          else old(backend.writes)
    {
      if !enabled {
        return;
      }
      var ttl := ScaledTtl(base, ttlScale);
      if ttl <= 0 {
        return;
      }
      if !fails {
        backend.Set(key, value, ttl, now);
      }
    }
  }

  /** The scaled time to live is cut towards zero: never further from it than the
      product, and by less than one. */
  lemma {:induction false} ScaledTtlTruncates(base: nat, scale: real)
    ensures var x, t := base as real * scale, ScaledTtl(base, scale) as real;
      if x >= 0.0 then t <= x < t + 1.0 && t >= 0.0 else t - 1.0 < x <= t && t <= 0.0
  {
  }
}
