/** Which clocks the evict-on-read store tolerates (`InMemoryCache`,
    app/providers/cache.py): not only those that never go back. */
module CacheClock {
  import opened Basics
  import opened Seqs
  import opened Caches

  /** A write at reading s with this time to live has expired at reading i, where it can
      be evicted, and is live again at the later reading j. */
  ghost predicate Revived(times: seq<real>, s: int, i: int, j: int, ttl: int) {
    && 0 <= s < i < j < |times|
    && times[j] < times[s] + ttl as real <= times[i]
  }

  /** No write of whole seconds, at any reading, is ever revived. */
  ghost predicate Tolerable(times: seq<real>) {
    forall s, i, j, ttl :: !Revived(times, s, i, j, ttl)
  }

  ghost predicate OnClock<V>(events: seq<Event<V>>, times: seq<real>) {
    |events| == |times| && forall i | 0 <= i < |events| :: events[i].now == times[i]
  }

  // ------------------------------------------------------------ tolerable clocks are fine

  /** This expiry is that of a write made at reading s. */
  ghost predicate ExpiresFrom(times: seq<real>, s: int, ttl: int, expires: real) {
    0 <= s < |times| && expires == times[s] + ttl as real
  }

  /** It belongs to a write made before reading n. */
  ghost predicate WrittenBefore(times: seq<real>, n: nat, expires: real) {
    exists s, ttl :: ExpiresFrom(times, s, ttl, expires) && s < n
  }

  /** A write at s with this expiry was over at reading i. */
  ghost predicate OverAt(times: seq<real>, s: int, ttl: int, i: int, expires: real) {
    ExpiresFrom(times, s, ttl, expires) && s < i < |times| && expires <= times[i]
  }

  ghost predicate OverBefore(times: seq<real>, n: nat, expires: real) {
    exists s, ttl, i :: OverAt(times, s, ttl, i, expires) && i < n
  }

  /** The store lost only what was over at some reading. */
  ghost predicate LostOnlyOver<V>(store: Store<V>, writes: Store<V>, times: seq<real>, n: nat) {
    && (forall k | k in store :: k in writes && store[k] == writes[k])
    && (forall k | k in writes :: WrittenBefore(times, n, writes[k].expires))
    && (forall k | k in writes && k !in store :: OverBefore(times, n, writes[k].expires))
  }

  lemma {:induction false} NotOverAgain(times: seq<real>, n: nat, expires: real)
    requires Tolerable(times) && n < |times| && OverBefore(times, n, expires)
    ensures expires <= times[n]
  {
    var s, ttl, i :| OverAt(times, s, ttl, i, expires) && i < n;
    assert !Revived(times, s, i, n, ttl);
  }

  lemma {:induction false} StillBefore(times: seq<real>, n: nat, expires: real)
    requires n < |times|
    ensures WrittenBefore(times, n, expires) ==> WrittenBefore(times, n + 1, expires)
    ensures OverBefore(times, n, expires) ==> OverBefore(times, n + 1, expires)
    ensures WrittenBefore(times, n, expires) && expires <= times[n] ==> OverBefore(times, n + 1, expires)
  {
    if s, ttl :| ExpiresFrom(times, s, ttl, expires) && s < n {
      if expires <= times[n] {
        assert OverAt(times, s, ttl, n, expires);
      }
    }
  }

  lemma {:induction false} LaterReading<V>(store: Store<V>, writes: Store<V>, times: seq<real>, n: nat)
    requires n < |times| && LostOnlyOver(store, writes, times, n)
    ensures LostOnlyOver(store, writes, times, n + 1)
  {
    forall k | k in writes {
      StillBefore(times, n, writes[k].expires);
    }
  }

  lemma {:induction false} GetTolerates<V>(store: Store<V>, writes: Store<V>, times: seq<real>, n: nat, key: string)
    requires Tolerable(times) && n < |times| && LostOnlyOver(store, writes, times, n)
    ensures var (after, answer) := MemoryStep(store, Event(Call.Get(key), times[n], false));
      answer == Lookup(writes, key, times[n]) && LostOnlyOver(after, writes, times, n + 1)
  {
    LaterReading(store, writes, times, n);
    if key in writes {
      if key in store {
        StillBefore(times, n, writes[key].expires);
      } else {
        NotOverAgain(times, n, writes[key].expires);
      }
    }
  }

  lemma {:induction false} SetTolerates<V>(store: Store<V>, writes: Store<V>, times: seq<real>, n: nat, key: string,
                                           value: V, ttl: int)
    requires n < |times| && LostOnlyOver(store, writes, times, n)
    ensures LostOnlyOver(Written(store, key, value, ttl, times[n]), Written(writes, key, value, ttl, times[n]),
                         times, n + 1)
  {
    LaterReading(store, writes, times, n);
    assert ExpiresFrom(times, n, ttl, times[n] + ttl as real);
  }

  lemma {:induction false} StepTolerates<V>(store: Store<V>, writes: Store<V>, times: seq<real>, n: nat, e: Event<V>)
    requires Tolerable(times) && n < |times| && e.now == times[n] && LostOnlyOver(store, writes, times, n)
    ensures MemoryStep(store, e).1 == IdealStep(writes, e).1
    ensures LostOnlyOver(MemoryStep(store, e).0, IdealStep(writes, e).0, times, n + 1)
  {
    match e.call
    case Get(key) => GetTolerates(store, writes, times, n, key);
    case Set(key, value, ttl) => SetTolerates(store, writes, times, n, key, value, ttl);
    case Clear =>
  }

  lemma {:induction false} RunTolerates<V>(events: seq<Event<V>>, times: seq<real>, n: nat)
    requires Tolerable(times) && OnClock(events, times) && n <= |events|
    ensures Memory(events[..n]).1 == Ideal(events[..n]).1
    ensures LostOnlyOver(Memory(events[..n]).0, Ideal(events[..n]).0, times, n)
  {
    if n > 0 {
      RunTolerates(events, times, n - 1);
      TakeNext(events, n - 1);
      RunsSnoc(events[..n-1], events[n-1]);
      StepTolerates(Memory(events[..n-1]).0, Ideal(events[..n-1]).0, times, n - 1, events[n-1]);
    }
  }

  // -------------------------------------------------------- any other clock is observable

  /** Write at reading s, read at i and at j, and otherwise ask for something else. */
  function Probe(times: seq<real>, s: int, i: int, j: int, ttl: int): (events: seq<Event<int>>)
    ensures |events| == |times|
  {
    seq(|times|, p requires 0 <= p < |times| =>
      Event(if p == s then Call.Set("k", 1, ttl) else if p == i || p == j then Call.Get("k") else Call.Get("other"),
            times[p], false))
  }

  /** Up to reading j the ideal map keeps the write, and the store loses it at i. */
  lemma {:induction false} ProbeStates(times: seq<real>, s: int, i: int, j: int, ttl: int, n: nat)
    requires Revived(times, s, i, j, ttl) && n <= j
    ensures var events, e := Probe(times, s, i, j, ttl), Entry(times[s] + ttl as real, 1);
      && Ideal(events[..n]).0 == (if n <= s then map[] else map["k" := e])
      && (if n <= s then Memory(events[..n]).0 == map[]
          else if n > i then "k" !in Memory(events[..n]).0
          else Memory(events[..n]).0 in [map["k" := e], map[]])
  {
    var events := Probe(times, s, i, j, ttl);
    if n > 0 {
      ProbeStates(times, s, i, j, ttl, n - 1);
      TakeNext(events, n - 1);
      RunsSnoc(events[..n-1], events[n-1]);
    }
  }

  lemma {:induction false} AnswersGrow<V>(events: seq<Event<V>>, n: nat)
    requires n < |events|
    ensures |Memory(events).1| == |Ideal(events).1| == |events|
    ensures Memory(events).1[n] == MemoryStep(Memory(events[..n]).0, events[n]).1
    ensures Ideal(events).1[n] == IdealStep(Ideal(events[..n]).0, events[n]).1
  {
    var m := |events| - 1;
    AnswerCount(events[..m]);
    if n < m {
      AnswersGrow(events[..m], n);
      assert events[..m][..n] == events[..n];
    }
  }

  lemma {:induction false} AnswerCount<V>(events: seq<Event<V>>)
    ensures |Memory(events).1| == |Ideal(events).1| == |events|
  {
    if events != [] {
      AnswerCount(events[..|events|-1]);
    }
  }

  lemma {:induction false} ProbeTells(times: seq<real>, s: int, i: int, j: int, ttl: int)
    requires Revived(times, s, i, j, ttl)
    ensures var events := Probe(times, s, i, j, ttl);
      OnClock(events, times) && Memory(events).1 != Ideal(events).1
  {
    var events := Probe(times, s, i, j, ttl);
    ProbeStates(times, s, i, j, ttl, j);
    AnswersGrow(events, j);
    assert Ideal(events).1[j] == Some(1) && Memory(events).1[j] == None;
  }

  ghost predicate AnswersIdeally(events: seq<Event<int>>) {
    Memory(events).1 == Ideal(events).1
  }

  /** The store answers as the ideal map, for every run on a clock, exactly when the
      clock never falls back across the expiry of an earlier write that some reading in
      between had passed; a clock that does not go back is one such. */
  lemma {:induction false} ClockExactly(times: seq<real>)
    ensures (forall events | OnClock(events, times) :: AnswersIdeally(events)) <==> Tolerable(times)
  {
    if Tolerable(times) {
      forall events: seq<Event<int>> | OnClock(events, times) ensures AnswersIdeally(events) {
        RunTolerates(events, times, |events|);
        TakeAll(events);
      }
    } else {
      var s, i, j, ttl :| Revived(times, s, i, j, ttl);
      ProbeTells(times, s, i, j, ttl);
      assert !AnswersIdeally(Probe(times, s, i, j, ttl));
    }
  }
}
