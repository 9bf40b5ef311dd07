/** Exactly which runs of the degrading backend answer something wrong
    (`ResilientBackend`, app/providers/cache.py): those that read a key whose only clear
    was lost on a primary still in use. */
module CacheFailures {
  import opened Basics
  import opened Seqs
  import opened Caches

  // --------------------------------------------------------------- what a call answers

  lemma {:induction false} AnswerAt<V>(events: seq<Event<V>>, g: nat)
    requires g < |events|
    ensures |Serve(events).1| == |Ideal(events).1| == |events|
    ensures Serve(events).1[g] == BackendStep(Serve(events[..g]).0, events[g]).1
    ensures Ideal(events).1[g] == IdealStep(Ideal(events[..g]).0, events[g]).1
  {
    var n := |events| - 1;
    AnswerCount(events[..n]);
    if g < n {
      AnswerAt(events[..n], g);
      assert events[..n][..g] == events[..g];
    }
  }

  lemma {:induction false} AnswerCount<V>(events: seq<Event<V>>)
    ensures |Serve(events).1| == |Ideal(events).1| == |events|
  {
    if events != [] {
      AnswerCount(events[..|events|-1]);
    }
  }

  /** The fallback is empty until the backend degrades, and never holds anything stale,
      whatever happened to the primary. */
  lemma {:induction false} FallbackIsFaithful<V>(events: seq<Event<V>>)
    ensures var b, writes := Serve(events).0, Ideal(events).0;
      && (!b.degraded ==> b.fallback == map[])
      && (forall k | k in b.fallback :: k in writes && b.fallback[k] == writes[k])
  {
    if events != [] {
      FallbackIsFaithful(events[..|events|-1]);
    }
  }

  // ------------------------------------------------------------- the last write that counts

  predicate Sets<V>(e: Event<V>, key: string) {
    e.call.Set? && e.call.key == key
  }

  /** A clear the primary has carried out, or any clear at all. */
  predicate Clears<V>(e: Event<V>, lostToo: bool) {
    e.call.Clear? && (lostToo || !e.fails)
  }

  /** The last of the first n calls that sets the key with no clear since. */
  function LastWrite<V>(events: seq<Event<V>>, n: nat, key: string, lostToo: bool): Option<nat>
    requires n <= |events|
  {
    if n == 0 then None
    else if Sets(events[n-1], key) then Some(n - 1)
    else if Clears(events[n-1], lostToo) then None
    else LastWrite(events, n - 1, key, lostToo)
  }

  function EntryWritten<V>(e: Event<V>): Entry<V>
    requires e.call.Set?
  {
    Entry(e.now + e.call.ttl as real, e.call.value)
  }

  /** The entry a store should hold for a key. */
  function EntryOf<V>(events: seq<Event<V>>, n: nat, key: string, lostToo: bool): Option<Entry<V>>
    requires n <= |events|
  {
    match LastWrite(events, n, key, lostToo)
    case None => None
    case Some(s) => if s < n && events[s].call.Set? then Some(EntryWritten(events[s])) else None
  }

  function Stored<V>(store: Store<V>, key: string): Option<Entry<V>> {
    if key in store then Some(store[key]) else None
  }

  lemma {:induction false} LastWriteIs<V>(events: seq<Event<V>>, n: nat, key: string, lostToo: bool, s: nat)
    requires n <= |events|
    ensures LastWrite(events, n, key, lostToo) == Some(s)
       <==> && s < n && Sets(events[s], key)
            && forall i | s < i < n :: !Sets(events[i], key) && !Clears(events[i], lostToo)
  {
    if n > 0 && !Sets(events[n-1], key) && !Clears(events[n-1], lostToo) {
      LastWriteIs(events, n - 1, key, lostToo, s);
    }
  }

  lemma {:induction false} EntryNext<V>(events: seq<Event<V>>, n: nat, key: string, lostToo: bool)
    requires n < |events|
    ensures EntryOf(events, n + 1, key, lostToo)
         == if Sets(events[n], key) then Some(EntryWritten(events[n]))
            else if Clears(events[n], lostToo) then None
            else EntryOf(events, n, key, lostToo)
  {
    if LastWrite(events, n, key, lostToo).Some? {
      LastWriteIs(events, n, key, lostToo, LastWrite(events, n, key, lostToo).value);
    }
  }

  /** No get or set has failed among the first n calls. */
  ghost predicate Undegraded<V>(events: seq<Event<V>>, n: nat)
    requires n <= |events|
  {
    forall i | 0 <= i < n && events[i].fails :: events[i].call.Clear?
  }

  lemma {:induction false} DegradedExactly<V>(events: seq<Event<V>>, n: nat)
    requires n <= |events|
    ensures Serve(events[..n]).0.degraded <==> !Undegraded(events, n)
  {
    if n > 0 {
      DegradedExactly(events, n - 1);
      TakeNext(events, n - 1);
      ServeSnoc(events[..n-1], events[n-1]);
    }
  }

  /** The ideal map forgets at every clear; a primary in use forgets at those it carries out. */
  lemma {:induction false} StoresHold<V>(events: seq<Event<V>>, n: nat, key: string)
    requires n <= |events|
    ensures Stored(Ideal(events[..n]).0, key) == EntryOf(events, n, key, true)
    ensures Undegraded(events, n) ==> Stored(Serve(events[..n]).0.primary, key) == EntryOf(events, n, key, false)
  {
    if n > 0 {
      StoresHold(events, n - 1, key);
      DegradedExactly(events, n - 1);
      TakeNext(events, n - 1);
      ServeSnoc(events[..n-1], events[n-1]);
      RunsSnoc(events[..n-1], events[n-1]);
      EntryNext(events, n - 1, key, true);
      EntryNext(events, n - 1, key, false);
    }
  }

  // ------------------------------------------------------------------------ stale answers

  /** Call g reads a key last written by call s and not expired since, the primary is
      still in use, and clears lie between the two, all of them lost. */
  ghost predicate ReadsCleared<V>(events: seq<Event<V>>, s: int, g: int) {
    && 0 <= s < g < |events| && events[g].call.Get? && Sets(events[s], events[g].call.key)
    && Undegraded(events, g + 1)
    && (forall i | s < i < g :: !Sets(events[i], events[g].call.key) && !Clears(events[i], false))
    && (exists i :: s < i < g && Clears(events[i], true))
    && events[g].now < EntryWritten(events[s]).expires
  }

  function AnswerTo<V>(answers: seq<Option<V>>, g: nat): Option<V> {
    if g < |answers| then answers[g] else None
  }

  /** The ideal answer, or a miss. */
  ghost predicate RightOrMiss<V>(events: seq<Event<V>>, g: nat) {
    AnswerTo(Serve(events).1, g) == AnswerTo(Ideal(events).1, g) || AnswerTo(Serve(events).1, g) == None
  }

  /** Once the backend has degraded, or degrades on this call, the answer is right. */
  lemma {:induction false} FallbackAnswersRight<V>(events: seq<Event<V>>, g: nat)
    requires g < |events| && !Undegraded(events, g + 1)
    ensures RightOrMiss(events, g)
  {
    AnswerAt(events, g);
    DegradedExactly(events, g);
    FallbackIsFaithful(events[..g]);
  }

  /** What a primary in use answers to a read. */
  lemma {:induction false} PrimaryAnswers<V>(events: seq<Event<V>>, g: nat)
    requires g < |events| && Undegraded(events, g + 1) && events[g].call.Get?
    ensures AnswerTo(Serve(events).1, g) == Read(EntryOf(events, g, events[g].call.key, false), events[g].now)
    ensures AnswerTo(Ideal(events).1, g) == Read(EntryOf(events, g, events[g].call.key, true), events[g].now)
  {
    AnswerAt(events, g);
    DegradedExactly(events, g);
    StoresHold(events, g, events[g].call.key);
  }

  function Read<V>(entry: Option<Entry<V>>, now: real): Option<V> {
    if entry.Some? && now < entry.value.expires then Some(entry.value.value) else None
  }

  /** A lost clear in between is what tells the two apart. */
  lemma {:induction false} KeptAndForgotten<V>(events: seq<Event<V>>, g: nat, key: string, s: nat)
    requires g <= |events|
    ensures LastWrite(events, g, key, false) == Some(s) && LastWrite(events, g, key, true) != Some(s)
       <==> && s < g && Sets(events[s], key)
            && (forall i | s < i < g :: !Sets(events[i], key) && !Clears(events[i], false))
            && exists i :: s < i < g && Clears(events[i], true)
  {
    LastWriteIs(events, g, key, false, s);
    LastWriteIs(events, g, key, true, s);
  }

  /** The ideal map holds nothing the primary does not. */
  lemma {:induction false} IdealIsKept<V>(events: seq<Event<V>>, g: nat, key: string)
    requires g <= |events| && LastWrite(events, g, key, true).Some?
    ensures LastWrite(events, g, key, false) == LastWrite(events, g, key, true)
  {
    var s := LastWrite(events, g, key, true).value;
    LastWriteIs(events, g, key, true, s);
    LastWriteIs(events, g, key, false, s);
  }

  lemma {:induction false} KeptWrite<V>(events: seq<Event<V>>, g: nat, key: string)
    requires g <= |events| && LastWrite(events, g, key, false).Some?
    ensures var s := LastWrite(events, g, key, false).value;
      s < g && Sets(events[s], key) && EntryOf(events, g, key, false) == Some(EntryWritten(events[s]))
  {
    LastWriteIs(events, g, key, false, LastWrite(events, g, key, false).value);
  }

  lemma {:induction false} ReadRightExactly<V>(events: seq<Event<V>>, g: nat)
    requires g < |events| && Undegraded(events, g + 1) && events[g].call.Get?
    ensures RightOrMiss(events, g) <==> forall s :: !ReadsCleared(events, s, g)
  {
    var key := events[g].call.key;
    PrimaryAnswers(events, g);
    if LastWrite(events, g, key, true).Some? {
      IdealIsKept(events, g, key);
      forall s ensures !ReadsCleared(events, s, g) {
        if s >= 0 {
          KeptAndForgotten(events, g, key, s);
        }
      }
    } else {
      forall s ensures ReadsCleared(events, s, g) <==>
                         && 0 <= s < g && Sets(events[s], key) && LastWrite(events, g, key, false) == Some(s)
                         && events[g].now < EntryWritten(events[s]).expires
      {
        if s >= 0 {
          KeptAndForgotten(events, g, key, s);
        }
      }
      if LastWrite(events, g, key, false).Some? {
        KeptWrite(events, g, key);
      }
    }
  }

  lemma {:induction false} AnswerRightExactly<V>(events: seq<Event<V>>, g: nat)
    requires g < |events|
    ensures RightOrMiss(events, g) <==> forall s :: !ReadsCleared(events, s, g)
  {
    if !Undegraded(events, g + 1) {
      FallbackAnswersRight(events, g);
    } else if events[g].call.Get? {
      ReadRightExactly(events, g);
    } else {
      AnswerAt(events, g);
    }
  }

  /** Main result, for every run, every pattern of primary failures and every clock: each
      answer is the ideal one or a miss if and only if no call reads a key that was
      cleared only by clears the primary lost, while that primary is still in use and the
      entry would not have expired. */
  lemma {:induction false} NeverWrongExactly<V>(events: seq<Event<V>>)
    ensures (forall g: nat | g < |events| :: RightOrMiss(events, g)) <==> forall s, g :: !ReadsCleared(events, s, g)
  {
    forall g: nat | g < |events| {
      AnswerRightExactly(events, g);
    }
    if s, g :| ReadsCleared(events, s, g) {
      AnswerRightExactly(events, g);
    }
  }
}
