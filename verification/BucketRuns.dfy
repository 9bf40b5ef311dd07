/** Facts about every interleaving of the token bucket's steps. */
module BucketRuns {
  import opened Basics
  import opened TokenBuckets

  function Run(b: Bucket, evs: seq<Event>): Bucket
    decreases |evs|
  {
    if evs == [] then b else Run(Step(b, evs[0]), evs[1..])
  }

  /** Polls read a clock that never goes back, starting at `now`. */
  ghost predicate Monotone(now: real, evs: seq<Event>)
    decreases |evs|
  {
    evs == [] ||
    (if evs[0].Poll? then now <= evs[0].now && Monotone(evs[0].now, evs[1..])
     else Monotone(now, evs[1..]))
  }

  ghost predicate InRange(b: Bucket) {
    b.rate > 0.0 && 0.0 <= b.tokens <= b.capacity
  }

  // ------------------------------------------------------------------- token range

  lemma {:induction false} Accrues(a: real, b: real, rate: real)
    requires a <= b && rate > 0.0
    ensures Earned(b - a, rate) >= 0.0
  {
  }

  /** What accrues over two stretches is what accrues over both. */
  lemma {:induction false} AccruesInTwo(a: real, b: real, c: real, rate: real)
    ensures Earned(c - a, rate) == Earned(b - a, rate) + Earned(c - b, rate)
  {
  }

  lemma {:induction false} RefillInRange(b: Bucket, now: real)
    requires InRange(b) && b.updated <= now
    ensures InRange(Refilled(b, now))
  {
    Accrues(b.updated, now, b.rate);
  }

  lemma {:induction false} StepInRange(b: Bucket, e: Event)
    requires InRange(b) && (e.Poll? ==> b.updated <= e.now)
    ensures InRange(Step(b, e)) && Step(b, e).rate == b.rate && Step(b, e).capacity == b.capacity
    ensures Step(b, e).updated == if e.Poll? then e.now else b.updated
  {
    if e.Poll? {
      RefillInRange(b, e.now);
    }
  }

  /** In every run with a monotone clock the tokens stay within [0, capacity]. */
  lemma {:induction false} TokensStayInRange(b: Bucket, evs: seq<Event>)
    requires InRange(b) && Monotone(b.updated, evs)
    ensures InRange(Run(b, evs)) && Run(b, evs).capacity == b.capacity
    decreases |evs|
  {
    if evs != [] {
      StepInRange(b, evs[0]);
      TokensStayInRange(Step(b, evs[0]), evs[1..]);
    }
  }

  // --------------------------------------------------------------------- rate bound

  /** Grants whose poll happened within [from, to]. */
  function GrantsWithin(b: Bucket, evs: seq<Event>, from: real, to: real): nat
    decreases |evs|
  {
    if evs == [] then 0
    else
      (if Grants(b, evs[0]) && from <= evs[0].now <= to then 1 else 0)
      + GrantsWithin(Step(b, evs[0]), evs[1..], from, to)
  }

  lemma {:induction false} NoLateGrants(b: Bucket, evs: seq<Event>, from: real, to: real)
    requires Monotone(b.updated, evs) && to < b.updated
    ensures GrantsWithin(b, evs, from, to) == 0
    decreases |evs|
  {
    if evs != [] {
      NoLateGrants(Step(b, evs[0]), evs[1..], from, to);
    }
  }

  /** Tokens in the bucket plus everything it can earn until `to`. */
  ghost function Funds(b: Bucket, to: real): real {
    b.tokens + Earned(to - b.updated, b.rate)
  }

  lemma {:induction false} FundsNonNegative(b: Bucket, to: real)
    requires InRange(b) && b.updated <= to
    ensures Funds(b, to) >= 0.0
  {
    Accrues(b.updated, to, b.rate);
  }

  lemma {:induction false} RefillKeepsFunds(b: Bucket, now: real, to: real)
    ensures Funds(Refilled(b, now), to) <= Funds(b, to)
  {
    AccruesInTwo(b.updated, now, to, b.rate);
  }

  /** One step takes no more out of the funds than it grants. */
  lemma {:induction false} StepPays(b: Bucket, e: Event, to: real)
    ensures (if Grants(b, e) then 1.0 else 0.0) + Funds(Step(b, e), to) <= Funds(b, to)
  {
    if e.Poll? {
      RefillKeepsFunds(b, e.now, to);
    }
  }

  /** Every grant is paid for: by tokens already there or by time passing. */
  lemma {:induction false} GrantsArePaid(b: Bucket, evs: seq<Event>, from: real, to: real)
    requires InRange(b) && Monotone(b.updated, evs) && b.updated <= to
    ensures GrantsWithin(b, evs, from, to) as real <= Funds(b, to)
    decreases |evs|
  {
    FundsNonNegative(b, to);
    if evs != [] {
      var b' := Step(b, evs[0]);
      StepInRange(b, evs[0]);
      StepPays(b, evs[0], to);
      if b'.updated <= to {
        GrantsArePaid(b', evs[1..], from, to);
      } else {
        NoLateGrants(b', evs[1..], from, to);
      }
    }
  }

  /** Main rate result: in any window of any run, with any number of waiters and
      cancellations, at most capacity + rate * length grants happen. */
  lemma {:induction false} RateBound(b: Bucket, evs: seq<Event>, from: real, to: real)
    requires InRange(b) && Monotone(b.updated, evs) && from <= to
    ensures GrantsWithin(b, evs, from, to) as real <= b.capacity + Earned(to - from, b.rate)
    decreases |evs|
  {
    Accrues(from, to, b.rate);
    if evs != [] {
      var e := evs[0];
      StepInRange(b, e);
      if !e.Poll? || e.now < from {
        RateBound(Step(b, e), evs[1..], from, to);
      } else if e.now <= to {
        RateBoundFrom(b, evs, from, to);
      } else {
        NoLateGrants(Step(b, e), evs[1..], from, to);
      }
    }
  }

  lemma {:induction false} RateBoundFrom(b: Bucket, evs: seq<Event>, from: real, to: real)
    requires InRange(b) && Monotone(b.updated, evs) && evs != []
    requires evs[0].Poll? && from <= evs[0].now <= to
    ensures GrantsWithin(b, evs, from, to) as real <= b.capacity + Earned(to - from, b.rate)
  {
    var now := evs[0].now;
    RefillThenPoll(b, evs[0], evs, from, to);
    GrantsArePaid(Refilled(b, now), evs, from, to);
    FullFunds(Refilled(b, now), from, now, to);
  }

  lemma {:induction false} FullFunds(r: Bucket, from: real, now: real, to: real)
    requires InRange(r) && r.updated == now && from <= now
    ensures Funds(r, to) <= r.capacity + Earned(to - from, r.rate)
  {
    AccruesInTwo(from, now, to, r.rate);
    Accrues(from, now, r.rate);
  }

  /** A poll that finds the bucket already refilled to its own time does the same. */
  lemma {:induction false} RefillThenPoll(b: Bucket, e: Event, evs: seq<Event>, from: real, to: real)
    requires InRange(b) && e.Poll? && b.updated <= e.now && evs != [] && evs[0] == e
    requires Monotone(b.updated, evs)
    ensures InRange(Refilled(b, e.now)) && Monotone(e.now, evs)
    ensures GrantsWithin(Refilled(b, e.now), evs, from, to) == GrantsWithin(b, evs, from, to)
  {
    var r := Refilled(b, e.now);
    Accrues(b.updated, e.now, b.rate);
    assert InRange(r);
    assert Earned(e.now - e.now, b.rate) == 0.0;
    assert Refilled(r, e.now) == r;
    assert Step(r, e) == Step(b, e);
  }

  // ----------------------------------------------------------------------- tickets

  /** Waiters only ever poll or cancel tickets they were handed. */
  ghost predicate OwnTickets(b: Bucket, evs: seq<Event>)
    decreases |evs|
  {
    evs == [] ||
    (&& (evs[0].Poll? || evs[0].Cancel? ==> evs[0].ticket.number < b.nextSeq)
     && OwnTickets(Step(b, evs[0]), evs[1..]))
  }

  ghost predicate Issued(b: Bucket) {
    forall t | t in b.waiting :: t.number < b.nextSeq
  }

  function Entered(b: Bucket, evs: seq<Event>): set<Ticket>
    decreases |evs|
  {
    if evs == [] then {}
    else (if evs[0].Enter? then {Ticket(evs[0].priority, b.nextSeq)} else {}) + Entered(Step(b, evs[0]), evs[1..])
  }

  function GrantedTickets(b: Bucket, evs: seq<Event>): seq<Ticket>
    decreases |evs|
  {
    if evs == [] then []
    else (if Grants(b, evs[0]) then [evs[0].ticket] else []) + GrantedTickets(Step(b, evs[0]), evs[1..])
  }

  function Cancelled(evs: seq<Event>): set<Ticket> {
    if evs == [] then {} else (if evs[0].Cancel? then {evs[0].ticket} else {}) + Cancelled(evs[1..])
  }

  lemma {:induction false} EnteredAreNew(b: Bucket, evs: seq<Event>)
    ensures forall t | t in Entered(b, evs) :: t.number >= b.nextSeq
    decreases |evs|
  {
    if evs != [] {
      EnteredAreNew(Step(b, evs[0]), evs[1..]);
    }
  }

  /** Bookkeeping over every run: who waits at the end is who waited or entered,
      less who was granted and who cancelled; and nobody is granted twice. */
  lemma {:induction false} WaitingAccounted(b: Bucket, evs: seq<Event>)
    requires Issued(b) && OwnTickets(b, evs)
    ensures var granted := GrantedTickets(b, evs);
      && Run(b, evs).waiting
         == b.waiting + Entered(b, evs) - (set t | t in granted) - Cancelled(evs)
      && (forall i, j :: 0 <= i < j < |granted| ==> granted[i] != granted[j])
      && (forall t | t in granted :: t in b.waiting || t in Entered(b, evs))
    decreases |evs|
  {
    if evs != [] {
      var e, rest := evs[0], evs[1..];
      var b' := Step(b, e);
      WaitingAccounted(b', rest);
      EnteredAreNew(b', rest);
      var later := GrantedTickets(b', rest);
      assert forall t :: t in GrantedTickets(b, evs) <==> (Grants(b, e) && t == e.ticket) || t in later;
      if Grants(b, e) {
        assert e.ticket !in b'.waiting && e.ticket !in Entered(b', rest);
        assert e.ticket !in later;
      }
    }
  }

  function EntersIn(evs: seq<Event>): nat {
    if evs == [] then 0 else (if evs[0].Enter? then 1 else 0) + EntersIn(evs[1..])
  }

  /** Grants to a ticket that had slept before. */
  function GrantsAfterWaiting(b: Bucket, evs: seq<Event>): nat
    decreases |evs|
  {
    if evs == [] then 0
    else (if Grants(b, evs[0]) && evs[0].waited > 0.0 then 1 else 0) + GrantsAfterWaiting(Step(b, evs[0]), evs[1..])
  }

  /** The counters over every run: numbers are handed out one by one, and `waited_count` is
      the number of grants that had to wait. */
  lemma {:induction false} CountersTell(b: Bucket, evs: seq<Event>)
    ensures Run(b, evs).nextSeq == b.nextSeq + EntersIn(evs)
    ensures Run(b, evs).waitedCount == b.waitedCount + GrantsAfterWaiting(b, evs)
    decreases |evs|
  {
    if evs != [] {
      CountersTell(Step(b, evs[0]), evs[1..]);
    }
  }

  /** No overtaking: while u waits, nobody behind u is granted before u is. */
  lemma {:induction false} NoOvertaking(b: Bucket, evs: seq<Event>, u: Ticket, t: Ticket)
    requires u in b.waiting && AtMost(u, t) && u != t
    requires u !in Cancelled(evs) && t in GrantedTickets(b, evs)
    ensures exists i, j :: 0 <= i < j < |GrantedTickets(b, evs)|
              && GrantedTickets(b, evs)[i] == u && GrantedTickets(b, evs)[j] == t
    decreases |evs|
  {
    var e, rest := evs[0], evs[1..];
    var b' := Step(b, e);
    var all, later := GrantedTickets(b, evs), GrantedTickets(b', rest);
    if Grants(b, e) && e.ticket == u {
      assert all == [u] + later;
      var j :| 0 <= j < |later| && later[j] == t;
      assert all[0] == u && all[j+1] == t;
    } else {
      var head := if Grants(b, e) then [e.ticket] else [];
      assert all == head + later;
      assert Grants(b, e) ==> e.ticket != t;
      NoOvertaking(b', rest, u, t);
      var i, j :| 0 <= i < j < |later| && later[i] == u && later[j] == t;
      assert all[|head| + i] == u && all[|head| + j] == t;
    }
  }

  // ---------------------------------------------------------------------- liveness

  /** Ticket l keeps the head of the queue: it does not leave, and nobody more
      urgent arrives. */
  ghost predicate StaysLeader(evs: seq<Event>, l: Ticket) {
    forall e | e in evs :: && (e.Enter? ==> e.priority >= l.priority)
                           && (e.Cancel? ==> e.ticket != l)
  }

  /** Each poll of l comes no earlier than the sleep ordered by the previous one. */
  ghost predicate SleepsHonoured(b: Bucket, evs: seq<Event>, l: Ticket, due: real)
    requires b.rate > 0.0
    decreases |evs|
  {
    evs == [] ||
    (var b' := Step(b, evs[0]);
     if evs[0].Poll? && evs[0].ticket == l then
       evs[0].now >= due && SleepsHonoured(b', evs[1..], l, evs[0].now + Delay(b', l))
     else
       SleepsHonoured(b', evs[1..], l, due))
  }

  function PollsOf(evs: seq<Event>, l: Ticket): nat {
    if evs == [] then 0
    else (if evs[0].Poll? && evs[0].ticket == l then 1 else 0) + PollsOf(evs[1..], l)
  }

  lemma {:induction false} LeaderStays(b: Bucket, e: Event, l: Ticket)
    requires IsLeader(b, l) && Issued(b) && !(Grants(b, e) && e.ticket == l)
    requires (e.Enter? ==> e.priority >= l.priority) && (e.Cancel? ==> e.ticket != l)
    ensures !Grants(b, e)
    ensures IsLeader(Step(b, e), l) && Issued(Step(b, e))
  {
    assert IsLeader(b, l) && e.Poll? && IsLeader(b, e.ticket) ==> e.ticket == l;
  }

  /** At least this much is in the bucket: x tokens at time p and nothing taken since. */
  ghost predicate HoldsAtLeast(b: Bucket, p: real, x: real) {
    p <= b.updated && b.tokens >= MinReal(b.capacity, x + Earned(b.updated - p, b.rate))
  }

  lemma {:induction false} StillHolds(b: Bucket, now: real, p: real, x: real)
    requires InRange(b) && b.updated <= now && HoldsAtLeast(b, p, x)
    ensures HoldsAtLeast(Refilled(b, now), p, x)
  {
    Accrues(b.updated, now, b.rate);
    AccruesInTwo(p, b.updated, now, b.rate);
  }

  /** A sleep ordered by an unserved leader is either the full quarter second or
      long enough to earn the missing token. */
  lemma {:induction false} SleepEarns(b: Bucket, l: Ticket, x: real, elapsed: real)
    requires b.rate > 0.0 && IsLeader(b, l) && b.tokens == x < 1.0 && elapsed >= Delay(b, l)
    ensures x + Earned(elapsed, b.rate) >= 1.0 || Earned(elapsed, b.rate) >= 0.25 * b.rate
  {
    var need := (1.0 - x) / b.rate;
    assert need * b.rate == 1.0 - x;
    if elapsed >= need {
      EarnsMore(need, elapsed, b.rate);
    } else {
      EarnsMore(0.25, elapsed, b.rate);
    }
  }

  lemma {:induction false} EarnsMore(a: real, b: real, rate: real)
    requires a <= b && rate > 0.0
    ensures Earned(b, rate) >= a * rate
  {
  }

  /** An unserved poll of the leader finds at least a quarter second more refill. */
  lemma {:induction false} UnservedPollGains(b: Bucket, e: Event, l: Ticket, last: Bucket)
    requires InRange(b) && b.capacity >= 1.0 && e.Poll? && e.ticket == l && b.updated <= e.now
    requires IsLeader(b, l) && !Grants(b, e)
    requires last.rate == b.rate && last.tokens < 1.0 && IsLeader(last, l)
    requires HoldsAtLeast(b, last.updated, last.tokens)
    requires e.now >= last.updated + Delay(last, l)
    ensures Refilled(b, e.now).tokens >= last.tokens + 0.25 * b.rate
  {
    StillHolds(b, e.now, last.updated, last.tokens);
    SleepEarns(last, l, last.tokens, e.now - last.updated);
  }

  lemma {:induction false} HoldsItself(b: Bucket)
    ensures HoldsAtLeast(b, b.updated, b.tokens)
  {
    assert Earned(b.updated - b.updated, b.rate) == 0.0;
  }

  /** What n quarter-second sleeps earn. */
  ghost function Slept(n: nat, rate: real): real {
    Earned(0.25 * n as real, rate)
  }

  lemma {:induction false} OneMoreSleep(n: nat, rate: real)
    ensures Slept(n + 1, rate) == Slept(n, rate) + 0.25 * rate
    ensures Slept(0, rate) == 0.0
  {
    AccruesInTwo(0.0, 0.25 * n as real, 0.25 * (n + 1) as real, rate);
    assert Earned(0.25 * (n + 1) as real - 0.25 * n as real, rate) == 0.25 * rate;
  }

  /** The conditions under which the leader is watched from state b on, its last
      poll having left the bucket as `last`. */
  ghost predicate Watching(b: Bucket, evs: seq<Event>, l: Ticket, last: Bucket) {
    && InRange(b) && b.capacity >= 1.0 && Issued(b) && IsLeader(b, l)
    && last.rate == b.rate && last.tokens < 1.0 && IsLeader(last, l)
    && HoldsAtLeast(b, last.updated, last.tokens)
    && Monotone(b.updated, evs) && StaysLeader(evs, l)
    && SleepsHonoured(b, evs, l, last.updated + Delay(last, l))
    && l !in GrantedTickets(b, evs)
  }

  /** A step of somebody else. */
  lemma {:induction false} WatchOther(b: Bucket, evs: seq<Event>, l: Ticket, last: Bucket)
    requires Watching(b, evs, l, last) && evs != [] && !(evs[0].Poll? && evs[0].ticket == l)
    ensures Watching(Step(b, evs[0]), evs[1..], l, last)
  {
    var e := evs[0];
    assert e in evs && forall x | x in evs[1..] :: x in evs;
    StepInRange(b, e);
    LeaderStays(b, e, l);
    if e.Poll? {
      StillHolds(b, e.now, last.updated, last.tokens);
    }
  }

  /** A poll of the leader that is not served. */
  lemma {:induction false} WatchPoll(b: Bucket, evs: seq<Event>, l: Ticket, last: Bucket)
    requires Watching(b, evs, l, last) && evs != [] && evs[0].Poll? && evs[0].ticket == l
    ensures var b' := Step(b, evs[0]);
      Watching(b', evs[1..], l, b') && b'.tokens >= last.tokens + 0.25 * b.rate && b'.rate == b.rate
  {
    var e := evs[0];
    assert e in evs && forall x | x in evs[1..] :: x in evs;
    StepInRange(b, e);
    LeaderStays(b, e, l);
    UnservedPollGains(b, e, l, last);
    HoldsItself(Step(b, e));
  }

  /** However many more times the leader polls without being served, a quarter
      second's refill for each of them still leaves less than one token. */
  lemma {:induction false} UnservedPollsAreFew(b: Bucket, evs: seq<Event>, l: Ticket, last: Bucket)
    requires Watching(b, evs, l, last)
    ensures last.tokens + Slept(PollsOf(evs, l), b.rate) < 1.0
    decreases |evs|
  {
    OneMoreSleep(0, b.rate);
    if evs != [] {
      var b' := Step(b, evs[0]);
      if evs[0].Poll? && evs[0].ticket == l {
        WatchPoll(b, evs, l, last);
        UnservedPollsAreFew(b', evs[1..], l, b');
        OneMoreSleep(PollsOf(evs[1..], l), b.rate);
      } else {
        WatchOther(b, evs, l, last);
        UnservedPollsAreFew(b', evs[1..], l, last);
      }
    }
  }

  /** Main liveness result: a ticket that stays at the head of the queue, in a
      bucket able to hold a whole token, is granted by the time it has slept
      4 * (1 - tokens) / rate times, whatever the other waiters do. */
  lemma {:induction false} LeaderIsServed(b: Bucket, evs: seq<Event>, l: Ticket)
    requires InRange(b) && 1.0 <= b.capacity && Issued(b) && IsLeader(b, l) && b.tokens < 1.0
    requires Monotone(b.updated, evs) && StaysLeader(evs, l)
    requires SleepsHonoured(b, evs, l, b.updated + Delay(b, l))
    requires PollsOf(evs, l) as real >= 4.0 * (1.0 - b.tokens) / b.rate
    ensures l in GrantedTickets(b, evs)
  {
    HoldsItself(b);
    EnoughSleep(PollsOf(evs, l), b.tokens, b.rate);
    if l !in GrantedTickets(b, evs) {
      UnservedPollsAreFew(b, evs, l, b);
    }
  }

  lemma {:induction false} EnoughSleep(n: nat, x: real, rate: real)
    requires rate > 0.0 && n as real >= 4.0 * (1.0 - x) / rate
    ensures x + Slept(n, rate) >= 1.0
  {
    var k := 4.0 * (1.0 - x) / rate;
    assert k * rate == 4.0 * (1.0 - x);
    EarnsMore(0.25 * k, 0.25 * n as real, rate);
  }
}
