/** The priority token bucket (`TokenBucket`, app/providers/ratelimit.py).
    Every stretch of `acquire` between two awaits is one atomic step: entering
    the queue, polling, or leaving it when the sleep is interrupted. */
module TokenBuckets {
  import opened Basics
  import opened Seqs

  /** Smaller is served first; the number breaks ties in arrival order. */
  datatype Ticket = Ticket(priority: int, number: nat)

  predicate AtMost(a: Ticket, b: Ticket) {
    a.priority < b.priority || (a.priority == b.priority && a.number <= b.number)
  }

  lemma {:induction false} AtMostIsTotal()
    ensures TotalPreorder(AtMost) && Antisymmetric(AtMost)
  {
  }

  // ------------------------------------------------------------- abstract bucket

  datatype Bucket = Bucket(rate: real, capacity: real, tokens: real, updated: real,
                           waiting: set<Ticket>, nextSeq: nat, waitedCount: nat)

  /** Tokens earned over a stretch of time. */
  function Earned(elapsed: real, rate: real): real {
    elapsed * rate
  }

  function Refilled(b: Bucket, now: real): Bucket {
    b.(tokens := MinReal(b.capacity, b.tokens + Earned(now - b.updated, b.rate)), updated := now)
  }

  /** The smallest waiting ticket. */
  predicate IsLeader(b: Bucket, t: Ticket) {
    t in b.waiting && forall u | u in b.waiting :: AtMost(t, u)
  }

  datatype Event =
    | Enter(priority: int)
    | Poll(ticket: Ticket, waited: real, now: real)
    | Cancel(ticket: Ticket)

  predicate Grants(b: Bucket, e: Event) {
    e.Poll? && IsLeader(b, e.ticket) && Refilled(b, e.now).tokens >= 1.0
  }

  function Step(b: Bucket, e: Event): Bucket {
    match e
    case Enter(p) => b.(waiting := b.waiting + {Ticket(p, b.nextSeq)}, nextSeq := b.nextSeq + 1)
    case Poll(t, waited, now) =>
      var r := Refilled(b, now);
      if Grants(b, e) then
        r.(tokens := r.tokens - 1.0, waiting := b.waiting - {t},
           waitedCount := b.waitedCount + if waited > 0.0 then 1 else 0)
      else r
    case Cancel(t) => b.(waiting := b.waiting - {t})
  }

  /** How long a poll that was not granted sleeps, from the state it left. */
  function Delay(b: Bucket, t: Ticket): real
    requires b.rate > 0.0
  {
    if IsLeader(b, t) then MinReal(MaxReal((1.0 - b.tokens) / b.rate, 0.001), 0.25)
    else MinReal(0.005, 0.25)
  }

  /** A leader sleeps until its token is there: for the time the missing part takes to earn,
      but for no less than 1 and no more than 250 milliseconds. Others look again in 5. */
  lemma {:induction false} DelayMeans(b: Bucket, t: Ticket)
    requires b.rate > 0.0
    ensures !IsLeader(b, t) ==> Delay(b, t) == 0.005
    ensures IsLeader(b, t) ==> 0.001 <= Delay(b, t) <= 0.25
    ensures IsLeader(b, t) && Delay(b, t) < 0.25 ==> b.tokens + Earned(Delay(b, t), b.rate) >= 1.0
    ensures IsLeader(b, t) && Delay(b, t) > 0.001 ==> b.tokens + Earned(Delay(b, t), b.rate) <= 1.0
  {
    ScaleQuotient(1.0 - b.tokens, b.rate, Delay(b, t));
  }

  // ------------------------------------------------------------------ heapq

  /** The shape `heapq` keeps: no entry is smaller than its parent. */
  ghost predicate HeapOrdered(h: seq<Ticket>) {
    forall i, up :: 0 < i < |h| && up == (i - 1) / 2 ==> AtMost(h[up], h[i])
  }

  /** In a heap-ordered list the head is the smallest entry. */
  lemma {:induction false} HeadIsLeast(h: seq<Ticket>, i: nat)
    requires HeapOrdered(h) && i < |h|
    ensures AtMost(h[0], h[i])
    decreases i
  {
    if i > 0 {
      HeadIsLeast(h, (i - 1) / 2);
      assert AtMost(h[(i - 1) / 2], h[i]);
    }
  }

  lemma {:induction false} SortedIsHeap(h: seq<Ticket>)
    ensures HeapOrdered(SortBy(AtMost, h)) && multiset(SortBy(AtMost, h)) == multiset(h)
  {
    AtMostIsTotal();
    SortBySorted(AtMost, h);
    SortPermutes(AtMost, h);
  }

  // The library's `heapq` is represented by its contract. These bodies meet the
  // contract by sorting; callers see only the ensures clauses.

  method HeapPush(h: seq<Ticket>, t: Ticket) returns (r: seq<Ticket>)
    requires HeapOrdered(h)
    ensures HeapOrdered(r) && multiset(r) == multiset(h) + multiset{t}
  {
    SortedIsHeap(h + [t]);
    r := SortBy(AtMost, h + [t]);
  }

  method HeapPop(h: seq<Ticket>) returns (r: seq<Ticket>)
    requires HeapOrdered(h) && h != []
    ensures HeapOrdered(r) && multiset(r) == multiset(h) - multiset{h[0]}
  {
    assert h == [h[0]] + h[1..];
    SortedIsHeap(h[1..]);
    r := SortBy(AtMost, h[1..]);
  }

  /** `h.remove(t); heapify(h)` for a ticket that may be absent. */
  method HeapRemove(h: seq<Ticket>, t: Ticket) returns (r: seq<Ticket>)
    requires HeapOrdered(h)
    ensures HeapOrdered(r) && multiset(r) == multiset(h) - multiset{t}
  {
    if t in h {
      var i :| 0 <= i < |h| && h[i] == t;
      assert h == h[..i] + [t] + h[i+1..];
      SortedIsHeap(h[..i] + h[i+1..]);
      r := SortBy(AtMost, h[..i] + h[i+1..]);
    } else {
      r := h;
    }
  }

  // ------------------------------------------------------------- the bucket itself

  datatype PollResult = Granted(waited: real) | SleepFor(delay: real)

  class TokenBucket {
    const rate: real
    const capacity: real
    var tokens: real
    var updated: real
    var heap: seq<Ticket>
    var nextSeq: nat
    var waitedCount: nat

    /** The heap is ordered, holds no ticket twice and only tickets handed out. */
    ghost predicate Valid()
      reads this
    {
      && rate > 0.0
      && HeapOrdered(heap)
      && (forall t | t in heap :: t.number < nextSeq)
      && (forall t :: multiset(heap)[t] <= 1)
    }

    ghost function Abs(): Bucket
      reads this
    {
      Bucket(rate, capacity, tokens, updated, (set t | t in heap), nextSeq, waitedCount)
    }

    constructor (ratePerMin: int, cap: Option<real>, now: real)
      ensures Valid()
      ensures rate == Max(ratePerMin, 1) as real / 60.0
      ensures capacity == match cap { case Some(c) => c case None => Max(ratePerMin, 1) as real }
      ensures Abs() == Bucket(rate, capacity, capacity, now, {}, 0, 0)
    {
      rate := Max(ratePerMin, 1) as real / 60.0;
      capacity := match cap { case Some(c) => c case None => Max(ratePerMin, 1) as real };
      tokens := match cap { case Some(c) => c case None => Max(ratePerMin, 1) as real };
      updated := now;
      heap, nextSeq, waitedCount := [], 0, 0;
    }

    method Refill(now: real)
      modifies this`tokens, this`updated
      ensures Abs() == Refilled(old(Abs()), now)
    {
      tokens := MinReal(capacity, tokens + Earned(now - updated, rate));
      updated := now;
    }

    lemma {:induction false} LeaderIsHead(t: Ticket)
      requires Valid()
      ensures heap != [] && heap[0] == t <==> IsLeader(Abs(), t)
    {
      forall u | u in heap ensures AtMost(heap[0], u) {
        var i :| 0 <= i < |heap| && heap[i] == u;
        HeadIsLeast(heap, i);
      }
      if IsLeader(Abs(), t) {
        assert t in heap && heap[0] in heap;
        assert heap[0] in Abs().waiting;
      }
    }

    /** `acquire` up to its loop: take a ticket and push it. */
    method EnterQueue(priority: int) returns (t: Ticket)
      requires Valid()
      modifies this
      ensures Valid() && Abs() == Step(old(Abs()), Enter(priority))
      ensures t == Ticket(priority, old(nextSeq))
    {
      t := Ticket(priority, nextSeq);
      assert t !in multiset(heap);
      ghost var before := heap;
      heap := HeapPush(heap, t);
      nextSeq := nextSeq + 1;
      forall u ensures u in heap <==> u in before || u == t {
        assert u in multiset(heap) <==> u in multiset(before) || u == t;
      }
    }

    /** The ticket at the head leaves with a token. */
    method TakeHead(t: Ticket)
      requires Valid() && heap != [] && heap[0] == t
      modifies this`heap, this`tokens
      ensures Valid()
      ensures Abs() == old(Abs()).(waiting := old(Abs()).waiting - {t}, tokens := old(tokens) - 1.0)
    {
      ghost var before := heap;
      heap := HeapPop(heap);
      Removed(before, heap, t);
      tokens := tokens - 1.0;
    }

    /** One turn of the loop in `acquire`. */
    method PollOnce(t: Ticket, waited: real, now: real) returns (r: PollResult)
      requires Valid()
      modifies this
      ensures Valid() && Abs() == Step(old(Abs()), Poll(t, waited, now))
      ensures r == if Grants(old(Abs()), Poll(t, waited, now)) then Granted(waited)
                   else SleepFor(Delay(Abs(), t))
    {
      Refill(now);
      LeaderIsHead(t);
      if heap != [] && heap[0] == t && tokens >= 1.0 {
        TakeHead(t);
        if waited > 0.0 {
          waitedCount := waitedCount + 1;
        }
        return Granted(waited);
      }
      var delay;
      if heap != [] && heap[0] == t {
        var need := 1.0 - tokens;
        delay := MaxReal(need / rate, 0.001);
      } else {
        delay := 0.005;
      }
      delay := MinReal(delay, 0.25);
      return SleepFor(delay);
    }

    /** The `except` branch: an interrupted waiter takes its ticket out. */
    method Abandon(t: Ticket)
      requires Valid()
      modifies this
      ensures Valid() && Abs() == Step(old(Abs()), Cancel(t))
    {
      ghost var before := heap;
      heap := HeapRemove(heap, t);
      Removed(before, heap, t);
    }
  }

  lemma {:induction false} Removed(before: seq<Ticket>, after: seq<Ticket>, t: Ticket)
    requires multiset(after) == multiset(before) - multiset{t}
    requires forall u :: multiset(before)[u] <= 1
    ensures forall u :: u in after <==> u in before && u != t
    ensures forall u :: multiset(after)[u] <= 1
  {
    forall u ensures u in after <==> u in before && u != t {
      assert u in multiset(after) <==> u in after;
      assert u in multiset(before) <==> u in before;
      assert multiset(before)[u] <= 1;
    }
  }
}
