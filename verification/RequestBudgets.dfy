/** The daily request cap (`RequestBudget`) and the limiter that puts it behind
    the token bucket (`ProviderLimiter.acquire`), app/providers/ratelimit.py. */
module RequestBudgets {
  import opened Basics
  import opened TokenBuckets
  import opened BucketRuns

  datatype Budget = Budget(cap: int, day: int, count: int, blocked: nat)

  /** The counter as today sees it: a new day starts from zero. */
  function Rolled(b: Budget, today: int): Budget {
    if today != b.day then b.(day := today, count := 0) else b
  }

  predicate Permits(b: Budget, today: int, n: nat) {
    Rolled(b, today).count + n <= b.cap
  }

  function Charged(b: Budget, today: int, n: nat): Budget {
    var r := Rolled(b, today);
    if Permits(b, today, n) then r.(count := r.count + n) else r.(blocked := r.blocked + 1)
  }

  class RequestBudget {
    const dailyCap: int
    var day: int
    var count: int
    var blocked: nat

    ghost function Abs(): Budget
      reads this
    {
      Budget(dailyCap, day, count, blocked)
    }

    constructor (dailyCap: int, today: int)
      ensures Abs() == Budget(dailyCap, today, 0, 0)
    {
      this.dailyCap := dailyCap;
      day, count, blocked := today, 0, 0;
    }

    /** `charge`; false stands for BudgetExceededError. */
    method Charge(today: int, n: nat) returns (ok: bool)
      modifies this
      ensures ok == Permits(old(Abs()), today, n)
      ensures Abs() == Charged(old(Abs()), today, n)
    {
      if today != day {
        day := today;
        count := 0;
      }
      if count + n > dailyCap {
        blocked := blocked + 1;
        return false;
      }
      count := count + n;
      return true;
    }
  }

  // ------------------------------------------------------------ runs of charges

  datatype Request = Request(today: int, n: nat)

  /** Requests permitted on one date over a run of charges. */
  function PermittedOn(b: Budget, rs: seq<Request>, d: int): nat
    decreases |rs|
  {
    if rs == [] then 0
    else
      (if rs[0].today == d && Permits(b, rs[0].today, rs[0].n) then rs[0].n else 0)
      + PermittedOn(Charged(b, rs[0].today, rs[0].n), rs[1..], d)
  }

  function Days(rs: seq<Request>): (ds: seq<int>)
    ensures |ds| == |rs| && forall i | 0 <= i < |rs| :: ds[i] == rs[i].today
  {
    seq(|rs|, i requires 0 <= i < |rs| => rs[i].today)
  }

  /** No date comes back after a different one. */
  ghost predicate NoReturn(days: seq<int>) {
    forall i, j, k | 0 <= i < j < k < |days| && days[i] == days[k] :: days[j] == days[k]
  }

  lemma {:induction false} NotAsked(b: Budget, rs: seq<Request>, d: int)
    requires d !in Days(rs)
    ensures PermittedOn(b, rs, d) == 0
    decreases |rs|
  {
    if rs != [] {
      assert Days(rs)[0] == rs[0].today;
      assert Days(rs[1..]) == Days(rs)[1..];
      NotAsked(Charged(b, rs[0].today, rs[0].n), rs[1..], d);
    }
  }

  function AfterAll(b: Budget, rs: seq<Request>): Budget
    decreases |rs|
  {
    if rs == [] then b else AfterAll(Charged(b, rs[0].today, rs[0].n), rs[1..])
  }

  function Refusals(b: Budget, rs: seq<Request>): nat
    decreases |rs|
  {
    if rs == [] then 0
    else (if Permits(b, rs[0].today, rs[0].n) then 0 else 1) + Refusals(Charged(b, rs[0].today, rs[0].n), rs[1..])
  }

  /** The counters tell what happened: `blocked` grows by one for each request refused, and
      while the date stays the same `count` is what has been permitted on it. */
  lemma {:induction false} CountersAreExact(b: Budget, rs: seq<Request>)
    ensures AfterAll(b, rs).blocked == b.blocked + Refusals(b, rs)
    ensures (forall r | r in rs :: r.today == b.day) ==> AfterAll(b, rs).count == b.count + PermittedOn(b, rs, b.day)
    decreases |rs|
  {
    if rs != [] {
      CountersAreExact(Charged(b, rs[0].today, rs[0].n), rs[1..]);
      assert forall r | r in rs[1..] :: r in rs;
    }
  }

  /** What a date may still be charged: the rest of today's cap, or a whole cap. */
  function Left(b: Budget, d: int): int {
    if d == b.day then b.cap - b.count else b.cap
  }

  lemma {:induction false} LaterDays(today: int, rs: seq<Request>)
    requires rs != [] && NoReturn([today] + Days(rs))
    ensures NoReturn([rs[0].today] + Days(rs[1..]))
    ensures rs[0].today != today ==> today !in Days(rs[1..])
  {
    var all, rest := [today] + Days(rs), [rs[0].today] + Days(rs[1..]);
    assert forall i | 0 <= i < |rest| :: rest[i] == all[i + 1];
    if rs[0].today != today {
      forall k | 0 <= k < |Days(rs[1..])| ensures Days(rs[1..])[k] != today {
        assert all[0] == today && all[1] == rs[0].today && all[k + 2] == Days(rs[1..])[k];
      }
    }
  }

  /** While no date returns, no date is charged beyond what it has left. */
  lemma {:induction false} DailyCapHolds(b: Budget, rs: seq<Request>, d: int)
    requires 0 <= b.count <= b.cap && NoReturn([b.day] + Days(rs))
    ensures PermittedOn(b, rs, d) <= Left(b, d)
    decreases |rs|
  {
    if rs != [] {
      var r := rs[0];
      var b' := Charged(b, r.today, r.n);
      LaterDays(b.day, rs);
      if d == b.day != r.today {
        NotAsked(b', rs[1..], d);
      } else {
        DailyCapHolds(b', rs[1..], d);
      }
    }
  }

  /** Starting fresh, the requests permitted on any one date never exceed the daily
      cap, whatever the charges, as long as no date returns. */
  lemma {:induction false} FreshBudgetHolds(cap: nat, today: int, rs: seq<Request>, d: int)
    requires NoReturn(Days(rs))
    ensures PermittedOn(Budget(cap, today, 0, 0), rs, d) <= cap
  {
    if rs != [] {
      var b := Budget(cap, today, 0, 0);
      assert [rs[0].today] + Days(rs[1..]) == Days(rs);
      DailyCapHolds(Charged(b, rs[0].today, rs[0].n), rs[1..], d);
    }
  }

  // ----------------------------------------------------------- dates that come back

  ghost predicate UnitCharges(rs: seq<Request>) {
    forall r | r in rs :: r.n == 1
  }

  /** Under a cap of one, a date the counter has forgotten is permitted once more. */
  lemma {:induction false} ForgottenDatePasses(b: Budget, rs: seq<Request>, d: int, k: nat)
    requires b.cap == 1 && 0 <= b.count <= 1 && (b.day != d || b.count == 0)
    requires UnitCharges(rs) && k < |rs| && rs[k].today == d
    ensures PermittedOn(b, rs, d) >= 1
    decreases |rs|
  {
    assert rs[0] in rs;
    if rs[0].today != d {
      ForgottenDatePasses(Charged(b, rs[0].today, 1), rs[1..], d, k - 1);
    }
  }

  lemma {:induction false} OtherDateForgets(b: Budget, rs: seq<Request>, d: int, j: nat, k: nat)
    requires b.cap == 1 && 0 <= b.count <= 1
    requires UnitCharges(rs) && j < k < |rs| && rs[j].today != d && rs[k].today == d
    ensures PermittedOn(b, rs, d) >= 1
    decreases |rs|
  {
    assert rs[0] in rs;
    if j == 0 {
      ForgottenDatePasses(Charged(b, rs[0].today, 1), rs[1..], d, k - 1);
    } else {
      OtherDateForgets(Charged(b, rs[0].today, 1), rs[1..], d, j - 1, k - 1);
    }
  }

  lemma {:induction false} ReturningDatePassesTwice(b: Budget, rs: seq<Request>, d: int, i: nat, j: nat, k: nat)
    requires b.cap == 1 && 0 <= b.count <= 1 && (b.day != d || b.count == 0)
    requires UnitCharges(rs) && i < j < k < |rs| && rs[i].today == d == rs[k].today != rs[j].today
    ensures PermittedOn(b, rs, d) >= 2
    decreases |rs|
  {
    assert rs[0] in rs;
    var b' := Charged(b, rs[0].today, 1);
    if rs[0].today == d {
      OtherDateForgets(b', rs[1..], d, j - 1, k - 1);
    } else {
      ReturningDatePassesTwice(b', rs[1..], d, i - 1, j - 1, k - 1);
    }
  }

  /** Main result for the budget: for unit charges, which is what the limiter makes,
      every cap is kept on every date exactly when no date returns. */
  lemma {:induction false} CapHoldsExactly(today: int, rs: seq<Request>)
    requires UnitCharges(rs)
    ensures (forall cap: nat, d :: PermittedOn(Budget(cap, today, 0, 0), rs, d) <= cap) <==> NoReturn(Days(rs))
  {
    if NoReturn(Days(rs)) {
      forall cap: nat, d ensures PermittedOn(Budget(cap, today, 0, 0), rs, d) <= cap {
        FreshBudgetHolds(cap, today, rs, d);
      }
    } else {
      var i, j, k :| 0 <= i < j < k < |rs| && Days(rs)[i] == Days(rs)[k] != Days(rs)[j];
      var cap: nat, d := 1, rs[i].today;
      ReturningDatePassesTwice(Budget(cap, today, 0, 0), rs, d, i, j, k);
      assert PermittedOn(Budget(cap, today, 0, 0), rs, d) > cap;
    }
  }

  /** A clock that does not go back brings no date back. */
  ghost predicate DatesFrom(d: int, rs: seq<Request>)
    decreases |rs|
  {
    rs == [] || (d <= rs[0].today && DatesFrom(rs[0].today, rs[1..]))
  }

  lemma {:induction false} AscendingDays(d: int, rs: seq<Request>)
    requires DatesFrom(d, rs)
    ensures forall i | 0 <= i < |rs| :: d <= Days(rs)[i]
    ensures forall i, j | 0 <= i < j < |rs| :: Days(rs)[i] <= Days(rs)[j]
    decreases |rs|
  {
    if rs != [] {
      AscendingDays(rs[0].today, rs[1..]);
      assert Days(rs) == [rs[0].today] + Days(rs[1..]);
    }
  }

  // ------------------------------------------------------------------- the limiter

  /** One atomic step of a provider's waiters, and the date it happens on. */
  datatype LimiterEvent = At(step: Event, today: int)

  /** The requests the budget is asked about: one per grant of the bucket. */
  function Asked(b: Bucket, evs: seq<LimiterEvent>): seq<Request>
    decreases |evs|
  {
    if evs == [] then []
    else
      (if Grants(b, evs[0].step) then [Request(evs[0].today, 1)] else [])
      + Asked(Step(b, evs[0].step), evs[1..])
  }

  /** Requests the limiter lets through within [from, to]: granted, then charged. */
  function PassedWithin(b: Bucket, bud: Budget, evs: seq<LimiterEvent>, from: real, to: real): nat
    decreases |evs|
  {
    if evs == [] then 0
    else
      var e := evs[0];
      var b' := Step(b, e.step);
      if Grants(b, e.step) then
        (if Permits(bud, e.today, 1) && from <= e.step.now <= to then 1 else 0)
        + PassedWithin(b', Charged(bud, e.today, 1), evs[1..], from, to)
      else PassedWithin(b', bud, evs[1..], from, to)
  }

  /** Requests the limiter lets through on one date. */
  function PassedOn(b: Bucket, bud: Budget, evs: seq<LimiterEvent>, d: int): nat
    decreases |evs|
  {
    if evs == [] then 0
    else
      var e := evs[0];
      var b' := Step(b, e.step);
      if Grants(b, e.step) then
        (if Permits(bud, e.today, 1) && e.today == d then 1 else 0)
        + PassedOn(b', Charged(bud, e.today, 1), evs[1..], d)
      else PassedOn(b', bud, evs[1..], d)
  }

  function Steps(evs: seq<LimiterEvent>): seq<Event> {
    if evs == [] then [] else [evs[0].step] + Steps(evs[1..])
  }

  lemma {:induction false} PassedAreGranted(b: Bucket, bud: Budget, evs: seq<LimiterEvent>, from: real, to: real)
    ensures PassedWithin(b, bud, evs, from, to) <= GrantsWithin(b, Steps(evs), from, to)
    decreases |evs|
  {
    if evs != [] {
      var e := evs[0];
      assert Steps(evs)[1..] == Steps(evs[1..]);
      PassedAreGranted(Step(b, e.step), if Grants(b, e.step) then Charged(bud, e.today, 1) else bud,
                       evs[1..], from, to);
    }
  }

  lemma {:induction false} PassedOnIsPermitted(b: Bucket, bud: Budget, evs: seq<LimiterEvent>, d: int)
    ensures PassedOn(b, bud, evs, d) == PermittedOn(bud, Asked(b, evs), d)
    decreases |evs|
  {
    if evs != [] {
      var e := evs[0];
      var b' := Step(b, e.step);
      if Grants(b, e.step) {
        assert Asked(b, evs)[1..] == Asked(b', evs[1..]);
        PassedOnIsPermitted(b', Charged(bud, e.today, 1), evs[1..], d);
      } else {
        assert Asked(b, evs) == Asked(b', evs[1..]);
        PassedOnIsPermitted(b', bud, evs[1..], d);
      }
    }
  }

  ghost predicate EventDatesFrom(d: int, evs: seq<LimiterEvent>)
    decreases |evs|
  {
    evs == [] || (d <= evs[0].today && EventDatesFrom(evs[0].today, evs[1..]))
  }

  lemma {:induction false} AskedDates(b: Bucket, evs: seq<LimiterEvent>, d: int, d': int)
    requires EventDatesFrom(d', evs) && d <= d'
    ensures DatesFrom(d, Asked(b, evs))
    decreases |evs|
  {
    if evs != [] {
      var e := evs[0];
      var b' := Step(b, e.step);
      if Grants(b, e.step) {
        assert Asked(b, evs)[1..] == Asked(b', evs[1..]);
        AskedDates(b', evs[1..], e.today, e.today);
      } else {
        assert Asked(b, evs) == Asked(b', evs[1..]);
        AskedDates(b', evs[1..], d, e.today);
      }
    }
  }

  /** Main result for the limiter: whatever the waiters do, the requests passed
      in any window obey the rate, and those passed on any date obey the cap. */
  lemma {:induction false} LimiterHolds(b: Bucket, cap: nat, today: int, evs: seq<LimiterEvent>, from: real, to: real,
                                        d: int)
    requires InRange(b) && Monotone(b.updated, Steps(evs)) && EventDatesFrom(today, evs) && from <= to
    ensures PassedWithin(b, Budget(cap, today, 0, 0), evs, from, to) as real
            <= b.capacity + Earned(to - from, b.rate)
    ensures PassedOn(b, Budget(cap, today, 0, 0), evs, d) <= cap
  {
    var bud := Budget(cap, today, 0, 0);
    PassedAreGranted(b, bud, evs, from, to);
    RateBound(b, Steps(evs), from, to);
    PassedOnIsPermitted(b, bud, evs, d);
    AskedDates(b, evs, today, today);
    AscendingDays(today, Asked(b, evs));
    FreshBudgetHolds(cap, today, Asked(b, evs), d);
  }
}
