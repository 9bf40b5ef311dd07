/** Replay of a plan's exit rules against one mark per day
    (app/analytics/policy_settlement.py). Marks are whole 1e-4 dollars per share,
    days are day numbers, and a dict of marks by date is its list of entries. */
module DailyReplay {
  import opened Basics
  import opened Seqs
  import opened OptionStructures

  datatype Reason = ProfitTarget | StopLoss | TimeStop | SessionClose | AtExpiry

  datatype Exit = Exit(at: int, net: int, reason: Reason)

  /** Profit target and stop as fractions of the entry premium, time stop in days. */
  datatype Rules = Rules(target: Option<real>, stop: Option<real>, timeStop: Option<int>)

  datatype Snapshot = Snapshot(at: int, marks: map<string, int>)

  // --------------------------------------------------------------- marking a structure

  /** Signed net mark per share; None if any leg has no mark. keyOf is `occ_symbol`. */
  function NetAt(legs: seq<Leg>, marks: map<string, int>, keyOf: Leg -> string): Option<int> {
    if legs == [] then Some(0)
    else
      var leg := legs[|legs|-1];
      var rest :- NetAt(legs[..|legs|-1], marks, keyOf);
      if keyOf(leg) in marks then Some(rest + Signed(leg, marks[keyOf(leg)])) else None
  }

  lemma {:induction false} UnpricedPrefix(legs: seq<Leg>, n: nat, marks: map<string, int>, keyOf: Leg -> string)
    requires n <= |legs| && NetAt(legs[..n], marks, keyOf) == None
    ensures NetAt(legs, marks, keyOf) == None
    decreases |legs|
  {
    if n < |legs| {
      assert legs[..|legs|-1][..n] == legs[..n];
      UnpricedPrefix(legs[..|legs|-1], n, marks, keyOf);
    } else {
      assert legs[..n] == legs;
    }
  }

  /** A structure is priced exactly when every one of its legs is. */
  lemma {:induction false} PricedWhenEveryLegIs(legs: seq<Leg>, marks: map<string, int>, keyOf: Leg -> string)
    ensures NetAt(legs, marks, keyOf).Some? <==> forall leg | leg in legs :: keyOf(leg) in marks
  {
    if legs != [] {
      assert legs == legs[..|legs|-1] + [legs[|legs|-1]];
      PricedWhenEveryLegIs(legs[..|legs|-1], marks, keyOf);
    }
  }

  /** `_structure_net` */
  method StructureNet(legs: seq<Leg>, marks: map<string, int>, keyOf: Leg -> string) returns (net: Option<int>)
    ensures net == NetAt(legs, marks, keyOf)
  {
    var total := 0;
    var i := 0;
    while i < |legs|
      invariant 0 <= i <= |legs| && NetAt(legs[..i], marks, keyOf) == Some(total)
    {
      assert legs[..i+1][..i] == legs[..i];
      if keyOf(legs[i]) !in marks {
        UnpricedPrefix(legs, i + 1, marks, keyOf);
        return None;
      }
      var m := marks[keyOf(legs[i])];
      total := total + if IsLong(legs[i]) then m else -m;
      i := i + 1;
    }
    assert legs[..i] == legs;
    return Some(total);
  }

  // ------------------------------------------------------------------ one day's verdict

  /** Move of the structure since entry, as a fraction of the entry premium. */
  function Change(net: int, entry: int): real
    requires entry != 0
  {
    (net - entry) as real / Abs(entry) as real
  }

  lemma {:induction false} ChangeMonotone(a: int, b: int, entry: int)
    requires entry != 0 && a <= b
    ensures Change(a, entry) <= Change(b, entry)
  {
  }

  predicate StopHit(rules: Rules, change: real) {
    rules.stop.Some? && change <= -rules.stop.value
  }

  predicate TargetHit(rules: Rules, change: real) {
    rules.target.Some? && change >= rules.target.value
  }

  predicate TimeHit(rules: Rules, daysLeft: int) {
    rules.timeStop.Some? && daysLeft <= rules.timeStop.value
  }

  /** The exit a single day forces: stop before target before time stop. */
  function DayExit(legs: seq<Leg>, keyOf: Leg -> string, rules: Rules, entry: int, expiry: int,
                   day: Snapshot): Option<Exit>
    requires entry != 0
  {
    match NetAt(legs, day.marks, keyOf)
    case None => None
    case Some(net) =>
      var change := Change(net, entry);
      if StopHit(rules, change) then Some(Exit(day.at, net, StopLoss))
      else if TargetHit(rules, change) then Some(Exit(day.at, net, ProfitTarget))
      else if TimeHit(rules, expiry - day.at) then Some(Exit(day.at, net, TimeStop))
      else None
  }

  // ------------------------------------------------------------------ the whole replay

  predicate DayOrder(a: Snapshot, b: Snapshot) {
    a.at <= b.at
  }

  lemma {:induction false} DayOrderIsTotal()
    ensures TotalPreorder(DayOrder)
  {
  }

  predicate InWindow(day: Snapshot, entryDate: int, expiry: int) {
    entryDate < day.at <= expiry
  }

  /** The days replayed, ascending. */
  function Window(log: seq<Snapshot>, entryDate: int, expiry: int): seq<Snapshot> {
    SortBy(DayOrder, Filter((d: Snapshot) => InWindow(d, entryDate, expiry), log))
  }

  /** The first exit a rule forces over the given days. */
  function FirstExit(legs: seq<Leg>, keyOf: Leg -> string, rules: Rules, entry: int, expiry: int,
                     days: seq<Snapshot>): Option<Exit>
    requires entry != 0
  {
    if days == [] then None
    else match FirstExit(legs, keyOf, rules, entry, expiry, days[..|days|-1])
      case Some(e) => Some(e)
      case None => DayExit(legs, keyOf, rules, entry, expiry, days[|days|-1])
  }

  function Policy(legs: seq<Leg>, keyOf: Leg -> string, rules: Rules, entry: int, entryDate: int, expiry: int,
                  log: seq<Snapshot>, closeAtExpiry: Option<int>): Option<Exit>
  {
    if entry == 0 then None
    else match FirstExit(legs, keyOf, rules, entry, expiry, Window(log, entryDate, expiry))
      case Some(e) => Some(e)
      case None =>
        match closeAtExpiry
        case None => None
        case Some(close) => Some(Exit(expiry, ValueAt(legs, close), AtExpiry))
  }

  lemma {:induction false} FirstExitOfPrefix(legs: seq<Leg>, keyOf: Leg -> string, rules: Rules, entry: int,
                                             expiry: int, a: seq<Snapshot>, b: seq<Snapshot>)
    requires entry != 0
    ensures FirstExit(legs, keyOf, rules, entry, expiry, a).Some? ==>
              FirstExit(legs, keyOf, rules, entry, expiry, a + b) == FirstExit(legs, keyOf, rules, entry, expiry, a)
    ensures FirstExit(legs, keyOf, rules, entry, expiry, a).None? ==>
              FirstExit(legs, keyOf, rules, entry, expiry, a + b) == FirstExit(legs, keyOf, rules, entry, expiry, b)
    decreases |b|
  {
    if b == [] {
      assert a + b == a;
    } else {
      assert (a + b)[..|a+b|-1] == a + b[..|b|-1];
      FirstExitOfPrefix(legs, keyOf, rules, entry, expiry, a, b[..|b|-1]);
    }
  }

  /** The three rules, asked of one day. */
  method ApplyRules(legs: seq<Leg>, keyOf: Leg -> string, rules: Rules, entry: int, denom: int, expiry: int,
                    d: Snapshot) returns (exit: Option<Exit>)
    requires denom == Abs(entry) != 0
    ensures exit == DayExit(legs, keyOf, rules, entry, expiry, d)
  {
    var priced := StructureNet(legs, d.marks, keyOf);
    if priced.None? {
      return None;
    }
    var net := priced.value;
    var change := (net - entry) as real / denom as real;
    if rules.stop.Some? && change <= -rules.stop.value {
      return Some(Exit(d.at, net, StopLoss));
    }
    if rules.target.Some? && change >= rules.target.value {
      return Some(Exit(d.at, net, ProfitTarget));
    }
    if rules.timeStop.Some? && expiry - d.at <= rules.timeStop.value {
      return Some(Exit(d.at, net, TimeStop));
    }
    return None;
  }

  lemma {:induction false} FirstExitStep(legs: seq<Leg>, keyOf: Leg -> string, rules: Rules, entry: int, expiry: int,
                                         days: seq<Snapshot>, i: nat)
    requires entry != 0 && i < |days| && FirstExit(legs, keyOf, rules, entry, expiry, days[..i]) == None
    ensures var e := DayExit(legs, keyOf, rules, entry, expiry, days[i]);
      && FirstExit(legs, keyOf, rules, entry, expiry, days[..i+1]) == e
      && (e.Some? ==> FirstExit(legs, keyOf, rules, entry, expiry, days) == e)
  {
    TakeNext(days, i);
    SplitAt(days, i + 1);
    FirstExitOfPrefix(legs, keyOf, rules, entry, expiry, days[..i+1], days[i+1..]);
  }

  /** `walk_policy` */
  method WalkPolicy(legs: seq<Leg>, keyOf: Leg -> string, rules: Rules, entry: int, entryDate: int, expiry: int,
                    log: seq<Snapshot>, closeAtExpiry: Option<int>) returns (exit: Option<Exit>)
    ensures exit == Policy(legs, keyOf, rules, entry, entryDate, expiry, log, closeAtExpiry)
  {
    var denom := Abs(entry);
    if denom == 0 {
      return None;
    }
    var days := Window(log, entryDate, expiry);
    var i := 0;
    while i < |days|
      invariant 0 <= i <= |days| && FirstExit(legs, keyOf, rules, entry, expiry, days[..i]) == None
    {
      FirstExitStep(legs, keyOf, rules, entry, expiry, days, i);
      exit := ApplyRules(legs, keyOf, rules, entry, denom, expiry, days[i]);
      if exit.Some? {
        return;
      }
      i := i + 1;
    }
    TakeAll(days);
    if closeAtExpiry.None? {
      return None;
    }
    var settled := StructureValueAtExpiry(legs, closeAtExpiry.value);
    return Some(Exit(expiry, settled, AtExpiry));
  }

  // ------------------------------------------------------------- what the replay means

  /** Day i is the first day of the list on which some rule is met. */
  ghost predicate FiresFirst(legs: seq<Leg>, keyOf: Leg -> string, rules: Rules, entry: int, expiry: int,
                             days: seq<Snapshot>, i: nat)
    requires entry != 0
  {
    && i < |days| && DayExit(legs, keyOf, rules, entry, expiry, days[i]).Some?
    && forall k | 0 <= k < i :: DayExit(legs, keyOf, rules, entry, expiry, days[k]).None?
  }

  /** No exit exactly when no day meets a rule. */
  lemma {:induction false} NoExitNoTrigger(legs: seq<Leg>, keyOf: Leg -> string, rules: Rules, entry: int, expiry: int,
                                           days: seq<Snapshot>)
    requires entry != 0
    ensures FirstExit(legs, keyOf, rules, entry, expiry, days).None?
       <==> forall i | 0 <= i < |days| :: DayExit(legs, keyOf, rules, entry, expiry, days[i]).None?
  {
    if days != [] {
      var n := |days| - 1;
      NoExitNoTrigger(legs, keyOf, rules, entry, expiry, days[..n]);
      assert forall i | 0 <= i < n :: days[..n][i] == days[i];
    }
  }

  lemma {:induction false} TriggerIndex(legs: seq<Leg>, keyOf: Leg -> string, rules: Rules, entry: int, expiry: int,
                                        days: seq<Snapshot>) returns (i: nat)
    requires entry != 0 && FirstExit(legs, keyOf, rules, entry, expiry, days).Some?
    ensures FiresFirst(legs, keyOf, rules, entry, expiry, days, i)
    ensures FirstExit(legs, keyOf, rules, entry, expiry, days) == DayExit(legs, keyOf, rules, entry, expiry, days[i])
  {
    var n := |days| - 1;
    if FirstExit(legs, keyOf, rules, entry, expiry, days[..n]).Some? {
      i := TriggerIndex(legs, keyOf, rules, entry, expiry, days[..n]);
      assert forall k | 0 <= k <= i :: days[..n][k] == days[k];
    } else {
      NoExitNoTrigger(legs, keyOf, rules, entry, expiry, days[..n]);
      assert forall k | 0 <= k < n :: days[..n][k] == days[k];
      i := n;
    }
  }

  /** The replay stops on the first day that meets a rule, and only there. */
  lemma {:induction false} StopsAtFirstTrigger(legs: seq<Leg>, keyOf: Leg -> string, rules: Rules, entry: int,
                                               expiry: int, days: seq<Snapshot>, i: nat)
    requires entry != 0 && FiresFirst(legs, keyOf, rules, entry, expiry, days, i)
    ensures FirstExit(legs, keyOf, rules, entry, expiry, days) == DayExit(legs, keyOf, rules, entry, expiry, days[i])
  {
    NoExitNoTrigger(legs, keyOf, rules, entry, expiry, days);
    var j := TriggerIndex(legs, keyOf, rules, entry, expiry, days);
    assert i == j;
  }

  /** One mark can meet both levels only when the target is not above the stop, so with
      positive thresholds never. */
  lemma {:induction false} LevelsOverlapExactly(rules: Rules)
    ensures (exists change :: StopHit(rules, change) && TargetHit(rules, change))
       <==> rules.stop.Some? && rules.target.Some? && rules.target.value <= -rules.stop.value
  {
    if rules.stop.Some? && rules.target.Some? && rules.target.value <= -rules.stop.value {
      assert StopHit(rules, -rules.stop.value) && TargetHit(rules, -rules.stop.value);
    }
  }

  /** What the reason of an exit says of the mark it was booked at: the stop comes before
      the target, and the target before the time stop. */
  lemma {:induction false} ReasonMeans(legs: seq<Leg>, keyOf: Leg -> string, rules: Rules, entry: int, expiry: int,
                                       days: seq<Snapshot>)
    requires entry != 0
    requires FirstExit(legs, keyOf, rules, entry, expiry, days).Some?
    ensures var e := FirstExit(legs, keyOf, rules, entry, expiry, days).value;
      && (e.reason == StopLoss <==> StopHit(rules, Change(e.net, entry)))
      && (e.reason == ProfitTarget ==> TargetHit(rules, Change(e.net, entry)) && !StopHit(rules, Change(e.net, entry)))
      && (e.reason == TimeStop ==> TimeHit(rules, expiry - e.at) && !TargetHit(rules, Change(e.net, entry)))
  {
    var i := TriggerIndex(legs, keyOf, rules, entry, expiry, days);
  }

  // ------------------------------------------------------------------------- causality

  predicate Until(day: Snapshot, last: int) {
    day.at <= last
  }

  /** A sorted list is its part up to a date followed by its part after it. */
  lemma {:induction false} SplitAtDate(days: seq<Snapshot>, last: int)
    requires Sorted(DayOrder, days)
    ensures days == Filter((d: Snapshot) => Until(d, last), days) + Filter((d: Snapshot) => !Until(d, last), days)
  {
    SplitDownClosed(DayOrder, (d: Snapshot) => Until(d, last), (d: Snapshot) => !Until(d, last), days);
  }

  lemma {:induction false} ExitDateIsReplayed(legs: seq<Leg>, keyOf: Leg -> string, rules: Rules, entry: int,
                                              expiry: int, days: seq<Snapshot>)
    requires entry != 0 && FirstExit(legs, keyOf, rules, entry, expiry, days).Some?
    ensures exists d :: d in days && d.at == FirstExit(legs, keyOf, rules, entry, expiry, days).value.at
  {
    var i := TriggerIndex(legs, keyOf, rules, entry, expiry, days);
    assert days[i] in days;
  }

  /** A rule exit depends only on the days up to it. */
  lemma {:induction false} OnlyThePastMatters(legs: seq<Leg>, keyOf: Leg -> string, rules: Rules, entry: int,
                                              expiry: int, days: seq<Snapshot>)
    requires entry != 0 && Sorted(DayOrder, days)
    requires FirstExit(legs, keyOf, rules, entry, expiry, days).Some?
    ensures var last := FirstExit(legs, keyOf, rules, entry, expiry, days).value.at;
      FirstExit(legs, keyOf, rules, entry, expiry, Filter((d: Snapshot) => Until(d, last), days))
      == FirstExit(legs, keyOf, rules, entry, expiry, days)
  {
    var last := FirstExit(legs, keyOf, rules, entry, expiry, days).value.at;
    var past := Filter((d: Snapshot) => Until(d, last), days);
    var future := Filter((d: Snapshot) => !Until(d, last), days);
    SplitAtDate(days, last);
    FirstExitOfPrefix(legs, keyOf, rules, entry, expiry, past, future);
    if FirstExit(legs, keyOf, rules, entry, expiry, past).None? {
      ExitDateIsReplayed(legs, keyOf, rules, entry, expiry, future);
      assert false;
    }
  }

  /** The replayed window cut at a date is the window of the log cut at that date. */
  lemma {:induction false} WindowUntil(log: seq<Snapshot>, entryDate: int, expiry: int, last: int)
    ensures Filter((d: Snapshot) => Until(d, last), Window(log, entryDate, expiry))
         == Window(Filter((d: Snapshot) => Until(d, last), log), entryDate, expiry)
  {
    var p := (d: Snapshot) => Until(d, last);
    var q := (d: Snapshot) => InWindow(d, entryDate, expiry);
    DayOrderIsTotal();
    FilterOfSort(DayOrder, p, Filter(q, log));
    FiltersCommute(p, q, log);
  }

  /** No look-ahead: once a rule has fired, replacing everything the marks file says
      about later dates cannot change the exit. */
  lemma {:induction false} NoLookAhead(legs: seq<Leg>, keyOf: Leg -> string, rules: Rules, entry: int, entryDate: int,
                                       expiry: int, log: seq<Snapshot>, other: seq<Snapshot>, close: Option<int>,
                                       otherClose: Option<int>, last: int)
    requires var r := Policy(legs, keyOf, rules, entry, entryDate, expiry, log, close);
      r.Some? && r.value.reason != AtExpiry && r.value.at == last
    requires Filter((d: Snapshot) => Until(d, last), log) == Filter((d: Snapshot) => Until(d, last), other)
    ensures Policy(legs, keyOf, rules, entry, entryDate, expiry, other, otherClose)
         == Policy(legs, keyOf, rules, entry, entryDate, expiry, log, close)
  {
    DayOrderIsTotal();
    var days, others := Window(log, entryDate, expiry), Window(other, entryDate, expiry);
    SortBySorted(DayOrder, Filter((d: Snapshot) => InWindow(d, entryDate, expiry), log));
    SortBySorted(DayOrder, Filter((d: Snapshot) => InWindow(d, entryDate, expiry), other));
    WindowUntil(log, entryDate, expiry, last);
    WindowUntil(other, entryDate, expiry, last);
    OnlyThePastMatters(legs, keyOf, rules, entry, expiry, days);
    SplitAtDate(others, last);
    FirstExitOfPrefix(legs, keyOf, rules, entry, expiry,
                      Filter((d: Snapshot) => Until(d, last), others),
                      Filter((d: Snapshot) => !Until(d, last), others));
  }
}
