/** What the daily replay returns, told on the marks file itself
    (`walk_policy`, app/analytics/policy_settlement.py). */
module ReplayMeaning {
  import opened Basics
  import opened Seqs
  import opened OptionStructures
  import opened DailyReplay

  /** The move since entry is a loss of at least the stop, as a share of the premium. */
  predicate AtStop(rules: Rules, entry: int, net: int) {
    rules.stop.Some? && (net - entry) as real <= -rules.stop.value * Abs(entry) as real
  }

  predicate AtTarget(rules: Rules, entry: int, net: int) {
    rules.target.Some? && (net - entry) as real >= rules.target.value * Abs(entry) as real
  }

  /** No more days are left to expiry than the time stop allows. */
  predicate IsDue(rules: Rules, expiry: int, at: int) {
    rules.timeStop.Some? && expiry - at <= rules.timeStop.value
  }

  lemma {:induction false} LevelsMean(rules: Rules, entry: int, net: int)
    requires entry != 0
    ensures StopHit(rules, Change(net, entry)) <==> AtStop(rules, entry, net)
    ensures TargetHit(rules, Change(net, entry)) <==> AtTarget(rules, entry, net)
  {
    if rules.stop.Some? {
      ScaleQuotient((net - entry) as real, Abs(entry) as real, -rules.stop.value);
    }
    if rules.target.Some? {
      ScaleQuotient((net - entry) as real, Abs(entry) as real, rules.target.value);
    }
  }

  /** A marked day after the entry date and up to expiry on which every leg is priced. */
  predicate PricedDay(legs: seq<Leg>, keyOf: Leg -> string, log: seq<Snapshot>, entryDate: int, expiry: int,
                      d: Snapshot, net: int)
  {
    d in log && entryDate < d.at <= expiry && NetAt(legs, d.marks, keyOf) == Some(net)
  }

  /** No priced day before the given date meets any rule. */
  ghost predicate NothingMet(legs: seq<Leg>, keyOf: Leg -> string, rules: Rules, entry: int, entryDate: int,
                             expiry: int, log: seq<Snapshot>, before: int)
  {
    forall d, net | PricedDay(legs, keyOf, log, entryDate, expiry, d, net) && d.at < before ::
      !AtStop(rules, entry, net) && !AtTarget(rules, entry, net) && !IsDue(rules, expiry, d.at)
  }

  /** The exit is taken at the value of a priced day, for the reason stated, and no
      earlier day gave one. */
  ghost predicate RuleExit(legs: seq<Leg>, keyOf: Leg -> string, rules: Rules, entry: int, entryDate: int, expiry: int,
                           log: seq<Snapshot>, e: Exit)
  {
    && (exists d :: PricedDay(legs, keyOf, log, entryDate, expiry, d, e.net) && d.at == e.at)
    && NothingMet(legs, keyOf, rules, entry, entryDate, expiry, log, e.at)
    && match e.reason
       case StopLoss => AtStop(rules, entry, e.net)
       case ProfitTarget => AtTarget(rules, entry, e.net) && !AtStop(rules, entry, e.net)
       case TimeStop => IsDue(rules, expiry, e.at) && !AtStop(rules, entry, e.net) && !AtTarget(rules, entry, e.net)
       case _ => false
  }

  lemma {:induction false} DayMeans(legs: seq<Leg>, keyOf: Leg -> string, rules: Rules, entry: int, expiry: int,
                                    d: Snapshot)
    requires entry != 0
    ensures match DayExit(legs, keyOf, rules, entry, expiry, d)
      case None => forall net | NetAt(legs, d.marks, keyOf) == Some(net) ::
                     !AtStop(rules, entry, net) && !AtTarget(rules, entry, net) && !IsDue(rules, expiry, d.at)
      case Some(e) =>
        && e.at == d.at && NetAt(legs, d.marks, keyOf) == Some(e.net)
        && match e.reason
           case StopLoss => AtStop(rules, entry, e.net)
           case ProfitTarget => AtTarget(rules, entry, e.net) && !AtStop(rules, entry, e.net)
           case TimeStop => IsDue(rules, expiry, e.at) && !AtStop(rules, entry, e.net) && !AtTarget(rules, entry, e.net)
           case _ => false
  {
    if NetAt(legs, d.marks, keyOf).Some? {
      LevelsMean(rules, entry, NetAt(legs, d.marks, keyOf).value);
    }
  }

  lemma {:induction false} WindowMeans(log: seq<Snapshot>, entryDate: int, expiry: int)
    ensures forall d :: d in Window(log, entryDate, expiry) <==> d in log && entryDate < d.at <= expiry
    ensures Sorted(DayOrder, Window(log, entryDate, expiry))
  {
    var kept := Filter((d: Snapshot) => InWindow(d, entryDate, expiry), log);
    SortPermutes(DayOrder, kept);
    SameElements(Window(log, entryDate, expiry), kept);
    DayOrderIsTotal();
    SortBySorted(DayOrder, kept);
  }

  /** Nothing is met before day i of the window when no earlier day of it exits. */
  lemma {:induction false} NothingMetBefore(legs: seq<Leg>, keyOf: Leg -> string, rules: Rules, entry: int,
                                            entryDate: int, expiry: int, log: seq<Snapshot>, i: nat, before: int)
    requires entry != 0 && i <= |Window(log, entryDate, expiry)|
    requires forall k | 0 <= k < i ::
               DayExit(legs, keyOf, rules, entry, expiry, Window(log, entryDate, expiry)[k]).None?
    requires forall k | i <= k < |Window(log, entryDate, expiry)| :: before <= Window(log, entryDate, expiry)[k].at
    ensures NothingMet(legs, keyOf, rules, entry, entryDate, expiry, log, before)
  {
    var days := Window(log, entryDate, expiry);
    WindowMeans(log, entryDate, expiry);
    forall d, net | PricedDay(legs, keyOf, log, entryDate, expiry, d, net) && d.at < before
      ensures !AtStop(rules, entry, net) && !AtTarget(rules, entry, net) && !IsDue(rules, expiry, d.at)
    {
      var k :| 0 <= k < |days| && days[k] == d;
      DayMeans(legs, keyOf, rules, entry, expiry, d);
    }
  }

  lemma {:induction false} FirstExitMeans(legs: seq<Leg>, keyOf: Leg -> string, rules: Rules, entry: int,
                                          entryDate: int, expiry: int, log: seq<Snapshot>)
    requires entry != 0 && FirstExit(legs, keyOf, rules, entry, expiry, Window(log, entryDate, expiry)).Some?
    ensures RuleExit(legs, keyOf, rules, entry, entryDate, expiry, log,
                     FirstExit(legs, keyOf, rules, entry, expiry, Window(log, entryDate, expiry)).value)
  {
    var days := Window(log, entryDate, expiry);
    var i := TriggerIndex(legs, keyOf, rules, entry, expiry, days);
    NothingBeforeFirst(legs, keyOf, rules, entry, entryDate, expiry, log, i);
    WindowMeans(log, entryDate, expiry);
    assert days[i] in days;
    ExitOfDay(legs, keyOf, rules, entry, entryDate, expiry, log, days[i]);
  }

  lemma {:induction false} NothingBeforeFirst(legs: seq<Leg>, keyOf: Leg -> string, rules: Rules, entry: int,
                                              entryDate: int, expiry: int, log: seq<Snapshot>, i: nat)
    requires entry != 0 && FiresFirst(legs, keyOf, rules, entry, expiry, Window(log, entryDate, expiry), i)
    ensures NothingMet(legs, keyOf, rules, entry, entryDate, expiry, log, Window(log, entryDate, expiry)[i].at)
  {
    var days := Window(log, entryDate, expiry);
    WindowMeans(log, entryDate, expiry);
    assert forall k | i < k < |days| :: DayOrder(days[i], days[k]);
    NothingMetBefore(legs, keyOf, rules, entry, entryDate, expiry, log, i, days[i].at);
  }

  lemma {:induction false} ExitOfDay(legs: seq<Leg>, keyOf: Leg -> string, rules: Rules, entry: int, entryDate: int,
                                     expiry: int, log: seq<Snapshot>, d: Snapshot)
    requires entry != 0 && DayExit(legs, keyOf, rules, entry, expiry, d).Some?
    requires d in log && entryDate < d.at <= expiry
    requires NothingMet(legs, keyOf, rules, entry, entryDate, expiry, log, d.at)
    ensures RuleExit(legs, keyOf, rules, entry, entryDate, expiry, log,
                     DayExit(legs, keyOf, rules, entry, expiry, d).value)
  {
    DayMeans(legs, keyOf, rules, entry, expiry, d);
    assert PricedDay(legs, keyOf, log, entryDate, expiry, d, DayExit(legs, keyOf, rules, entry, expiry, d).value.net);
  }

  lemma {:induction false} NoExitMeans(legs: seq<Leg>, keyOf: Leg -> string, rules: Rules, entry: int, entryDate: int,
                                       expiry: int, log: seq<Snapshot>)
    requires entry != 0 && FirstExit(legs, keyOf, rules, entry, expiry, Window(log, entryDate, expiry)).None?
    ensures NothingMet(legs, keyOf, rules, entry, entryDate, expiry, log, expiry + 1)
  {
    var days := Window(log, entryDate, expiry);
    NoExitNoTrigger(legs, keyOf, rules, entry, expiry, days);
    NothingMetBefore(legs, keyOf, rules, entry, entryDate, expiry, log, |days|, expiry + 1);
  }

  /** What the replay returns, for every marks file: the first day a rule is met, with the
      stop asked before the target and the target before the time stop; or, if no day
      meets one, what the structure is worth at expiry when the close is known. */
  lemma {:induction false} PolicyMeans(legs: seq<Leg>, keyOf: Leg -> string, rules: Rules, entry: int, entryDate: int,
                                       expiry: int, log: seq<Snapshot>, close: Option<int>)
    requires entry != 0
    ensures match Policy(legs, keyOf, rules, entry, entryDate, expiry, log, close)
      case None => close.None? && NothingMet(legs, keyOf, rules, entry, entryDate, expiry, log, expiry + 1)
      case Some(e) =>
        || RuleExit(legs, keyOf, rules, entry, entryDate, expiry, log, e)
        || (close.Some? && e == Exit(expiry, ValueAt(legs, close.value), AtExpiry)
            && NothingMet(legs, keyOf, rules, entry, entryDate, expiry, log, expiry + 1))
  {
    if FirstExit(legs, keyOf, rules, entry, expiry, Window(log, entryDate, expiry)).Some? {
      FirstExitMeans(legs, keyOf, rules, entry, entryDate, expiry, log);
    } else {
      NoExitMeans(legs, keyOf, rules, entry, entryDate, expiry, log);
    }
  }

  /** The two outcomes exclude each other, so the replay is told completely. */
  lemma {:induction false} RuleOrExpiry(legs: seq<Leg>, keyOf: Leg -> string, rules: Rules, entry: int, entryDate: int,
                                        expiry: int, log: seq<Snapshot>, e: Exit)
    requires RuleExit(legs, keyOf, rules, entry, entryDate, expiry, log, e)
    ensures !NothingMet(legs, keyOf, rules, entry, entryDate, expiry, log, expiry + 1)
  {
    var d :| PricedDay(legs, keyOf, log, entryDate, expiry, d, e.net) && d.at == e.at;
    assert d.at < expiry + 1;
  }
}
