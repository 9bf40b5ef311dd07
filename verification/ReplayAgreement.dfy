/** On bars with a single price the minute replay and the daily replay
    (app/analytics/intraday_settlement.py against app/analytics/policy_settlement.py)
    are one rule, but for the time stop, which only the daily replay has. */
module ReplayAgreement {
  import opened Basics
  import opened Seqs
  import opened OptionStructures
  import opened DailyReplay
  import opened MinuteReplay

  /** A day's marks as bars that traded at one price. */
  function AsMinute(d: Snapshot): Minute {
    Minute(d.at, map k | k in d.marks :: Bar(d.marks[k], d.marks[k]))
  }

  function AsMinutes(days: seq<Snapshot>): (minutes: seq<Minute>)
    ensures |minutes| == |days|
  {
    if days == [] then [] else AsMinutes(days[..|days|-1]) + [AsMinute(days[|days|-1])]
  }

  lemma {:induction false} RangeOfMarks(legs: seq<Leg>, keyOf: Leg -> string, d: Snapshot)
    ensures RangeAt(legs, AsMinute(d).bars, keyOf)
         == match NetAt(legs, d.marks, keyOf) case None => None case Some(net) => Some(Range(net, net))
  {
    if legs != [] {
      RangeOfMarks(legs[..|legs|-1], keyOf, d);
    }
  }

  lemma {:induction false} SameDayExit(legs: seq<Leg>, keyOf: Leg -> string, rules: Rules, entry: int, expiry: int,
                                       d: Snapshot)
    requires entry != 0 && rules.timeStop.None?
    ensures MinuteExit(legs, keyOf, rules, entry, AsMinute(d)) == DayExit(legs, keyOf, rules, entry, expiry, d)
  {
    RangeOfMarks(legs, keyOf, d);
  }

  lemma {:induction false} SameExit(legs: seq<Leg>, keyOf: Leg -> string, rules: Rules, entry: int, expiry: int,
                                    days: seq<Snapshot>)
    requires entry != 0 && rules.timeStop.None?
    ensures Scan(legs, keyOf, rules, entry, AsMinutes(days)).exit
         == FirstExit(legs, keyOf, rules, entry, expiry, days)
  {
    if days != [] {
      var n := |days| - 1;
      assert AsMinutes(days)[..n] == AsMinutes(days[..n]);
      SameExit(legs, keyOf, rules, entry, expiry, days[..n]);
      SameDayExit(legs, keyOf, rules, entry, expiry, days[n]);
    }
  }

  lemma {:induction false} FilterAsMinutes(p: Snapshot -> bool, q: Minute -> bool, days: seq<Snapshot>)
    requires forall d | d in days :: p(d) <==> q(AsMinute(d))
    ensures Filter(q, AsMinutes(days)) == AsMinutes(Filter(p, days))
  {
    if days != [] {
      var n := |days| - 1;
      FilterAsMinutes(p, q, days[..n]);
      FilterSnoc(q, AsMinutes(days[..n]), AsMinute(days[n]));
      assert days[n] in days;
      if p(days[n]) {
        AsMinutesSnoc(Filter(p, days[..n]), days[n]);
      }
    }
  }

  lemma {:induction false} AsMinutesSnoc(days: seq<Snapshot>, d: Snapshot)
    ensures AsMinutes(days + [d]) == AsMinutes(days) + [AsMinute(d)]
  {
    assert (days + [d])[..|days + [d]| - 1] == days;
  }

  lemma {:induction false} InsertAsMinutes(days: seq<Snapshot>, d: Snapshot)
    ensures Insert(MinuteOrder, AsMinutes(days), AsMinute(d)) == AsMinutes(Insert(DayOrder, days, d))
    decreases |days|
  {
    if days == [] || DayOrder(days[|days|-1], d) {
      AsMinutesSnoc(days, d);
    } else {
      var n := |days| - 1;
      assert AsMinutes(days)[..n] == AsMinutes(days[..n]);
      InsertAsMinutes(days[..n], d);
      AsMinutesSnoc(Insert(DayOrder, days[..n], d), days[n]);
    }
  }

  lemma {:induction false} SortAsMinutes(days: seq<Snapshot>)
    ensures SortBy(MinuteOrder, AsMinutes(days)) == AsMinutes(SortBy(DayOrder, days))
  {
    if days != [] {
      var n := |days| - 1;
      assert AsMinutes(days)[..n] == AsMinutes(days[..n]);
      SortAsMinutes(days[..n]);
      InsertAsMinutes(SortBy(DayOrder, days[..n]), days[n]);
    }
  }

  // -------------------------------------------------------------------- time stops

  /** The same rules without the one only the daily replay has. */
  function WithoutTimeStop(rules: Rules): Rules {
    rules.(timeStop := None)
  }

  /** A time stop changes a day's verdict only where the other two rules are silent. */
  lemma {:induction false} DayWithoutTimeStop(legs: seq<Leg>, keyOf: Leg -> string, rules: Rules, entry: int,
                                              expiry: int, d: Snapshot)
    requires entry != 0
    ensures var e, e' := DayExit(legs, keyOf, rules, entry, expiry, d),
                         DayExit(legs, keyOf, WithoutTimeStop(rules), entry, expiry, d);
      e' == if e.Some? && e.value.reason == TimeStop then None else e
  {
  }

  /** Neither replay of the minutes looks at a time stop. */
  lemma {:induction false} ScanIgnoresTimeStop(legs: seq<Leg>, keyOf: Leg -> string, rules: Rules, entry: int,
                                               minutes: seq<Minute>)
    requires entry != 0
    ensures Scan(legs, keyOf, WithoutTimeStop(rules), entry, minutes) == Scan(legs, keyOf, rules, entry, minutes)
  {
    if minutes != [] {
      ScanIgnoresTimeStop(legs, keyOf, rules, entry, minutes[..|minutes|-1]);
    }
  }

  /** The daily replay left on day i of the list, on time; without the time stop the
      days after it decide. */
  ghost predicate TimeStoppedOn(legs: seq<Leg>, keyOf: Leg -> string, rules: Rules, entry: int, expiry: int,
                                days: seq<Snapshot>, i: nat)
    requires entry != 0
  {
    && FiresFirst(legs, keyOf, rules, entry, expiry, days, i)
    && FirstExit(legs, keyOf, rules, entry, expiry, days) == DayExit(legs, keyOf, rules, entry, expiry, days[i])
    && FirstExit(legs, keyOf, WithoutTimeStop(rules), entry, expiry, days)
       == FirstExit(legs, keyOf, WithoutTimeStop(rules), entry, expiry, days[i+1..])
  }

  /** Dropping the time stop keeps every other exit, and where the time stop fired it
      leaves the walk to the days after it. */
  lemma {:induction false} ExitWithoutTimeStop(legs: seq<Leg>, keyOf: Leg -> string, rules: Rules, entry: int,
                                               expiry: int, days: seq<Snapshot>)
    requires entry != 0
    ensures var daily := FirstExit(legs, keyOf, rules, entry, expiry, days);
      var plain := FirstExit(legs, keyOf, WithoutTimeStop(rules), entry, expiry, days);
      if daily.Some? && daily.value.reason == TimeStop then
        exists i: nat :: TimeStoppedOn(legs, keyOf, rules, entry, expiry, days, i)
      else plain == daily
  {
    forall k | 0 <= k < |days| {
      DayWithoutTimeStop(legs, keyOf, rules, entry, expiry, days[k]);
    }
    NoExitNoTrigger(legs, keyOf, rules, entry, expiry, days);
    NoExitNoTrigger(legs, keyOf, WithoutTimeStop(rules), entry, expiry, days);
    if FirstExit(legs, keyOf, rules, entry, expiry, days).Some? {
      var i := TriggerIndex(legs, keyOf, rules, entry, expiry, days);
      if DayExit(legs, keyOf, rules, entry, expiry, days[i]).value.reason == TimeStop {
        var past := days[..i+1];
        assert forall k | 0 <= k <= i :: past[k] == days[k];
        NoExitNoTrigger(legs, keyOf, WithoutTimeStop(rules), entry, expiry, past);
        FirstExitOfPrefix(legs, keyOf, WithoutTimeStop(rules), entry, expiry, past, days[i+1..]);
        SplitAt(days, i + 1);
        assert TimeStoppedOn(legs, keyOf, rules, entry, expiry, days, i);
      } else {
        assert FiresFirst(legs, keyOf, WithoutTimeStop(rules), entry, expiry, days, i);
        StopsAtFirstTrigger(legs, keyOf, WithoutTimeStop(rules), entry, expiry, days, i);
      }
    }
  }

  /** The minute replay of the daily marks is the daily replay without its time stop. */
  lemma {:induction false} MinutesAreDaysWithoutTimeStop(legs: seq<Leg>, keyOf: Leg -> string, rules: Rules, entry: int,
                                                         entryDate: int, expiry: int, log: seq<Snapshot>)
    requires entry != 0 && forall d | d in log :: d.at <= expiry
    ensures Intraday(legs, keyOf, rules, entry, AsMinutes(log), Some(entryDate + 1), false).0
         == FirstExit(legs, keyOf, WithoutTimeStop(rules), entry, expiry, Window(log, entryDate, expiry))
  {
    WindowAsMinutes(log, entryDate, expiry);
    var days := Window(log, entryDate, expiry);
    ScanIgnoresTimeStop(legs, keyOf, rules, entry, AsMinutes(days));
    SameExit(legs, keyOf, WithoutTimeStop(rules), entry, expiry, days);
  }

  /** The keys of a dict of days: no date twice. */
  ghost predicate DistinctDates(log: seq<Snapshot>) {
    forall i, j | 0 <= i < j < |log| :: log[i].at != log[j].at
  }

  lemma {:induction false} DistinctOnce(log: seq<Snapshot>, d: Snapshot)
    requires DistinctDates(log)
    ensures multiset(log)[d] <= 1
  {
    if log != [] {
      var n := |log| - 1;
      SplitLast(log);
      DistinctOnce(log[..n], d);
      assert multiset(log) == multiset(log[..n]) + multiset{log[n]};
    }
  }

  lemma {:induction false} TwicePresent(days: seq<Snapshot>, i: nat, j: nat)
    requires i < j < |days| && days[i] == days[j]
    ensures multiset(days)[days[i]] >= 2
  {
    SplitAt(days, j);
    assert days[..j][i] == days[i] && days[j..][0] == days[j];
    assert multiset(days) == multiset(days[..j]) + multiset(days[j..]);
  }

  /** The replayed days of a dict are strictly ascending. */
  lemma {:induction false} WindowAscends(log: seq<Snapshot>, entryDate: int, expiry: int, i: nat, j: nat)
    requires i < j < |Window(log, entryDate, expiry)|
    ensures var days := Window(log, entryDate, expiry);
      days[i].at <= days[j].at && (DistinctDates(log) ==> days[i].at < days[j].at)
  {
    var p := (d: Snapshot) => InWindow(d, entryDate, expiry);
    var kept := Filter(p, log);
    var days := Window(log, entryDate, expiry);
    DayOrderIsTotal();
    SortBySorted(DayOrder, kept);
    SortPermutes(DayOrder, kept);
    assert DayOrder(days[i], days[j]);
    assert days[i] in kept && days[j] in kept;
    if DistinctDates(log) && days[i].at == days[j].at {
      var a :| 0 <= a < |log| && log[a] == days[i];
      var b :| 0 <= b < |log| && log[b] == days[j];
      assert days[i] == days[j];
      TwicePresent(days, i, j);
      FilterCount(p, log, days[i]);
      DistinctOnce(log, days[i]);
    }
  }

  /** After a time stop the minute replay exits, if at all, on a later day of the list. */
  lemma {:induction false} NoEarlierExit(legs: seq<Leg>, keyOf: Leg -> string, rules: Rules, entry: int, entryDate: int,
                                         expiry: int, log: seq<Snapshot>)
    requires entry != 0
    ensures var days := Window(log, entryDate, expiry);
      var daily := FirstExit(legs, keyOf, rules, entry, expiry, days);
      var plain := FirstExit(legs, keyOf, WithoutTimeStop(rules), entry, expiry, days);
      daily.Some? && daily.value.reason == TimeStop && plain.Some? ==>
        && daily.value.at <= plain.value.at
        && (DistinctDates(log) ==> daily.value.at < plain.value.at)
  {
    var days := Window(log, entryDate, expiry);
    ExitWithoutTimeStop(legs, keyOf, rules, entry, expiry, days);
    if i: nat :| TimeStoppedOn(legs, keyOf, rules, entry, expiry, days, i) {
      var later := LaterExit(legs, keyOf, rules, entry, expiry, days, i);
      if i < later < |days| {
        WindowAscends(log, entryDate, expiry, i, later);
      }
    }
  }

  lemma {:induction false} LaterExit(legs: seq<Leg>, keyOf: Leg -> string, rules: Rules, entry: int, expiry: int,
                                     days: seq<Snapshot>, i: nat) returns (later: nat)
    requires entry != 0 && TimeStoppedOn(legs, keyOf, rules, entry, expiry, days, i)
    ensures var daily := FirstExit(legs, keyOf, rules, entry, expiry, days);
      daily.Some? && daily.value.at == days[i].at
    ensures var plain := FirstExit(legs, keyOf, WithoutTimeStop(rules), entry, expiry, days);
      plain.Some? ==> i < later < |days| && plain.value.at == days[later].at
  {
    later := 0;
    if FirstExit(legs, keyOf, WithoutTimeStop(rules), entry, expiry, days[i+1..]).Some? {
      var j := TriggerIndex(legs, keyOf, WithoutTimeStop(rules), entry, expiry, days[i+1..]);
      assert days[i+1..][j] == days[i + 1 + j];
      later := i + 1 + j;
    }
  }

  /** For any rules, with nothing marked after expiry: feeding the daily marks to the
      minute replay from the day after entry gives the daily replay's verdict (same
      date, same net, same reason, or no exit in either) unless the daily replay stops
      on time. Then the minute replay has no exit before that date, nor on it when no
      date occurs twice. */
  lemma {:induction false} ReplaysAgree(legs: seq<Leg>, keyOf: Leg -> string, rules: Rules, entry: int, entryDate: int,
                                        expiry: int, log: seq<Snapshot>)
    requires forall d | d in log :: d.at <= expiry
    ensures var minute := Intraday(legs, keyOf, rules, entry, AsMinutes(log), Some(entryDate + 1), false).0;
      var daily := Policy(legs, keyOf, rules, entry, entryDate, expiry, log, None);
      if daily.Some? && daily.value.reason == TimeStop then
        minute.Some? ==>
          && daily.value.at <= minute.value.at
          && (DistinctDates(log) ==> daily.value.at < minute.value.at)
      else minute == daily
  {
    if entry != 0 {
      MinutesAreDaysWithoutTimeStop(legs, keyOf, rules, entry, entryDate, expiry, log);
      ExitWithoutTimeStop(legs, keyOf, rules, entry, expiry, Window(log, entryDate, expiry));
      NoEarlierExit(legs, keyOf, rules, entry, entryDate, expiry, log);
    }
  }

  // ------------------------------------------------------------- when the exits are equal

  /** Day i is priced and due, and no level is met on it or before it. */
  ghost predicate DueFirst(legs: seq<Leg>, keyOf: Leg -> string, rules: Rules, entry: int, expiry: int,
                           days: seq<Snapshot>, i: int)
    requires entry != 0
  {
    && 0 <= i < |days| && NetAt(legs, days[i].marks, keyOf).Some? && TimeHit(rules, expiry - days[i].at)
    && forall k | 0 <= k <= i :: !LevelMet(legs, keyOf, rules, entry, days[k])
  }

  /** A day is priced at a level. */
  predicate LevelMet(legs: seq<Leg>, keyOf: Leg -> string, rules: Rules, entry: int, d: Snapshot)
    requires entry != 0
  {
    match NetAt(legs, d.marks, keyOf)
    case None => false
    case Some(net) => StopHit(rules, Change(net, entry)) || TargetHit(rules, Change(net, entry))
  }

  lemma {:induction false} TimeStopExactly(legs: seq<Leg>, keyOf: Leg -> string, rules: Rules, entry: int, expiry: int,
                                           days: seq<Snapshot>)
    requires entry != 0
    ensures var daily := FirstExit(legs, keyOf, rules, entry, expiry, days);
      (daily.Some? && daily.value.reason == TimeStop)
      <==> exists i :: DueFirst(legs, keyOf, rules, entry, expiry, days, i)
  {
    var daily := FirstExit(legs, keyOf, rules, entry, expiry, days);
    NoExitNoTrigger(legs, keyOf, rules, entry, expiry, days);
    if daily.Some? {
      var i := TriggerIndex(legs, keyOf, rules, entry, expiry, days);
      if daily.value.reason == TimeStop {
        assert DueFirst(legs, keyOf, rules, entry, expiry, days, i);
      }
      assert forall j | DueFirst(legs, keyOf, rules, entry, expiry, days, j) :: i <= j;
    }
  }

  /** The two exits are equal exactly when no priced day is due for the time stop before, or
      on the same day as, the first level is met. */
  lemma {:induction false} ExitsEqualExactly(legs: seq<Leg>, keyOf: Leg -> string, rules: Rules, entry: int,
                                             entryDate: int, expiry: int, log: seq<Snapshot>)
    requires entry != 0 && forall d | d in log :: d.at <= expiry
    ensures Intraday(legs, keyOf, rules, entry, AsMinutes(log), Some(entryDate + 1), false).0
         == Policy(legs, keyOf, rules, entry, entryDate, expiry, log, None)
       <==> forall i :: !DueFirst(legs, keyOf, rules, entry, expiry, Window(log, entryDate, expiry), i)
  {
    var days := Window(log, entryDate, expiry);
    ReplaysAgree(legs, keyOf, rules, entry, entryDate, expiry, log);
    TimeStopExactly(legs, keyOf, rules, entry, expiry, days);
    MinutesAreDaysWithoutTimeStop(legs, keyOf, rules, entry, entryDate, expiry, log);
    NeverTimeStop(legs, keyOf, rules, entry, expiry, days);
  }

  lemma {:induction false} NeverTimeStop(legs: seq<Leg>, keyOf: Leg -> string, rules: Rules, entry: int, expiry: int,
                                         days: seq<Snapshot>)
    requires entry != 0
    ensures var plain := FirstExit(legs, keyOf, WithoutTimeStop(rules), entry, expiry, days);
      plain.Some? ==> plain.value.reason != TimeStop
  {
    if FirstExit(legs, keyOf, WithoutTimeStop(rules), entry, expiry, days).Some? {
      var i := TriggerIndex(legs, keyOf, WithoutTimeStop(rules), entry, expiry, days);
    }
  }

  // --------------------------------------------------------------------------- endings

  /** The forced close: the value of the last priced day. */
  function LastMark(legs: seq<Leg>, keyOf: Leg -> string, days: seq<Snapshot>): Option<Exit> {
    if days == [] then None
    else
      var d := days[|days|-1];
      match NetAt(legs, d.marks, keyOf)
      case Some(net) => Some(Exit(d.at, net, SessionClose))
      case None => LastMark(legs, keyOf, days[..|days|-1])
  }

  lemma {:induction false} ScanEndsAtLastMark(legs: seq<Leg>, keyOf: Leg -> string, rules: Rules, entry: int,
                                              days: seq<Snapshot>)
    requires entry != 0 && Scan(legs, keyOf, rules, entry, AsMinutes(days)).exit.None?
    ensures Scan(legs, keyOf, rules, entry, AsMinutes(days)).last == LastMark(legs, keyOf, days)
  {
    if days != [] {
      var n := |days| - 1;
      assert AsMinutes(days)[..n] == AsMinutes(days[..n]);
      RangeOfMarks(legs, keyOf, days[n]);
      ScanEndsAtLastMark(legs, keyOf, rules, entry, days[..n]);
    }
  }

  /** Where no rule fires the endings differ: a forced close takes the value of the last
      priced day, the daily replay settles at expiry. */
  lemma {:induction false} EndingsCompared(legs: seq<Leg>, keyOf: Leg -> string, rules: Rules, entry: int,
                                           entryDate: int, expiry: int, log: seq<Snapshot>, close: int)
    requires entry != 0 && forall d | d in log :: d.at <= expiry
    requires Policy(legs, keyOf, rules, entry, entryDate, expiry, log, None) == None
    ensures Intraday(legs, keyOf, rules, entry, AsMinutes(log), Some(entryDate + 1), true).0
         == LastMark(legs, keyOf, Window(log, entryDate, expiry))
    ensures Policy(legs, keyOf, rules, entry, entryDate, expiry, log, Some(close))
         == Some(Exit(expiry, ValueAt(legs, close), AtExpiry))
  {
    var days := Window(log, entryDate, expiry);
    ReplaysAgree(legs, keyOf, rules, entry, entryDate, expiry, log);
    WindowAsMinutes(log, entryDate, expiry);
    ScanEndsAtLastMark(legs, keyOf, rules, entry, days);
  }

  lemma {:induction false} WindowAsMinutes(log: seq<Snapshot>, entryDate: int, expiry: int)
    requires forall d | d in log :: d.at <= expiry
    ensures MinuteWindow(AsMinutes(log), Some(entryDate + 1)) == AsMinutes(Window(log, entryDate, expiry))
  {
    var p := (d: Snapshot) => InWindow(d, entryDate, expiry);
    var q := (m: Minute) => FromEntry(m, Some(entryDate + 1));
    FilterAsMinutes(p, q, log);
    SortAsMinutes(Filter(p, log));
  }
}
