/** What the minute replay promises (app/analytics/intraday_settlement.py, module
    documentation): its rule exits come no later than any path's own, its excursions
    bound every path, and it does not look ahead. */
module MinutePessimism {
  import opened Basics
  import opened Seqs
  import opened OptionStructures
  import opened DailyReplay
  import opened MinuteReplay

  // ------------------------------------------------------------------ first trigger

  /** Minute i is the first of the list whose range reaches a level. */
  ghost predicate FirstToFire(legs: seq<Leg>, keyOf: Leg -> string, rules: Rules, entry: int, minutes: seq<Minute>,
                              i: nat)
    requires entry != 0
  {
    && i < |minutes| && MinuteExit(legs, keyOf, rules, entry, minutes[i]).Some?
    && forall k | 0 <= k < i :: MinuteExit(legs, keyOf, rules, entry, minutes[k]).None?
  }

  lemma {:induction false} NoExitNoFire(legs: seq<Leg>, keyOf: Leg -> string, rules: Rules, entry: int,
                                        minutes: seq<Minute>)
    requires entry != 0
    ensures Scan(legs, keyOf, rules, entry, minutes).exit.None?
       <==> forall i | 0 <= i < |minutes| :: MinuteExit(legs, keyOf, rules, entry, minutes[i]).None?
  {
    if minutes != [] {
      var n := |minutes| - 1;
      NoExitNoFire(legs, keyOf, rules, entry, minutes[..n]);
      assert forall i | 0 <= i < n :: minutes[..n][i] == minutes[i];
    }
  }

  /** The index the walk stopped at: the first minute that fires, with its exit. */
  lemma {:induction false} FireIndex(legs: seq<Leg>, keyOf: Leg -> string, rules: Rules, entry: int,
                                     minutes: seq<Minute>) returns (i: nat)
    requires entry != 0 && Scan(legs, keyOf, rules, entry, minutes).exit.Some?
    ensures FirstToFire(legs, keyOf, rules, entry, minutes, i)
    ensures Scan(legs, keyOf, rules, entry, minutes).exit == MinuteExit(legs, keyOf, rules, entry, minutes[i])
    ensures Scan(legs, keyOf, rules, entry, minutes) == Scan(legs, keyOf, rules, entry, minutes[..i+1])
  {
    var n := |minutes| - 1;
    if Scan(legs, keyOf, rules, entry, minutes[..n]).exit.Some? {
      i := FireIndex(legs, keyOf, rules, entry, minutes[..n]);
      assert forall k | 0 <= k <= i :: minutes[..n][k] == minutes[k];
      assert minutes[..n][..i+1] == minutes[..i+1];
    } else {
      NoExitNoFire(legs, keyOf, rules, entry, minutes[..n]);
      assert forall k | 0 <= k < n :: minutes[..n][k] == minutes[k];
      i := n;
      assert minutes[..n+1] == minutes;
    }
  }

  // -------------------------------------------------------------------- price paths

  /** One set of leg prices per minute, inside the bars wherever the structure is priced. */
  ghost predicate PathInside(legs: seq<Leg>, keyOf: Leg -> string, minutes: seq<Minute>, path: seq<map<string, int>>) {
    && |path| == |minutes|
    && forall i | 0 <= i < |minutes| && RangeAt(legs, minutes[i].bars, keyOf).Some? ::
         InsideBars(legs, keyOf, minutes[i].bars, path[i])
  }

  /** The path's own change since entry at a minute that prices it. */
  function PathChange(legs: seq<Leg>, keyOf: Leg -> string, entry: int, minute: Minute,
                      marks: map<string, int>): Option<real>
    requires entry != 0
  {
    if RangeAt(legs, minute.bars, keyOf).None? then None
    else match NetAt(legs, marks, keyOf)
      case None => None
      case Some(net) => Some(Change(net, entry))
  }

  predicate PathStops(legs: seq<Leg>, keyOf: Leg -> string, rules: Rules, entry: int, minute: Minute,
                      marks: map<string, int>)
    requires entry != 0
  {
    var c := PathChange(legs, keyOf, entry, minute, marks);
    c.Some? && StopHit(rules, c.value)
  }

  predicate PathTouches(legs: seq<Leg>, keyOf: Leg -> string, rules: Rules, entry: int, minute: Minute,
                        marks: map<string, int>)
    requires entry != 0
  {
    var c := PathChange(legs, keyOf, entry, minute, marks);
    c.Some? && (StopHit(rules, c.value) || TargetHit(rules, c.value))
  }

  /** A minute whose prices touch a level inside the bars fires in the walk as well;
      if the walk calls it a win the prices had not touched the stop. */
  lemma {:induction false} MinuteIsPessimistic(legs: seq<Leg>, keyOf: Leg -> string, rules: Rules, entry: int,
                                               m: Minute, marks: map<string, int>)
    requires entry != 0
    requires RangeAt(legs, m.bars, keyOf).Some? ==> InsideBars(legs, keyOf, m.bars, marks)
    ensures var e := MinuteExit(legs, keyOf, rules, entry, m);
      && (PathTouches(legs, keyOf, rules, entry, m, marks) ==> e.Some?)
      && (PathStops(legs, keyOf, rules, entry, m, marks) ==> e.Some? && e.value.reason == StopLoss)
      && (e.Some? ==> NetAt(legs, marks, keyOf).Some?)
      && (e.Some? && e.value.reason == StopLoss ==> e.value.net <= NetAt(legs, marks, keyOf).value)
      && (e.Some? && e.value.reason == ProfitTarget ==> e.value.net >= NetAt(legs, marks, keyOf).value)
  {
    if RangeAt(legs, m.bars, keyOf).Some? {
      RangeBounds(legs, keyOf, m.bars, marks);
      var r, net := RangeAt(legs, m.bars, keyOf).value, NetAt(legs, marks, keyOf).value;
      ChangeMonotone(r.worst, net, entry);
      ChangeMonotone(net, r.best, entry);
    }
  }

  /** The replay is pessimistic about every path the bars allow: it exits no later
      than the path's own first trigger, a stop is booked at or below the path's value,
      and a profit target means the path had not touched its stop by then. */
  lemma {:induction false} ReplayIsPessimistic(legs: seq<Leg>, keyOf: Leg -> string, rules: Rules, entry: int,
                                               minutes: seq<Minute>, path: seq<map<string, int>>)
    requires entry != 0 && PathInside(legs, keyOf, minutes, path)
    ensures var exit := Scan(legs, keyOf, rules, entry, minutes).exit;
      && (exit.None? ==> forall i | 0 <= i < |minutes| ::
                           !PathTouches(legs, keyOf, rules, entry, minutes[i], path[i]))
      && (exit.Some? ==> exists j: nat ::
            && FirstToFire(legs, keyOf, rules, entry, minutes, j)
            && exit == MinuteExit(legs, keyOf, rules, entry, minutes[j])
            && NetAt(legs, path[j], keyOf).Some?
            && (forall i | 0 <= i < j :: !PathTouches(legs, keyOf, rules, entry, minutes[i], path[i]))
            && (exit.value.reason == StopLoss ==> exit.value.net <= NetAt(legs, path[j], keyOf).value)
            && (exit.value.reason == ProfitTarget ==>
                  !PathStops(legs, keyOf, rules, entry, minutes[j], path[j])))
  {
    forall i | 0 <= i < |minutes|
      ensures PathTouches(legs, keyOf, rules, entry, minutes[i], path[i]) ==>
                MinuteExit(legs, keyOf, rules, entry, minutes[i]).Some?
    {
      MinuteIsPessimistic(legs, keyOf, rules, entry, minutes[i], path[i]);
    }
    NoExitNoFire(legs, keyOf, rules, entry, minutes);
    if Scan(legs, keyOf, rules, entry, minutes).exit.Some? {
      var j := FireIndex(legs, keyOf, rules, entry, minutes);
      MinuteIsPessimistic(legs, keyOf, rules, entry, minutes[j], path[j]);
      assert FirstToFire(legs, keyOf, rules, entry, minutes, j);
    }
  }

  // --------------------------------------------------------------------- excursions

  /** The extremes of the walk bound both ends of every minute it has seen, and
      are reached in one of them unless they are still zero. */
  ghost predicate Bounds(w: Walk, entry: int, ranges: seq<Range>)
    requires entry != 0
  {
    && w.mae <= 0.0 <= w.mfe
    && (forall i | 0 <= i < |ranges| ::
          w.mae <= Change(ranges[i].worst, entry) && Change(ranges[i].best, entry) <= w.mfe)
    && (w.mfe == 0.0 || exists i :: 0 <= i < |ranges| && Change(ranges[i].best, entry) == w.mfe)
    && (w.mae == 0.0 || exists i :: 0 <= i < |ranges| && Change(ranges[i].worst, entry) == w.mae)
  }

  /** Ranges of the priced minutes, in order. */
  function Ranges(legs: seq<Leg>, keyOf: Leg -> string, minutes: seq<Minute>): seq<Range> {
    if minutes == [] then []
    else
      var rest := Ranges(legs, keyOf, minutes[..|minutes|-1]);
      match RangeAt(legs, minutes[|minutes|-1].bars, keyOf)
      case None => rest
      case Some(r) => rest + [r]
  }

  lemma {:induction false} SeeBounds(w: Walk, rules: Rules, entry: int, at: int, r: Range, ranges: seq<Range>)
    requires entry != 0 && Bounds(w, entry, ranges)
    ensures Bounds(See(w, rules, entry, at, r), entry, ranges + [r])
  {
    var all, next := ranges + [r], See(w, rules, entry, at, r);
    assert all[|ranges|] == r;
    if next.mfe == w.mfe != 0.0 {
      var i :| 0 <= i < |ranges| && Change(ranges[i].best, entry) == w.mfe;
      assert all[i] == ranges[i];
    }
    if next.mae == w.mae != 0.0 {
      var i :| 0 <= i < |ranges| && Change(ranges[i].worst, entry) == w.mae;
      assert all[i] == ranges[i];
    }
  }

  /** While no exit has been taken the walk has seen every priced minute. */
  lemma {:induction false} ScanBoundsRanges(legs: seq<Leg>, keyOf: Leg -> string, rules: Rules, entry: int,
                                            minutes: seq<Minute>)
    requires entry != 0
    requires minutes != [] ==> Scan(legs, keyOf, rules, entry, minutes[..|minutes|-1]).exit.None?
    ensures var w := Scan(legs, keyOf, rules, entry, minutes);
      && w.seen == |Ranges(legs, keyOf, minutes)|
      && Bounds(w, entry, Ranges(legs, keyOf, minutes))
  {
    if minutes != [] {
      var n := |minutes| - 1;
      if n > 0 {
        NoExitNoFire(legs, keyOf, rules, entry, minutes[..n]);
        NoExitNoFire(legs, keyOf, rules, entry, minutes[..n][..n-1]);
        assert forall i | 0 <= i < n - 1 :: minutes[..n][..n-1][i] == minutes[..n][i];
      }
      ScanBoundsRanges(legs, keyOf, rules, entry, minutes[..n]);
      var r := RangeAt(legs, minutes[n].bars, keyOf);
      if r.Some? {
        SeeBounds(Scan(legs, keyOf, rules, entry, minutes[..n]), rules, entry, minutes[n].at, r.value,
                  Ranges(legs, keyOf, minutes[..n]));
      }
    }
  }

  lemma {:induction false} RangeListed(legs: seq<Leg>, keyOf: Leg -> string, minutes: seq<Minute>, i: nat)
    requires i < |minutes| && RangeAt(legs, minutes[i].bars, keyOf).Some?
    ensures RangeAt(legs, minutes[i].bars, keyOf).value in Ranges(legs, keyOf, minutes)
  {
    if i < |minutes| - 1 {
      RangeListed(legs, keyOf, minutes[..|minutes|-1], i);
    }
  }

  /** The minutes the walk looked at: all of them, or those up to its exit. */
  ghost predicate LookedAt(legs: seq<Leg>, keyOf: Leg -> string, rules: Rules, entry: int, minutes: seq<Minute>, i: int)
    requires entry != 0
  {
    0 <= i < |minutes|
    && forall k | 0 <= k < i :: MinuteExit(legs, keyOf, rules, entry, minutes[k]).None?
  }

  /** Everything up to a minute the walk looked at is a prefix it bounded. */
  lemma {:induction false} BoundsWhereLooked(legs: seq<Leg>, keyOf: Leg -> string, rules: Rules, entry: int,
                                             minutes: seq<Minute>, i: nat)
    requires entry != 0 && LookedAt(legs, keyOf, rules, entry, minutes, i)
    requires RangeAt(legs, minutes[i].bars, keyOf).Some?
    ensures var w, r := Scan(legs, keyOf, rules, entry, minutes), RangeAt(legs, minutes[i].bars, keyOf).value;
      w.mae <= Change(r.worst, entry) && Change(r.best, entry) <= w.mfe
  {
    var upto := minutes;
    NoExitNoFire(legs, keyOf, rules, entry, minutes);
    if Scan(legs, keyOf, rules, entry, minutes).exit.Some? {
      var j := FireIndex(legs, keyOf, rules, entry, minutes);
      upto := minutes[..j+1];
      assert i <= j;
    }
    var n := |upto| - 1;
    NoExitNoFire(legs, keyOf, rules, entry, upto[..n]);
    assert forall k | 0 <= k < n :: upto[..n][k] == minutes[k];
    ScanBoundsRanges(legs, keyOf, rules, entry, upto);
    assert upto[i] == minutes[i];
    RangeListed(legs, keyOf, upto, i);
  }

  /** MFE and MAE are bounds: at every priced minute the walk looked at, the change of
      any path inside the bars lies between the reported extremes. */
  lemma {:induction false} ExcursionBoundsEveryPath(legs: seq<Leg>, keyOf: Leg -> string, rules: Rules, entry: int,
                                                    minutes: seq<Minute>, i: nat, marks: map<string, int>)
    requires entry != 0 && LookedAt(legs, keyOf, rules, entry, minutes, i)
    requires RangeAt(legs, minutes[i].bars, keyOf).Some? && InsideBars(legs, keyOf, minutes[i].bars, marks)
    ensures NetAt(legs, marks, keyOf).Some?
    ensures var w, change := Scan(legs, keyOf, rules, entry, minutes), Change(NetAt(legs, marks, keyOf).value, entry);
      && w.mae <= change <= w.mfe
      && RoundTo(w.mae, 10000) <= RoundTo(change, 10000) <= RoundTo(w.mfe, 10000)
  {
    RangeBounds(legs, keyOf, minutes[i].bars, marks);
    BoundsWhereLooked(legs, keyOf, rules, entry, minutes, i);
    var r, net := RangeAt(legs, minutes[i].bars, keyOf).value, NetAt(legs, marks, keyOf).value;
    ChangeMonotone(r.worst, net, entry);
    ChangeMonotone(net, r.best, entry);
    var w := Scan(legs, keyOf, rules, entry, minutes);
    RoundMonotone(w.mae, Change(net, entry));
    RoundMonotone(Change(net, entry), w.mfe);
  }

  // ------------------------------------------------------------------------ causality

  predicate ByMinute(m: Minute, last: int) {
    m.at <= last
  }

  lemma {:induction false} MinuteOrderIsTotal()
    ensures TotalPreorder(MinuteOrder)
  {
  }

  lemma {:induction false} SplitAtMinute(minutes: seq<Minute>, last: int)
    requires Sorted(MinuteOrder, minutes)
    ensures minutes == Filter((m: Minute) => ByMinute(m, last), minutes)
                     + Filter((m: Minute) => !ByMinute(m, last), minutes)
  {
    SplitDownClosed(MinuteOrder, (m: Minute) => ByMinute(m, last), (m: Minute) => !ByMinute(m, last), minutes);
  }

  /** Cutting a sorted list right after the exit minute leaves the walk unchanged. */
  lemma {:induction false} CutAfterExit(legs: seq<Leg>, keyOf: Leg -> string, rules: Rules, entry: int,
                                        minutes: seq<Minute>)
    requires entry != 0 && Sorted(MinuteOrder, minutes)
    requires Scan(legs, keyOf, rules, entry, minutes).exit.Some?
    ensures var last := Scan(legs, keyOf, rules, entry, minutes).exit.value.at;
      Scan(legs, keyOf, rules, entry, Filter((m: Minute) => ByMinute(m, last), minutes))
      == Scan(legs, keyOf, rules, entry, minutes)
  {
    var last := Scan(legs, keyOf, rules, entry, minutes).exit.value.at;
    var past := Filter((m: Minute) => ByMinute(m, last), minutes);
    var future := Filter((m: Minute) => !ByMinute(m, last), minutes);
    SplitAtMinute(minutes, last);
    var i := FireIndex(legs, keyOf, rules, entry, minutes);
    forall k | |past| <= k < |minutes| ensures minutes[k].at > last {
      assert minutes[k] == future[k - |past|];
      assert future[k - |past|] in future;
    }
    assert past[i] == minutes[i];
    NoExitNoFire(legs, keyOf, rules, entry, past);
    ScanStops(legs, keyOf, rules, entry, past, future);
  }

  lemma {:induction false} MinuteWindowUntil(log: seq<Minute>, entryTs: Option<int>, last: int)
    ensures Filter((m: Minute) => ByMinute(m, last), MinuteWindow(log, entryTs))
         == MinuteWindow(Filter((m: Minute) => ByMinute(m, last), log), entryTs)
  {
    var p := (m: Minute) => ByMinute(m, last);
    var q := (m: Minute) => FromEntry(m, entryTs);
    MinuteOrderIsTotal();
    FilterOfSort(MinuteOrder, p, Filter(q, log));
    FiltersCommute(p, q, log);
  }

  /** No look-ahead: bars after the minute a rule fired change neither the exit nor
      the excursion. */
  lemma {:induction false} LaterBarsDoNotMatter(legs: seq<Leg>, keyOf: Leg -> string, rules: Rules, entry: int,
                                                log: seq<Minute>, other: seq<Minute>, entryTs: Option<int>,
                                                sessionClose: bool, last: int)
    requires entry != 0
    requires var exit := Scan(legs, keyOf, rules, entry, MinuteWindow(log, entryTs)).exit;
      exit.Some? && exit.value.at == last
    requires Filter((m: Minute) => ByMinute(m, last), log) == Filter((m: Minute) => ByMinute(m, last), other)
    ensures Intraday(legs, keyOf, rules, entry, other, entryTs, sessionClose)
         == Intraday(legs, keyOf, rules, entry, log, entryTs, sessionClose)
  {
    MinuteOrderIsTotal();
    var minutes, others := MinuteWindow(log, entryTs), MinuteWindow(other, entryTs);
    SortBySorted(MinuteOrder, Filter((m: Minute) => FromEntry(m, entryTs), log));
    SortBySorted(MinuteOrder, Filter((m: Minute) => FromEntry(m, entryTs), other));
    MinuteWindowUntil(log, entryTs, last);
    MinuteWindowUntil(other, entryTs, last);
    CutAfterExit(legs, keyOf, rules, entry, minutes);
    SplitAtMinute(others, last);
    ScanStops(legs, keyOf, rules, entry, Filter((m: Minute) => ByMinute(m, last), others),
              Filter((m: Minute) => !ByMinute(m, last), others));
  }
}
