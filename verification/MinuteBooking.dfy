/** What the minute replay books, against every price path its bars allow
    (`walk_intraday`, app/analytics/intraday_settlement.py). A stop is booked at the
    bar's worst value; a profit target and a session close are booked at its best. */
module MinuteBooking {
  import opened Basics
  import opened Seqs
  import opened OptionStructures
  import opened DailyReplay
  import opened MinuteReplay
  import opened MinutePessimism

  // ----------------------------------------------------------- one bar, every path

  /** Every leg has a bar, and no bar has its low above its high. */
  ghost predicate ProperBars(legs: seq<Leg>, keyOf: Leg -> string, bars: map<string, Bar>) {
    forall leg | leg in legs :: keyOf(leg) in bars && bars[keyOf(leg)].low <= bars[keyOf(leg)].high
  }

  /** Every leg traded at a single price. */
  ghost predicate OnePrice(legs: seq<Leg>, keyOf: Leg -> string, bars: map<string, Bar>) {
    forall leg | leg in legs && keyOf(leg) in bars :: bars[keyOf(leg)].low == bars[keyOf(leg)].high
  }

  /** A booked value no path inside the bars falls short of. */
  ghost predicate AtMostEveryPath(legs: seq<Leg>, keyOf: Leg -> string, bars: map<string, Bar>, net: int) {
    forall marks | InsideBars(legs, keyOf, bars, marks) ::
      NetAt(legs, marks, keyOf).Some? && net <= NetAt(legs, marks, keyOf).value
  }

  function Lows(bars: map<string, Bar>): map<string, int> {
    map k | k in bars :: bars[k].low
  }

  function Highs(bars: map<string, Bar>): map<string, int> {
    map k | k in bars :: bars[k].high
  }

  /** The two extreme paths: both reach the best value only if no leg moved. */
  lemma {:induction false} ExtremePaths(legs: seq<Leg>, keyOf: Leg -> string, bars: map<string, Bar>)
    requires ProperBars(legs, keyOf, bars)
    ensures var r := RangeAt(legs, bars, keyOf);
      var low, high := NetAt(legs, Lows(bars), keyOf), NetAt(legs, Highs(bars), keyOf);
      && r.Some? && low.Some? && high.Some?
      && low.value <= r.value.best && high.value <= r.value.best
      && (low.value == high.value == r.value.best ==> OnePrice(legs, keyOf, bars))
  {
    if legs != [] {
      var n := |legs| - 1;
      SplitLast(legs);
      ExtremePaths(legs[..n], keyOf, bars);
    }
  }

  lemma {:induction false} OnePriceRange(legs: seq<Leg>, keyOf: Leg -> string, bars: map<string, Bar>)
    requires OnePrice(legs, keyOf, bars)
    ensures var r := RangeAt(legs, bars, keyOf); r.Some? ==> r.value.worst == r.value.best
  {
    if legs != [] {
      SplitLast(legs);
      OnePriceRange(legs[..|legs|-1], keyOf, bars);
    }
  }

  lemma {:induction false} WorstIsAtMostEveryPath(legs: seq<Leg>, keyOf: Leg -> string, bars: map<string, Bar>)
    requires RangeAt(legs, bars, keyOf).Some?
    ensures AtMostEveryPath(legs, keyOf, bars, RangeAt(legs, bars, keyOf).value.worst)
  {
    forall marks | InsideBars(legs, keyOf, bars, marks)
      ensures NetAt(legs, marks, keyOf).Some?
           && RangeAt(legs, bars, keyOf).value.worst <= NetAt(legs, marks, keyOf).value
    {
      RangeBounds(legs, keyOf, bars, marks);
    }
  }

  /** The best value is a pessimistic price exactly when every leg traded at one price. */
  lemma {:induction false} BestIsPessimisticExactly(legs: seq<Leg>, keyOf: Leg -> string, bars: map<string, Bar>)
    requires ProperBars(legs, keyOf, bars)
    ensures RangeAt(legs, bars, keyOf).Some?
    ensures AtMostEveryPath(legs, keyOf, bars, RangeAt(legs, bars, keyOf).value.best)
       <==> OnePrice(legs, keyOf, bars)
  {
    ExtremePaths(legs, keyOf, bars);
    var best := RangeAt(legs, bars, keyOf).value.best;
    if AtMostEveryPath(legs, keyOf, bars, best) {
      assert InsideBars(legs, keyOf, bars, Lows(bars));
      assert InsideBars(legs, keyOf, bars, Highs(bars));
    }
    if OnePrice(legs, keyOf, bars) {
      OnePriceRange(legs, keyOf, bars);
      WorstIsAtMostEveryPath(legs, keyOf, bars);
    }
  }

  // ------------------------------------------------------------- where an exit is booked

  /** No minute from j on, or none at all, has a price for every leg. */
  ghost predicate UnpricedFrom(legs: seq<Leg>, keyOf: Leg -> string, minutes: seq<Minute>, j: nat) {
    forall k | j <= k < |minutes| :: RangeAt(legs, minutes[k].bars, keyOf).None?
  }

  ghost predicate NeverFires(legs: seq<Leg>, keyOf: Leg -> string, rules: Rules, entry: int, minutes: seq<Minute>)
    requires entry != 0
  {
    forall k | 0 <= k < |minutes| :: MinuteExit(legs, keyOf, rules, entry, minutes[k]).None?
  }

  /** The exit is booked on minute j: by the first rule that fires, or, when none ever
      does, by the forced close on the last priced minute. */
  ghost predicate BookedAt(legs: seq<Leg>, keyOf: Leg -> string, rules: Rules, entry: int, minutes: seq<Minute>,
                           exit: Exit, j: nat)
    requires entry != 0
  {
    && j < |minutes| && exit.at == minutes[j].at
    && RangeAt(legs, minutes[j].bars, keyOf).Some?
    && var r := RangeAt(legs, minutes[j].bars, keyOf).value;
       match exit.reason
       case StopLoss | ProfitTarget =>
         && FirstToFire(legs, keyOf, rules, entry, minutes, j)
         && MinuteExit(legs, keyOf, rules, entry, minutes[j]) == Some(exit)
         && exit.net == if exit.reason == StopLoss then r.worst else r.best
       case SessionClose =>
         && exit.net == r.best && NeverFires(legs, keyOf, rules, entry, minutes)
         && UnpricedFrom(legs, keyOf, minutes, j + 1)
       case _ => false
  }

  /** While nothing fires, the value kept for a forced close is that of the last priced minute. */
  lemma {:induction false} LastPriced(legs: seq<Leg>, keyOf: Leg -> string, rules: Rules, entry: int,
                                      minutes: seq<Minute>) returns (j: int)
    requires entry != 0 && NeverFires(legs, keyOf, rules, entry, minutes)
    ensures var last := Scan(legs, keyOf, rules, entry, minutes).last;
      if last.None? then UnpricedFrom(legs, keyOf, minutes, 0)
      else 0 <= j && BookedAt(legs, keyOf, rules, entry, minutes, last.value, j) && last.value.reason == SessionClose
  {
    j := -1;
    NoExitNoFire(legs, keyOf, rules, entry, minutes);
    if minutes != [] {
      var n := |minutes| - 1;
      assert forall k | 0 <= k < n :: minutes[..n][k] == minutes[k];
      NoExitNoFire(legs, keyOf, rules, entry, minutes[..n]);
      j := LastPriced(legs, keyOf, rules, entry, minutes[..n]);
      if RangeAt(legs, minutes[n].bars, keyOf).Some? {
        j := n;
      }
    }
  }

  /** Every exit the whole replay returns is booked on one of its minutes. */
  lemma {:induction false} BookedSomewhere(legs: seq<Leg>, keyOf: Leg -> string, rules: Rules, entry: int,
                                           log: seq<Minute>, entryTs: Option<int>, sessionClose: bool) returns (j: nat)
    requires entry != 0 && Intraday(legs, keyOf, rules, entry, log, entryTs, sessionClose).0.Some?
    ensures BookedAt(legs, keyOf, rules, entry, MinuteWindow(log, entryTs),
                     Intraday(legs, keyOf, rules, entry, log, entryTs, sessionClose).0.value, j)
  {
    var minutes := MinuteWindow(log, entryTs);
    NoExitNoFire(legs, keyOf, rules, entry, minutes);
    if Scan(legs, keyOf, rules, entry, minutes).exit.Some? {
      j := FireIndex(legs, keyOf, rules, entry, minutes);
    } else {
      j := LastPriced(legs, keyOf, rules, entry, minutes);
    }
  }

  // ----------------------------------------------------------------- the whole replay

  /** Which exits are pessimistic: a booked value is at most the value of every path
      inside the bars of its minute exactly when it is a stop, or every leg's bar of
      that minute has one price. */
  lemma {:induction false} BookingIsPessimisticExactly(legs: seq<Leg>, keyOf: Leg -> string, rules: Rules, entry: int,
                                                       log: seq<Minute>, entryTs: Option<int>, sessionClose: bool)
    returns (j: nat)
    requires entry != 0 && Intraday(legs, keyOf, rules, entry, log, entryTs, sessionClose).0.Some?
    requires forall m | m in MinuteWindow(log, entryTs) && RangeAt(legs, m.bars, keyOf).Some? ::
               ProperBars(legs, keyOf, m.bars)
    ensures var minutes := MinuteWindow(log, entryTs);
      var exit := Intraday(legs, keyOf, rules, entry, log, entryTs, sessionClose).0.value;
      && BookedAt(legs, keyOf, rules, entry, minutes, exit, j)
      && (AtMostEveryPath(legs, keyOf, minutes[j].bars, exit.net)
          <==> exit.reason == StopLoss || OnePrice(legs, keyOf, minutes[j].bars))
  {
    j := BookedSomewhere(legs, keyOf, rules, entry, log, entryTs, sessionClose);
    var m := MinuteWindow(log, entryTs)[j];
    assert m in MinuteWindow(log, entryTs);
    WorstIsAtMostEveryPath(legs, keyOf, m.bars);
    BestIsPessimisticExactly(legs, keyOf, m.bars);
  }

  /** The exit of a run, if any, is booked at or below every path inside its minute's bars. */
  ghost predicate PessimisticRun(legs: seq<Leg>, keyOf: Leg -> string, rules: Rules, entry: int, log: seq<Minute>,
                                 entryTs: Option<int>, sessionClose: bool)
    requires entry != 0
  {
    var minutes, exit := MinuteWindow(log, entryTs), Intraday(legs, keyOf, rules, entry, log, entryTs, sessionClose).0;
    exit.Some? ==> exists j: nat ::
      && BookedAt(legs, keyOf, rules, entry, minutes, exit.value, j)
      && AtMostEveryPath(legs, keyOf, minutes[j].bars, exit.value.net)
  }

  /** The keys of a dict of minutes: no minute twice. */
  ghost predicate DistinctMinutes(log: seq<Minute>) {
    forall i, j | 0 <= i < j < |log| :: log[i].at != log[j].at
  }

  /** Entering at a minute of the log, the replay begins with it. */
  lemma {:induction false} BeginsAtEntry(log: seq<Minute>, m: Minute)
    requires DistinctMinutes(log) && m in log
    ensures MinuteWindow(log, Some(m.at)) != [] && MinuteWindow(log, Some(m.at))[0] == m
  {
    var kept := Filter((x: Minute) => FromEntry(x, Some(m.at)), log);
    var w := MinuteWindow(log, Some(m.at));
    MinuteOrderIsTotal();
    SortBySorted(MinuteOrder, kept);
    SortPermutes(MinuteOrder, kept);
    assert m in w;
    var i :| 0 <= i < |w| && w[i] == m;
    assert i == 0 || MinuteOrder(w[0], w[i]);
    assert w[0] in kept;
    SameMinute(log, w[0], m);
  }

  lemma {:induction false} SameMinute(log: seq<Minute>, x: Minute, y: Minute)
    requires DistinctMinutes(log) && x in log && y in log && x.at == y.at
    ensures x == y
  {
    var a :| 0 <= a < |log| && log[a] == x;
    var b :| 0 <= b < |log| && log[b] == y;
  }

  /** Rules that take whatever the minute offers at its best. */
  function TakeBest(r: Range, entry: int): Rules
    requires entry != 0
  {
    Rules(Some(Change(r.best, entry)), None, None)
  }

  lemma {:induction false} BestIsTaken(legs: seq<Leg>, keyOf: Leg -> string, entry: int, log: seq<Minute>, m: Minute,
                                       r: Range)
    requires entry != 0 && DistinctMinutes(log) && m in log && RangeAt(legs, m.bars, keyOf) == Some(r)
    requires PessimisticRun(legs, keyOf, TakeBest(r, entry), entry, log, Some(m.at), false)
    ensures AtMostEveryPath(legs, keyOf, m.bars, r.best)
  {
    var rules, minutes := TakeBest(r, entry), MinuteWindow(log, Some(m.at));
    BeginsAtEntry(log, m);
    assert MinuteExit(legs, keyOf, rules, entry, minutes[0]) == Some(Exit(m.at, r.best, ProfitTarget));
    NoExitNoFire(legs, keyOf, rules, entry, minutes);
    var i := FireIndex(legs, keyOf, rules, entry, minutes);
    assert i == 0;
  }

  lemma {:induction false} OnePriceIsPessimistic(legs: seq<Leg>, keyOf: Leg -> string, rules: Rules, entry: int,
                                                 log: seq<Minute>, entryTs: Option<int>, sessionClose: bool)
    requires entry != 0 && forall m | m in log && RangeAt(legs, m.bars, keyOf).Some? :: OnePrice(legs, keyOf, m.bars)
    requires forall m | m in log && RangeAt(legs, m.bars, keyOf).Some? :: ProperBars(legs, keyOf, m.bars)
    ensures PessimisticRun(legs, keyOf, rules, entry, log, entryTs, sessionClose)
  {
    SortPermutes(MinuteOrder, Filter((m: Minute) => FromEntry(m, entryTs), log));
    if Intraday(legs, keyOf, rules, entry, log, entryTs, sessionClose).0.Some? {
      var j := BookingIsPessimisticExactly(legs, keyOf, rules, entry, log, entryTs, sessionClose);
      assert MinuteWindow(log, entryTs)[j] in MinuteWindow(log, entryTs);
    }
  }

  /** Before any rules or entry time are chosen: all runs over a log are pessimistic exactly
      when every leg trades at one price in every priced minute. */
  lemma {:induction false} AlwaysPessimisticExactly(legs: seq<Leg>, keyOf: Leg -> string, entry: int, log: seq<Minute>)
    requires entry != 0 && DistinctMinutes(log)
    requires forall m | m in log && RangeAt(legs, m.bars, keyOf).Some? :: ProperBars(legs, keyOf, m.bars)
    ensures (forall rules, entryTs, sessionClose ::
               PessimisticRun(legs, keyOf, rules, entry, log, entryTs, sessionClose))
       <==> forall m | m in log && RangeAt(legs, m.bars, keyOf).Some? :: OnePrice(legs, keyOf, m.bars)
  {
    if forall m | m in log && RangeAt(legs, m.bars, keyOf).Some? :: OnePrice(legs, keyOf, m.bars) {
      forall rules, entryTs, sessionClose
        ensures PessimisticRun(legs, keyOf, rules, entry, log, entryTs, sessionClose)
      {
        OnePriceIsPessimistic(legs, keyOf, rules, entry, log, entryTs, sessionClose);
      }
    }
    if forall rules, entryTs, sessionClose :: PessimisticRun(legs, keyOf, rules, entry, log, entryTs, sessionClose) {
      forall m | m in log && RangeAt(legs, m.bars, keyOf).Some? ensures OnePrice(legs, keyOf, m.bars) {
        var r := RangeAt(legs, m.bars, keyOf).value;
        assert PessimisticRun(legs, keyOf, TakeBest(r, entry), entry, log, Some(m.at), false);
        BestIsTaken(legs, keyOf, entry, log, m, r);
        BestIsPessimisticExactly(legs, keyOf, m.bars);
      }
    }
  }

  /** No level is touched by the path at any minute before j. */
  ghost predicate UntouchedBefore(legs: seq<Leg>, keyOf: Leg -> string, rules: Rules, entry: int, minutes: seq<Minute>,
                                  path: seq<map<string, int>>, j: int)
    requires entry != 0 && |path| == |minutes|
  {
    forall i | 0 <= i < j && i < |minutes| :: !PathTouches(legs, keyOf, rules, entry, minutes[i], path[i])
  }

  /** What the replay's verdict says of a path that booked minute j. */
  ghost predicate VerdictHolds(legs: seq<Leg>, keyOf: Leg -> string, rules: Rules, entry: int, minutes: seq<Minute>,
                               path: seq<map<string, int>>, exit: Exit, j: nat)
    requires entry != 0 && |path| == |minutes|
  {
    && BookedAt(legs, keyOf, rules, entry, minutes, exit, j)
    && NetAt(legs, path[j], keyOf).Some?
    && UntouchedBefore(legs, keyOf, rules, entry, minutes, path, j)
    && var net := NetAt(legs, path[j], keyOf).value;
       match exit.reason
       case StopLoss => exit.net <= net
       case ProfitTarget => net <= exit.net && !PathStops(legs, keyOf, rules, entry, minutes[j], path[j])
       case _ => net <= exit.net && UntouchedBefore(legs, keyOf, rules, entry, minutes, path, |minutes|)
  }

  /** The whole replay against any path inside the bars. It exits no later than the
      path's own first trigger; a stop is booked at or below the path; a profit target
      means the path had not touched its stop; a session close means it touched neither
      level all session. Targets and closes are booked at or above the path. */
  lemma {:induction false} IntradayAgainstPath(legs: seq<Leg>, keyOf: Leg -> string, rules: Rules, entry: int,
                                               log: seq<Minute>, entryTs: Option<int>, sessionClose: bool,
                                               path: seq<map<string, int>>)
    requires entry != 0 && PathInside(legs, keyOf, MinuteWindow(log, entryTs), path)
    ensures var minutes := MinuteWindow(log, entryTs);
      match Intraday(legs, keyOf, rules, entry, log, entryTs, sessionClose).0
      case None =>
        && UntouchedBefore(legs, keyOf, rules, entry, minutes, path, |minutes|)
        && (sessionClose ==> UnpricedFrom(legs, keyOf, minutes, 0))
      case Some(exit) => exists j: nat :: VerdictHolds(legs, keyOf, rules, entry, minutes, path, exit, j)
  {
    var minutes := MinuteWindow(log, entryTs);
    forall i | 0 <= i < |minutes|
      ensures PathTouches(legs, keyOf, rules, entry, minutes[i], path[i]) ==>
                MinuteExit(legs, keyOf, rules, entry, minutes[i]).Some?
    {
      MinuteIsPessimistic(legs, keyOf, rules, entry, minutes[i], path[i]);
    }
    if Intraday(legs, keyOf, rules, entry, log, entryTs, sessionClose).0.Some? {
      var j := BookedSomewhere(legs, keyOf, rules, entry, log, entryTs, sessionClose);
      RangeBounds(legs, keyOf, minutes[j].bars, path[j]);
      MinuteIsPessimistic(legs, keyOf, rules, entry, minutes[j], path[j]);
      var exit := Intraday(legs, keyOf, rules, entry, log, entryTs, sessionClose).0.value;
      assert VerdictHolds(legs, keyOf, rules, entry, minutes, path, exit, j);
    } else {
      NoExitNoFire(legs, keyOf, rules, entry, minutes);
      var j := LastPriced(legs, keyOf, rules, entry, minutes);
    }
  }

  // ------------------------------------------------------------ both fills, concretely

  /** A profit target booked at twice what the path was worth when it reached it. */
  lemma {:induction false} TargetFillIsOptimistic(leg: Leg, keyOf: Leg -> string)
    requires IsLong(leg) && keyOf(leg) == "K"
    ensures var minute := Minute(1, map["K" := Bar(100, 300)]);
      var marks := map["K" := 200];
      var rules := Rules(Some(1.0), None, None);
      && InsideBars([leg], keyOf, minute.bars, marks)
      && PathTouches([leg], keyOf, rules, 100, minute, marks)
      && Intraday([leg], keyOf, rules, 100, [minute], None, false).0 == Some(Exit(1, 300, ProfitTarget))
      && NetAt([leg], marks, keyOf) == Some(200)
  {
    OneBar(leg, keyOf, 100, 300, 200);
    var minute, rules := Minute(1, map["K" := Bar(100, 300)]), Rules(Some(1.0), None, None);
    OneMinute(minute);
    assert Change(200, 100) == 1.0 && Change(300, 100) == 2.0;
    assert MinuteExit([leg], keyOf, rules, 100, minute) == Some(Exit(1, 300, ProfitTarget));
    OneScan([leg], keyOf, rules, 100, minute, Range(100, 300));
  }

  /** A session close booked above a path that touched no level. */
  lemma {:induction false} SessionCloseIsOptimistic(leg: Leg, keyOf: Leg -> string)
    requires IsLong(leg) && keyOf(leg) == "K"
    ensures var minute := Minute(1, map["K" := Bar(100, 140)]);
      var marks := map["K" := 110];
      var rules := Rules(Some(1.0), Some(0.5), None);
      && InsideBars([leg], keyOf, minute.bars, marks)
      && !PathTouches([leg], keyOf, rules, 100, minute, marks)
      && Intraday([leg], keyOf, rules, 100, [minute], None, true).0 == Some(Exit(1, 140, SessionClose))
      && NetAt([leg], marks, keyOf) == Some(110)
  {
    OneBar(leg, keyOf, 100, 140, 110);
    var minute, rules := Minute(1, map["K" := Bar(100, 140)]), Rules(Some(1.0), Some(0.5), None);
    OneMinute(minute);
    OneScan([leg], keyOf, rules, 100, minute, Range(100, 140));
    assert Change(110, 100) == 0.1 && Change(140, 100) == 0.4 && Change(100, 100) == 0.0;
  }

  lemma {:induction false} OneBar(leg: Leg, keyOf: Leg -> string, low: int, high: int, mark: int)
    requires IsLong(leg) && keyOf(leg) == "K"
    ensures RangeAt([leg], map["K" := Bar(low, high)], keyOf) == Some(Range(low, high))
    ensures NetAt([leg], map["K" := mark], keyOf) == Some(mark)
  {
    assert [leg][..0] == [];
  }

  lemma {:induction false} OneMinute(m: Minute)
    ensures MinuteWindow([m], None) == [m] && [m][..0] == []
  {
    assert [m][..0] == [];
    var kept := Filter((x: Minute) => FromEntry(x, None), [m]);
    assert kept == [m];
    assert kept[..0] == [];
  }

  lemma {:induction false} OneScan(legs: seq<Leg>, keyOf: Leg -> string, rules: Rules, entry: int, m: Minute, r: Range)
    requires entry != 0 && RangeAt(legs, m.bars, keyOf) == Some(r)
    ensures Scan(legs, keyOf, rules, entry, [m]) == See(START, rules, entry, m.at, r)
  {
    assert [m][..0] == [];
  }
}
