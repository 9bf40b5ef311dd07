/** What the minute replay returns, exit and excursion, told on the minutes it looked at
    (`walk_intraday`, app/analytics/intraday_settlement.py). */
module MinuteMeaning {
  import opened Basics
  import opened Seqs
  import opened OptionStructures
  import opened DailyReplay
  import opened MinuteReplay
  import opened MinutePessimism
  import opened ReplayMeaning

  // --------------------------------------------------------------------- the minutes

  /** The minutes of the session from the entry on, ascending. */
  lemma {:induction false} MinutesMean(log: seq<Minute>, entryTs: Option<int>)
    ensures forall m :: m in MinuteWindow(log, entryTs) <==> m in log && (entryTs.Some? ==> m.at >= entryTs.value)
    ensures Sorted(MinuteOrder, MinuteWindow(log, entryTs))
  {
    var kept := Filter((m: Minute) => FromEntry(m, entryTs), log);
    SortPermutes(MinuteOrder, kept);
    SameElements(MinuteWindow(log, entryTs), kept);
    MinuteOrderIsTotal();
    SortBySorted(MinuteOrder, kept);
  }

  /** Worst and best value of a minute on which every leg traded. */
  predicate Priced(legs: seq<Leg>, keyOf: Leg -> string, m: Minute, worst: int, best: int) {
    RangeAt(legs, m.bars, keyOf) == Some(Range(worst, best))
  }

  /** Neither level is met in this minute: the stop on its worst value, the target on its
      best. */
  ghost predicate Untouched(legs: seq<Leg>, keyOf: Leg -> string, rules: Rules, entry: int, m: Minute) {
    forall r | RangeAt(legs, m.bars, keyOf) == Some(r) ::
      !AtStop(rules, entry, r.worst) && !AtTarget(rules, entry, r.best)
  }

  lemma {:induction false} MinuteExitMeans(legs: seq<Leg>, keyOf: Leg -> string, rules: Rules, entry: int, m: Minute)
    requires entry != 0
    ensures MinuteExit(legs, keyOf, rules, entry, m).None? <==> Untouched(legs, keyOf, rules, entry, m)
    ensures MinuteExit(legs, keyOf, rules, entry, m).Some? ==>
              var e, r := MinuteExit(legs, keyOf, rules, entry, m).value, RangeAt(legs, m.bars, keyOf);
              r.Some? && if AtStop(rules, entry, r.value.worst) then e == Exit(m.at, r.value.worst, StopLoss)
                         else AtTarget(rules, entry, r.value.best) && e == Exit(m.at, r.value.best, ProfitTarget)
  {
    if RangeAt(legs, m.bars, keyOf).Some? {
      var r := RangeAt(legs, m.bars, keyOf).value;
      LevelsMean(rules, entry, r.worst);
      LevelsMean(rules, entry, r.best);
    }
  }

  /** The walk looked at the first n minutes: none of them but the last meets a level, and
      it went on while there were minutes and no level was met. */
  ghost predicate LookedAtFirst(legs: seq<Leg>, keyOf: Leg -> string, rules: Rules, entry: int, minutes: seq<Minute>,
                                n: nat)
  {
    && n <= |minutes|
    && (forall i | 0 <= i < n - 1 :: Untouched(legs, keyOf, rules, entry, minutes[i]))
    && (n < |minutes| ==> n > 0 && !Untouched(legs, keyOf, rules, entry, minutes[n-1]))
  }

  lemma {:induction false} LookedAtCount(legs: seq<Leg>, keyOf: Leg -> string, rules: Rules, entry: int,
                                         minutes: seq<Minute>) returns (n: nat)
    requires entry != 0
    ensures LookedAtFirst(legs, keyOf, rules, entry, minutes, n)
    ensures Scan(legs, keyOf, rules, entry, minutes) == Scan(legs, keyOf, rules, entry, minutes[..n])
    ensures n > 0 ==> Scan(legs, keyOf, rules, entry, minutes[..n-1]).exit.None?
    ensures Scan(legs, keyOf, rules, entry, minutes).exit
         == if n > 0 then MinuteExit(legs, keyOf, rules, entry, minutes[n-1]) else None
  {
    NoExitNoFire(legs, keyOf, rules, entry, minutes);
    if Scan(legs, keyOf, rules, entry, minutes).exit.Some? {
      var i := FireIndex(legs, keyOf, rules, entry, minutes);
      n := i + 1;
    } else {
      n := |minutes|;
      TakeAll(minutes);
    }
    QuietUpTo(legs, keyOf, rules, entry, minutes, n);
  }

  lemma {:induction false} QuietUpTo(legs: seq<Leg>, keyOf: Leg -> string, rules: Rules, entry: int,
                                     minutes: seq<Minute>, n: nat)
    requires entry != 0 && n <= |minutes|
    requires forall k | 0 <= k < n - 1 :: MinuteExit(legs, keyOf, rules, entry, minutes[k]).None?
    requires n < |minutes| ==> n > 0 && MinuteExit(legs, keyOf, rules, entry, minutes[n-1]).Some?
    ensures LookedAtFirst(legs, keyOf, rules, entry, minutes, n)
    ensures n > 0 ==> Scan(legs, keyOf, rules, entry, minutes[..n-1]).exit.None?
  {
    forall i | 0 <= i < |minutes| {
      MinuteExitMeans(legs, keyOf, rules, entry, minutes[i]);
    }
    if n > 0 {
      assert forall k | 0 <= k < n - 1 :: minutes[..n-1][k] == minutes[k];
      NoExitNoFire(legs, keyOf, rules, entry, minutes[..n-1]);
    }
  }

  // ---------------------------------------------------------------------- excursions

  /** Change since entry at the best value of a minute. */
  function Gain(legs: seq<Leg>, keyOf: Leg -> string, entry: int): Minute -> Option<real>
    requires entry != 0
  {
    (m: Minute) => match RangeAt(legs, m.bars, keyOf)
      case None => None
      case Some(r) => Some(Change(r.best, entry))
  }

  /** Change against the position at the worst value of a minute. */
  function Loss(legs: seq<Leg>, keyOf: Leg -> string, entry: int): Minute -> Option<real>
    requires entry != 0
  {
    (m: Minute) => match RangeAt(legs, m.bars, keyOf)
      case None => None
      case Some(r) => Some(-Change(r.worst, entry))
  }

  /** Minute i is the first to reach the greatest positive size. */
  predicate IsPeak(size: Minute -> Option<real>, minutes: seq<Minute>, i: int) {
    && 0 <= i < |minutes| && size(minutes[i]).Some? && size(minutes[i]).value > 0.0
    && (forall k | 0 <= k < |minutes| && size(minutes[k]).Some? :: size(minutes[k]).value <= size(minutes[i]).value)
    && (forall k | 0 <= k < i && size(minutes[k]).Some? :: size(minutes[k]).value < size(minutes[i]).value)
  }

  /** The greatest size and the time it was first reached; zero and no time when none is
      positive. */
  ghost predicate Peak(size: Minute -> Option<real>, minutes: seq<Minute>, top: real, at: Option<int>) {
    match at
    case None => top == 0.0 && forall k | 0 <= k < |minutes| && size(minutes[k]).Some? :: size(minutes[k]).value <= 0.0
    case Some(t) => exists i :: IsPeak(size, minutes, i) && top == size(minutes[i]).value && t == minutes[i].at
  }

  lemma {:induction false} PeakNext(size: Minute -> Option<real>, minutes: seq<Minute>, top: real, at: Option<int>,
                                    m: Minute)
    requires Peak(size, minutes, top, at)
    ensures var v := size(m);
      if v.Some? && v.value > top then Peak(size, minutes + [m], v.value, Some(m.at))
      else Peak(size, minutes + [m], top, at)
  {
    var all, v := minutes + [m], size(m);
    assert forall k | 0 <= k < |minutes| :: all[k] == minutes[k];
    if v.Some? && v.value > top {
      assert IsPeak(size, all, |minutes|);
    } else if at.Some? {
      var i :| IsPeak(size, minutes, i) && top == size(minutes[i]).value && at.value == minutes[i].at;
      assert IsPeak(size, all, i);
    }
  }

  predicate IsPriced(legs: seq<Leg>, keyOf: Leg -> string, m: Minute) {
    RangeAt(legs, m.bars, keyOf).Some?
  }

  /** The running extremes of the walk over minutes it looked at. */
  ghost predicate Extremes(legs: seq<Leg>, keyOf: Leg -> string, entry: int, minutes: seq<Minute>, w: Walk)
    requires entry != 0
  {
    && Peak(Gain(legs, keyOf, entry), minutes, w.mfe, w.mfeAt)
    && Peak(Loss(legs, keyOf, entry), minutes, -w.mae, w.maeAt)
    && w.seen == CountIf((m: Minute) => IsPriced(legs, keyOf, m), minutes)
  }

  lemma {:induction false} QuietBefore(legs: seq<Leg>, keyOf: Leg -> string, rules: Rules, entry: int,
                                       minutes: seq<Minute>)
    requires entry != 0 && minutes != [] && Scan(legs, keyOf, rules, entry, minutes).exit.None?
    ensures Scan(legs, keyOf, rules, entry, minutes[..|minutes|-1]).exit.None?
  {
  }

  lemma {:induction false} ScanExtremes(legs: seq<Leg>, keyOf: Leg -> string, rules: Rules, entry: int,
                                        minutes: seq<Minute>)
    requires entry != 0
    requires minutes != [] ==> Scan(legs, keyOf, rules, entry, minutes[..|minutes|-1]).exit.None?
    ensures Extremes(legs, keyOf, entry, minutes, Scan(legs, keyOf, rules, entry, minutes))
  {
    if minutes != [] {
      var n := |minutes| - 1;
      if n > 0 {
        QuietBefore(legs, keyOf, rules, entry, minutes[..n]);
      }
      ScanExtremes(legs, keyOf, rules, entry, minutes[..n]);
      SplitLast(minutes);
      SeeExtremes(legs, keyOf, rules, entry, minutes[..n], Scan(legs, keyOf, rules, entry, minutes[..n]), minutes[n]);
    }
  }

  /** One more minute keeps the extremes right, whether it is priced or not. */
  lemma {:induction false} SeeExtremes(legs: seq<Leg>, keyOf: Leg -> string, rules: Rules, entry: int,
                                       minutes: seq<Minute>, w: Walk, m: Minute)
    requires entry != 0 && Extremes(legs, keyOf, entry, minutes, w)
    ensures var r := RangeAt(legs, m.bars, keyOf);
      Extremes(legs, keyOf, entry, minutes + [m], if r.None? then w else See(w, rules, entry, m.at, r.value))
  {
    OneMoreCounted(legs, keyOf, minutes, m);
    if RangeAt(legs, m.bars, keyOf).Some? {
      SeePeaks(legs, keyOf, rules, entry, minutes, w, m, RangeAt(legs, m.bars, keyOf).value);
    } else {
      SkipPeaks(legs, keyOf, entry, minutes, w, m);
    }
  }

  lemma {:induction false} OneMoreCounted(legs: seq<Leg>, keyOf: Leg -> string, minutes: seq<Minute>, m: Minute)
    ensures CountIf((m: Minute) => IsPriced(legs, keyOf, m), minutes + [m])
         == CountIf((m: Minute) => IsPriced(legs, keyOf, m), minutes) + if IsPriced(legs, keyOf, m) then 1 else 0
  {
    SnocParts(minutes, m);
  }

  lemma {:induction false} SkipPeaks(legs: seq<Leg>, keyOf: Leg -> string, entry: int, minutes: seq<Minute>, w: Walk,
                                     m: Minute)
    requires entry != 0 && Extremes(legs, keyOf, entry, minutes, w) && RangeAt(legs, m.bars, keyOf).None?
    ensures Peak(Gain(legs, keyOf, entry), minutes + [m], w.mfe, w.mfeAt)
    ensures Peak(Loss(legs, keyOf, entry), minutes + [m], -w.mae, w.maeAt)
  {
    PeakNext(Gain(legs, keyOf, entry), minutes, w.mfe, w.mfeAt, m);
    PeakNext(Loss(legs, keyOf, entry), minutes, -w.mae, w.maeAt, m);
  }

  lemma {:induction false} SeePeaks(legs: seq<Leg>, keyOf: Leg -> string, rules: Rules, entry: int,
                                    minutes: seq<Minute>, w: Walk, m: Minute, r: Range)
    requires entry != 0 && Extremes(legs, keyOf, entry, minutes, w) && RangeAt(legs, m.bars, keyOf) == Some(r)
    ensures var next := See(w, rules, entry, m.at, r);
      && Peak(Gain(legs, keyOf, entry), minutes + [m], next.mfe, next.mfeAt)
      && Peak(Loss(legs, keyOf, entry), minutes + [m], -next.mae, next.maeAt)
  {
    var gain, loss := Gain(legs, keyOf, entry), Loss(legs, keyOf, entry);
    assert gain(m) == Some(Change(r.best, entry)) && loss(m) == Some(-Change(r.worst, entry));
    PeakNext(gain, minutes, w.mfe, w.mfeAt, m);
    PeakNext(loss, minutes, -w.mae, w.maeAt, m);
  }

  // ------------------------------------------------------------- what the replay returns

  /** The excursion reported for the minutes looked at: nothing when none was priced;
      otherwise the greatest gain and the greatest loss since entry, each rounded, zero
      without a time when there was none and else with the time it was first reached. */
  ghost predicate ExcursionOf(legs: seq<Leg>, keyOf: Leg -> string, entry: int, minutes: seq<Minute>,
                              exc: Option<Excursion>)
    requires entry != 0
  {
    match exc
    case None => forall m | m in minutes :: !IsPriced(legs, keyOf, m)
    case Some(e) =>
      && (exists m :: m in minutes && IsPriced(legs, keyOf, m))
      && (exists gain :: Peak(Gain(legs, keyOf, entry), minutes, gain, e.mfeAt) && e.mfe == RoundTo(gain, 10000))
      && (exists loss :: Peak(Loss(legs, keyOf, entry), minutes, loss, e.maeAt) && e.mae == RoundTo(-loss, 10000))
      && e.seen == CountIf((m: Minute) => IsPriced(legs, keyOf, m), minutes)
      && e.mae <= 0.0 <= e.mfe
  }

  lemma {:induction false} NoneCounted<T>(p: T -> bool, s: seq<T>)
    ensures CountIf(p, s) == 0 <==> forall x | x in s :: !p(x)
  {
    if s != [] {
      NoneCounted(p, s[..|s|-1]);
      SplitLast(s);
    }
  }

  lemma {:induction false} RoundedZero()
    ensures RoundTo(0.0, 10000) == 0.0
  {
  }

  lemma {:induction false} RoundedExcursion(legs: seq<Leg>, keyOf: Leg -> string, entry: int, minutes: seq<Minute>,
                                            w: Walk)
    requires entry != 0 && Extremes(legs, keyOf, entry, minutes, w)
    ensures ExcursionOf(legs, keyOf, entry, minutes, Rounded(w))
  {
    NoneCounted((m: Minute) => IsPriced(legs, keyOf, m), minutes);
    assert w.mae == -(-w.mae) && w.mae <= 0.0 <= w.mfe;
    RoundedZero();
    RoundMonotone(w.mae, 0.0);
    RoundMonotone(0.0, w.mfe);
  }

  /** The exit: the last minute looked at when it meets a level, with the stop asked first;
      else the last priced minute at its best value if the close is forced. */
  ghost predicate ExitOf(legs: seq<Leg>, keyOf: Leg -> string, rules: Rules, entry: int, minutes: seq<Minute>,
                         sessionClose: bool, exit: Option<Exit>)
  {
    match exit
    case None =>
      && (forall m | m in minutes :: Untouched(legs, keyOf, rules, entry, m))
      && (sessionClose ==> forall m | m in minutes :: !IsPriced(legs, keyOf, m))
    case Some(e) =>
      exists i, r ::
        && 0 <= i < |minutes| && RangeAt(legs, minutes[i].bars, keyOf) == Some(r) && e.at == minutes[i].at
        && match e.reason
           case StopLoss => i == |minutes| - 1 && e.net == r.worst && AtStop(rules, entry, r.worst)
           case ProfitTarget =>
             i == |minutes| - 1 && e.net == r.best && AtTarget(rules, entry, r.best) && !AtStop(rules, entry, r.worst)
           case SessionClose =>
             && sessionClose && e.net == r.best
             && (forall m | m in minutes :: Untouched(legs, keyOf, rules, entry, m))
             && (forall k | i < k < |minutes| :: !IsPriced(legs, keyOf, minutes[k]))
           case _ => false
  }

  /** Without an exit the walk remembers the last priced minute. */
  lemma {:induction false} ScanLast(legs: seq<Leg>, keyOf: Leg -> string, rules: Rules, entry: int,
                                    minutes: seq<Minute>)
    requires entry != 0 && Scan(legs, keyOf, rules, entry, minutes).exit.None?
    ensures var last := Scan(legs, keyOf, rules, entry, minutes).last;
      && (last.None? ==> forall m | m in minutes :: !IsPriced(legs, keyOf, m))
      && (last.Some? ==> exists i, r :: LastPriced(legs, keyOf, minutes, i, r)
                                        && last.value == Exit(minutes[i].at, r.best, SessionClose))
  {
    if minutes != [] {
      var n := |minutes| - 1;
      SplitLast(minutes);
      ScanLast(legs, keyOf, rules, entry, minutes[..n]);
      var last := Scan(legs, keyOf, rules, entry, minutes).last;
      if IsPriced(legs, keyOf, minutes[n]) {
        assert LastPriced(legs, keyOf, minutes, n, RangeAt(legs, minutes[n].bars, keyOf).value);
      } else if last.Some? {
        var i, r :| LastPriced(legs, keyOf, minutes[..n], i, r)
                    && last.value == Exit(minutes[..n][i].at, r.best, SessionClose);
        assert LastPriced(legs, keyOf, minutes, i, r);
      }
    }
  }

  ghost predicate LastPriced(legs: seq<Leg>, keyOf: Leg -> string, minutes: seq<Minute>, i: int, r: Range) {
    && 0 <= i < |minutes| && RangeAt(legs, minutes[i].bars, keyOf) == Some(r)
    && forall k | i < k < |minutes| :: !IsPriced(legs, keyOf, minutes[k])
  }

  /** What the replay returns, for every session: exit and excursion over the minutes it
      looked at, which are those from the entry up to the first that meets a level. */
  lemma {:induction false} IntradayMeans(legs: seq<Leg>, keyOf: Leg -> string, rules: Rules, entry: int,
                                         log: seq<Minute>, entryTs: Option<int>, sessionClose: bool) returns (n: nat)
    requires entry != 0
    ensures var (exit, exc) := Intraday(legs, keyOf, rules, entry, log, entryTs, sessionClose);
      && LookedAtFirst(legs, keyOf, rules, entry, MinuteWindow(log, entryTs), n)
      && ExitOf(legs, keyOf, rules, entry, MinuteWindow(log, entryTs)[..n], sessionClose, exit)
      && ExcursionOf(legs, keyOf, entry, MinuteWindow(log, entryTs)[..n], exc)
  {
    var minutes := MinuteWindow(log, entryTs);
    n := LookedAtCount(legs, keyOf, rules, entry, minutes);
    ExcursionMeans(legs, keyOf, rules, entry, minutes, n);
    ExitMeans(legs, keyOf, rules, entry, minutes, n, sessionClose);
  }

  lemma {:induction false} ExcursionMeans(legs: seq<Leg>, keyOf: Leg -> string, rules: Rules, entry: int,
                                          minutes: seq<Minute>, n: nat)
    requires entry != 0 && n <= |minutes|
    requires Scan(legs, keyOf, rules, entry, minutes) == Scan(legs, keyOf, rules, entry, minutes[..n])
    requires n > 0 ==> Scan(legs, keyOf, rules, entry, minutes[..n-1]).exit.None?
    ensures ExcursionOf(legs, keyOf, entry, minutes[..n], Rounded(Scan(legs, keyOf, rules, entry, minutes)))
  {
    var seen := minutes[..n];
    if n > 0 {
      TakeWithin(minutes, n - 1, n);
    }
    ScanExtremes(legs, keyOf, rules, entry, seen);
    RoundedExcursion(legs, keyOf, entry, seen, Scan(legs, keyOf, rules, entry, seen));
  }

  lemma {:induction false} ExitMeans(legs: seq<Leg>, keyOf: Leg -> string, rules: Rules, entry: int,
                                     minutes: seq<Minute>, n: nat, sessionClose: bool)
    requires entry != 0 && LookedAtFirst(legs, keyOf, rules, entry, minutes, n)
    requires Scan(legs, keyOf, rules, entry, minutes) == Scan(legs, keyOf, rules, entry, minutes[..n])
    requires Scan(legs, keyOf, rules, entry, minutes).exit
          == if n > 0 then MinuteExit(legs, keyOf, rules, entry, minutes[n-1]) else None
    ensures ExitOf(legs, keyOf, rules, entry, minutes[..n], sessionClose,
                   Outcome(Scan(legs, keyOf, rules, entry, minutes), sessionClose).0)
  {
    var seen := minutes[..n];
    if n > 0 {
      MinuteExitMeans(legs, keyOf, rules, entry, seen[n-1]);
    }
    var w := Scan(legs, keyOf, rules, entry, seen);
    if w.exit.None? {
      assert forall m | m in seen :: Untouched(legs, keyOf, rules, entry, m);
      ScanLast(legs, keyOf, rules, entry, seen);
      if w.last.Some? {
        var i, r :| LastPriced(legs, keyOf, seen, i, r) && w.last.value == Exit(seen[i].at, r.best, SessionClose);
      }
    }
  }

  /** The reported extremes bound every path: whatever the legs traded at inside the bars
      of a priced minute looked at, the rounded change since entry lies between them. */
  lemma {:induction false} ExcursionHoldsPaths(legs: seq<Leg>, keyOf: Leg -> string, entry: int, minutes: seq<Minute>,
                                               exc: Option<Excursion>, m: Minute, marks: map<string, int>)
    requires entry != 0 && ExcursionOf(legs, keyOf, entry, minutes, exc)
    requires m in minutes && IsPriced(legs, keyOf, m) && InsideBars(legs, keyOf, m.bars, marks)
    ensures exc.Some? && NetAt(legs, marks, keyOf).Some?
    ensures var change := Change(NetAt(legs, marks, keyOf).value, entry);
      exc.value.mae <= RoundTo(change, 10000) <= exc.value.mfe
  {
    RangeBounds(legs, keyOf, m.bars, marks);
    var r, net := RangeAt(legs, m.bars, keyOf).value, NetAt(legs, marks, keyOf).value;
    var i :| 0 <= i < |minutes| && minutes[i] == m;
    var e := exc.value;
    var gain :| Peak(Gain(legs, keyOf, entry), minutes, gain, e.mfeAt) && e.mfe == RoundTo(gain, 10000);
    var loss :| Peak(Loss(legs, keyOf, entry), minutes, loss, e.maeAt) && e.mae == RoundTo(-loss, 10000);
    PeakBounds(Gain(legs, keyOf, entry), minutes, gain, e.mfeAt, i);
    PeakBounds(Loss(legs, keyOf, entry), minutes, loss, e.maeAt, i);
    BetweenRounded(r, net, entry, gain, loss);
  }

  lemma {:induction false} BetweenRounded(r: Range, net: int, entry: int, gain: real, loss: real)
    requires entry != 0 && r.worst <= net <= r.best
    requires Change(r.best, entry) <= gain && -Change(r.worst, entry) <= loss
    ensures RoundTo(-loss, 10000) <= RoundTo(Change(net, entry), 10000) <= RoundTo(gain, 10000)
  {
    ChangeMonotone(r.worst, net, entry);
    ChangeMonotone(net, r.best, entry);
    RoundMonotone(-loss, Change(net, entry));
    RoundMonotone(Change(net, entry), gain);
  }

  lemma {:induction false} PeakBounds(size: Minute -> Option<real>, minutes: seq<Minute>, top: real, at: Option<int>,
                                      i: nat)
    requires Peak(size, minutes, top, at) && i < |minutes| && size(minutes[i]).Some?
    ensures size(minutes[i]).value <= top
  {
  }
}
