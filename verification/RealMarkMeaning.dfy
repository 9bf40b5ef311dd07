/** What repricing one trade returns, told on the recorded quotes
    (`evaluate_real_mark_trade`, app/backtest/real_mark.py). */
module RealMarkMeaning {
  import opened Basics
  import opened Seqs
  import opened RealMarkFills
  import opened RealMarkWalk

  // ----------------------------------------------------------------------- alignment

  /** q is the last of the bars dated `date`. */
  ghost predicate LastOn(bars: seq<Quote>, date: int, q: Quote) {
    exists i :: LastAt(bars, date, i) && bars[i] == q
  }

  ghost predicate LastAt(bars: seq<Quote>, date: int, i: int) {
    0 <= i < |bars| && bars[i].date == date && forall k | i < k < |bars| :: bars[k].date != date
  }

  lemma {:induction false} BarOnMeans(bars: seq<Quote>, date: int)
    ensures match BarOn(bars, date)
      case None => forall b | b in bars :: b.date != date
      case Some(q) => LastOn(bars, date, q)
  {
    if bars != [] {
      var n := |bars| - 1;
      SplitLast(bars);
      if bars[n].date == date {
        assert LastAt(bars, date, n);
      } else {
        BarOnMeans(bars[..n], date);
        if BarOn(bars, date).Some? {
          var i :| LastAt(bars[..n], date, i) && bars[..n][i] == BarOn(bars, date).value;
          assert LastAt(bars, date, i);
        }
      }
    }
  }

  predicate Traded(bars: seq<Quote>, date: int) {
    exists b :: b in bars && b.date == date
  }

  function LongBars(days: seq<Day>): seq<Quote> {
    if days == [] then [] else LongBars(days[..|days|-1]) + [days[|days|-1].long]
  }

  lemma {:induction false} PairMeans(longs: seq<Quote>, shorts: seq<Quote>)
    ensures LongBars(Pair(longs, shorts)) == Filter((b: Quote) => Traded(shorts, b.date), longs)
    ensures forall d | d in Pair(longs, shorts) :: d.date == d.long.date && LastOn(shorts, d.date, d.short)
  {
    if longs != [] {
      var n := |longs| - 1;
      var b := longs[n];
      PairMeans(longs[..n], shorts);
      BarOnMeans(shorts, b.date);
      if BarOn(shorts, b.date).Some? {
        assert LastOn(shorts, b.date, BarOn(shorts, b.date).value);
        SnocParts(Pair(longs[..n], shorts), Day(b.date, b, BarOn(shorts, b.date).value));
      }
    }
  }

  lemma {:induction false} LongBarsPermute(a: seq<Day>, b: seq<Day>)
    requires multiset(a) == multiset(b)
    ensures multiset(LongBars(a)) == multiset(LongBars(b))
    decreases |a|
  {
    if a == [] {
      assert |b| == |multiset(b)| == 0;
    } else {
      var x := a[|a|-1];
      assert x in multiset(b);
      var i :| 0 <= i < |b| && b[i] == x;
      assert b == b[..i] + ([x] + b[i+1..]);
      DropLast(a);
      LongBarsPermute(a[..|a|-1], b[..i] + b[i+1..]);
      LongBarsAppend(b[..i], b[i+1..]);
      LongBarsAppend(b[..i], [x] + b[i+1..]);
      LongBarsAppend([x], b[i+1..]);
      assert LongBars([x]) == [x.long];
    }
  }

  lemma {:induction false} LongBarsAppend(a: seq<Day>, b: seq<Day>)
    ensures LongBars(a + b) == LongBars(a) + LongBars(b)
    decreases |b|
  {
    if b == [] {
      assert a + b == a;
    } else {
      var n := |b| - 1;
      AppendSnoc(a, b);
      SnocParts(a + b[..n], b[n]);
      LongBarsAppend(a, b[..n]);
      AppendAssociates(LongBars(a), LongBars(b[..n]), [b[n].long]);
    }
  }

  /** The aligned days are those of the long leg's bars whose date the short leg has a bar
      for, each with the last such bar, by date. */
  lemma {:induction false} AlignMeans(longs: seq<Quote>, shorts: seq<Quote>)
    ensures multiset(LongBars(Align(longs, shorts))) == multiset(Filter((b: Quote) => Traded(shorts, b.date), longs))
    ensures forall d | d in Align(longs, shorts) :: d.date == d.long.date && LastOn(shorts, d.date, d.short)
    ensures Sorted(DateOrder, Align(longs, shorts))
  {
    PairMeans(longs, shorts);
    SortPermutes(DateOrder, Pair(longs, shorts));
    SameElements(Align(longs, shorts), Pair(longs, shorts));
    LongBarsPermute(Align(longs, shorts), Pair(longs, shorts));
    DateOrderIsTotal();
    SortBySorted(DateOrder, Pair(longs, shorts));
  }

  /** The entry is the first aligned day of its date. */
  lemma {:induction false} EntryDayMeans(days: seq<Day>, date: int)
    ensures match EntryDay(days, date)
      case None => forall d | d in days :: d.date != date
      case Some(d) => exists i :: 0 <= i < |days| && days[i] == d && d.date == date
                                  && forall k | 0 <= k < i :: days[k].date != date
  {
    if days != [] {
      var n := |days| - 1;
      SplitLast(days);
      EntryDayMeans(days[..n], date);
      if EntryDay(days[..n], date).Some? {
        var i :| 0 <= i < n && days[..n][i] == EntryDay(days, date).value && days[..n][i].date == date
                 && forall k | 0 <= k < i :: days[..n][k].date != date;
        assert forall k | 0 <= k < i :: days[k] == days[..n][k];
        assert days[i] == EntryDay(days, date).value;
      } else if days[n].date == date {
        assert forall k | 0 <= k < n :: days[k] == days[..n][k] && days[k] in days[..n];
      }
    }
  }

  // ---------------------------------------------------------------------- one day

  /** What the spread would fetch at the mids of a day on which both legs are quoted. */
  predicate Marked(d: Day, mark: real) {
    Mid(d.long).Some? && Mid(d.short).Some? && mark == Mid(d.long).value - Mid(d.short).value
  }

  function Size(mark: real): real {
    if mark > 0.0 then mark else if mark < 0.0 then -mark else 0.000000001
  }

  predicate MeetsTarget(rule: ExitRule, entry: real, mark: real) {
    rule.target.Some? && mark - entry >= rule.target.value * Size(entry)
  }

  predicate MeetsStop(rule: ExitRule, entry: real, mark: real) {
    rule.stop.Some? && entry - mark >= rule.stop.value * Size(entry)
  }

  predicate MeetsTime(rule: ExitRule, days: int) {
    rule.timeStop.Some? && days >= rule.timeStop.value
  }

  /** The day meets no rule, as the given number of days after entry. */
  ghost predicate MeetsNothing(rule: ExitRule, entry: real, d: Day, days: int) {
    forall mark | Marked(d, mark) ::
      !MeetsTarget(rule, entry, mark) && !MeetsStop(rule, entry, mark) && !MeetsTime(rule, days)
  }

  lemma {:induction false} DayHitMeans(d: Day, index: nat, entry: real, rule: ExitRule)
    ensures match DayHit(d, index, entry, Basis(entry), rule)
      case None => MeetsNothing(rule, entry, d, index)
      case Some(h) =>
        && h.day == d && h.index == index && SpreadMarkMid(d).Some? && Marked(d, SpreadMarkMid(d).value)
        && ReasonHolds(rule, entry, SpreadMarkMid(d).value, index, h.reason)
  {
  }

  /** The reasons in the order they are asked: target, stop, time. */
  predicate ReasonHolds(rule: ExitRule, entry: real, mark: real, days: int, reason: ExitReason) {
    match reason
    case ProfitTarget => MeetsTarget(rule, entry, mark)
    case StopLoss => MeetsStop(rule, entry, mark) && !MeetsTarget(rule, entry, mark)
    case TimeStop => MeetsTime(rule, days) && !MeetsTarget(rule, entry, mark) && !MeetsStop(rule, entry, mark)
    case DataEnd => false
  }

  lemma {:induction false} FirstHitMeans(days: seq<Day>, entry: real, rule: ExitRule)
    ensures match FirstHit(days, entry, Basis(entry), rule)
      case None => forall k | 0 <= k < |days| :: MeetsNothing(rule, entry, days[k], k + 1)
      case Some(h) =>
        && 1 <= h.index <= |days| && days[h.index-1] == h.day
        && SpreadMarkMid(h.day).Some? && Marked(h.day, SpreadMarkMid(h.day).value)
        && ReasonHolds(rule, entry, SpreadMarkMid(h.day).value, h.index, h.reason)
        && forall k | 0 <= k < h.index - 1 :: MeetsNothing(rule, entry, days[k], k + 1)
  {
    if days != [] {
      var n := |days| - 1;
      FirstHitMeans(days[..n], entry, rule);
      assert forall k | 0 <= k < n :: days[..n][k] == days[k];
      DayHitMeans(days[n], |days|, entry, rule);
    }
  }

  // ------------------------------------------------------------------- the whole trade

  /** The entry day: the first aligned day dated `date`. */
  ghost predicate FirstOn(days: seq<Day>, date: int, d: Day) {
    exists i :: 0 <= i < |days| && days[i] == d && d.date == date && forall k | 0 <= k < i :: days[k].date != date
  }

  predicate IsMarked(d: Day) {
    Mid(d.long).Some? && Mid(d.short).Some?
  }

  predicate BothTradeable(d: Day, cfg: Liquidity) {
    Tradeable(d.long, cfg) && Tradeable(d.short, cfg)
  }

  /** The i-th forward day is the exit: the first to meet a rule, or the last quoted one
      when none does. Days held are counted to it in the first case; in the second they
      are the quoted days. */
  ghost predicate ExitAt(forward: seq<Day>, i: int, entry: real, rule: ExitRule, reason: ExitReason, held: int) {
    && 0 <= i < |forward| && IsMarked(forward[i])
    && (forall k | 0 <= k < i :: MeetsNothing(rule, entry, forward[k], k + 1))
    && match reason
       case DataEnd =>
         && MeetsNothing(rule, entry, forward[i], i + 1)
         && (forall k | i < k < |forward| :: !IsMarked(forward[k]))
         && held == CountIf(IsMarked, forward)
       case _ =>
         && held == i + 1
         && forall mark | Marked(forward[i], mark) :: ReasonHolds(rule, entry, mark, i + 1, reason)
  }

  /** Repriced at every fill fraction asked for, and fragile when the net is positive at
      one half and not at one. */
  ghost predicate RepricedAt(entry: Day, exit: Day, ks: seq<real>, contracts: int, rate: real,
                             byK: map<real, RoundTrip>, fragile: bool)
  {
    && (forall k :: k in byK <==> k in ks)
    && (forall k | k in byK ::
          byK[k] == RoundTripPnl(entry.long, entry.short, exit.long, exit.short, k, contracts, rate))
    && (fragile <==>
          && 0.5 in ks && 1.0 in ks
          && byK[0.5].net.Some? && byK[0.5].net.value > 0.0
          && byK[1.0].net.Some? && byK[1.0].net.value <= 0.0)
  }

  ghost predicate Repriced(trade: Trade, days: seq<Day>, entry: Day, rule: ExitRule, ks: seq<real>, rate: real,
                           r: Result, mark: real, i: int)
  {
    && r.Included? && Marked(entry, mark)
    && var forward := Filter((d: Day) => d.date > trade.entryDate, days);
    && ExitAt(forward, i, mark, rule, r.exitReason, r.daysHeld) && r.exitDate == forward[i].date
    && RepricedAt(entry, forward[i], ks, trade.contracts, rate, r.byK, r.fragile)
  }

  /** The liquidity guard on the quote itself: bid and ask present and not crossed, a
      positive mid, a spread within its share of the mid, and enough interest and volume. */
  lemma {:induction false} TradeableMeans(q: Quote, cfg: Liquidity)
    ensures Tradeable(q, cfg) <==>
              && q.bid.Some? && q.ask.Some? && q.bid.value <= q.ask.value && q.bid.value + q.ask.value > 0.0
              && q.ask.value - q.bid.value <= cfg.maxSpreadPct * ((q.bid.value + q.ask.value) / 2.0)
              && q.openInterest.Some? && q.openInterest.value >= cfg.minOi
              && q.volume.Some? && q.volume.value >= cfg.minVol
  {
    if Mid(q).Some? && Mid(q).value > 0.0 {
      ScaleQuotient(2.0 * HalfSpread(q).value, Mid(q).value, cfg.maxSpreadPct);
    }
  }

  /** What each result says of the quotes. The conditions exclude each other, so each
      result is given exactly under its own. */
  ghost predicate ResultHolds(trade: Trade, days: seq<Day>, rule: ExitRule, cfg: Liquidity, ks: seq<real>, rate: real,
                              r: Result)
  {
    match r
    case Excluded(NoAlignedEntryBar) => forall d | d in days :: d.date != trade.entryDate
    case Excluded(EntryLiquidityGuard) =>
      exists entry :: FirstOn(days, trade.entryDate, entry) && !BothTradeable(entry, cfg)
    case Excluded(EntryNoQuote) => false
    case Excluded(NoTradeableExitDay) =>
      && (exists entry :: FirstOn(days, trade.entryDate, entry) && BothTradeable(entry, cfg))
      && (forall d | d in days && d.date > trade.entryDate :: !IsMarked(d))
    case Included(_, _, _, _, _) =>
      exists entry :: FirstOn(days, trade.entryDate, entry) && BothTradeable(entry, cfg)
                      && exists mark, i :: Repriced(trade, days, entry, rule, ks, rate, r, mark, i)
  }

  lemma {:induction false} LastKept<T>(p: T -> bool, s: seq<T>) returns (i: nat)
    requires Filter(p, s) != []
    ensures i < |s| && p(s[i]) && s[i] == Filter(p, s)[|Filter(p, s)|-1]
    ensures forall k | i < k < |s| :: !p(s[k])
  {
    var n := |s| - 1;
    if p(s[n]) {
      i := n;
    } else {
      i := LastKept(p, s[..n]);
      assert forall k | 0 <= k < n :: s[..n][k] == s[k];
    }
  }

  lemma {:induction false} ClosedMeans(trade: Trade, entry: Day, exit: Day, held: nat, reason: ExitReason,
                                       ks: seq<real>, rate: real)
    ensures var r := Close(trade, entry, exit, held, reason, ks, rate);
      && r.Included? && r.exitDate == exit.date && r.daysHeld == held && r.exitReason == reason
      && RepricedAt(entry, exit, ks, trade.contracts, rate, r.byK, r.fragile)
  {
  }

  lemma {:induction false} HitMeans(trade: Trade, days: seq<Day>, entry: Day, rule: ExitRule, ks: seq<real>, rate: real,
                                    mark: real)
    requires Marked(entry, mark) && FirstHit(After(days, trade.entryDate), mark, Basis(mark), rule).Some?
    ensures var h := FirstHit(After(days, trade.entryDate), mark, Basis(mark), rule).value;
      Repriced(trade, days, entry, rule, ks, rate, Close(trade, entry, h.day, h.index, h.reason, ks, rate), mark,
               h.index - 1)
  {
    FirstHitMeans(After(days, trade.entryDate), mark, rule);
    var h := FirstHit(After(days, trade.entryDate), mark, Basis(mark), rule).value;
    ClosedMeans(trade, entry, h.day, h.index, h.reason, ks, rate);
  }

  lemma {:induction false} DataEndMeans(trade: Trade, days: seq<Day>, entry: Day, rule: ExitRule, ks: seq<real>,
                                        rate: real, mark: real) returns (i: nat)
    requires Marked(entry, mark) && FirstHit(After(days, trade.entryDate), mark, Basis(mark), rule).None?
    requires Quoted(After(days, trade.entryDate)) != []
    ensures var quoted := Quoted(After(days, trade.entryDate));
      Repriced(trade, days, entry, rule, ks, rate,
               Close(trade, entry, quoted[|quoted|-1], |quoted|, DataEnd, ks, rate), mark, i)
  {
    var forward := After(days, trade.entryDate);
    i := LastQuotedExit(forward, mark, rule);
    ClosedMeans(trade, entry, forward[i], |Quoted(forward)|, DataEnd, ks, rate);
  }

  lemma {:induction false} LastQuotedExit(forward: seq<Day>, mark: real, rule: ExitRule) returns (i: nat)
    requires FirstHit(forward, mark, Basis(mark), rule).None? && Quoted(forward) != []
    ensures ExitAt(forward, i, mark, rule, DataEnd, |Quoted(forward)|)
    ensures forward[i] == Quoted(forward)[|Quoted(forward)|-1]
  {
    var p := (d: Day) => SpreadMarkMid(d).Some?;
    FirstHitMeans(forward, mark, rule);
    i := LastKept(p, forward);
    CountIsFilter(p, forward);
    CountAgrees(p, IsMarked, forward);
  }

  lemma {:induction false} NothingQuoted(days: seq<Day>, date: int)
    requires Quoted(After(days, date)) == []
    ensures forall d | d in days && d.date > date :: !IsMarked(d)
  {
    var p := (d: Day) => SpreadMarkMid(d).Some?;
    forall d | d in days && d.date > date ensures !IsMarked(d) {
      assert d in After(days, date);
      assert p(d) ==> d in Quoted(After(days, date));
    }
  }

  lemma {:induction false} SettleMeans(trade: Trade, days: seq<Day>, entry: Day, rule: ExitRule, ks: seq<real>,
                                       rate: real)
    requires SpreadMarkMid(entry).Some?
    ensures var r := Settle(trade, entry, After(days, trade.entryDate), rule, ks, rate);
      if r.Excluded? then
        r.reason == NoTradeableExitDay && forall d | d in days && d.date > trade.entryDate :: !IsMarked(d)
      else exists mark, i :: Repriced(trade, days, entry, rule, ks, rate, r, mark, i)
  {
    var forward, mark := After(days, trade.entryDate), SpreadMarkMid(entry).value;
    if FirstHit(forward, mark, Basis(mark), rule).Some? {
      HitMeans(trade, days, entry, rule, ks, rate, mark);
    } else if Quoted(forward) != [] {
      var i := DataEndMeans(trade, days, entry, rule, ks, rate, mark);
    } else {
      NothingQuoted(days, trade.entryDate);
    }
  }

  lemma {:induction false} CountAgrees<T>(p: T -> bool, q: T -> bool, s: seq<T>)
    requires forall x | x in s :: p(x) <==> q(x)
    ensures CountIf(p, s) == CountIf(q, s)
  {
    if s != [] {
      CountAgrees(p, q, s[..|s|-1]);
    }
  }

  /** What repricing returns, for every trade and every set of quotes. */
  lemma {:induction false} EvaluateMeans(trade: Trade, longs: seq<Quote>, shorts: seq<Quote>, rule: ExitRule,
                                         cfg: Liquidity, ks: seq<real>, rate: real)
    ensures ResultHolds(trade, Align(longs, shorts), rule, cfg, ks, rate,
                        Evaluate(trade, longs, shorts, rule, cfg, ks, rate))
  {
    var days := Align(longs, shorts);
    EntryDayMeans(days, trade.entryDate);
    var found := EntryDay(days, trade.entryDate);
    if found.Some? {
      assert FirstOn(days, trade.entryDate, found.value);
      if SpreadMarkMid(found.value).Some? {
        SettleMeans(trade, days, found.value, rule, ks, rate);
      }
    }
  }
}
