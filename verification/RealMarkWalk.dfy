/** Repricing a vertical from recorded quotes (app/backtest/real_mark.py). */
module RealMarkWalk {
  import opened Basics
  import opened Seqs
  import opened RealMarkFills

  /** A date on which both legs have a bar. */
  datatype Day = Day(date: int, long: Quote, short: Quote)

  datatype ExitRule = ExitRule(target: Option<real>, stop: Option<real>, timeStop: Option<int>)

  datatype Trade = Trade(id: string, entryDate: int, dteAtEntry: int, contracts: int)

  datatype ExitReason = ProfitTarget | StopLoss | TimeStop | DataEnd

  datatype Exclusion = NoAlignedEntryBar | EntryLiquidityGuard | EntryNoQuote | NoTradeableExitDay

  datatype Result =
    | Excluded(reason: Exclusion)
    | Included(exitDate: int, daysHeld: int, exitReason: ExitReason, byK: map<real, RoundTrip>, fragile: bool)

  const OPTIMISTIC := 0.5
  const CONSERVATIVE := 1.0

  // --------------------------------------------------------------------- alignment

  /** `{b.date: b for b in bars}`: the last bar of a date wins. */
  function BarOn(bars: seq<Quote>, date: int): Option<Quote> {
    if bars == [] then None
    else if bars[|bars|-1].date == date then Some(bars[|bars|-1])
    else BarOn(bars[..|bars|-1], date)
  }

  function Pair(longs: seq<Quote>, shorts: seq<Quote>): seq<Day> {
    if longs == [] then []
    else
      var b := longs[|longs|-1];
      var rest := Pair(longs[..|longs|-1], shorts);
      match BarOn(shorts, b.date)
      case None => rest
      case Some(s) => rest + [Day(b.date, b, s)]
  }

  predicate DateOrder(a: Day, b: Day) {
    a.date <= b.date
  }

  /** `_align` */
  function Align(longs: seq<Quote>, shorts: seq<Quote>): seq<Day> {
    SortBy(DateOrder, Pair(longs, shorts))
  }

  /** `_spread_mark_mid` */
  function SpreadMarkMid(d: Day): Option<real> {
    match (Mid(d.long), Mid(d.short))
    case (Some(l), Some(s)) => Some(l - s)
    case _ => None
  }

  // ---------------------------------------------------------------------- the walk

  datatype Hit = Hit(day: Day, index: nat, reason: ExitReason)

  predicate TargetReached(rule: ExitRule, pnl: real, ref: real) {
    rule.target.Some? && pnl >= rule.target.value * ref
  }

  predicate StopReached(rule: ExitRule, pnl: real, ref: real) {
    rule.stop.Some? && pnl <= -rule.stop.value * ref
  }

  predicate TimeReached(rule: ExitRule, index: int) {
    rule.timeStop.Some? && index >= rule.timeStop.value
  }

  /** The exit the index-th forward day forces: target before stop before time stop.
      An unquoted day forces none but still counts towards the time stop. */
  function DayHit(d: Day, index: nat, entryMark: real, ref: real, rule: ExitRule): Option<Hit> {
    match SpreadMarkMid(d)
    case None => None
    case Some(mark) =>
      var pnl := mark - entryMark;
      if TargetReached(rule, pnl, ref) then Some(Hit(d, index, ProfitTarget))
      else if StopReached(rule, pnl, ref) then Some(Hit(d, index, StopLoss))
      else if TimeReached(rule, index) then Some(Hit(d, index, TimeStop))
      else None
  }

  function FirstHit(days: seq<Day>, entryMark: real, ref: real, rule: ExitRule): Option<Hit> {
    if days == [] then None
    else match FirstHit(days[..|days|-1], entryMark, ref, rule)
      case Some(h) => Some(h)
      case None => DayHit(days[|days|-1], |days|, entryMark, ref, rule)
  }

  /** Capital basis of the percentage rules: `abs(mark) or 1e-9`. */
  function Basis(mark: real): real {
    if mark == 0.0 then 0.000000001 else if mark < 0.0 then -mark else mark
  }

  function EntryDay(days: seq<Day>, date: int): Option<Day> {
    if days == [] then None
    else match EntryDay(days[..|days|-1], date)
      case Some(d) => Some(d)
      case None => if days[|days|-1].date == date then Some(days[|days|-1]) else None
  }

  /** Net P&L positive at the optimistic fraction but not at the conservative one. */
  predicate IsFragile(byK: map<real, RoundTrip>) {
    && OPTIMISTIC in byK && CONSERVATIVE in byK
    && byK[OPTIMISTIC].net.Some? && byK[CONSERVATIVE].net.Some?
    && byK[OPTIMISTIC].net.value > 0.0 >= byK[CONSERVATIVE].net.value
  }

  function Close(trade: Trade, entry: Day, exit: Day, held: nat, reason: ExitReason, ks: seq<real>,
                 rate: real): Result {
    var byK := map k | k in ks ::
      RoundTripPnl(entry.long, entry.short, exit.long, exit.short, k, trade.contracts, rate);
    Included(exit.date, held, reason, byK, IsFragile(byK))
  }

  function Quoted(days: seq<Day>): seq<Day> {
    Filter((d: Day) => SpreadMarkMid(d).Some?, days)
  }

  function After(days: seq<Day>, date: int): seq<Day> {
    Filter((d: Day) => d.date > date, days)
  }

  function Settle(trade: Trade, entry: Day, forward: seq<Day>, rule: ExitRule, ks: seq<real>, rate: real): Result
    requires SpreadMarkMid(entry).Some?
  {
    var mark := SpreadMarkMid(entry).value;
    match FirstHit(forward, mark, Basis(mark), rule)
    case Some(h) => Close(trade, entry, h.day, h.index, h.reason, ks, rate)
    case None =>
      var quoted := Quoted(forward);
      if quoted == [] then Excluded(NoTradeableExitDay)
      else Close(trade, entry, quoted[|quoted|-1], |quoted|, DataEnd, ks, rate)
  }

  function Evaluate(trade: Trade, longs: seq<Quote>, shorts: seq<Quote>, rule: ExitRule, cfg: Liquidity, ks: seq<real>,
                    rate: real): Result
  {
    var aligned := Align(longs, shorts);
    match EntryDay(aligned, trade.entryDate)
    case None => Excluded(NoAlignedEntryBar)
    case Some(entry) =>
      if !(Tradeable(entry.long, cfg) && Tradeable(entry.short, cfg)) then Excluded(EntryLiquidityGuard)
      else if SpreadMarkMid(entry).None? then Excluded(EntryNoQuote)
      else Settle(trade, entry, After(aligned, trade.entryDate), rule, ks, rate)
  }

  lemma {:induction false} FirstHitOfPrefix(a: seq<Day>, b: seq<Day>, mark: real, ref: real, rule: ExitRule)
    requires FirstHit(a, mark, ref, rule).Some?
    ensures FirstHit(a + b, mark, ref, rule) == FirstHit(a, mark, ref, rule)
    decreases |b|
  {
    if b == [] {
      assert a + b == a;
    } else {
      assert (a + b)[..|a+b|-1] == a + b[..|b|-1];
      FirstHitOfPrefix(a, b[..|b|-1], mark, ref, rule);
    }
  }

  /** The loop over forward days, left at the first rule that fires. */
  method FindExit(forward: seq<Day>, entryMark: real, rule: ExitRule) returns (hit: Option<Hit>)
    ensures hit == FirstHit(forward, entryMark, Basis(entryMark), rule)
  {
    var ref := Basis(entryMark);
    var dayIdx := 1;
    while dayIdx <= |forward|
      invariant 1 <= dayIdx <= |forward| + 1
      invariant FirstHit(forward[..dayIdx-1], entryMark, ref, rule) == None
    {
      var d := forward[dayIdx-1];
      assert forward[..dayIdx][..dayIdx-1] == forward[..dayIdx-1];
      var mark := SpreadMarkMid(d);
      if mark.Some? {
        var pnl := mark.value - entryMark;
        var reason: Option<ExitReason> := None;
        if TargetReached(rule, pnl, ref) {
          reason := Some(ProfitTarget);
        } else if StopReached(rule, pnl, ref) {
          reason := Some(StopLoss);
        } else if TimeReached(rule, dayIdx) {
          reason := Some(TimeStop);
        }
        if reason.Some? {
          FirstHitOfPrefix(forward[..dayIdx], forward[dayIdx..], entryMark, ref, rule);
          assert forward == forward[..dayIdx] + forward[dayIdx..];
          return Some(Hit(d, dayIdx, reason.value));
        }
      }
      dayIdx := dayIdx + 1;
    }
    assert forward[..dayIdx-1] == forward;
    return None;
  }

  /** `evaluate_real_mark_trade` */
  method EvaluateTrade(trade: Trade, longs: seq<Quote>, shorts: seq<Quote>, rule: ExitRule, cfg: Liquidity,
                       ks: seq<real>, rate: real) returns (result: Result)
    ensures result == Evaluate(trade, longs, shorts, rule, cfg, ks, rate)
  {
    var aligned := Align(longs, shorts);
    var found := EntryDay(aligned, trade.entryDate);
    if found.None? {
      return Excluded(NoAlignedEntryBar);
    }
    var entry := found.value;
    if !(Tradeable(entry.long, cfg) && Tradeable(entry.short, cfg)) {
      return Excluded(EntryLiquidityGuard);
    }
    var mark := SpreadMarkMid(entry);
    if mark.None? {
      return Excluded(EntryNoQuote);
    }
    var forward := After(aligned, trade.entryDate);
    var hit := FindExit(forward, mark.value, rule);
    var exit, held, reason := entry, 0, DataEnd;
    if hit.Some? {
      exit, held, reason := hit.value.day, hit.value.index, hit.value.reason;
    } else {
      var quoted := Quoted(forward);
      if quoted == [] {
        return Excluded(NoTradeableExitDay);
      }
      exit, held := quoted[|quoted|-1], |quoted|;
    }
    result := Close(trade, entry, exit, held, reason, ks, rate);
  }

  // ------------------------------------------------------------------------ causality

  predicate By(d: Day, last: int) {
    d.date <= last
  }

  predicate QuoteBy(q: Quote, last: int) {
    q.date <= last
  }

  function Known(bars: seq<Quote>, last: int): seq<Quote> {
    Filter((q: Quote) => QuoteBy(q, last), bars)
  }

  function DaysBy(days: seq<Day>, last: int): seq<Day> {
    Filter((d: Day) => By(d, last), days)
  }

  lemma {:induction false} BarOnKnown(bars: seq<Quote>, date: int, last: int)
    requires date <= last
    ensures BarOn(Known(bars, last), date) == BarOn(bars, date)
  {
    if bars != [] {
      BarOnKnown(bars[..|bars|-1], date, last);
      var kept := Known(bars, last);
      if QuoteBy(bars[|bars|-1], last) {
        assert kept[..|kept|-1] == Known(bars[..|bars|-1], last);
      }
    }
  }

  /** Aligning what is known by a date gives the aligned days up to that date. */
  lemma {:induction false} PairKnown(longs: seq<Quote>, shorts: seq<Quote>, last: int)
    ensures Pair(Known(longs, last), Known(shorts, last)) == DaysBy(Pair(longs, shorts), last)
  {
    if longs != [] {
      var n := |longs| - 1;
      var b := longs[n];
      PairKnown(longs[..n], shorts, last);
      if b.date <= last {
        BarOnKnown(shorts, b.date, last);
        assert Known(longs, last)[..|Known(longs, last)|-1] == Known(longs[..n], last);
      }
      if BarOn(shorts, b.date).Some? {
        FilterSnoc((d: Day) => By(d, last), Pair(longs[..n], shorts), Day(b.date, b, BarOn(shorts, b.date).value));
      }
    }
  }

  lemma {:induction false} DateOrderIsTotal()
    ensures TotalPreorder(DateOrder)
  {
  }

  lemma {:induction false} AlignKnown(longs: seq<Quote>, shorts: seq<Quote>, last: int)
    ensures Align(Known(longs, last), Known(shorts, last)) == DaysBy(Align(longs, shorts), last)
    ensures Sorted(DateOrder, Align(longs, shorts))
  {
    DateOrderIsTotal();
    PairKnown(longs, shorts, last);
    FilterOfSort(DateOrder, (d: Day) => By(d, last), Pair(longs, shorts));
    SortBySorted(DateOrder, Pair(longs, shorts));
  }

  lemma {:induction false} EntryDayKnown(days: seq<Day>, date: int, last: int)
    requires date <= last
    ensures EntryDay(DaysBy(days, last), date) == EntryDay(days, date)
  {
    if days != [] {
      EntryDayKnown(days[..|days|-1], date, last);
      var kept := DaysBy(days, last);
      if By(days[|days|-1], last) {
        assert kept[..|kept|-1] == DaysBy(days[..|days|-1], last);
      }
    }
  }

  lemma {:induction false} SortedAfter(days: seq<Day>, date: int)
    requires Sorted(DateOrder, days)
    ensures Sorted(DateOrder, After(days, date))
  {
    SortedKept(DateOrder, (d: Day) => d.date > date, days);
  }

  /** Position and day of the exit in the forward list. */
  lemma {:induction false} HitIndex(days: seq<Day>, mark: real, ref: real, rule: ExitRule)
    requires FirstHit(days, mark, ref, rule).Some?
    ensures var h := FirstHit(days, mark, ref, rule).value;
      1 <= h.index <= |days| && days[h.index-1] == h.day
    ensures FirstHit(days[..FirstHit(days, mark, ref, rule).value.index], mark, ref, rule)
         == FirstHit(days, mark, ref, rule)
  {
    var n := |days| - 1;
    var before := FirstHit(days[..n], mark, ref, rule);
    if before.Some? {
      HitIndex(days[..n], mark, ref, rule);
      assert days[..n][..before.value.index] == days[..before.value.index];
    } else {
      assert days[..n+1] == days;
    }
  }

  /** On a sorted list, everything up to a day dated `last` is kept by the cut at `last`. */
  lemma {:induction false} PastIsPrefix(days: seq<Day>, n: nat, last: int)
    requires Sorted(DateOrder, days) && 1 <= n <= |days| && days[n-1].date == last
    ensures n <= |DaysBy(days, last)| && DaysBy(days, last)[..n] == days[..n]
  {
    var past := DaysBy(days, last);
    var future := Filter((d: Day) => !By(d, last), days);
    SplitDownClosed(DateOrder, (d: Day) => By(d, last), (d: Day) => !By(d, last), days);
    forall k | |past| <= k < |days| ensures days[k].date > last {
      assert days[k] == future[k - |past|];
      assert future[k - |past|] in future;
    }
  }

  /** Days after the exit date play no part in finding it. */
  lemma {:induction false} HitFromPast(days: seq<Day>, mark: real, ref: real, rule: ExitRule, last: int)
    requires Sorted(DateOrder, days)
    requires FirstHit(days, mark, ref, rule).Some? && FirstHit(days, mark, ref, rule).value.day.date == last
    ensures FirstHit(DaysBy(days, last), mark, ref, rule) == FirstHit(days, mark, ref, rule)
  {
    HitIndex(days, mark, ref, rule);
    var n := FirstHit(days, mark, ref, rule).value.index;
    PastIsPrefix(days, n, last);
    var past := DaysBy(days, last);
    SplitAt(past, n);
    FirstHitOfPrefix(past[..n], past[n..], mark, ref, rule);
  }

  /** With the future withheld, the walk finds the exit it would have found anyway. */
  lemma {:induction false} HitWithoutFuture(aligned: seq<Day>, entryDate: int, mark: real, ref: real, rule: ExitRule,
                                            last: int)
    requires Sorted(DateOrder, aligned)
    requires var h := FirstHit(After(aligned, entryDate), mark, ref, rule); h.Some? && h.value.day.date == last
    ensures last > entryDate
    ensures FirstHit(After(DaysBy(aligned, last), entryDate), mark, ref, rule)
         == FirstHit(After(aligned, entryDate), mark, ref, rule)
  {
    var forward := After(aligned, entryDate);
    SortedAfter(aligned, entryDate);
    HitIndex(forward, mark, ref, rule);
    assert FirstHit(forward, mark, ref, rule).value.day in forward;
    FiltersCommute((d: Day) => d.date > entryDate, (d: Day) => By(d, last), aligned);
    HitFromPast(forward, mark, ref, rule, last);
  }

  /** The result computed from the quotes known by the exit date is the result. */
  lemma {:induction false} DecidedByTheExitDate(trade: Trade, longs: seq<Quote>, shorts: seq<Quote>, rule: ExitRule,
                                                cfg: Liquidity, ks: seq<real>, rate: real, last: int)
    requires var r := Evaluate(trade, longs, shorts, rule, cfg, ks, rate);
      r.Included? && r.exitReason != DataEnd && r.exitDate == last
    ensures Evaluate(trade, Known(longs, last), Known(shorts, last), rule, cfg, ks, rate)
         == Evaluate(trade, longs, shorts, rule, cfg, ks, rate)
  {
    var aligned := Align(longs, shorts);
    AlignKnown(longs, shorts, last);
    var entry := EntryDay(aligned, trade.entryDate).value;
    var mark := SpreadMarkMid(entry).value;
    HitWithoutFuture(aligned, trade.entryDate, mark, Basis(mark), rule, last);
    EntryDayKnown(aligned, trade.entryDate, last);
  }

  /** No look-ahead: when a rule fired, quotes dated after the exit change nothing. */
  lemma {:induction false} LaterQuotesDoNotMatter(trade: Trade, longs: seq<Quote>, shorts: seq<Quote>,
                                                  longs': seq<Quote>, shorts': seq<Quote>, rule: ExitRule,
                                                  cfg: Liquidity, ks: seq<real>, rate: real)
    requires var r := Evaluate(trade, longs, shorts, rule, cfg, ks, rate);
      && r.Included? && r.exitReason != DataEnd
      && Known(longs, r.exitDate) == Known(longs', r.exitDate)
      && Known(shorts, r.exitDate) == Known(shorts', r.exitDate)
    ensures Evaluate(trade, longs', shorts', rule, cfg, ks, rate) == Evaluate(trade, longs, shorts, rule, cfg, ks, rate)
  {
    var last := Evaluate(trade, longs, shorts, rule, cfg, ks, rate).exitDate;
    DecidedByTheExitDate(trade, longs, shorts, rule, cfg, ks, rate, last);
    FutureAddsNothing(trade, longs', shorts', rule, cfg, ks, rate, last);
  }

  lemma {:induction false} FutureAddsNothing(trade: Trade, longs: seq<Quote>, shorts: seq<Quote>, rule: ExitRule,
                                             cfg: Liquidity, ks: seq<real>, rate: real, last: int)
    requires var r := Evaluate(trade, Known(longs, last), Known(shorts, last), rule, cfg, ks, rate);
      r.Included? && r.exitReason != DataEnd && r.exitDate == last
    ensures Evaluate(trade, longs, shorts, rule, cfg, ks, rate)
         == Evaluate(trade, Known(longs, last), Known(shorts, last), rule, cfg, ks, rate)
  {
    var aligned := Align(longs, shorts);
    AlignKnown(longs, shorts, last);
    var known := DaysBy(aligned, last);
    var entry := EntryDay(known, trade.entryDate).value;
    var mark := SpreadMarkMid(entry).value;
    HitWithFuture(aligned, trade.entryDate, mark, Basis(mark), rule, last);
    EntryDayKnown(aligned, trade.entryDate, last);
  }

  lemma {:induction false} HitWithFuture(aligned: seq<Day>, entryDate: int, mark: real, ref: real, rule: ExitRule,
                                         last: int)
    requires Sorted(DateOrder, aligned)
    requires var h := FirstHit(After(DaysBy(aligned, last), entryDate), mark, ref, rule);
      h.Some? && h.value.day.date == last
    ensures last > entryDate
    ensures FirstHit(After(aligned, entryDate), mark, ref, rule)
         == FirstHit(After(DaysBy(aligned, last), entryDate), mark, ref, rule)
  {
    var known := After(DaysBy(aligned, last), entryDate);
    HitIndex(known, mark, ref, rule);
    assert FirstHit(known, mark, ref, rule).value.day in known;
    SplitDownClosed(DateOrder, (d: Day) => By(d, last), (d: Day) => !By(d, last), aligned);
    var future := Filter((d: Day) => !By(d, last), aligned);
    FilterAppend((d: Day) => d.date > entryDate, DaysBy(aligned, last), future);
    FirstHitOfPrefix(known, After(future, entryDate), mark, ref, rule);
  }

  /** Every repriced trade leaves strictly after the day it entered. */
  lemma {:induction false} ExitsAfterEntry(trade: Trade, longs: seq<Quote>, shorts: seq<Quote>, rule: ExitRule,
                                           cfg: Liquidity, ks: seq<real>, rate: real)
    ensures var r := Evaluate(trade, longs, shorts, rule, cfg, ks, rate);
      r.Included? ==> r.exitDate > trade.entryDate && r.daysHeld >= 1
  {
    var aligned := Align(longs, shorts);
    var forward := After(aligned, trade.entryDate);
    var found := EntryDay(aligned, trade.entryDate);
    if found.Some? && SpreadMarkMid(found.value).Some? {
      var mark := SpreadMarkMid(found.value).value;
      if FirstHit(forward, mark, Basis(mark), rule).Some? {
        HitIndex(forward, mark, Basis(mark), rule);
        assert FirstHit(forward, mark, Basis(mark), rule).value.day in forward;
      } else {
        var quoted := Quoted(forward);
        assert quoted != [] ==> quoted[|quoted|-1] in quoted;
      }
    }
  }
}
