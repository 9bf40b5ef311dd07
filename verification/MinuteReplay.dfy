/** Replay of a plan's exit rules against minute bars
    (app/analytics/intraday_settlement.py). */
module MinuteReplay {
  import opened Basics
  import opened Seqs
  import opened OptionStructures
  import opened DailyReplay

  datatype Bar = Bar(low: int, high: int)

  datatype Minute = Minute(at: int, bars: map<string, Bar>)

  datatype Range = Range(worst: int, best: int)

  // ------------------------------------------------------------ the range of a minute

  function Widen(leg: Leg, r: Range, bar: Bar): Range {
    if IsLong(leg) then Range(r.worst + bar.low, r.best + bar.high)
    else Range(r.worst - bar.high, r.best - bar.low)
  }

  function RangeAt(legs: seq<Leg>, bars: map<string, Bar>, keyOf: Leg -> string): Option<Range> {
    if legs == [] then Some(Range(0, 0))
    else
      var leg := legs[|legs|-1];
      var rest :- RangeAt(legs[..|legs|-1], bars, keyOf);
      if keyOf(leg) in bars then Some(Widen(leg, rest, bars[keyOf(leg)])) else None
  }

  lemma {:induction false} NoRangeOfPrefix(legs: seq<Leg>, n: nat, bars: map<string, Bar>, keyOf: Leg -> string)
    requires n <= |legs| && RangeAt(legs[..n], bars, keyOf) == None
    ensures RangeAt(legs, bars, keyOf) == None
    decreases |legs|
  {
    if n < |legs| {
      assert legs[..|legs|-1][..n] == legs[..n];
      NoRangeOfPrefix(legs[..|legs|-1], n, bars, keyOf);
    } else {
      assert legs[..n] == legs;
    }
  }

  /** `structure_range` */
  method StructureRange(legs: seq<Leg>, bars: map<string, Bar>, keyOf: Leg -> string) returns (r: Option<Range>)
    ensures r == RangeAt(legs, bars, keyOf)
  {
    var worst, best := 0, 0;
    var i := 0;
    while i < |legs|
      invariant 0 <= i <= |legs| && RangeAt(legs[..i], bars, keyOf) == Some(Range(worst, best))
    {
      assert legs[..i+1][..i] == legs[..i];
      if keyOf(legs[i]) !in bars {
        NoRangeOfPrefix(legs, i + 1, bars, keyOf);
        return None;
      }
      var bar := bars[keyOf(legs[i])];
      if IsLong(legs[i]) {
        worst, best := worst + bar.low, best + bar.high;
      } else {
        worst, best := worst - bar.high, best - bar.low;
      }
      i := i + 1;
    }
    assert legs[..i] == legs;
    return Some(Range(worst, best));
  }

  /** Marks that lie inside every leg's bar. */
  ghost predicate InsideBars(legs: seq<Leg>, keyOf: Leg -> string, bars: map<string, Bar>, marks: map<string, int>) {
    forall leg | leg in legs ::
      && keyOf(leg) in bars && keyOf(leg) in marks
      && bars[keyOf(leg)].low <= marks[keyOf(leg)] <= bars[keyOf(leg)].high
  }

  /** The range bounds the net of anything that traded inside the bars. */
  lemma {:induction false} RangeBounds(legs: seq<Leg>, keyOf: Leg -> string, bars: map<string, Bar>,
                                       marks: map<string, int>)
    requires InsideBars(legs, keyOf, bars, marks)
    ensures RangeAt(legs, bars, keyOf).Some? && NetAt(legs, marks, keyOf).Some?
    ensures var r, net := RangeAt(legs, bars, keyOf).value, NetAt(legs, marks, keyOf).value;
      r.worst <= net <= r.best
  {
    if legs != [] {
      assert legs == legs[..|legs|-1] + [legs[|legs|-1]];
      RangeBounds(legs[..|legs|-1], keyOf, bars, marks);
    }
  }

  // ------------------------------------------------------------------ the minute walk

  /** Running extremes, count and last value of the priced minutes, and the exit taken. */
  datatype Walk = Walk(mfe: real, mae: real, mfeAt: Option<int>, maeAt: Option<int>, seen: nat,
                       last: Option<Exit>, exit: Option<Exit>)

  datatype Excursion = Excursion(mfe: real, mae: real, mfeAt: Option<int>, maeAt: Option<int>, seen: nat)

  const START := Walk(0.0, 0.0, None, None, 0, None, None)

  /** The exit one minute forces: stop on its worst value, then target on its best. */
  function BarExit(rules: Rules, entry: int, at: int, r: Range): Option<Exit>
    requires entry != 0
  {
    if StopHit(rules, Change(r.worst, entry)) then Some(Exit(at, r.worst, StopLoss))
    else if TargetHit(rules, Change(r.best, entry)) then Some(Exit(at, r.best, ProfitTarget))
    else None
  }

  function MinuteExit(legs: seq<Leg>, keyOf: Leg -> string, rules: Rules, entry: int, m: Minute): Option<Exit>
    requires entry != 0
  {
    match RangeAt(legs, m.bars, keyOf)
    case None => None
    case Some(r) => BarExit(rules, entry, m.at, r)
  }

  /** One priced minute. */
  function See(w: Walk, rules: Rules, entry: int, at: int, r: Range): Walk
    requires entry != 0
  {
    var up, down := Change(r.best, entry), Change(r.worst, entry);
    Walk(if up > w.mfe then up else w.mfe, if down < w.mae then down else w.mae,
         if up > w.mfe then Some(at) else w.mfeAt, if down < w.mae then Some(at) else w.maeAt,
         w.seen + 1, Some(Exit(at, r.best, SessionClose)), BarExit(rules, entry, at, r))
  }

  function Scan(legs: seq<Leg>, keyOf: Leg -> string, rules: Rules, entry: int, minutes: seq<Minute>): Walk
    requires entry != 0
  {
    if minutes == [] then START
    else
      var m := minutes[|minutes|-1];
      var w := Scan(legs, keyOf, rules, entry, minutes[..|minutes|-1]);
      match RangeAt(legs, m.bars, keyOf)
      case None => w
      case Some(r) => if w.exit.Some? then w else See(w, rules, entry, m.at, r)
  }

  function Rounded(w: Walk): Option<Excursion> {
    if w.seen == 0 then None
    else Some(Excursion(RoundTo(w.mfe, 10000), RoundTo(w.mae, 10000), w.mfeAt, w.maeAt, w.seen))
  }

  function Outcome(w: Walk, sessionCloseExit: bool): (Option<Exit>, Option<Excursion>) {
    if w.exit.Some? then (w.exit, Rounded(w))
    else if sessionCloseExit && w.last.Some? then (w.last, Rounded(w))
    else (None, Rounded(w))
  }

  predicate MinuteOrder(a: Minute, b: Minute) {
    a.at <= b.at
  }

  predicate FromEntry(m: Minute, entryTs: Option<int>) {
    entryTs.None? || m.at >= entryTs.value
  }

  function MinuteWindow(log: seq<Minute>, entryTs: Option<int>): seq<Minute> {
    SortBy(MinuteOrder, Filter((m: Minute) => FromEntry(m, entryTs), log))
  }

  function Intraday(legs: seq<Leg>, keyOf: Leg -> string, rules: Rules, entry: int, log: seq<Minute>,
                    entryTs: Option<int>, sessionCloseExit: bool): (Option<Exit>, Option<Excursion>)
  {
    if entry == 0 then (None, None)
    else Outcome(Scan(legs, keyOf, rules, entry, MinuteWindow(log, entryTs)), sessionCloseExit)
  }

  /** After an exit the rest of the list is not looked at. */
  lemma {:induction false} ScanStops(legs: seq<Leg>, keyOf: Leg -> string, rules: Rules, entry: int, a: seq<Minute>,
                                     b: seq<Minute>)
    requires entry != 0 && Scan(legs, keyOf, rules, entry, a).exit.Some?
    ensures Scan(legs, keyOf, rules, entry, a + b) == Scan(legs, keyOf, rules, entry, a)
    decreases |b|
  {
    if b == [] {
      assert a + b == a;
    } else {
      assert (a + b)[..|a+b|-1] == a + b[..|b|-1];
      ScanStops(legs, keyOf, rules, entry, a, b[..|b|-1]);
    }
  }

  lemma {:induction false} ScanNext(legs: seq<Leg>, keyOf: Leg -> string, rules: Rules, entry: int,
                                    minutes: seq<Minute>, i: nat)
    requires entry != 0 && i < |minutes| && Scan(legs, keyOf, rules, entry, minutes[..i]).exit.None?
    ensures var w, range := Scan(legs, keyOf, rules, entry, minutes[..i]), RangeAt(legs, minutes[i].bars, keyOf);
      var next := if range.None? then w else See(w, rules, entry, minutes[i].at, range.value);
      && Scan(legs, keyOf, rules, entry, minutes[..i+1]) == next
      && (next.exit.Some? ==> Scan(legs, keyOf, rules, entry, minutes) == next)
  {
    assert minutes[..i+1][..i] == minutes[..i];
    if Scan(legs, keyOf, rules, entry, minutes[..i+1]).exit.Some? {
      ScanStops(legs, keyOf, rules, entry, minutes[..i+1], minutes[i+1..]);
      assert minutes == minutes[..i+1] + minutes[i+1..];
    }
  }

  /** `walk_intraday` */
  method WalkIntraday(legs: seq<Leg>, keyOf: Leg -> string, rules: Rules, entry: int, log: seq<Minute>,
                      entryTs: Option<int>, sessionCloseExit: bool) returns (exit: Option<Exit>, exc: Option<Excursion>)
    ensures (exit, exc) == Intraday(legs, keyOf, rules, entry, log, entryTs, sessionCloseExit)
  {
    if Abs(entry) == 0 {
      return None, None;
    }
    var minutes := MinuteWindow(log, entryTs);
    var mfe, mae := 0.0, 0.0;
    var mfeAt: Option<int>, maeAt: Option<int> := None, None;
    var seen: nat := 0;
    var last: Option<Exit> := None;
    var i := 0;
    while i < |minutes|
      invariant 0 <= i <= |minutes|
      invariant Scan(legs, keyOf, rules, entry, minutes[..i]) == Walk(mfe, mae, mfeAt, maeAt, seen, last, None)
    {
      var m := minutes[i];
      ScanNext(legs, keyOf, rules, entry, minutes, i);
      var range := StructureRange(legs, m.bars, keyOf);
      if range.Some? {
        var worst, best := range.value.worst, range.value.best;
        seen, last := seen + 1, Some(Exit(m.at, best, SessionClose));
        var up, down := Change(best, entry), Change(worst, entry);
        if up > mfe {
          mfe, mfeAt := up, Some(m.at);
        }
        if down < mae {
          mae, maeAt := down, Some(m.at);
        }
        if rules.stop.Some? && down <= -rules.stop.value {
          return Some(Exit(m.at, worst, StopLoss)), Rounded(Walk(mfe, mae, mfeAt, maeAt, seen, None, None));
        }
        if rules.target.Some? && up >= rules.target.value {
          return Some(Exit(m.at, best, ProfitTarget)), Rounded(Walk(mfe, mae, mfeAt, maeAt, seen, None, None));
        }
      }
      i := i + 1;
    }
    assert minutes[..i] == minutes;
    exc := Rounded(Walk(mfe, mae, mfeAt, maeAt, seen, last, None));
    if sessionCloseExit && last.Some? {
      return last, exc;
    }
    return None, exc;
  }
}
