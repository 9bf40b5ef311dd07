/** The report over a population of repriced trades (app/backtest/real_mark_runner.py). */
module RealMarkReport {
  import opened Basics
  import opened Seqs
  import opened ListDicts
  import opened RealMarkFills
  import opened RealMarkWalk

  datatype Row = Row(trade: Trade, result: Result)

  /** A row with its net P&L at one crossing fraction. */
  datatype Priced = Priced(trade: Trade, result: Result, net: real)

  function Nets(rows: seq<Priced>): (xs: seq<real>)
    ensures |xs| == |rows| && forall i | 0 <= i < |rows| :: xs[i] == rows[i].net
  {
    if rows == [] then [] else Nets(rows[..|rows|-1]) + [rows[|rows|-1].net]
  }

  // ----------------------------------------------------------------- priced at one k

  function NetAtK(r: Result, k: real): Option<real> {
    if r.Included? && k in r.byK && Fillable(r.byK[k]) then r.byK[k].net else None
  }

  function PricedAt(rows: seq<Row>, k: real): seq<Priced> {
    if rows == [] then []
    else
      var rest, last := PricedAt(rows[..|rows|-1], k), rows[|rows|-1];
      match NetAtK(last.result, k)
      case None => rest
      case Some(net) => rest + [Priced(last.trade, last.result, net)]
  }

  /** `x[1].exit_date or x[1].entry_date`; an included result has an exit date. */
  function OrderDate(p: Priced): int {
    if p.result.Included? then p.result.exitDate else p.trade.entryDate
  }

  predicate ExitOrder(a: Priced, b: Priced) {
    OrderDate(a) <= OrderDate(b)
  }

  function ByExit(rows: seq<Row>, k: real): seq<Priced> {
    SortBy(ExitOrder, PricedAt(rows, k))
  }

  /** `_net_pnls_at_k` */
  method NetPnlsAtK(rows: seq<Row>, k: real) returns (out: seq<Priced>)
    ensures out == ByExit(rows, k)
  {
    out := [];
    var i := 0;
    while i < |rows|
      invariant 0 <= i <= |rows| && out == PricedAt(rows[..i], k)
    {
      var r := rows[i].result;
      assert rows[..i+1][..i] == rows[..i];
      if r.Included? && k in r.byK {
        var rt := r.byK[k];
        if Fillable(rt) && rt.net.Some? {
          out := out + [Priced(rows[i].trade, r, rt.net.value)];
        }
      }
      i := i + 1;
    }
    assert rows[..i] == rows;
    out := SortBy(ExitOrder, out);
  }

  datatype KStats = KStats(k: real, n: nat, wins: nat, losses: nat, net: real)

  predicate Positive(x: real) {
    x > 0.0
  }

  predicate Negative(x: real) {
    x < 0.0
  }

  /** The counts and the total of `_kstats`. */
  function Stats(rows: seq<Row>, k: real): KStats {
    var pnls := Nets(ByExit(rows, k));
    KStats(k, |pnls|, CountIf(Positive, pnls), CountIf(Negative, pnls), Sum(pnls))
  }

  /** The rows of a report are those fillable at k, in the order of their exit dates. */
  lemma {:induction false} ReportIsByExit(rows: seq<Row>, k: real)
    ensures forall x | x in ByExit(rows, k) :: x.result.Included? && Row(x.trade, x.result) in rows
    ensures forall i, j | 0 <= i < j < |ByExit(rows, k)| ::
              var x, y := ByExit(rows, k)[i], ByExit(rows, k)[j];
              x.result.Included? && y.result.Included? && x.result.exitDate <= y.result.exitDate
  {
    PricedRows(rows, k);
    assert TotalPreorder(ExitOrder);
    SortBySorted(ExitOrder, PricedAt(rows, k));
    SortPermutes(ExitOrder, PricedAt(rows, k));
    SameElements(ByExit(rows, k), PricedAt(rows, k));
    assert forall i, j | 0 <= i < j < |ByExit(rows, k)| :: ExitOrder(ByExit(rows, k)[i], ByExit(rows, k)[j]);
  }

  lemma {:induction false} PricedRows(rows: seq<Row>, k: real)
    ensures forall x | x in PricedAt(rows, k) :: x.result.Included? && Row(x.trade, x.result) in rows
  {
    if rows != [] {
      PricedRows(rows[..|rows|-1], k);
      SplitLast(rows);
    }
  }

  /** A trade wins, loses or comes out even. */
  lemma {:induction false} WinsAndLosses(rows: seq<Row>, k: real)
    ensures var s := Stats(rows, k);
      s.wins + s.losses + CountIf((x: real) => x == 0.0, Nets(ByExit(rows, k))) == s.n == |PricedAt(rows, k)|
  {
    SignsCount(Nets(ByExit(rows, k)));
  }

  lemma {:induction false} SignsCount(xs: seq<real>)
    ensures CountIf(Positive, xs) + CountIf(Negative, xs) + CountIf((x: real) => x == 0.0, xs) == |xs|
  {
    if xs != [] {
      SignsCount(xs[..|xs|-1]);
    }
  }

  // ------------------------------------------------------------------ the population

  /** One trade with the recorded quotes and rule it is repriced under. */
  datatype Job = Job(trade: Trade, longs: seq<Quote>, shorts: seq<Quote>, rule: ExitRule)

  function Reprice(jobs: seq<Job>, cfg: Liquidity, ks: seq<real>, rate: real): (rows: seq<Row>)
    ensures |rows| == |jobs|
  {
    if jobs == [] then []
    else
      var j := jobs[|jobs|-1];
      Reprice(jobs[..|jobs|-1], cfg, ks, rate)
      + [Row(j.trade, Evaluate(j.trade, j.longs, j.shorts, j.rule, cfg, ks, rate))]
  }

  /** What every repriced row satisfies: both fractions present, fillable together,
      the conservative one no better, and the flag set exactly when the edge is lost. */
  ghost predicate Coherent(r: Result) {
    r.Included? ==>
      && OPTIMISTIC in r.byK && CONSERVATIVE in r.byK
      && (NetAtK(r, OPTIMISTIC).Some? <==> NetAtK(r, CONSERVATIVE).Some?)
      && (NetAtK(r, OPTIMISTIC).Some? ==> NetAtK(r, CONSERVATIVE).value <= NetAtK(r, OPTIMISTIC).value)
      && (r.fragile <==> NetAtK(r, OPTIMISTIC).Some?
                         && NetAtK(r, OPTIMISTIC).value > 0.0 >= NetAtK(r, CONSERVATIVE).value)
  }

  lemma {:induction false} CloseIsCoherent(trade: Trade, entry: Day, exit: Day, held: nat, reason: ExitReason,
                                           ks: seq<real>, rate: real)
    requires trade.contracts >= 0 && OPTIMISTIC in ks && CONSERVATIVE in ks
    ensures Coherent(Close(trade, entry, exit, held, reason, ks, rate))
  {
    SlippageOnlyCosts(entry.long, entry.short, exit.long, exit.short, OPTIMISTIC, CONSERVATIVE, trade.contracts, rate);
  }

  lemma {:induction false} SettleIsCoherent(trade: Trade, entry: Day, forward: seq<Day>, rule: ExitRule, ks: seq<real>,
                                            rate: real)
    requires SpreadMarkMid(entry).Some?
    requires trade.contracts >= 0 && OPTIMISTIC in ks && CONSERVATIVE in ks
    ensures Coherent(Settle(trade, entry, forward, rule, ks, rate))
  {
    var mark := SpreadMarkMid(entry).value;
    match FirstHit(forward, mark, Basis(mark), rule)
    case Some(h) => CloseIsCoherent(trade, entry, h.day, h.index, h.reason, ks, rate);
    case None =>
      var quoted := Quoted(forward);
      if quoted != [] {
        CloseIsCoherent(trade, entry, quoted[|quoted|-1], |quoted|, DataEnd, ks, rate);
      }
  }

  lemma {:induction false} EvaluateIsCoherent(j: Job, cfg: Liquidity, ks: seq<real>, rate: real)
    requires j.trade.contracts >= 0 && OPTIMISTIC in ks && CONSERVATIVE in ks
    ensures Coherent(Evaluate(j.trade, j.longs, j.shorts, j.rule, cfg, ks, rate))
  {
    var aligned := Align(j.longs, j.shorts);
    var entry := EntryDay(aligned, j.trade.entryDate);
    if entry.Some? && SpreadMarkMid(entry.value).Some? {
      SettleIsCoherent(j.trade, entry.value, After(aligned, j.trade.entryDate), j.rule, ks, rate);
    }
  }

  lemma {:induction false} RowsAreCoherent(jobs: seq<Job>, cfg: Liquidity, ks: seq<real>, rate: real)
    requires OPTIMISTIC in ks && CONSERVATIVE in ks && forall j | j in jobs :: j.trade.contracts >= 0
    ensures forall row | row in Reprice(jobs, cfg, ks, rate) :: Coherent(row.result)
  {
    if jobs != [] {
      RowsAreCoherent(jobs[..|jobs|-1], cfg, ks, rate);
      EvaluateIsCoherent(jobs[|jobs|-1], cfg, ks, rate);
    }
  }

  // ------------------------------------------- the two fractions, position by position

  ghost predicate Paired(a: seq<Priced>, b: seq<Priced>) {
    && |a| == |b|
    && forall i | 0 <= i < |a| ::
         && a[i].trade == b[i].trade && a[i].result == b[i].result
         && b[i].net <= a[i].net
         && (a[i].result.Included? && a[i].result.fragile <==> a[i].net > 0.0 >= b[i].net)
  }

  lemma {:induction false} PairedRows(rows: seq<Row>)
    requires forall row | row in rows :: Coherent(row.result)
    ensures Paired(PricedAt(rows, OPTIMISTIC), PricedAt(rows, CONSERVATIVE))
  {
    if rows != [] {
      PairedRows(rows[..|rows|-1]);
      assert rows[|rows|-1] in rows;
    }
  }

  lemma {:induction false} InsertPaired(a: seq<Priced>, b: seq<Priced>, x: Priced, y: Priced)
    requires Paired(a, b) && Paired([x], [y])
    ensures Paired(Insert(ExitOrder, a, x), Insert(ExitOrder, b, y))
    decreases |a|
  {
    assert [x][0] == x && [y][0] == y;
    if a != [] && !ExitOrder(a[|a|-1], x) {
      InsertPaired(a[..|a|-1], b[..|b|-1], x, y);
    }
  }

  lemma {:induction false} SortPaired(a: seq<Priced>, b: seq<Priced>)
    requires Paired(a, b)
    ensures Paired(SortBy(ExitOrder, a), SortBy(ExitOrder, b))
  {
    if a != [] {
      var n := |a| - 1;
      SortPaired(a[..n], b[..n]);
      InsertPaired(SortBy(ExitOrder, a[..n]), SortBy(ExitOrder, b[..n]), a[n], b[n]);
    }
  }

  predicate FragilePriced(p: Priced) {
    p.result.Included? && p.result.fragile
  }

  predicate FragileRow(row: Row) {
    row.result.Included? && row.result.fragile
  }

  lemma {:induction false} PairedCounts(a: seq<Priced>, b: seq<Priced>)
    requires Paired(a, b)
    ensures Sum(Nets(b)) <= Sum(Nets(a))
    ensures CountIf(Positive, Nets(a)) == CountIf(Positive, Nets(b)) + CountIf(FragilePriced, a)
    ensures CountIf(Negative, Nets(a)) <= CountIf(Negative, Nets(b))
  {
    if a != [] {
      var n := |a| - 1;
      PairedCounts(a[..n], b[..n]);
      assert Nets(a)[..n] == Nets(a[..n]) && Nets(b)[..n] == Nets(b[..n]);
    }
  }

  /** Every fragile row is priced, so counting either way gives the same number. */
  lemma {:induction false} FragileRowsArePriced(rows: seq<Row>)
    requires forall row | row in rows :: Coherent(row.result)
    ensures CountIf(FragileRow, rows) == CountIf(FragilePriced, PricedAt(rows, OPTIMISTIC))
  {
    if rows != [] {
      var n := |rows| - 1;
      FragileRowsArePriced(rows[..n]);
      assert rows[n] in rows;
      var priced := PricedAt(rows, OPTIMISTIC);
      if NetAtK(rows[n].result, OPTIMISTIC).Some? {
        assert priced[..|priced|-1] == PricedAt(rows[..n], OPTIMISTIC);
      }
    }
  }

  /** Paying the full spread never flatters: the k = 1.0 report covers the same trades,
      has no more winners, no fewer losers and no larger total than the k = 0.5 report,
      and the trades flagged fragile are exactly the winners it loses. */
  lemma {:induction false} ConservativeReportIsNoBetter(jobs: seq<Job>, cfg: Liquidity, ks: seq<real>, rate: real)
    requires OPTIMISTIC in ks && CONSERVATIVE in ks && forall j | j in jobs :: j.trade.contracts >= 0
    ensures var rows := Reprice(jobs, cfg, ks, rate);
      var optimistic, conservative := Stats(rows, OPTIMISTIC), Stats(rows, CONSERVATIVE);
      && conservative.n == optimistic.n
      && conservative.net <= optimistic.net
      && conservative.losses >= optimistic.losses
      && CountIf(FragileRow, rows) == optimistic.wins - conservative.wins
  {
    var rows := Reprice(jobs, cfg, ks, rate);
    RowsAreCoherent(jobs, cfg, ks, rate);
    PairedRows(rows);
    SortPaired(PricedAt(rows, OPTIMISTIC), PricedAt(rows, CONSERVATIVE));
    PairedCounts(ByExit(rows, OPTIMISTIC), ByExit(rows, CONSERVATIVE));
    FragileRowsArePriced(rows);
    SortPermutes(ExitOrder, PricedAt(rows, OPTIMISTIC));
    CountPermutes(FragilePriced, ByExit(rows, OPTIMISTIC), PricedAt(rows, OPTIMISTIC));
  }

  // ------------------------------------------------------------------- the aggregate

  predicate ExcludedFor(row: Row, why: Exclusion) {
    row.result.Excluded? && row.result.reason == why
  }

  predicate IsIncluded(row: Row) {
    row.result.Included?
  }

  /** The tally of exclusions: each reason seen, with how often. */
  method TallyExclusions(rows: seq<Row>) returns (tally: map<Exclusion, nat>)
    ensures forall why :: (why in tally) <==> CountIf((row: Row) => ExcludedFor(row, why), rows) > 0
    ensures forall why | why in tally :: tally[why] == CountIf((row: Row) => ExcludedFor(row, why), rows)
  {
    tally := map[];
    var i := 0;
    while i < |rows|
      invariant 0 <= i <= |rows|
      invariant forall why :: (why in tally) <==> CountIf((row: Row) => ExcludedFor(row, why), rows[..i]) > 0
      invariant forall why | why in tally :: tally[why] == CountIf((row: Row) => ExcludedFor(row, why), rows[..i])
    {
      var r := rows[i].result;
      assert rows[..i+1][..i] == rows[..i];
      if r.Excluded? {
        var count: nat := if r.reason in tally then tally[r.reason] else 0;
        tally := tally[r.reason := count + 1];
      }
      i := i + 1;
    }
    assert rows[..i] == rows;
  }

  /** Every row is either included or counted under exactly one reason. */
  lemma {:induction false} EveryRowIsAccountedFor(rows: seq<Row>)
    ensures |rows| == CountIf(IsIncluded, rows)
                    + CountIf((row: Row) => ExcludedFor(row, NoAlignedEntryBar), rows)
                    + CountIf((row: Row) => ExcludedFor(row, EntryLiquidityGuard), rows)
                    + CountIf((row: Row) => ExcludedFor(row, EntryNoQuote), rows)
                    + CountIf((row: Row) => ExcludedFor(row, NoTradeableExitDay), rows)
  {
    if rows != [] {
      EveryRowIsAccountedFor(rows[..|rows|-1]);
    }
  }

  // ----------------------------------------------------------------------- the groups

  datatype Group<K> = Group(key: K, n: nat, net: real, wins: nat)

  function KeyLog<K>(rows: seq<Priced>, keyOf: Priced -> K): (log: seq<(K, real)>)
    ensures |log| == |rows|
  {
    if rows == [] then [] else KeyLog(rows[..|rows|-1], keyOf) + [(keyOf(rows[|rows|-1]), rows[|rows|-1].net)]
  }

  function GroupOf<K(==)>(log: seq<(K, real)>, key: K): Group<K> {
    var pnls := At(log, key);
    Group(key, |pnls|, Sum(pnls), CountIf(Positive, pnls))
  }

  function GroupsOf<K(==)>(log: seq<(K, real)>, keys: seq<K>): (groups: seq<Group<K>>)
    ensures |groups| == |keys|
  {
    if keys == [] then [] else GroupsOf(log, keys[..|keys|-1]) + [GroupOf(log, keys[|keys|-1])]
  }

  lemma {:induction false} KeyLogNext<K>(rows: seq<Priced>, keyOf: Priced -> K, i: nat)
    requires i < |rows|
    ensures KeyLog(rows[..i+1], keyOf) == KeyLog(rows[..i], keyOf) + [(keyOf(rows[i]), rows[i].net)]
  {
    TakeNext(rows, i);
  }

  lemma {:induction false} GroupsOfNext<K>(log: seq<(K, real)>, keys: seq<K>, j: nat)
    requires j < |keys|
    ensures GroupsOf(log, keys[..j+1]) == GroupsOf(log, keys[..j]) + [GroupOf(log, keys[j])]
  {
    TakeNext(keys, j);
  }

  lemma {:induction false} SortedAreMembers<K(!new)>(leq: (K, K) -> bool, keys: seq<K>)
    ensures forall i | 0 <= i < |SortBy(leq, keys)| :: SortBy(leq, keys)[i] in keys
  {
    SortPermutes(leq, keys);
    SameElements(SortBy(leq, keys), keys);
  }

  /** `_grouped` */
  method Grouped<K(==,!new)>(priced: seq<Priced>, keyOf: Priced -> K, leq: (K, K) -> bool)
    returns (out: seq<Group<K>>)
    ensures var log := KeyLog(priced, keyOf); out == GroupsOf(log, SortBy(leq, Keys(log)))
  {
    var groups := new ListDict<K, real>();
    var i := 0;
    while i < |priced|
      invariant 0 <= i <= |priced| && fresh(groups) && groups.Valid()
      invariant groups.log == KeyLog(priced[..i], keyOf)
    {
      KeyLogNext(priced, keyOf, i);
      groups.Append(keyOf(priced[i]), priced[i].net);
      i := i + 1;
    }
    TakeAll(priced);
    SortedAreMembers(leq, groups.keys);
    out := Summaries(groups, SortBy(leq, groups.keys));
  }

  /** The rows of a report, one for each of the keys in turn. */
  method Summaries<K(==,!new)>(groups: ListDict<K, real>, keys: seq<K>) returns (out: seq<Group<K>>)
    requires groups.Valid() && forall i | 0 <= i < |keys| :: keys[i] in groups.keys
    ensures out == GroupsOf(groups.log, keys)
  {
    out := [];
    var j := 0;
    while j < |keys|
      invariant 0 <= j <= |keys| && out == GroupsOf(groups.log, keys[..j])
    {
      GroupsOfNext(groups.log, keys, j);
      var pnls := groups.lists[keys[j]];
      out := out + [Group(keys[j], |pnls|, Sum(pnls), CountIf(Positive, pnls))];
      j := j + 1;
    }
    TakeAll(keys);
  }

  function TotalN<K>(groups: seq<Group<K>>): nat {
    if groups == [] then 0 else TotalN(groups[..|groups|-1]) + groups[|groups|-1].n
  }

  function TotalNet<K>(groups: seq<Group<K>>): real {
    if groups == [] then 0.0 else TotalNet(groups[..|groups|-1]) + groups[|groups|-1].net
  }

  function TotalWins<K>(groups: seq<Group<K>>): nat {
    if groups == [] then 0 else TotalWins(groups[..|groups|-1]) + groups[|groups|-1].wins
  }

  lemma {:induction false} GroupsTotal<K>(log: seq<(K, real)>, keys: seq<K>)
    ensures var all := Concat(Lists(log, keys));
      && TotalN(GroupsOf(log, keys)) == |all|
      && TotalNet(GroupsOf(log, keys)) == Sum(all)
      && TotalWins(GroupsOf(log, keys)) == CountIf(Positive, all)
  {
    if keys != [] {
      var n := |keys| - 1;
      GroupsTotal(log, keys[..n]);
      ConcatOne(Lists(log, keys[..n]), At(log, keys[n]));
      SumAppend(Concat(Lists(log, keys[..n])), At(log, keys[n]));
      CountAppend(Positive, Concat(Lists(log, keys[..n])), At(log, keys[n]));
    }
  }

  lemma {:induction false} KeyLogValues<K>(rows: seq<Priced>, keyOf: Priced -> K)
    ensures Values(KeyLog(rows, keyOf)) == Nets(rows)
  {
    if rows != [] {
      KeyLogValues(rows[..|rows|-1], keyOf);
      assert KeyLog(rows, keyOf)[..|rows|-1] == KeyLog(rows[..|rows|-1], keyOf);
    }
  }

  /** Grouped by anything, in any order of the keys, the groups add up to the whole. */
  lemma {:induction false} GroupsConserve<K(!new)>(priced: seq<Priced>, keyOf: Priced -> K, leq: (K, K) -> bool)
    ensures var log := KeyLog(priced, keyOf);
      var groups := GroupsOf(log, SortBy(leq, Keys(log)));
      && TotalN(groups) == |priced|
      && TotalNet(groups) == Sum(Nets(priced))
      && TotalWins(groups) == CountIf(Positive, Nets(priced))
  {
    var log := KeyLog(priced, keyOf);
    var keys := SortBy(leq, Keys(log));
    GroupsTotal(log, keys);
    KeyLogValues(priced, keyOf);
    SortedKeysHoldEverything(log, leq);
    SumPermutes(Concat(Lists(log, keys)), Values(log));
    CountPermutes(Positive, Concat(Lists(log, keys)), Values(log));
    assert |multiset(Concat(Lists(log, keys)))| == |multiset(Values(log))|;
  }

  lemma {:induction false} SortedKeysHoldEverything<K(!new)>(log: seq<(K, real)>, leq: (K, K) -> bool)
    ensures multiset(Concat(Lists(log, SortBy(leq, Keys(log))))) == multiset(Values(log))
  {
    ListsConserve(log);
    SortPermutes(leq, Keys(log));
    ListsPermute(log, SortBy(leq, Keys(log)), Keys(log));
  }

  lemma {:induction false} ListsPermute<K(!new)>(log: seq<(K, real)>, a: seq<K>, b: seq<K>)
    requires multiset(a) == multiset(b)
    ensures multiset(Concat(Lists(log, a))) == multiset(Concat(Lists(log, b)))
    decreases |a|
  {
    assert |multiset(a)| == |a| && |multiset(b)| == |b|;
    if a != [] {
      var n := |a| - 1;
      assert a[n] in multiset(b);
      var i :| 0 <= i < |b| && b[i] == a[n];
      DropLast(a);
      assert b == b[..i] + [b[i]] + b[i+1..];
      ListsPermute(log, a[..n], b[..i] + b[i+1..]);
      ConcatOne(Lists(log, a[..n]), At(log, a[n]));
      ListsDrop(log, b, i);
    }
  }

  lemma {:induction false} ListsAppend<K>(log: seq<(K, real)>, a: seq<K>, b: seq<K>)
    ensures Lists(log, a + b) == Lists(log, a) + Lists(log, b)
    decreases |b|
  {
    if b == [] {
      assert a + b == a;
    } else {
      assert (a + b)[..|a+b|-1] == a + b[..|b|-1];
      ListsAppend(log, a, b[..|b|-1]);
    }
  }

  lemma {:induction false} ListsDrop<K>(log: seq<(K, real)>, b: seq<K>, i: nat)
    requires i < |b|
    ensures multiset(Concat(Lists(log, b)))
         == multiset(Concat(Lists(log, b[..i] + b[i+1..]))) + multiset(At(log, b[i]))
  {
    assert b == b[..i] + [b[i]] + b[i+1..];
    ListsAppend(log, b[..i] + [b[i]], b[i+1..]);
    ListsSnocKey(log, b[..i], b[i]);
    ListsAppend(log, b[..i], b[i+1..]);
    ConcatAppend(Lists(log, b[..i]) + [At(log, b[i])], Lists(log, b[i+1..]));
    ConcatOne(Lists(log, b[..i]), At(log, b[i]));
    ConcatAppend(Lists(log, b[..i]), Lists(log, b[i+1..]));
  }
}
