/** The bootstrap interval for the Spearman correlation (`spearman_ci` in
    app/analytics/metrics.py). The seeded generator is a fixed function from the
    round and the position in it to an index. */
module Bootstrap {
  import opened Basics
  import opened Seqs
  import opened Ranks
  import opened RankCorrelation

  type Observation = (real, real)

  function Zip(xs: seq<real>, ys: seq<real>): (ps: seq<Observation>)
    requires |xs| == |ys|
    ensures |ps| == |xs| && forall i | 0 <= i < |xs| :: ps[i] == (xs[i], ys[i])
  {
    seq(|xs|, i requires 0 <= i < |xs| => (xs[i], ys[i]))
  }

  function Firsts(ps: seq<Observation>): (xs: seq<real>)
    ensures |xs| == |ps| && forall i | 0 <= i < |ps| :: xs[i] == ps[i].0
  {
    seq(|ps|, i requires 0 <= i < |ps| => ps[i].0)
  }

  function Seconds(ps: seq<Observation>): (ys: seq<real>)
    ensures |ys| == |ps| && forall i | 0 <= i < |ps| :: ys[i] == ps[i].1
  {
    seq(|ps|, i requires 0 <= i < |ps| => ps[i].1)
  }

  /** Tuple comparison. */
  predicate PairOrder(a: Observation, b: Observation) {
    a.0 < b.0 || (a.0 == b.0 && a.1 <= b.1)
  }

  predicate AtMost(a: real, b: real) {
    a <= b
  }

  // --------------------------------------------------------------------- the interval

  /** The indices of one round; randrange(n) is below n. */
  function Drawn(c: seq<real>, draw: (int, int) -> int, round: int): (r: seq<real>)
    requires c != []
    ensures |r| == |c|
  {
    seq(|c|, i requires 0 <= i < |c| => c[draw(round, i) % |c|])
  }

  function RoundStatistic(cx: seq<real>, cy: seq<real>, draw: (int, int) -> int, round: int,
                          root: real -> real): Option<real>
    requires IsRoot(root) && cx != [] && cy != []
  {
    Rho(Drawn(cx, draw, round), Drawn(cy, draw, round), root)
  }

  function Appended(vals: seq<real>, s: Option<real>): seq<real> {
    if s.Some? then vals + [s.value] else vals
  }

  function Statistics(cx: seq<real>, cy: seq<real>, draw: (int, int) -> int, rounds: nat, root: real -> real): seq<real>
    requires IsRoot(root) && cx != [] && cy != []
  {
    if rounds == 0 then []
    else
      Appended(Statistics(cx, cy, draw, rounds - 1, root), RoundStatistic(cx, cy, draw, rounds - 1, root))
  }

  datatype Interval = NoInterval | Interval(lo: real, hi: real) | IndexError

  /** `int(x)`: towards zero. */
  function Trunc(x: real): int {
    if x >= 0.0 then x.Floor else -((-x).Floor)
  }

  /** `vals[i]`, negative indices counting from the end. */
  function Item(vals: seq<real>, i: int): Option<real> {
    if 0 <= i < |vals| then Some(vals[i])
    else if -|vals| <= i < 0 then Some(vals[|vals| + i])
    else None
  }

  /** The given part of n. */
  function Share(part: real, n: nat): real {
    part * n as real
  }

  function LowIndex(n: nat, alpha: real): int {
    Trunc(Share(alpha / 2.0, n))
  }

  function HighIndex(n: nat, alpha: real): int {
    Min(n - 1, Trunc(Share(1.0 - alpha / 2.0, n)))
  }

  function Percentiles(vals: seq<real>, alpha: real): Interval {
    var lo := Item(vals, LowIndex(|vals|, alpha));
    var hi := Item(vals, HighIndex(|vals|, alpha));
    if lo.None? || hi.None? then IndexError
    else Interval(RoundTo(lo.value, 10000), RoundTo(hi.value, 10000))
  }

  /** `spearman_ci` */
  function ConfidenceInterval(xs: seq<real>, ys: seq<real>, resamples: int, alpha: real, minN: int,
                              draw: (int, int) -> int, root: real -> real): Interval
    requires IsRoot(root)
  {
    if Rho(xs, ys, root).None? || |xs| < minN then NoInterval
    else
      var pairs := SortBy(PairOrder, Zip(xs, ys));
      var vals := Statistics(Firsts(pairs), Seconds(pairs), draw, Max(0, resamples), root);
      if |vals| < resamples / 2 then NoInterval
      else Percentiles(SortBy(AtMost, vals), alpha)
  }

  /** One resample: its correlation is kept when it is defined. */
  method OneRound(cx: seq<real>, cy: seq<real>, draw: (int, int) -> int, round: int, root: real -> real,
                  vals: seq<real>) returns (out: seq<real>)
    requires IsRoot(root) && cx != [] && cy != []
    ensures out == Appended(vals, RoundStatistic(cx, cy, draw, round, root))
  {
    var s := Spearman(Drawn(cx, draw, round), Drawn(cy, draw, round), root);
    out := vals;
    if s.Some? {
      out := out + [s.value];
    }
  }

  /** The resampling loop: degenerate rounds are dropped. */
  method Resample(cx: seq<real>, cy: seq<real>, resamples: int, draw: (int, int) -> int, root: real -> real)
    returns (vals: seq<real>)
    requires IsRoot(root) && cx != [] && cy != []
    ensures vals == Statistics(cx, cy, draw, Max(0, resamples), root)
  {
    vals := [];
    var round: nat := 0;
    while round < resamples
      invariant round <= Max(0, resamples)
      invariant vals == Statistics(cx, cy, draw, round, root)
    {
      vals := OneRound(cx, cy, draw, round, root, vals);
      round := round + 1;
    }
  }

  method ComputeInterval(xs: seq<real>, ys: seq<real>, resamples: int, alpha: real, minN: int, draw: (int, int) -> int,
                         root: real -> real) returns (ci: Interval)
    requires IsRoot(root)
    ensures ci == ConfidenceInterval(xs, ys, resamples, alpha, minN, draw, root)
  {
    var base := Spearman(xs, ys, root);
    if base.None? || |xs| < minN {
      return NoInterval;
    }
    var pairs := SortBy(PairOrder, Zip(xs, ys));
    var vals := Resample(Firsts(pairs), Seconds(pairs), resamples, draw, root);
    if |vals| < resamples / 2 {
      return NoInterval;
    }
    ci := Percentiles(SortBy(AtMost, vals), alpha);
  }

  // ------------------------------------------------ the statistic is one of the sample

  lemma {:induction false} CountFirsts(p: real -> bool, ps: seq<Observation>)
    ensures CountIf(p, Firsts(ps)) == CountIf((o: Observation) => p(o.0), ps)
  {
    if ps != [] {
      CountFirsts(p, ps[..|ps|-1]);
      assert Firsts(ps)[..|ps|-1] == Firsts(ps[..|ps|-1]);
    }
  }

  lemma {:induction false} CountSeconds(p: real -> bool, ps: seq<Observation>)
    ensures CountIf(p, Seconds(ps)) == CountIf((o: Observation) => p(o.1), ps)
  {
    if ps != [] {
      CountSeconds(p, ps[..|ps|-1]);
      assert Seconds(ps)[..|ps|-1] == Seconds(ps[..|ps|-1]);
    }
  }

  /** The rank of a value within a side depends only on the multiset of rows. */
  lemma {:induction false} RankOfSample(ps: seq<Observation>, qs: seq<Observation>, v: real)
    requires multiset(ps) == multiset(qs)
    ensures Rank(Firsts(ps), v) == Rank(Firsts(qs), v)
    ensures Rank(Seconds(ps), v) == Rank(Seconds(qs), v)
  {
    var below, equal := (x: real) => x < v, (x: real) => x == v;
    CountFirsts(below, ps);
    CountFirsts(below, qs);
    CountFirsts(equal, ps);
    CountFirsts(equal, qs);
    CountSeconds(below, ps);
    CountSeconds(below, qs);
    CountSeconds(equal, ps);
    CountSeconds(equal, qs);
    CountPermutes((o: Observation) => below(o.0), ps, qs);
    CountPermutes((o: Observation) => equal(o.0), ps, qs);
    CountPermutes((o: Observation) => below(o.1), ps, qs);
    CountPermutes((o: Observation) => equal(o.1), ps, qs);
  }

  /** Product of two deviations of one observation. */
  function Moment(f: Observation -> real, g: Observation -> real, m: real): Observation -> real {
    (o: Observation) => (f(o) - m) * (g(o) - m)
  }

  lemma {:induction false} DotIsSum(f: Observation -> real, g: Observation -> real, m: real, ps: seq<Observation>)
    ensures Dot(Centered(Map(f, ps), m), Centered(Map(g, ps), m)) == SumBy(Moment(f, g, m), ps)
  {
    if ps != [] {
      var n := |ps| - 1;
      DotIsSum(f, g, m, ps[..n]);
      CenteredTake(f, m, ps);
      CenteredTake(g, m, ps);
    }
  }

  lemma {:induction false} CenteredTake(f: Observation -> real, m: real, ps: seq<Observation>)
    requires ps != []
    ensures Centered(Map(f, ps), m)[..|ps|-1] == Centered(Map(f, ps[..|ps|-1]), m)
  {
  }

  lemma {:induction false} DotPermutes(f: Observation -> real, g: Observation -> real, f': Observation -> real,
                                       g': Observation -> real, m: real, ps: seq<Observation>, qs: seq<Observation>)
    requires multiset(ps) == multiset(qs)
    requires forall o: Observation :: f(o) == f'(o) && g(o) == g'(o)
    ensures Dot(Centered(Map(f, ps), m), Centered(Map(g, ps), m))
         == Dot(Centered(Map(f', qs), m), Centered(Map(g', qs), m))
  {
    DotIsSum(f, g, m, ps);
    DotIsSum(f', g', m, qs);
    SumByPermutes(Moment(f, g, m), ps, qs);
    SumByAgrees(Moment(f, g, m), Moment(f', g', m), qs);
  }

  function RankFirst(ps: seq<Observation>): Observation -> real {
    (o: Observation) => Rank(Firsts(ps), o.0)
  }

  function RankSecond(ps: seq<Observation>): Observation -> real {
    (o: Observation) => Rank(Seconds(ps), o.1)
  }

  /** The mean rank, whatever the ties. */
  function MeanRank(n: nat): real
    requires n > 0
  {
    (n * (n + 1)) as real / 2.0 / n as real
  }

  lemma {:induction false} DeviationsOf(ps: seq<Observation>)
    requires ps != []
    ensures Deviations(Firsts(ps)) == Centered(Map(RankFirst(ps), ps), MeanRank(|ps|))
    ensures Deviations(Seconds(ps)) == Centered(Map(RankSecond(ps), ps), MeanRank(|ps|))
  {
    RanksSum(Firsts(ps));
    RanksSum(Seconds(ps));
    assert RankSeq(Firsts(ps)) == Map(RankFirst(ps), ps);
    assert RankSeq(Seconds(ps)) == Map(RankSecond(ps), ps);
  }

  /** Reordering the rows changes neither the covariance nor the variances. */
  lemma {:induction false} MomentsPermute(ps: seq<Observation>, qs: seq<Observation>)
    requires multiset(ps) == multiset(qs) && ps != [] && |ps| == |qs|
    ensures Dot(Deviations(Firsts(ps)), Deviations(Seconds(ps))) == Dot(Deviations(Firsts(qs)), Deviations(Seconds(qs)))
    ensures Dot(Deviations(Firsts(ps)), Deviations(Firsts(ps))) == Dot(Deviations(Firsts(qs)), Deviations(Firsts(qs)))
    ensures Dot(Deviations(Seconds(ps)), Deviations(Seconds(ps)))
         == Dot(Deviations(Seconds(qs)), Deviations(Seconds(qs)))
  {
    var f, g, f', g' := RankFirst(ps), RankSecond(ps), RankFirst(qs), RankSecond(qs);
    DeviationsOf(ps);
    DeviationsOf(qs);
    forall o: Observation ensures f(o) == f'(o) && g(o) == g'(o) {
      RankOfSample(ps, qs, o.0);
      RankOfSample(ps, qs, o.1);
    }
    var m := MeanRank(|ps|);
    DotPermutes(f, g, f', g', m, ps, qs);
    DotPermutes(f, f, f', f', m, ps, qs);
    DotPermutes(g, g, g', g', m, ps, qs);
  }

  lemma {:induction false} RhoPermutes(ps: seq<Observation>, qs: seq<Observation>, root: real -> real)
    requires IsRoot(root) && multiset(ps) == multiset(qs)
    ensures |ps| == |qs| && Rho(Firsts(ps), Seconds(ps), root) == Rho(Firsts(qs), Seconds(qs), root)
  {
    assert |multiset(ps)| == |ps| && |multiset(qs)| == |qs|;
    if ps != [] {
      MomentsPermute(ps, qs);
    }
  }

  lemma {:induction false} PairOrderFacts()
    ensures TotalPreorder(PairOrder) && Antisymmetric(PairOrder)
  {
  }

  lemma {:induction false} Unzip(xs: seq<real>, ys: seq<real>)
    requires |xs| == |ys|
    ensures Firsts(Zip(xs, ys)) == xs && Seconds(Zip(xs, ys)) == ys
  {
  }

  /** The interval is a property of the sample and nothing else: presenting the same
      paired rows in any other order gives the same interval, or none in either. */
  lemma {:induction false} IntervalIgnoresRowOrder(xs: seq<real>, ys: seq<real>, xs': seq<real>, ys': seq<real>,
                                                   resamples: int, alpha: real, minN: int, draw: (int, int) -> int,
                                                   root: real -> real)
    requires IsRoot(root) && |xs| == |ys| && |xs'| == |ys'|
    requires multiset(Zip(xs, ys)) == multiset(Zip(xs', ys'))
    ensures ConfidenceInterval(xs, ys, resamples, alpha, minN, draw, root)
         == ConfidenceInterval(xs', ys', resamples, alpha, minN, draw, root)
  {
    var ps, qs := Zip(xs, ys), Zip(xs', ys');
    Unzip(xs, ys);
    Unzip(xs', ys');
    RhoPermutes(ps, qs, root);
    PairOrderFacts();
    SortPermutes(PairOrder, ps);
    SortPermutes(PairOrder, qs);
    SortBySorted(PairOrder, ps);
    SortBySorted(PairOrder, qs);
    SortedUnique(PairOrder, SortBy(PairOrder, ps), SortBy(PairOrder, qs));
  }

  // --------------------------------------------------------- where the interval lies

  lemma {:induction false} StatisticsInUnitRange(cx: seq<real>, cy: seq<real>, draw: (int, int) -> int, rounds: nat,
                                                 root: real -> real)
    requires IsRoot(root) && cx != [] && cy != []
    ensures forall s | s in Statistics(cx, cy, draw, rounds, root) :: -1.0 <= s <= 1.0
    ensures |Statistics(cx, cy, draw, rounds, root)| <= rounds
  {
    if rounds > 0 {
      StatisticsInUnitRange(cx, cy, draw, rounds - 1, root);
      RhoInUnitRange(Drawn(cx, draw, rounds - 1), Drawn(cy, draw, rounds - 1), root);
    }
  }

  lemma {:induction false} AtMostIsTotal()
    ensures TotalPreorder(AtMost)
  {
  }

  lemma {:induction false} ScaleBounds(a: real, b: real, n: real)
    requires 0.0 <= a <= b && n > 0.0
    ensures 0.0 <= a * n <= b * n
  {
  }

  lemma {:induction false} FloorMonotone(x: real, y: real)
    requires 0.0 <= x <= y
    ensures 0 <= Trunc(x) <= Trunc(y)
  {
  }

  lemma {:induction false} HalfStaysBelow(a: real, n: nat)
    requires 0.0 <= a <= 0.5 && n > 0
    ensures Trunc(Share(a, n)) <= n - 1
  {
    ScaleBounds(a, 0.5, n as real);
  }

  lemma {:induction false} OrderedProducts(a: real, n: nat)
    requires 0.0 <= a <= 0.5 && n > 0
    ensures 0 <= Trunc(Share(a, n)) <= Trunc(Share(1.0 - a, n))
  {
    ScaleBounds(a, 1.0 - a, n as real);
    FloorMonotone(Share(a, n), Share(1.0 - a, n));
  }

  /** The indices picked for a level between 0 and 1 from a non-empty list. */
  lemma {:induction false} PercentileIndices(n: nat, alpha: real)
    requires n > 0 && 0.0 <= alpha <= 1.0
    ensures 0 <= LowIndex(n, alpha) <= HighIndex(n, alpha) < n
  {
    TailIndices(n, alpha / 2.0);
  }

  lemma {:induction false} TailIndices(n: nat, tail: real)
    requires n > 0 && 0.0 <= tail <= 0.5
    ensures 0 <= Trunc(Share(tail, n)) <= Min(n - 1, Trunc(Share(1.0 - tail, n))) < n
  {
    OrderedProducts(tail, n);
    HalfStaysBelow(tail, n);
    MinBetween(Trunc(Share(tail, n)), n - 1, Trunc(Share(1.0 - tail, n)));
  }

  lemma {:induction false} MinBetween(low: int, a: int, b: int)
    requires 0 <= low <= a && low <= b
    ensures 0 <= low <= Min(a, b) <= a
  {
  }

  /** Two items of an ascending list with values in [-1, 1], rounded. */
  lemma {:induction false} ItemsOrdered(s: seq<real>, i: int, j: int)
    requires Sorted(AtMost, s) && 0 <= i <= j < |s| && forall v | v in s :: -1.0 <= v <= 1.0
    ensures -1.0 <= RoundTo(s[i], 10000) <= RoundTo(s[j], 10000) <= 1.0
  {
    assert s[i] in s && s[j] in s;
    assert i == j || AtMost(s[i], s[j]);
    RoundMonotone(s[i], s[j]);
    RoundedUnit(s[i]);
    RoundedUnit(s[j]);
  }

  /** At any level from 0 to 1, with at least one usable resample, there is an interval:
      it is ordered and lies inside [-1, 1]. Without one the lookup raises. */
  lemma {:induction false} IntervalIsSane(vals: seq<real>, alpha: real)
    requires 0.0 <= alpha <= 1.0 && forall s | s in vals :: -1.0 <= s <= 1.0
    ensures var ci := Percentiles(SortBy(AtMost, vals), alpha);
      if vals == [] then ci == IndexError else ci.Interval? && -1.0 <= ci.lo <= ci.hi <= 1.0
  {
    AtMostIsTotal();
    SortBySorted(AtMost, vals);
    SortPermutes(AtMost, vals);
    if vals != [] {
      PercentileIndices(|vals|, alpha);
      ItemsOrdered(SortBy(AtMost, vals), LowIndex(|vals|, alpha), HighIndex(|vals|, alpha));
    }
  }

  /** What `spearman_ci` can return at a level from 0 to 1: never a crossed interval or
      one outside [-1, 1], and with two or more resamples it cannot raise. */
  lemma {:induction false} IntervalIsSound(xs: seq<real>, ys: seq<real>, resamples: int, alpha: real, minN: int,
                                           draw: (int, int) -> int, root: real -> real)
    requires IsRoot(root) && 0.0 <= alpha <= 1.0
    ensures var ci := ConfidenceInterval(xs, ys, resamples, alpha, minN, draw, root);
      && (ci.Interval? ==> -1.0 <= ci.lo <= ci.hi <= 1.0)
      && (ci.IndexError? ==> resamples < 2)
  {
    if Rho(xs, ys, root).Some? && |xs| >= minN {
      var pairs := SortBy(PairOrder, Zip(xs, ys));
      var cx, cy := Firsts(pairs), Seconds(pairs);
      StatisticsInUnitRange(cx, cy, draw, Max(0, resamples), root);
      IntervalIsSane(Statistics(cx, cy, draw, Max(0, resamples), root), alpha);
    }
  }

  /** A sample that gets as far as resampling. */
  predicate Resampled(xs: seq<real>, ys: seq<real>, minN: int) {
    |xs| == |ys| && |xs| >= 3 && |xs| >= minN && !Constant(xs) && !Constant(ys)
  }

  /** The first resample of a side of the ordered pairs. */
  function FirstDraw(side: seq<Observation> -> seq<real>, xs: seq<real>, ys: seq<real>,
                     draw: (int, int) -> int): seq<real>
    requires |xs| == |ys|
  {
    var c := side(SortBy(PairOrder, Zip(xs, ys)));
    if c == [] then [] else Drawn(c, draw, 0)
  }

  /** Exactly when `spearman_ci` raises, at a level from 0 to 1: on a sample that it
      resamples, when no resample is asked for, or the only one is constant on a side. */
  lemma {:induction false} RaisesExactly(xs: seq<real>, ys: seq<real>, resamples: int, alpha: real, minN: int,
                                         draw: (int, int) -> int, root: real -> real)
    requires IsRoot(root) && 0.0 <= alpha <= 1.0
    ensures ConfidenceInterval(xs, ys, resamples, alpha, minN, draw, root).IndexError?
       <==> && Resampled(xs, ys, minN)
            && (resamples <= 0
                || (resamples == 1 && (Constant(FirstDraw(Firsts, xs, ys, draw))
                                       || Constant(FirstDraw(Seconds, xs, ys, draw)))))
  {
    RhoDefinedExactly(xs, ys, root);
    if Resampled(xs, ys, minN) {
      var pairs := SortBy(PairOrder, Zip(xs, ys));
      RaisesWithoutStatistics(xs, ys, resamples, alpha, minN, draw, root);
      NoStatistics(Firsts(pairs), Seconds(pairs), resamples, draw, root);
    }
  }

  lemma {:induction false} RaisesWithoutStatistics(xs: seq<real>, ys: seq<real>, resamples: int, alpha: real, minN: int,
                                                   draw: (int, int) -> int, root: real -> real)
    requires IsRoot(root) && 0.0 <= alpha <= 1.0
    requires Rho(xs, ys, root).Some? && |xs| >= minN
    ensures var pairs := SortBy(PairOrder, Zip(xs, ys));
      ConfidenceInterval(xs, ys, resamples, alpha, minN, draw, root).IndexError?
      <==> resamples < 2 && Statistics(Firsts(pairs), Seconds(pairs), draw, Max(0, resamples), root) == []
  {
    var pairs := SortBy(PairOrder, Zip(xs, ys));
    StatisticsInUnitRange(Firsts(pairs), Seconds(pairs), draw, Max(0, resamples), root);
    IntervalIsSane(Statistics(Firsts(pairs), Seconds(pairs), draw, Max(0, resamples), root), alpha);
  }

  /** Fewer than two resamples leave nothing when there are none, or the one is constant. */
  lemma {:induction false} NoStatistics(cx: seq<real>, cy: seq<real>, resamples: int, draw: (int, int) -> int,
                                        root: real -> real)
    requires IsRoot(root) && |cx| == |cy| >= 3
    ensures resamples < 2 && Statistics(cx, cy, draw, Max(0, resamples), root) == []
       <==> resamples <= 0 || (resamples == 1 && (Constant(Drawn(cx, draw, 0)) || Constant(Drawn(cy, draw, 0))))
  {
    if resamples == 1 {
      OneStatistic(cx, cy, draw, root);
      RhoDefinedExactly(Drawn(cx, draw, 0), Drawn(cy, draw, 0), root);
    }
  }

  lemma {:induction false} OneStatistic(cx: seq<real>, cy: seq<real>, draw: (int, int) -> int, root: real -> real)
    requires IsRoot(root) && cx != [] && cy != []
    ensures Statistics(cx, cy, draw, 1, root) == [] <==> RoundStatistic(cx, cy, draw, 0, root).None?
  {
    assert Statistics(cx, cy, draw, 0, root) == [];
  }
}
