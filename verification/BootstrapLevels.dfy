/** What the ends of the bootstrap interval are (`spearman_ci`,
    app/analytics/metrics.py): quantiles, at half the level on either side, of the
    correlations of resamples of the paired rows. */
module BootstrapLevels {
  import opened Basics
  import opened Seqs
  import opened Ranks
  import opened RankCorrelation
  import opened Bootstrap

  // ------------------------------------------------------------------------ the ends

  /** No more than a share of the values lies below v, and more than that share lies at
      or below it. */
  ghost predicate LowerEnd(vals: seq<real>, v: real, share: real) {
    && v in vals
    && CountIf((x: real) => x < v, vals) as real <= share * |vals| as real
    && share * |vals| as real < CountIf((x: real) => x <= v, vals) as real
  }

  /** No more than a share of the values lies above v, and at least that share lies at or
      above it. */
  ghost predicate UpperEnd(vals: seq<real>, v: real, share: real) {
    && v in vals
    && CountIf((x: real) => x > v, vals) as real <= share * |vals| as real
    && share * |vals| as real <= CountIf((x: real) => x >= v, vals) as real
  }

  lemma {:induction false} CountSplit(p: real -> bool, s: seq<real>, i: nat)
    requires i <= |s|
    ensures CountIf(p, s) == CountIf(p, s[..i]) + CountIf(p, s[i..])
  {
    SplitAt(s, i);
    CountAppend(p, s[..i], s[i..]);
  }

  lemma {:induction false} CountAll(p: real -> bool, s: seq<real>)
    ensures CountIf(p, s) <= |s|
    ensures (forall k | 0 <= k < |s| :: p(s[k])) ==> CountIf(p, s) == |s|
    ensures (forall k | 0 <= k < |s| :: !p(s[k])) ==> CountIf(p, s) == 0
  {
    if s != [] {
      CountAll(p, s[..|s|-1]);
      assert forall k | 0 <= k < |s| - 1 :: s[..|s|-1][k] == s[k];
    }
  }

  lemma {:induction false} ItemsAround(s: seq<real>, i: nat, from: seq<real>, upTo: seq<real>)
    requires Sorted(AtMost, s) && i < |s| && from == s[i..] && upTo == s[..i+1]
    ensures forall k | 0 <= k < |from| :: from[k] >= s[i]
    ensures forall k | 0 <= k < |upTo| :: upTo[k] <= s[i]
  {
    assert forall k | i < k < |s| :: AtMost(s[i], s[k]);
    assert forall k | 0 <= k < i :: AtMost(s[k], s[i]);
  }

  lemma {:induction false} BelowItem(s: seq<real>, i: nat)
    requires Sorted(AtMost, s) && i < |s|
    ensures CountIf((x: real) => x < s[i], s) <= i < CountIf((x: real) => x <= s[i], s)
  {
    var below, upTo := (x: real) => x < s[i], (x: real) => x <= s[i];
    ItemsAround(s, i, s[i..], s[..i+1]);
    CountSplit(below, s, i);
    CountAll(below, s[..i]);
    CountAll(below, s[i..]);
    CountSplit(upTo, s, i + 1);
    CountAll(upTo, s[..i+1]);
  }

  lemma {:induction false} AboveItem(s: seq<real>, i: nat)
    requires Sorted(AtMost, s) && i < |s|
    ensures CountIf((x: real) => x > s[i], s) <= |s| - 1 - i < CountIf((x: real) => x >= s[i], s)
  {
    var above, from := (x: real) => x > s[i], (x: real) => x >= s[i];
    ItemsAround(s, i, s[i..], s[..i+1]);
    CountSplit(above, s, i + 1);
    CountAll(above, s[i+1..]);
    CountAll(above, s[..i+1]);
    CountSplit(from, s, i);
    CountAll(from, s[i..]);
  }

  lemma {:induction false} TruncNear(x: real)
    requires x >= 0.0
    ensures Trunc(x) as real <= x < Trunc(x) as real + 1.0
  {
  }

  lemma {:induction false} UpperIndex(n: nat, alpha: real)
    requires n > 0 && 0.0 <= alpha <= 1.0
    ensures (n - 1 - HighIndex(n, alpha)) as real <= Share(alpha / 2.0, n) <= (n - HighIndex(n, alpha)) as real
    ensures 0 <= HighIndex(n, alpha) < n
  {
    PercentileIndices(n, alpha);
    var rest := Share(1.0 - alpha / 2.0, n);
    SharesAddUp(n, alpha / 2.0);
    TruncNear(rest);
  }

  lemma {:induction false} Proportion(part: real, n: real)
    requires 0.0 <= part <= 1.0 && n > 0.0
    ensures (1.0 - part) * n == n - part * n && 0.0 <= part * n <= n
  {
  }

  lemma {:induction false} SharesAddUp(n: nat, part: real)
    requires 0.0 <= part <= 0.5
    ensures Share(1.0 - part, n) == n as real - Share(part, n) && 0.0 <= Share(part, n) <= n as real
  {
    if n > 0 {
      Proportion(part, n as real);
    }
  }

  /** The reported ends, before rounding, are the quantiles of the values at half the
      level from below and from above. */
  lemma {:induction false} EndsAreQuantiles(vals: seq<real>, alpha: real) returns (lo: real, hi: real)
    requires vals != [] && 0.0 <= alpha <= 1.0
    ensures Percentiles(SortBy(AtMost, vals), alpha) == Interval(RoundTo(lo, 10000), RoundTo(hi, 10000))
    ensures LowerEnd(vals, lo, alpha / 2.0) && UpperEnd(vals, hi, alpha / 2.0)
  {
    var s, n := SortBy(AtMost, vals), |vals|;
    AtMostIsTotal();
    SortBySorted(AtMost, vals);
    SortPermutes(AtMost, vals);
    SameElements(s, vals);
    PercentileIndices(n, alpha);
    lo, hi := s[LowIndex(n, alpha)], s[HighIndex(n, alpha)];
    LowerQuantile(vals, s, alpha);
    UpperQuantile(vals, s, alpha);
  }

  lemma {:induction false} LowerQuantile(vals: seq<real>, s: seq<real>, alpha: real)
    requires multiset(s) == multiset(vals) && |s| == |vals| > 0 && Sorted(AtMost, s) && 0.0 <= alpha <= 1.0
    requires 0 <= LowIndex(|vals|, alpha) < |s| && forall x :: x in s <==> x in vals
    ensures LowerEnd(vals, s[LowIndex(|vals|, alpha)], alpha / 2.0)
  {
    var i := LowIndex(|vals|, alpha);
    var v := s[i];
    BelowItem(s, i);
    CountPermutes((x: real) => x < v, s, vals);
    CountPermutes((x: real) => x <= v, s, vals);
    SharesAddUp(|vals|, alpha / 2.0);
    TruncNear(Share(alpha / 2.0, |vals|));
  }

  lemma {:induction false} UpperQuantile(vals: seq<real>, s: seq<real>, alpha: real)
    requires multiset(s) == multiset(vals) && |s| == |vals| > 0 && Sorted(AtMost, s) && 0.0 <= alpha <= 1.0
    requires 0 <= HighIndex(|vals|, alpha) < |s| && forall x :: x in s <==> x in vals
    ensures UpperEnd(vals, s[HighIndex(|vals|, alpha)], alpha / 2.0)
  {
    var i := HighIndex(|vals|, alpha);
    var v := s[i];
    AboveItem(s, i);
    CountPermutes((x: real) => x > v, s, vals);
    CountPermutes((x: real) => x >= v, s, vals);
    UpperIndex(|vals|, alpha);
  }

  // --------------------------------------------------------------------- the resamples

  /** Rows drawn with replacement from the sample, as many as it has. */
  ghost predicate IsResample(rows: seq<Observation>, sample: seq<Observation>) {
    |rows| == |sample| && forall o | o in rows :: o in sample
  }

  /** The rows one round draws: both sides at the same indices. */
  function DrawnRows(ps: seq<Observation>, draw: (int, int) -> int, round: int): (r: seq<Observation>)
    requires ps != []
  {
    seq(|ps|, i requires 0 <= i < |ps| => ps[draw(round, i) % |ps|])
  }

  lemma {:induction false} DrawnTogether(ps: seq<Observation>, draw: (int, int) -> int, round: int)
    requires ps != []
    ensures Drawn(Firsts(ps), draw, round) == Firsts(DrawnRows(ps, draw, round))
    ensures Drawn(Seconds(ps), draw, round) == Seconds(DrawnRows(ps, draw, round))
    ensures IsResample(DrawnRows(ps, draw, round), ps)
  {
  }

  /** The correlation of a round, where it is defined, is that of a resample. */
  ghost predicate FromResample(v: real, sample: seq<Observation>, root: real -> real)
    requires IsRoot(root)
  {
    exists rows :: IsResample(rows, sample) && Rho(Firsts(rows), Seconds(rows), root) == Some(v)
  }

  predicate Usable(ps: seq<Observation>, draw: (int, int) -> int, round: int)
    requires ps != []
  {
    !Constant(Firsts(DrawnRows(ps, draw, round))) && !Constant(Seconds(DrawnRows(ps, draw, round)))
  }

  function UsableRounds(ps: seq<Observation>, draw: (int, int) -> int, rounds: nat): nat
    requires ps != []
  {
    if rounds == 0 then 0
    else UsableRounds(ps, draw, rounds - 1) + if Usable(ps, draw, rounds - 1) then 1 else 0
  }

  lemma {:induction false} RoundUsable(ps: seq<Observation>, cx: seq<real>, cy: seq<real>, draw: (int, int) -> int,
                                       round: int, root: real -> real)
    requires IsRoot(root) && |ps| >= 3 && cx == Firsts(ps) && cy == Seconds(ps)
    ensures RoundStatistic(cx, cy, draw, round, root).Some? <==> Usable(ps, draw, round)
  {
    DrawnTogether(ps, draw, round);
    var rows := DrawnRows(ps, draw, round);
    RhoDefinedExactly(Firsts(rows), Seconds(rows), root);
  }

  lemma {:induction false} RoundResampled(ps: seq<Observation>, cx: seq<real>, cy: seq<real>, draw: (int, int) -> int,
                                          round: int, root: real -> real)
    requires IsRoot(root) && |ps| >= 3 && cx == Firsts(ps) && cy == Seconds(ps)
    ensures ResampledIfSome(RoundStatistic(cx, cy, draw, round, root), ps, root)
  {
    DrawnTogether(ps, draw, round);
  }

  ghost predicate ResampledIfSome(r: Option<real>, sample: seq<Observation>, root: real -> real)
    requires IsRoot(root)
  {
    r.Some? ==> FromResample(r.value, sample, root)
  }

  /** The correlations, one after the other, are those of resamples. */
  ghost predicate AllResampled(vals: seq<real>, sample: seq<Observation>, root: real -> real)
    requires IsRoot(root)
  {
    vals == []
    || (AllResampled(vals[..|vals|-1], sample, root) && FromResample(vals[|vals|-1], sample, root))
  }

  lemma {:induction false} OneMoreResampled(vals: seq<real>, r: Option<real>, sample: seq<Observation>,
                                            root: real -> real)
    requires IsRoot(root) && AllResampled(vals, sample, root) && ResampledIfSome(r, sample, root)
    ensures AllResampled(Appended(vals, r), sample, root)
  {
    if r.Some? {
      SnocParts(vals, r.value);
    }
  }

  lemma {:induction false} EachResampled(vals: seq<real>, sample: seq<Observation>, root: real -> real, i: nat)
    requires IsRoot(root) && AllResampled(vals, sample, root) && i < |vals|
    ensures FromResample(vals[i], sample, root)
  {
    if i < |vals| - 1 {
      EachResampled(vals[..|vals|-1], sample, root, i);
    }
  }

  lemma {:induction false} StatisticsResampled(ps: seq<Observation>, cx: seq<real>, cy: seq<real>,
                                               draw: (int, int) -> int, rounds: nat, root: real -> real)
    requires IsRoot(root) && |ps| >= 3 && cx == Firsts(ps) && cy == Seconds(ps)
    ensures AllResampled(Statistics(cx, cy, draw, rounds, root), ps, root)
  {
    if rounds > 0 {
      StatisticsResampled(ps, cx, cy, draw, rounds - 1, root);
      RoundResampled(ps, cx, cy, draw, rounds - 1, root);
      OneMoreResampled(Statistics(cx, cy, draw, rounds - 1, root),
                       RoundStatistic(cx, cy, draw, rounds - 1, root), ps, root);
    }
  }

  lemma {:induction false} StatisticsCounted(ps: seq<Observation>, cx: seq<real>, cy: seq<real>,
                                             draw: (int, int) -> int, rounds: nat, root: real -> real)
    requires IsRoot(root) && |ps| >= 3 && cx == Firsts(ps) && cy == Seconds(ps)
    ensures |Statistics(cx, cy, draw, rounds, root)| == UsableRounds(ps, draw, rounds)
  {
    if rounds > 0 {
      StatisticsCounted(ps, cx, cy, draw, rounds - 1, root);
      RoundUsable(ps, cx, cy, draw, rounds - 1, root);
    }
  }

  lemma {:induction false} ResampleOfSame(v: real, a: seq<Observation>, b: seq<Observation>, root: real -> real)
    requires IsRoot(root) && |a| == |b| && FromResample(v, a, root) && forall o :: o in a <==> o in b
    ensures FromResample(v, b, root)
  {
    var rows :| IsResample(rows, a) && Rho(Firsts(rows), Seconds(rows), root) == Some(v);
    assert IsResample(rows, b);
  }

  /** One correlation of a resample for each usable round. */
  ghost predicate ReportedBy(vals: seq<real>, sample: seq<Observation>, root: real -> real, n: nat)
    requires IsRoot(root)
  {
    |vals| == n && forall v | v in vals :: FromResample(v, sample, root)
  }

  ghost predicate EndsOf(ci: Interval, vals: seq<real>, lo: real, hi: real, alpha: real) {
    && ci == Interval(RoundTo(lo, 10000), RoundTo(hi, 10000))
    && LowerEnd(vals, lo, alpha / 2.0) && UpperEnd(vals, hi, alpha / 2.0)
  }

  lemma {:induction false} SampleStatistics(xs: seq<real>, ys: seq<real>, draw: (int, int) -> int, rounds: nat,
                                            root: real -> real)
    requires IsRoot(root) && |xs| == |ys| >= 3
    ensures var ps := SortBy(PairOrder, Zip(xs, ys));
      ReportedBy(Statistics(Firsts(ps), Seconds(ps), draw, rounds, root), Zip(xs, ys), root,
                 UsableRounds(ps, draw, rounds))
  {
    var sample := Zip(xs, ys);
    var ps := SortBy(PairOrder, sample);
    SortPermutes(PairOrder, sample);
    SameElements(ps, sample);
    StatisticsResampled(ps, Firsts(ps), Seconds(ps), draw, rounds, root);
    StatisticsCounted(ps, Firsts(ps), Seconds(ps), draw, rounds, root);
    var vals := Statistics(Firsts(ps), Seconds(ps), draw, rounds, root);
    forall v | v in vals ensures FromResample(v, sample, root) {
      var i :| 0 <= i < |vals| && vals[i] == v;
      EachResampled(vals, ps, root, i);
      ResampleOfSame(v, ps, sample, root);
    }
  }

  /** What `spearman_ci` returns at a level from 0 to 1: no interval exactly when the sample
      is not resampled or fewer than half the rounds are usable; otherwise the rounded
      quantiles, at half the level, of one correlation for each usable round. */
  lemma {:induction false} IntervalMeans(xs: seq<real>, ys: seq<real>, resamples: int, alpha: real, minN: int,
                                         draw: (int, int) -> int, root: real -> real)
    requires IsRoot(root) && 0.0 <= alpha <= 1.0
    ensures var ci := ConfidenceInterval(xs, ys, resamples, alpha, minN, draw, root);
      if !Resampled(xs, ys, minN) then ci == NoInterval
      else
        var usable := UsableRounds(SortBy(PairOrder, Zip(xs, ys)), draw, Max(0, resamples));
        && (ci == NoInterval <==> usable < resamples / 2)
        && (ci.Interval? ==> exists vals, lo, hi ::
              ReportedBy(vals, Zip(xs, ys), root, usable) && EndsOf(ci, vals, lo, hi, alpha))
  {
    RhoDefinedExactly(xs, ys, root);
    if Resampled(xs, ys, minN) {
      var ps := SortBy(PairOrder, Zip(xs, ys));
      SampleStatistics(xs, ys, draw, Max(0, resamples), root);
      PercentilesMean(Statistics(Firsts(ps), Seconds(ps), draw, Max(0, resamples), root), alpha);
    }
  }

  lemma {:induction false} PercentilesMean(vals: seq<real>, alpha: real)
    requires 0.0 <= alpha <= 1.0
    ensures var ci := Percentiles(SortBy(AtMost, vals), alpha);
      ci != NoInterval && (ci.Interval? ==> exists lo, hi :: EndsOf(ci, vals, lo, hi, alpha))
  {
    if vals != [] {
      var lo, hi := EndsAreQuantiles(vals, alpha);
      assert EndsOf(Percentiles(SortBy(AtMost, vals), alpha), vals, lo, hi, alpha);
    }
  }
}
