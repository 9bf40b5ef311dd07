/** Peak-to-trough drawdown of a P&L curve (`max_drawdown` in app/analytics/metrics.py). */
module Drawdown {
  import opened Basics
  import opened Seqs

  /** Cumulative P&L after the first i trades. */
  function CurveAt(pnls: seq<real>, i: nat): real
    requires i <= |pnls|
  {
    Sum(pnls[..i])
  }

  datatype Curve = Curve(cum: real, peak: real, deepest: real)

  function Book(c: Curve, p: real): Curve {
    var cum := c.cum + p;
    var peak := MaxReal(c.peak, cum);
    Curve(cum, peak, MaxReal(c.deepest, peak - cum))
  }

  function Run(pnls: seq<real>): Curve {
    if pnls == [] then Curve(0.0, 0.0, 0.0) else Book(Run(pnls[..|pnls|-1]), pnls[|pnls|-1])
  }

  /** `max_drawdown` */
  method MaxDrawdown(pnls: seq<real>) returns (mdd: real)
    ensures mdd == RoundTo(Run(pnls).deepest, 100)
  {
    var cum, peak, deepest := 0.0, 0.0, 0.0;
    var i := 0;
    while i < |pnls|
      invariant 0 <= i <= |pnls| && Run(pnls[..i]) == Curve(cum, peak, deepest)
    {
      assert pnls[..i+1][..i] == pnls[..i];
      cum := cum + pnls[i];
      peak := if cum > peak then cum else peak;
      deepest := if peak - cum > deepest then peak - cum else deepest;
      i := i + 1;
    }
    assert pnls[..i] == pnls;
    mdd := RoundTo(deepest, 100);
  }

  /** d is the largest drop from a point of the curve to a point no earlier. */
  ghost predicate DeepestDrop(pnls: seq<real>, d: real) {
    && (forall i: nat, j: nat | i <= j <= |pnls| :: CurveAt(pnls, i) - CurveAt(pnls, j) <= d)
    && (exists i: nat, j: nat :: i <= j <= |pnls| && CurveAt(pnls, i) - CurveAt(pnls, j) == d)
  }

  ghost predicate HighestPoint(pnls: seq<real>, peak: real) {
    && (forall i: nat | i <= |pnls| :: CurveAt(pnls, i) <= peak)
    && (exists i: nat :: i <= |pnls| && CurveAt(pnls, i) == peak)
  }

  lemma {:induction false} CurveOfPrefix(pnls: seq<real>, i: nat)
    requires i < |pnls|
    ensures CurveAt(pnls[..|pnls|-1], i) == CurveAt(pnls, i)
  {
    assert pnls[..|pnls|-1][..i] == pnls[..i];
  }

  lemma {:induction false} RunIsTheCurve(pnls: seq<real>)
    ensures Run(pnls).cum == CurveAt(pnls, |pnls|)
  {
    assert pnls[..|pnls|] == pnls;
    if pnls != [] {
      var n := |pnls| - 1;
      RunIsTheCurve(pnls[..n]);
      assert pnls[..n][..n] == pnls[..n];
    }
  }

  lemma {:induction false} PeakIsHighest(pnls: seq<real>)
    ensures HighestPoint(pnls, Run(pnls).peak)
  {
    RunIsTheCurve(pnls);
    if pnls == [] {
      assert CurveAt(pnls, 0) == 0.0;
    } else {
      var n := |pnls| - 1;
      PeakIsHighest(pnls[..n]);
      forall i: nat | i <= n ensures CurveAt(pnls, i) == CurveAt(pnls[..n], i) {
        CurveOfPrefix(pnls, i);
      }
      var k: nat :| k <= n && CurveAt(pnls[..n], k) == Run(pnls[..n]).peak;
      assert CurveAt(pnls, k) == Run(pnls[..n]).peak;
    }
  }

  /** The loop's answer is the definition of a drawdown: the greatest P_i - P_j over
      all i <= j, where P is the cumulative curve starting at 0. */
  lemma {:induction false} DeepestIsTheLargestDrop(pnls: seq<real>)
    ensures DeepestDrop(pnls, Run(pnls).deepest)
  {
    RunIsTheCurve(pnls);
    PeakIsHighest(pnls);
    if pnls == [] {
      assert CurveAt(pnls, 0) == 0.0;
    } else {
      var n := |pnls| - 1;
      DeepestIsTheLargestDrop(pnls[..n]);
      forall i: nat | i <= n ensures CurveAt(pnls, i) == CurveAt(pnls[..n], i) {
        CurveOfPrefix(pnls, i);
      }
      DropsExtend(pnls, Run(pnls[..n]).deepest);
    }
  }

  /** Adding the last trade: old drops stay, new ones end at the last point. */
  lemma {:induction false} DropsExtend(pnls: seq<real>, before: real)
    requires pnls != [] && DeepestDrop(pnls[..|pnls|-1], before)
    requires HighestPoint(pnls, Run(pnls).peak) && Run(pnls).cum == CurveAt(pnls, |pnls|)
    ensures DeepestDrop(pnls, MaxReal(before, Run(pnls).peak - Run(pnls).cum))
  {
    var n := |pnls| - 1;
    var peak, cum := Run(pnls).peak, Run(pnls).cum;
    var d := MaxReal(before, peak - cum);
    forall i: nat, j: nat | i <= j <= |pnls| ensures CurveAt(pnls, i) - CurveAt(pnls, j) <= d {
      if j <= n {
        CurveOfPrefix(pnls, i);
        CurveOfPrefix(pnls, j);
      }
    }
    if peak - cum > before {
      var i: nat :| i <= |pnls| && CurveAt(pnls, i) == peak;
      assert CurveAt(pnls, i) - CurveAt(pnls, |pnls|) == d;
    } else {
      var i: nat, j: nat :| i <= j <= n && CurveAt(pnls[..n], i) - CurveAt(pnls[..n], j) == before;
      CurveOfPrefix(pnls, i);
      CurveOfPrefix(pnls, j);
      assert CurveAt(pnls, i) - CurveAt(pnls, j) == d;
    }
  }
}
