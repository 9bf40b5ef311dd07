/** Spearman correlation and its bootstrap interval (app/analytics/metrics.py).
    The square root is any function with r >= 0 and r * r == v. */
module RankCorrelation {
  import opened Basics
  import opened Seqs
  import opened Ranks

  // ------------------------------------------------------------------ the statistic

  function Centered(xs: seq<real>, m: real): (r: seq<real>)
    ensures |r| == |xs| && forall i | 0 <= i < |xs| :: r[i] == xs[i] - m
  {
    seq(|xs|, i requires 0 <= i < |xs| => xs[i] - m)
  }

  function Dot(a: seq<real>, b: seq<real>): real
    requires |a| == |b|
  {
    if a == [] then 0.0 else Dot(a[..|a|-1], b[..|b|-1]) + a[|a|-1] * b[|b|-1]
  }

  /** Deviations of the ranks from their mean. */
  function Deviations(xs: seq<real>): (r: seq<real>)
    requires xs != []
    ensures |r| == |xs|
  {
    Centered(RankSeq(xs), Sum(RankSeq(xs)) / |xs| as real)
  }

  // ----------------------------------------------------------------- Cauchy-Schwarz

  function Blend(a: seq<real>, b: seq<real>, s: real, t: real): real
    requires |a| == |b|
  {
    if a == [] then 0.0
    else Blend(a[..|a|-1], b[..|b|-1], s, t) + Square(s * a[|a|-1] + t * b[|b|-1])
  }

  function Square(x: real): (r: real)
    ensures r >= 0.0
  {
    SquareNonNegative(x);
    x * x
  }

  lemma {:induction false} SquareNonNegative(x: real)
    ensures x * x >= 0.0
  {
  }

  lemma {:induction false} SquareOfSum(p: real, q: real)
    ensures Square(p + q) == Square(p) + 2.0 * (p * q) + Square(q)
  {
  }

  lemma {:induction false} BlendStep(s: real, t: real, x: real, y: real)
    ensures Square(s * x + t * y) == (s * s) * (x * x) + (2.0 * (s * t)) * (x * y) + (t * t) * (y * y)
  {
    SquareOfSum(s * x, t * y);
    Regroup(s, x);
    Regroup(t, y);
    assert (s * x) * (t * y) == (s * t) * (x * y);
  }

  lemma {:induction false} Regroup(s: real, x: real)
    ensures Square(s * x) == (s * s) * (x * x)
  {
  }

  lemma {:induction false} BlendExpands(a: seq<real>, b: seq<real>, s: real, t: real)
    requires |a| == |b|
    ensures Blend(a, b, s, t) == (s * s) * Dot(a, a) + (2.0 * (s * t)) * Dot(a, b) + (t * t) * Dot(b, b)
    ensures Blend(a, b, s, t) >= 0.0
  {
    if a != [] {
      var n := |a| - 1;
      BlendExpands(a[..n], b[..n], s, t);
      BlendStep(s, t, a[n], b[n]);
      Distribute(s * s, Dot(a[..n], a[..n]), a[n] * a[n]);
      Distribute(2.0 * (s * t), Dot(a[..n], b[..n]), a[n] * b[n]);
      Distribute(t * t, Dot(b[..n], b[..n]), b[n] * b[n]);
    }
  }

  lemma {:induction false} Distribute(k: real, x: real, y: real)
    ensures k * (x + y) == k * x + k * y
  {
  }

  lemma {:induction false} DotSelf(a: seq<real>)
    ensures Dot(a, a) >= 0.0
  {
    if a != [] {
      DotSelf(a[..|a|-1]);
      SquareNonNegative(a[|a|-1]);
    }
  }

  lemma {:induction false} CancelPositive(k: real, x: real)
    requires k > 0.0 && k * x >= 0.0
    ensures x >= 0.0
  {
    SignOfProduct(k, x);
  }

  /** The square of a covariance is at most the product of the variances. */
  lemma {:induction false} CauchySchwarz(a: seq<real>, b: seq<real>)
    requires |a| == |b|
    ensures Dot(a, b) * Dot(a, b) <= Dot(a, a) * Dot(b, b)
  {
    var A, B, C := Dot(a, a), Dot(b, b), Dot(a, b);
    DotSelf(a);
    DotSelf(b);
    if B > 0.0 {
      BlendExpands(a, b, B, -C);
      Factor(A, B, C);
      CancelPositive(B, A * B - C * C);
    } else {
      ZeroVector(a, b);
    }
  }

  lemma {:induction false} Factor(A: real, B: real, C: real)
    ensures (B * B) * A + (2.0 * (B * -C)) * C + (-C * -C) * B == B * (A * B - C * C)
  {
    var c2 := C * C;
    assert (2.0 * (B * -C)) * C == -2.0 * (B * c2);
    assert (-C * -C) * B == B * c2;
    assert (B * B) * A == B * (A * B);
    assert B * (A * B - c2) == B * (A * B) - B * c2;
  }

  lemma {:induction false} ZeroVector(a: seq<real>, b: seq<real>)
    requires |a| == |b| && Dot(b, b) <= 0.0
    ensures Dot(a, b) == 0.0
  {
    if a != [] {
      var n := |a| - 1;
      DotSelf(b[..n]);
      SquareNonNegative(b[n]);
      if b[n] != 0.0 {
        NonZeroSquare(b[n]);
      }
      ZeroVector(a[..n], b[..n]);
    }
  }

  lemma {:induction false} NonZeroSquare(x: real)
    requires x != 0.0
    ensures x * x > 0.0
  {
    if x > 0.0 {
      ProductPositive(x, x);
    } else {
      var y := 0.0 - x;
      ProductPositive(y, y);
      assert x * x == y * y;
    }
  }

  lemma {:induction false} SignOfProduct(k: real, x: real)
    requires k > 0.0
    ensures x < 0.0 ==> k * x < 0.0
  {
  }

  // ------------------------------------------------------------------ the statistic

  ghost predicate IsRoot(root: real -> real) {
    forall v: real | v >= 0.0 :: root(v) >= 0.0 && root(v) * root(v) == v
  }

  lemma {:induction false} RootPositive(root: real -> real, v: real)
    requires IsRoot(root) && v > 0.0
    ensures root(v) > 0.0
  {
    assert root(v) * root(v) == v;
  }

  lemma {:induction false} ProductPositive(x: real, y: real)
    requires x > 0.0 && y > 0.0
    ensures x * y > 0.0
  {
  }

  /** `cov / (vx**0.5 * vy**0.5)` for positive variances. */
  function Ratio(cov: real, vx: real, vy: real, root: real -> real): real
    requires IsRoot(root) && vx > 0.0 && vy > 0.0
  {
    RootPositive(root, vx);
    RootPositive(root, vy);
    ProductPositive(root(vx), root(vy));
    cov / (root(vx) * root(vy))
  }

  /** `spearman` */
  function Rho(xs: seq<real>, ys: seq<real>, root: real -> real): Option<real>
    requires IsRoot(root)
  {
    if |xs| != |ys| || |xs| < 3 then None
    else
      var dx, dy := Deviations(xs), Deviations(ys);
      var vx, vy := Dot(dx, dx), Dot(dy, dy);
      if vx <= 0.0 || vy <= 0.0 then None
      else Some(RoundTo(Ratio(Dot(dx, dy), vx, vy, root), 10000))
  }

  /** Running sums over two rank lists. */
  method DotLoop(a: seq<real>, b: seq<real>) returns (d: real)
    requires |a| == |b|
    ensures d == Dot(a, b)
  {
    d := 0.0;
    var i := 0;
    while i < |a|
      invariant 0 <= i <= |a| && d == Dot(a[..i], b[..i])
    {
      assert a[..i+1][..i] == a[..i] && b[..i+1][..i] == b[..i];
      d := d + a[i] * b[i];
      i := i + 1;
    }
    assert a[..i] == a && b[..i] == b;
  }

  /** `spearman`, computed from the rank arrays. */
  method Spearman(xs: seq<real>, ys: seq<real>, root: real -> real) returns (rho: Option<real>)
    requires IsRoot(root)
    ensures rho == Rho(xs, ys, root)
  {
    if |xs| != |ys| || |xs| < 3 {
      return None;
    }
    var rx := ComputeRanks(xs);
    var ry := ComputeRanks(ys);
    var n := |xs| as real;
    var dx, dy := Centered(rx[..], Sum(rx[..]) / n), Centered(ry[..], Sum(ry[..]) / n);
    var cov := DotLoop(dx, dy);
    var vx := DotLoop(dx, dx);
    var vy := DotLoop(dy, dy);
    if vx <= 0.0 || vy <= 0.0 {
      return None;
    }
    return Some(RoundTo(Ratio(cov, vx, vy, root), 10000));
  }

  lemma {:induction false} UnitRange(cov: real, r: real)
    requires r > 0.0 && cov * cov <= r * r
    ensures -1.0 <= cov / r <= 1.0
  {
    if cov > r {
      SquareGrows(r, cov);
    } else if cov < -r {
      SquareGrows(r, -cov);
    }
    QuotientBounds(cov, r);
  }

  lemma {:induction false} SquareGrows(x: real, y: real)
    requires 0.0 < x < y
    ensures x * x < y * y
  {
    assert x * x < x * y;
    assert x * y < y * y;
  }

  lemma {:induction false} QuotientBounds(cov: real, r: real)
    requires r > 0.0
    ensures -r <= cov <= r ==> -1.0 <= cov / r <= 1.0
  {
    assert cov / r * r == cov;
  }

  lemma {:induction false} RoundedUnit(x: real)
    requires -1.0 <= x <= 1.0
    ensures -1.0 <= RoundTo(x, 10000) <= 1.0
  {
    var y := x * 10000.0;
    assert -10000.0 <= y <= 10000.0;
    assert -10000 <= NearestInt(y) <= 10000;
  }

  /** `spearman` lies in [-1, 1] whenever it is defined, for every sample. */
  lemma {:induction false} RhoInUnitRange(xs: seq<real>, ys: seq<real>, root: real -> real)
    requires IsRoot(root)
    ensures Rho(xs, ys, root).Some? ==> -1.0 <= Rho(xs, ys, root).value <= 1.0
  {
    if Rho(xs, ys, root).Some? {
      CorrelationBound(Deviations(xs), Deviations(ys), root);
    }
  }

  lemma {:induction false} CorrelationBound(dx: seq<real>, dy: seq<real>, root: real -> real)
    requires IsRoot(root) && |dx| == |dy| && Dot(dx, dx) > 0.0 && Dot(dy, dy) > 0.0
    ensures -1.0 <= RoundTo(Ratio(Dot(dx, dy), Dot(dx, dx), Dot(dy, dy), root), 10000) <= 1.0
  {
    CauchySchwarz(dx, dy);
    RoundedRatio(Dot(dx, dy), Dot(dx, dx), Dot(dy, dy), root);
  }

  lemma {:induction false} RoundedRatio(cov: real, vx: real, vy: real, root: real -> real)
    requires IsRoot(root) && vx > 0.0 && vy > 0.0 && cov * cov <= vx * vy
    ensures -1.0 <= RoundTo(Ratio(cov, vx, vy, root), 10000) <= 1.0
  {
    RatioInUnitRange(cov, vx, vy, root);
    RoundedUnit(Ratio(cov, vx, vy, root));
  }

  lemma {:induction false} RatioInUnitRange(cov: real, vx: real, vy: real, root: real -> real)
    requires IsRoot(root) && vx > 0.0 && vy > 0.0 && cov * cov <= vx * vy
    ensures -1.0 <= Ratio(cov, vx, vy, root) <= 1.0
  {
    var rx, ry := root(vx), root(vy);
    RootPositive(root, vx);
    RootPositive(root, vy);
    ProductPositive(rx, ry);
    RegroupProduct(rx, ry);
    UnitRange(cov, rx * ry);
  }

  lemma {:induction false} RegroupProduct(x: real, y: real)
    ensures (x * y) * (x * y) == (x * x) * (y * y)
  {
  }

  /** Only the order of the observations matters: rescaling either side by any
      strictly increasing function leaves the correlation as it is. */
  lemma {:induction false} RhoIgnoresScale(f: real -> real, g: real -> real, xs: seq<real>, ys: seq<real>,
                                           root: real -> real)
    requires IsRoot(root) && StrictlyIncreasing(f) && StrictlyIncreasing(g)
    ensures Rho(Map(f, xs), Map(g, ys), root) == Rho(xs, ys, root)
  {
    RanksIgnoreScale(f, xs);
    RanksIgnoreScale(g, ys);
  }

  lemma {:induction false} SelfQuotient(v: real, r: real)
    requires v > 0.0 && r == v
    ensures v / r == 1.0
  {
  }

  lemma {:induction false} SelfRatio(v: real, root: real -> real)
    requires IsRoot(root) && v > 0.0
    ensures Ratio(v, v, v, root) == 1.0
  {
    RootPositive(root, v);
    SelfQuotient(v, root(v) * root(v));
  }

  /** A sample and a strictly increasing image of it correlate perfectly. */
  lemma {:induction false} MonotoneIsPerfect(f: real -> real, xs: seq<real>, root: real -> real)
    requires IsRoot(root) && StrictlyIncreasing(f)
    ensures Rho(xs, Map(f, xs), root).Some? ==> Rho(xs, Map(f, xs), root) == Some(1.0)
  {
    RanksIgnoreScale(f, xs);
    if Rho(xs, Map(f, xs), root).Some? {
      var v := Dot(Deviations(xs), Deviations(xs));
      SelfRatio(v, root);
      assert RoundTo(1.0, 10000) == 1.0;
      assert Deviations(Map(f, xs)) == Deviations(xs);
      assert Rho(xs, Map(f, xs), root) == Some(RoundTo(Ratio(v, v, v, root), 10000));
    }
  }

  // ------------------------------------------------------- when there is a correlation

  /** All values are the same. */
  predicate Constant(xs: seq<real>) {
    forall i, j | 0 <= i < j < |xs| :: xs[i] == xs[j]
  }

  predicate AllZero(a: seq<real>) {
    forall i | 0 <= i < |a| :: a[i] == 0.0
  }

  lemma {:induction false} AllZeroSnoc(a: seq<real>)
    requires a != []
    ensures AllZero(a) <==> AllZero(a[..|a|-1]) && a[|a|-1] == 0.0
  {
    var n := |a| - 1;
    if AllZero(a[..n]) && a[n] == 0.0 {
      forall i | 0 <= i < |a| ensures a[i] == 0.0 {
        assert i < n ==> a[..n][i] == 0.0;
      }
    }
  }

  lemma {:induction false} TimesZero(x: real, y: real)
    requires x == 0.0
    ensures x * y == 0.0
  {
  }

  lemma {:induction false} DotOfZeros(a: seq<real>)
    requires AllZero(a)
    ensures Dot(a, a) == 0.0
  {
    if a != [] {
      AllZeroSnoc(a);
      DotOfZeros(a[..|a|-1]);
      TimesZero(a[|a|-1], a[|a|-1]);
    }
  }

  lemma {:induction false} ProductSign(x: real, y: real, p: real)
    requires x > 0.0 && y > 0.0 && p == x * y
    ensures p > 0.0
  {
  }

  lemma {:induction false} BothZero(d: real, x: real, q: real)
    requires d >= 0.0 && q == x * x && d + q <= 0.0
    ensures x == 0.0
  {
    if x > 0.0 {
      ProductSign(x, x, q);
    } else if x < 0.0 {
      ProductSign(-x, -x, q);
    }
  }

  lemma {:induction false} ZerosOfDot(a: seq<real>)
    requires Dot(a, a) <= 0.0
    ensures AllZero(a)
  {
    if a != [] {
      var n := |a| - 1;
      DotSelf(a[..n]);
      BothZero(Dot(a[..n], a[..n]), a[n], a[n] * a[n]);
      TimesZero(a[n], a[n]);
      ZerosOfDot(a[..n]);
      AllZeroSnoc(a);
    }
  }

  lemma {:induction false} BelowAndEqual(xs: seq<real>, x: real, y: real)
    requires x < y
    ensures Below(xs, y) >= Below(xs, x) + Equal(xs, x)
  {
    if xs != [] {
      BelowAndEqual(xs[..|xs|-1], x, y);
    }
  }

  lemma {:induction false} EqualToSome(xs: seq<real>, x: real)
    requires x in xs
    ensures Equal(xs, x) >= 1
  {
    if xs[|xs|-1] != x {
      EqualToSome(xs[..|xs|-1], x);
    }
  }

  /** Different values have different ranks. */
  lemma {:induction false} RankSeparates(xs: seq<real>, x: real, y: real)
    requires x in xs && y in xs && x < y
    ensures Rank(xs, x) < Rank(xs, y)
  {
    BelowAndEqual(xs, x, y);
    EqualToSome(xs, x);
    EqualToSome(xs, y);
  }

  lemma {:induction false} ConstantSum(rs: seq<real>, r: real)
    requires forall i | 0 <= i < |rs| :: rs[i] == r
    ensures Sum(rs) == |rs| as real * r
  {
    if rs != [] {
      ConstantSum(rs[..|rs|-1], r);
    }
  }

  lemma {:induction false} MeanOfConstant(n: nat, r: real, total: real)
    requires n > 0 && total == n as real * r
    ensures total / n as real == r
  {
  }

  lemma {:induction false} ConstantHasNoDeviation(xs: seq<real>)
    requires xs != [] && Constant(xs)
    ensures AllZero(Deviations(xs))
  {
    var rs := RankSeq(xs);
    forall i | 0 <= i < |xs| ensures rs[i] == rs[0] {
      assert i == 0 || xs[0] == xs[i];
    }
    ConstantSum(rs, rs[0]);
    MeanOfConstant(|rs|, rs[0], Sum(rs));
  }

  lemma {:induction false} VariedHasDeviation(xs: seq<real>, i: nat, j: nat)
    requires i < |xs| && j < |xs| && xs[i] < xs[j]
    ensures Deviations(xs)[i] != Deviations(xs)[j]
  {
    RankSeparates(xs, xs[i], xs[j]);
  }

  /** Ranks have no variance exactly when the sample is constant. */
  lemma {:induction false} NoVarianceExactly(xs: seq<real>)
    requires xs != []
    ensures Dot(Deviations(xs), Deviations(xs)) <= 0.0 <==> Constant(xs)
  {
    if Constant(xs) {
      ConstantHasNoDeviation(xs);
      DotOfZeros(Deviations(xs));
    } else {
      if Dot(Deviations(xs), Deviations(xs)) <= 0.0 {
        ZerosOfDot(Deviations(xs));
      }
      var i, j :| 0 <= i < j < |xs| && xs[i] != xs[j];
      if xs[i] < xs[j] {
        VariedHasDeviation(xs, i, j);
      } else {
        VariedHasDeviation(xs, j, i);
      }
    }
  }

  /** There is a correlation exactly when the sides pair up, have three points or more,
      and neither is constant. */
  lemma {:induction false} RhoDefinedExactly(xs: seq<real>, ys: seq<real>, root: real -> real)
    requires IsRoot(root)
    ensures Rho(xs, ys, root).Some? <==> |xs| == |ys| >= 3 && !Constant(xs) && !Constant(ys)
  {
    if |xs| == |ys| >= 3 {
      NoVarianceExactly(xs);
      NoVarianceExactly(ys);
    }
  }
}
