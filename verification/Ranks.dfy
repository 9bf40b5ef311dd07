/** Average ranks (`_ranks` in app/analytics/metrics.py): ties share the mean of the
    positions they occupy. */
module Ranks {
  import opened Seqs

  function Below(xs: seq<real>, v: real): nat {
    CountIf((x: real) => x < v, xs)
  }

  function Equal(xs: seq<real>, v: real): nat {
    CountIf((x: real) => x == v, xs)
  }

  /** The average rank of the value v in the sample: those below it, plus the middle
      of its own tie block. */
  function Rank(xs: seq<real>, v: real): real {
    Below(xs, v) as real + (Equal(xs, v) + 1) as real / 2.0
  }

  function RanksAmong(vs: seq<real>, xs: seq<real>): (r: seq<real>)
    ensures |r| == |vs| && forall i | 0 <= i < |vs| :: r[i] == Rank(xs, vs[i])
  {
    seq(|vs|, i requires 0 <= i < |vs| => Rank(xs, vs[i]))
  }

  function RankSeq(xs: seq<real>): (r: seq<real>)
    ensures |r| == |xs| && forall i | 0 <= i < |xs| :: r[i] == Rank(xs, xs[i])
  {
    RanksAmong(xs, xs)
  }

  // ------------------------------------------------------------- the tie-block loop

  /** The sort key of an index; indices outside the sample do not occur. */
  function Key(xs: seq<real>, i: int): real {
    if 0 <= i < |xs| then xs[i] else 0.0
  }

  function ByValue(xs: seq<real>): (int, int) -> bool {
    (a: int, b: int) => Key(xs, a) <= Key(xs, b)
  }

  function Indices(n: nat): (s: seq<int>)
    ensures |s| == n && forall k | 0 <= k < n :: s[k] == k
  {
    seq(n, i requires 0 <= i < n => i)
  }

  ghost predicate IsOrder(order: seq<int>, xs: seq<real>) {
    && |order| == |xs|
    && multiset(order) == multiset(Indices(|xs|))
    && (forall k | 0 <= k < |order| :: 0 <= order[k] < |xs|)
    && (forall a, b | 0 <= a < b < |order| :: xs[order[a]] <= xs[order[b]])
  }

  lemma {:induction false} PrefixOfIndices(n: nat)
    ensures n > 0 ==> Indices(n)[..n-1] == Indices(n - 1)
  {
  }

  lemma {:induction false} CountOverIndices(p: real -> bool, xs: seq<real>)
    ensures CountIf((k: int) => 0 <= k < |xs| && p(xs[k]), Indices(|xs|)) == CountIf(p, xs)
  {
    if xs != [] {
      var n := |xs| - 1;
      CountOverIndices(p, xs[..n]);
      PrefixOfIndices(n + 1);
      CountSame((k: int) => 0 <= k < |xs| && p(xs[k]), (k: int) => 0 <= k < n && p(xs[..n][k]), Indices(n));
    }
  }

  lemma {:induction false} CountSame<T>(p: T -> bool, q: T -> bool, s: seq<T>)
    requires forall x | x in s :: p(x) <==> q(x)
    ensures CountIf(p, s) == CountIf(q, s)
  {
    if s != [] {
      CountSame(p, q, s[..|s|-1]);
    }
  }

  /** Counting the sample is counting along any order of its indices. */
  lemma {:induction false} CountAlongOrder(p: real -> bool, xs: seq<real>, order: seq<int>)
    requires IsOrder(order, xs)
    ensures CountIf((k: int) => 0 <= k < |xs| && p(xs[k]), order) == CountIf(p, xs)
  {
    CountPermutes((k: int) => 0 <= k < |xs| && p(xs[k]), order, Indices(|xs|));
    CountOverIndices(p, xs);
  }

  /** Positions from..to of the order carry one value, all before are smaller and all
      after larger. */
  ghost predicate TieBlock(order: seq<int>, xs: seq<real>, from: nat, to: nat)
    requires IsOrder(order, xs)
  {
    && from < to <= |order|
    && (forall k | 0 <= k < from :: xs[order[k]] < xs[order[from]])
    && (forall k | from <= k < to :: xs[order[k]] == xs[order[from]])
    && (forall k | to <= k < |order| :: xs[order[k]] > xs[order[from]])
  }

  lemma {:induction false} CountInBlock(order: seq<int>, p: int -> bool, from: nat, to: nat)
    requires from <= to <= |order|
    requires forall k | 0 <= k < |order| :: p(order[k]) <==> from <= k < to
    ensures CountIf(p, order) == to - from
  {
    CountParts(p, order, from, to);
    CountAllOrNone(p, order[..from]);
    CountAllOrNone(p, order[from..to]);
    CountAllOrNone(p, order[to..]);
  }

  lemma {:induction false} CountParts(p: int -> bool, s: seq<int>, from: nat, to: nat)
    requires from <= to <= |s|
    ensures CountIf(p, s) == CountIf(p, s[..from]) + CountIf(p, s[from..to]) + CountIf(p, s[to..])
  {
    SplitAt(s, to);
    CountAppend(p, s[..to], s[to..]);
    assert s[..to] == s[..from] + s[from..to];
    CountAppend(p, s[..from], s[from..to]);
  }

  lemma {:induction false} BlockBelow(order: seq<int>, xs: seq<real>, from: nat, to: nat)
    requires IsOrder(order, xs) && TieBlock(order, xs, from, to)
    ensures Below(xs, xs[order[from]]) == from
  {
    var v := xs[order[from]];
    var p := (k: int) => 0 <= k < |xs| && xs[k] < v;
    CountAlongOrder((x: real) => x < v, xs, order);
    CountSame(p, (k: int) => 0 <= k < |xs| && ((x: real) => x < v)(xs[k]), order);
    CountInBlock(order, p, 0, from);
  }

  lemma {:induction false} BlockEqual(order: seq<int>, xs: seq<real>, from: nat, to: nat)
    requires IsOrder(order, xs) && TieBlock(order, xs, from, to)
    ensures Equal(xs, xs[order[from]]) == to - from
  {
    var v := xs[order[from]];
    var p := (k: int) => 0 <= k < |xs| && xs[k] == v;
    CountAlongOrder((x: real) => x == v, xs, order);
    CountSame(p, (k: int) => 0 <= k < |xs| && ((x: real) => x == v)(xs[k]), order);
    CountInBlock(order, p, from, to);
  }

  /** The average of the positions of a tie block is the rank of its value. */
  lemma {:induction false} BlockAverage(order: seq<int>, xs: seq<real>, i: nat, j: nat)
    requires IsOrder(order, xs) && TieBlock(order, xs, i, j + 1)
    ensures (i + j) as real / 2.0 + 1.0 == Rank(xs, xs[order[i]])
  {
    BlockBelow(order, xs, i, j + 1);
    BlockEqual(order, xs, i, j + 1);
  }

  lemma {:induction false} OrderExists(xs: seq<real>)
    ensures IsOrder(SortBy(ByValue(xs), Indices(|xs|)), xs)
  {
    var ids := Indices(|xs|);
    var order := SortBy(ByValue(xs), ids);
    SortPermutes(ByValue(xs), ids);
    SortBySorted(ByValue(xs), ids);
    forall k | 0 <= k < |order| ensures 0 <= order[k] < |xs| {
      assert order[k] in order;
    }
    forall a, b | 0 <= a < b < |order| ensures xs[order[a]] <= xs[order[b]] {
      assert ByValue(xs)(order[a], order[b]);
    }
  }

  /** Extends j to the end of the tie block that starts at i. */
  method BlockEnd(order: seq<int>, xs: seq<real>, i: nat) returns (j: nat)
    requires IsOrder(order, xs) && i < |order|
    requires forall k | 0 <= k < i :: xs[order[k]] < xs[order[i]]
    ensures TieBlock(order, xs, i, j + 1)
  {
    j := i;
    while j + 1 < |order| && xs[order[j + 1]] == xs[order[i]]
      invariant i <= j < |order|
      invariant forall k | i <= k <= j :: xs[order[k]] == xs[order[i]]
    {
      j := j + 1;
    }
    forall k | j + 1 <= k < |order| ensures xs[order[k]] > xs[order[i]] {
      assert xs[order[j + 1]] <= xs[order[k]] || k == j + 1;
    }
  }

  /** `_ranks` */
  method ComputeRanks(xs: seq<real>) returns (ranks: array<real>)
    ensures fresh(ranks) && ranks[..] == RankSeq(xs)
  {
    var order := SortBy(ByValue(xs), Indices(|xs|));
    OrderExists(xs);
    ranks := new real[|xs|](_ => 0.0);
    var i := 0;
    while i < |order|
      invariant 0 <= i <= |order|
      invariant forall k | 0 <= k < i :: ranks[order[k]] == Rank(xs, xs[order[k]])
      invariant forall a, b | 0 <= a < i <= b < |order| :: xs[order[a]] < xs[order[b]]
    {
      var j := BlockEnd(order, xs, i);
      var avg := (i + j) as real / 2.0 + 1.0;
      BlockAverage(order, xs, i, j);
      var k := i;
      while k <= j
        invariant i <= k <= j + 1
        invariant forall m | 0 <= m < k :: ranks[order[m]] == Rank(xs, xs[order[m]])
      {
        assert xs[order[k]] == xs[order[i]];
        ranks[order[k]] := avg;
        k := k + 1;
      }
      i := j + 1;
    }
    forall v | 0 <= v < |xs| ensures ranks[v] == Rank(xs, xs[v]) {
      var k := IndexOrdered(order, xs, v);
    }
  }

  /** Every index of the sample has a place in the order. */
  lemma {:induction false} IndexOrdered(order: seq<int>, xs: seq<real>, v: int) returns (k: int)
    requires IsOrder(order, xs) && 0 <= v < |xs|
    ensures 0 <= k < |order| && order[k] == v
  {
    assert Indices(|xs|)[v] == v;
    assert v in multiset(Indices(|xs|));
    assert v in multiset(order);
    k :| 0 <= k < |order| && order[k] == v;
  }

  // ------------------------------------------------------------------- laws of ranks

  lemma {:induction false} CountSnoc<T>(p: T -> bool, s: seq<T>, x: T)
    ensures CountIf(p, s + [x]) == CountIf(p, s) + if p(x) then 1 else 0
  {
    assert (s + [x])[..|s|] == s;
  }

  lemma {:induction false} RankSnoc(xs: seq<real>, y: real, v: real)
    ensures Rank(xs + [y], v) == Rank(xs, v) + if y < v then 1.0 else if y == v then 0.5 else 0.0
  {
    CountSnoc((x: real) => x < v, xs, y);
    CountSnoc((x: real) => x == v, xs, y);
  }

  function Above(xs: seq<real>, v: real): nat {
    CountIf((x: real) => v < x, xs)
  }

  lemma {:induction false} Trichotomy(xs: seq<real>, v: real)
    ensures Below(xs, v) + Equal(xs, v) + Above(xs, v) == |xs|
  {
    if xs != [] {
      Trichotomy(xs[..|xs|-1], v);
    }
  }

  /** What one more observation adds to the ranks of given values. */
  lemma {:induction false} RanksShift(vs: seq<real>, xs: seq<real>, y: real)
    ensures Sum(RanksAmong(vs, xs + [y]))
         == Sum(RanksAmong(vs, xs)) + Above(vs, y) as real + Equal(vs, y) as real / 2.0
  {
    if vs != [] {
      var n := |vs| - 1;
      assert RanksAmong(vs, xs + [y])[..n] == RanksAmong(vs[..n], xs + [y]);
      assert RanksAmong(vs, xs)[..n] == RanksAmong(vs[..n], xs);
      RanksShift(vs[..n], xs, y);
      RankSnoc(xs, y, vs[n]);
    }
  }

  /** One more observation, first in the pool and then ranked itself, adds n + 1. */
  lemma {:induction false} RanksGrow(xs: seq<real>, y: real)
    ensures Sum(RankSeq(xs + [y])) == Sum(RankSeq(xs)) + (|xs| + 1) as real
  {
    var all := xs + [y];
    SnocParts(xs, y);
    assert RankSeq(all)[..|xs|] == RanksAmong(xs, all);
    RanksShift(xs, xs, y);
    Trichotomy(xs, y);
    RankSnoc(xs, y, y);
  }

  lemma {:induction false} Triangular(n: nat)
    ensures (n + 1) * (n + 2) == n * (n + 1) + 2 * (n + 1)
  {
  }

  /** Ranks always add up to n(n+1)/2, ties or not. */
  lemma {:induction false} RanksSum(xs: seq<real>)
    ensures Sum(RankSeq(xs)) == (|xs| * (|xs| + 1)) as real / 2.0
  {
    if xs != [] {
      var n := |xs| - 1;
      RanksSum(xs[..n]);
      SplitLast(xs);
      RanksGrow(xs[..n], xs[n]);
      Triangular(n);
    }
  }

  ghost predicate StrictlyIncreasing(f: real -> real) {
    forall a, b :: a < b ==> f(a) < f(b)
  }

  lemma {:induction false} CountMapped(f: real -> real, xs: seq<real>, v: real)
    requires StrictlyIncreasing(f)
    ensures Below(Map(f, xs), f(v)) == Below(xs, v) && Equal(Map(f, xs), f(v)) == Equal(xs, v)
  {
    if xs != [] {
      var n := |xs| - 1;
      CountMapped(f, xs[..n], v);
      assert Map(f, xs)[..n] == Map(f, xs[..n]);
      assert f(xs[n]) < f(v) <==> xs[n] < v;
      assert f(xs[n]) == f(v) <==> xs[n] == v;
    }
  }

  /** Ranks see only the order: a strictly increasing change of scale changes none. */
  lemma {:induction false} RanksIgnoreScale(f: real -> real, xs: seq<real>)
    requires StrictlyIncreasing(f)
    ensures RankSeq(Map(f, xs)) == RankSeq(xs)
  {
    forall i | 0 <= i < |xs| ensures RankSeq(Map(f, xs))[i] == RankSeq(xs)[i] {
      CountMapped(f, xs, xs[i]);
    }
  }
}
