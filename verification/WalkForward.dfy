/** Walk-forward splitting with purge and embargo (app/backtest/walk_forward.py).
    Dates are day numbers. */
module WalkForward {
  import opened Basics
  import opened Seqs

  datatype Fold<T> = Fold(index: nat, train: seq<T>, test: seq<T>, start: int, end: int)

  predicate NotAfter(a: int, b: int) {
    a <= b
  }

  function Dates<T>(items: seq<T>, dateOf: T -> int): (ds: seq<int>)
    ensures |ds| == |items| && forall i | 0 <= i < |items| :: ds[i] == dateOf(items[i])
  {
    seq(|items|, i requires 0 <= i < |items| => dateOf(items[i]))
  }

  /** The entry dates in order; only the first and the last are used. */
  function Entries<T>(items: seq<T>, entryOf: T -> int): (ds: seq<int>)
    ensures |ds| == |items|
  {
    SortBy(NotAfter, Dates(items, entryOf))
  }

  function StepOf(lo: int, hi: int, n: nat): int {
    Max(1, (hi - lo) / (n + 1))
  }

  /** `_cuts`: cut i of n + 1. */
  function Cut(lo: int, hi: int, n: nat, i: nat): int {
    if i < n then lo + StepOf(lo, hi, n) * (i + 1) else hi + 1
  }

  predicate InSegment<T>(x: T, entryOf: T -> int, start: int, end: int) {
    start <= entryOf(x) < end
  }

  /** Purged training rows: resolved by the barrier, or entered from it on in reverse. */
  predicate InTrain<T>(x: T, entryOf: T -> int, exitOf: T -> int, start: int, end: int, embargo: int, reverse: bool) {
    if reverse then entryOf(x) >= end + embargo else exitOf(x) <= start - embargo
  }

  function TestRows<T>(items: seq<T>, entryOf: T -> int, start: int, end: int): seq<T> {
    Filter((x: T) => InSegment(x, entryOf, start, end), items)
  }

  function TrainRows<T>(items: seq<T>, entryOf: T -> int, exitOf: T -> int, start: int, end: int, embargo: int,
                        reverse: bool): seq<T>
  {
    Filter((x: T) => InTrain(x, entryOf, exitOf, start, end, embargo, reverse), items)
  }

  /** The fold of one test segment; None when it has nothing to test or to train on. */
  function FoldAt<T>(items: seq<T>, entryOf: T -> int, exitOf: T -> int, lo: int, hi: int, n: nat, embargo: int,
                     reverse: bool, i: nat): Option<Fold<T>>
  {
    var start, end := Cut(lo, hi, n, i), Cut(lo, hi, n, i + 1);
    var test, train := TestRows(items, entryOf, start, end),
                       TrainRows(items, entryOf, exitOf, start, end, embargo, reverse);
    if |test| == 0 || |train| == 0 then None else Some(Fold(i, train, test, start, end))
  }

  function FoldsUpTo<T>(items: seq<T>, entryOf: T -> int, exitOf: T -> int, lo: int, hi: int, n: nat, embargo: int,
                        reverse: bool, count: nat): seq<Fold<T>>
  {
    if count == 0 then []
    else
      var rest := FoldsUpTo(items, entryOf, exitOf, lo, hi, n, embargo, reverse, count - 1);
      match FoldAt(items, entryOf, exitOf, lo, hi, n, embargo, reverse, count - 1)
      case None => rest
      case Some(f) => rest + [f]
  }

  function First<T>(items: seq<T>, entryOf: T -> int): int
    requires items != []
  {
    Entries(items, entryOf)[0]
  }

  function Last<T>(items: seq<T>, entryOf: T -> int): int
    requires items != []
  {
    Entries(items, entryOf)[|items|-1]
  }

  function Folds<T>(items: seq<T>, entryOf: T -> int, exitOf: T -> int, n: nat, embargo: int,
                    reverse: bool): seq<Fold<T>> {
    if |items| < 2 then []
    else FoldsUpTo(items, entryOf, exitOf, First(items, entryOf), Last(items, entryOf), n, embargo, reverse, n)
  }

  /** `walk_forward_folds` */
  method WalkForwardFolds<T>(items: seq<T>, entryOf: T -> int, exitOf: T -> int, nFolds: nat, embargo: int,
                             reverse: bool) returns (folds: seq<Fold<T>>)
    ensures folds == Folds(items, entryOf, exitOf, nFolds, embargo, reverse)
  {
    if |items| < 2 {
      return [];
    }
    var entries := Entries(items, entryOf);
    var lo, hi := entries[0], entries[|entries|-1];
    folds := [];
    var i: nat := 0;
    while i < nFolds
      invariant i <= nFolds
      invariant folds == FoldsUpTo(items, entryOf, exitOf, lo, hi, nFolds, embargo, reverse, i)
    {
      var start, end := Cut(lo, hi, nFolds, i), Cut(lo, hi, nFolds, i + 1);
      var test := TestRows(items, entryOf, start, end);
      var train := TrainRows(items, entryOf, exitOf, start, end, embargo, reverse);
      if |test| > 0 && |train| > 0 {
        folds := folds + [Fold(i, train, test, start, end)];
      }
      i := i + 1;
    }
  }

  // ------------------------------------------------------------------ the test segments

  lemma {:induction false} StepTimes(step: int, a: int, b: int)
    requires step >= 1 && a <= b
    ensures step * a <= step * b
    ensures a < b ==> step * a + step <= step * b
  {
    var d := b - a;
    assert step * b == step * a + step * d;
    MulAtLeast(step, d);
  }

  /** The cuts are evenly spaced, a whole number of days apart: as many as go n + 1 times
      into the span of the corpus, but at least one; the last segment ends after its last
      day. */
  lemma {:induction false} CutsAreEven(lo: int, hi: int, n: nat)
    requires lo <= hi
    ensures var step := StepOf(lo, hi, n);
      && step >= 1
      && (step * (n + 1) <= hi - lo || step == 1)
      && hi - lo < (step + 1) * (n + 1)
      && Cut(lo, hi, n, n) == hi + 1
      && forall i: nat | i < n :: Cut(lo, hi, n, i) == lo + step * (i + 1)
  {
    var span, q := hi - lo, (hi - lo) / (n + 1);
    assert span == (n + 1) * q + span % (n + 1);
    assert (q + 1) * (n + 1) == (n + 1) * q + (n + 1) && q * (n + 1) == (n + 1) * q;
    if q < 1 {
      assert StepOf(lo, hi, n) == 1;
      MulAtLeast(n + 1, q);
    }
  }

  lemma {:induction false} CutsAscend(lo: int, hi: int, n: nat, i: nat, j: nat)
    requires i < j < n
    ensures Cut(lo, hi, n, i) < Cut(lo, hi, n, j)
  {
    StepTimes(StepOf(lo, hi, n), i + 1, j + 1);
  }

  /** No row is in two test segments. */
  lemma {:induction false} SegmentsAreDisjoint<T>(x: T, entryOf: T -> int, lo: int, hi: int, n: nat, i: nat, j: nat)
    requires i < j < n
    requires InSegment(x, entryOf, Cut(lo, hi, n, i), Cut(lo, hi, n, i + 1))
    ensures !InSegment(x, entryOf, Cut(lo, hi, n, j), Cut(lo, hi, n, j + 1))
  {
    if i + 1 < j {
      CutsAscend(lo, hi, n, i + 1, j);
    }
  }

  /** The segment holding a date: the quotient by the step, or the last one. */
  function SegmentOf(lo: int, hi: int, n: nat, d: int): int {
    Min(n - 1, (d - lo) / StepOf(lo, hi, n) - 1)
  }

  lemma {:induction false} NonPositiveTimes(step: int, q: int)
    requires step >= 1
    ensures q <= 0 ==> step * q <= 0
  {
    MulAtLeast(step, q);
  }

  lemma {:induction false} QuotientBounds(x: int, step: int)
    requires x >= step >= 1
    ensures var q := x / step; q >= 1 && step * q <= x < step * q + step
  {
    NonPositiveTimes(step, x / step);
  }

  /** Every row entering from the first cut on lies in some test segment. */
  lemma {:induction false} SegmentsCover<T>(x: T, entryOf: T -> int, lo: int, hi: int, n: nat)
    requires n > 0 && Cut(lo, hi, n, 0) <= entryOf(x) <= hi
    ensures var i := SegmentOf(lo, hi, n, entryOf(x));
      0 <= i < n && InSegment(x, entryOf, Cut(lo, hi, n, i), Cut(lo, hi, n, i + 1))
  {
    var step, d := StepOf(lo, hi, n), entryOf(x);
    QuotientBounds(d - lo, step);
    var q := (d - lo) / step;
    assert step * (q + 1) == step * q + step;
    if n - 1 < q - 1 {
      StepTimes(step, n, q);
    }
  }

  lemma {:induction false} EntryRange<T(!new)>(items: seq<T>, entryOf: T -> int, x: T)
    requires x in items
    ensures First(items, entryOf) <= entryOf(x) <= Last(items, entryOf)
  {
    var k :| 0 <= k < |items| && items[k] == x;
    var ds := Dates(items, entryOf);
    var s := Entries(items, entryOf);
    SortPermutes(NotAfter, ds);
    SortBySorted(NotAfter, ds);
    assert ds[k] in ds;
    var j :| 0 <= j < |s| && s[j] == entryOf(x);
    assert j == 0 || NotAfter(s[0], s[j]);
    assert j == |s| - 1 || NotAfter(s[j], s[|s|-1]);
  }

  /** The rows held out in test segment i of n. */
  function HeldOut<T>(items: seq<T>, entryOf: T -> int, n: nat, i: nat): seq<T>
    requires items != []
  {
    var lo, hi := First(items, entryOf), Last(items, entryOf);
    TestRows(items, entryOf, Cut(lo, hi, n, i), Cut(lo, hi, n, i + 1))
  }

  /** A row is held out in some segment exactly when it enters at or after the first cut. */
  lemma {:induction false} HeldOutSomewhere<T(!new)>(items: seq<T>, entryOf: T -> int, n: nat, x: T)
    requires n > 0 && x in items
    ensures entryOf(x) >= Cut(First(items, entryOf), Last(items, entryOf), n, 0)
       <==> exists i: nat :: i < n && x in HeldOut(items, entryOf, n, i)
  {
    var lo, hi := First(items, entryOf), Last(items, entryOf);
    EntryRange(items, entryOf, x);
    if entryOf(x) >= Cut(lo, hi, n, 0) {
      SegmentsCover(x, entryOf, lo, hi, n);
      var i: nat := SegmentOf(lo, hi, n, entryOf(x));
      assert x in HeldOut(items, entryOf, n, i);
    } else {
      NotHeldOutEarly(items, entryOf, lo, hi, n, x);
    }
  }

  /** And it is never held out in two. */
  lemma {:induction false} HeldOutAtMostOnce<T>(items: seq<T>, entryOf: T -> int, n: nat, i: nat, j: nat, x: T)
    requires items != [] && i < j < n && x in HeldOut(items, entryOf, n, i)
    ensures x !in HeldOut(items, entryOf, n, j)
  {
    SegmentsAreDisjoint(x, entryOf, First(items, entryOf), Last(items, entryOf), n, i, j);
  }

  lemma {:induction false} NotHeldOutEarly<T>(items: seq<T>, entryOf: T -> int, lo: int, hi: int, n: nat, x: T)
    requires n > 0 && entryOf(x) < Cut(lo, hi, n, 0)
    ensures forall i: nat | i < n :: x !in TestRows(items, entryOf, Cut(lo, hi, n, i), Cut(lo, hi, n, i + 1))
  {
    forall i: nat | i < n
      ensures x !in TestRows(items, entryOf, Cut(lo, hi, n, i), Cut(lo, hi, n, i + 1))
    {
      if i > 0 {
        CutsAscend(lo, hi, n, 0, i);
      }
    }
  }

  // ---------------------------------------------------------------- purge and embargo

  /** Where a fold of the result comes from. */
  lemma {:induction false} FoldSource<T>(items: seq<T>, entryOf: T -> int, exitOf: T -> int, lo: int, hi: int, n: nat,
                                         embargo: int, reverse: bool, count: nat, f: Fold<T>)
    requires f in FoldsUpTo(items, entryOf, exitOf, lo, hi, n, embargo, reverse, count)
    ensures f.index < count && FoldAt(items, entryOf, exitOf, lo, hi, n, embargo, reverse, f.index) == Some(f)
  {
    if f in FoldsUpTo(items, entryOf, exitOf, lo, hi, n, embargo, reverse, count - 1) {
      FoldSource(items, entryOf, exitOf, lo, hi, n, embargo, reverse, count - 1, f);
    }
  }

  /** A corpus of two rows or more has a fold for exactly those of the n segments that
      leave something to test and something to train on. */
  lemma {:induction false} FoldsExactly<T(!new)>(items: seq<T>, entryOf: T -> int, exitOf: T -> int, n: nat,
                                                 embargo: int, reverse: bool, i: nat)
    requires |items| >= 2 && i < n
    ensures var lo, hi := First(items, entryOf), Last(items, entryOf);
      var start, end := Cut(lo, hi, n, i), Cut(lo, hi, n, i + 1);
      (exists f :: f in Folds(items, entryOf, exitOf, n, embargo, reverse) && f.index == i)
      <==> && (exists x :: x in items && start <= entryOf(x) < end)
           && (exists x :: x in items && if reverse then entryOf(x) - embargo >= end else exitOf(x) + embargo <= start)
  {
    var lo, hi := First(items, entryOf), Last(items, entryOf);
    var start, end := Cut(lo, hi, n, i), Cut(lo, hi, n, i + 1);
    var test, train := TestRows(items, entryOf, start, end),
                       TrainRows(items, entryOf, exitOf, start, end, embargo, reverse);
    if f :| f in Folds(items, entryOf, exitOf, n, embargo, reverse) && f.index == i {
      FoldSource(items, entryOf, exitOf, lo, hi, n, embargo, reverse, n, f);
      assert test[0] in test && train[0] in train;
    }
    if && (exists x :: x in items && start <= entryOf(x) < end)
       && (exists x :: x in items && if reverse then entryOf(x) - embargo >= end else exitOf(x) + embargo <= start)
    {
      var x :| x in items && start <= entryOf(x) < end;
      var y :| y in items && if reverse then entryOf(y) - embargo >= end else exitOf(y) + embargo <= start;
      assert x in test && y in train;
      FoldKept(items, entryOf, exitOf, lo, hi, n, embargo, reverse, n, i);
    }
  }

  /** A fold holds exactly the rows of its segment and those its barrier lets through, and
      says where the segment begins and ends. */
  lemma {:induction false} FoldHolds<T(!new)>(items: seq<T>, entryOf: T -> int, exitOf: T -> int, n: nat, embargo: int,
                                              reverse: bool, f: Fold<T>)
    requires f in Folds(items, entryOf, exitOf, n, embargo, reverse)
    ensures f.start == Cut(First(items, entryOf), Last(items, entryOf), n, f.index)
    ensures f.end == Cut(First(items, entryOf), Last(items, entryOf), n, f.index + 1)
    ensures forall x :: x in f.test <==> x in items && f.start <= entryOf(x) && entryOf(x) < f.end
    ensures forall x :: x in f.train <==> x in items && if reverse then entryOf(x) - f.end >= embargo
                                                        else f.start - exitOf(x) >= embargo
  {
    FoldSource(items, entryOf, exitOf, First(items, entryOf), Last(items, entryOf), n, embargo, reverse, n, f);
  }

  /** Folds come in the order of their segments. */
  lemma {:induction false} FoldsAscend<T>(items: seq<T>, entryOf: T -> int, exitOf: T -> int, lo: int, hi: int, n: nat,
                                          embargo: int, reverse: bool, count: nat, i: nat, j: nat)
    requires i < j < |FoldsUpTo(items, entryOf, exitOf, lo, hi, n, embargo, reverse, count)|
    ensures var folds := FoldsUpTo(items, entryOf, exitOf, lo, hi, n, embargo, reverse, count);
      folds[i].index < folds[j].index < count
  {
    var rest := FoldsUpTo(items, entryOf, exitOf, lo, hi, n, embargo, reverse, count - 1);
    if j < |rest| {
      FoldsAscend(items, entryOf, exitOf, lo, hi, n, embargo, reverse, count - 1, i, j);
    } else {
      assert rest[i] in rest;
      FoldSource(items, entryOf, exitOf, lo, hi, n, embargo, reverse, count - 1, rest[i]);
    }
  }

  /** Forward: every training row was resolved at least the embargo before every test
      row entered. Reverse: it entered at least the embargo after the segment closed. */
  lemma {:induction false} TrainIsEmbargoed<T>(items: seq<T>, entryOf: T -> int, exitOf: T -> int, n: nat, embargo: int,
                                               reverse: bool, f: Fold<T>, t: T, s: T)
    requires f in Folds(items, entryOf, exitOf, n, embargo, reverse)
    requires t in f.train && s in f.test
    ensures t in items && s in items
    ensures !reverse ==> exitOf(t) + embargo <= entryOf(s)
    ensures reverse ==> entryOf(s) + embargo < entryOf(t)
  {
    FoldSource(items, entryOf, exitOf, First(items, entryOf), Last(items, entryOf), n, embargo, reverse, n, f);
  }

  /** A row is on both sides of one forward fold exactly when there is no embargo
      and it entered and resolved on the very day the segment opens. */
  lemma {:induction false} OverlapExactly<T>(x: T, entryOf: T -> int, exitOf: T -> int, start: int, end: int,
                                             embargo: int)
    requires embargo >= 0 && exitOf(x) >= entryOf(x)
    ensures InTrain(x, entryOf, exitOf, start, end, embargo, false) && InSegment(x, entryOf, start, end)
       <==> embargo == 0 && entryOf(x) == exitOf(x) == start && start < end
  {
  }

  /** The corner is real: without an embargo one same-day row is in both halves. */
  lemma {:induction false} ZeroEmbargoCanLeak()
    ensures var items := [(0, 0), (2, 2), (4, 4)];
      exists f, x :: f in Folds(items, (d: (int, int)) => d.0, (d: (int, int)) => d.1, 1, 0, false)
                     && x in f.train && x in f.test
  {
    var items := [(0, 0), (2, 2), (4, 4)];
    var entryOf, exitOf := (d: (int, int)) => d.0, (d: (int, int)) => d.1;
    assert Dates(items, entryOf) == [0, 2, 4];
    SortOfSorted(NotAfter, [0, 2, 4]);
    var x := items[1];
    assert x in TestRows(items, entryOf, 2, 5) && x in TrainRows(items, entryOf, exitOf, 2, 5, 0, false);
    var f := FoldAt(items, entryOf, exitOf, 0, 4, 1, 0, false, 0).value;
    FoldKept(items, entryOf, exitOf, 0, 4, 1, 0, false, 1, 0);
    assert f in Folds(items, entryOf, exitOf, 1, 0, false) && x in f.train && x in f.test;
  }

  /** Forward training windows only grow. */
  lemma {:induction false} TrainExpands<T>(items: seq<T>, entryOf: T -> int, exitOf: T -> int, lo: int, hi: int, n: nat,
                                           embargo: int, i: nat, j: nat, x: T)
    requires i < j < n
    requires x in TrainRows(items, entryOf, exitOf, Cut(lo, hi, n, i), Cut(lo, hi, n, i + 1), embargo, false)
    ensures x in TrainRows(items, entryOf, exitOf, Cut(lo, hi, n, j), Cut(lo, hi, n, j + 1), embargo, false)
  {
    CutsAscend(lo, hi, n, i, j);
  }

  // ------------------------------------------------------------- the reverse walk

  /** A row as its entry and exit day. */
  type Held = (int, int)

  function EntryDay(x: Held): int {
    x.0
  }

  function ExitDay(x: Held): int {
    x.1
  }

  ghost predicate HeldAtMost(items: seq<Held>, h: int) {
    forall x | x in items :: x.1 - x.0 <= h
  }

  /** Every test row of the reverse walk is resolved when any of its train rows enters. */
  ghost predicate NoStraddler(items: seq<Held>, n: nat, embargo: int) {
    forall f, t, s | f in Folds(items, EntryDay, ExitDay, n, embargo, true) && t in f.train && s in f.test ::
      ExitDay(s) <= EntryDay(t)
  }

  lemma {:induction false} ShortHoldsResolve(items: seq<Held>, n: nat, embargo: int, h: int)
    requires HeldAtMost(items, h) && h <= embargo + 1
    ensures NoStraddler(items, n, embargo)
  {
    forall f, t, s | f in Folds(items, EntryDay, ExitDay, n, embargo, true) && t in f.train && s in f.test
      ensures ExitDay(s) <= EntryDay(t)
    {
      TrainIsEmbargoed(items, EntryDay, ExitDay, n, embargo, true, f, t, s);
    }
  }

  /** A corpus cut into single days whose first test row is still open when a train
      row enters right after the embargo. */
  function Straddling(embargo: nat, h: int): seq<Held> {
    [(0, 0), (1, 1 + h), (2 + embargo, 2 + embargo)]
  }

  lemma {:induction false} ThreeInOrder(a: int, b: int, c: int)
    requires a <= b <= c
    ensures SortBy(NotAfter, [a, b, c]) == [a, b, c]
  {
    var s := [a, b, c];
    assert forall i, j | 0 <= i < j < |s| :: s[i] <= s[j];
    assert forall i, j | 0 <= i < j < |s| :: NotAfter(s[i], s[j]);
    SortOfSorted(NotAfter, s);
  }

  lemma {:induction false} SingleDays(n: nat)
    requires n >= 2
    ensures StepOf(0, n, n) == 1 && Cut(0, n, n, 0) == 1 && Cut(0, n, n, 1) == 2
  {
    assert n / (n + 1) == 0;
  }

  lemma {:induction false} StraddlingFold(embargo: nat, h: int) returns (f: Fold<Held>)
    ensures f in Folds(Straddling(embargo, h), EntryDay, ExitDay, 2 + embargo, embargo, true)
    ensures Straddling(embargo, h)[1] in f.test && Straddling(embargo, h)[2] in f.train
  {
    var items, n: nat := Straddling(embargo, h), 2 + embargo;
    assert Dates(items, EntryDay) == [0, 1, n];
    ThreeInOrder(0, 1, n);
    SingleDays(n);
    assert items[1] in TestRows(items, EntryDay, 1, 2);
    assert items[2] in TrainRows(items, EntryDay, ExitDay, 1, 2, embargo, true);
    f := FoldAt(items, EntryDay, ExitDay, 0, n, n, embargo, true, 0).value;
    FoldKept(items, EntryDay, ExitDay, 0, n, n, embargo, true, n, 0);
  }

  lemma {:induction false} LongHoldStraddles(embargo: nat, h: int)
    requires h > embargo + 1
    ensures HeldAtMost(Straddling(embargo, h), h)
    ensures !NoStraddler(Straddling(embargo, h), 2 + embargo, embargo)
  {
    var f := StraddlingFold(embargo, h);
    assert ExitDay(Straddling(embargo, h)[1]) > EntryDay(Straddling(embargo, h)[2]);
  }

  /** The reverse walk purges nothing from its test half, so what keeps a test row from
      being open when a train row enters is how long rows are held: over all corpora of
      rows held at most h days, exactly when h is at most the embargo and a day. */
  lemma {:induction false} StraddlersExactly(embargo: nat, h: int)
    ensures (forall items: seq<Held>, n: nat | HeldAtMost(items, h) :: NoStraddler(items, n, embargo))
       <==> h <= embargo + 1
  {
    if h <= embargo + 1 {
      forall items: seq<Held>, n: nat | HeldAtMost(items, h) ensures NoStraddler(items, n, embargo) {
        ShortHoldsResolve(items, n, embargo, h);
      }
    } else {
      LongHoldStraddles(embargo, h);
      var items, n: nat := Straddling(embargo, h), 2 + embargo;
      assert HeldAtMost(items, h) && !NoStraddler(items, n, embargo);
    }
  }

  /** A segment with rows on both sides contributes its fold. */
  lemma {:induction false} FoldKept<T>(items: seq<T>, entryOf: T -> int, exitOf: T -> int, lo: int, hi: int, n: nat,
                                       embargo: int, reverse: bool, count: nat, i: nat)
    requires i < count && FoldAt(items, entryOf, exitOf, lo, hi, n, embargo, reverse, i).Some?
    ensures FoldAt(items, entryOf, exitOf, lo, hi, n, embargo, reverse, i).value
            in FoldsUpTo(items, entryOf, exitOf, lo, hi, n, embargo, reverse, count)
  {
    if i < count - 1 {
      FoldKept(items, entryOf, exitOf, lo, hi, n, embargo, reverse, count - 1, i);
    }
  }
}
