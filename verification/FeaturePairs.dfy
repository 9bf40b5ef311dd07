/** Out-of-sample predictor/outcome pairs (app/backtest/feature_validation.py): the
    predictor is fitted on the training rows of a fold and scored on its test rows. */
module FeaturePairs {
  import opened Basics
  import opened Seqs
  import opened ListDicts
  import opened WalkForward

  /** A feature vector. Features a row has no value for are absent from its maps. */
  datatype Row = Row(id: string, entry: int, exit: Option<int>, regime: string, net: real,
                     numeric: map<string, real>, category: map<string, string>)

  /** `exit_or_entry` */
  function Resolved(r: Row): int {
    if r.exit.Some? then r.exit.value else r.entry + 1
  }

  function EntryOf(): Row -> int {
    (r: Row) => r.entry
  }

  function ResolvedOf(): Row -> int {
    (r: Row) => Resolved(r)
  }

  datatype Scored = Scored(predictor: real, outcome: real, regime: string)

  const MIN_FOLD_TEST := 8

  // ------------------------------------------------------------------ numeric features

  function Known(rows: seq<Row>, feat: string): (known: seq<Row>)
    ensures forall r | r in known :: feat in r.numeric
  {
    Filter((r: Row) => feat in r.numeric, rows)
  }

  function Inputs(rows: seq<Row>, feat: string): (xs: seq<real>)
    requires forall r | r in rows :: feat in r.numeric
    ensures |xs| == |rows|
  {
    seq(|rows|, i requires 0 <= i < |rows| => assert rows[i] in rows; rows[i].numeric[feat])
  }

  function Outcomes(rows: seq<Row>): (ys: seq<real>)
    ensures |ys| == |rows| && forall i | 0 <= i < |rows| :: ys[i] == rows[i].net
  {
    seq(|rows|, i requires 0 <= i < |rows| => rows[i].net)
  }

  /** +1 or -1 by the training correlation; None when it cannot be told. */
  function Orientation(train: seq<Row>, feat: string, rho: (seq<real>, seq<real>) -> Option<real>): Option<real> {
    var tr := Known(train, feat);
    if |tr| < 5 then None
    else match rho(Inputs(tr, feat), Outcomes(tr))
      case None => None
      case Some(r) => if r == 0.0 then None else Some(if r > 0.0 then 1.0 else -1.0)
  }

  function ScoreNumeric(test: seq<Row>, feat: string, s: real): seq<Scored> {
    if test == [] then []
    else
      var r := test[|test|-1];
      var rest := ScoreNumeric(test[..|test|-1], feat, s);
      if feat in r.numeric then rest + [Scored(s * r.numeric[feat], r.net, r.regime)] else rest
  }

  /** `_numeric_pairs`; rho is `spearman`. */
  function NumericPairs(train: seq<Row>, test: seq<Row>, feat: string,
                        rho: (seq<real>, seq<real>) -> Option<real>): seq<Scored> {
    match Orientation(train, feat, rho)
    case None => []
    case Some(s) => ScoreNumeric(test, feat, s)
  }

  // -------------------------------------------------------------- categorical features

  /** The training rows' outcomes by category. */
  function Buckets(train: seq<Row>, feat: string): seq<(string, real)> {
    if train == [] then []
    else
      var r := train[|train|-1];
      var rest := Buckets(train[..|train|-1], feat);
      if feat in r.category then rest + [(r.category[feat], r.net)] else rest
  }

  function Mean(ys: seq<real>): real
    requires ys != []
  {
    Sum(ys) / |ys| as real
  }

  /** `str(value)`: a missing value prints as None. */
  function Printed(r: Row, feat: string): string {
    if feat in r.category then r.category[feat] else "None"
  }

  function Encoded(log: seq<(string, real)>, category: string, fallback: real): real {
    if At(log, category) == [] then fallback else Mean(At(log, category))
  }

  function ScoreCategories(test: seq<Row>, feat: string, log: seq<(string, real)>, fallback: real): seq<Scored> {
    if test == [] then []
    else
      var r := test[|test|-1];
      ScoreCategories(test[..|test|-1], feat, log, fallback)
      + [Scored(Encoded(log, Printed(r, feat), fallback), r.net, r.regime)]
  }

  lemma {:induction false} BucketsNeedRows(train: seq<Row>, feat: string)
    ensures Buckets(train, feat) != [] ==> train != []
  {
  }

  function CategoricalPairs(train: seq<Row>, test: seq<Row>, feat: string): seq<Scored> {
    var log := Buckets(train, feat);
    if log == [] then []
    else
      BucketsNeedRows(train, feat);
      ScoreCategories(test, feat, log, Mean(Outcomes(train)))
  }

  lemma {:induction false} KeysOfEmpty(log: seq<(string, real)>)
    ensures Keys(log) == [] <==> log == []
  {
    if log != [] {
      KeysDistinct(log);
      assert log[|log|-1].0 in Keys(log);
    }
  }

  lemma {:induction false} MissingKey(log: seq<(string, real)>, k: string)
    ensures k in Keys(log) <==> At(log, k) != []
  {
    KeysDistinct(log);
    if k in Keys(log) {
      var i :| 0 <= i < |log| && log[i].0 == k;
      AtMember(log, k, log[i].1);
      assert log[i] == (k, log[i].1);
    } else {
      AtEmpty(log, k);
    }
  }

  /** Fills the buckets dictionary. */
  method FillBuckets(train: seq<Row>, feat: string) returns (buckets: ListDict<string, real>)
    ensures fresh(buckets) && buckets.Valid() && buckets.log == Buckets(train, feat)
  {
    buckets := new ListDict<string, real>();
    var i := 0;
    while i < |train|
      invariant 0 <= i <= |train| && fresh(buckets) && buckets.Valid()
      invariant buckets.log == Buckets(train[..i], feat)
    {
      assert train[..i+1][..i] == train[..i];
      if feat in train[i].category {
        buckets.Append(train[i].category[feat], train[i].net);
      }
      i := i + 1;
    }
    assert train[..i] == train;
  }

  /** `_categorical_pairs` */
  method ComputeCategoricalPairs(train: seq<Row>, test: seq<Row>, feat: string) returns (pairs: seq<Scored>)
    ensures pairs == CategoricalPairs(train, test, feat)
  {
    var buckets := FillBuckets(train, feat);
    KeysOfEmpty(buckets.log);
    if buckets.keys == [] {
      return [];
    }
    BucketsNeedRows(train, feat);
    var globalMean := Mean(Outcomes(train));
    var lists := buckets.lists;
    ghost var log := buckets.log;
    forall k ensures k in lists <==> At(log, k) != [] {
      MissingKey(log, k);
    }
    pairs := [];
    var i := 0;
    while i < |test|
      invariant 0 <= i <= |test| && pairs == ScoreCategories(test[..i], feat, log, globalMean)
    {
      assert test[..i+1][..i] == test[..i];
      var c := Printed(test[i], feat);
      var predictor := if c in lists then Mean(lists[c]) else globalMean;
      pairs := pairs + [Scored(predictor, test[i].net, test[i].regime)];
      i := i + 1;
    }
    assert test[..i] == test;
  }

  // --------------------------------------------------------------------------- pooling

  function PairsOf(f: Fold<Row>, feat: string, isNumeric: bool,
                   rho: (seq<real>, seq<real>) -> Option<real>): seq<Scored> {
    if |f.test| < MIN_FOLD_TEST then []
    else if isNumeric then NumericPairs(f.train, f.test, feat, rho)
    else CategoricalPairs(f.train, f.test, feat)
  }

  function Pooled(folds: seq<Fold<Row>>, feat: string, isNumeric: bool,
                  rho: (seq<real>, seq<real>) -> Option<real>): seq<Scored> {
    if folds == [] then []
    else Pooled(folds[..|folds|-1], feat, isNumeric, rho) + PairsOf(folds[|folds|-1], feat, isNumeric, rho)
  }

  /** The pairs one fold contributes. */
  method FoldPairs(f: Fold<Row>, feat: string, isNumeric: bool, rho: (seq<real>, seq<real>) -> Option<real>)
    returns (pairs: seq<Scored>)
    ensures pairs == PairsOf(f, feat, isNumeric, rho)
  {
    if |f.test| < MIN_FOLD_TEST {
      return [];
    }
    if isNumeric {
      return NumericPairs(f.train, f.test, feat, rho);
    }
    pairs := ComputeCategoricalPairs(f.train, f.test, feat);
  }

  /** `_oos_pairs_one_direction` */
  method OosPairs(items: seq<Row>, feat: string, isNumeric: bool, nFolds: nat, embargo: int, reverse: bool,
                  rho: (seq<real>, seq<real>) -> Option<real>) returns (pooled: seq<Scored>)
    ensures pooled == Pooled(Folds(items, EntryOf(), ResolvedOf(), nFolds, embargo, reverse), feat, isNumeric, rho)
  {
    var folds := WalkForwardFolds(items, EntryOf(), ResolvedOf(), nFolds, embargo, reverse);
    pooled := [];
    var i := 0;
    while i < |folds|
      invariant 0 <= i <= |folds| && pooled == Pooled(folds[..i], feat, isNumeric, rho)
    {
      TakeNext(folds, i);
      var pairs := FoldPairs(folds[i], feat, isNumeric, rho);
      pooled := pooled + pairs;
      i := i + 1;
    }
    TakeAll(folds);
  }

  // ------------------------------------------------------------------ non-interference

  /** The same rows with possibly different outcomes. */
  ghost predicate SameInputs(a: seq<Row>, b: seq<Row>) {
    |a| == |b| && forall i | 0 <= i < |a| :: a[i].(net := 0.0) == b[i].(net := 0.0)
  }

  function Predictors(ps: seq<Scored>): (xs: seq<real>)
    ensures |xs| == |ps| && forall i | 0 <= i < |ps| :: xs[i] == ps[i].predictor
  {
    seq(|ps|, i requires 0 <= i < |ps| => ps[i].predictor)
  }

  lemma {:induction false} NumericPredictors(test: seq<Row>, other: seq<Row>, feat: string, s: real)
    requires SameInputs(test, other)
    ensures Predictors(ScoreNumeric(test, feat, s)) == Predictors(ScoreNumeric(other, feat, s))
  {
    if test != [] {
      var n := |test| - 1;
      NumericPredictors(test[..n], other[..n], feat, s);
      assert test[n].(net := 0.0).numeric == other[n].(net := 0.0).numeric;
      PredictorsSnoc(ScoreNumeric(test[..n], feat, s), ScoreNumeric(other[..n], feat, s));
    }
  }

  lemma {:induction false} PredictorsSnoc(a: seq<Scored>, b: seq<Scored>)
    requires Predictors(a) == Predictors(b)
    ensures forall x: Scored, y: Scored | x.predictor == y.predictor ::
              Predictors(a + [x]) == Predictors(b + [y])
  {
    forall x: Scored, y: Scored | x.predictor == y.predictor
      ensures Predictors(a + [x]) == Predictors(b + [y])
    {
      assert Predictors(a + [x]) == Predictors(a) + [x.predictor];
      assert Predictors(b + [y]) == Predictors(b) + [y.predictor];
    }
  }

  lemma {:induction false} CategoryPredictors(test: seq<Row>, other: seq<Row>, feat: string, log: seq<(string, real)>,
                                              fallback: real)
    requires SameInputs(test, other)
    ensures Predictors(ScoreCategories(test, feat, log, fallback))
         == Predictors(ScoreCategories(other, feat, log, fallback))
  {
    if test != [] {
      var n := |test| - 1;
      CategoryPredictors(test[..n], other[..n], feat, log, fallback);
      assert test[n].(net := 0.0).category == other[n].(net := 0.0).category;
      PredictorsSnoc(ScoreCategories(test[..n], feat, log, fallback), ScoreCategories(other[..n], feat, log, fallback));
    }
  }

  /** Outcomes of the test rows never reach their own predictors. */
  lemma {:induction false} TestOutcomesAreUnseen(f: Fold<Row>, other: seq<Row>, feat: string, isNumeric: bool,
                                                 rho: (seq<real>, seq<real>) -> Option<real>)
    requires SameInputs(f.test, other)
    ensures Predictors(PairsOf(f, feat, isNumeric, rho)) == Predictors(PairsOf(f.(test := other), feat, isNumeric, rho))
  {
    if |f.test| >= MIN_FOLD_TEST {
      if isNumeric {
        var s := Orientation(f.train, feat, rho);
        if s.Some? {
          NumericPredictors(f.test, other, feat, s.value);
        }
      } else if Buckets(f.train, feat) != [] {
        BucketsNeedRows(f.train, feat);
        CategoryPredictors(f.test, other, feat, Buckets(f.train, feat), Mean(Outcomes(f.train)));
      }
    }
  }

  lemma {:induction false} SameInputsAt(a: seq<Row>, b: seq<Row>, i: int)
    requires SameInputs(a, b) && 0 <= i < |a|
    ensures a[i].entry == b[i].entry && Resolved(a[i]) == Resolved(b[i])
  {
    var x, y := a[i].(net := 0.0), b[i].(net := 0.0);
    assert x.entry == y.entry && x.exit == y.exit;
  }

  /** Selecting on dates selects the same positions; where the outcomes agree too, it
      selects the same rows. */
  lemma {:induction false} FilterSameInputs(p: Row -> bool, a: seq<Row>, b: seq<Row>)
    requires SameInputs(a, b) && forall i | 0 <= i < |a| :: p(a[i]) <==> p(b[i])
    ensures SameInputs(Filter(p, a), Filter(p, b))
    ensures (forall i | 0 <= i < |a| && p(a[i]) :: a[i] == b[i]) ==> Filter(p, a) == Filter(p, b)
  {
    if a != [] {
      FilterSameInputs(p, a[..|a|-1], b[..|b|-1]);
    }
  }

  lemma {:induction false} SameDates(a: seq<Row>, b: seq<Row>)
    requires SameInputs(a, b)
    ensures Dates(a, EntryOf()) == Dates(b, EntryOf())
  {
    forall i | 0 <= i < |a| ensures Dates(a, EntryOf())[i] == Dates(b, EntryOf())[i] {
      SameInputsAt(a, b, i);
    }
  }

  /** A row trains the fold whose segment opens at start and closes at end. */
  predicate Trains(r: Row, start: int, end: int, embargo: int, reverse: bool) {
    InTrain(r, EntryOf(), ResolvedOf(), start, end, embargo, reverse)
  }

  /** Segment k of both corpora gives the same training rows, and test rows with the
      same inputs, as soon as the training rows' outcomes agree. */
  lemma {:induction false} SameFold(a: seq<Row>, b: seq<Row>, lo: int, hi: int, n: nat, embargo: int, reverse: bool,
                                    k: nat)
    requires SameInputs(a, b)
    requires forall i | 0 <= i < |a| && Trains(a[i], Cut(lo, hi, n, k), Cut(lo, hi, n, k + 1), embargo, reverse) ::
               a[i] == b[i]
    ensures var fa := FoldAt(a, EntryOf(), ResolvedOf(), lo, hi, n, embargo, reverse, k);
      var fb := FoldAt(b, EntryOf(), ResolvedOf(), lo, hi, n, embargo, reverse, k);
      && (fa.Some? <==> fb.Some?)
      && (fa.Some? ==> fb.value == fa.value.(test := fb.value.test) && SameInputs(fa.value.test, fb.value.test))
  {
    var start, end := Cut(lo, hi, n, k), Cut(lo, hi, n, k + 1);
    forall i | 0 <= i < |a|
      ensures a[i].entry == b[i].entry && Resolved(a[i]) == Resolved(b[i])
    {
      SameInputsAt(a, b, i);
    }
    FilterSameInputs((r: Row) => InSegment(r, EntryOf(), start, end), a, b);
    FilterSameInputs((r: Row) => InTrain(r, EntryOf(), ResolvedOf(), start, end, embargo, reverse), a, b);
  }

  /** Non-interference: change the outcomes of any rows that do not train segment k, and
      every predictor value the segment produces stays as it was. */
  lemma {:induction false} OnlyTrainOutcomesMatter(a: seq<Row>, b: seq<Row>, n: nat, embargo: int, reverse: bool,
                                                   k: nat, feat: string, isNumeric: bool,
                                                   rho: (seq<real>, seq<real>) -> Option<real>)
    requires |a| >= 2 && SameInputs(a, b)
    requires var lo, hi := First(a, EntryOf()), Last(a, EntryOf());
      forall i | 0 <= i < |a| && Trains(a[i], Cut(lo, hi, n, k), Cut(lo, hi, n, k + 1), embargo, reverse) ::
        a[i] == b[i]
    ensures First(a, EntryOf()) == First(b, EntryOf()) && Last(a, EntryOf()) == Last(b, EntryOf())
    ensures var lo, hi := First(a, EntryOf()), Last(a, EntryOf());
      var fa := FoldAt(a, EntryOf(), ResolvedOf(), lo, hi, n, embargo, reverse, k);
      var fb := FoldAt(b, EntryOf(), ResolvedOf(), lo, hi, n, embargo, reverse, k);
      && (fa.Some? <==> fb.Some?)
      && (fa.Some? ==> Predictors(PairsOf(fa.value, feat, isNumeric, rho))
                       == Predictors(PairsOf(fb.value, feat, isNumeric, rho)))
  {
    SameDates(a, b);
    var lo, hi := First(a, EntryOf()), Last(a, EntryOf());
    SameFold(a, b, lo, hi, n, embargo, reverse, k);
    var fa := FoldAt(a, EntryOf(), ResolvedOf(), lo, hi, n, embargo, reverse, k);
    var fb := FoldAt(b, EntryOf(), ResolvedOf(), lo, hi, n, embargo, reverse, k);
    if fa.Some? {
      TestOutcomesAreUnseen(fa.value, fb.value.test, feat, isNumeric, rho);
    }
  }

  /** No test row informs its own predictor: altering the outcome of one test row leaves
      every predictor of its fold as it was, in the reverse walk always, and in the
      forward walk with an embargo or with rows that resolve after the day they enter. */
  lemma {:induction false} TestRowNeverInformsItself(a: seq<Row>, row: nat, net: real, n: nat, embargo: int,
                                                     reverse: bool, k: nat, feat: string, isNumeric: bool,
                                                     rho: (seq<real>, seq<real>) -> Option<real>)
    requires |a| >= 2 && row < |a| && embargo >= 0
    requires reverse || Resolved(a[row]) > a[row].entry || (embargo >= 1 && Resolved(a[row]) >= a[row].entry)
    requires var lo, hi := First(a, EntryOf()), Last(a, EntryOf());
      InSegment(a[row], EntryOf(), Cut(lo, hi, n, k), Cut(lo, hi, n, k + 1))
    ensures var lo, hi := First(a, EntryOf()), Last(a, EntryOf());
      var b := a[row := a[row].(net := net)];
      var fa := FoldAt(a, EntryOf(), ResolvedOf(), lo, hi, n, embargo, reverse, k);
      var fb := FoldAt(b, EntryOf(), ResolvedOf(), lo, hi, n, embargo, reverse, k);
      && (fa.Some? <==> fb.Some?)
      && (fa.Some? ==> Predictors(PairsOf(fa.value, feat, isNumeric, rho))
                       == Predictors(PairsOf(fb.value, feat, isNumeric, rho)))
  {
    var lo, hi := First(a, EntryOf()), Last(a, EntryOf());
    if !reverse {
      OverlapExactly(a[row], EntryOf(), ResolvedOf(), Cut(lo, hi, n, k), Cut(lo, hi, n, k + 1), embargo);
    }
    OnlyTrainOutcomesMatter(a, a[row := a[row].(net := net)], n, embargo, reverse, k, feat, isNumeric, rho);
  }

  // -------------------------------------------------------------- what is being scored

  function Scaled(xs: seq<real>, s: real): (r: seq<real>)
    ensures |r| == |xs| && forall i | 0 <= i < |xs| :: r[i] == s * xs[i]
  {
    seq(|xs|, i requires 0 <= i < |xs| => s * xs[i])
  }

  /** A correlation that changes sign with its first argument. */
  ghost predicate Odd(rho: (seq<real>, seq<real>) -> Option<real>) {
    forall xs: seq<real>, ys: seq<real> :: rho(Scaled(xs, -1.0), ys) == Opposite(rho(xs, ys))
  }

  function Opposite(r: Option<real>): Option<real> {
    match r
    case None => None
    case Some(v) => Some(-v)
  }

  /** The orientation is the one under which training reads positive: with any odd
      correlation, the oriented training inputs correlate positively. */
  lemma {:induction false} OrientationReadsPositive(train: seq<Row>, feat: string,
                                                    rho: (seq<real>, seq<real>) -> Option<real>)
    requires Odd(rho) && Orientation(train, feat, rho).Some?
    ensures var tr, s := Known(train, feat), Orientation(train, feat, rho).value;
      var r := rho(Scaled(Inputs(tr, feat), s), Outcomes(tr));
      r.Some? && r.value > 0.0
  {
    var tr, s := Known(train, feat), Orientation(train, feat, rho).value;
    var xs := Inputs(tr, feat);
    if s == 1.0 {
      assert Scaled(xs, s) == xs;
    } else {
      assert rho(Scaled(xs, -1.0), Outcomes(tr)) == Opposite(rho(xs, Outcomes(tr)));
    }
  }

  /** No orientation exactly when fewer than five training rows carry the feature or their
      correlation is missing or zero; otherwise its sign. */
  lemma {:induction false} OrientationExactly(train: seq<Row>, feat: string,
                                              rho: (seq<real>, seq<real>) -> Option<real>)
    ensures var tr := Filter((r: Row) => feat in r.numeric, train);
      var corr := rho(Inputs(tr, feat), Outcomes(tr));
      match Orientation(train, feat, rho)
      case None => |tr| <= 4 || corr.None? || corr.value == 0.0
      case Some(s) => |tr| >= 5 && corr.Some? && ((s == 1.0 && corr.value > 0.0) || (s == -1.0 && corr.value < 0.0))
  {
  }

  /** A pair scores a row that carries the feature by its value or its negation. */
  predicate Scores(x: Scored, r: Row, feat: string, s: real) {
    && feat in r.numeric && x.predictor == s * r.numeric[feat]
    && x.outcome == r.net && x.regime == r.regime
  }

  ghost predicate ScoredInOrder(pairs: seq<Scored>, rows: seq<Row>, feat: string, s: real) {
    |pairs| == |rows| && forall i | 0 <= i < |rows| :: Scores(pairs[i], rows[i], feat, s)
  }

  lemma {:induction false} OneMoreScored(pairs: seq<Scored>, rows: seq<Row>, x: Scored, r: Row, feat: string, s: real)
    requires ScoredInOrder(pairs, rows, feat, s) && Scores(x, r, feat, s)
    ensures ScoredInOrder(pairs + [x], rows + [r], feat, s)
  {
  }

  /** With an orientation, the test rows that carry the feature are scored in order; the
      rest are left out. */
  lemma {:induction false} NumericScoreIs(test: seq<Row>, feat: string, s: real)
    ensures ScoredInOrder(ScoreNumeric(test, feat, s), Filter((r: Row) => feat in r.numeric, test), feat, s)
  {
    if test != [] {
      var n := |test| - 1;
      NumericScoreIs(test[..n], feat, s);
      SplitLast(test);
      NumericScoreNext(test[..n], test[n], feat, s);
    }
  }

  lemma {:induction false} NumericScoreNext(test: seq<Row>, r: Row, feat: string, s: real)
    requires ScoredInOrder(ScoreNumeric(test, feat, s), Filter((r: Row) => feat in r.numeric, test), feat, s)
    ensures ScoredInOrder(ScoreNumeric(test + [r], feat, s), Filter((r: Row) => feat in r.numeric, test + [r]), feat, s)
  {
    SnocParts(test, r);
    if feat in r.numeric {
      OneMoreScored(ScoreNumeric(test, feat, s), Filter((r: Row) => feat in r.numeric, test),
                    Scored(s * r.numeric[feat], r.net, r.regime), r, feat, s);
    }
  }

  /** A fold with fewer than eight test rows contributes nothing. Any other contributes a
      pair for each test row that carries a feature that could be oriented, or for every
      test row when training knows some category. */
  lemma {:induction false} PairsCount(f: Fold<Row>, feat: string, isNumeric: bool,
                                      rho: (seq<real>, seq<real>) -> Option<real>)
    ensures |PairsOf(f, feat, isNumeric, rho)|
         == if |f.test| <= 7 then 0
            else if isNumeric then
              if Orientation(f.train, feat, rho).None? then 0
              else CountIf((r: Row) => feat in r.numeric, f.test)
            else if exists r :: r in f.train && feat in r.category then |f.test|
            else 0
  {
    if isNumeric {
      if Orientation(f.train, feat, rho).Some? {
        NumericScoreIs(f.test, feat, Orientation(f.train, feat, rho).value);
        CountIsFilter((r: Row) => feat in r.numeric, f.test);
      }
    } else {
      SomeBucket(f.train, feat);
      if Buckets(f.train, feat) != [] && f.test != [] {
        BucketsNeedRows(f.train, feat);
        ScoredAt(f.test, feat, Buckets(f.train, feat), Mean(Outcomes(f.train)), 0);
      }
    }
  }

  lemma {:induction false} SomeBucket(train: seq<Row>, feat: string)
    ensures Buckets(train, feat) != [] <==> exists r :: r in train && feat in r.category
  {
    if train != [] {
      SomeBucket(train[..|train|-1], feat);
      SplitLast(train);
    }
  }

  /** The mean, times how many there are, is the sum. */
  lemma {:induction false} MeanIsMean(ys: seq<real>)
    requires ys != []
    ensures Mean(ys) * |ys| as real == Sum(ys)
  {
  }

  /** A row without an exit resolves the day after it enters. */
  lemma {:induction false} ResolvedIs(r: Row)
    ensures r.exit == Some(Resolved(r)) || (r.exit.None? && Resolved(r) - r.entry == 1)
  {
  }

  predicate InCategory(r: Row, feat: string, c: string) {
    feat in r.category && r.category[feat] == c
  }

  /** The bucket of a category holds the training outcomes of its rows. */
  lemma {:induction false} BucketIsTrainOutcomes(train: seq<Row>, feat: string, c: string)
    ensures At(Buckets(train, feat), c) == Outcomes(Filter((r: Row) => InCategory(r, feat, c), train))
  {
    if train != [] {
      var n := |train| - 1;
      BucketIsTrainOutcomes(train[..n], feat, c);
      if feat in train[n].category {
        AtSnoc(Buckets(train[..n], feat), train[n].category[feat], train[n].net, c);
      }
      OutcomesSnoc(Filter((r: Row) => InCategory(r, feat, c), train[..n]), train[n]);
    }
  }

  lemma {:induction false} OutcomesSnoc(rows: seq<Row>, r: Row)
    ensures Outcomes(rows + [r]) == Outcomes(rows) + [r.net]
  {
  }

  /** Target encoding: the i-th test row is scored by the mean training outcome of its
      own category, and by the mean of all training outcomes when training never saw it. */
  lemma {:induction false} EncodingIsTrainMean(train: seq<Row>, test: seq<Row>, feat: string, i: nat)
    requires i < |test| && Buckets(train, feat) != []
    ensures var mine := Filter((r: Row) => InCategory(r, feat, Printed(test[i], feat)), train);
      var pairs := CategoricalPairs(train, test, feat);
      && train != [] && |pairs| == |test|
      && pairs[i].predictor == Mean(Outcomes(if mine == [] then train else mine))
      && pairs[i].outcome == test[i].net
  {
    BucketsNeedRows(train, feat);
    BucketIsTrainOutcomes(train, feat, Printed(test[i], feat));
    ScoredAt(test, feat, Buckets(train, feat), Mean(Outcomes(train)), i);
  }

  lemma {:induction false} ScoredAt(test: seq<Row>, feat: string, log: seq<(string, real)>, fallback: real, i: nat)
    requires i < |test|
    ensures var pairs := ScoreCategories(test, feat, log, fallback);
      && |pairs| == |test|
      && pairs[i] == Scored(Encoded(log, Printed(test[i], feat), fallback), test[i].net, test[i].regime)
  {
    var n := |test| - 1;
    if i < n {
      ScoredAt(test[..n], feat, log, fallback, i);
    } else if n > 0 {
      ScoredAt(test[..n], feat, log, fallback, 0);
    }
  }
}
