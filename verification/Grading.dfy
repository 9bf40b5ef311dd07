/** Two independent graders of an expired structure: the breakeven proxy
    (app/quant/analytics.py, app/analytics/outcomes.py) and the exact expiry
    settlement (app/analytics/expiry_settlement.py). */
module Grading {
  import opened Basics
  import opened Seqs
  import opened OptionStructures

  // ------------------------------------------------------------------ breakevens

  /** Strikes of the legs of one type and side, in leg order (`_legs`). */
  function Strikes(legs: seq<Leg>, t: OptionType, bought: bool): seq<int> {
    if legs == [] then []
    else
      var rest := Strikes(legs[..|legs|-1], t, bought);
      var leg := legs[|legs|-1];
      if leg.optionType == t && IsLong(leg) == bought then rest + [leg.strike] else rest
  }

  function Smallest(xs: seq<int>): Option<int> {
    if xs == [] then None
    else match Smallest(xs[..|xs|-1])
      case None => Some(xs[|xs|-1])
      case Some(m) => Some(Min(m, xs[|xs|-1]))
  }

  function Largest(xs: seq<int>): Option<int> {
    if xs == [] then None
    else match Largest(xs[..|xs|-1])
      case None => Some(xs[|xs|-1])
      case Some(m) => Some(Max(m, xs[|xs|-1]))
  }

  /** The two are a least and a greatest element, missing only from an empty list. */
  lemma {:induction false} OutermostAre(xs: seq<int>)
    ensures Smallest(xs).None? <==> xs == []
    ensures Largest(xs).None? <==> xs == []
    ensures Smallest(xs).Some? ==> Smallest(xs).value in xs && forall x | x in xs :: Smallest(xs).value <= x
    ensures Largest(xs).Some? ==> Largest(xs).value in xs && forall x | x in xs :: x <= Largest(xs).value
  {
    if xs != [] {
      OutermostAre(xs[..|xs|-1]);
      SplitLast(xs);
    }
  }

  function First(xs: seq<int>): Option<int> {
    if xs == [] then None else Some(xs[0])
  }

  /** `structure_breakevens`; a label that does not fit the legs gives []. */
  function Breakevens(s: Strategy, legs: seq<Leg>): seq<int> {
    var net := NetPerShare(legs);
    match s
    case LongCall | BullCallSpread =>
      (match Smallest(Strikes(legs, Call, true)) case None => [] case Some(k) => [ToCent(k + net)])
    case LongPut | BearPutSpread =>
      (match Largest(Strikes(legs, Put, true)) case None => [] case Some(k) => [ToCent(k - net)])
    case BullPutSpread =>
      (match Largest(Strikes(legs, Put, false)) case None => [] case Some(k) => [ToCent(k + net)])
    case BearCallSpread =>
      (match Smallest(Strikes(legs, Call, false)) case None => [] case Some(k) => [ToCent(k - net)])
    case LongStraddle =>
      (match First(Strikes(legs, Call, true)) case None => [] case Some(k) => [ToCent(k - net), ToCent(k + net)])
    case LongStrangle =>
      (match (First(Strikes(legs, Put, true)), First(Strikes(legs, Call, true)))
       case (Some(kp), Some(kc)) => [ToCent(kp - net), ToCent(kc + net)]
       case _ => [])
    case IronCondor =>
      (match (Largest(Strikes(legs, Put, false)), Smallest(Strikes(legs, Call, false)))
       case (Some(kp), Some(kc)) => [ToCent(kp + net), ToCent(kc - net)]
       case _ => [])
  }

  /** Legs that fit their label more than once are read by their outermost strike: the
      lowest call or the highest put, of those bought for a debit or sold for a credit. */
  lemma {:induction false} LowestCallCounts(s: Strategy, legs: seq<Leg>, strikes: seq<int>, k: int)
    requires s in {LongCall, BullCallSpread, BearCallSpread} && strikes == Strikes(legs, Call, s != BearCallSpread)
    requires k in strikes && forall x | x in strikes :: k <= x
    ensures Breakevens(s, legs)
         == [ToCent(if s == BearCallSpread then k - NetPerShare(legs) else k + NetPerShare(legs))]
  {
    OutermostAre(strikes);
  }

  lemma {:induction false} HighestPutCounts(s: Strategy, legs: seq<Leg>, strikes: seq<int>, k: int)
    requires s in {LongPut, BearPutSpread, BullPutSpread} && strikes == Strikes(legs, Put, s != BullPutSpread)
    requires k in strikes && forall x | x in strikes :: x <= k
    ensures Breakevens(s, legs)
         == [ToCent(if s == BullPutSpread then k + NetPerShare(legs) else k - NetPerShare(legs))]
  {
    OutermostAre(strikes);
  }

  // ------------------------------------------------------------------- the proxy

  datatype Grade = Win | Loss | Scratch | Unknown

  predicate AtMostInt(a: int, b: int) {
    a <= b
  }

  /** The first element of least distance to spot. */
  function Nearest(bes: seq<int>, spot: int): int
    requires bes != []
  {
    if |bes| == 1 then bes[0]
    else
      var rest := Nearest(bes[..|bes|-1], spot);
      if Abs(spot - bes[|bes|-1]) < Abs(spot - rest) then bes[|bes|-1] else rest
  }

  /** The reading of the outermost breakevens and the one nearest to spot. */
  function Verdict(s: Strategy, lo: int, hi: int, nearest: int, spot: int, band: real): Grade {
    if nearest > 0 && Abs(spot - nearest) as real / nearest as real <= band then Scratch
    else match s
      case LongCall | BullCallSpread | BullPutSpread => if spot >= lo then Win else Loss
      case LongPut | BearPutSpread | BearCallSpread => if spot <= lo then Win else Loss
      case LongStraddle | LongStrangle => if spot <= lo || spot >= hi then Win else Loss
      case IronCondor => if lo <= spot <= hi then Win else Loss
  }

  /** `_result_from_breakevens` */
  function ResultFromBreakevens(s: Strategy, breakevens: seq<int>, spot: int, band: real): Grade {
    var bes := SortBy(AtMostInt, breakevens);
    if bes == [] then Unknown
    else Verdict(s, bes[0], bes[|bes|-1], Nearest(bes, spot), spot, band)
  }

  /** A close is graded a scratch exactly when it is within the band, a share of the
      breakeven nearest to it, and that breakeven is positive. */
  lemma {:induction false} ScratchExactly(s: Strategy, lo: int, hi: int, nearest: int, spot: int, band: real)
    ensures Verdict(s, lo, hi, nearest, spot, band) == Scratch
       <==> nearest > 0 && Abs(spot - nearest) as real <= band * nearest as real
  {
    if nearest > 0 {
      ScaleQuotient(Abs(spot - nearest) as real, nearest as real, band);
    }
  }

  function Graded(s: Strategy, legs: seq<Leg>, close: int, band: real): Grade {
    ResultFromBreakevens(s, Breakevens(s, legs), close, band)
  }

  // ------------------------------------------------- the breakevens written out

  function Pick(leg: Leg, t: OptionType, bought: bool): seq<int> {
    if leg.optionType == t && IsLong(leg) == bought then [leg.strike] else []
  }

  lemma {:induction false} StrikesOfOne(legs: seq<Leg>, t: OptionType, bought: bool)
    requires |legs| == 1
    ensures Strikes(legs, t, bought) == Pick(legs[0], t, bought)
  {
    assert legs[..0] == [];
  }

  lemma {:induction false} StrikesOfTwo(legs: seq<Leg>, t: OptionType, bought: bool)
    requires |legs| == 2
    ensures Strikes(legs, t, bought) == Pick(legs[0], t, bought) + Pick(legs[1], t, bought)
  {
    StrikesOfOne(legs[..1], t, bought);
  }

  lemma {:induction false} StrikesOfFour(legs: seq<Leg>, t: OptionType, bought: bool)
    requires |legs| == 4
    ensures Strikes(legs, t, bought)
         == Pick(legs[0], t, bought) + Pick(legs[1], t, bought) + Pick(legs[2], t, bought) + Pick(legs[3], t, bought)
  {
    assert legs[..3][..2] == legs[..2];
    StrikesOfTwo(legs[..2], t, bought);
  }

  lemma {:induction false} OneStrike(k: int)
    ensures Smallest([k]) == Some(k) && Largest([k]) == Some(k) && First([k]) == Some(k)
  {
    assert [k][..0] == [];
  }

  predicate LegCount(s: Strategy, legs: seq<Leg>) {
    |legs| == if s == IronCondor then 4 else if s in {LongCall, LongPut} then 1 else 2
  }

  /** Where the unrounded breakevens lie. */
  function ExactBreakevens(s: Strategy, legs: seq<Leg>): seq<int>
    requires LegCount(s, legs)
  {
    var net := NetPerShare(legs);
    match s
    case LongCall | BullCallSpread | BullPutSpread => [legs[0].strike + net]
    case LongPut | BearPutSpread | BearCallSpread => [legs[0].strike - net]
    case LongStraddle | LongStrangle => [legs[1].strike - net, legs[0].strike + net]
    case IronCondor => [legs[0].strike + net, legs[2].strike - net]
  }

  function InCents(xs: seq<int>): seq<int> {
    seq(|xs|, i requires 0 <= i < |xs| => ToCent(xs[i]))
  }

  lemma {:induction false} SingleBreakevens(s: Strategy, legs: seq<Leg>)
    requires Structure(s, legs) && s in {LongCall, LongPut}
    ensures Breakevens(s, legs) == InCents(ExactBreakevens(s, legs))
  {
    StrikesOfOne(legs, if s == LongCall then Call else Put, true);
    OneStrike(legs[0].strike);
  }

  /** Of the two legs of a vertical, one is on the side the breakeven is read from. */
  lemma {:induction false} VerticalStrike(legs: seq<Leg>, t: OptionType, bought: bool)
    requires |legs| == 2 && legs[0].optionType == t && IsLong(legs[0]) == bought != IsLong(legs[1])
    ensures Strikes(legs, t, bought) == [legs[0].strike]
  {
    StrikesOfTwo(legs, t, bought);
  }

  lemma {:induction false} BullCallBreakeven(legs: seq<Leg>)
    requires Structure(BullCallSpread, legs)
    ensures Breakevens(BullCallSpread, legs) == [ToCent(legs[0].strike + NetPerShare(legs))]
  {
    VerticalStrike(legs, Call, true);
    OneStrike(legs[0].strike);
  }

  lemma {:induction false} BearPutBreakeven(legs: seq<Leg>)
    requires Structure(BearPutSpread, legs)
    ensures Breakevens(BearPutSpread, legs) == [ToCent(legs[0].strike - NetPerShare(legs))]
  {
    VerticalStrike(legs, Put, true);
    OneStrike(legs[0].strike);
  }

  lemma {:induction false} BullPutBreakeven(legs: seq<Leg>)
    requires Structure(BullPutSpread, legs)
    ensures Breakevens(BullPutSpread, legs) == [ToCent(legs[0].strike + NetPerShare(legs))]
  {
    VerticalStrike(legs, Put, false);
    OneStrike(legs[0].strike);
  }

  lemma {:induction false} BearCallBreakeven(legs: seq<Leg>)
    requires Structure(BearCallSpread, legs)
    ensures Breakevens(BearCallSpread, legs) == [ToCent(legs[0].strike - NetPerShare(legs))]
  {
    VerticalStrike(legs, Call, false);
    OneStrike(legs[0].strike);
  }

  lemma {:induction false} VerticalBreakevens(s: Strategy, legs: seq<Leg>)
    requires Structure(s, legs) && s in {BullCallSpread, BearPutSpread, BullPutSpread, BearCallSpread}
    ensures Breakevens(s, legs) == InCents(ExactBreakevens(s, legs))
  {
    match s
    case BullCallSpread => BullCallBreakeven(legs);
    case BearPutSpread => BearPutBreakeven(legs);
    case BullPutSpread => BullPutBreakeven(legs);
    case BearCallSpread => BearCallBreakeven(legs);
  }

  lemma {:induction false} LongVolBreakevens(s: Strategy, legs: seq<Leg>)
    requires Structure(s, legs) && s in {LongStraddle, LongStrangle}
    ensures Breakevens(s, legs) == InCents(ExactBreakevens(s, legs))
  {
    StrikesOfTwo(legs, Call, true);
    StrikesOfTwo(legs, Put, true);
    OneStrike(legs[0].strike);
    OneStrike(legs[1].strike);
  }

  lemma {:induction false} CondorShorts(legs: seq<Leg>)
    requires Structure(IronCondor, legs)
    ensures Strikes(legs, Put, false) == [legs[0].strike]
    ensures Strikes(legs, Call, false) == [legs[2].strike]
  {
    StrikesOfFour(legs, Put, false);
    StrikesOfFour(legs, Call, false);
  }

  lemma {:induction false} CondorBreakevens(s: Strategy, legs: seq<Leg>)
    requires Structure(s, legs) && s == IronCondor
    ensures Breakevens(s, legs) == InCents(ExactBreakevens(s, legs))
  {
    CondorShorts(legs);
    OneStrike(legs[0].strike);
    OneStrike(legs[2].strike);
  }

  /** On a recognised structure the proxy's breakevens are the exact ones, each
      rounded to a whole cent. */
  lemma {:induction false} BreakevensAre(s: Strategy, legs: seq<Leg>)
    requires Structure(s, legs)
    ensures Breakevens(s, legs) == InCents(ExactBreakevens(s, legs))
  {
    match s
    case LongCall | LongPut => SingleBreakevens(s, legs);
    case LongStraddle | LongStrangle => LongVolBreakevens(s, legs);
    case IronCondor => CondorBreakevens(s, legs);
    case _ => VerticalBreakevens(s, legs);
  }

  // -------------------------------------------------------- the proxy written out

  lemma {:induction false} SortedPair(a: int, b: int)
    ensures SortBy(AtMostInt, [a, b]) == if a <= b then [a, b] else [b, a]
    ensures SortBy(AtMostInt, [a]) == [a]
  {
    assert [a][..0] == [];
    assert [a, b][..1] == [a];
    assert Insert(AtMostInt, [a], b) == if a <= b then [a, b] else Insert(AtMostInt, [a][..0], b) + [a];
  }

  lemma {:induction false} NearestOfPair(a: int, b: int, spot: int)
    ensures Nearest([a], spot) == a
    ensures Nearest([a, b], spot) == if Abs(spot - b) < Abs(spot - a) then b else a
  {
    assert [a, b][..1] == [a];
  }

  lemma {:induction false} ZeroGap(spot: int, b: int)
    requires b > 0
    ensures Abs(spot - b) as real / b as real >= 0.0
    ensures Abs(spot - b) as real / b as real <= 0.0 <==> spot == b
  {
  }

  predicate OneSided(s: Strategy) {
    s !in {LongStraddle, LongStrangle, IronCondor}
  }

  /** Whether the underlying finishes strictly on the paying side of the breakevens. */
  predicate Beyond(s: Strategy, bes: seq<int>, close: int)
    requires |bes| == if OneSided(s) then 1 else 2
  {
    match s
    case LongCall | BullCallSpread | BullPutSpread => close > bes[0]
    case LongPut | BearPutSpread | BearCallSpread => close < bes[0]
    case LongStraddle | LongStrangle => close < Min(bes[0], bes[1]) || close > Max(bes[0], bes[1])
    case IronCondor => Min(bes[0], bes[1]) < close < Max(bes[0], bes[1])
  }

  /** What a grade says about where the close lies, for any scratch band. */
  ghost predicate ProxyReads(s: Strategy, bes: seq<int>, close: int, band: real)
    requires |bes| == if OneSided(s) then 1 else 2
  {
    var g := ResultFromBreakevens(s, bes, close, band);
    && g != Unknown
    && (g == Win ==> Beyond(s, bes, close))
    && (g == Loss ==> !Beyond(s, bes, close) && close !in bes)
    && (close in bes ==> g == Scratch)
    && (band == 0.0 && g == Scratch ==> close in bes)
  }

  lemma {:induction false} OneBreakeven(s: Strategy, bes: seq<int>, close: int, band: real)
    requires OneSided(s) && |bes| == 1 && bes[0] > 0 && band >= 0.0
    ensures ProxyReads(s, bes, close, band)
  {
    assert bes == [bes[0]];
    SortedPair(bes[0], bes[0]);
    NearestOfPair(bes[0], bes[0], close);
    ZeroGap(close, bes[0]);
  }

  /** The proxy with two breakevens works on the lower, the higher and the nearer one. */
  lemma {:induction false} PairVerdict(s: Strategy, bes: seq<int>, close: int, band: real)
    requires |bes| == 2
    ensures var lo, hi := Min(bes[0], bes[1]), Max(bes[0], bes[1]);
      ResultFromBreakevens(s, bes, close, band)
      == Verdict(s, lo, hi, if Abs(close - hi) < Abs(close - lo) then hi else lo, close, band)
  {
    assert bes == [bes[0], bes[1]];
    SortedPair(bes[0], bes[1]);
    NearestOfPair(Min(bes[0], bes[1]), Max(bes[0], bes[1]), close);
  }

  lemma {:induction false} TwoBreakevens(s: Strategy, bes: seq<int>, close: int, band: real)
    requires !OneSided(s) && |bes| == 2 && bes[0] > 0 && bes[1] > 0 && band >= 0.0
    ensures ProxyReads(s, bes, close, band)
  {
    PairVerdict(s, bes, close, band);
    ZeroGap(close, bes[0]);
    ZeroGap(close, bes[1]);
  }

  lemma {:induction false} ProxyReadsAlways(s: Strategy, bes: seq<int>, close: int, band: real)
    requires |bes| == if OneSided(s) then 1 else 2
    requires band >= 0.0 && forall i | 0 <= i < |bes| :: bes[i] > 0
    ensures ProxyReads(s, bes, close, band)
  {
    if OneSided(s) {
      OneBreakeven(s, bes, close, band);
    } else {
      TwoBreakevens(s, bes, close, band);
    }
  }

  // -------------------------------------------------------- the profit written out

  /** Premium strictly between nothing and what the structure can be worth. */
  predicate PremiumInside(s: Strategy, legs: seq<Leg>)
    requires LegCount(s, legs)
  {
    var net := NetPerShare(legs);
    match s
    case LongCall | LongPut => net > 0
    case BullCallSpread | BearPutSpread => 0 < net < Abs(legs[0].strike - legs[1].strike)
    case BullPutSpread | BearCallSpread => 0 < -net < Abs(legs[0].strike - legs[1].strike)
    case LongStraddle | LongStrangle =>
      net > Max(0, legs[1].strike - legs[0].strike) || (net == 0 && legs[0].strike == legs[1].strike)
    case IronCondor => 0 < -net < Min(legs[0].strike - legs[1].strike, legs[3].strike - legs[2].strike)
  }

  lemma {:induction false} OneSidedProfit(s: Strategy, legs: seq<Leg>, close: int)
    requires Structure(s, legs) && OneSided(s) && PremiumInside(s, legs)
    ensures ProfitAt(legs, close) > 0 <==> Beyond(s, ExactBreakevens(s, legs), close)
    ensures ProfitAt(legs, close) == 0 <==> close in ExactBreakevens(s, legs)
  {
    StructureValue(s, legs, close);
  }

  lemma {:induction false} LongVolProfit(s: Strategy, legs: seq<Leg>, close: int)
    requires Structure(s, legs) && s in {LongStraddle, LongStrangle} && PremiumInside(s, legs)
    ensures ProfitAt(legs, close) > 0 <==> Beyond(s, ExactBreakevens(s, legs), close)
    ensures ProfitAt(legs, close) == 0 <==> close in ExactBreakevens(s, legs)
  {
    StructureValue(s, legs, close);
  }

  lemma {:induction false} CondorProfit(s: Strategy, legs: seq<Leg>, close: int)
    requires Structure(s, legs) && s == IronCondor && PremiumInside(s, legs)
    ensures ProfitAt(legs, close) > 0 <==> Beyond(s, ExactBreakevens(s, legs), close)
    ensures ProfitAt(legs, close) == 0 <==> close in ExactBreakevens(s, legs)
  {
    StructureValue(s, legs, close);
  }

  /** Exact settlement pays strictly beyond the exact breakevens, costs strictly
      inside them, and is square exactly on them. */
  lemma {:induction false} ProfitSign(s: Strategy, legs: seq<Leg>, close: int)
    requires Structure(s, legs) && PremiumInside(s, legs)
    ensures ProfitAt(legs, close) > 0 <==> Beyond(s, ExactBreakevens(s, legs), close)
    ensures ProfitAt(legs, close) == 0 <==> close in ExactBreakevens(s, legs)
  {
    match s
    case LongStraddle | LongStrangle => LongVolProfit(s, legs, close);
    case IronCondor => CondorProfit(s, legs, close);
    case _ => OneSidedProfit(s, legs, close);
  }

  // ----------------------------------------------------------------- the agreement

  /** The proxy, asked without a scratch band, says what the exact profit says. */
  ghost predicate AgreesAt(s: Strategy, legs: seq<Leg>, close: int) {
    var g, profit := Graded(s, legs, close, 0.0), ProfitAt(legs, close);
    && (g == Win <==> profit > 0)
    && (g == Loss <==> profit < 0)
    && (g == Scratch <==> profit == 0)
  }

  /** Every breakeven is a whole number of cents, so rounding leaves it alone. */
  predicate WholeCents(s: Strategy, legs: seq<Leg>)
    requires LegCount(s, legs)
  {
    forall i | 0 <= i < |ExactBreakevens(s, legs)| :: ExactBreakevens(s, legs)[i] % 100 == 0
  }

  ghost predicate PositiveBreakevens(s: Strategy, legs: seq<Leg>) {
    forall i | 0 <= i < |Breakevens(s, legs)| :: Breakevens(s, legs)[i] > 0
  }

  lemma {:induction false} WholeCentsFixed(xs: seq<int>)
    ensures (forall i | 0 <= i < |xs| :: xs[i] % 100 == 0) <==> InCents(xs) == xs
  {
    forall i | 0 <= i < |xs| ensures xs[i] % 100 == 0 <==> InCents(xs)[i] == xs[i] {
      ToCentFacts(xs[i]);
    }
  }

  /** Under those two conditions the two graders never contradict each other,
      whatever the scratch band; and without a band they agree exactly. */
  lemma {:induction false} GradersAgree(s: Strategy, legs: seq<Leg>, close: int, band: real)
    requires Structure(s, legs) && PremiumInside(s, legs) && WholeCents(s, legs) && band >= 0.0
    requires PositiveBreakevens(s, legs)
    ensures Graded(s, legs, close, band) == Win ==> ProfitAt(legs, close) > 0
    ensures Graded(s, legs, close, band) == Loss ==> ProfitAt(legs, close) < 0
    ensures Graded(s, legs, close, band) != Unknown
    ensures AgreesAt(s, legs, close)
  {
    BreakevensAre(s, legs);
    WholeCentsFixed(ExactBreakevens(s, legs));
    ProfitSign(s, legs, close);
    ProxyReadsAlways(s, Breakevens(s, legs), close, band);
    ProxyReadsAlways(s, Breakevens(s, legs), close, 0.0);
  }

  // -------------------------------------------------- no weaker condition would do

  ghost predicate AgreesEverywhere(s: Strategy, legs: seq<Leg>) {
    forall close | close > 0 :: AgreesAt(s, legs, close)
  }

  lemma {:induction false} BreakevenCount(s: Strategy, legs: seq<Leg>)
    requires Structure(s, legs)
    ensures |Breakevens(s, legs)| == |ExactBreakevens(s, legs)| == if OneSided(s) then 1 else 2
  {
    BreakevensAre(s, legs);
  }

  /** What agreement says about the profit at one close. */
  lemma {:induction false} AgreementReads(s: Strategy, legs: seq<Leg>, close: int)
    requires Structure(s, legs) && PositiveBreakevens(s, legs) && AgreesEverywhere(s, legs) && close > 0
    ensures |Breakevens(s, legs)| == if OneSided(s) then 1 else 2
    ensures ProfitAt(legs, close) == 0 <==> close in Breakevens(s, legs)
    ensures ProfitAt(legs, close) > 0 <==> Beyond(s, Breakevens(s, legs), close)
  {
    BreakevenCount(s, legs);
    ProxyReadsAlways(s, Breakevens(s, legs), close, 0.0);
    assert AgreesAt(s, legs, close);
    assert ProxyReads(s, Breakevens(s, legs), close, 0.0);
  }

  /** A rounded breakeven is on the cent grid and within half a cent of the exact one. */
  lemma {:induction false} RoundedNear(s: Strategy, legs: seq<Leg>)
    requires Structure(s, legs)
    ensures |Breakevens(s, legs)| == |ExactBreakevens(s, legs)| == if OneSided(s) then 1 else 2
    ensures forall i | 0 <= i < |Breakevens(s, legs)| ::
              && Breakevens(s, legs)[i] % 100 == 0
              && -50 <= Breakevens(s, legs)[i] - ExactBreakevens(s, legs)[i] <= 50
  {
    BreakevensAre(s, legs);
    forall i | 0 <= i < |Breakevens(s, legs)|
      ensures Breakevens(s, legs)[i] % 100 == 0
      ensures -50 <= Breakevens(s, legs)[i] - ExactBreakevens(s, legs)[i] <= 50
    {
      ToCentFacts(ExactBreakevens(s, legs)[i]);
    }
  }

  lemma {:induction false} OneSidedPremium(s: Strategy, legs: seq<Leg>)
    requires Structure(s, legs) && OneSided(s) && PositiveBreakevens(s, legs) && AgreesEverywhere(s, legs)
    ensures PremiumInside(s, legs)
  {
    RoundedNear(s, legs);
    var b := Breakevens(s, legs)[0];
    AgreementReads(s, legs, 1);
    AgreementReads(s, legs, b + 1);
    StructureValue(s, legs, 1);
    StructureValue(s, legs, b + 1);
  }

  lemma {:induction false} LongVolPremium(s: Strategy, legs: seq<Leg>)
    requires Structure(s, legs) && s in {LongStraddle, LongStrangle}
    requires PositiveBreakevens(s, legs) && AgreesEverywhere(s, legs)
    ensures PremiumInside(s, legs)
  {
    RoundedNear(s, legs);
    var bes := Breakevens(s, legs);
    var lo, hi := Min(bes[0], bes[1]), Max(bes[0], bes[1]);
    AgreementReads(s, legs, lo);
    StructureValue(s, legs, lo);
    if lo < hi {
      AgreementReads(s, legs, lo + 1);
      StructureValue(s, legs, lo + 1);
    } else {
      LongVolTouching(s, legs, lo);
    }
  }

  /** Both rounded breakevens coincide: only a free straddle can agree. */
  lemma {:induction false} LongVolTouching(s: Strategy, legs: seq<Leg>, b: int)
    requires Structure(s, legs) && s in {LongStraddle, LongStrangle}
    requires PositiveBreakevens(s, legs) && AgreesEverywhere(s, legs)
    requires |Breakevens(s, legs)| == 2 && b == Breakevens(s, legs)[0] == Breakevens(s, legs)[1]
    ensures PremiumInside(s, legs)
  {
    RoundedNear(s, legs);
    var x, y := ExactBreakevens(s, legs)[0], ExactBreakevens(s, legs)[1];
    AgreementReads(s, legs, b);
    AgreementReads(s, legs, x);
    AgreementReads(s, legs, y);
    StructureValue(s, legs, b);
    StructureValue(s, legs, x);
    StructureValue(s, legs, y);
  }

  lemma {:induction false} CondorPremium(s: Strategy, legs: seq<Leg>)
    requires Structure(s, legs) && s == IronCondor
    requires PositiveBreakevens(s, legs) && AgreesEverywhere(s, legs)
    ensures PremiumInside(s, legs)
  {
    RoundedNear(s, legs);
    var bes := Breakevens(s, legs);
    var lo, hi := Min(bes[0], bes[1]), Max(bes[0], bes[1]);
    var far := Max(hi + 1, legs[3].strike);
    AgreementReads(s, legs, 1);
    StructureValue(s, legs, 1);
    AgreementReads(s, legs, far);
    StructureValue(s, legs, far);
    AgreementReads(s, legs, lo);
    StructureValue(s, legs, lo);
    CondorCredit(s, legs);
  }

  /** A condor that agrees everywhere was sold for something. */
  lemma {:induction false} CondorCredit(s: Strategy, legs: seq<Leg>)
    requires Structure(s, legs) && s == IronCondor
    requires PositiveBreakevens(s, legs) && AgreesEverywhere(s, legs)
    ensures NetPerShare(legs) < 0
  {
    RoundedNear(s, legs);
    var bes := Breakevens(s, legs);
    var lo, hi := Min(bes[0], bes[1]), Max(bes[0], bes[1]);
    AgreementReads(s, legs, lo);
    StructureValue(s, legs, lo);
    AgreementReads(s, legs, lo + 1);
    StructureValue(s, legs, lo + 1);
    if lo == hi {
      AgreementReads(s, legs, legs[0].strike);
      StructureValue(s, legs, legs[0].strike);
    }
  }

  lemma {:induction false} PremiumIsInside(s: Strategy, legs: seq<Leg>)
    requires Structure(s, legs) && PositiveBreakevens(s, legs) && AgreesEverywhere(s, legs)
    ensures PremiumInside(s, legs)
  {
    match s
    case LongStraddle | LongStrangle => LongVolPremium(s, legs);
    case IronCondor => CondorPremium(s, legs);
    case _ => OneSidedPremium(s, legs);
  }

  /** With positive breakevens the proxy is exact at expiry precisely for structures
      whose premium lies strictly inside what they can be worth and whose breakevens
      are whole cents. */
  lemma {:induction false} PositiveAgreement(s: Strategy, legs: seq<Leg>)
    requires Structure(s, legs) && PositiveBreakevens(s, legs)
    ensures AgreesEverywhere(s, legs) <==> PremiumInside(s, legs) && WholeCents(s, legs)
  {
    if AgreesEverywhere(s, legs) {
      PremiumIsInside(s, legs);
      RoundedNear(s, legs);
      forall i | 0 <= i < |ExactBreakevens(s, legs)| ensures ExactBreakevens(s, legs)[i] % 100 == 0 {
        var exact := ExactBreakevens(s, legs)[i];
        ProfitSign(s, legs, exact);
        AgreementReads(s, legs, exact);
      }
    } else if PremiumInside(s, legs) && WholeCents(s, legs) {
      forall close | close > 0 ensures AgreesAt(s, legs, close) {
        GradersAgree(s, legs, close, 0.0);
      }
    }
  }

  // ------------------------------------------------- breakevens at or below zero

  predicate Rising(s: Strategy) {
    s in {LongCall, BullCallSpread, BullPutSpread}
  }

  /** The greater rounded breakeven. */
  function Highest(bes: seq<int>): int
    requires 0 < |bes| <= 2
  {
    if |bes| == 1 then bes[0] else Max(bes[0], bes[1])
  }

  /** What agreement comes to when some breakeven is not positive: the proxy then reads
      every positive close alike, or turns once, at the higher breakeven. */
  ghost predicate LowBreakevensFit(s: Strategy, legs: seq<Leg>)
    requires Structure(s, legs) && 0 < |Breakevens(s, legs)| <= 2
  {
    var hi := Highest(Breakevens(s, legs));
    match s
    case LongStraddle | LongStrangle =>
      if hi <= 0 then ProfitAt(legs, Max(1, legs[0].strike)) > 0
      else ProfitAt(legs, 1) < 0 && ProfitAt(legs, hi) == 0
    case IronCondor =>
      if hi <= 0 then ProfitAt(legs, Max(1, legs[0].strike)) < 0
      else ProfitAt(legs, 1) > 0 && ProfitAt(legs, hi - 1) > 0 && ProfitAt(legs, hi) == 0 && ProfitAt(legs, hi + 1) < 0
    case _ => if Rising(s) then ProfitAt(legs, 1) > 0 else ProfitAt(legs, 1) < 0
  }

  /** The grade of a positive close when some breakeven is not positive. */
  function LowGrade(s: Strategy, hi: int, close: int): Grade {
    if hi <= 0 then (if Rising(s) || s in {LongStraddle, LongStrangle} then Win else Loss)
    else if close == hi then Scratch
    else if (close > hi) == (s != IronCondor) then Win
    else Loss
  }

  lemma {:induction false} LowSingle(s: Strategy, b: int, close: int)
    requires OneSided(s) && b <= 0 < close
    ensures Verdict(s, b, b, b, close, 0.0) == LowGrade(s, b, close)
  {
  }

  lemma {:induction false} LowPair(s: Strategy, lo: int, hi: int, close: int)
    requires !OneSided(s) && lo <= 0 < close && lo <= hi
    ensures Verdict(s, lo, hi, if Abs(close - hi) < Abs(close - lo) then hi else lo, close, 0.0)
         == LowGrade(s, hi, close)
  {
    if hi > 0 {
      ZeroGap(close, hi);
    }
  }

  lemma {:induction false} LowGrades(s: Strategy, legs: seq<Leg>, close: int)
    requires Structure(s, legs) && !PositiveBreakevens(s, legs) && close > 0
    ensures |Breakevens(s, legs)| == if OneSided(s) then 1 else 2
    ensures Graded(s, legs, close, 0.0) == LowGrade(s, Highest(Breakevens(s, legs)), close)
  {
    BreakevenCount(s, legs);
    LowReading(s, Breakevens(s, legs), close);
  }

  lemma {:induction false} LowReading(s: Strategy, bes: seq<int>, close: int)
    requires |bes| == (if OneSided(s) then 1 else 2) && close > 0
    requires exists i :: 0 <= i < |bes| && bes[i] <= 0
    ensures ResultFromBreakevens(s, bes, close, 0.0) == LowGrade(s, Highest(bes), close)
  {
    if OneSided(s) {
      assert bes == [bes[0]];
      SortedPair(bes[0], bes[0]);
      NearestOfPair(bes[0], bes[0], close);
      LowSingle(s, bes[0], close);
    } else {
      PairVerdict(s, bes, close, 0.0);
      LowPair(s, Min(bes[0], bes[1]), Max(bes[0], bes[1]), close);
    }
  }

  // Profit at each close, from the profits the fit speaks of.

  lemma {:induction false} OneSidedSlope(s: Strategy, legs: seq<Leg>, close: int)
    requires Structure(s, legs) && OneSided(s) && close >= 1
    ensures if Rising(s) then ProfitAt(legs, close) >= ProfitAt(legs, 1) else ProfitAt(legs, close) <= ProfitAt(legs, 1)
  {
    StructureValue(s, legs, close);
    StructureValue(s, legs, 1);
  }

  lemma {:induction false} LongVolFloor(s: Strategy, legs: seq<Leg>, close: int)
    requires Structure(s, legs) && s in {LongStraddle, LongStrangle} && close >= 1
    ensures ProfitAt(legs, close) >= ProfitAt(legs, Max(1, legs[0].strike))
  {
    StructureValue(s, legs, close);
    StructureValue(s, legs, Max(1, legs[0].strike));
  }

  lemma {:induction false} LongVolTurnsOnce(s: Strategy, legs: seq<Leg>, hi: int, close: int)
    requires Structure(s, legs) && s in {LongStraddle, LongStrangle} && hi > 1 && close >= 1
    requires ProfitAt(legs, 1) < 0 && ProfitAt(legs, hi) == 0
    ensures ProfitAt(legs, close) < 0 <==> close < hi
    ensures ProfitAt(legs, close) > 0 <==> close > hi
  {
    StructureValue(s, legs, close);
    StructureValue(s, legs, 1);
    StructureValue(s, legs, hi);
  }

  /** What the sold put spread, or call spread, of a condor costs. */
  function PutWing(legs: seq<Leg>, close: int): int
    requires |legs| == 4
  {
    Max(0, legs[1].strike - close) - Max(0, legs[0].strike - close)
  }

  function CallWing(legs: seq<Leg>, close: int): int
    requires |legs| == 4
  {
    Max(0, close - legs[3].strike) - Max(0, close - legs[2].strike)
  }

  lemma {:induction false} CondorWings(legs: seq<Leg>, close: int)
    requires Structure(IronCondor, legs)
    ensures ProfitAt(legs, close) == PutWing(legs, close) + CallWing(legs, close) - NetPerShare(legs)
  {
    StructureValue(IronCondor, legs, close);
  }

  /** Between two closes a condor does at least as well as at the worse of them. */
  lemma {:induction false} CondorUnimodal(legs: seq<Leg>, a: int, close: int, b: int)
    requires Structure(IronCondor, legs) && a <= close <= b
    ensures ProfitAt(legs, close) >= Min(ProfitAt(legs, a), ProfitAt(legs, b))
  {
    CondorWings(legs, a);
    CondorWings(legs, close);
    CondorWings(legs, b);
  }

  lemma {:induction false} CondorPeak(legs: seq<Leg>, close: int)
    requires Structure(IronCondor, legs) && close >= 1
    ensures ProfitAt(legs, close) <= ProfitAt(legs, Max(1, legs[0].strike))
  {
    CondorWings(legs, close);
    CondorWings(legs, Max(1, legs[0].strike));
  }

  lemma {:induction false} CondorTurnsOnce(legs: seq<Leg>, hi: int, close: int)
    requires Structure(IronCondor, legs) && hi > 1 && close >= 1
    requires ProfitAt(legs, 1) > 0 && ProfitAt(legs, hi - 1) > 0
    requires ProfitAt(legs, hi) == 0 && ProfitAt(legs, hi + 1) < 0
    ensures ProfitAt(legs, close) > 0 <==> close < hi
    ensures ProfitAt(legs, close) < 0 <==> close > hi
  {
    if close < hi {
      CondorUnimodal(legs, 1, close, hi - 1);
    } else if close > hi {
      CondorUnimodal(legs, hi, hi + 1, close);
    }
  }

  lemma {:induction false} HighestIsWholeCents(s: Strategy, legs: seq<Leg>)
    requires Structure(s, legs)
    ensures 0 < |Breakevens(s, legs)| <= 2 && Highest(Breakevens(s, legs)) % 100 == 0
  {
    RoundedNear(s, legs);
  }

  lemma {:induction false} LowFitAgrees(s: Strategy, legs: seq<Leg>, close: int)
    requires Structure(s, legs) && !PositiveBreakevens(s, legs) && close > 0
    requires 0 < |Breakevens(s, legs)| <= 2 && LowBreakevensFit(s, legs)
    ensures AgreesAt(s, legs, close)
  {
    LowGrades(s, legs, close);
    HighestIsWholeCents(s, legs);
    var hi := Highest(Breakevens(s, legs));
    match s
    case LongStraddle | LongStrangle =>
      if hi <= 0 { LongVolFloor(s, legs, close); } else { LongVolTurnsOnce(s, legs, hi, close); }
    case IronCondor =>
      if hi <= 0 { CondorPeak(legs, close); } else { CondorTurnsOnce(legs, hi, close); }
    case _ =>
      OneSidedSlope(s, legs, close);
  }

  lemma {:induction false} LowAgreementSays(s: Strategy, legs: seq<Leg>, close: int)
    requires Structure(s, legs) && !PositiveBreakevens(s, legs) && AgreesEverywhere(s, legs) && close > 0
    ensures 0 < |Breakevens(s, legs)| <= 2
    ensures var g := LowGrade(s, Highest(Breakevens(s, legs)), close);
      && (g == Win <==> ProfitAt(legs, close) > 0)
      && (g == Loss <==> ProfitAt(legs, close) < 0)
      && (g == Scratch <==> ProfitAt(legs, close) == 0)
  {
    LowGrades(s, legs, close);
    assert AgreesAt(s, legs, close);
  }

  lemma {:induction false} LowAgreementFits(s: Strategy, legs: seq<Leg>)
    requires Structure(s, legs) && !PositiveBreakevens(s, legs) && AgreesEverywhere(s, legs)
    ensures 0 < |Breakevens(s, legs)| <= 2 && LowBreakevensFit(s, legs)
  {
    HighestIsWholeCents(s, legs);
    var hi := Highest(Breakevens(s, legs));
    LowGrades(s, legs, 1);
    LowAgreementSays(s, legs, 1);
    if hi > 0 {
      LowAgreementSays(s, legs, hi);
      LowAgreementSays(s, legs, hi - 1);
      LowAgreementSays(s, legs, hi + 1);
    } else if !OneSided(s) {
      LowAgreementSays(s, legs, Max(1, legs[0].strike));
    }
  }

  /** When the proxy is exact at every positive close, for any recognised structure:
      with positive breakevens, precisely if the premium lies strictly inside what the
      structure can be worth and the breakevens are whole cents; otherwise precisely if
      its one remaining reading fits. */
  lemma {:induction false} AgreementCondition(s: Strategy, legs: seq<Leg>)
    requires Structure(s, legs)
    ensures 0 < |Breakevens(s, legs)| <= 2
    ensures AgreesEverywhere(s, legs)
       <==> if PositiveBreakevens(s, legs) then PremiumInside(s, legs) && WholeCents(s, legs)
            else LowBreakevensFit(s, legs)
  {
    BreakevenCount(s, legs);
    if PositiveBreakevens(s, legs) {
      PositiveAgreement(s, legs);
    } else if LowBreakevensFit(s, legs) {
      forall close | close > 0 ensures AgreesAt(s, legs, close) {
        LowFitAgrees(s, legs, close);
      }
    } else if AgreesEverywhere(s, legs) {
      LowAgreementFits(s, legs);
    }
  }
}
