/** Choosing contracts from a chain (app/engine/contract_selection.py). Liquidity
    scores and the modelled probability of profit are arbitrary functions. */
module ContractSelection {
  import opened Basics
  import opened OptionStructures

  datatype OptionContract = OptionContract(
    symbol: string, expiration: int, strike: int, optionType: OptionType,
    bid: Option<int>, ask: Option<int>, last: Option<int>, mark: Option<int>,
    volume: Option<int>, openInterest: Option<int>, delta: Option<real>)

  datatype Chain = Chain(underlyingPrice: Option<int>, contracts: seq<OptionContract>)

  datatype Liquidity = Liquidity(minOpenInterest: int, minVolume: int, maxSpreadPct: real,
                                 minMid: int, maxMid: int)

  datatype Selection = Selection(minDte: int, maxDte: int, targetDelta: real, minDelta: real, maxDelta: real,
                                 moneynessBand: Option<real>, minShortDelta: real, minPop: Option<real>)

  const DEFAULT_LIQUIDITY := Liquidity(250, 50, 0.10, 1000, 250000)

  const DEFAULT_SELECTION := Selection(20, 45, 0.45, 0.30, 0.60, None, 0.15, Some(0.25))

  /** The scoring models the selection consults. */
  datatype Models = Models(liquidityScore: OptionContract -> real,
                           probabilityOfProfit: (OptionContract, int, bool) -> Option<real>)

  // ------------------------------------------------------------------ contracts

  /** `OptionContract.mid` */
  function Mid(c: OptionContract): Option<int> {
    if c.bid.Some? && c.ask.Some? && c.ask.value > 0 then Some(RoundDiv(c.bid.value + c.ask.value, 2))
    else if c.mark.Some? && c.mark.value != 0 then c.mark
    else c.last
  }

  function SpreadPct(c: OptionContract): Option<real> {
    if c.bid.Some? && c.ask.Some? && Mid(c).Some? && Mid(c).value > 0 then
      Some((c.ask.value - c.bid.value) as real / Mid(c).value as real)
    else None
  }

  /** `gate_option` returns no reason to reject. */
  predicate Liquid(c: OptionContract, liq: Liquidity) {
    && Mid(c).Some? && Mid(c).value > 0
    && liq.minMid <= Mid(c).value <= liq.maxMid
    && c.openInterest.Some? && c.openInterest.value >= liq.minOpenInterest
    && c.volume.Some? && c.volume.value >= liq.minVolume
    && SpreadPct(c).Some? && SpreadPct(c).value <= liq.maxSpreadPct
  }

  function AbsReal(x: real): real {
    if x < 0.0 then -x else x
  }

  predicate DteOk(c: OptionContract, asOf: int, sel: Selection) {
    sel.minDte <= c.expiration - asOf <= sel.maxDte
  }

  /** `_moneyness_fit` */
  function MoneynessFit(c: OptionContract, chain: Chain, sel: Selection): Option<real> {
    if sel.moneynessBand.None? || sel.moneynessBand.value == 0.0 then None
    else if chain.underlyingPrice.None? || chain.underlyingPrice.value <= 0 || c.strike == 0 then None
    else
      var money := AbsReal(c.strike as real / chain.underlyingPrice.value as real - 1.0);
      if money > sel.moneynessBand.value then None
      else Some(RoundTo(1.0 - money / sel.moneynessBand.value, 10000))
  }

  function Wanted(d: Direction): Option<OptionType> {
    match d
    case Bullish => Some(Call)
    case Bearish => Some(Put)
    case _ => None
  }

  // ---------------------------------------------------------------- long option

  predicate ByDelta(c: OptionContract, sel: Selection) {
    c.delta.Some? && var d := AbsReal(c.delta.value); 0.0 < d < 1.0 && sel.minDelta <= d <= sel.maxDelta
  }

  predicate LongEligible(c: OptionContract, chain: Chain, want: OptionType, asOf: int, sel: Selection, liq: Liquidity) {
    && c.optionType == want && DteOk(c, asOf, sel) && Liquid(c, liq)
    && (ByDelta(c, sel) || MoneynessFit(c, chain, sel).Some?)
  }

  /** How near a strike is to the one preferred. */
  function StrikeFit(strike: int, preferred: int): real
    requires preferred > 0
  {
    MaxReal(0.0, 1.0 - AbsReal((strike - preferred) as real) / preferred as real)
  }

  /** How near the delta is to its target, or without one the strike to the spot. */
  function DeltaFit(c: OptionContract, chain: Chain, sel: Selection): real
    requires sel.targetDelta > 0.0 && (ByDelta(c, sel) || MoneynessFit(c, chain, sel).Some?)
  {
    if ByDelta(c, sel) then 1.0 - AbsReal(AbsReal(c.delta.value) - sel.targetDelta) / sel.targetDelta
    else MoneynessFit(c, chain, sel).value
  }

  /** How near the expiration is to the middle of the window. */
  function DteFit(c: OptionContract, asOf: int, sel: Selection): real
    requires sel.minDte + sel.maxDte > 0
  {
    var mid := (sel.minDte + sel.maxDte) as real / 2.0;
    1.0 - AbsReal((c.expiration - asOf) as real - mid) / mid
  }

  function LongFit(c: OptionContract, chain: Chain, asOf: int, sel: Selection, preferStrike: Option<int>,
                   m: Models): real
    requires sel.targetDelta > 0.0 && sel.minDte + sel.maxDte > 0
    requires ByDelta(c, sel) || MoneynessFit(c, chain, sel).Some?
  {
    var deltaFit, dteFit := DeltaFit(c, chain, sel), DteFit(c, asOf, sel);
    if preferStrike.Some? && preferStrike.value > 0 then
      RoundTo(0.45 * m.liquidityScore(c) + 0.30 * deltaFit + 0.10 * dteFit
              + 0.15 * StrikeFit(c.strike, preferStrike.value), 10000)
    else
      RoundTo(0.5 * m.liquidityScore(c) + 0.35 * deltaFit + 0.15 * dteFit, 10000)
  }

  datatype ContractChoice = ContractChoice(contract: OptionContract, fit: real)

  /** Among the first n contracts, the k-th is the first eligible one of greatest fit. */
  ghost predicate LongLeads(k: int, n: int, fit: real, chain: Chain, want: OptionType, asOf: int, sel: Selection,
                            liq: Liquidity, preferStrike: Option<int>, m: Models)
    requires sel.targetDelta > 0.0 && sel.minDte + sel.maxDte > 0 && n <= |chain.contracts|
  {
    && 0 <= k < n && LongEligible(chain.contracts[k], chain, want, asOf, sel, liq)
    && LongFit(chain.contracts[k], chain, asOf, sel, preferStrike, m) == fit
    && forall j | 0 <= j < n && LongEligible(chain.contracts[j], chain, want, asOf, sel, liq) ::
         var f := LongFit(chain.contracts[j], chain, asOf, sel, preferStrike, m);
         if j < k then f < fit else f <= fit
  }

  /** The first eligible contract of greatest fit, and none only when none is eligible. */
  ghost predicate FirstBestLong(best: Option<ContractChoice>, chain: Chain, direction: Direction, asOf: int,
                                sel: Selection, liq: Liquidity, preferStrike: Option<int>, m: Models)
    requires sel.targetDelta > 0.0 && sel.minDte + sel.maxDte > 0
  {
    match Wanted(direction)
    case None => best.None?
    case Some(want) =>
      if best.None? then forall c | c in chain.contracts :: !LongEligible(c, chain, want, asOf, sel, liq)
      else exists k :: 0 <= k < |chain.contracts| && chain.contracts[k] == best.value.contract
             && LongLeads(k, |chain.contracts|, best.value.fit, chain, want, asOf, sel, liq, preferStrike, m)
  }

  /** `select_long_contract` */
  method SelectLong(chain: Chain, direction: Direction, asOf: int, sel: Selection, liq: Liquidity,
                    preferStrike: Option<int>, m: Models) returns (best: Option<ContractChoice>)
    requires sel.targetDelta > 0.0 && sel.minDte + sel.maxDte > 0
    ensures FirstBestLong(best, chain, direction, asOf, sel, liq, preferStrike, m)
  {
    best := None;
    if Wanted(direction).None? {
      return;
    }
    var want := Wanted(direction).value;
    ghost var at := 0;
    var i := 0;
    while i < |chain.contracts|
      invariant 0 <= i <= |chain.contracts|
      invariant best.None? ==> forall k | 0 <= k < i :: !LongEligible(chain.contracts[k], chain, want, asOf, sel, liq)
      invariant best.Some? ==> LongLeads(at, i, best.value.fit, chain, want, asOf, sel, liq, preferStrike, m)
                               && chain.contracts[at] == best.value.contract
    {
      var c := chain.contracts[i];
      if LongEligible(c, chain, want, asOf, sel, liq) {
        var fit := LongFit(c, chain, asOf, sel, preferStrike, m);
        if best.None? || fit > best.value.fit {
          best, at := Some(ContractChoice(c, fit)), i;
        }
      }
      i := i + 1;
    }
  }

  // ------------------------------------------------------------- debit vertical

  datatype SpreadChoice = SpreadChoice(longLeg: OptionContract, shortLeg: OptionContract, netDebit: int,
                                       width: int, maxLoss: int, maxProfit: int, fit: real, pop: Option<real>)

  /** A leg good enough to be bought: liquid, and its delta in the band; the
      moneyness fallback only when the delta is missing or degenerate. */
  predicate LongLegOk(c: OptionContract, chain: Chain, want: OptionType, asOf: int, sel: Selection, liq: Liquidity) {
    && c.optionType == want && DteOk(c, asOf, sel) && Liquid(c, liq)
    && if c.delta.Some? && 0.0 < AbsReal(c.delta.value) < 1.0 then
         sel.minDelta <= AbsReal(c.delta.value) <= sel.maxDelta
       else MoneynessFit(c, chain, sel).Some?
  }

  predicate FurtherOut(want: OptionType, long: OptionContract, short: OptionContract) {
    match want
    case Call => short.strike > long.strike
    case Put => short.strike < long.strike
  }

  predicate ShortDeltaOk(c: OptionContract, sel: Selection) {
    sel.minShortDelta != 0.0 && c.delta.Some? && 0.0 < AbsReal(c.delta.value) < 1.0 ==>
      AbsReal(c.delta.value) >= sel.minShortDelta
  }

  function Debit(l: OptionContract, s: OptionContract): int
    requires Mid(l).Some? && Mid(s).Some?
  {
    Mid(l).value - Mid(s).value
  }

  /** A pair of legs the debit-vertical search accepts. */
  predicate Feasible(l: OptionContract, s: OptionContract, chain: Chain, want: OptionType, asOf: int, maxDebit: int,
                     sel: Selection, liq: Liquidity, m: Models) {
    && LongLegOk(l, chain, want, asOf, sel, liq)
    && s.optionType == want && s.expiration == l.expiration && Liquid(s, liq)
    && FurtherOut(want, l, s) && ShortDeltaOk(s, sel)
    && 0 < Debit(l, s) <= maxDebit
    && (sel.minPop.Some? ==>
          var pop := m.probabilityOfProfit(l, Debit(l, s), want == Call);
          pop.Some? && pop.value >= sel.minPop.value)
  }

  /** Weighs the probability of profit, the reward for the risk and the width. */
  function SpreadFit(pop: real, reward: real, width: real): real {
    RoundTo(pop * 0.45 + MinReal(1.0, reward / 2.0) * 0.35 + MinReal(1.0, width * 20.0) * 0.20, 10000)
  }

  function SpreadOf(l: OptionContract, s: OptionContract, want: OptionType, m: Models): SpreadChoice
    requires Mid(l).Some? && Mid(s).Some? && Debit(l, s) > 0 && l.strike != 0
  {
    var debit := Debit(l, s);
    var width := Abs(s.strike - l.strike);
    var rr := (width - debit) as real / debit as real;
    var pop := m.probabilityOfProfit(l, debit, want == Call);
    var fit := SpreadFit(if pop.Some? then pop.value else 0.0, rr, width as real / l.strike as real);
    SpreadChoice(l, s, debit, 100 * RoundDiv(width, 100), debit, width - debit, fit, pop)
  }

  predicate Before(p: int, q: int, i: int, j: int) {
    p < i || (p == i && q < j)
  }

  /** What the nested search has established after the pairs before (i, j): the pair
      (bi, bj) is the first of them of greatest fit. */
  ghost predicate BestSoFar(best: Option<SpreadChoice>, bi: int, bj: int, cs: seq<OptionContract>, i: int, j: int,
                            chain: Chain, want: OptionType, asOf: int, maxDebit: int, sel: Selection, liq: Liquidity,
                            m: Models)
    requires forall c | c in cs :: c.strike > 0
  {
    && (best.Some? ==>
          && 0 <= bi < |cs| && 0 <= bj < |cs| && Before(bi, bj, i, j)
          && best.value.longLeg == cs[bi] && best.value.shortLeg == cs[bj]
          && Feasible(cs[bi], cs[bj], chain, want, asOf, maxDebit, sel, liq, m)
          && cs[bi].strike > 0 && best.value == SpreadOf(cs[bi], cs[bj], want, m))
    && NoneBetter(best, bi, bj, cs, i, j, chain, want, asOf, maxDebit, sel, liq, m)
  }

  ghost predicate NoneBetter(best: Option<SpreadChoice>, bi: int, bj: int, cs: seq<OptionContract>, i: int, j: int,
                             chain: Chain, want: OptionType, asOf: int, maxDebit: int, sel: Selection, liq: Liquidity,
                             m: Models)
    requires forall c | c in cs :: c.strike > 0
  {
    forall p, q {:trigger Feasible(cs[p], cs[q], chain, want, asOf, maxDebit, sel, liq, m)}
      | 0 <= p < |cs| && 0 <= q < |cs| && Before(p, q, i, j)
        && Feasible(cs[p], cs[q], chain, want, asOf, maxDebit, sel, liq, m) ::
      && best.Some? && cs[p].strike > 0
      && if Before(p, q, bi, bj) then SpreadOf(cs[p], cs[q], want, m).fit < best.value.fit
         else SpreadOf(cs[p], cs[q], want, m).fit <= best.value.fit
  }

  /** The first feasible pair of greatest fit, in the order of the nested loops. */
  ghost predicate FirstBestVertical(best: Option<SpreadChoice>, chain: Chain, direction: Direction, asOf: int,
                                    maxDebit: int, sel: Selection, liq: Liquidity, m: Models)
    requires forall c | c in chain.contracts :: c.strike > 0
  {
    match Wanted(direction)
    case None => best.None?
    case Some(want) =>
      exists bi, bj :: BestSoFar(best, bi, bj, chain.contracts, |chain.contracts|, 0, chain, want, asOf, maxDebit,
                                 sel, liq, m)
  }

  /** `select_vertical_spread` */
  method SelectVertical(chain: Chain, direction: Direction, asOf: int, maxDebit: int, sel: Selection, liq: Liquidity,
                        m: Models) returns (best: Option<SpreadChoice>)
    requires forall c | c in chain.contracts :: c.strike > 0
    ensures FirstBestVertical(best, chain, direction, asOf, maxDebit, sel, liq, m)
  {
    best := None;
    if Wanted(direction).None? {
      return;
    }
    var want := Wanted(direction).value;
    ghost var bi, bj := 0, 0;
    var i := 0;
    while i < |chain.contracts|
      invariant 0 <= i <= |chain.contracts|
      invariant BestSoFar(best, bi, bj, chain.contracts, i, 0, chain, want, asOf, maxDebit, sel, liq, m)
    {
      best, bi, bj := SearchRow(best, bi, bj, i, chain, want, asOf, maxDebit, sel, liq, m);
      i := i + 1;
    }
  }

  /** The inner loop: every short leg against one long leg. */
  method SearchRow(first: Option<SpreadChoice>, ghost bi0: int, ghost bj0: int, i: nat, chain: Chain, want: OptionType,
                   asOf: int, maxDebit: int, sel: Selection, liq: Liquidity, m: Models)
    returns (best: Option<SpreadChoice>, ghost bi: int, ghost bj: int)
    requires i < |chain.contracts| && forall c | c in chain.contracts :: c.strike > 0
    requires BestSoFar(first, bi0, bj0, chain.contracts, i, 0, chain, want, asOf, maxDebit, sel, liq, m)
    ensures BestSoFar(best, bi, bj, chain.contracts, i + 1, 0, chain, want, asOf, maxDebit, sel, liq, m)
  {
    best, bi, bj := first, bi0, bj0;
    var j := 0;
    while j < |chain.contracts|
      invariant 0 <= j <= |chain.contracts|
      invariant BestSoFar(best, bi, bj, chain.contracts, i, j, chain, want, asOf, maxDebit, sel, liq, m)
    {
      best, bi, bj := Consider(best, bi, bj, chain.contracts, i, j, chain, want, asOf, maxDebit, sel, liq, m);
      j := j + 1;
    }
    RowDone(best, bi, bj, chain.contracts, i, chain, want, asOf, maxDebit, sel, liq, m);
  }

  lemma {:induction false} RowDone(best: Option<SpreadChoice>, bi: int, bj: int, cs: seq<OptionContract>, i: nat,
                                   chain: Chain, want: OptionType, asOf: int, maxDebit: int, sel: Selection,
                                   liq: Liquidity, m: Models)
    requires forall c | c in cs :: c.strike > 0
    requires BestSoFar(best, bi, bj, cs, i, |cs|, chain, want, asOf, maxDebit, sel, liq, m)
    ensures BestSoFar(best, bi, bj, cs, i + 1, 0, chain, want, asOf, maxDebit, sel, liq, m)
  {
  }

  lemma {:induction false} KeepBest(best: Option<SpreadChoice>, bi: int, bj: int, cs: seq<OptionContract>, i: nat,
                                    j: nat, chain: Chain, want: OptionType, asOf: int, maxDebit: int, sel: Selection,
                                    liq: Liquidity, m: Models)
    requires i < |cs| && j < |cs| && forall c | c in cs :: c.strike > 0
    requires BestSoFar(best, bi, bj, cs, i, j, chain, want, asOf, maxDebit, sel, liq, m)
    requires Feasible(cs[i], cs[j], chain, want, asOf, maxDebit, sel, liq, m) ==>
               best.Some? && cs[i].strike > 0 && SpreadOf(cs[i], cs[j], want, m).fit <= best.value.fit
    ensures BestSoFar(best, bi, bj, cs, i, j + 1, chain, want, asOf, maxDebit, sel, liq, m)
  {
    forall p, q | 0 <= p < |cs| && 0 <= q < |cs| && Before(p, q, i, j + 1)
                  && Feasible(cs[p], cs[q], chain, want, asOf, maxDebit, sel, liq, m)
      ensures best.Some? && cs[p].strike > 0
      ensures if Before(p, q, bi, bj) then SpreadOf(cs[p], cs[q], want, m).fit < best.value.fit
              else SpreadOf(cs[p], cs[q], want, m).fit <= best.value.fit
    {
      assert Before(p, q, i, j) || (p == i && q == j);
    }
  }

  lemma {:induction false} TakeBest(best: Option<SpreadChoice>, bi: int, bj: int, cs: seq<OptionContract>, i: nat,
                                    j: nat, chain: Chain, want: OptionType, asOf: int, maxDebit: int, sel: Selection,
                                    liq: Liquidity, m: Models)
    requires i < |cs| && j < |cs| && forall c | c in cs :: c.strike > 0
    requires BestSoFar(best, bi, bj, cs, i, j, chain, want, asOf, maxDebit, sel, liq, m)
    requires Feasible(cs[i], cs[j], chain, want, asOf, maxDebit, sel, liq, m) && cs[i].strike > 0
    requires best.None? || SpreadOf(cs[i], cs[j], want, m).fit > best.value.fit
    ensures BestSoFar(Some(SpreadOf(cs[i], cs[j], want, m)), i, j, cs, i, j + 1, chain, want, asOf, maxDebit,
                      sel, liq, m)
  {
    var choice := SpreadOf(cs[i], cs[j], want, m);
    forall p, q | 0 <= p < |cs| && 0 <= q < |cs| && Before(p, q, i, j + 1)
                  && Feasible(cs[p], cs[q], chain, want, asOf, maxDebit, sel, liq, m)
      ensures cs[p].strike > 0
      ensures if Before(p, q, i, j) then SpreadOf(cs[p], cs[q], want, m).fit < choice.fit
              else SpreadOf(cs[p], cs[q], want, m).fit <= choice.fit
    {
      assert Before(p, q, i, j) || (p == i && q == j);
    }
  }

  /** The body of the nested loops: one pair of legs. */
  method Consider(best: Option<SpreadChoice>, ghost bi: int, ghost bj: int, cs: seq<OptionContract>, i: nat, j: nat,
                  chain: Chain, want: OptionType, asOf: int, maxDebit: int, sel: Selection, liq: Liquidity, m: Models)
    returns (best': Option<SpreadChoice>, ghost bi': int, ghost bj': int)
    requires i < |cs| && j < |cs| && forall c | c in cs :: c.strike > 0
    requires BestSoFar(best, bi, bj, cs, i, j, chain, want, asOf, maxDebit, sel, liq, m)
    ensures BestSoFar(best', bi', bj', cs, i, j + 1, chain, want, asOf, maxDebit, sel, liq, m)
  {
    assert cs[i] in cs;
    if Feasible(cs[i], cs[j], chain, want, asOf, maxDebit, sel, liq, m) {
      var choice := SpreadOf(cs[i], cs[j], want, m);
      if best.None? || choice.fit > best.value.fit {
        TakeBest(best, bi, bj, cs, i, j, chain, want, asOf, maxDebit, sel, liq, m);
        return Some(choice), i, j;
      }
    }
    KeepBest(best, bi, bj, cs, i, j, chain, want, asOf, maxDebit, sel, liq, m);
    return best, bi, bj;
  }

  /** The search misses nothing: it returns none only when no pair is feasible, and
      otherwise a feasible pair that no feasible pair beats. */
  lemma {:induction false} VerticalIsBest(best: Option<SpreadChoice>, chain: Chain, direction: Direction, asOf: int,
                                          maxDebit: int, sel: Selection, liq: Liquidity, m: Models)
    requires forall c | c in chain.contracts :: c.strike > 0
    requires FirstBestVertical(best, chain, direction, asOf, maxDebit, sel, liq, m) && Wanted(direction).Some?
    ensures forall l, s | l in chain.contracts && s in chain.contracts
                          && Feasible(l, s, chain, Wanted(direction).value, asOf, maxDebit, sel, liq, m) ::
              best.Some? && SpreadOf(l, s, Wanted(direction).value, m).fit <= best.value.fit
    ensures best.Some? ==>
              && best.value.longLeg in chain.contracts && best.value.shortLeg in chain.contracts
              && Feasible(best.value.longLeg, best.value.shortLeg, chain, Wanted(direction).value, asOf, maxDebit,
                          sel, liq, m)
              && best.value == SpreadOf(best.value.longLeg, best.value.shortLeg, Wanted(direction).value, m)
  {
    var want, cs := Wanted(direction).value, chain.contracts;
    var bi, bj :| BestSoFar(best, bi, bj, cs, |cs|, 0, chain, want, asOf, maxDebit, sel, liq, m);
    forall l, s | l in cs && s in cs && Feasible(l, s, chain, want, asOf, maxDebit, sel, liq, m)
      ensures best.Some? && SpreadOf(l, s, want, m).fit <= best.value.fit
    {
      var p :| 0 <= p < |cs| && cs[p] == l;
      var q :| 0 <= q < |cs| && cs[q] == s;
      assert Before(p, q, |cs|, 0);
      assert Feasible(cs[p], cs[q], chain, want, asOf, maxDebit, sel, liq, m);
    }
  }
}
