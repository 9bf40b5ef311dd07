/** Choosing multi-leg structures from a chain (app/engine/contract_selection.py). */
module StructureSelection {
  import opened Basics
  import opened Seqs
  import opened OptionStructures
  import opened ContractSelection

  datatype StructureLeg = StructureLeg(contract: OptionContract, action: Action)

  datatype StructureChoice = StructureChoice(strategy: Strategy, stance: Direction, legs: seq<StructureLeg>,
                                             netDebit: int, maxLoss: int, maxProfit: Option<int>)

  function ExpiryKey(e: int, asOf: int, sel: Selection): int {
    Abs(2 * (e - asOf) - (sel.minDte + sel.maxDte))
  }

  /** An expiration in the window, as close to its middle as any. */
  ghost predicate MidExpiration(e: int, chain: Chain, asOf: int, sel: Selection) {
    && (exists c :: c in chain.contracts && DteOk(c, asOf, sel) && c.expiration == e)
    && (forall c | c in chain.contracts && DteOk(c, asOf, sel) ::
          ExpiryKey(e, asOf, sel) <= ExpiryKey(c.expiration, asOf, sel))
  }

  /** The expiration a selector works with: none exactly when none is in the window. */
  ghost predicate ExpirationChosen(e: Option<int>, chain: Chain, asOf: int, sel: Selection) {
    match e
    case None => forall c | c in chain.contracts :: !DteOk(c, asOf, sel)
    case Some(day) => MidExpiration(day, chain, asOf, sel)
  }

  /** `_choose_expiration`: an expiration in the window closest to its middle.
      Candidates are visited in an arbitrary order, as Python visits a set. */
  method ChooseExpiration(chain: Chain, asOf: int, sel: Selection) returns (e: Option<int>)
    ensures ExpirationChosen(e, chain, asOf, sel)
  {
    var all := set c | c in chain.contracts && DteOk(c, asOf, sel) :: c.expiration;
    var left := all;
    e := None;
    while left != {}
      invariant left <= all
      invariant e.None? ==> left == all
      invariant e.Some? ==> e.value in all
      invariant e.Some? ==> forall x | x in all - left :: ExpiryKey(e.value, asOf, sel) <= ExpiryKey(x, asOf, sel)
      decreases left
    {
      var x :| x in left;
      if e.None? || ExpiryKey(x, asOf, sel) < ExpiryKey(e.value, asOf, sel) {
        e := Some(x);
      }
      left := left - {x};
    }
    if e.None? {
      forall c | c in chain.contracts ensures !DteOk(c, asOf, sel) {
        assert DteOk(c, asOf, sel) ==> c.expiration in all;
      }
    } else {
      assert all - left == all;
      forall c | c in chain.contracts && DteOk(c, asOf, sel)
        ensures ExpiryKey(e.value, asOf, sel) <= ExpiryKey(c.expiration, asOf, sel)
      {
        assert c.expiration in all;
      }
    }
  }

  predicate DeltaCandidate(c: OptionContract, t: OptionType, exp: int, liq: Liquidity) {
    c.optionType == t && c.expiration == exp && c.delta.Some? && Liquid(c, liq)
  }

  function DeltaGap(c: OptionContract, target: real): real
    requires c.delta.Some?
  {
    AbsReal(AbsReal(c.delta.value) - target)
  }

  /** A liquid contract whose delta is as near the target as any. */
  ghost predicate NearestDelta(c: OptionContract, chain: Chain, t: OptionType, exp: int, target: real, liq: Liquidity) {
    && c in chain.contracts && DeltaCandidate(c, t, exp, liq)
    && forall d | d in chain.contracts && DeltaCandidate(d, t, exp, liq) :: DeltaGap(c, target) <= DeltaGap(d, target)
  }

  function DeltaKey(target: real): OptionContract -> real {
    (c: OptionContract) => AbsReal(AbsReal(if c.delta.Some? then c.delta.value else 0.0) - target)
  }

  function DeltaCandidates(chain: Chain, t: OptionType, exp: int, liq: Liquidity): seq<OptionContract> {
    Filter((c: OptionContract) => DeltaCandidate(c, t, exp, liq), chain.contracts)
  }

  /** `_liquid_by_delta`: the first liquid contract whose delta is nearest the target. */
  function LiquidByDelta(chain: Chain, t: OptionType, exp: int, target: real,
                         liq: Liquidity): (best: Option<OptionContract>)
    ensures best.Some? ==> DeltaCandidate(best.value, t, exp, liq)
  {
    FirstLeastIsLeast(DeltaKey(target), DeltaCandidates(chain, t, exp, liq));
    FirstLeast(DeltaKey(target), DeltaCandidates(chain, t, exp, liq))
  }

  /** It finds one whenever the chain has a candidate, and none is nearer. */
  lemma {:induction false} LiquidByDeltaIsNearest(chain: Chain, t: OptionType, exp: int, target: real, liq: Liquidity)
    ensures var best := LiquidByDelta(chain, t, exp, target, liq);
      && (best.None? <==> forall c | c in chain.contracts :: !DeltaCandidate(c, t, exp, liq))
      && (best.Some? ==> NearestDelta(best.value, chain, t, exp, target, liq))
  {
    FirstLeastIsLeast(DeltaKey(target), DeltaCandidates(chain, t, exp, liq));
  }

  function LegOf(sl: StructureLeg, lots: int): Leg {
    Leg(sl.contract.symbol, sl.action, sl.contract.optionType, sl.contract.strike, sl.contract.expiration,
        lots, if Mid(sl.contract).Some? then Mid(sl.contract).value else 0)
  }

  function LegsOf(sls: seq<StructureLeg>, lots: int): seq<Leg> {
    seq(|sls|, i requires 0 <= i < |sls| => LegOf(sls[i], lots))
  }

  /** The figures of a choice are those of its legs in so many lots. */
  ghost predicate FiguresHold(c: StructureChoice, lots: int) {
    var legs := LegsOf(c.legs, lots);
    && Structure(c.strategy, legs) && NetPerShare(legs) == c.netDebit
    && MaxLoss(c.strategy, legs) == c.maxLoss && MaxProfit(c.strategy, legs) == c.maxProfit
  }

  /** What every multi-leg choice promises: a recognised structure whose stated
      figures are those of its legs, with a positive risk within the cap, and sold for
      a credit if it is a credit structure. */
  ghost predicate ChoiceOk(c: StructureChoice, cap: int) {
    && (forall lots :: FiguresHold(c, lots))
    && 0 < c.maxLoss <= cap
    && (IsCredit(c.strategy) ==> c.netDebit < 0)
  }

  lemma {:induction false} PairFigures(strategy: Strategy, a: StructureLeg, b: StructureLeg, lots: int)
    ensures LegsOf([a, b], lots) == [LegOf(a, lots), LegOf(b, lots)]
    ensures NetPerShare(LegsOf([a, b], lots))
         == Signed(LegOf(a, lots), LegOf(a, lots).entryPrice) + Signed(LegOf(b, lots), LegOf(b, lots).entryPrice)
  {
    TwoLegs(LegOf(a, lots), LegOf(b, lots), 0);
  }

  /** The tail of the credit selector: price the pair and check its risk. */
  function CreditPair(direction: Direction, short: OptionContract, long: OptionContract,
                      maxRisk: int): Option<StructureChoice>
    requires Mid(short).Some? && Mid(long).Some?
  {
    if direction == Bullish && long.strike >= short.strike then None
    else if direction == Bearish && long.strike <= short.strike then None
    else
      var width := Abs(short.strike - long.strike);
      var credit := Mid(short).value - Mid(long).value;
      if credit <= 0 || width <= 0 then None
      else
        var maxLoss := width - credit;
        if maxLoss <= 0 || maxLoss > maxRisk then None
        else Some(StructureChoice(if direction == Bullish then BullPutSpread else BearCallSpread, direction,
                                  [StructureLeg(short, SellToOpen), StructureLeg(long, BuyToOpen)],
                                  -credit, maxLoss, Some(credit)))
  }

  lemma {:induction false} CreditLots(strategy: Strategy, short: OptionContract, long: OptionContract, lots: int)
    requires strategy == BullPutSpread || strategy == BearCallSpread
    requires Mid(short).Some? && Mid(long).Some? && short.expiration == long.expiration
    requires short.optionType == long.optionType == if strategy == BullPutSpread then Put else Call
    requires if strategy == BullPutSpread then long.strike < short.strike else short.strike < long.strike
    ensures var legs := LegsOf([StructureLeg(short, SellToOpen), StructureLeg(long, BuyToOpen)], lots);
      var credit := Mid(short).value - Mid(long).value;
      && Structure(strategy, legs) && NetPerShare(legs) == -credit
      && MaxLoss(strategy, legs) == Abs(short.strike - long.strike) - credit
      && MaxProfit(strategy, legs) == Some(credit)
  {
    PairFigures(strategy, StructureLeg(short, SellToOpen), StructureLeg(long, BuyToOpen), lots);
  }

  /** A chosen pair is a credit spread whose figures are its legs'. */
  lemma {:induction false} CreditPairOk(direction: Direction, short: OptionContract, long: OptionContract, maxRisk: int)
    requires direction == Bullish || direction == Bearish
    requires Mid(short).Some? && Mid(long).Some? && short.expiration == long.expiration
    requires short.optionType == long.optionType == if direction == Bullish then Put else Call
    ensures var r := CreditPair(direction, short, long, maxRisk);
      r.Some? ==> ChoiceOk(r.value, maxRisk) && r.value.netDebit < 0
  {
    if CreditPair(direction, short, long, maxRisk).Some? {
      var c := CreditPair(direction, short, long, maxRisk).value;
      forall lots ensures FiguresHold(c, lots) {
        CreditLots(if direction == Bullish then BullPutSpread else BearCallSpread, short, long, lots);
      }
    }
  }

  /** `select_credit_vertical` at an expiration: sell near a 30 delta, buy near a 15. */
  function CreditVerticalAt(chain: Chain, direction: Direction, exp: Option<int>, maxRisk: int,
                            liq: Liquidity): Option<StructureChoice> {
    if exp.None? || (direction != Bullish && direction != Bearish) then None
    else
      var t := if direction == Bullish then Put else Call;
      var short := LiquidByDelta(chain, t, exp.value, 0.30, liq);
      var long := LiquidByDelta(chain, t, exp.value, 0.15, liq);
      if short.None? || long.None? then None
      else CreditPair(direction, short.value, long.value, maxRisk)
  }

  lemma {:induction false} CreditVerticalOk(chain: Chain, direction: Direction, exp: Option<int>, maxRisk: int,
                                            liq: Liquidity)
    ensures var r := CreditVerticalAt(chain, direction, exp, maxRisk, liq);
      r.Some? ==> ChoiceOk(r.value, maxRisk) && r.value.netDebit < 0 && r.value.stance == direction
                  && r.value.strategy == if direction == Bullish then BullPutSpread else BearCallSpread
  {
    if exp.Some? && (direction == Bullish || direction == Bearish) {
      var t := if direction == Bullish then Put else Call;
      var short := LiquidByDelta(chain, t, exp.value, 0.30, liq);
      var long := LiquidByDelta(chain, t, exp.value, 0.15, liq);
      if short.Some? && long.Some? {
        CreditPairOk(direction, short.value, long.value, maxRisk);
      }
    }
  }

  predicate StrikeCandidate(c: OptionContract, t: OptionType, exp: int, liq: Liquidity) {
    c.optionType == t && c.expiration == exp && Liquid(c, liq)
  }

  function Calls(chain: Chain, exp: int, liq: Liquidity): seq<OptionContract> {
    Filter((c: OptionContract) => StrikeCandidate(c, Call, exp, liq), chain.contracts)
  }

  /** The first liquid call struck nearest the spot. */
  function NearestCall(chain: Chain, exp: int, spot: int, liq: Liquidity): Option<OptionContract> {
    FirstLeast((c: OptionContract) => Abs(c.strike - spot) as real, Calls(chain, exp, liq))
  }

  lemma {:induction false} NearestCallIsNearest(chain: Chain, exp: int, spot: int, liq: Liquidity)
    ensures var best := NearestCall(chain, exp, spot, liq);
      && (best.None? <==> forall c | c in chain.contracts :: !StrikeCandidate(c, Call, exp, liq))
      && (best.Some? ==> forall c | c in chain.contracts && StrikeCandidate(c, Call, exp, liq) ::
            Abs(best.value.strike - spot) <= Abs(c.strike - spot))
  {
    FirstLeastIsLeast((c: OptionContract) => Abs(c.strike - spot) as real, Calls(chain, exp, liq));
  }

  /** The first liquid contract of a type and expiration at exactly one strike. */
  function FirstAtStrike(chain: Chain, t: OptionType, exp: int, strike: int,
                         liq: Liquidity): (r: Option<OptionContract>)
    ensures r.None? <==> forall c | c in chain.contracts :: !(StrikeCandidate(c, t, exp, liq) && c.strike == strike)
    ensures r.Some? ==> r.value in chain.contracts && StrikeCandidate(r.value, t, exp, liq) && r.value.strike == strike
  {
    var found := Filter((c: OptionContract) => StrikeCandidate(c, t, exp, liq) && c.strike == strike, chain.contracts);
    if found == [] then None else assert found[0] in found; Some(found[0])
  }

  /** The tail shared by the two long-volatility selectors. */
  function LongVol(strategy: Strategy, call: OptionContract, put: OptionContract,
                   maxDebit: int): Option<StructureChoice>
    requires Mid(call).Some? && Mid(put).Some?
  {
    var debit := Mid(call).value + Mid(put).value;
    if debit <= 0 || debit > maxDebit then None
    else Some(StructureChoice(strategy, VolLong, [StructureLeg(call, BuyToOpen), StructureLeg(put, BuyToOpen)],
                              debit, debit, None))
  }

  lemma {:induction false} LongVolFigures(strategy: Strategy, call: OptionContract, put: OptionContract, lots: int)
    requires call.optionType == Call && put.optionType == Put && call.expiration == put.expiration
    requires Mid(call).Some? && Mid(put).Some?
    requires strategy == LongStrangle || (strategy == LongStraddle && call.strike == put.strike)
    ensures var legs := LegsOf([StructureLeg(call, BuyToOpen), StructureLeg(put, BuyToOpen)], lots);
      var debit := Mid(call).value + Mid(put).value;
      && Structure(strategy, legs) && NetPerShare(legs) == debit
      && MaxLoss(strategy, legs) == debit && MaxProfit(strategy, legs) == None
  {
    PairFigures(strategy, StructureLeg(call, BuyToOpen), StructureLeg(put, BuyToOpen), lots);
  }

  lemma {:induction false} LongVolOk(strategy: Strategy, call: OptionContract, put: OptionContract, maxDebit: int)
    requires call.optionType == Call && put.optionType == Put && call.expiration == put.expiration
    requires Mid(call).Some? && Mid(put).Some?
    requires strategy == LongStrangle || (strategy == LongStraddle && call.strike == put.strike)
    ensures var r := LongVol(strategy, call, put, maxDebit); r.Some? ==> ChoiceOk(r.value, maxDebit)
  {
    forall lots {
      LongVolFigures(strategy, call, put, lots);
    }
  }

  /** `select_straddle` at an expiration: call and put at the strike nearest the spot. */
  function StraddleAt(chain: Chain, exp: Option<int>, maxDebit: int, liq: Liquidity): Option<StructureChoice> {
    if exp.None? || chain.underlyingPrice.None? || chain.underlyingPrice.value == 0 then None
    else
      match NearestCall(chain, exp.value, chain.underlyingPrice.value, liq)
      case None => None
      case Some(nearest) =>
        var call := FirstAtStrike(chain, Call, exp.value, nearest.strike, liq);
        var put := FirstAtStrike(chain, Put, exp.value, nearest.strike, liq);
        if call.None? || put.None? then None
        else LongVol(LongStraddle, call.value, put.value, maxDebit)
  }

  lemma {:induction false} StraddleOk(chain: Chain, exp: Option<int>, maxDebit: int, liq: Liquidity)
    ensures var r := StraddleAt(chain, exp, maxDebit, liq);
      r.Some? ==>
        && ChoiceOk(r.value, maxDebit) && r.value.strategy == LongStraddle && r.value.stance == VolLong
        && chain.underlyingPrice.Some? && exp.Some?
        && forall c | c in chain.contracts && StrikeCandidate(c, Call, exp.value, liq) ::
             Abs(r.value.legs[0].contract.strike - chain.underlyingPrice.value)
             <= Abs(c.strike - chain.underlyingPrice.value)
  {
    if StraddleAt(chain, exp, maxDebit, liq).Some? {
      NearestCallIsNearest(chain, exp.value, chain.underlyingPrice.value, liq);
      var strike := NearestCall(chain, exp.value, chain.underlyingPrice.value, liq).value.strike;
      LongVolOk(LongStraddle, FirstAtStrike(chain, Call, exp.value, strike, liq).value,
                FirstAtStrike(chain, Put, exp.value, strike, liq).value, maxDebit);
    }
  }

  /** `select_strangle` at an expiration: call and put near a 30 delta. */
  function StrangleAt(chain: Chain, exp: Option<int>, maxDebit: int, liq: Liquidity): Option<StructureChoice> {
    if exp.None? then None
    else
      var call := LiquidByDelta(chain, Call, exp.value, 0.30, liq);
      var put := LiquidByDelta(chain, Put, exp.value, 0.30, liq);
      if call.None? || put.None? then None
      else LongVol(LongStrangle, call.value, put.value, maxDebit)
  }

  lemma {:induction false} StrangleOk(chain: Chain, exp: Option<int>, maxDebit: int, liq: Liquidity)
    ensures var r := StrangleAt(chain, exp, maxDebit, liq);
      r.Some? ==> ChoiceOk(r.value, maxDebit) && r.value.strategy == LongStrangle && r.value.stance == VolLong
  {
    if StrangleAt(chain, exp, maxDebit, liq).Some? {
      LongVolOk(LongStrangle, LiquidByDelta(chain, Call, exp.value, 0.30, liq).value,
                LiquidByDelta(chain, Put, exp.value, 0.30, liq).value, maxDebit);
    }
  }

  // ------------------------------------------------------- crossed strikes are selected

  /** A well traded contract quoted 1.99 to 2.01. */
  function Quoted(t: OptionType, strike: int, delta: real): OptionContract {
    OptionContract("X", 30, strike, t, Some(19900), Some(20100), None, None, Some(1000), Some(1000), Some(delta))
  }

  lemma {:induction false} QuotedIsLiquid(t: OptionType, strike: int, delta: real)
    ensures Mid(Quoted(t, strike, delta)) == Some(20000) && Liquid(Quoted(t, strike, delta), DEFAULT_LIQUIDITY)
  {
    RoundDivExact(20000, 2);
    assert SpreadPct(Quoted(t, strike, delta)) == Some(200.0 / 20000.0);
  }

  /** Nothing in the strangle selector looks at the strikes: from a chain whose 30-delta
      put is struck above its 30-delta call it returns a crossed strangle. */
  lemma {:induction false} CrossedStrangleIsSelected(maxDebit: int)
    requires maxDebit >= 40000
    ensures var call, put := Quoted(Call, 1000000, 0.30), Quoted(Put, 1100000, -0.30);
      var r := StrangleAt(Chain(Some(1050000), [call, put]), Some(30), maxDebit, DEFAULT_LIQUIDITY);
      && r.Some? && r.value.legs[0].contract == call && r.value.legs[1].contract == put
      && r.value.legs[0].contract.strike < r.value.legs[1].contract.strike
  {
    var call, put := Quoted(Call, 1000000, 0.30), Quoted(Put, 1100000, -0.30);
    var chain := Chain(Some(1050000), [call, put]);
    QuotedIsLiquid(Call, 1000000, 0.30);
    QuotedIsLiquid(Put, 1100000, -0.30);
    assert call in chain.contracts && put in chain.contracts;
    LiquidByDeltaIsNearest(chain, Call, 30, 0.30, DEFAULT_LIQUIDITY);
    LiquidByDeltaIsNearest(chain, Put, 30, 0.30, DEFAULT_LIQUIDITY);
  }

  lemma {:induction false} CondorFigures(sp: StructureLeg, lp: StructureLeg, sc: StructureLeg, lc: StructureLeg,
                                         lots: int)
    ensures LegsOf([sp, lp, sc, lc], lots) == [LegOf(sp, lots), LegOf(lp, lots), LegOf(sc, lots), LegOf(lc, lots)]
    ensures NetPerShare(LegsOf([sp, lp, sc, lc], lots))
         == Signed(LegOf(sp, lots), LegOf(sp, lots).entryPrice) + Signed(LegOf(lp, lots), LegOf(lp, lots).entryPrice)
          + Signed(LegOf(sc, lots), LegOf(sc, lots).entryPrice) + Signed(LegOf(lc, lots), LegOf(lc, lots).entryPrice)
  {
    FourLegs(LegOf(sp, lots), LegOf(lp, lots), LegOf(sc, lots), LegOf(lc, lots), 0);
  }

  /** The tail of the condor selector: price the four legs and check the risk. */
  function CondorOf(sp: OptionContract, lp: OptionContract, sc: OptionContract, lc: OptionContract,
                    maxRisk: int): Option<StructureChoice>
    requires Mid(sp).Some? && Mid(lp).Some? && Mid(sc).Some? && Mid(lc).Some?
  {
    if !(lp.strike < sp.strike < sc.strike < lc.strike) then None
    else
      var credit := (Mid(sp).value + Mid(sc).value) - (Mid(lp).value + Mid(lc).value);
      var width := Max(sp.strike - lp.strike, lc.strike - sc.strike);
      if credit <= 0 then None
      else
        var maxLoss := width - credit;
        if maxLoss <= 0 || maxLoss > maxRisk then None
        else Some(StructureChoice(IronCondor, VolShort,
                                  [StructureLeg(sp, SellToOpen), StructureLeg(lp, BuyToOpen),
                                   StructureLeg(sc, SellToOpen), StructureLeg(lc, BuyToOpen)],
                                  -credit, maxLoss, Some(credit)))
  }

  lemma {:induction false} CondorLots(sp: OptionContract, lp: OptionContract, sc: OptionContract, lc: OptionContract,
                                      lots: int)
    requires Mid(sp).Some? && Mid(lp).Some? && Mid(sc).Some? && Mid(lc).Some?
    requires sp.optionType == lp.optionType == Put && sc.optionType == lc.optionType == Call
    requires sp.expiration == lp.expiration == sc.expiration == lc.expiration
    requires lp.strike < sp.strike < sc.strike < lc.strike
    ensures var legs := LegsOf([StructureLeg(sp, SellToOpen), StructureLeg(lp, BuyToOpen),
                                StructureLeg(sc, SellToOpen), StructureLeg(lc, BuyToOpen)], lots);
      && Structure(IronCondor, legs)
      && NetPerShare(legs) == (Mid(lp).value + Mid(lc).value) - (Mid(sp).value + Mid(sc).value)
      && Width(IronCondor, legs) == Max(sp.strike - lp.strike, lc.strike - sc.strike)
  {
    CondorFigures(StructureLeg(sp, SellToOpen), StructureLeg(lp, BuyToOpen), StructureLeg(sc, SellToOpen),
                  StructureLeg(lc, BuyToOpen), lots);
  }

  lemma {:induction false} CondorFiguresHold(sp: OptionContract, lp: OptionContract, sc: OptionContract,
                                             lc: OptionContract, maxRisk: int, lots: int)
    requires Mid(sp).Some? && Mid(lp).Some? && Mid(sc).Some? && Mid(lc).Some?
    requires sp.optionType == lp.optionType == Put && sc.optionType == lc.optionType == Call
    requires sp.expiration == lp.expiration == sc.expiration == lc.expiration
    requires CondorOf(sp, lp, sc, lc, maxRisk).Some?
    ensures FiguresHold(CondorOf(sp, lp, sc, lc, maxRisk).value, lots)
  {
    CondorLots(sp, lp, sc, lc, lots);
  }

  lemma {:induction false} CondorOfOk(sp: OptionContract, lp: OptionContract, sc: OptionContract, lc: OptionContract,
                                      maxRisk: int)
    requires Mid(sp).Some? && Mid(lp).Some? && Mid(sc).Some? && Mid(lc).Some?
    requires sp.optionType == lp.optionType == Put && sc.optionType == lc.optionType == Call
    requires sp.expiration == lp.expiration == sc.expiration == lc.expiration
    ensures var r := CondorOf(sp, lp, sc, lc, maxRisk);
      r.Some? ==> ChoiceOk(r.value, maxRisk) && r.value.netDebit < 0
  {
    if CondorOf(sp, lp, sc, lc, maxRisk).Some? {
      var c := CondorOf(sp, lp, sc, lc, maxRisk).value;
      forall lots ensures FiguresHold(c, lots) {
        CondorFiguresHold(sp, lp, sc, lc, maxRisk, lots);
      }
    }
  }

  /** `select_iron_condor` at an expiration: sell near 20 deltas, buy near 10 deltas. */
  function CondorAt(chain: Chain, exp: Option<int>, maxRisk: int, liq: Liquidity): Option<StructureChoice> {
    if exp.None? then None
    else
      var sp := LiquidByDelta(chain, Put, exp.value, 0.20, liq);
      var lp := LiquidByDelta(chain, Put, exp.value, 0.10, liq);
      var sc := LiquidByDelta(chain, Call, exp.value, 0.20, liq);
      var lc := LiquidByDelta(chain, Call, exp.value, 0.10, liq);
      if sp.None? || lp.None? || sc.None? || lc.None? then None
      else CondorOf(sp.value, lp.value, sc.value, lc.value, maxRisk)
  }

  lemma {:induction false} CondorOk(chain: Chain, exp: Option<int>, maxRisk: int, liq: Liquidity)
    ensures var r := CondorAt(chain, exp, maxRisk, liq);
      r.Some? ==> ChoiceOk(r.value, maxRisk) && r.value.netDebit < 0
                  && r.value.strategy == IronCondor && r.value.stance == VolShort
  {
    if CondorAt(chain, exp, maxRisk, liq).Some? {
      CondorOfOk(LiquidByDelta(chain, Put, exp.value, 0.20, liq).value,
                 LiquidByDelta(chain, Put, exp.value, 0.10, liq).value,
                 LiquidByDelta(chain, Call, exp.value, 0.20, liq).value,
                 LiquidByDelta(chain, Call, exp.value, 0.10, liq).value,
                 maxRisk);
    }
  }
}
