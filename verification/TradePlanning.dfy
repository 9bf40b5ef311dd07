/** Sizing, plan construction and strategy choice (app/risk/policy.py,
    app/risk/position_sizing.py, app/risk/trade_plan.py,
    app/engine/strategy_selector.py). Dollar amounts are whole cents. */
module TradePlanning {
  import opened Basics
  import opened OptionStructures
  import opened ContractSelection
  import opened StructureSelection

  datatype RiskPolicy = RiskPolicy(
    equity: real, maxAccountRiskPct: real, maxTradeRiskPct: real, maxDefinedRisk: real,
    maxContracts: int, profitTargetPct: real, stopLossPct: real, timeStopDte: int)

  /** The ranges the policy model enforces on its fields. */
  ghost predicate PolicyOk(p: RiskPolicy) {
    && p.equity > 0.0 && 0.0 < p.maxAccountRiskPct <= 1.0 && 0.0 < p.maxTradeRiskPct <= 1.0
    && p.maxDefinedRisk > 0.0 && p.maxContracts >= 1
  }

  /** `round(x, 2)` of a dollar amount, as cents. */
  function Cents(x: real): int {
    NearestInt(x * 100.0)
  }

  function TradeCap(p: RiskPolicy): int {
    Cents(MinReal(p.equity * p.maxTradeRiskPct, p.maxDefinedRisk))
  }

  function AccountCap(p: RiskPolicy): int {
    Cents(p.equity * p.maxAccountRiskPct)
  }

  // --------------------------------------------------------------------- sizing

  datatype Sizing = Sizing(contracts: int, maxLoss: int, perContractRisk: int, accountRiskPct: real,
                           cappedReason: Option<string>)

  /** Dollars a new trade may put at risk. */
  function EffectiveCap(p: RiskPolicy, openRisk: int): int {
    Min(TradeCap(p), Max(0, AccountCap(p) - openRisk))
  }

  /** `size_by_defined_risk` */
  function Size(risk: int, p: RiskPolicy, openRisk: int): (s: Sizing)
    requires PolicyOk(p)
    ensures s.perContractRisk == risk && s.maxLoss == s.contracts * risk
  {
    if risk <= 0 then Sizing(0, 0, risk, 0.0, Some("invalid_per_contract_risk"))
    else
      var cap := EffectiveCap(p, openRisk);
      if cap < risk then
        Sizing(0, 0, risk, 0.0,
               Some(if Max(0, AccountCap(p) - openRisk) < TradeCap(p) then "account_cap_exhausted"
                    else "single_contract_exceeds_trade_cap"))
      else
        var fit := cap / risk;
        var n := if fit > p.maxContracts then p.maxContracts else fit;
        var reason := if fit > p.maxContracts then Some("contract_count_cap")
                      else if fit * risk + risk > cap then Some("risk_cap")
                      else None;
        Sizing(n, n * risk, risk, RoundTo((n * risk) as real / 100.0 / p.equity, 10000), reason)
  }

  /** The largest allowed position: it is within every cap and one more contract
      would break the risk cap or the count cap. */
  ghost predicate LargestAllowed(n: int, risk: int, p: RiskPolicy, openRisk: int) {
    && risk > 0 && 1 <= n <= p.maxContracts
    && n * risk <= EffectiveCap(p, openRisk)
    && ((n + 1) * risk > EffectiveCap(p, openRisk) || n == p.maxContracts)
  }

  /** Sizing trades exactly when one contract fits, and then trades the most allowed. */
  lemma {:induction false} SizingIsMaximal(risk: int, p: RiskPolicy, openRisk: int)
    requires PolicyOk(p)
    ensures var s := Size(risk, p, openRisk);
      && (s.contracts >= 1 <==> 0 < risk <= EffectiveCap(p, openRisk))
      && (s.contracts >= 1 ==> LargestAllowed(s.contracts, risk, p, openRisk))
      && (s.contracts < 1 ==> s.contracts == 0)
  {
    var cap := EffectiveCap(p, openRisk);
    if 0 < risk <= cap {
      var fit := cap / risk;
      assert fit * risk <= cap < fit * risk + risk;
      CappedCount(fit, p.maxContracts, risk, cap);
    }
  }

  lemma {:induction false} CappedCount(fit: int, most: int, risk: int, cap: int)
    requires risk > 0 && most >= 1 && risk <= cap && fit * risk <= cap < fit * risk + risk
    ensures fit >= 1
    ensures var n := if fit > most then most else fit;
      n * risk <= cap && (n + 1) * risk == n * risk + risk && (n == most || n == fit)
  {
    assert fit <= 0 ==> fit * risk <= 0;
    if fit > most {
      assert fit * risk == most * risk + (fit - most) * risk;
      assert (fit - most) * risk >= 0;
    }
  }

  // ---------------------------------------------------------------------- plans

  datatype RiskPlan = RiskPlan(maxLoss: int, maxProfit: Option<int>, breakeven: Option<int>, accountRiskPct: real,
                               profitTargetPct: real, stopLossPct: real, timeStopDte: Option<int>)

  datatype TradePlan = TradePlan(direction: Direction, strategy: Strategy, legs: seq<Leg>, netDebit: int,
                                 contracts: int, risk: RiskPlan)

  /** `build_long_option_plan` */
  function LongOptionPlan(c: OptionContract, d: Direction, p: RiskPolicy, openRisk: int): Option<TradePlan>
    requires PolicyOk(p)
  {
    if Mid(c).None? || Mid(c).value <= 0 then None
    else
      var mid := Mid(c).value;
      var s := Size(mid, p, openRisk);
      if s.contracts < 1 then None
      else Some(TradePlan(d, if d == Bullish then LongCall else LongPut,
                          [LegOf(StructureLeg(c, BuyToOpen), s.contracts)], mid, s.contracts,
                          RiskPlan(s.maxLoss, None,
                                   Some(ToCent(if d == Bullish then c.strike + mid else c.strike - mid)),
                                   s.accountRiskPct, p.profitTargetPct, p.stopLossPct, Some(p.timeStopDte))))
  }

  /** `build_vertical_spread_plan` */
  function VerticalPlan(sc: SpreadChoice, d: Direction, p: RiskPolicy, openRisk: int): Option<TradePlan>
    requires PolicyOk(p)
  {
    var s := Size(sc.maxLoss, p, openRisk);
    if s.contracts < 1 then None
    else
      var k := sc.longLeg.strike;
      Some(TradePlan(d, if d == Bullish then BullCallSpread else BearPutSpread,
                     LegsOf([StructureLeg(sc.longLeg, BuyToOpen), StructureLeg(sc.shortLeg, SellToOpen)], s.contracts),
                     sc.maxLoss, s.contracts,
                     RiskPlan(s.maxLoss, Some(sc.maxProfit * s.contracts),
                              Some(ToCent(if d == Bullish then k + sc.netDebit else k - sc.netDebit)),
                              s.accountRiskPct, p.profitTargetPct, p.stopLossPct, Some(p.timeStopDte))))
  }

  /** `build_structure_plan` */
  function StructurePlan(c: StructureChoice, p: RiskPolicy, openRisk: int): Option<TradePlan>
    requires PolicyOk(p)
  {
    var s := Size(c.maxLoss, p, openRisk);
    if s.contracts < 1 then None
    else
      Some(TradePlan(c.stance, c.strategy, LegsOf(c.legs, s.contracts), c.netDebit, s.contracts,
                     RiskPlan(s.maxLoss, if c.maxProfit.Some? then Some(c.maxProfit.value * s.contracts) else None,
                              None, s.accountRiskPct, p.profitTargetPct, p.stopLossPct, Some(p.timeStopDte))))
  }

  // ---------------------------------------------------------- what a plan promises

  /** Gross expiry profit of the whole position in cents: the gross part of
      `settle_at_expiry` with the plan's own net as entry. */
  function GrossAtExpiry(plan: TradePlan, close: int): int {
    (ValueAt(plan.legs, close) - NetPerShare(plan.legs)) * plan.contracts
  }

  /** The plan's figures are those of its structure times its size. */
  ghost predicate FiguresOk(plan: TradePlan) {
    && Structure(plan.strategy, plan.legs)
    && plan.contracts >= 1
    && plan.netDebit == NetPerShare(plan.legs)
    && plan.risk.maxLoss == MaxLoss(plan.strategy, plan.legs) * plan.contracts
    && plan.risk.maxProfit == match MaxProfit(plan.strategy, plan.legs)
                              { case None => None case Some(v) => Some(v * plan.contracts) }
  }

  ghost predicate PlanOk(plan: TradePlan, p: RiskPolicy, openRisk: int) {
    && FiguresOk(plan)
    && LargestAllowed(plan.contracts, MaxLoss(plan.strategy, plan.legs), p, openRisk)
    && (IsCredit(plan.strategy) ==> plan.netDebit < 0)
  }

  lemma {:induction false} ScaledBounds(x: int, lo: int, n: int)
    requires n >= 0 && x >= lo
    ensures x * n >= lo * n
  {
    assert x * n - lo * n == (x - lo) * n;
  }

  /** End to end: wherever the underlying closes, the plan's gross result lies
      between minus its stated maximum loss and its stated maximum profit; and
      its loss is within the per-trade cap and what the account has left. */
  lemma {:induction false} PlanIsDefinedRisk(plan: TradePlan, p: RiskPolicy, openRisk: int, close: int)
    requires PlanOk(plan, p, openRisk)
    ensures GrossAtExpiry(plan, close) >= -plan.risk.maxLoss
    ensures plan.risk.maxProfit.Some? ==> GrossAtExpiry(plan, close) <= plan.risk.maxProfit.value
    ensures plan.risk.maxLoss <= TradeCap(p)
    ensures plan.risk.maxLoss > 0 && openRisk + plan.risk.maxLoss <= AccountCap(p)
  {
    ScaledBounds(MaxLoss(plan.strategy, plan.legs), 1, plan.contracts);
    ProfitIsBounded(plan.strategy, plan.legs, close);
    var loss := MaxLoss(plan.strategy, plan.legs);
    ScaledBounds(ProfitAt(plan.legs, close), -loss, plan.contracts);
    assert -loss * plan.contracts == -(loss * plan.contracts);
    if MaxProfit(plan.strategy, plan.legs).Some? {
      ScaledBounds(MaxProfit(plan.strategy, plan.legs).value, ProfitAt(plan.legs, close), plan.contracts);
    }
  }

  /** And the stated loss is no overstatement: some close realises it in full. */
  lemma {:induction false} PlanLossIsTight(plan: TradePlan)
    requires FiguresOk(plan) && forall i | 0 <= i < |plan.legs| :: plan.legs[i].strike >= 0
    requires plan.strategy == LongStrangle ==> plan.legs[1].strike <= plan.legs[0].strike
    ensures exists close :: close >= 0 && GrossAtExpiry(plan, close) == -plan.risk.maxLoss
  {
    WorstCaseAttained(plan.strategy, plan.legs);
    var close := WorstClose(plan.strategy, plan.legs);
    var loss := MaxLoss(plan.strategy, plan.legs);
    assert -loss * plan.contracts == -(loss * plan.contracts);
    assert GrossAtExpiry(plan, close) == -plan.risk.maxLoss;
  }

  lemma {:induction false} LongFigures(c: OptionContract, d: Direction, lots: int)
    requires Wanted(d) == Some(c.optionType) && Mid(c).Some?
    ensures var legs, s := [LegOf(StructureLeg(c, BuyToOpen), lots)], StrategyFor(LongOption, d);
      && Structure(s, legs) && NetPerShare(legs) == Mid(c).value
      && MaxLoss(s, legs) == Mid(c).value && MaxProfit(s, legs) == None
  {
    OneLeg(LegOf(StructureLeg(c, BuyToOpen), lots), 0);
  }

  lemma {:induction false} LongOptionPlanOk(c: OptionContract, d: Direction, p: RiskPolicy, openRisk: int)
    requires PolicyOk(p) && Wanted(d) == Some(c.optionType)
    ensures var r := LongOptionPlan(c, d, p, openRisk);
      r.Some? ==> PlanOk(r.value, p, openRisk) && r.value.strategy == StrategyFor(LongOption, d)
  {
    if Mid(c).Some? && Mid(c).value > 0 {
      var mid := Mid(c).value;
      SizingIsMaximal(mid, p, openRisk);
      LongFigures(c, d, Size(mid, p, openRisk).contracts);
    }
  }

  /** The figures of a chosen pair are those of its legs in so many lots. */
  ghost predicate VerticalFiguresHold(sc: SpreadChoice, d: Direction, lots: int) {
    var legs := LegsOf([StructureLeg(sc.longLeg, BuyToOpen), StructureLeg(sc.shortLeg, SellToOpen)], lots);
    var s := StrategyFor(DebitVertical, d);
    && Structure(s, legs) && NetPerShare(legs) == sc.maxLoss
    && MaxLoss(s, legs) == sc.maxLoss && MaxProfit(s, legs) == Some(sc.maxProfit)
  }

  lemma {:induction false} VerticalFigures(sc: SpreadChoice, d: Direction, lots: int, m: Models)
    requires Wanted(d).Some?
    requires var want := Wanted(d).value;
      && sc.longLeg.optionType == sc.shortLeg.optionType == want
      && sc.longLeg.expiration == sc.shortLeg.expiration && FurtherOut(want, sc.longLeg, sc.shortLeg)
      && Mid(sc.longLeg).Some? && Mid(sc.shortLeg).Some? && Debit(sc.longLeg, sc.shortLeg) > 0
      && sc.longLeg.strike != 0 && sc == SpreadOf(sc.longLeg, sc.shortLeg, want, m)
    ensures VerticalFiguresHold(sc, d, lots)
  {
    PairFigures(BullCallSpread, StructureLeg(sc.longLeg, BuyToOpen), StructureLeg(sc.shortLeg, SellToOpen), lots);
  }

  lemma {:induction false} VerticalPlanOk(sc: SpreadChoice, d: Direction, p: RiskPolicy, openRisk: int, m: Models)
    requires PolicyOk(p) && Wanted(d).Some?
    requires var want := Wanted(d).value;
      && sc.longLeg.optionType == sc.shortLeg.optionType == want
      && sc.longLeg.expiration == sc.shortLeg.expiration && FurtherOut(want, sc.longLeg, sc.shortLeg)
      && Mid(sc.longLeg).Some? && Mid(sc.shortLeg).Some? && Debit(sc.longLeg, sc.shortLeg) > 0
      && sc.longLeg.strike != 0 && sc == SpreadOf(sc.longLeg, sc.shortLeg, want, m)
    ensures var r := VerticalPlan(sc, d, p, openRisk);
      r.Some? ==> PlanOk(r.value, p, openRisk) && r.value.strategy == StrategyFor(DebitVertical, d)
  {
    VerticalFigures(sc, d, Size(sc.maxLoss, p, openRisk).contracts, m);
    SizedVerticalOk(sc, d, p, openRisk);
  }

  lemma {:induction false} SizedVerticalOk(sc: SpreadChoice, d: Direction, p: RiskPolicy, openRisk: int)
    requires PolicyOk(p) && Wanted(d).Some? && VerticalFiguresHold(sc, d, Size(sc.maxLoss, p, openRisk).contracts)
    ensures var r := VerticalPlan(sc, d, p, openRisk);
      r.Some? ==> PlanOk(r.value, p, openRisk) && r.value.strategy == StrategyFor(DebitVertical, d)
  {
    SizingIsMaximal(sc.maxLoss, p, openRisk);
  }

  lemma {:induction false} StructurePlanOk(c: StructureChoice, cap: int, p: RiskPolicy, openRisk: int)
    requires PolicyOk(p) && ChoiceOk(c, cap)
    ensures var r := StructurePlan(c, p, openRisk);
      r.Some? ==> PlanOk(r.value, p, openRisk) && r.value.strategy == c.strategy && r.value.direction == c.stance
  {
    var s := Size(c.maxLoss, p, openRisk);
    SizingIsMaximal(c.maxLoss, p, openRisk);
    assert FiguresHold(c, s.contracts);
  }

  // ------------------------------------------------------------- strategy choice

  datatype Attempt = DebitVertical | LongOption | CreditVertical | Condor | Straddle | Strangle

  const IV_HIGH := 0.50
  const IV_LOW := 0.35

  /** The structures tried, in order, for a thesis and a volatility regime. */
  function Attempts(d: Direction, ivRank: Option<real>, hasCatalyst: bool): seq<Attempt> {
    var highIv := ivRank.Some? && ivRank.value >= IV_HIGH;
    var lowIv := ivRank.Some? && ivRank.value <= IV_LOW;
    match d
    case Bullish | Bearish =>
      if highIv then [CreditVertical, DebitVertical, LongOption] else [DebitVertical, LongOption, CreditVertical]
    case Neutral => if highIv then [Condor] else if lowIv && hasCatalyst then [Strangle, Straddle] else []
    case _ => []
  }

  /** The structure an attempt builds for a directional thesis. */
  function StrategyFor(a: Attempt, d: Direction): Strategy {
    match a
    case DebitVertical => if d == Bullish then BullCallSpread else BearPutSpread
    case LongOption => if d == Bullish then LongCall else LongPut
    case CreditVertical => if d == Bullish then BullPutSpread else BearCallSpread
    case Condor => IronCondor
    case Straddle => LongStraddle
    case Strangle => LongStrangle
  }

  /** The view an attempt's plan takes: the thesis, or a view on volatility. */
  function StanceFor(a: Attempt, d: Direction): Direction {
    match a
    case Condor => VolShort
    case Straddle | Strangle => VolLong
    case _ => d
  }

  /** A plan built for a bullish thesis never earns less on a higher close, one
      built for a bearish thesis never earns less on a lower close, and a neutral
      plan is never a directional structure. */
  lemma {:induction false} PlanExpressesThesis(a: Attempt, d: Direction, ivRank: Option<real>, hasCatalyst: bool,
                                               legs: seq<Leg>, low: int, high: int)
    requires a in Attempts(d, ivRank, hasCatalyst) && Structure(StrategyFor(a, d), legs) && low <= high
    ensures d == Bullish ==> ProfitAt(legs, low) <= ProfitAt(legs, high)
    ensures d == Bearish ==> ProfitAt(legs, high) <= ProfitAt(legs, low)
    ensures d != Bullish && d != Bearish ==> StrategyFor(a, d) in {IronCondor, LongStraddle, LongStrangle}
  {
    StructureValue(StrategyFor(a, d), legs, low);
    StructureValue(StrategyFor(a, d), legs, high);
  }

  function VerticalPlanOf(c: Option<SpreadChoice>, d: Direction, p: RiskPolicy, openRisk: int): Option<TradePlan>
    requires PolicyOk(p)
  {
    if c.Some? then VerticalPlan(c.value, d, p, openRisk) else None
  }

  function LongPlanOf(c: Option<ContractChoice>, d: Direction, p: RiskPolicy, openRisk: int): Option<TradePlan>
    requires PolicyOk(p)
  {
    if c.Some? then LongOptionPlan(c.value.contract, d, p, openRisk) else None
  }

  function StructurePlanOf(c: Option<StructureChoice>, p: RiskPolicy, openRisk: int): Option<TradePlan>
    requires PolicyOk(p)
  {
    if c.Some? then StructurePlan(c.value, p, openRisk) else None
  }

  /** The multi-leg choice of an attempt at an expiration. */
  function ChoiceAt(a: Attempt, chain: Chain, d: Direction, exp: Option<int>, cap: int): Option<StructureChoice> {
    match a
    case CreditVertical => CreditVerticalAt(chain, d, exp, cap, DEFAULT_LIQUIDITY)
    case Condor => CondorAt(chain, exp, cap, DEFAULT_LIQUIDITY)
    case Straddle => StraddleAt(chain, exp, cap, DEFAULT_LIQUIDITY)
    case Strangle => StrangleAt(chain, exp, cap, DEFAULT_LIQUIDITY)
    case _ => None
  }

  predicate Expresses(a: Attempt, d: Direction, plan: TradePlan) {
    plan.strategy == StrategyFor(a, d) && plan.direction == StanceFor(a, d)
  }

  /** What one attempt yields: its selector's choice, sized and written as a plan. Which
      of two equally central expirations is taken is the only thing left open. */
  ghost predicate Attempted(a: Attempt, chain: Chain, d: Direction, p: RiskPolicy, asOf: int, openRisk: int, m: Models,
                            r: Option<TradePlan>)
    requires PolicyOk(p) && forall c | c in chain.contracts :: c.strike > 0
  {
    var cap := EffectiveCap(p, openRisk);
    match a
    case DebitVertical =>
      exists c :: FirstBestVertical(c, chain, d, asOf, cap, DEFAULT_SELECTION, DEFAULT_LIQUIDITY, m)
                  && r == VerticalPlanOf(c, d, p, openRisk)
    case LongOption =>
      exists c :: FirstBestLong(c, chain, d, asOf, DEFAULT_SELECTION, DEFAULT_LIQUIDITY, None, m)
                  && r == LongPlanOf(c, d, p, openRisk)
    case _ =>
      exists e :: ExpirationChosen(e, chain, asOf, DEFAULT_SELECTION)
                  && r == StructurePlanOf(ChoiceAt(a, chain, d, e, cap), p, openRisk)
  }

  method TryAttempt(a: Attempt, chain: Chain, d: Direction, p: RiskPolicy, asOf: int, openRisk: int, maxRisk: int,
                    m: Models) returns (r: Option<TradePlan>)
    requires PolicyOk(p) && maxRisk == EffectiveCap(p, openRisk) && forall c | c in chain.contracts :: c.strike > 0
    ensures Attempted(a, chain, d, p, asOf, openRisk, m, r)
  {
    var sel, liq := DEFAULT_SELECTION, DEFAULT_LIQUIDITY;
    match a
    case DebitVertical =>
      var c := SelectVertical(chain, d, asOf, maxRisk, sel, liq, m);
      r := VerticalPlanOf(c, d, p, openRisk);
    case LongOption =>
      var c := SelectLong(chain, d, asOf, sel, liq, None, m);
      r := LongPlanOf(c, d, p, openRisk);
    case CreditVertical =>
      var e := ChooseExpiration(chain, asOf, sel);
      r := StructurePlanOf(CreditVerticalAt(chain, d, e, maxRisk, liq), p, openRisk);
      assert r == StructurePlanOf(ChoiceAt(a, chain, d, e, maxRisk), p, openRisk);
    case Condor =>
      var e := ChooseExpiration(chain, asOf, sel);
      r := StructurePlanOf(CondorAt(chain, e, maxRisk, liq), p, openRisk);
      assert r == StructurePlanOf(ChoiceAt(a, chain, d, e, maxRisk), p, openRisk);
    case Straddle =>
      var e := ChooseExpiration(chain, asOf, sel);
      r := StructurePlanOf(StraddleAt(chain, e, maxRisk, liq), p, openRisk);
      assert r == StructurePlanOf(ChoiceAt(a, chain, d, e, maxRisk), p, openRisk);
    case Strangle =>
      var e := ChooseExpiration(chain, asOf, sel);
      r := StructurePlanOf(StrangleAt(chain, e, maxRisk, liq), p, openRisk);
      assert r == StructurePlanOf(ChoiceAt(a, chain, d, e, maxRisk), p, openRisk);
  }

  lemma {:induction false} ChoiceAtOk(a: Attempt, chain: Chain, d: Direction, exp: Option<int>, cap: int)
    ensures var c := ChoiceAt(a, chain, d, exp, cap);
      c.Some? ==> ChoiceOk(c.value, cap) && c.value.strategy == StrategyFor(a, d) && c.value.stance == StanceFor(a, d)
  {
    match a
    case CreditVertical => CreditVerticalOk(chain, d, exp, cap, DEFAULT_LIQUIDITY);
    case Condor => CondorOk(chain, exp, cap, DEFAULT_LIQUIDITY);
    case Straddle => StraddleOk(chain, exp, cap, DEFAULT_LIQUIDITY);
    case Strangle => StrangleOk(chain, exp, cap, DEFAULT_LIQUIDITY);
    case _ =>
  }

  lemma {:induction false} VerticalAttempt(chain: Chain, d: Direction, p: RiskPolicy, asOf: int, openRisk: int,
                                           m: Models, c: Option<SpreadChoice>)
    requires PolicyOk(p) && forall c | c in chain.contracts :: c.strike > 0
    requires FirstBestVertical(c, chain, d, asOf, EffectiveCap(p, openRisk), DEFAULT_SELECTION, DEFAULT_LIQUIDITY, m)
    ensures var r := VerticalPlanOf(c, d, p, openRisk);
      && (r.Some? <==> c.Some?)
      && (r.Some? ==> PlanOk(r.value, p, openRisk) && Expresses(DebitVertical, d, r.value))
  {
    if c.Some? {
      VerticalIsBest(c, chain, d, asOf, EffectiveCap(p, openRisk), DEFAULT_SELECTION, DEFAULT_LIQUIDITY, m);
      VerticalPlanOk(c.value, d, p, openRisk, m);
      SizingIsMaximal(c.value.maxLoss, p, openRisk);
    }
  }

  lemma {:induction false} LongAttempt(chain: Chain, d: Direction, p: RiskPolicy, asOf: int, openRisk: int, m: Models,
                                       c: Option<ContractChoice>)
    requires PolicyOk(p)
    requires FirstBestLong(c, chain, d, asOf, DEFAULT_SELECTION, DEFAULT_LIQUIDITY, None, m)
    ensures var r := LongPlanOf(c, d, p, openRisk);
      && (r.Some? <==> c.Some? && Mid(c.value.contract).Some?
                       && 0 < Mid(c.value.contract).value <= EffectiveCap(p, openRisk))
      && (r.Some? ==> PlanOk(r.value, p, openRisk) && Expresses(LongOption, d, r.value))
  {
    if c.Some? {
      LongOptionPlanOk(c.value.contract, d, p, openRisk);
      if Mid(c.value.contract).Some? {
        SizingIsMaximal(Mid(c.value.contract).value, p, openRisk);
      }
    }
  }

  lemma {:induction false} StructureAttempt(a: Attempt, chain: Chain, d: Direction, p: RiskPolicy, openRisk: int,
                                            exp: Option<int>)
    requires PolicyOk(p)
    ensures var c := ChoiceAt(a, chain, d, exp, EffectiveCap(p, openRisk));
      var r := StructurePlanOf(c, p, openRisk);
      && (r.Some? <==> c.Some?)
      && (r.Some? ==> PlanOk(r.value, p, openRisk) && Expresses(a, d, r.value))
  {
    var cap := EffectiveCap(p, openRisk);
    var c := ChoiceAt(a, chain, d, exp, cap);
    ChoiceAtOk(a, chain, d, exp, cap);
    if c.Some? {
      StructurePlanOk(c.value, cap, p, openRisk);
      SizingIsMaximal(c.value.maxLoss, p, openRisk);
    }
  }

  /** Whatever an attempt yields is a plan with every promised figure. */
  lemma {:induction false} AttemptedPlanOk(a: Attempt, chain: Chain, d: Direction, p: RiskPolicy, asOf: int,
                                           openRisk: int, m: Models, r: Option<TradePlan>)
    requires PolicyOk(p) && forall c | c in chain.contracts :: c.strike > 0
    requires Attempted(a, chain, d, p, asOf, openRisk, m, r) && r.Some?
    ensures PlanOk(r.value, p, openRisk) && Expresses(a, d, r.value)
  {
    var cap := EffectiveCap(p, openRisk);
    match a
    case DebitVertical =>
      var c :| FirstBestVertical(c, chain, d, asOf, cap, DEFAULT_SELECTION, DEFAULT_LIQUIDITY, m)
               && r == VerticalPlanOf(c, d, p, openRisk);
      VerticalAttempt(chain, d, p, asOf, openRisk, m, c);
    case LongOption =>
      var c :| FirstBestLong(c, chain, d, asOf, DEFAULT_SELECTION, DEFAULT_LIQUIDITY, None, m)
               && r == LongPlanOf(c, d, p, openRisk);
      LongAttempt(chain, d, p, asOf, openRisk, m, c);
    case _ =>
      var e :| ExpirationChosen(e, chain, asOf, DEFAULT_SELECTION)
               && r == StructurePlanOf(ChoiceAt(a, chain, d, e, cap), p, openRisk);
      StructureAttempt(a, chain, d, p, openRisk, e);
  }

  /** No affordable debit vertical is passed over: the attempt fails exactly when the
      thesis has no direction or no pair of contracts is feasible within the cap. */
  lemma {:induction false} DebitVerticalFailsExactly(chain: Chain, d: Direction, p: RiskPolicy, asOf: int,
                                                     openRisk: int, m: Models, r: Option<TradePlan>)
    requires PolicyOk(p) && forall c | c in chain.contracts :: c.strike > 0
    requires Attempted(DebitVertical, chain, d, p, asOf, openRisk, m, r)
    ensures r.None? <==>
              Wanted(d).None?
              || forall l, s | l in chain.contracts && s in chain.contracts ::
                   !Feasible(l, s, chain, Wanted(d).value, asOf, EffectiveCap(p, openRisk), DEFAULT_SELECTION,
                             DEFAULT_LIQUIDITY, m)
  {
    var cap := EffectiveCap(p, openRisk);
    var c :| FirstBestVertical(c, chain, d, asOf, cap, DEFAULT_SELECTION, DEFAULT_LIQUIDITY, m)
             && r == VerticalPlanOf(c, d, p, openRisk);
    VerticalAttempt(chain, d, p, asOf, openRisk, m, c);
    if Wanted(d).Some? {
      VerticalIsBest(c, chain, d, asOf, cap, DEFAULT_SELECTION, DEFAULT_LIQUIDITY, m);
    }
  }

  /** The outcome of the attempts made so far: all but the last failed. */
  ghost predicate TriedInOrder(tried: seq<Option<TradePlan>>, attempts: seq<Attempt>, chain: Chain, d: Direction,
                               p: RiskPolicy, asOf: int, openRisk: int, m: Models)
    requires PolicyOk(p) && forall c | c in chain.contracts :: c.strike > 0
  {
    && |tried| <= |attempts|
    && (forall i | 0 <= i < |tried| :: Attempted(attempts[i], chain, d, p, asOf, openRisk, m, tried[i]))
    && (forall i | 0 <= i < |tried| - 1 :: tried[i].None?)
  }

  /** Everything a returned plan promises: a recognised structure of the largest size
      allowed, a loss within both risk caps, and an expiry result that never leaves the
      stated bounds wherever the underlying closes. */
  ghost predicate Promised(plan: TradePlan, p: RiskPolicy, openRisk: int) {
    && PlanOk(plan, p, openRisk)
    && 0 < plan.risk.maxLoss <= TradeCap(p)
    && openRisk + plan.risk.maxLoss <= AccountCap(p)
    && forall close ::
         && GrossAtExpiry(plan, close) >= -plan.risk.maxLoss
         && (plan.risk.maxProfit.Some? ==> GrossAtExpiry(plan, close) <= plan.risk.maxProfit.value)
  }

  lemma {:induction false} PlanPromises(plan: TradePlan, p: RiskPolicy, openRisk: int)
    requires PlanOk(plan, p, openRisk)
    ensures Promised(plan, p, openRisk)
  {
    PlanIsDefinedRisk(plan, p, openRisk, 0);
    forall close
      ensures GrossAtExpiry(plan, close) >= -plan.risk.maxLoss
      ensures plan.risk.maxProfit.Some? ==> GrossAtExpiry(plan, close) <= plan.risk.maxProfit.value
    {
      PlanIsDefinedRisk(plan, p, openRisk, close);
    }
  }

  /** The attempts end with the first one that yields a plan, or all fail. */
  ghost predicate FirstSuccess(r: Option<TradePlan>, tried: seq<Option<TradePlan>>, attempts: seq<Attempt>) {
    match r
    case Some(_) => tried != [] && tried[|tried|-1] == r
    case None => |tried| == |attempts| && forall i | 0 <= i < |tried| :: tried[i].None?
  }

  lemma {:induction false} TriedOneMore(tried: seq<Option<TradePlan>>, r: Option<TradePlan>, attempts: seq<Attempt>,
                                        chain: Chain, d: Direction, p: RiskPolicy, asOf: int, openRisk: int, m: Models)
    requires PolicyOk(p) && forall c | c in chain.contracts :: c.strike > 0
    requires TriedInOrder(tried, attempts, chain, d, p, asOf, openRisk, m)
    requires forall i | 0 <= i < |tried| :: tried[i].None?
    requires |tried| < |attempts| && Attempted(attempts[|tried|], chain, d, p, asOf, openRisk, m, r)
    ensures TriedInOrder(tried + [r], attempts, chain, d, p, asOf, openRisk, m)
  {
    SnocAt(tried, r);
  }

  lemma {:induction false} SnocAt<T>(s: seq<T>, x: T)
    ensures var more := s + [x]; |more| == |s| + 1 && more[|s|] == x && forall i | 0 <= i < |s| :: more[i] == s[i]
  {
  }

  /** The loop over the attempts. */
  method TryInOrder(attempts: seq<Attempt>, chain: Chain, d: Direction, p: RiskPolicy, asOf: int, openRisk: int,
                    maxRisk: int, m: Models) returns (r: Option<TradePlan>, ghost tried: seq<Option<TradePlan>>)
    requires PolicyOk(p) && maxRisk == EffectiveCap(p, openRisk) && forall c | c in chain.contracts :: c.strike > 0
    ensures TriedInOrder(tried, attempts, chain, d, p, asOf, openRisk, m) && FirstSuccess(r, tried, attempts)
  {
    tried := [];
    var i := 0;
    while i < |attempts|
      invariant 0 <= i <= |attempts| && |tried| == i
      invariant TriedInOrder(tried, attempts, chain, d, p, asOf, openRisk, m)
      invariant forall k | 0 <= k < i :: tried[k].None?
    {
      r := TryAttempt(attempts[i], chain, d, p, asOf, openRisk, maxRisk, m);
      TriedOneMore(tried, r, attempts, chain, d, p, asOf, openRisk, m);
      tried := tried + [r];
      if r.Some? {
        return;
      }
      i := i + 1;
    }
    r := None;
  }

  // ------------------------------------------------- what the regime asks for

  /** For a directional thesis: with rich premium the credit spread of that direction is
      passed over only when it cannot be had; otherwise it is sold only when neither the
      debit spread nor the long option can be had. The long option always comes after the
      debit spread. */
  ghost predicate DirectionalPlan(r: Option<TradePlan>, ivRank: Option<real>, chain: Chain, d: Direction, p: RiskPolicy,
                                  asOf: int, openRisk: int, m: Models)
    requires PolicyOk(p) && forall c | c in chain.contracts :: c.strike > 0
  {
    var fails := (a: Attempt) => Attempted(a, chain, d, p, asOf, openRisk, m, None);
    var gives := (a: Attempt) => Attempted(a, chain, d, p, asOf, openRisk, m, r);
    var rich := ivRank.Some? && ivRank.value >= 0.50;
    match r
    case None => fails(CreditVertical) && fails(DebitVertical) && fails(LongOption)
    case Some(plan) =>
      plan.direction == d
      && match plan.strategy
         case BullPutSpread | BearCallSpread =>
           && (plan.strategy == BullPutSpread <==> d == Bullish) && gives(CreditVertical)
           && (!rich ==> fails(DebitVertical) && fails(LongOption))
         case BullCallSpread | BearPutSpread =>
           && (plan.strategy == BullCallSpread <==> d == Bullish) && gives(DebitVertical)
           && (rich ==> fails(CreditVertical))
         case LongCall | LongPut =>
           && (plan.strategy == LongCall <==> d == Bullish) && gives(LongOption) && fails(DebitVertical)
           && (rich ==> fails(CreditVertical))
         case _ => false
  }

  /** For a neutral thesis: rich premium is sold as a condor, cheap premium ahead of a
      catalyst is bought as a strangle, or as a straddle when no strangle can be had, and
      anything in between is left alone. */
  ghost predicate NeutralPlan(r: Option<TradePlan>, ivRank: Option<real>, hasCatalyst: bool, chain: Chain, d: Direction,
                              p: RiskPolicy, asOf: int, openRisk: int, m: Models)
    requires PolicyOk(p) && forall c | c in chain.contracts :: c.strike > 0
  {
    var fails := (a: Attempt) => Attempted(a, chain, d, p, asOf, openRisk, m, None);
    var gives := (a: Attempt) => Attempted(a, chain, d, p, asOf, openRisk, m, r);
    if ivRank.Some? && ivRank.value >= 0.50 then
      match r
      case None => fails(Condor)
      case Some(plan) => plan.strategy == IronCondor && plan.direction == VolShort && gives(Condor)
    else if ivRank.Some? && ivRank.value <= 0.35 && hasCatalyst then
      match r
      case None => fails(Strangle) && fails(Straddle)
      case Some(plan) =>
        && plan.direction == VolLong
        && ((plan.strategy == LongStrangle && gives(Strangle))
            || (plan.strategy == LongStraddle && gives(Straddle) && fails(Strangle)))
    else r.None?
  }

  ghost predicate FitsRegime(r: Option<TradePlan>, ivRank: Option<real>, hasCatalyst: bool, chain: Chain, d: Direction,
                             p: RiskPolicy, asOf: int, openRisk: int, m: Models)
    requires PolicyOk(p) && forall c | c in chain.contracts :: c.strike > 0
  {
    match d
    case Bullish | Bearish => DirectionalPlan(r, ivRank, chain, d, p, asOf, openRisk, m)
    case Neutral => NeutralPlan(r, ivRank, hasCatalyst, chain, d, p, asOf, openRisk, m)
    case _ => r.None?
  }

  /** What the attempts before the one that gave the plan came to. */
  ghost predicate FoundBy(r: Option<TradePlan>, before: seq<Attempt>, a: Attempt, chain: Chain, d: Direction,
                          p: RiskPolicy, asOf: int, openRisk: int, m: Models)
    requires PolicyOk(p) && forall c | c in chain.contracts :: c.strike > 0
  {
    && r.Some? && Attempted(a, chain, d, p, asOf, openRisk, m, r) && Expresses(a, d, r.value)
    && forall b | b in before :: Attempted(b, chain, d, p, asOf, openRisk, m, None)
  }

  lemma {:induction false} FirstSuccessFound(r: Option<TradePlan>, tried: seq<Option<TradePlan>>,
                                             attempts: seq<Attempt>, chain: Chain, d: Direction, p: RiskPolicy,
                                             asOf: int, openRisk: int, m: Models)
    requires PolicyOk(p) && forall c | c in chain.contracts :: c.strike > 0
    requires TriedInOrder(tried, attempts, chain, d, p, asOf, openRisk, m) && FirstSuccess(r, tried, attempts)
    ensures r.None? ==> forall a | a in attempts :: Attempted(a, chain, d, p, asOf, openRisk, m, None)
    ensures r.Some? ==> exists n | 0 <= n < |attempts| ::
              FoundBy(r, attempts[..n], attempts[n], chain, d, p, asOf, openRisk, m)
  {
    if r.Some? {
      var n := |tried| - 1;
      AttemptedPlanOk(attempts[n], chain, d, p, asOf, openRisk, m, r);
      assert FoundBy(r, attempts[..n], attempts[n], chain, d, p, asOf, openRisk, m);
    }
  }

  lemma {:induction false} DirectionalFits(r: Option<TradePlan>, ivRank: Option<real>, n: nat, chain: Chain,
                                           d: Direction, p: RiskPolicy, asOf: int, openRisk: int, m: Models)
    requires PolicyOk(p) && forall c | c in chain.contracts :: c.strike > 0
    requires d == Bullish || d == Bearish
    requires var attempts := Attempts(d, ivRank, false);
      n < |attempts| && FoundBy(r, attempts[..n], attempts[n], chain, d, p, asOf, openRisk, m)
    ensures DirectionalPlan(r, ivRank, chain, d, p, asOf, openRisk, m)
  {
    var before := Attempts(d, ivRank, false)[..n];
    if n > 0 { assert before[0] in before; }
    if n > 1 { assert before[1] in before; }
  }

  lemma {:induction false} NeutralFits(r: Option<TradePlan>, ivRank: Option<real>, hasCatalyst: bool, n: nat,
                                       chain: Chain, p: RiskPolicy, asOf: int, openRisk: int, m: Models)
    requires PolicyOk(p) && forall c | c in chain.contracts :: c.strike > 0
    requires var attempts := Attempts(Neutral, ivRank, hasCatalyst);
      n < |attempts| && FoundBy(r, attempts[..n], attempts[n], chain, Neutral, p, asOf, openRisk, m)
    ensures NeutralPlan(r, ivRank, hasCatalyst, chain, Neutral, p, asOf, openRisk, m)
  {
    var before := Attempts(Neutral, ivRank, hasCatalyst)[..n];
    if n > 0 { assert before[0] in before; }
  }

  lemma {:induction false} NothingFits(ivRank: Option<real>, hasCatalyst: bool, chain: Chain, d: Direction,
                                       p: RiskPolicy, asOf: int, openRisk: int, m: Models)
    requires PolicyOk(p) && forall c | c in chain.contracts :: c.strike > 0
    requires forall a | a in Attempts(d, ivRank, hasCatalyst) :: Attempted(a, chain, d, p, asOf, openRisk, m, None)
    ensures FitsRegime(None, ivRank, hasCatalyst, chain, d, p, asOf, openRisk, m)
  {
  }

  lemma {:induction false} FirstSuccessFits(r: Option<TradePlan>, tried: seq<Option<TradePlan>>, ivRank: Option<real>,
                                            hasCatalyst: bool, chain: Chain, d: Direction, p: RiskPolicy, asOf: int,
                                            openRisk: int, m: Models)
    requires PolicyOk(p) && forall c | c in chain.contracts :: c.strike > 0
    requires TriedInOrder(tried, Attempts(d, ivRank, hasCatalyst), chain, d, p, asOf, openRisk, m)
    requires FirstSuccess(r, tried, Attempts(d, ivRank, hasCatalyst))
    ensures FitsRegime(r, ivRank, hasCatalyst, chain, d, p, asOf, openRisk, m)
  {
    var attempts := Attempts(d, ivRank, hasCatalyst);
    FirstSuccessFound(r, tried, attempts, chain, d, p, asOf, openRisk, m);
    if r.Some? {
      var n :| 0 <= n < |attempts| && FoundBy(r, attempts[..n], attempts[n], chain, d, p, asOf, openRisk, m);
      if d == Neutral {
        NeutralFits(r, ivRank, hasCatalyst, n, chain, p, asOf, openRisk, m);
      } else {
        DirectionalFits(r, ivRank, n, chain, d, p, asOf, openRisk, m);
      }
    } else {
      NothingFits(ivRank, hasCatalyst, chain, d, p, asOf, openRisk, m);
    }
  }

  /** `build_best_plan`: nothing when no risk is left; otherwise the first attempt that
      yields a plan, and nothing only when every attempt failed. */
  method BuildBestPlan(chain: Chain, d: Direction, ivRank: Option<real>, hasCatalyst: bool, p: RiskPolicy, asOf: int,
                       openRisk: int, m: Models) returns (r: Option<TradePlan>)
    requires PolicyOk(p) && forall c | c in chain.contracts :: c.strike > 0
    ensures if EffectiveCap(p, openRisk) <= 0 then r.None?
            else FitsRegime(r, ivRank, hasCatalyst, chain, d, p, asOf, openRisk, m)
    ensures r.Some? ==> Promised(r.value, p, openRisk)
  {
    var maxRisk := EffectiveCap(p, openRisk);
    if maxRisk <= 0 {
      return None;
    }
    ghost var tried;
    r, tried := TryInOrder(Attempts(d, ivRank, hasCatalyst), chain, d, p, asOf, openRisk, maxRisk, m);
    FirstSuccessFits(r, tried, ivRank, hasCatalyst, chain, d, p, asOf, openRisk, m);
    if r.Some? {
      AttemptedPlanOk(Attempts(d, ivRank, hasCatalyst)[|tried|-1], chain, d, p, asOf, openRisk, m, r);
      PlanPromises(r.value, p, openRisk);
    }
  }
}
