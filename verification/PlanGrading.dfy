/** The last link of the chain: the plans `build_best_plan` returns, read by the
    breakeven grader (app/engine/strategy_selector.py, app/analytics/outcomes.py), and
    the debit verticals that can only lose (app/engine/contract_selection.py). */
module PlanGrading {
  import opened Basics
  import opened OptionStructures
  import opened ContractSelection
  import opened TradePlanning
  import opened Grading

  /** What a plan's premium must satisfy for the breakeven grading to be exact: a debit vertical
      costs less than its width, a condor is sold for less than its narrower wing, and a
      strangle costs more than the gap by which its strikes are crossed, if they are. */
  predicate PremiumFits(plan: TradePlan)
    requires LegCount(plan.strategy, plan.legs)
  {
    match plan.strategy
    case BullCallSpread | BearPutSpread => plan.netDebit < Width(plan.strategy, plan.legs)
    case IronCondor =>
      -plan.netDebit < Min(plan.legs[0].strike - plan.legs[1].strike, plan.legs[3].strike - plan.legs[2].strike)
    case LongStrangle => plan.netDebit > plan.legs[1].strike - plan.legs[0].strike
    case _ => true
  }

  lemma {:induction false} PremiumOfPlan(plan: TradePlan, p: RiskPolicy, openRisk: int)
    requires PlanOk(plan, p, openRisk)
    ensures LegCount(plan.strategy, plan.legs)
    ensures PremiumInside(plan.strategy, plan.legs) <==> PremiumFits(plan)
  {
  }

  /** For every plan that is built, exactly when the breakeven grader and the exact
      settlement agree at all positive closes. */
  lemma {:induction false} PlanGradedExactly(plan: TradePlan, p: RiskPolicy, openRisk: int)
    requires PlanOk(plan, p, openRisk)
    ensures LegCount(plan.strategy, plan.legs) && 0 < |Breakevens(plan.strategy, plan.legs)| <= 2
    ensures AgreesEverywhere(plan.strategy, plan.legs)
       <==> if PositiveBreakevens(plan.strategy, plan.legs)
            then PremiumFits(plan) && WholeCents(plan.strategy, plan.legs)
            else LowBreakevensFit(plan.strategy, plan.legs)
  {
    PremiumOfPlan(plan, p, openRisk);
    AgreementCondition(plan.strategy, plan.legs);
  }

  // --------------------------------------------------------- verticals that cannot win

  predicate IsDebitVertical(s: Strategy) {
    s == BullCallSpread || s == BearPutSpread
  }

  /** The close at which a debit vertical is worth its whole width. */
  function BestClose(plan: TradePlan): int
    requires |plan.legs| == 2
  {
    plan.legs[1].strike
  }

  /** A planned debit vertical can earn something exactly when it costs less than its
      width; the selection does not ask for that. */
  lemma {:induction false} VerticalCanWinExactly(plan: TradePlan, p: RiskPolicy, openRisk: int)
    requires PlanOk(plan, p, openRisk) && IsDebitVertical(plan.strategy)
    ensures (exists close :: GrossAtExpiry(plan, close) > 0) <==> plan.netDebit < Width(plan.strategy, plan.legs)
  {
    var width := Width(plan.strategy, plan.legs);
    if plan.netDebit < width {
      StructureValue(plan.strategy, plan.legs, BestClose(plan));
      ScaledBounds(width - plan.netDebit, 1, plan.contracts);
      assert GrossAtExpiry(plan, BestClose(plan)) > 0;
    } else {
      forall close ensures GrossAtExpiry(plan, close) <= 0 {
        ProfitIsBounded(plan.strategy, plan.legs, close);
        ScaledBounds(-ProfitAt(plan.legs, close), 0, plan.contracts);
        assert -ProfitAt(plan.legs, close) * plan.contracts == -(ProfitAt(plan.legs, close) * plan.contracts);
      }
    }
  }

  function QuotedCall(strike: int, bid: int, ask: int): OptionContract {
    OptionContract("X", 30, strike, Call, Some(bid), Some(ask), None, None, Some(1000), Some(1000), Some(0.45))
  }

  lemma {:induction false} QuotedMid(strike: int, mid: int)
    requires 10000 <= mid <= 100000
    ensures var c := QuotedCall(strike, mid - 100, mid + 100); Mid(c) == Some(mid) && Liquid(c, DEFAULT_LIQUIDITY)
  {
    RoundDivExact(mid, 2);
    SmallQuotient(200, mid);
  }

  lemma {:induction false} SmallQuotient(spread: int, mid: int)
    requires 0 < 10 * spread <= mid
    ensures spread as real / mid as real <= 0.10
  {
  }

  /** Such a pair is feasible: calls quoted at 3.00 and 1.50 a dollar apart, with a
      stated best case of minus 50 dollars. */
  lemma {:induction false} LosingPairIsFeasible(spot: int, cap: int, m: Models)
    requires cap >= 15000
    requires m.probabilityOfProfit(QuotedCall(1000000, 29900, 30100), 15000, true) == Some(0.5)
    ensures var l, s := QuotedCall(1000000, 29900, 30100), QuotedCall(1010000, 14900, 15100);
      && Feasible(l, s, Chain(Some(spot), [l, s]), Call, 0, cap, DEFAULT_SELECTION, DEFAULT_LIQUIDITY, m)
      && SpreadOf(l, s, Call, m).maxProfit == -5000
  {
    QuotedMid(1000000, 30000);
    QuotedMid(1010000, 15000);
  }
}
