/** What sizing and plan building come to, told on the policy and on the legs
    (app/risk/policy.py, app/risk/position_sizing.py, app/risk/trade_plan.py). */
module PlanMeaning {
  import opened Basics
  import opened OptionStructures
  import opened ContractSelection
  import opened StructureSelection
  import opened TradePlanning
  import opened Grading

  // ------------------------------------------------------------------------------ caps

  /** x is a dollar amount rounded to cents. */
  predicate RoundsTo(dollars: real, x: int) {
    -0.5 <= dollars * 100.0 - x as real <= 0.5
  }

  /** The per-trade cap is the tighter of a share of equity and an absolute amount; the
      account cap is a share of equity. */
  lemma {:induction false} CapsMean(p: RiskPolicy)
    ensures p.equity * p.maxTradeRiskPct >= p.maxDefinedRisk ==> RoundsTo(p.maxDefinedRisk, TradeCap(p))
    ensures p.equity * p.maxTradeRiskPct <= p.maxDefinedRisk ==> RoundsTo(p.equity * p.maxTradeRiskPct, TradeCap(p))
    ensures RoundsTo(p.equity * p.maxAccountRiskPct, AccountCap(p))
  {
    TiesGoToEven(0, 1, MinReal(p.equity * p.maxTradeRiskPct, p.maxDefinedRisk) * 100.0);
    TiesGoToEven(0, 1, p.equity * p.maxAccountRiskPct * 100.0);
  }

  /** A new risk fits exactly when it is within the per-trade cap and, on top of what is
      open, within the account cap. */
  lemma {:induction false} FitsExactly(x: int, p: RiskPolicy, openRisk: int)
    requires x > 0
    ensures x <= EffectiveCap(p, openRisk) <==> x <= TradeCap(p) && openRisk + x <= AccountCap(p)
  {
  }

  // ---------------------------------------------------------------------------- sizing

  /** The reason given: a risk that is not positive; a first contract that does not fit,
      because of the account or else of the single trade; as many contracts as may be held
      at once; or, for every other size, the risk caps. A traded size always has one. */
  lemma {:induction false} ReasonMeans(risk: int, p: RiskPolicy, openRisk: int)
    requires PolicyOk(p)
    ensures var s := Size(risk, p, openRisk);
      var room := AccountCap(p) - openRisk;
      if risk <= 0 then s.contracts == 0 && s.cappedReason == Some("invalid_per_contract_risk")
      else if risk > TradeCap(p) || openRisk + risk > AccountCap(p) then
        s.contracts == 0
        && s.cappedReason == Some(if room < TradeCap(p) && 0 < TradeCap(p) then "account_cap_exhausted"
                                  else "single_contract_exceeds_trade_cap")
      else
        s.contracts >= 1
        && s.cappedReason == Some(if (p.maxContracts + 1) * risk <= EffectiveCap(p, openRisk) then "contract_count_cap"
                                  else "risk_cap")
  {
    SizingIsMaximal(risk, p, openRisk);
    var cap := EffectiveCap(p, openRisk);
    if risk > 0 {
      FitsExactly(risk, p, openRisk);
      if risk <= cap {
        FitCount(cap, risk, p.maxContracts);
      }
    }
  }

  lemma {:induction false} FitCount(cap: int, risk: int, most: int)
    requires 0 < risk <= cap
    ensures var fit := cap / risk;
      && fit * risk + risk > cap
      && (fit > most <==> (most + 1) * risk <= cap)
  {
    var fit := cap / risk;
    assert cap == risk * fit + cap % risk;
    MulAtLeast(risk, fit - most - 1);
    MulAtLeast(risk, most + 1 - fit);
    assert risk * (fit - most - 1) == risk * fit - (most + 1) * risk;
    if fit - most - 1 < 0 {
      assert risk * (fit - most - 1) <= -risk;
    }
  }

  /** The share of the account at risk, to four places. */
  lemma {:induction false} RiskShareIs(risk: int, p: RiskPolicy, openRisk: int)
    requires PolicyOk(p)
    ensures var s := Size(risk, p, openRisk);
      var share := (s.contracts * risk) as real / 100.0 / p.equity;
      -0.00005 <= s.accountRiskPct - share <= 0.00005
  {
    var s := Size(risk, p, openRisk);
    if s.contracts == 0 {
      assert (s.contracts * risk) as real == 0.0;
    } else {
      TiesGoToEven(0, 1, (s.contracts * risk) as real / 100.0 / p.equity * 10000.0);
    }
  }

  // ------------------------------------------------------------------- what a plan says

  /** What a plan copies from the policy and the sizing. */
  predicate Carries(plan: TradePlan, p: RiskPolicy, s: Sizing) {
    && plan.contracts == s.contracts && plan.risk.maxLoss == s.maxLoss
    && plan.risk.accountRiskPct == s.accountRiskPct
    && plan.risk.profitTargetPct == p.profitTargetPct && plan.risk.stopLossPct == p.stopLossPct
    && plan.risk.timeStopDte == Some(p.timeStopDte)
  }

  /** The stated breakeven of a long option or a debit vertical is the one its grader will
      use: that of its own legs and premium, in cents. */
  lemma {:induction false} LongBreakeven(c: OptionContract, d: Direction, p: RiskPolicy, openRisk: int)
    requires PolicyOk(p) && Wanted(d) == Some(c.optionType)
    ensures var r := LongOptionPlan(c, d, p, openRisk);
      r.Some? ==> && Carries(r.value, p, Size(Mid(c).value, p, openRisk))
                  && r.value.risk.breakeven.Some?
                  && Breakevens(r.value.strategy, r.value.legs) == [r.value.risk.breakeven.value]
  {
    LongOptionPlanOk(c, d, p, openRisk);
    var r := LongOptionPlan(c, d, p, openRisk);
    if r.Some? {
      BreakevensAre(r.value.strategy, r.value.legs);
    }
  }

  lemma {:induction false} VerticalBreakeven(sc: SpreadChoice, d: Direction, p: RiskPolicy, openRisk: int, m: Models)
    requires PolicyOk(p) && Wanted(d).Some?
    requires var want := Wanted(d).value;
      && sc.longLeg.optionType == sc.shortLeg.optionType == want
      && sc.longLeg.expiration == sc.shortLeg.expiration && FurtherOut(want, sc.longLeg, sc.shortLeg)
      && Mid(sc.longLeg).Some? && Mid(sc.shortLeg).Some? && Debit(sc.longLeg, sc.shortLeg) > 0
      && sc.longLeg.strike != 0 && sc == SpreadOf(sc.longLeg, sc.shortLeg, want, m)
    ensures var r := VerticalPlan(sc, d, p, openRisk);
      r.Some? ==> && Carries(r.value, p, Size(sc.maxLoss, p, openRisk))
                  && r.value.risk.breakeven.Some?
                  && Breakevens(r.value.strategy, r.value.legs) == [r.value.risk.breakeven.value]
  {
    VerticalPlanOk(sc, d, p, openRisk, m);
    var r := VerticalPlan(sc, d, p, openRisk);
    if r.Some? {
      BreakevensAre(r.value.strategy, r.value.legs);
    }
  }

  /** Multi-leg plans state none. */
  lemma {:induction false} StructureCarries(c: StructureChoice, p: RiskPolicy, openRisk: int)
    requires PolicyOk(p)
    ensures var r := StructurePlan(c, p, openRisk);
      r.Some? ==> Carries(r.value, p, Size(c.maxLoss, p, openRisk)) && r.value.risk.breakeven.None?
  {
  }
}
