/** What the eligibility rules and the selectors of app/engine/contract_selection.py and
    app/engine/liquidity.py ask for, told on quotes, deltas and days. */
module SelectionMeaning {
  import opened Basics
  import opened Seqs
  import opened OptionStructures
  import opened ContractSelection
  import opened StructureSelection

  // ----------------------------------------------------------------------- one contract

  /** The mid is the quote's, to the nearest unit, when both sides are quoted and the ask is
      positive; else the mark unless it is zero or missing; else the last trade. */
  lemma {:induction false} MidMeans(c: OptionContract)
    ensures c.bid.Some? && c.ask.Some? && c.ask.value >= 1 ==>
              Mid(c).Some? && Abs(2 * Mid(c).value - (c.bid.value + c.ask.value)) <= 1
    ensures !(c.bid.Some? && c.ask.Some? && c.ask.value >= 1) ==>
              Mid(c) == if c.mark == None || c.mark == Some(0) then c.last else c.mark
  {
  }

  /** The liquidity gate lets a contract through exactly when its mid is positive and in
      range, it is held and traded enough, and its quote is no wider than a share of it. */
  lemma {:induction false} LiquidMeans(c: OptionContract, liq: Liquidity)
    ensures Liquid(c, liq) <==>
              && Mid(c).Some? && Mid(c).value >= 1 && Mid(c).value >= liq.minMid && Mid(c).value <= liq.maxMid
              && c.openInterest.Some? && c.openInterest.value >= liq.minOpenInterest
              && c.volume.Some? && c.volume.value >= liq.minVolume
              && c.bid.Some? && c.ask.Some?
              && (c.ask.value - c.bid.value) as real <= liq.maxSpreadPct * Mid(c).value as real
  {
    if c.bid.Some? && c.ask.Some? && Mid(c).Some? && Mid(c).value > 0 {
      ScaleQuotient((c.ask.value - c.bid.value) as real, Mid(c).value as real, liq.maxSpreadPct);
    }
  }

  lemma {:induction false} AbsRealIs(x: real)
    ensures AbsReal(x) >= 0.0 && (AbsReal(x) == x || AbsReal(x) == -x)
  {
  }

  /** A delta that says something: there is one, it is not zero and not one either way. */
  predicate HasDelta(c: OptionContract) {
    c.delta.Some? && c.delta.value != 0.0 && -1.0 < c.delta.value < 1.0
  }

  /** The size of a delta lies in a band of sizes. */
  predicate DeltaWithin(delta: real, lo: real, hi: real) {
    if delta >= 0.0 then lo <= delta <= hi else lo <= -delta <= hi
  }

  /** The strike is no further from the spot than a share of it. */
  predicate StrikeWithin(c: OptionContract, chain: Chain, band: Option<real>) {
    && band.Some? && band.value != 0.0 && c.strike != 0
    && chain.underlyingPrice.Some? && chain.underlyingPrice.value >= 1
    && Abs(c.strike - chain.underlyingPrice.value) as real <= band.value * chain.underlyingPrice.value as real
  }

  lemma {:induction false} OrderScaled(a: real, b: real, n: real)
    requires n > 0.0
    ensures a > b <==> a * n > b * n
  {
  }

  lemma {:induction false} ShareScaled(x: real, n: real)
    requires n > 0.0
    ensures AbsReal(x / n - 1.0) * n == if x >= n then x - n else n - x
  {
    var r := x / n - 1.0;
    assert r * n == x - n;
    OrderScaled(0.0, r, n);
  }

  lemma {:induction false} GapWithin(strike: int, spot: int, band: real)
    requires spot > 0
    ensures AbsReal(strike as real / spot as real - 1.0) > band
       <==> !(Abs(strike - spot) as real <= band * spot as real)
  {
    ShareScaled(strike as real, spot as real);
    OrderScaled(AbsReal(strike as real / spot as real - 1.0), band, spot as real);
  }

  lemma {:induction false} MoneynessMeans(c: OptionContract, chain: Chain, sel: Selection)
    ensures MoneynessFit(c, chain, sel).Some? <==> StrikeWithin(c, chain, sel.moneynessBand)
  {
    if sel.moneynessBand.Some? && chain.underlyingPrice.Some? && chain.underlyingPrice.value > 0 {
      GapWithin(c.strike, chain.underlyingPrice.value, sel.moneynessBand.value);
    }
  }

  predicate DaysWithin(c: OptionContract, asOf: int, sel: Selection) {
    asOf + sel.minDte <= c.expiration && c.expiration <= asOf + sel.maxDte
  }

  /** A long option is eligible exactly when it is of the type the thesis wants, expires in
      the window, is liquid, and has a delta in the band or a strike near the spot. */
  lemma {:induction false} EligibleMeans(c: OptionContract, chain: Chain, want: OptionType, asOf: int, sel: Selection,
                                         liq: Liquidity)
    ensures LongEligible(c, chain, want, asOf, sel, liq) <==>
              && c.optionType == want && DaysWithin(c, asOf, sel) && Liquid(c, liq)
              && ((HasDelta(c) && DeltaWithin(c.delta.value, sel.minDelta, sel.maxDelta))
                  || StrikeWithin(c, chain, sel.moneynessBand))
  {
    MoneynessMeans(c, chain, sel);
  }

  /** A pair is feasible as a debit vertical exactly when its long leg is eligible, with the
      spot only asked when there is no delta; its short leg is liquid, further out at the
      same expiration and not too far out by delta; the debit is positive and affordable;
      and the modelled probability of profit is known and high enough where asked. */
  lemma {:induction false} FeasibleMeans(l: OptionContract, s: OptionContract, chain: Chain, want: OptionType,
                                         asOf: int, maxDebit: int, sel: Selection, liq: Liquidity, m: Models)
    ensures Feasible(l, s, chain, want, asOf, maxDebit, sel, liq, m) <==>
              && l.optionType == s.optionType == want && l.expiration == s.expiration && DaysWithin(l, asOf, sel)
              && Liquid(l, liq) && Liquid(s, liq)
              && (if HasDelta(l) then DeltaWithin(l.delta.value, sel.minDelta, sel.maxDelta)
                  else StrikeWithin(l, chain, sel.moneynessBand))
              && (if want == Call then l.strike < s.strike else s.strike < l.strike)
              && (HasDelta(s) && sel.minShortDelta != 0.0 ==> !(-sel.minShortDelta < s.delta.value < sel.minShortDelta))
              && 0 < Mid(l).value - Mid(s).value && Mid(l).value - Mid(s).value <= maxDebit
              && (sel.minPop.Some? ==>
                    var pop := m.probabilityOfProfit(l, Mid(l).value - Mid(s).value, want == Call);
                    pop.Some? && pop.value >= sel.minPop.value)
  {
    MoneynessMeans(l, chain, sel);
  }

  // ---------------------------------------------------------------------------- scores

  lemma {:induction false} RoundedAtMostOne(x: real)
    ensures x <= 1.0 ==> RoundTo(x, 10000) <= 1.0
    ensures RoundTo(1.0, 10000) == 1.0
  {
    if x <= 1.0 {
      RoundMonotone(x, 1.0);
    }
  }

  lemma {:induction false} ShareLost(gap: real, whole: real)
    requires gap >= 0.0 && whole > 0.0
    ensures gap / whole >= 0.0 && (gap == 0.0 ==> 1.0 - gap / whole == 1.0)
  {
  }

  /** The nearness of a strike falls in proportion from one at the strike preferred to
      nothing at a distance of that strike itself. */
  lemma {:induction false} StrikeFitIs(strike: int, preferred: int)
    requires preferred > 0
    ensures 0.0 <= StrikeFit(strike, preferred) <= 1.0
    ensures StrikeFit(strike, preferred) * preferred as real == Max(0, preferred - Abs(strike - preferred)) as real
    ensures strike == preferred ==> StrikeFit(strike, preferred) == 1.0
  {
    var gap, n := AbsReal((strike - preferred) as real), preferred as real;
    assert gap == Abs(strike - preferred) as real;
    ShareLost(gap, n);
    ScaleQuotient(gap, n, 1.0);
  }

  /** The moneyness fit falls from one at the spot to nothing at the edge of the band. */
  lemma {:induction false} MoneynessFitIs(c: OptionContract, chain: Chain, sel: Selection)
    requires MoneynessFit(c, chain, sel).Some?
    ensures var spot, fit := chain.underlyingPrice.value as real, MoneynessFit(c, chain, sel).value;
      && (c.strike as real == spot ==> fit == 1.0)
      && (c.strike as real / spot - 1.0 == sel.moneynessBand.value ==> fit == 0.0)
      && 0.0 <= fit <= 1.0
  {
    var gap, band := AbsReal(c.strike as real / chain.underlyingPrice.value as real - 1.0), sel.moneynessBand.value;
    RoundedShare(gap, band);
  }

  lemma {:induction false} RoundedShare(gap: real, band: real)
    requires 0.0 <= gap <= band && band != 0.0
    ensures var fit := RoundTo(1.0 - gap / band, 10000);
      0.0 <= fit <= 1.0 && (gap == 0.0 ==> fit == 1.0) && (gap == band ==> fit == 0.0)
  {
    BandShare(gap, band);
    RoundedAtMostOne(1.0 - gap / band);
    RoundMonotone(0.0, 1.0 - gap / band);
    OnTheGrid(0.0, 0);
  }

  lemma {:induction false} DeltaFitIs(c: OptionContract, chain: Chain, sel: Selection)
    requires sel.targetDelta > 0.0 && (ByDelta(c, sel) || MoneynessFit(c, chain, sel).Some?)
    ensures DeltaFit(c, chain, sel) <= 1.0
    ensures ByDelta(c, sel) && AbsReal(c.delta.value) == sel.targetDelta ==> DeltaFit(c, chain, sel) == 1.0
  {
    if ByDelta(c, sel) {
      ShareLost(AbsReal(AbsReal(c.delta.value) - sel.targetDelta), sel.targetDelta);
    } else {
      MoneynessFitIs(c, chain, sel);
    }
  }

  lemma {:induction false} DteFitIs(c: OptionContract, asOf: int, sel: Selection)
    requires sel.minDte + sel.maxDte > 0
    ensures DteFit(c, asOf, sel) <= 1.0
    ensures 2 * (c.expiration - asOf) == sel.minDte + sel.maxDte ==> DteFit(c, asOf, sel) == 1.0
  {
    var mid := (sel.minDte + sel.maxDte) as real / 2.0;
    ShareLost(AbsReal((c.expiration - asOf) as real - mid), mid);
  }

  lemma {:induction false} BandShare(gap: real, band: real)
    requires 0.0 <= gap <= band && band != 0.0
    ensures 0.0 <= gap / band <= 1.0 && (gap == band ==> gap / band == 1.0) && (gap == 0.0 ==> gap / band == 0.0)
  {
  }

  /** The fit of a long option is a weighted mean of qualities that are at most one: with a
      liquidity score of at most one it is at most one, and it is one for a contract of
      perfect score, at the target delta, expiring mid-window, struck where preferred. */
  lemma {:induction false} LongFitIsMean(c: OptionContract, chain: Chain, asOf: int, sel: Selection,
                                         prefer: Option<int>, m: Models)
    requires sel.targetDelta > 0.0 && sel.minDte + sel.maxDte > 0 && m.liquidityScore(c) <= 1.0
    requires ByDelta(c, sel) || MoneynessFit(c, chain, sel).Some?
    ensures LongFit(c, chain, asOf, sel, prefer, m) <= 1.0
    ensures && m.liquidityScore(c) == 1.0 && ByDelta(c, sel) && AbsReal(c.delta.value) == sel.targetDelta
            && 2 * (c.expiration - asOf) == sel.minDte + sel.maxDte
            && (prefer.Some? && prefer.value > 0 ==> prefer.value == c.strike)
            ==> LongFit(c, chain, asOf, sel, prefer, m) == 1.0
  {
    var deltaFit, dteFit := DeltaFit(c, chain, sel), DteFit(c, asOf, sel);
    DeltaFitIs(c, chain, sel);
    DteFitIs(c, asOf, sel);
    if prefer.Some? && prefer.value > 0 {
      StrikeFitIs(c.strike, prefer.value);
      RoundedAtMostOne(0.45 * m.liquidityScore(c) + 0.30 * deltaFit + 0.10 * dteFit
                       + 0.15 * StrikeFit(c.strike, prefer.value));
    } else {
      RoundedAtMostOne(0.5 * m.liquidityScore(c) + 0.35 * deltaFit + 0.15 * dteFit);
    }
  }

  /** So is the fit of a debit vertical: at most one with a probability of at most one, and
      one for a certain profit of twice the debit on strikes a twentieth apart. */
  lemma {:induction false} SpreadFitIsMean(l: OptionContract, s: OptionContract, want: OptionType, m: Models)
    requires Mid(l).Some? && Mid(s).Some? && Debit(l, s) > 0 && l.strike > 0
    requires var pop := m.probabilityOfProfit(l, Debit(l, s), want == Call); pop.Some? && pop.value <= 1.0
    ensures SpreadOf(l, s, want, m).fit <= 1.0
    ensures m.probabilityOfProfit(l, Debit(l, s), want == Call).value == 1.0
            && Abs(s.strike - l.strike) == 3 * Debit(l, s) && 20 * Abs(s.strike - l.strike) == l.strike
            ==> SpreadOf(l, s, want, m).fit == 1.0
  {
    var debit, width := Debit(l, s), Abs(s.strike - l.strike);
    var rr, share := (width - debit) as real / debit as real, width as real / l.strike as real;
    SpreadMean(m.probabilityOfProfit(l, debit, want == Call).value, rr, share);
    if width == 3 * debit && 20 * width == l.strike {
      ExactRatio((width - debit) as real, debit as real, 2.0);
      ExactRatio(width as real, l.strike as real, 0.05);
    }
  }

  lemma {:induction false} SpreadMean(pop: real, rr: real, share: real)
    requires pop <= 1.0
    ensures SpreadFit(pop, rr, share) <= 1.0
    ensures pop == 1.0 && rr == 2.0 && share == 0.05 ==> SpreadFit(pop, rr, share) == 1.0
  {
    RoundedAtMostOne(pop * 0.45 + MinReal(1.0, rr / 2.0) * 0.35 + MinReal(1.0, share * 20.0) * 0.20);
  }

  lemma {:induction false} OnTheGrid(x: real, n: int)
    requires x * 10000.0 == n as real
    ensures RoundTo(x, 10000) == x
  {
  }

  /** What each quality is worth on its own: it counts in proportion until it is full, at a
      reward of twice the risk and at a width of a twentieth of the strike. */
  lemma {:induction false} SpreadFitShares(reward: real, share: real)
    ensures SpreadFit(1.0, 0.0, 0.0) == 0.45
    ensures reward == 1.0 ==> SpreadFit(0.0, reward, 0.0) == 0.175
    ensures reward >= 2.0 ==> SpreadFit(0.0, reward, 0.0) == 0.35
    ensures share == 0.025 ==> SpreadFit(0.0, 0.0, share) == 0.1
    ensures share >= 0.05 ==> SpreadFit(0.0, 0.0, share) == 0.2
  {
    OnTheGrid(0.45, 4500);
    OnTheGrid(0.175, 1750);
    OnTheGrid(0.35, 3500);
    OnTheGrid(0.1, 1000);
    OnTheGrid(0.2, 2000);
  }

  /** The figures of a chosen pair: what it costs is what it can lose, the rest of its width
      is what it can earn, and the width is stated to the cent. */
  lemma {:induction false} SpreadFigures(l: OptionContract, s: OptionContract, want: OptionType, m: Models)
    requires Mid(l).Some? && Mid(s).Some? && Debit(l, s) > 0 && l.strike != 0
    ensures var sc := SpreadOf(l, s, want, m);
      && sc.netDebit == sc.maxLoss == Mid(l).value - Mid(s).value
      && sc.maxLoss + sc.maxProfit == Abs(l.strike - s.strike)
      && sc.width % 100 == 0 && -50 <= sc.width - Abs(l.strike - s.strike) <= 50
  {
    ToCentFacts(Abs(s.strike - l.strike));
  }

  lemma {:induction false} ExactRatio(x: real, n: real, r: real)
    requires n > 0.0 && x == r * n
    ensures x / n == r
  {
  }

  /** Fits are whole steps of 1e-4. */
  lemma {:induction false} FitsAreRounded(c: OptionContract, chain: Chain, asOf: int, sel: Selection,
                                          prefer: Option<int>, m: Models, pop: real, reward: real, width: real)
    requires sel.targetDelta > 0.0 && sel.minDte + sel.maxDte > 0
    requires ByDelta(c, sel) || MoneynessFit(c, chain, sel).Some?
    ensures exists n: int :: LongFit(c, chain, asOf, sel, prefer, m) == Steps(n)
    ensures exists n: int :: SpreadFit(pop, reward, width) == Steps(n)
  {
    RoundedInSteps(LongFit(c, chain, asOf, sel, prefer, m),
                   if prefer.Some? && prefer.value > 0 then
                     0.45 * m.liquidityScore(c) + 0.30 * DeltaFit(c, chain, sel) + 0.10 * DteFit(c, asOf, sel)
                     + 0.15 * StrikeFit(c.strike, prefer.value)
                   else
                     0.5 * m.liquidityScore(c) + 0.35 * DeltaFit(c, chain, sel) + 0.15 * DteFit(c, asOf, sel));
    RoundedInSteps(SpreadFit(pop, reward, width),
                   pop * 0.45 + MinReal(1.0, reward / 2.0) * 0.35 + MinReal(1.0, width * 20.0) * 0.20);
  }

  function Steps(n: int): real {
    n as real / 10000.0
  }

  lemma {:induction false} RoundedInSteps(y: real, x: real)
    requires y == RoundTo(x, 10000)
    ensures exists n: int :: y == Steps(n)
  {
    assert y == Steps(NearestInt(x * 10000.0));
  }

  // ------------------------------------------------------------------------- selectors

  /** The window's middle may be half a day: expirations are compared by their distance
      to it. */
  lemma {:induction false} KeyIsDistance(e: int, asOf: int, sel: Selection)
    ensures ExpiryKey(e, asOf, sel) as real
         == 2.0 * AbsReal((e - asOf) as real - (sel.minDte + sel.maxDte) as real / 2.0)
  {
    var x, y := (e - asOf) as real, (sel.minDte + sel.maxDte) as real;
    assert (2 * (e - asOf) - (sel.minDte + sel.maxDte)) as real == 2.0 * x - y;
  }

  /** A bullish thesis wants calls, a bearish one puts, and no other wants either. */
  lemma {:induction false} WantedIs(d: Direction)
    ensures Wanted(d) == Some(Call) <==> d == Bullish
    ensures Wanted(d) == Some(Put) <==> d == Bearish
    ensures Wanted(d) == None <==> d != Bullish && d != Bearish
  {
  }

  /** The two legs a credit spread is made of when it can be: those liquid and nearest a
      30 and a 15 delta. */
  ghost predicate CreditLegs(chain: Chain, t: OptionType, exp: int, liq: Liquidity, short: OptionContract,
                             long: OptionContract)
  {
    && LiquidByDelta(chain, t, exp, 0.30, liq) == Some(short)
    && LiquidByDelta(chain, t, exp, 0.15, liq) == Some(long)
  }

  /** The credit selector makes a spread of its two legs exactly when the long one is
      further out, they pay a credit, and what is left of the width is a positive risk
      within the cap. */
  lemma {:induction false} CreditVerticalExactly(chain: Chain, direction: Direction, exp: int, maxRisk: int,
                                                 liq: Liquidity)
    ensures var t := if direction == Bullish then Put else Call;
      var r := CreditVerticalAt(chain, direction, Some(exp), maxRisk, liq);
      && (r.Some? <==> (direction == Bullish || direction == Bearish)
                       && exists short, long :: CreditLegs(chain, t, exp, liq, short, long)
                                                && CreditFits(direction, short, long, maxRisk))
      && (r.Some? ==> |r.value.legs| == 2
                      && CreditLegs(chain, t, exp, liq, r.value.legs[0].contract, r.value.legs[1].contract))
  {
    var t := if direction == Bullish then Put else Call;
    var short, long := LiquidByDelta(chain, t, exp, 0.30, liq), LiquidByDelta(chain, t, exp, 0.15, liq);
    if (direction == Bullish || direction == Bearish) && short.Some? && long.Some? {
      assert CreditLegs(chain, t, exp, liq, short.value, long.value);
      assert CreditPair(direction, short.value, long.value, maxRisk).Some?
        <==> CreditFits(direction, short.value, long.value, maxRisk);
    }
  }

  predicate CreditFits(direction: Direction, short: OptionContract, long: OptionContract, maxRisk: int) {
    && Mid(short).Some? && Mid(long).Some?
    && var width := if direction == Bullish then short.strike - long.strike else long.strike - short.strike;
    && var credit := Mid(short).value - Mid(long).value;
    0 < credit < width && width <= credit + maxRisk
  }

  /** The condor selector makes one of its four legs exactly when their strikes are in
      order, they pay a credit, and what is left of the wider wing is a positive risk
      within the cap. */
  lemma {:induction false} CondorExactly(sp: OptionContract, lp: OptionContract, sc: OptionContract, lc: OptionContract,
                                         maxRisk: int)
    requires Mid(sp).Some? && Mid(lp).Some? && Mid(sc).Some? && Mid(lc).Some?
    ensures CondorOf(sp, lp, sc, lc, maxRisk).Some? <==>
              && lp.strike < sp.strike && sp.strike < sc.strike && sc.strike < lc.strike
              && var credit := Mid(sp).value - Mid(lp).value + Mid(sc).value - Mid(lc).value;
                 && credit >= 1
                 && (sp.strike - lp.strike > credit || lc.strike - sc.strike > credit)
                 && sp.strike - lp.strike - credit <= maxRisk && lc.strike - sc.strike - credit <= maxRisk
  {
  }

  ghost predicate CondorLegs(chain: Chain, exp: int, liq: Liquidity, sp: OptionContract, lp: OptionContract,
                             sc: OptionContract, lc: OptionContract)
  {
    && NearestDelta(sp, chain, Put, exp, 0.20, liq) && NearestDelta(lp, chain, Put, exp, 0.10, liq)
    && NearestDelta(sc, chain, Call, exp, 0.20, liq) && NearestDelta(lc, chain, Call, exp, 0.10, liq)
  }

  /** The condor selector tries one set of legs: liquid, the ones sold as near a 20 delta
      and the ones bought as near a 10 delta as any; it has none to try exactly when the
      expiration has no liquid put or no liquid call with a delta. */
  lemma {:induction false} CondorTriesNearest(chain: Chain, exp: int, maxRisk: int, liq: Liquidity)
    ensures var r := CondorAt(chain, Some(exp), maxRisk, liq);
      || (r.None? && forall c | c in chain.contracts :: !DeltaCandidate(c, Put, exp, liq))
      || (r.None? && forall c | c in chain.contracts :: !DeltaCandidate(c, Call, exp, liq))
      || exists sp, lp, sc, lc :: CondorLegs(chain, exp, liq, sp, lp, sc, lc)
                                  && r == CondorOf(sp, lp, sc, lc, maxRisk)
  {
    LiquidByDeltaIsNearest(chain, Put, exp, 0.20, liq);
    LiquidByDeltaIsNearest(chain, Put, exp, 0.10, liq);
    LiquidByDeltaIsNearest(chain, Call, exp, 0.20, liq);
    LiquidByDeltaIsNearest(chain, Call, exp, 0.10, liq);
    var sp, lp := LiquidByDelta(chain, Put, exp, 0.20, liq), LiquidByDelta(chain, Put, exp, 0.10, liq);
    var sc, lc := LiquidByDelta(chain, Call, exp, 0.20, liq), LiquidByDelta(chain, Call, exp, 0.10, liq);
    if sp.Some? && sc.Some? {
      assert CondorLegs(chain, exp, liq, sp.value, lp.value, sc.value, lc.value);
    }
  }

  /** Straddle and strangle are made exactly when their two legs exist and cost something
      within the cap. */
  lemma {:induction false} LongVolExactly(strategy: Strategy, call: OptionContract, put: OptionContract, maxDebit: int)
    requires Mid(call).Some? && Mid(put).Some?
    ensures LongVol(strategy, call, put, maxDebit).Some?
       <==> Mid(call).value + Mid(put).value >= 1 && Mid(call).value + Mid(put).value <= maxDebit
  {
  }

  ghost predicate StraddleLegs(chain: Chain, exp: int, spot: int, liq: Liquidity, call: OptionContract,
                               put: OptionContract)
  {
    && call in chain.contracts && StrikeCandidate(call, Call, exp, liq)
    && (forall c | c in chain.contracts && StrikeCandidate(c, Call, exp, liq) ::
          Abs(call.strike - spot) <= Abs(c.strike - spot))
    && put in chain.contracts && StrikeCandidate(put, Put, exp, liq) && put.strike == call.strike
  }

  /** A selected straddle is a liquid call struck nearest the spot with a liquid put of the
      same strike; none is selected only without a spot, without such a call, without a
      put at the strike taken, or for its price. */
  lemma {:induction false} StraddleExactly(chain: Chain, exp: int, maxDebit: int, liq: Liquidity)
    requires chain.underlyingPrice.Some? && chain.underlyingPrice.value != 0
    ensures var spot, r := chain.underlyingPrice.value, StraddleAt(chain, Some(exp), maxDebit, liq);
      && (r.Some? ==> |r.value.legs| == 2
                      && StraddleLegs(chain, exp, spot, liq, r.value.legs[0].contract, r.value.legs[1].contract))
      && (r.None? ==>
            || (forall c | c in chain.contracts :: !StrikeCandidate(c, Call, exp, liq))
            || (exists c :: c in chain.contracts && StrikeCandidate(c, Call, exp, liq)
                  && forall p | p in chain.contracts && p.strike == c.strike :: !StrikeCandidate(p, Put, exp, liq))
            || (exists call, put :: StraddleLegs(chain, exp, spot, liq, call, put)
                  && !(0 < Mid(call).value + Mid(put).value <= maxDebit)))
  {
    var spot := chain.underlyingPrice.value;
    var best := NearestCall(chain, exp, spot, liq);
    NearestCallIsNearest(chain, exp, spot, liq);
    if best.Some? {
      NearestIsCandidate(chain, exp, spot, liq);
      var call := FirstAtStrike(chain, Call, exp, best.value.strike, liq);
      var put := FirstAtStrike(chain, Put, exp, best.value.strike, liq);
      if put.Some? {
        assert StraddleLegs(chain, exp, spot, liq, call.value, put.value);
      }
    }
  }

  lemma {:induction false} NearestIsCandidate(chain: Chain, exp: int, spot: int, liq: Liquidity)
    requires NearestCall(chain, exp, spot, liq).Some?
    ensures var best := NearestCall(chain, exp, spot, liq).value;
      best in chain.contracts && StrikeCandidate(best, Call, exp, liq)
  {
    FirstLeastIsLeast((c: OptionContract) => Abs(c.strike - spot) as real, Calls(chain, exp, liq));
  }
}
