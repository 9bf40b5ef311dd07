/** Option structures and what they are worth at expiry
    (app/domain/options.py, app/domain/trades.py, app/analytics/expiry_settlement.py,
    app/quant/analytics.py). Per-share prices and strikes are whole 1e-4 dollars;
    since a contract is 100 shares, the same number read in cents is the dollar
    amount of one contract. */
module OptionStructures {
  import opened Basics

  datatype OptionType = Call | Put

  datatype Action = BuyToOpen | SellToOpen | BuyToClose | SellToClose

  datatype Direction = Bullish | Bearish | Neutral | VolLong | VolShort

  datatype Strategy =
    | LongCall | LongPut
    | BullCallSpread | BearPutSpread
    | BullPutSpread | BearCallSpread
    | LongStraddle | LongStrangle
    | IronCondor

  datatype Leg = Leg(symbol: string, action: Action, optionType: OptionType, strike: int,
                     expiration: int, quantity: int, entryPrice: int)

  predicate IsLong(leg: Leg) {
    leg.action == BuyToOpen || leg.action == BuyToClose
  }

  // ------------------------------------------------------------------ settlement

  function Intrinsic(leg: Leg, close: int): nat {
    match leg.optionType
    case Call => Max(0, close - leg.strike)
    case Put => Max(0, leg.strike - close)
  }

  function Signed(leg: Leg, v: int): int {
    if IsLong(leg) then v else -v
  }

  /** Signed intrinsic value per share of all legs at the underlying's close. */
  function ValueAt(legs: seq<Leg>, close: int): int {
    if legs == [] then 0
    else ValueAt(legs[..|legs|-1], close) + Signed(legs[|legs|-1], Intrinsic(legs[|legs|-1], close))
  }

  /** `structure_value_at_expiry` */
  method StructureValueAtExpiry(legs: seq<Leg>, close: int) returns (total: int)
    ensures total == ValueAt(legs, close)
  {
    total := 0;
    var i := 0;
    while i < |legs|
      invariant 0 <= i <= |legs| && total == ValueAt(legs[..i], close)
    {
      assert legs[..i+1][..i] == legs[..i];
      var intrinsic := if legs[i].optionType == Call then Max(0, close - legs[i].strike)
                       else Max(0, legs[i].strike - close);
      total := total + if IsLong(legs[i]) then intrinsic else -intrinsic;
      i := i + 1;
    }
    assert legs[..i] == legs;
  }

  /** Premium per share: positive for a net debit, negative for a net credit. */
  function NetPerShare(legs: seq<Leg>): int {
    if legs == [] then 0
    else NetPerShare(legs[..|legs|-1]) + Signed(legs[|legs|-1], legs[|legs|-1].entryPrice)
  }

  /** `_net_per_share` */
  method ComputeNetPerShare(legs: seq<Leg>) returns (net: int)
    ensures net == NetPerShare(legs)
  {
    net := 0;
    var i := 0;
    while i < |legs|
      invariant 0 <= i <= |legs| && net == NetPerShare(legs[..i])
    {
      assert legs[..i+1][..i] == legs[..i];
      net := net + if IsLong(legs[i]) then legs[i].entryPrice else -legs[i].entryPrice;
      i := i + 1;
    }
    assert legs[..i] == legs;
  }

  /** Gross profit of one contract held to expiry, in cents. */
  function ProfitAt(legs: seq<Leg>, close: int): int {
    ValueAt(legs, close) - NetPerShare(legs)
  }

  // --------------------------------------------------------- recognised structures

  /** The legs a strategy label stands for, in the order the builders emit them. */
  ghost predicate Structure(s: Strategy, legs: seq<Leg>) {
    && (forall i | 0 <= i < |legs| :: legs[i].action in {BuyToOpen, SellToOpen})
    && (forall i | 0 <= i < |legs| :: legs[i].expiration == legs[0].expiration)
    && match s
       case LongCall => |legs| == 1 && Buys(legs[0], Call)
       case LongPut => |legs| == 1 && Buys(legs[0], Put)
       case BullCallSpread =>
         |legs| == 2 && Buys(legs[0], Call) && Sells(legs[1], Call) && legs[0].strike < legs[1].strike
       case BearPutSpread =>
         |legs| == 2 && Buys(legs[0], Put) && Sells(legs[1], Put) && legs[1].strike < legs[0].strike
       case BullPutSpread =>
         |legs| == 2 && Sells(legs[0], Put) && Buys(legs[1], Put) && legs[1].strike < legs[0].strike
       case BearCallSpread =>
         |legs| == 2 && Sells(legs[0], Call) && Buys(legs[1], Call) && legs[0].strike < legs[1].strike
       case LongStraddle =>
         |legs| == 2 && Buys(legs[0], Call) && Buys(legs[1], Put) && legs[0].strike == legs[1].strike
       case LongStrangle =>
         |legs| == 2 && Buys(legs[0], Call) && Buys(legs[1], Put)
       case IronCondor =>
         && |legs| == 4
         && Sells(legs[0], Put) && Buys(legs[1], Put) && Sells(legs[2], Call) && Buys(legs[3], Call)
         && legs[1].strike < legs[0].strike < legs[2].strike < legs[3].strike
  }

  predicate Buys(leg: Leg, t: OptionType) {
    leg.action == BuyToOpen && leg.optionType == t
  }

  predicate Sells(leg: Leg, t: OptionType) {
    leg.action == SellToOpen && leg.optionType == t
  }

  /** Width of the (wider) spread in the structure; 0 when nothing is sold. */
  function Width(s: Strategy, legs: seq<Leg>): int {
    match s
    case IronCondor =>
      if |legs| == 4 then Max(legs[0].strike - legs[1].strike, legs[3].strike - legs[2].strike) else 0
    case BullCallSpread | BearPutSpread | BullPutSpread | BearCallSpread =>
      if |legs| == 2 then Abs(legs[0].strike - legs[1].strike) else 0
    case _ => 0
  }

  predicate IsCredit(s: Strategy) {
    s in {BullPutSpread, BearCallSpread, IronCondor}
  }

  /** The stated worst case per contract: the debit, or width less credit. */
  function MaxLoss(s: Strategy, legs: seq<Leg>): int {
    if IsCredit(s) then Width(s, legs) + NetPerShare(legs) else NetPerShare(legs)
  }

  /** The stated best case per contract; None when it is not capped. */
  function MaxProfit(s: Strategy, legs: seq<Leg>): Option<int> {
    match s
    case BullPutSpread | BearCallSpread | IronCondor => Some(-NetPerShare(legs))
    case BullCallSpread | BearPutSpread => Some(Width(s, legs) - NetPerShare(legs))
    case _ => None
  }

  lemma {:induction false} OneLeg(a: Leg, close: int)
    ensures ValueAt([a], close) == Signed(a, Intrinsic(a, close))
    ensures NetPerShare([a]) == Signed(a, a.entryPrice)
  {
    assert [a][..0] == [];
  }

  lemma {:induction false} TwoLegs(a: Leg, b: Leg, close: int)
    ensures ValueAt([a, b], close) == Signed(a, Intrinsic(a, close)) + Signed(b, Intrinsic(b, close))
    ensures NetPerShare([a, b]) == Signed(a, a.entryPrice) + Signed(b, b.entryPrice)
  {
    assert [a, b][..1] == [a];
    OneLeg(a, close);
  }

  lemma {:induction false} FourLegs(a: Leg, b: Leg, c: Leg, d: Leg, close: int)
    ensures ValueAt([a, b, c, d], close)
         == Signed(a, Intrinsic(a, close)) + Signed(b, Intrinsic(b, close))
          + Signed(c, Intrinsic(c, close)) + Signed(d, Intrinsic(d, close))
    ensures NetPerShare([a, b, c, d])
         == Signed(a, a.entryPrice) + Signed(b, b.entryPrice)
          + Signed(c, c.entryPrice) + Signed(d, d.entryPrice)
  {
    assert [a, b, c, d][..3] == [a, b, c];
    assert [a, b, c][..2] == [a, b];
    TwoLegs(a, b, close);
  }

  /** The value of each structure written out leg by leg. */
  lemma {:induction false} StructureValue(s: Strategy, legs: seq<Leg>, close: int)
    requires Structure(s, legs)
    ensures |legs| == 1 ==> ValueAt(legs, close) == Signed(legs[0], Intrinsic(legs[0], close))
    ensures |legs| == 2 ==>
              (ValueAt(legs, close) == Signed(legs[0], Intrinsic(legs[0], close))
                                     + Signed(legs[1], Intrinsic(legs[1], close)))
    ensures |legs| == 4 ==>
              (ValueAt(legs, close) == Signed(legs[0], Intrinsic(legs[0], close))
                                     + Signed(legs[1], Intrinsic(legs[1], close))
                                     + Signed(legs[2], Intrinsic(legs[2], close))
                                     + Signed(legs[3], Intrinsic(legs[3], close)))
  {
    if |legs| == 1 {
      assert legs == [legs[0]];
      OneLeg(legs[0], close);
    } else if |legs| == 2 {
      assert legs == [legs[0], legs[1]];
      TwoLegs(legs[0], legs[1], close);
    } else if |legs| == 4 {
      assert legs == [legs[0], legs[1], legs[2], legs[3]];
      FourLegs(legs[0], legs[1], legs[2], legs[3], close);
    }
  }

  /** Defined risk: wherever the underlying closes, the expiry profit lies between
      minus the stated worst case and the stated best case. */
  lemma {:induction false} ProfitIsBounded(s: Strategy, legs: seq<Leg>, close: int)
    requires Structure(s, legs)
    ensures ProfitAt(legs, close) >= -MaxLoss(s, legs)
    ensures MaxProfit(s, legs).Some? ==> ProfitAt(legs, close) <= MaxProfit(s, legs).value
  {
    StructureValue(s, legs, close);
  }

  /** A close at which the structure does its worst. */
  function WorstClose(s: Strategy, legs: seq<Leg>): int
    requires |legs| > 0
  {
    match s
    case LongPut | BearPutSpread => legs[0].strike
    case IronCondor =>
      if |legs| == 4 && legs[0].strike - legs[1].strike < legs[3].strike - legs[2].strike then legs[3].strike
      else 0
    case BearCallSpread => if |legs| == 2 then legs[1].strike else 0
    case LongStraddle => legs[0].strike
    case LongStrangle => legs[0].strike
    case _ => 0
  }

  /** The stated worst case is not merely a bound: some non-negative close attains
      it, for every structure except a strangle whose strikes are crossed. */
  lemma {:induction false} WorstCaseAttained(s: Strategy, legs: seq<Leg>)
    requires Structure(s, legs) && forall i | 0 <= i < |legs| :: legs[i].strike >= 0
    requires s == LongStrangle ==> legs[1].strike <= legs[0].strike
    ensures WorstClose(s, legs) >= 0
    ensures ProfitAt(legs, WorstClose(s, legs)) == -MaxLoss(s, legs)
  {
    StructureValue(s, legs, WorstClose(s, legs));
  }

  /** A strangle bought with the put strike above the call strike always keeps the
      gap between them, so its stated worst case is never reached. */
  lemma {:induction false} CrossedStrangleKeepsGap(legs: seq<Leg>, close: int)
    requires Structure(LongStrangle, legs)
    ensures ProfitAt(legs, close) >= -MaxLoss(LongStrangle, legs) + legs[1].strike - legs[0].strike
  {
    StructureValue(LongStrangle, legs, close);
  }

  /** The stated worst case is reached at some close exactly when the structure is not a
      crossed strangle. */
  lemma {:induction false} WorstCaseAttainedExactly(s: Strategy, legs: seq<Leg>)
    requires Structure(s, legs) && forall i | 0 <= i < |legs| :: legs[i].strike >= 0
    ensures (exists close :: close >= 0 && ProfitAt(legs, close) == -MaxLoss(s, legs))
       <==> (s == LongStrangle ==> legs[1].strike <= legs[0].strike)
  {
    if s == LongStrangle && legs[1].strike > legs[0].strike {
      forall close ensures ProfitAt(legs, close) != -MaxLoss(s, legs) {
        CrossedStrangleKeepsGap(legs, close);
      }
    } else {
      WorstCaseAttained(s, legs);
    }
  }
}
