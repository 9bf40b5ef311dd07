/** Filling a vertical against recorded quotes (app/domain/historic.py,
    app/backtest/fill_model.py). Prices and dollars are exact reals. */
module RealMarkFills {
  import opened Basics

  datatype Quote = Quote(date: int, bid: Option<real>, ask: Option<real>,
                         openInterest: Option<int>, volume: Option<int>)

  /** NBBO midpoint; None when a side is missing or the quote is crossed. */
  function Mid(q: Quote): Option<real> {
    match (q.bid, q.ask)
    case (Some(bid), Some(ask)) => if ask < bid then None else Some((bid + ask) / 2.0)
    case _ => None
  }

  function HalfSpread(q: Quote): Option<real> {
    match (q.bid, q.ask)
    case (Some(bid), Some(ask)) => if (ask - bid) / 2.0 >= 0.0 then Some((ask - bid) / 2.0) else None
    case _ => None
  }

  datatype Side = Buy | Sell

  /** `leg_fill` */
  function LegFill(q: Quote, side: Side, k: real): Option<real> {
    match (Mid(q), HalfSpread(q))
    case (Some(mid), Some(half)) => Some(if side == Buy then mid + k * half else mid - k * half)
    case _ => None
  }

  /** `spread_net_debit` */
  function SpreadNetDebit(long: Quote, short: Quote, k: real, close: bool): Option<real> {
    var longLeg := LegFill(long, if close then Sell else Buy, k);
    var shortLeg := LegFill(short, if close then Buy else Sell, k);
    match (longLeg, shortLeg)
    case (Some(l), Some(s)) => Some(l - s)
    case _ => None
  }

  function RoundTripCommission(contracts: int, legs: int, rate: real): real {
    rate * contracts as real * legs as real * 2.0
  }

  datatype RoundTrip = RoundTrip(entry: Option<real>, exit: Option<real>, gross: Option<real>,
                                 commissions: real, net: Option<real>)

  predicate Fillable(r: RoundTrip) {
    r.entry.Some? && r.exit.Some?
  }

  function Gross(entry: real, exit: real, contracts: int): real {
    (exit - entry) * 100.0 * contracts as real
  }

  /** `round_trip_pnl` */
  function RoundTripPnl(entryLong: Quote, entryShort: Quote, exitLong: Quote, exitShort: Quote, k: real, contracts: int,
                        rate: real): RoundTrip
  {
    var entry := SpreadNetDebit(entryLong, entryShort, k, false);
    var exit := SpreadNetDebit(exitLong, exitShort, k, true);
    var commissions := RoundTripCommission(contracts, 2, rate);
    match (entry, exit)
    case (Some(e), Some(x)) =>
      var gross := Gross(e, x, contracts);
      RoundTrip(entry, exit, Some(gross), commissions, Some(gross - commissions))
    case _ => RoundTrip(entry, exit, None, commissions, None)
  }

  datatype Liquidity = Liquidity(minOi: int, minVol: int, maxSpreadPct: real)

  /** `tradeable` */
  predicate Tradeable(q: Quote, cfg: Liquidity) {
    && Mid(q).Some? && Mid(q).value > 0.0
    && q.openInterest.Some? && q.openInterest.value >= cfg.minOi
    && q.volume.Some? && q.volume.value >= cfg.minVol
    && HalfSpread(q).Some?
    && (2.0 * HalfSpread(q).value) / Mid(q).value <= cfg.maxSpreadPct
  }

  // ------------------------------------------------------------------------- claims

  /** A quote that has a mid has a half spread, and the far touches are exactly the
      bid and the ask. */
  lemma {:induction false} CrossingReachesTheTouch(q: Quote)
    ensures Mid(q).Some? <==> HalfSpread(q).Some?
    ensures Mid(q).Some? ==> LegFill(q, Buy, 1.0) == q.ask && LegFill(q, Sell, 1.0) == q.bid
    ensures Mid(q).Some? ==> LegFill(q, Buy, 0.0) == Mid(q) == LegFill(q, Sell, 0.0)
  {
  }

  lemma {:induction false} ScaleMonotone(a: real, b: real, h: real)
    requires a <= b && h >= 0.0
    ensures a * h <= b * h
  {
  }

  /** Crossing more of the spread never buys cheaper nor sells dearer. */
  lemma {:induction false} FillWorsens(q: Quote, k: real, more: real)
    requires k <= more
    ensures LegFill(q, Buy, k).Some? <==> Mid(q).Some?
    ensures LegFill(q, Sell, k).Some? <==> Mid(q).Some?
    ensures Mid(q).Some? ==>
              && LegFill(q, Buy, k).value <= LegFill(q, Buy, more).value
              && LegFill(q, Sell, more).value <= LegFill(q, Sell, k).value
  {
    if Mid(q).Some? {
      CrossingReachesTheTouch(q);
      ScaleMonotone(k, more, HalfSpread(q).value);
    }
  }

  /** A vertical opens no cheaper and closes no dearer at the larger fraction. */
  lemma {:induction false} SpreadWorsens(long: Quote, short: Quote, k: real, more: real, close: bool)
    requires k <= more
    ensures SpreadNetDebit(long, short, k, close).Some? <==> Mid(long).Some? && Mid(short).Some?
    ensures SpreadNetDebit(long, short, more, close).Some? <==> Mid(long).Some? && Mid(short).Some?
    ensures Mid(long).Some? && Mid(short).Some? ==>
              var a, b := SpreadNetDebit(long, short, k, close).value, SpreadNetDebit(long, short, more, close).value;
              if close then b <= a else a <= b
  {
    FillWorsens(long, k, more);
    FillWorsens(short, k, more);
    FillWorsens(long, more, more);
    FillWorsens(short, more, more);
  }

  lemma {:induction false} GrossMonotone(entry: real, exit: real, dearer: real, cheaper: real, contracts: int)
    requires contracts >= 0 && entry <= dearer && cheaper <= exit
    ensures Gross(dearer, cheaper, contracts) <= Gross(entry, exit, contracts)
  {
    var a, b := (cheaper - dearer) * 100.0, (exit - entry) * 100.0;
    ScaleMonotone(a, b, contracts as real);
  }

  /** Paying more of the spread can only lose money, and never changes whether the
      trade could be filled. */
  lemma {:induction false} SlippageOnlyCosts(entryLong: Quote, entryShort: Quote, exitLong: Quote, exitShort: Quote,
                                             k: real, more: real, contracts: int, rate: real)
    requires k <= more && contracts >= 0
    ensures var a := RoundTripPnl(entryLong, entryShort, exitLong, exitShort, k, contracts, rate);
      var b := RoundTripPnl(entryLong, entryShort, exitLong, exitShort, more, contracts, rate);
      && (Fillable(a) <==> Fillable(b))
      && (Fillable(a) <==> a.net.Some?) && (Fillable(b) <==> b.net.Some?)
      && (Fillable(a) ==> b.net.value <= a.net.value)
  {
    SpreadWorsens(entryLong, entryShort, k, more, false);
    SpreadWorsens(exitLong, exitShort, k, more, true);
    var a := RoundTripPnl(entryLong, entryShort, exitLong, exitShort, k, contracts, rate);
    var b := RoundTripPnl(entryLong, entryShort, exitLong, exitShort, more, contracts, rate);
    if Fillable(a) {
      GrossMonotone(a.entry.value, a.exit.value, b.entry.value, b.exit.value, contracts);
    }
  }

  /** The code's k = 0.5 is halfway between the mid and the touch; it is a fill at the
      mid only for a quote without a spread. */
  lemma {:induction false} HalfFractionIsNotTheMid(q: Quote, side: Side)
    requires Mid(q).Some?
    ensures LegFill(q, side, 0.5) == Mid(q) <==> q.bid == q.ask
  {
  }

  /** At the full spread the net is the cash that changes hands: buys at the ask, sells
      at the bid, on both days, less four commissions a contract. */
  lemma {:induction false} FullSpreadIsCash(entryLong: Quote, entryShort: Quote, exitLong: Quote, exitShort: Quote,
                                            contracts: int, rate: real)
    requires Mid(entryLong).Some? && Mid(entryShort).Some? && Mid(exitLong).Some? && Mid(exitShort).Some?
    ensures var r := RoundTripPnl(entryLong, entryShort, exitLong, exitShort, 1.0, contracts, rate);
      var shares := 100.0 * contracts as real;
      && r.net.Some?
      && r.net.value == (exitLong.bid.value - exitShort.ask.value) * shares
                        - (entryLong.ask.value - entryShort.bid.value) * shares
                        - 4.0 * (rate * contracts as real)
  {
    CrossingReachesTheTouch(entryLong);
    CrossingReachesTheTouch(entryShort);
    CrossingReachesTheTouch(exitLong);
    CrossingReachesTheTouch(exitShort);
    GrossSplits(entryLong.ask.value - entryShort.bid.value, exitLong.bid.value - exitShort.ask.value, contracts);
    assert RoundTripCommission(contracts, 2, rate) == 4.0 * (rate * contracts as real);
  }

  lemma {:induction false} GrossSplits(entry: real, exit: real, contracts: int)
    ensures Gross(entry, exit, contracts) == exit * (100.0 * contracts as real) - entry * (100.0 * contracts as real)
  {
  }
}
