/** Broker fills and the episodes rebuilt from them (scripts/rh_sync.py).
    Prices are whole 1e-4 dollars per share, quantities whole contracts,
    timestamps whole UTC seconds and expirations whole UTC days. */
module Fills {
  import opened Basics
  import opened Seqs

  datatype Right = Call | Put

  datatype Effect = Open | Close | Expiry

  datatype Contract = Contract(right: Right, strike: int, expiration: int)

  /** signedQty is positive for a buy and negative for a sell. */
  datatype Fill = Fill(ts: int, symbol: string, contract: Contract, signedQty: int, price: int,
                       effect: Effect, orderId: string)

  datatype Episode = Episode(symbol: string, fills: seq<Fill>)

  const SECONDS_PER_DAY := 86400
  const EXPIRY_CLOSE_SECONDS := 72000

  function Day(ts: int): int {
    ts / SECONDS_PER_DAY
  }

  /** The $0 fill that shuts a contract held past its expiration. */
  function ExpiryFill(symbol: string, k: Contract, held: int): Fill {
    Fill(k.expiration * SECONDS_PER_DAY + EXPIRY_CLOSE_SECONDS, symbol, k, -held, 0, Expiry, "")
  }

  /** It is stamped 20:00 of the expiration day, and shuts exactly what was held for nothing. */
  lemma {:induction false} ExpiryFillIs(symbol: string, k: Contract, held: int)
    ensures var f := ExpiryFill(symbol, k, held);
      && Day(f.ts) == k.expiration && f.ts - 86400 * k.expiration == 20 * 3600
      && f.signedQty + held == 0 && f.price == 0 && f.contract == k && f.effect == Expiry && f.symbol == symbol
  {
  }

  // --------------------------------------------------------------- positions

  /** Signed position of one contract after a list of fills. */
  function Net(fills: seq<Fill>, k: Contract): int {
    if fills == [] then 0
    else
      var f := fills[|fills|-1];
      Net(fills[..|fills|-1], k) + if f.contract == k then f.signedQty else 0
  }

  /** `Episode.is_closed`: every contract touched nets to zero. */
  predicate Flat(fills: seq<Fill>) {
    forall f | f in fills :: Net(fills, f.contract) == 0
  }

  lemma {:induction false} NetSnoc(fills: seq<Fill>, f: Fill, k: Contract)
    ensures Net(fills + [f], k) == Net(fills, k) + if f.contract == k then f.signedQty else 0
  {
    assert (fills + [f])[..|fills + [f]| - 1] == fills;
  }

  lemma {:induction false} NetAppend(a: seq<Fill>, b: seq<Fill>, k: Contract)
    ensures Net(a + b, k) == Net(a, k) + Net(b, k)
    decreases |b|
  {
    if b == [] {
      assert a + b == a;
    } else {
      var n := |b| - 1;
      AppendSnoc(a, b);
      SplitLast(b);
      NetAppend(a, b[..n], k);
      NetSnoc(a + b[..n], b[n], k);
      NetSnoc(b[..n], b[n], k);
    }
  }

  lemma {:induction false} NetAbsent(fills: seq<Fill>, k: Contract)
    requires forall f | f in fills :: f.contract != k
    ensures Net(fills, k) == 0
  {
    if fills != [] {
      NetAbsent(fills[..|fills|-1], k);
    }
  }

  /** Being closed means no contract whatsoever has a position. */
  lemma {:induction false} FlatNet(fills: seq<Fill>, k: Contract)
    requires Flat(fills)
    ensures Net(fills, k) == 0
  {
    if f :| f in fills && f.contract == k {
      assert Net(fills, f.contract) == 0;
    } else {
      NetAbsent(fills, k);
    }
  }

  lemma {:induction false} FlatIff(fills: seq<Fill>)
    ensures Flat(fills) <==> forall k :: Net(fills, k) == 0
  {
    if Flat(fills) {
      forall k {
        FlatNet(fills, k);
      }
    } else {
      var f :| f in fills && Net(fills, f.contract) != 0;
      var k := f.contract;
      assert Net(fills, k) != 0;
    }
  }

  // ---------------------------------------------------------------- real fills

  predicate IsReal(f: Fill) {
    f.effect != Expiry
  }

  predicate IsOpening(f: Fill) {
    f.effect == Open
  }

  function Reals(fills: seq<Fill>): seq<Fill> {
    Filter(IsReal, fills)
  }

  /** All fills of a list of episodes, in order. */
  function AllFills(eps: seq<Episode>): seq<Fill> {
    if eps == [] then [] else AllFills(eps[..|eps|-1]) + eps[|eps|-1].fills
  }

  lemma {:induction false} AllFillsSnoc(eps: seq<Episode>, e: Episode)
    ensures AllFills(eps + [e]) == AllFills(eps) + e.fills
  {
    assert (eps + [e])[..|eps + [e]| - 1] == eps;
  }

  lemma {:induction false} AllFillsAppend(a: seq<Episode>, b: seq<Episode>)
    ensures AllFills(a + b) == AllFills(a) + AllFills(b)
    decreases |b|
  {
    if b == [] {
      assert a + b == a;
    } else {
      var n := |b| - 1;
      AppendSnoc(a, b);
      AllFillsAppend(a, b[..n]);
      AllFillsSnoc(a + b[..n], b[n]);
      AppendAssociates(AllFills(a), AllFills(b[..n]), b[n].fills);
    }
  }

  lemma {:induction false} AllFillsMember(eps: seq<Episode>, e: Episode, f: Fill)
    requires e in eps && f in e.fills
    ensures f in AllFills(eps)
  {
    if eps[|eps|-1] != e {
      AllFillsMember(eps[..|eps|-1], e, f);
    }
  }

  /** Reordering episodes reorders their fills. */
  lemma {:induction false} AllFillsPermutes(a: seq<Episode>, b: seq<Episode>)
    requires multiset(a) == multiset(b)
    ensures multiset(AllFills(a)) == multiset(AllFills(b))
    decreases |a|
  {
    if a == [] {
      assert |b| == |multiset(b)| == 0;
    } else {
      var x := a[|a|-1];
      assert x in multiset(b);
      var i :| 0 <= i < |b| && b[i] == x;
      assert b == (b[..i] + [x]) + b[i+1..];
      DropLast(a);
      AllFillsPermutes(a[..|a|-1], b[..i] + b[i+1..]);
      AllFillsAppend(b[..i], b[i+1..]);
      AllFillsAppend(b[..i] + [x], b[i+1..]);
      AllFillsSnoc(b[..i], x);
    }
  }

  // ----------------------------------------------------------------- cash

  /** Cash paid: price times signed quantity over the fills a filter keeps. */
  function Cash(fills: seq<Fill>): int {
    if fills == [] then 0
    else Cash(fills[..|fills|-1]) + fills[|fills|-1].price * fills[|fills|-1].signedQty
  }

  /** Buying low and selling high leaves less cash paid: a position closed in full pays its
      size times the difference of the two prices. */
  lemma {:induction false} RoundTripCash(o: Fill, c: Fill)
    requires c.signedQty == -o.signedQty
    ensures Cash([o, c]) == o.signedQty * (o.price - c.price)
  {
    assert [o][..0] == [] && [c][..0] == [];
    assert [o, c] == [o] + [c];
    CashAppend([o], [c]);
    assert Cash([o]) == o.price * o.signedQty && Cash([c]) == c.price * c.signedQty;
    Difference(o.signedQty, o.price, c.price);
  }

  lemma {:induction false} Difference(q: int, a: int, b: int)
    ensures q * (a - b) == a * q + b * -q
  {
  }

  lemma {:induction false} CashAppend(a: seq<Fill>, b: seq<Fill>)
    ensures Cash(a + b) == Cash(a) + Cash(b)
    decreases |b|
  {
    if b == [] {
      assert a + b == a;
    } else {
      var n := |b| - 1;
      assert (a + b)[..|a+b|-1] == a + b[..n];
      CashAppend(a, b[..n]);
    }
  }

  /** Cash does not depend on the order of the fills. */
  lemma {:induction false} CashPermutes(a: seq<Fill>, b: seq<Fill>)
    requires multiset(a) == multiset(b)
    ensures Cash(a) == Cash(b)
    decreases |a|
  {
    if a == [] {
      assert |b| == |multiset(b)| == 0;
    } else {
      var x := a[|a|-1];
      assert x in multiset(b);
      var i :| 0 <= i < |b| && b[i] == x;
      assert b == b[..i] + ([x] + b[i+1..]);
      DropLast(a);
      CashPermutes(a[..|a|-1], b[..i] + b[i+1..]);
      CashAppend(b[..i], b[i+1..]);
      CashAppend(b[..i], [x] + b[i+1..]);
      CashAppend([x], b[i+1..]);
    }
  }

  // ------------------------------------------------------- episode properties

  function OpenedAt(e: Episode): Option<int> {
    MinTs(Filter(IsOpening, e.fills))
  }

  function MinTs(fills: seq<Fill>): Option<int> {
    if fills == [] then None
    else match MinTs(fills[..|fills|-1])
      case None => Some(fills[|fills|-1].ts)
      case Some(m) => Some(Min(m, fills[|fills|-1].ts))
  }

  /** f opens the episode: no opening fill of it is earlier. */
  predicate OpensWith(fills: seq<Fill>, f: Fill) {
    f in fills && f.effect == Open && forall g | g in fills && g.effect == Open :: f.ts <= g.ts
  }

  lemma {:induction false} MinTsIsLeast(fills: seq<Fill>)
    ensures match MinTs(fills)
      case None => fills == []
      case Some(t) => (exists f :: f in fills && f.ts == t) && forall f | f in fills :: t <= f.ts
  {
    if fills != [] {
      MinTsIsLeast(fills[..|fills|-1]);
      SplitLast(fills);
      assert fills[|fills|-1] in fills;
    }
  }

  /** `opened_at` is the time of the earliest opening fill, and missing without one. */
  lemma {:induction false} OpenedAtIsEarliest(e: Episode)
    ensures OpenedAt(e).None? <==> forall f | f in e.fills :: f.effect != Open
    ensures OpenedAt(e).Some? ==> exists f :: OpensWith(e.fills, f) && f.ts == OpenedAt(e).value
    ensures forall f | OpensWith(e.fills, f) :: OpenedAt(e) == Some(f.ts)
  {
    var opening := Filter(IsOpening, e.fills);
    MinTsIsLeast(opening);
    if OpenedAt(e).Some? {
      var f :| f in opening && f.ts == OpenedAt(e).value;
      assert OpensWith(e.fills, f);
    }
    forall f | OpensWith(e.fills, f) ensures OpenedAt(e) == Some(f.ts) {
      assert f in opening;
    }
  }

  predicate IsClosing(f: Fill) {
    f.effect != Open
  }

  /** Smallest absolute opening position among the contracts of `over` whose
      opening position is not zero; 0 when there is none. */
  function SmallestLeg(opening: seq<Fill>, over: seq<Fill>): nat {
    if over == [] then 0
    else
      var rest := SmallestLeg(opening, over[..|over|-1]);
      var q := Abs(Net(opening, over[|over|-1].contract));
      if q == 0 then rest
      else if rest == 0 || q < rest then q
      else rest
  }

  /** `Episode.contracts`: lots held, the smallest opening leg. */
  function Lots(e: Episode): nat {
    SmallestLeg(Filter(IsOpening, e.fills), Filter(IsOpening, e.fills))
  }

  function PerLot(e: Episode): nat
    ensures PerLot(e) > 0
  {
    if Lots(e) == 0 then 1 else Lots(e)
  }

  /** Totals are divided by the lots, or by one when nothing is left of the opening. */
  lemma {:induction false} PerLotIsLots(e: Episode)
    ensures PerLot(e) == Max(1, Lots(e))
  {
  }

  /** Debit paid per lot at entry, rounded to 1e-4. */
  function EntryNet(e: Episode): int {
    RoundDiv(Cash(Filter(IsOpening, e.fills)), PerLot(e))
  }

  /** Credit received per lot at exit, rounded to 1e-4; None while nothing closed. */
  function ExitNet(e: Episode): Option<int> {
    var closing := Filter(IsClosing, e.fills);
    if closing == [] then None else Some(RoundDiv(-Cash(closing), PerLot(e)))
  }

  lemma {:induction false} CashOpensAndCloses(fills: seq<Fill>)
    ensures Cash(fills) == Cash(Filter(IsOpening, fills)) + Cash(Filter(IsClosing, fills))
  {
    if fills != [] {
      var n := |fills| - 1;
      CashOpensAndCloses(fills[..n]);
      if IsOpening(fills[n]) {
        assert Filter(IsOpening, fills)[..|Filter(IsOpening, fills)|-1] == Filter(IsOpening, fills[..n]);
      } else {
        assert Filter(IsClosing, fills)[..|Filter(IsClosing, fills)|-1] == Filter(IsClosing, fills[..n]);
      }
    }
  }

  /** The per-lot entry and exit nets reproduce the cash of the whole episode:
      (exit - entry) * n is minus the cash paid, up to the two roundings. */
  lemma {:induction false} NetsReproduceCash(e: Episode)
    requires ExitNet(e).Some?
    ensures Abs((ExitNet(e).value - EntryNet(e)) * PerLot(e) + Cash(e.fills)) <= PerLot(e)
  {
    CashOpensAndCloses(e.fills);
    var paid, received := Cash(Filter(IsOpening, e.fills)), -Cash(Filter(IsClosing, e.fills));
    EntryNetNear(e);
    ExitNetNear(e);
    NearestAdd(paid, received, EntryNet(e), ExitNet(e).value, PerLot(e));
  }

  lemma {:induction false} EntryNetNear(e: Episode)
    ensures 2 * Abs(PerLot(e) * EntryNet(e) - Cash(Filter(IsOpening, e.fills))) <= PerLot(e)
  {
  }

  lemma {:induction false} ExitNetNear(e: Episode)
    requires ExitNet(e).Some?
    ensures 2 * Abs(PerLot(e) * ExitNet(e).value - -Cash(Filter(IsClosing, e.fills))) <= PerLot(e)
  {
  }

  lemma {:induction false} NearestAdd(paid: int, received: int, entry: int, exit: int, n: nat)
    requires 2 * Abs(n * entry - paid) <= n && 2 * Abs(n * exit - received) <= n
    ensures Abs((exit - entry) * n + paid - received) <= n
  {
    assert (exit - entry) * n == n * exit - n * entry;
  }

  lemma {:induction false} EntryNetExact(e: Episode, entry: int)
    requires Cash(Filter(IsOpening, e.fills)) == PerLot(e) * entry
    ensures EntryNet(e) == entry
  {
    RoundDivExact(entry, PerLot(e));
  }

  lemma {:induction false} ExitNetExact(e: Episode, exit: int)
    requires ExitNet(e).Some?
    requires -Cash(Filter(IsClosing, e.fills)) == PerLot(e) * exit
    ensures ExitNet(e) == Some(exit)
  {
    RoundDivExact(exit, PerLot(e));
  }

  /** When both totals divide evenly the identity is exact. */
  lemma {:induction false} NetsReproduceCashExactly(e: Episode, entry: int, exit: int)
    requires ExitNet(e).Some?
    requires Cash(Filter(IsOpening, e.fills)) == PerLot(e) * entry
    requires -Cash(Filter(IsClosing, e.fills)) == PerLot(e) * exit
    ensures EntryNet(e) == entry && ExitNet(e).value == exit
    ensures (ExitNet(e).value - EntryNet(e)) * PerLot(e) == -Cash(e.fills)
  {
    EntryNetExact(e, entry);
    ExitNetExact(e, exit);
    CashOpensAndCloses(e.fills);
    Distributes(exit, entry, PerLot(e));
  }

  lemma {:induction false} Distributes(x: int, y: int, n: int)
    ensures (x - y) * n == n * x - n * y
  {
  }
}
