/** The legs an episode opened (`Episode.opening_legs` and `Episode.contracts` in
    scripts/rh_sync.py). */
module OpeningLegs {
  import opened Basics
  import opened Seqs
  import opened Fills

  /** Signed quantity opened and its average price per share. */
  datatype OpenLeg = OpenLeg(contract: Contract, qty: int, price: int)

  /** The running dictionaries: contracts in order of first appearance, their net
      quantity and the money they cost. */
  datatype Tally = Tally(keys: seq<Contract>, qty: map<Contract, int>, cost: map<Contract, int>)

  function Opens(e: Episode): seq<Fill> {
    Filter(IsOpening, e.fills)
  }

  /** Contracts traded, whichever the side. */
  function Traded(fills: seq<Fill>, k: Contract): nat {
    if fills == [] then 0
    else
      var f := fills[|fills|-1];
      Traded(fills[..|fills|-1], k) + if f.contract == k then Abs(f.signedQty) else 0
  }

  function Cost(fills: seq<Fill>, k: Contract): int {
    if fills == [] then 0
    else
      var f := fills[|fills|-1];
      Cost(fills[..|fills|-1], k) + if f.contract == k then f.price * Abs(f.signedQty) else 0
  }

  ghost predicate KeysOk(t: Tally) {
    && (forall k :: k in t.keys <==> k in t.qty)
    && t.cost.Keys == t.qty.Keys
    && (forall i, j | 0 <= i < j < |t.keys| :: t.keys[i] != t.keys[j])
  }

  ghost predicate Tallied(t: Tally, fills: seq<Fill>) {
    && KeysOk(t)
    && (forall f | f in fills :: f.contract in t.qty)
    && (forall k | k in t.qty :: t.qty[k] == Net(fills, k) && t.cost[k] == Cost(fills, k))
  }

  lemma {:induction false} TradedSnoc(fills: seq<Fill>, f: Fill, k: Contract)
    ensures Traded(fills + [f], k) == Traded(fills, k) + if f.contract == k then Abs(f.signedQty) else 0
    ensures Cost(fills + [f], k) == Cost(fills, k) + if f.contract == k then f.price * Abs(f.signedQty) else 0
  {
    assert (fills + [f])[..|fills|] == fills;
  }

  lemma {:induction false} Untouched(fills: seq<Fill>, k: Contract)
    requires forall f | f in fills :: f.contract != k
    ensures Net(fills, k) == 0 && Cost(fills, k) == 0
  {
    if fills != [] {
      Untouched(fills[..|fills|-1], k);
    }
  }

  function Plus(m: map<Contract, int>, k: Contract, x: int): map<Contract, int> {
    m[k := x + if k in m then m[k] else 0]
  }

  /** `qty[k] += signed_qty; cost[k] += price * abs(signed_qty)` */
  function TallyFill(t: Tally, f: Fill): Tally {
    var k := f.contract;
    Tally(if k in t.qty then t.keys else t.keys + [k], Plus(t.qty, k, f.signedQty),
          Plus(t.cost, k, f.price * Abs(f.signedQty)))
  }

  lemma {:induction false} TallyFillKeys(t: Tally, f: Fill)
    requires KeysOk(t)
    ensures KeysOk(TallyFill(t, f))
  {
  }

  lemma {:induction false} TallyFillSums(t: Tally, fills: seq<Fill>, f: Fill)
    requires Tallied(t, fills)
    ensures Tallied(TallyFill(t, f), fills + [f])
  {
    TallyFillKeys(t, f);
    var t' := TallyFill(t, f);
    forall k | k in t'.qty
      ensures t'.qty[k] == Net(fills + [f], k) && t'.cost[k] == Cost(fills + [f], k)
    {
      NetSnoc(fills, f, k);
      TradedSnoc(fills, f, k);
      if k !in t.qty {
        Untouched(fills, k);
      }
    }
  }

  lemma {:induction false} OpensNext(fills: seq<Fill>, i: nat)
    requires i < |fills|
    ensures Filter(IsOpening, fills[..i+1])
         == if fills[i].effect == Open then Filter(IsOpening, fills[..i]) + [fills[i]]
            else Filter(IsOpening, fills[..i])
  {
    TakeNext(fills, i);
    FilterSnoc(IsOpening, fills[..i], fills[i]);
  }

  lemma {:induction false} TallyNext(t: Tally, fills: seq<Fill>, i: nat)
    requires i < |fills| && Tallied(t, Filter(IsOpening, fills[..i]))
    ensures Tallied(if fills[i].effect == Open then TallyFill(t, fills[i]) else t, Filter(IsOpening, fills[..i+1]))
  {
    OpensNext(fills, i);
    TallyFillSums(t, Filter(IsOpening, fills[..i]), fills[i]);
  }

  lemma {:induction false} TradedNext(fills: seq<Fill>, i: nat, k: Contract)
    requires i < |fills|
    ensures Traded(Filter(IsOpening, fills[..i+1]), k)
         == Traded(Filter(IsOpening, fills[..i]), k)
            + if fills[i].effect == Open && fills[i].contract == k then Abs(fills[i].signedQty) else 0
  {
    OpensNext(fills, i);
    TradedSnoc(Filter(IsOpening, fills[..i]), fills[i], k);
  }

  method TallyOpens(e: Episode) returns (t: Tally)
    ensures Tallied(t, Opens(e))
  {
    t := Tally([], map[], map[]);
    var i := 0;
    while i < |e.fills|
      invariant 0 <= i <= |e.fills| && Tallied(t, Filter(IsOpening, e.fills[..i]))
    {
      TallyNext(t, e.fills, i);
      if e.fills[i].effect == Open {
        t := TallyFill(t, e.fills[i]);
      }
      i := i + 1;
    }
    TakeAll(e.fills);
  }

  lemma {:induction false} NetNeedsTrade(fills: seq<Fill>, k: Contract)
    ensures Abs(Net(fills, k)) <= Traded(fills, k)
  {
    if fills != [] {
      NetNeedsTrade(fills[..|fills|-1], k);
    }
  }

  predicate LegOrder(a: OpenLeg, b: OpenLeg) {
    a.contract.right == Right.Call != b.contract.right
    || (a.contract.right == b.contract.right && a.contract.strike <= b.contract.strike)
  }

  /** The leg an episode opened in one contract. */
  function LegOf(e: Episode, k: Contract): OpenLeg
    requires Net(Opens(e), k) != 0
  {
    NetNeedsTrade(Opens(e), k);
    OpenLeg(k, Net(Opens(e), k), RoundDiv(Cost(Opens(e), k), Traded(Opens(e), k)))
  }

  /** The legs are exactly the contracts with a net opening position, once each. */
  ghost predicate LegsOf(e: Episode, legs: seq<OpenLeg>) {
    && (forall leg | leg in legs :: Net(Opens(e), leg.contract) != 0 && leg == LegOf(e, leg.contract))
    && (forall k | Net(Opens(e), k) != 0 :: LegOf(e, k) in legs)
    && DistinctContracts(legs)
  }

  /** Legs collected from a prefix of the keys. */
  ghost predicate Collected(e: Episode, keys: seq<Contract>, legs: seq<OpenLeg>) {
    && (forall leg | leg in legs ::
          leg.contract in keys && Net(Opens(e), leg.contract) != 0 && leg == LegOf(e, leg.contract))
    && (forall k | k in keys && Net(Opens(e), k) != 0 :: LegOf(e, k) in legs)
    && DistinctContracts(legs)
  }

  method TradedQty(fills: seq<Fill>, k: Contract) returns (n: nat)
    ensures n == Traded(Filter(IsOpening, fills), k)
  {
    n := 0;
    var i := 0;
    while i < |fills|
      invariant 0 <= i <= |fills| && n == Traded(Filter(IsOpening, fills[..i]), k)
    {
      TradedNext(fills, i, k);
      if fills[i].effect == Open && fills[i].contract == k {
        n := n + Abs(fills[i].signedQty);
      }
      i := i + 1;
    }
    TakeAll(fills);
  }

  lemma {:induction false} CollectOne(e: Episode, keys: seq<Contract>, legs: seq<OpenLeg>, k: Contract)
    requires Collected(e, keys, legs) && k !in keys
    ensures Net(Opens(e), k) != 0 ==> Collected(e, keys + [k], legs + [LegOf(e, k)])
    ensures Net(Opens(e), k) == 0 ==> Collected(e, keys + [k], legs)
  {
    if Net(Opens(e), k) != 0 {
      var all := legs + [LegOf(e, k)];
      forall i, j | 0 <= i < j < |all| ensures all[i].contract != all[j].contract {
        assert j < |legs| || legs[i] in legs;
      }
    }
  }

  method CollectLegs(e: Episode, t: Tally) returns (out: seq<OpenLeg>)
    requires Tallied(t, Opens(e))
    ensures Collected(e, t.keys, out)
  {
    out := [];
    var i := 0;
    while i < |t.keys|
      invariant 0 <= i <= |t.keys| && Collected(e, t.keys[..i], out)
    {
      var k := t.keys[i];
      assert t.keys[..i+1] == t.keys[..i] + [k];
      assert k in t.keys && k !in t.keys[..i];
      CollectOne(e, t.keys[..i], out, k);
      var size := TradedQty(e.fills, k);
      var avg := if size != 0 then RoundDiv(t.cost[k], size) else 0;
      if t.qty[k] != 0 {
        NetNeedsTrade(Opens(e), k);
        out := out + [OpenLeg(k, t.qty[k], avg)];
      }
      i := i + 1;
    }
    assert t.keys[..i] == t.keys;
  }

  lemma {:induction false} LegOrderIsTotal()
    ensures TotalPreorder(LegOrder)
  {
  }

  ghost predicate DistinctContracts(legs: seq<OpenLeg>) {
    forall i, j | 0 <= i < j < |legs| :: legs[i].contract != legs[j].contract
  }

  lemma {:induction false} InsertDistinct(legs: seq<OpenLeg>, x: OpenLeg)
    requires DistinctContracts(legs) && forall leg | leg in legs :: leg.contract != x.contract
    ensures DistinctContracts(Insert(LegOrder, legs, x))
    ensures forall leg | leg in Insert(LegOrder, legs, x) :: leg == x || leg in legs
    decreases |legs|
  {
    if legs != [] {
      var n := |legs| - 1;
      assert forall i | 0 <= i < n :: legs[i] in legs && legs[i].contract != legs[n].contract;
      if !LegOrder(legs[n], x) {
        InsertDistinct(legs[..n], x);
        var r := Insert(LegOrder, legs[..n], x);
        forall i | 0 <= i < |r| ensures r[i].contract != legs[n].contract {
          assert r[i] in r;
          assert legs[n] in legs && (r[i] == x || r[i] in legs[..n]);
        }
      }
    }
  }

  lemma {:induction false} SortDistinct(legs: seq<OpenLeg>)
    requires DistinctContracts(legs)
    ensures DistinctContracts(SortBy(LegOrder, legs))
  {
    if legs != [] {
      var n := |legs| - 1;
      SortDistinct(legs[..n]);
      SortPermutes(LegOrder, legs[..n]);
      InsertDistinct(SortBy(LegOrder, legs[..n]), legs[n]);
    }
  }

  /** Calls before puts, and within each the lower strike first. */
  ghost predicate ByTypeAndStrike(legs: seq<OpenLeg>) {
    forall i, j | 0 <= i < j < |legs| ::
      && (legs[j].contract.right == Right.Call ==> legs[i].contract.right == Right.Call)
      && (legs[i].contract.right == legs[j].contract.right ==> legs[i].contract.strike <= legs[j].contract.strike)
  }

  lemma {:induction false} SortedLegs(legs: seq<OpenLeg>)
    requires Sorted(LegOrder, legs)
    ensures ByTypeAndStrike(legs)
  {
    assert forall i, j | 0 <= i < j < |legs| :: LegOrder(legs[i], legs[j]);
  }

  /** `Episode.opening_legs` */
  method ComputeOpeningLegs(e: Episode) returns (legs: seq<OpenLeg>)
    ensures LegsOf(e, legs) && ByTypeAndStrike(legs)
  {
    var t := TallyOpens(e);
    var out := CollectLegs(e, t);
    forall k | Net(Opens(e), k) != 0 ensures k in t.keys {
      if k !in t.qty {
        Untouched(Opens(e), k);
      }
    }
    legs := SortBy(LegOrder, out);
    LegOrderIsTotal();
    SortPermutes(LegOrder, out);
    SortBySorted(LegOrder, out);
    SortedLegs(legs);
    SortDistinct(out);
  }

  // --------------------------------------------------------------- averages and lots

  /** The average entry price lies between the cheapest and the dearest fill. */
  lemma {:induction false} AverageWithinPrices(e: Episode, k: Contract, lo: int, hi: int)
    requires Net(Opens(e), k) != 0
    requires forall f | f in Opens(e) && f.contract == k :: lo <= f.price <= hi
    ensures lo <= LegOf(e, k).price <= hi
  {
    NetNeedsTrade(Opens(e), k);
    CostWithin(Opens(e), k, lo, hi);
    RoundWithin(Cost(Opens(e), k), Traded(Opens(e), k), lo, hi);
  }

  lemma {:induction false} CostWithin(fills: seq<Fill>, k: Contract, lo: int, hi: int)
    requires forall f | f in fills && f.contract == k :: lo <= f.price <= hi
    ensures lo * Traded(fills, k) <= Cost(fills, k) <= hi * Traded(fills, k)
  {
    if fills != [] {
      var n := |fills| - 1;
      CostWithin(fills[..n], k, lo, hi);
      assert fills[n] in fills;
      if fills[n].contract == k {
        ScaleWithin(fills[n].price, lo, hi, Abs(fills[n].signedQty));
        assert lo * (Traded(fills[..n], k) + Abs(fills[n].signedQty))
            == lo * Traded(fills[..n], k) + lo * Abs(fills[n].signedQty);
        assert hi * (Traded(fills[..n], k) + Abs(fills[n].signedQty))
            == hi * Traded(fills[..n], k) + hi * Abs(fills[n].signedQty);
      }
    }
  }

  lemma {:induction false} ScaleWithin(p: int, lo: int, hi: int, n: nat)
    requires lo <= p <= hi
    ensures lo * n <= p * n <= hi * n
  {
  }

  lemma {:induction false} RoundWithin(total: int, n: int, lo: int, hi: int)
    requires n > 0 && lo * n <= total <= hi * n
    ensures lo <= RoundDiv(total, n) <= hi
  {
    var q := RoundDiv(total, n);
    MulAtLeast(n, lo - q);
    MulAtLeast(n, q - hi);
    assert n * (lo - q) == lo * n - n * q;
    assert n * (q - hi) == n * q - hi * n;
  }

  /** The lot count is the smallest leg, and zero exactly when nothing is open. */
  lemma {:induction false} LotsIsSmallest(e: Episode, k: Contract)
    ensures Net(Opens(e), k) != 0 ==> 1 <= Lots(e) <= Abs(Net(Opens(e), k))
    ensures Lots(e) != 0 ==> exists m :: Net(Opens(e), m) != 0 && Lots(e) == Abs(Net(Opens(e), m))
  {
    var opens := Opens(e);
    SmallestIsAttained(opens, opens);
    if Net(opens, k) != 0 {
      if forall f | f in opens :: f.contract != k {
        Untouched(opens, k);
      } else {
        var f :| f in opens && f.contract == k;
        SmallestBounds(opens, opens, f);
      }
    }
  }

  lemma {:induction false} SmallestIsAttained(opening: seq<Fill>, over: seq<Fill>)
    ensures SmallestLeg(opening, over) != 0 ==>
              exists m :: Net(opening, m) != 0 && SmallestLeg(opening, over) == Abs(Net(opening, m))
  {
    if over != [] {
      SmallestIsAttained(opening, over[..|over|-1]);
      assert Abs(Net(opening, over[|over|-1].contract)) != 0 ==> Net(opening, over[|over|-1].contract) != 0;
    }
  }

  lemma {:induction false} SmallestBounds(opening: seq<Fill>, over: seq<Fill>, f: Fill)
    requires f in over && Net(opening, f.contract) != 0
    ensures 1 <= SmallestLeg(opening, over) <= Abs(Net(opening, f.contract))
  {
    var n := |over| - 1;
    if over[n] != f {
      assert f in over[..n];
      SmallestBounds(opening, over[..n], f);
    }
  }

  /** `Episode.contracts` */
  method ComputeContracts(e: Episode) returns (n: nat)
    ensures n == Lots(e)
  {
    var legs := ComputeOpeningLegs(e);
    n := 0;
    var i := 0;
    while i < |legs|
      invariant 0 <= i <= |legs|
      invariant i == 0 <==> n == 0
      invariant forall j | 0 <= j < i :: n <= Abs(legs[j].qty)
      invariant n != 0 ==> exists j :: 0 <= j < i && n == Abs(legs[j].qty)
    {
      assert legs[i] in legs;
      var q := Abs(legs[i].qty);
      n := if i == 0 then q else Min(n, q);
      i := i + 1;
    }
    LotsFromLegs(e, legs, n);
  }

  lemma {:induction false} LotsFromLegs(e: Episode, legs: seq<OpenLeg>, n: nat)
    requires LegsOf(e, legs)
    requires |legs| == 0 <==> n == 0
    requires forall j | 0 <= j < |legs| :: n <= Abs(legs[j].qty)
    requires n != 0 ==> exists j :: 0 <= j < |legs| && n == Abs(legs[j].qty)
    ensures n == Lots(e)
  {
    if n == 0 {
      LotsIsSmallest(e, Contract(Right.Call, 0, 0));
    } else {
      var j :| 0 <= j < |legs| && n == Abs(legs[j].qty);
      assert legs[j] in legs;
      LotsIsSmallest(e, legs[j].contract);
      var m :| Net(Opens(e), m) != 0 && Lots(e) == Abs(Net(Opens(e), m));
      var i :| 0 <= i < |legs| && legs[i] == LegOf(e, m);
    }
  }
}
