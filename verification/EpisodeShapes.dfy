/** What an episode is made of (`_split_flat`, scripts/rh_sync.py): its real fills, and
    between them the synthetic fills that its own positions call for, told without the
    ledger that produced them. */
module EpisodeShapes {
  import opened Basics
  import opened Seqs
  import opened Fills
  import opened FlatSplit
  import opened EpisodeStarts

  // ------------------------------------------------------------------- in order of trade

  /** The contracts traded, in the order of their first fills. */
  function FirstSeen(fills: seq<Fill>): (ks: seq<Contract>)
    ensures forall k :: k in ks <==> exists f :: f in fills && f.contract == k
  {
    if fills == [] then []
    else
      var n := |fills| - 1;
      SplitLast(fills);
      var rest := FirstSeen(fills[..n]);
      if fills[n].contract in rest then rest else rest + [fills[n].contract]
  }

  ghost predicate NoRepeats(ks: seq<Contract>) {
    forall i, j | 0 <= i < j < |ks| :: ks[i] != ks[j]
  }

  lemma {:induction false} FirstSeenOnce(fills: seq<Fill>)
    ensures NoRepeats(FirstSeen(fills))
  {
    if fills != [] {
      FirstSeenOnce(fills[..|fills|-1]);
    }
  }

  lemma {:induction false} FirstSeenGrows(fills: seq<Fill>, n: nat)
    requires n <= |fills|
    ensures FirstSeen(fills[..n]) <= FirstSeen(fills)
    decreases |fills|
  {
    if n < |fills| {
      var m := |fills| - 1;
      assert fills[..m][..n] == fills[..n];
      FirstSeenGrows(fills[..m], n);
    } else {
      TakeAll(fills);
    }
  }

  /** The ledger's keys are the contracts fed, in order. */
  lemma {:induction false} LedgerKeys(symbol: string, fills: seq<Fill>)
    requires forall f | f in fills :: IsReal(f)
    ensures Run(symbol, fills).ledger.keys == FirstSeen(fills)
  {
    if fills != [] {
      var n := |fills| - 1;
      SplitLast(fills);
      LedgerKeys(symbol, fills[..n]);
      RunKeeps(symbol, fills[..n]);
      ExpireStaleValid(symbol, Run(symbol, fills[..n]), Day(fills[n].ts));
    }
  }

  // --------------------------------------------------------------------------- sweeping

  /** The synthetic fills one sweep adds to these positions. */
  function Swept(symbol: string, held: seq<Fill>, order: seq<Contract>, upTo: int): seq<Fill> {
    if order == [] then []
    else
      var k := order[|order|-1];
      Swept(symbol, held, order[..|order|-1], upTo)
      + if Net(held, k) != 0 && k.expiration < upTo then [ExpiryFill(symbol, k, Net(held, k))] else []
  }

  lemma {:induction false} SweptAppend(symbol: string, held: seq<Fill>, a: seq<Contract>, b: seq<Contract>, upTo: int)
    ensures Swept(symbol, held, a + b, upTo) == Swept(symbol, held, a, upTo) + Swept(symbol, held, b, upTo)
    decreases |b|
  {
    if b == [] {
      assert a + b == a;
    } else {
      var n := |b| - 1;
      AppendSnoc(a, b);
      SnocParts(a + b[..n], b[n]);
      SweptAppend(symbol, held, a, b[..n], upTo);
    }
  }

  lemma {:induction false} SweptNothing(symbol: string, held: seq<Fill>, order: seq<Contract>, upTo: int)
    requires forall k | k in order :: Net(held, k) == 0
    ensures Swept(symbol, held, order, upTo) == []
  {
    if order != [] {
      SplitLast(order);
      SweptNothing(symbol, held, order[..|order|-1], upTo);
    }
  }

  /** Two sweeps past every held contract do the same. */
  lemma {:induction false} SweptAlike(symbol: string, held: seq<Fill>, order: seq<Contract>, upTo: int, later: int)
    requires forall k | Net(held, k) != 0 :: k.expiration < upTo && k.expiration < later
    ensures Swept(symbol, held, order, upTo) == Swept(symbol, held, order, later)
  {
    if order != [] {
      SweptAlike(symbol, held, order[..|order|-1], upTo, later);
    }
  }

  /** Contracts that are not held do not matter to a sweep. */
  lemma {:induction false} SweptOfHeld(symbol: string, held: seq<Fill>, order: seq<Contract>, upTo: int,
                                       q: Contract -> bool)
    requires forall k | Net(held, k) != 0 :: q(k)
    ensures Swept(symbol, held, Filter(q, order), upTo) == Swept(symbol, held, order, upTo)
  {
    if order != [] {
      var n := |order| - 1;
      SweptOfHeld(symbol, held, order[..n], upTo, q);
      if q(order[n]) {
        SnocParts(Filter(q, order[..n]), order[n]);
      }
    }
  }

  lemma {:induction false} SweptContracts(symbol: string, held: seq<Fill>, order: seq<Contract>, upTo: int)
    ensures forall f | f in Swept(symbol, held, order, upTo) ::
              Net(held, f.contract) != 0 && f.contract.expiration < upTo && f.effect == Expiry
  {
    if order != [] {
      SweptContracts(symbol, held, order[..|order|-1], upTo);
    }
  }

  /** The source's loop over the ledger adds exactly those fills. */
  lemma {:induction false} ExpireKeysSweeps(symbol: string, keys: seq<Contract>, qty: map<Contract, int>, e: Episode,
                                            held: seq<Fill>, upTo: int)
    requires NoRepeats(keys) && forall k | k in keys :: Position(qty, k) == Net(held, k)
    ensures ExpireKeys(symbol, keys, qty, Some(e), upTo).1
         == Some(e.(fills := e.fills + Swept(symbol, held, keys, upTo)))
    decreases |keys|
  {
    if keys == [] {
      assert e.fills + [] == e.fills;
    } else {
      var k, rest := keys[0], keys[1..];
      assert keys == [k] + rest;
      SweptFirst(symbol, held, k, rest, upTo);
      if Position(qty, k) != 0 && k.expiration < upTo {
        var f := ExpiryFill(symbol, k, qty[k]);
        ExpireKeysSweeps(symbol, rest, qty[k := 0], e.(fills := e.fills + [f]), held, upTo);
        AppendAssociates(e.fills, [f], Swept(symbol, held, rest, upTo));
      } else {
        ExpireKeysSweeps(symbol, rest, qty, e, held, upTo);
      }
    }
  }

  lemma {:induction false} SweptFirst(symbol: string, held: seq<Fill>, k: Contract, rest: seq<Contract>, upTo: int)
    ensures Swept(symbol, held, [k] + rest, upTo)
         == if Net(held, k) != 0 && k.expiration < upTo
            then [ExpiryFill(symbol, k, Net(held, k))] + Swept(symbol, held, rest, upTo)
            else Swept(symbol, held, rest, upTo)
  {
    assert [k][..0] == [];
    SweptAppend(symbol, held, [k], rest, upTo);
    assert [] + Swept(symbol, held, rest, upTo) == Swept(symbol, held, rest, upTo);
  }

  /** Sweeping the ledger of an open episode is sweeping its own positions, in any order
      that starts with the ledger's. */
  lemma {:induction false} SweepOfEpisode(symbol: string, st: State, order: seq<Contract>, upTo: int)
    requires Inv(symbol, st) && st.current.Some?
    requires NoRepeats(order) && st.ledger.keys <= order
    ensures ExpireKeys(symbol, st.ledger.keys, st.ledger.qty, st.current, upTo).1
         == Some(st.current.value.(fills := st.current.value.fills
                                            + Swept(symbol, st.current.value.fills, order, upTo)))
  {
    var e, keys := st.current.value, st.ledger.keys;
    PrefixOnce(keys, order);
    LedgerCovers(st);
    ExpireKeysSweeps(symbol, keys, st.ledger.qty, e, e.fills, upTo);
    SweptPrefix(symbol, e.fills, keys, order, upTo);
  }

  lemma {:induction false} LedgerCovers(st: State)
    requires st.ledger.Valid() && st.current.Some? && Mirrors(st.ledger.qty, st.current.value)
    ensures forall k | Net(st.current.value.fills, k) != 0 :: k in st.ledger.keys
    ensures forall k | k in st.ledger.keys :: Position(st.ledger.qty, k) == Net(st.current.value.fills, k)
  {
  }

  lemma {:induction false} PrefixOnce(keys: seq<Contract>, order: seq<Contract>)
    requires NoRepeats(order) && keys <= order
    ensures NoRepeats(keys)
  {
    assert forall i, j | 0 <= i < j < |keys| :: keys[i] == order[i] && keys[j] == order[j];
  }

  lemma {:induction false} SweptPrefix(symbol: string, held: seq<Fill>, keys: seq<Contract>, order: seq<Contract>,
                                       upTo: int)
    requires NoRepeats(order) && keys <= order && forall k | Net(held, k) != 0 :: k in keys
    ensures Swept(symbol, held, order, upTo) == Swept(symbol, held, keys, upTo)
  {
    var n := |keys|;
    SplitAt(order, n);
    assert order[..n] == keys;
    SweptAppend(symbol, held, keys, order[n..], upTo);
    forall k | k in order[n..] ensures Net(held, k) == 0 {
      NotYetSeen(order, n, k);
    }
    SweptNothing(symbol, held, order[n..], upTo);
  }

  lemma {:induction false} NotYetSeen(order: seq<Contract>, n: nat, k: Contract)
    requires NoRepeats(order) && n <= |order| && k in order[n..]
    ensures k !in order[..n]
  {
    var j :| 0 <= j < |order| - n && order[n..][j] == k;
    forall i | 0 <= i < n ensures order[..n][i] != k {
      assert order[i] != order[n + j];
    }
  }

  // --------------------------------------------------------------------------- the shape

  /** Real fills with the synthetic fills that precede each of them. */
  function Dressed(symbol: string, own: seq<Fill>, order: seq<Contract>): seq<Fill> {
    if own == [] then []
    else
      var n := |own| - 1;
      var before := Dressed(symbol, own[..n], order);
      before + Swept(symbol, before, order, Day(own[n].ts)) + [own[n]]
  }

  /** And with those of one last sweep. */
  function Finished(symbol: string, own: seq<Fill>, order: seq<Contract>, upTo: int): seq<Fill> {
    var fills := Dressed(symbol, own, order);
    fills + Swept(symbol, fills, order, upTo)
  }

  ghost predicate Shaped(symbol: string, e: Episode, order: seq<Contract>, upTo: int) {
    e == Episode(symbol, Finished(symbol, Reals(e.fills), order, upTo))
  }

  lemma {:induction false} DressedSnoc(symbol: string, own: seq<Fill>, f: Fill, order: seq<Contract>)
    ensures Dressed(symbol, own + [f], order) == Finished(symbol, own, order, Day(f.ts)) + [f]
  {
    SnocParts(own, f);
  }

  lemma {:induction false} FlatIsFinished(symbol: string, e: Episode, order: seq<Contract>, upTo: int)
    requires e == Episode(symbol, Dressed(symbol, Reals(e.fills), order)) && Flat(e.fills)
    ensures Shaped(symbol, e, order, upTo)
  {
    forall k { FlatNet(e.fills, k); }
    SweptNothing(symbol, e.fills, order, upTo);
  }

  /** What every state of the pass keeps of the shapes. */
  ghost predicate ShapesKept(symbol: string, st: State, order: seq<Contract>, days: seq<Fill>) {
    && (forall e | e in st.episodes :: ShapedByDay(symbol, e, order, days))
    && (st.current.Some? ==>
          st.current.value == Episode(symbol, Dressed(symbol, Reals(st.current.value.fills), order)))
  }

  /** Finished by a sweep on the day of some fill. */
  ghost predicate ShapedByDay(symbol: string, e: Episode, order: seq<Contract>, days: seq<Fill>) {
    exists f :: f in days && Shaped(symbol, e, order, Day(f.ts))
  }

  /** A sweep finishes the open episode. */
  lemma {:induction false} SweepShapes(symbol: string, st: State, order: seq<Contract>, days: seq<Fill>, upTo: int)
    requires Inv(symbol, st) && st.current.Some? && ShapesKept(symbol, st, order, days)
    requires NoRepeats(order) && st.ledger.keys <= order
    ensures var e := ExpireKeys(symbol, st.ledger.keys, st.ledger.qty, st.current, upTo).1;
      e.Some? && Shaped(symbol, e.value, order, upTo) && Reals(e.value.fills) == Reals(st.current.value.fills)
  {
    SweepOfEpisode(symbol, st, order, upTo);
    ExpiredEpisode(symbol, st.ledger.keys, st.ledger.qty, st.current.value, upTo);
  }

  lemma {:induction false} FeedShapes(symbol: string, st: State, f: Fill, order: seq<Contract>, days: seq<Fill>)
    requires Inv(symbol, st) && IsReal(f) && f in days && ShapesKept(symbol, st, order, days)
    requires NoRepeats(order) && st.ledger.keys <= order
    ensures ShapesKept(symbol, Feed(symbol, st, f), order, days)
  {
    var swept := ExpireStale(symbol, st, Day(f.ts));
    match st.current {
      case None =>
        NoEpisodeFromNone(symbol, st.ledger.keys, st.ledger.qty, Day(f.ts));
        BookShapes(symbol, swept, f, order, days, []);
      case Some(e) =>
        SweepShapes(symbol, st, order, days, Day(f.ts));
        if swept.current.None? {
          BookShapes(symbol, swept, f, order, days, []);
        } else {
          BookShapes(symbol, swept, f, order, days, Reals(e.fills));
        }
    }
  }

  lemma {:induction false} BookedEpisode(symbol: string, e: Episode, f: Fill, order: seq<Contract>, own: seq<Fill>)
    requires IsReal(f) && e == Episode(symbol, Finished(symbol, own, order, Day(f.ts))) && Reals(e.fills) == own
    ensures var e' := e.(fills := e.fills + [f]); e' == Episode(symbol, Dressed(symbol, Reals(e'.fills), order))
  {
    FilterSnoc(IsReal, e.fills, f);
    DressedSnoc(symbol, own, f, order);
  }

  lemma {:induction false} NothingFinished(symbol: string, order: seq<Contract>, upTo: int)
    ensures Finished(symbol, [], order, upTo) == [] && Reals([]) == []
  {
    SweptNothing(symbol, [], order, upTo);
  }

  /** Booking on a swept state, whose open episode has the given real fills. */
  lemma {:induction false} BookShapes(symbol: string, st: State, f: Fill, order: seq<Contract>, days: seq<Fill>,
                                      own: seq<Fill>)
    requires IsReal(f) && f in days && forall e | e in st.episodes :: ShapedByDay(symbol, e, order, days)
    requires if st.current.None? then own == []
             else st.current.value == Episode(symbol, Finished(symbol, own, order, Day(f.ts)))
                  && Reals(st.current.value.fills) == own
    ensures ShapesKept(symbol, Book(symbol, st, f), order, days)
  {
    var e := if st.current.Some? then st.current.value else Episode(symbol, []);
    NothingFinished(symbol, order, Day(f.ts));
    BookedEpisode(symbol, e, f, order, own);
    BookedKeeps(symbol, st, e.(fills := e.fills + [f]), Book(symbol, st, f), order, days, f);
  }

  lemma {:induction false} BookedKeeps(symbol: string, st: State, e: Episode, after: State, order: seq<Contract>,
                                       days: seq<Fill>, f: Fill)
    requires f in days && forall x | x in st.episodes :: ShapedByDay(symbol, x, order, days)
    requires e == Episode(symbol, Dressed(symbol, Reals(e.fills), order))
    requires after.episodes == if Flat(e.fills) then st.episodes + [e] else st.episodes
    requires after.current == if Flat(e.fills) then None else Some(e)
    ensures ShapesKept(symbol, after, order, days)
  {
    if Flat(e.fills) {
      FlatIsFinished(symbol, e, order, Day(f.ts));
      assert ShapedByDay(symbol, e, order, days);
    }
  }

  ghost predicate ShapesAt(symbol: string, fills: seq<Fill>, n: nat)
    requires n <= |fills|
  {
    ShapesKept(symbol, Run(symbol, fills[..n]), FirstSeen(fills), fills)
  }

  lemma {:induction false} RunShapes(symbol: string, fills: seq<Fill>, n: nat)
    requires n <= |fills| && forall f | f in fills :: IsReal(f)
    ensures ShapesAt(symbol, fills, n)
  {
    if n == 0 {
      NoShapesYet(symbol, fills);
    } else {
      RunShapes(symbol, fills, n - 1);
      NextShapes(symbol, fills, n - 1, Run(symbol, fills[..n-1]));
    }
  }

  lemma {:induction false} NoShapesYet(symbol: string, fills: seq<Fill>)
    ensures ShapesAt(symbol, fills, 0)
  {
    assert fills[..0] == [] && Run(symbol, []) == FlatSplit.START;
  }

  lemma {:induction false} NextShapes(symbol: string, fills: seq<Fill>, i: nat, st: State)
    requires i < |fills| && (forall f | f in fills :: IsReal(f)) && st == Run(symbol, fills[..i])
    requires ShapesAt(symbol, fills, i)
    ensures ShapesAt(symbol, fills, i + 1)
  {
    RunReady(symbol, fills, i);
    RunTake(symbol, fills, i, st);
    FeedShapes(symbol, st, fills[i], FirstSeen(fills), fills);
  }

  lemma {:induction false} RunReady(symbol: string, fills: seq<Fill>, n: nat)
    requires n <= |fills| && forall f | f in fills :: IsReal(f)
    ensures Inv(symbol, Run(symbol, fills[..n])) && Run(symbol, fills[..n]).ledger.keys <= FirstSeen(fills)
    ensures NoRepeats(FirstSeen(fills))
  {
    assert forall f | f in fills[..n] :: f in fills;
    RunKeeps(symbol, fills[..n]);
    LedgerKeys(symbol, fills[..n]);
    FirstSeenGrows(fills, n);
    FirstSeenOnce(fills);
  }

  /** Every episode of a group is its real fills dressed in the order its contracts were
      first traded, finished by a sweep on the day of a fill or at `as_of`; only the
      latter can leave it open. */
  lemma {:induction false} EpisodesAreShaped(symbol: string, group: seq<Fill>, asOf: int, e: Episode)
    returns (upTo: int)
    requires (forall f | f in group :: IsReal(f)) && e in Split(symbol, group, asOf)
    ensures Shaped(symbol, e, FirstSeen(SortBy(Earlier, group)), upTo)
    ensures upTo == asOf || exists f :: f in group && upTo == Day(f.ts)
    ensures !Flat(e.fills) ==> upTo == asOf
  {
    var s := SortBy(Earlier, group);
    SortPermutes(Earlier, group);
    RunShapes(symbol, s, |s|);
    TakeAll(s);
    upTo := FinishedBy(symbol, s, asOf, e);
  }

  lemma {:induction false} FinishedBy(symbol: string, s: seq<Fill>, asOf: int, e: Episode) returns (upTo: int)
    requires (forall f | f in s :: IsReal(f)) && ShapesKept(symbol, Run(symbol, s), FirstSeen(s), s)
    requires e in Finish(symbol, Run(symbol, s), asOf)
    ensures Shaped(symbol, e, FirstSeen(s), upTo)
    ensures upTo == asOf || exists f :: f in s && upTo == Day(f.ts)
    ensures !Flat(e.fills) ==> upTo == asOf
  {
    RunKeeps(symbol, s);
    LedgerKeys(symbol, s);
    FirstSeenOnce(s);
    upTo := LastSweep(symbol, Run(symbol, s), s, asOf, e, FirstSeen(s));
  }

  lemma {:induction false} LastSweep(symbol: string, st: State, days: seq<Fill>, asOf: int, e: Episode,
                                     order: seq<Contract>) returns (upTo: int)
    requires Inv(symbol, st) && ShapesKept(symbol, st, order, days) && NoRepeats(order) && st.ledger.keys <= order
    requires e in Finish(symbol, st, asOf)
    ensures Shaped(symbol, e, order, upTo)
    ensures upTo == asOf || exists f :: f in days && upTo == Day(f.ts)
    ensures !Flat(e.fills) ==> upTo == asOf
  {
    upTo := asOf;
    if e in st.episodes {
      assert Closed(symbol, e);
      assert ShapedByDay(symbol, e, order, days);
      var f :| f in days && Shaped(symbol, e, order, Day(f.ts));
      upTo := Day(f.ts);
    } else if st.current.Some? {
      SweepShapes(symbol, st, order, days, asOf);
    } else {
      NoEpisodeFromNone(symbol, st.ledger.keys, st.ledger.qty, asOf);
    }
  }

  // ------------------------------------------------------------------- what it depends on

  predicate Trades(own: seq<Fill>, k: Contract) {
    exists f :: f in own && f.contract == k
  }

  /** Dressing trades nothing new. */
  lemma {:induction false} DressedFillsTrade(symbol: string, own: seq<Fill>, order: seq<Contract>)
    ensures forall f | f in Dressed(symbol, own, order) :: Trades(own, f.contract)
  {
    if own != [] {
      var n := |own| - 1;
      var before := Dressed(symbol, own[..n], order);
      SplitLast(own);
      DressedFillsTrade(symbol, own[..n], order);
      SweptTrade(symbol, before, order, Day(own[n].ts), own[..n]);
      MoreTrade(own[..n], own[n]);
    }
  }

  lemma {:induction false} HeldIsTraded(fills: seq<Fill>, own: seq<Fill>, k: Contract)
    requires (forall f | f in fills :: Trades(own, f.contract)) && Net(fills, k) != 0
    ensures Trades(own, k)
  {
    if forall f | f in fills :: f.contract != k {
      NetAbsent(fills, k);
    }
  }

  lemma {:induction false} SweptTrade(symbol: string, held: seq<Fill>, order: seq<Contract>, upTo: int, own: seq<Fill>)
    requires forall f | f in held :: Trades(own, f.contract)
    ensures forall f | f in Swept(symbol, held, order, upTo) :: Trades(own, f.contract)
  {
    SweptContracts(symbol, held, order, upTo);
    forall f | f in Swept(symbol, held, order, upTo) ensures Trades(own, f.contract) {
      HeldIsTraded(held, own, f.contract);
    }
  }

  lemma {:induction false} MoreTrade(own: seq<Fill>, f: Fill)
    ensures forall k | Trades(own, k) :: Trades(own + [f], k)
    ensures Trades(own + [f], f.contract)
  {
    assert forall g :: g in own ==> g in own + [f];
    assert f in own + [f];
  }

  lemma {:induction false} DressedTrades(symbol: string, own: seq<Fill>, order: seq<Contract>)
    ensures forall k | Net(Dressed(symbol, own, order), k) != 0 :: Trades(own, k)
  {
    DressedFillsTrade(symbol, own, order);
    forall k | Net(Dressed(symbol, own, order), k) != 0 ensures Trades(own, k) {
      HeldIsTraded(Dressed(symbol, own, order), own, k);
    }
  }

  /** Two orders that agree on the contracts traded dress alike. */
  lemma {:induction false} DressedAlike(symbol: string, own: seq<Fill>, a: seq<Contract>, b: seq<Contract>,
                                        q: Contract -> bool)
    requires (forall f | f in own :: q(f.contract)) && Filter(q, a) == Filter(q, b)
    ensures Dressed(symbol, own, a) == Dressed(symbol, own, b)
  {
    if own != [] {
      var n := |own| - 1;
      assert forall f :: f in own[..n] ==> f in own;
      DressedAlike(symbol, own[..n], a, b, q);
      SweptByOrder(symbol, own[..n], a, b, q, Day(own[n].ts));
    }
  }

  lemma {:induction false} SweptByOrder(symbol: string, own: seq<Fill>, a: seq<Contract>, b: seq<Contract>,
                                        q: Contract -> bool, upTo: int)
    requires (forall f | f in own :: q(f.contract)) && Filter(q, a) == Filter(q, b)
    ensures var held := Dressed(symbol, own, a); Swept(symbol, held, a, upTo) == Swept(symbol, held, b, upTo)
  {
    var held := Dressed(symbol, own, a);
    DressedTrades(symbol, own, a);
    SweptOfHeld(symbol, held, a, upTo, q);
    SweptOfHeld(symbol, held, b, upTo, q);
  }

  /** A flat episode was finished after every contract it held. */
  lemma {:induction false} FlatSweptAll(symbol: string, own: seq<Fill>, order: seq<Contract>, upTo: int, k: Contract)
    requires Flat(Finished(symbol, own, order, upTo)) && Net(Dressed(symbol, own, order), k) != 0
    ensures k.expiration < upTo
  {
    var fills := Dressed(symbol, own, order);
    var swept := Swept(symbol, fills, order, upTo);
    SweptContracts(symbol, fills, order, upTo);
    FlatNet(fills + swept, k);
    NetAppend(fills, swept, k);
    if k.expiration >= upTo {
      NetAbsent(swept, k);
    }
  }

  /** A flat episode is determined by its real fills and the order of its contracts: any
      other sweep no earlier, or that leaves it flat too, finishes it alike. */
  lemma {:induction false} FlatShapeIsUnique(symbol: string, own: seq<Fill>, a: seq<Contract>, b: seq<Contract>,
                                             q: Contract -> bool, upTo: int, other: int)
    requires (forall f | f in own :: q(f.contract)) && Filter(q, a) == Filter(q, b)
    requires Flat(Finished(symbol, own, a, upTo))
    requires upTo <= other || Flat(Finished(symbol, own, b, other))
    ensures Finished(symbol, own, a, upTo) == Finished(symbol, own, b, other)
  {
    var fills := Dressed(symbol, own, a);
    DressedAlike(symbol, own, a, b, q);
    forall k | Net(fills, k) != 0 ensures k.expiration < upTo && k.expiration < other {
      FlatSweptAll(symbol, own, a, upTo, k);
      if upTo > other {
        FlatSweptAll(symbol, own, b, other, k);
      }
    }
    SweptAlike(symbol, fills, a, upTo, other);
    SweptByOrder(symbol, own, a, b, q, other);
  }

  // ------------------------------------------------------------------ order of first fills

  lemma {:induction false} FirstSeenSnoc(fills: seq<Fill>, f: Fill)
    ensures FirstSeen(fills + [f])
         == if f.contract in FirstSeen(fills) then FirstSeen(fills) else FirstSeen(fills) + [f.contract]
  {
    SnocParts(fills, f);
  }

  /** The contracts of these fills, and the fills of those contracts. */
  function ContractsOf(own: seq<Fill>): Contract -> bool {
    (k: Contract) => Trades(own, k)
  }

  function FillsLike(own: seq<Fill>): Fill -> bool {
    (f: Fill) => Trades(own, f.contract)
  }

  /** Keeping some contracts keeps the order in which they were first traded. */
  lemma {:induction false} FirstSeenOfKept(fills: seq<Fill>, own: seq<Fill>)
    ensures Filter(ContractsOf(own), FirstSeen(fills)) == FirstSeen(Filter(FillsLike(own), fills))
  {
    if fills != [] {
      var n := |fills| - 1;
      SplitLast(fills);
      FirstSeenOfKept(fills[..n], own);
      FirstSeenSnoc(fills[..n], fills[n]);
      FirstSeenSnoc(Filter(FillsLike(own), fills[..n]), fills[n]);
      FilterSnoc(ContractsOf(own), FirstSeen(fills[..n]), fills[n].contract);
    }
  }

  /** Later fills of contracts already traded change no order. */
  lemma {:induction false} FirstSeenKnown(a: seq<Fill>, b: seq<Fill>)
    requires forall f | f in b :: Trades(a, f.contract)
    ensures FirstSeen(a + b) == FirstSeen(a)
    decreases |b|
  {
    if b == [] {
      assert a + b == a;
    } else {
      var n := |b| - 1;
      AppendSnoc(a, b);
      SplitLast(b);
      FirstSeenKnown(a, b[..n]);
      FirstSeenSnoc(a + b[..n], b[n]);
    }
  }
}
