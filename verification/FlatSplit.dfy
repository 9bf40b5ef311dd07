/** Splitting one linked contract group into round-trip episodes
    (`_split_flat`, scripts/rh_sync.py). The functions here say what one pass
    computes; the lemmas say what every pass keeps. */
module FlatSplit {
  import opened Basics
  import opened Seqs
  import opened Fills

  /** A Python dict in insertion order: `keys` lists the contracts in the order
      they were first traded, `qty` holds the running position. */
  datatype Ledger = Ledger(keys: seq<Contract>, qty: map<Contract, int>) {
    function Held(k: Contract): int {
      Position(qty, k)
    }

    function Bump(k: Contract, delta: int): Ledger {
      Ledger(if k in qty then keys else keys + [k], qty[k := Held(k) + delta])
    }

    ghost predicate Valid() {
      forall k :: k in keys <==> k in qty
    }
  }

  function Position(qty: map<Contract, int>, k: Contract): int {
    if k in qty then qty[k] else 0
  }

  datatype State = State(episodes: seq<Episode>, ledger: Ledger, current: Option<Episode>)

  const START := State([], Ledger([], map[]), None)

  // ------------------------------------------------------------ what a pass computes

  function Extend(cur: Option<Episode>, f: Fill): Option<Episode> {
    match cur
    case None => None
    case Some(e) => Some(e.(fills := e.fills + [f]))
  }

  /** Zeroes each position expiring before `upTo`, key by key, recording the
      synthetic fill in the open episode. */
  function ExpireKeys(symbol: string, keys: seq<Contract>, qty: map<Contract, int>, cur: Option<Episode>,
                      upTo: int): (map<Contract, int>, Option<Episode>)
  {
    if keys == [] then (qty, cur)
    else
      var k := keys[0];
      if Position(qty, k) != 0 && k.expiration < upTo then
        ExpireKeys(symbol, keys[1..], qty[k := 0], Extend(cur, ExpiryFill(symbol, k, qty[k])), upTo)
      else
        ExpireKeys(symbol, keys[1..], qty, cur, upTo)
  }

  predicate HasClosing(fills: seq<Fill>) {
    exists f :: f in fills && IsClosing(f)
  }

  function ExpireStale(symbol: string, st: State, upTo: int): State {
    var (qty, cur) := ExpireKeys(symbol, st.ledger.keys, st.ledger.qty, st.current, upTo);
    var ledger := Ledger(st.ledger.keys, qty);
    if cur.Some? && Flat(cur.value.fills) && HasClosing(cur.value.fills) then
      State(st.episodes + [cur.value], ledger, None)
    else
      State(st.episodes, ledger, cur)
  }

  function Book(symbol: string, st: State, f: Fill): State {
    var e := if st.current.Some? then st.current.value else Episode(symbol, []);
    var e' := e.(fills := e.fills + [f]);
    var ledger := st.ledger.Bump(f.contract, f.signedQty);
    if Flat(e'.fills) then State(st.episodes + [e'], ledger, None)
    else State(st.episodes, ledger, Some(e'))
  }

  function Feed(symbol: string, st: State, f: Fill): State {
    Book(symbol, ExpireStale(symbol, st, Day(f.ts)), f)
  }

  function Run(symbol: string, fills: seq<Fill>): State {
    if fills == [] then START
    else Feed(symbol, Run(symbol, fills[..|fills|-1]), fills[|fills|-1])
  }

  function Finish(symbol: string, st: State, asOf: int): seq<Episode> {
    var st' := ExpireStale(symbol, st, asOf);
    if st'.current.Some? && st'.current.value.fills != [] then st'.episodes + [st'.current.value]
    else st'.episodes
  }

  predicate Earlier(a: Fill, b: Fill) {
    a.ts <= b.ts
  }

  /** The whole of `_split_flat`. */
  function Split(symbol: string, group: seq<Fill>, asOf: int): seq<Episode> {
    Finish(symbol, Run(symbol, SortBy(Earlier, group)), asOf)
  }

  // ------------------------------------------------------------------ expiry of keys

  /** What expiring does to the ledger: stale positions go to zero, the rest stay. */
  lemma {:induction false} ExpiredLedger(symbol: string, keys: seq<Contract>, qty: map<Contract, int>,
                                         cur: Option<Episode>, upTo: int)
    requires forall k | k in keys :: k in qty
    ensures var qty' := ExpireKeys(symbol, keys, qty, cur, upTo).0;
      && qty'.Keys == qty.Keys
      && forall k | k in qty :: qty'[k] == if k in keys && k.expiration < upTo then 0 else qty[k]
    decreases |keys|
  {
    if keys != [] {
      var k := keys[0];
      if Position(qty, k) != 0 && k.expiration < upTo {
        ExpiredLedger(symbol, keys[1..], qty[k := 0], Extend(cur, ExpiryFill(symbol, k, qty[k])), upTo);
      } else {
        ExpiredLedger(symbol, keys[1..], qty, cur, upTo);
      }
      assert forall c :: c in keys <==> c == k || c in keys[1..];
    }
  }

  lemma {:induction false} ExpireStaleValid(symbol: string, st: State, upTo: int)
    requires st.ledger.Valid()
    ensures ExpireStale(symbol, st, upTo).ledger.Valid()
    ensures ExpireStale(symbol, st, upTo).ledger.keys == st.ledger.keys
    ensures forall k :: ExpireStale(symbol, st, upTo).ledger.Held(k)
                        == if k.expiration < upTo then 0 else st.ledger.Held(k)
  {
    ExpiredLedger(symbol, st.ledger.keys, st.ledger.qty, st.current, upTo);
  }

  lemma {:induction false} NothingToExpire(symbol: string, keys: seq<Contract>, qty: map<Contract, int>,
                                           cur: Option<Episode>, upTo: int)
    requires forall k | k in keys :: Position(qty, k) == 0 || k.expiration >= upTo
    ensures ExpireKeys(symbol, keys, qty, cur, upTo) == (qty, cur)
    decreases |keys|
  {
    if keys != [] {
      NothingToExpire(symbol, keys[1..], qty, cur, upTo);
    }
  }

  // ------------------------------------------------------------ shape of an episode

  /** The i-th fill, if synthetic, flattens exactly the position its contract had. */
  ghost predicate ExpiryExactAt(e: Episode, i: int)
    requires 0 <= i < |e.fills|
  {
    e.fills[i].effect == Expiry ==>
      var k := e.fills[i].contract;
      Net(e.fills[..i], k) != 0 && e.fills[i] == ExpiryFill(e.symbol, k, Net(e.fills[..i], k))
  }

  ghost predicate ExpiriesExact(e: Episode) {
    forall i | 0 <= i < |e.fills| :: ExpiryExactAt(e, i)
  }

  ghost predicate FlatAfter(e: Episode, i: int)
    requires 0 <= i <= |e.fills|
  {
    Flat(e.fills[..i])
  }

  /** No proper non-empty beginning of the episode is itself flat. */
  ghost predicate NoFlatPrefix(e: Episode) {
    forall i | 0 < i < |e.fills| :: !FlatAfter(e, i)
  }

  ghost predicate WellShaped(symbol: string, e: Episode) {
    && e.symbol == symbol
    && e.fills != []
    && IsReal(e.fills[0])
    && NoFlatPrefix(e)
    && ExpiriesExact(e)
  }

  ghost predicate Mirrors(qty: map<Contract, int>, e: Episode) {
    forall k :: Net(e.fills, k) == Position(qty, k)
  }

  /** One synthetic fill appended to a well shaped, still open episode. */
  lemma {:induction false} AppendExpiry(symbol: string, qty: map<Contract, int>, e: Episode, k: Contract)
    requires WellShaped(symbol, e) && Mirrors(qty, e) && k in qty && qty[k] != 0
    ensures var e' := Extend(Some(e), ExpiryFill(symbol, k, qty[k])).value;
      && WellShaped(symbol, e') && Mirrors(qty[k := 0], e')
      && Reals(e'.fills) == Reals(e.fills)
      && HasClosing(e'.fills)
  {
    var f := ExpiryFill(symbol, k, qty[k]);
    var fills' := e.fills + [f];
    forall c ensures Net(fills', c) == Net(e.fills, c) + if f.contract == c then f.signedQty else 0 {
      NetSnoc(e.fills, f, c);
    }
    assert !Flat(e.fills) by {
      if Flat(e.fills) { FlatNet(e.fills, k); }
    }
    SnocKeepsShape(symbol, e, f);
    FilterSnoc(IsReal, e.fills, f);
    assert f in fills' && IsClosing(f);
  }

  /** Growing an episode that is not flat by a real fill, or by an exact synthetic one. */
  lemma {:induction false} SnocKeepsShape(symbol: string, e: Episode, f: Fill)
    requires WellShaped(symbol, e) && !Flat(e.fills)
    requires f.effect == Expiry ==>
               Net(e.fills, f.contract) != 0
               && f == ExpiryFill(symbol, f.contract, Net(e.fills, f.contract))
    ensures WellShaped(symbol, e.(fills := e.fills + [f]))
  {
    var e' := e.(fills := e.fills + [f]);
    var n := |e.fills|;
    forall i | 0 <= i < |e'.fills| ensures ExpiryExactAt(e', i) {
      PrefixOfSnoc(e.fills, f, i);
      assert i < n ==> ExpiryExactAt(e, i);
    }
    forall i | 0 < i < |e'.fills| ensures !FlatAfter(e', i) {
      PrefixOfSnoc(e.fills, f, i);
      assert i < n ==> !FlatAfter(e, i);
    }
  }

  lemma {:induction false} PrefixOfSnoc(s: seq<Fill>, f: Fill, i: int)
    requires 0 <= i <= |s|
    ensures (s + [f])[..i] == s[..i]
    ensures i == |s| ==> s[..i] == s
  {
  }

  /** Expiring keeps the open episode well shaped and mirrored, adds no real
      fill, and adds something only by adding a closing fill. */
  lemma {:induction false} ExpiredEpisode(symbol: string, keys: seq<Contract>, qty: map<Contract, int>, e: Episode,
                                          upTo: int)
    requires WellShaped(symbol, e) && Mirrors(qty, e)
    ensures var (qty', cur') := ExpireKeys(symbol, keys, qty, Some(e), upTo);
      && cur'.Some? && WellShaped(symbol, cur'.value) && Mirrors(qty', cur'.value)
      && Reals(cur'.value.fills) == Reals(e.fills)
      && (cur'.value == e || HasClosing(cur'.value.fills))
    decreases |keys|
  {
    if keys != [] {
      var k := keys[0];
      if Position(qty, k) != 0 && k.expiration < upTo {
        AppendExpiry(symbol, qty, e, k);
        var e' := Extend(Some(e), ExpiryFill(symbol, k, qty[k])).value;
        ExpiredEpisode(symbol, keys[1..], qty[k := 0], e', upTo);
      } else {
        ExpiredEpisode(symbol, keys[1..], qty, e, upTo);
      }
    }
  }

  // ------------------------------------------------------------------- the invariant

  ghost predicate Closed(symbol: string, e: Episode) {
    WellShaped(symbol, e) && Flat(e.fills)
  }

  /** What every step of the pass keeps: the ledger mirrors the open episode and
      is empty without one, the open episode is not flat, and every emitted
      episode is closed and well shaped. */
  ghost predicate Inv(symbol: string, st: State) {
    && st.ledger.Valid()
    && (forall e | e in st.episodes :: Closed(symbol, e))
    && match st.current
       case None => forall k :: st.ledger.Held(k) == 0
       case Some(e) => WellShaped(symbol, e) && !Flat(e.fills) && Mirrors(st.ledger.qty, e)
  }

  function FillsOf(st: State): seq<Fill> {
    AllFills(st.episodes) + if st.current.Some? then st.current.value.fills else []
  }

  lemma {:induction false} RealsOfTwo(a: seq<Fill>, b: seq<Fill>)
    ensures Reals(a + b) == Reals(a) + Reals(b)
  {
    FilterAppend(IsReal, a, b);
  }

  /** Expiring stale contracts keeps the invariant and every real fill, and
      afterwards nothing that expired before `upTo` is held. */
  lemma {:induction false} ExpireStaleKeeps(symbol: string, st: State, upTo: int)
    requires Inv(symbol, st)
    ensures var st' := ExpireStale(symbol, st, upTo);
      && Inv(symbol, st')
      && Reals(FillsOf(st')) == Reals(FillsOf(st))
      && st.episodes <= st'.episodes
  {
    var st' := ExpireStale(symbol, st, upTo);
    ExpireStaleValid(symbol, st, upTo);
    match st.current
    case None =>
      forall k | k in st.ledger.keys ensures st.ledger.qty[k] == 0 {
        assert st.ledger.Held(k) == 0;
      }
      NothingToExpire(symbol, st.ledger.keys, st.ledger.qty, None, upTo);
    case Some(e) =>
      ExpiredEpisode(symbol, st.ledger.keys, st.ledger.qty, e, upTo);
      var e' := ExpireKeys(symbol, st.ledger.keys, st.ledger.qty, Some(e), upTo).1.value;
      RealsOfTwo(AllFills(st.episodes), e.fills);
      RealsOfTwo(AllFills(st.episodes), e'.fills);
      ClosedAfterExpiry(symbol, st, st', e');
  }

  lemma {:induction false} ClosedAfterExpiry(symbol: string, st: State, st': State, e': Episode)
    requires st'.ledger.Valid() && WellShaped(symbol, e') && Mirrors(st'.ledger.qty, e')
    requires st' == if Flat(e'.fills) then State(st.episodes + [e'], st'.ledger, None)
                    else State(st.episodes, st'.ledger, Some(e'))
    requires forall e | e in st.episodes :: Closed(symbol, e)
    ensures Inv(symbol, st') && FillsOf(st') == AllFills(st.episodes) + e'.fills
  {
    if st'.current.None? {
      AllFillsSnoc(st.episodes, e');
      forall k ensures st'.ledger.Held(k) == 0 {
        FlatNet(e'.fills, k);
      }
    }
  }

  lemma {:induction false} AppendReal(symbol: string, e: Episode, f: Fill)
    requires IsReal(f) && e.symbol == symbol
    requires e.fills == [] || (WellShaped(symbol, e) && !Flat(e.fills))
    ensures WellShaped(symbol, e.(fills := e.fills + [f]))
  {
    if e.fills == [] {
      assert e.fills + [f] == [f];
    } else {
      SnocKeepsShape(symbol, e, f);
    }
  }

  /** Booking one real fill keeps the invariant and adds exactly that fill. */
  lemma {:induction false} BookKeeps(symbol: string, st: State, f: Fill)
    requires Inv(symbol, st) && IsReal(f)
    ensures Inv(symbol, Book(symbol, st, f))
    ensures Reals(FillsOf(Book(symbol, st, f))) == Reals(FillsOf(st)) + [f]
    ensures st.episodes <= Book(symbol, st, f).episodes
  {
    var e := if st.current.Some? then st.current.value else Episode(symbol, []);
    var e' := e.(fills := e.fills + [f]);
    AppendReal(symbol, e, f);
    BookMirrors(symbol, st, f, e);
    ClosedAfterExpiry(symbol, st, Book(symbol, st, f), e');
    BookFills(symbol, st, f);
    FilterSnoc(IsReal, FillsOf(st), f);
  }

  lemma {:induction false} BumpHeld(l: Ledger, k: Contract, delta: int)
    requires l.Valid()
    ensures l.Bump(k, delta).Valid()
    ensures forall c :: l.Bump(k, delta).Held(c) == l.Held(c) + if c == k then delta else 0
  {
  }

  lemma {:induction false} BookMirrors(symbol: string, st: State, f: Fill, e: Episode)
    requires st.ledger.Valid()
    requires forall k :: Net(e.fills, k) == st.ledger.Held(k)
    ensures var ledger := st.ledger.Bump(f.contract, f.signedQty);
      ledger.Valid() && Mirrors(ledger.qty, e.(fills := e.fills + [f]))
  {
    BumpHeld(st.ledger, f.contract, f.signedQty);
    var ledger := st.ledger.Bump(f.contract, f.signedQty);
    forall k ensures Net(e.fills + [f], k) == Position(ledger.qty, k) {
      NetSnoc(e.fills, f, k);
      assert ledger.Held(k) == st.ledger.Held(k) + if k == f.contract then f.signedQty else 0;
    }
  }

  lemma {:induction false} FeedKeeps(symbol: string, st: State, f: Fill)
    requires Inv(symbol, st) && IsReal(f)
    ensures Inv(symbol, Feed(symbol, st, f))
    ensures Reals(FillsOf(Feed(symbol, st, f))) == Reals(FillsOf(st)) + [f]
    ensures st.episodes <= Feed(symbol, st, f).episodes
  {
    ExpireStaleKeeps(symbol, st, Day(f.ts));
    BookKeeps(symbol, ExpireStale(symbol, st, Day(f.ts)), f);
  }

  /** Every run keeps the invariant, and its real fills are the fills it was fed. */
  lemma {:induction false} RunKeeps(symbol: string, fills: seq<Fill>)
    requires forall f | f in fills :: IsReal(f)
    ensures Inv(symbol, Run(symbol, fills))
    ensures Reals(FillsOf(Run(symbol, fills))) == fills
  {
    if fills == [] {
      assert Run(symbol, fills) == START;
    } else {
      var before, f := fills[..|fills|-1], fills[|fills|-1];
      SplitLast(fills);
      RunKeeps(symbol, before);
      FeedKeeps(symbol, Run(symbol, before), f);
      RunSnoc(symbol, before, f);
    }
  }

  // ------------------------------------------------------------- what a split promises

  ghost predicate OnlyExpiredBefore(fills: seq<Fill>, d: int) {
    forall f | f in fills && f.effect == Expiry :: f.contract.expiration < d
  }

  /** The promises of one split: every real fill once and in time order, all
      episodes closed except possibly the last, each episode minimal, and an open
      last episode holds only contracts that have not expired by `asOf`. */
  ghost predicate SplitOk(symbol: string, ordered: seq<Fill>, asOf: int, eps: seq<Episode>) {
    && Reals(AllFills(eps)) == ordered
    && (forall i | 0 <= i < |eps| :: WellShaped(symbol, eps[i]))
    && (forall i | 0 <= i < |eps| - 1 :: Flat(eps[i].fills))
    && (eps != [] && !Flat(eps[|eps|-1].fills) ==>
          forall k | Net(eps[|eps|-1].fills, k) != 0 :: k.expiration >= asOf)
  }

  lemma {:induction false} FinishKeeps(symbol: string, st: State, asOf: int)
    requires Inv(symbol, st)
    ensures SplitOk(symbol, Reals(FillsOf(st)), asOf, Finish(symbol, st, asOf))
  {
    ExpireStaleKeeps(symbol, st, asOf);
    ExpireStaleValid(symbol, st, asOf);
    var st' := ExpireStale(symbol, st, asOf);
    assert forall k :: st'.ledger.Held(k) != 0 ==> k.expiration >= asOf;
    EmitsOk(symbol, st', asOf);
    assert Finish(symbol, st, asOf)
        == if st'.current.Some? then st'.episodes + [st'.current.value] else st'.episodes;
  }

  lemma {:induction false} EmitsOk(symbol: string, st: State, asOf: int)
    requires Inv(symbol, st)
    requires forall k :: st.ledger.Held(k) != 0 ==> k.expiration >= asOf
    ensures var eps := if st.current.Some? then st.episodes + [st.current.value] else st.episodes;
      SplitOk(symbol, Reals(FillsOf(st)), asOf, eps)
  {
    forall i | 0 <= i < |st.episodes| ensures Closed(symbol, st.episodes[i]) {
      assert st.episodes[i] in st.episodes;
    }
    if st.current.None? {
      assert FillsOf(st) == AllFills(st.episodes);
    } else {
      var e := st.current.value;
      AllFillsSnoc(st.episodes, e);
      forall k | Net(e.fills, k) != 0 ensures k.expiration >= asOf {
        assert Net(e.fills, k) == st.ledger.Held(k);
      }
    }
  }

  /** Main result for `_split_flat`, for every group of broker fills. */
  lemma {:induction false} SplitIsSound(symbol: string, group: seq<Fill>, asOf: int)
    requires forall f | f in group :: IsReal(f)
    ensures SplitOk(symbol, SortBy(Earlier, group), asOf, Split(symbol, group, asOf))
    ensures multiset(Reals(AllFills(Split(symbol, group, asOf)))) == multiset(group)
  {
    SortPermutes(Earlier, group);
    RunKeeps(symbol, SortBy(Earlier, group));
    FinishKeeps(symbol, Run(symbol, SortBy(Earlier, group)), asOf);
  }

  // ------------------------------------------------------- nothing expires prematurely

  lemma {:induction false} ExpireKeysOnlyStale(symbol: string, keys: seq<Contract>, qty: map<Contract, int>, e: Episode,
                                               upTo: int, d: int)
    requires OnlyExpiredBefore(e.fills, d) && upTo <= d
    ensures var cur' := ExpireKeys(symbol, keys, qty, Some(e), upTo).1;
      cur'.Some? && OnlyExpiredBefore(cur'.value.fills, d)
    decreases |keys|
  {
    if keys != [] {
      var k := keys[0];
      if Position(qty, k) != 0 && k.expiration < upTo {
        var e' := Extend(Some(e), ExpiryFill(symbol, k, qty[k])).value;
        ExpireKeysOnlyStale(symbol, keys[1..], qty[k := 0], e', upTo, d);
      } else {
        ExpireKeysOnlyStale(symbol, keys[1..], qty, e, upTo, d);
      }
    }
  }

  lemma {:induction false} NoEpisodeFromNone(symbol: string, keys: seq<Contract>, qty: map<Contract, int>, upTo: int)
    ensures ExpireKeys(symbol, keys, qty, None, upTo).1.None?
    decreases |keys|
  {
    if keys != [] {
      var k := keys[0];
      var next := if Position(qty, k) != 0 && k.expiration < upTo then qty[k := 0] else qty;
      NoEpisodeFromNone(symbol, keys[1..], next, upTo);
    }
  }

  lemma {:induction false} ExpireStaleOnlyStale(symbol: string, st: State, upTo: int, d: int)
    requires OnlyExpiredBefore(FillsOf(st), d) && upTo <= d
    ensures OnlyExpiredBefore(FillsOf(ExpireStale(symbol, st, upTo)), d)
  {
    match st.current
    case None =>
      NoEpisodeFromNone(symbol, st.ledger.keys, st.ledger.qty, upTo);
    case Some(e) =>
      assert OnlyExpiredBefore(e.fills, d);
      ExpireKeysOnlyStale(symbol, st.ledger.keys, st.ledger.qty, e, upTo, d);
      var e' := ExpireKeys(symbol, st.ledger.keys, st.ledger.qty, Some(e), upTo).1.value;
      AllFillsSnoc(st.episodes, e');
  }

  lemma {:induction false} OnlyExpiredAppend(a: seq<Fill>, b: seq<Fill>, d: int)
    ensures OnlyExpiredBefore(a + b, d) <==> OnlyExpiredBefore(a, d) && OnlyExpiredBefore(b, d)
  {
    assert forall f :: f in a + b <==> f in a || f in b;
  }

  /** The fills after booking are the fills before it and the one booked. */
  lemma {:induction false} BookFills(symbol: string, st: State, f: Fill)
    ensures FillsOf(Book(symbol, st, f)) == FillsOf(st) + [f]
  {
    var e := if st.current.Some? then st.current.value else Episode(symbol, []);
    AllFillsSnoc(st.episodes, e.(fills := e.fills + [f]));
    assert AllFills(st.episodes) + (e.fills + [f]) == AllFills(st.episodes) + e.fills + [f];
  }

  lemma {:induction false} BookOnlyStale(symbol: string, st: State, f: Fill, d: int)
    requires OnlyExpiredBefore(FillsOf(st), d) && IsReal(f)
    ensures OnlyExpiredBefore(FillsOf(Book(symbol, st, f)), d)
  {
    BookFills(symbol, st, f);
    OnlyExpiredAppend(FillsOf(st), [f], d);
  }

  lemma {:induction false} FeedOnlyStale(symbol: string, st: State, f: Fill, d: int)
    requires OnlyExpiredBefore(FillsOf(st), d)
    requires IsReal(f) && Day(f.ts) <= d
    ensures OnlyExpiredBefore(FillsOf(Feed(symbol, st, f)), d)
  {
    ExpireStaleOnlyStale(symbol, st, Day(f.ts), d);
    BookOnlyStale(symbol, ExpireStale(symbol, st, Day(f.ts)), f, d);
  }

  lemma {:induction false} RunOnlyStale(symbol: string, fills: seq<Fill>, d: int)
    requires forall f | f in fills :: IsReal(f) && Day(f.ts) <= d
    ensures OnlyExpiredBefore(FillsOf(Run(symbol, fills)), d)
  {
    if fills == [] {
      assert Run(symbol, fills) == START;
    } else {
      var before, f := fills[..|fills|-1], fills[|fills|-1];
      SplitLast(fills);
      RunOnlyStale(symbol, before, d);
      FeedOnlyStale(symbol, Run(symbol, before), f, d);
      RunSnoc(symbol, before, f);
    }
  }

  lemma {:induction false} FinishOnlyStale(symbol: string, st: State, asOf: int)
    requires OnlyExpiredBefore(FillsOf(st), asOf)
    ensures OnlyExpiredBefore(AllFills(Finish(symbol, st, asOf)), asOf)
  {
    ExpireStaleOnlyStale(symbol, st, asOf, asOf);
    var st' := ExpireStale(symbol, st, asOf);
    if st'.current.Some? {
      AllFillsSnoc(st'.episodes, st'.current.value);
    }
  }

  /** A contract is shut by a synthetic fill only once its expiration day has
      passed: with no fill dated after `asOf`, only contracts expired before it. */
  lemma {:induction false} NothingExpiresEarly(symbol: string, group: seq<Fill>, asOf: int)
    requires forall f | f in group :: IsReal(f) && Day(f.ts) <= asOf
    ensures OnlyExpiredBefore(AllFills(Split(symbol, group, asOf)), asOf)
  {
    SortPermutes(Earlier, group);
    RunOnlyStale(symbol, SortBy(Earlier, group), asOf);
    FinishOnlyStale(symbol, Run(symbol, SortBy(Earlier, group)), asOf);
  }

  // ----------------------------------------------------------------------- cash

  lemma {:induction false} CashOfReals(fills: seq<Fill>)
    requires forall f | f in fills && f.effect == Expiry :: f.price == 0
    ensures Cash(fills) == Cash(Reals(fills))
  {
    if fills != [] {
      var n := |fills| - 1;
      CashOfReals(fills[..n]);
      if IsReal(fills[n]) {
        assert Reals(fills)[..|Reals(fills)|-1] == Reals(fills[..n]);
      }
    }
  }

  lemma {:induction false} ExpiriesAreFree(symbol: string, eps: seq<Episode>)
    requires forall i | 0 <= i < |eps| :: WellShaped(symbol, eps[i])
    ensures forall f | f in AllFills(eps) && f.effect == Expiry :: f.price == 0
  {
    if eps != [] {
      ExpiriesAreFree(symbol, eps[..|eps|-1]);
      var e := eps[|eps|-1];
      assert WellShaped(symbol, e);
      forall f | f in e.fills && f.effect == Expiry ensures f.price == 0 {
        var i :| 0 <= i < |e.fills| && e.fills[i] == f;
        assert ExpiryExactAt(e, i);
      }
    }
  }

  /** Splitting neither creates nor destroys cash. */
  lemma {:induction false} SplitKeepsCash(symbol: string, group: seq<Fill>, asOf: int)
    requires forall f | f in group :: IsReal(f)
    ensures Cash(AllFills(Split(symbol, group, asOf))) == Cash(group)
  {
    SplitIsSound(symbol, group, asOf);
    var eps := Split(symbol, group, asOf);
    ExpiriesAreFree(symbol, eps);
    CashOfReals(AllFills(eps));
    CashPermutes(Reals(AllFills(eps)), group);
  }

  // ----------------------------------------------------------------- re-run stability

  /** The episodes of a split that are already closed. */
  function ClosedPart(eps: seq<Episode>): seq<Episode> {
    if eps != [] && !Flat(eps[|eps|-1].fills) then eps[..|eps|-1] else eps
  }

  lemma {:induction false} ClosedPartSnoc(eps: seq<Episode>, e: Episode)
    requires !Flat(e.fills)
    ensures ClosedPart(eps + [e]) == eps
  {
    SnocParts(eps, e);
  }

  lemma {:induction false} ClosedPartAll(symbol: string, eps: seq<Episode>)
    requires forall e | e in eps :: Closed(symbol, e)
    ensures ClosedPart(eps) == eps
  {
    if eps != [] {
      assert Closed(symbol, eps[|eps|-1]);
    }
  }

  lemma {:induction false} FinishClosedPart(symbol: string, st: State, asOf: int)
    requires Inv(symbol, st)
    ensures ClosedPart(Finish(symbol, st, asOf)) == ExpireStale(symbol, st, asOf).episodes
  {
    ExpireStaleKeeps(symbol, st, asOf);
    var st' := ExpireStale(symbol, st, asOf);
    if st'.current.Some? {
      ClosedPartSnoc(st'.episodes, st'.current.value);
    } else {
      ClosedPartAll(symbol, st'.episodes);
    }
  }

  /** If expiring up to one day empties the ledger, a later day does the same work. */
  lemma {:induction false} ExpireLaterSame(symbol: string, keys: seq<Contract>, qty: map<Contract, int>,
                                           cur: Option<Episode>, upTo: int, later: int)
    requires upTo <= later
    requires forall k | k in keys :: Position(qty, k) == 0 || k.expiration < upTo
    ensures ExpireKeys(symbol, keys, qty, cur, later) == ExpireKeys(symbol, keys, qty, cur, upTo)
    decreases |keys|
  {
    if keys != [] {
      var k := keys[0];
      if Position(qty, k) != 0 {
        ExpireLaterSame(symbol, keys[1..], qty[k := 0], Extend(cur, ExpiryFill(symbol, k, qty[k])), upTo, later);
      } else {
        ExpireLaterSame(symbol, keys[1..], qty, cur, upTo, later);
      }
    }
  }

  /** What is closed by an earlier day is closed, identically, by a later one. */
  lemma {:induction false} ExpireLater(symbol: string, st: State, upTo: int, later: int)
    requires Inv(symbol, st) && upTo <= later
    ensures ExpireStale(symbol, st, upTo).episodes <= ExpireStale(symbol, st, later).episodes
  {
    ExpireStaleKeeps(symbol, st, upTo);
    ExpireStaleKeeps(symbol, st, later);
    var st' := ExpireStale(symbol, st, upTo);
    if st'.episodes != st.episodes {
      assert st'.current.None?;
      forall k | k in st.ledger.keys ensures st.ledger.qty[k] == 0 || k.expiration < upTo {
        ExpireStaleValid(symbol, st, upTo);
        assert st'.ledger.Held(k) == 0;
        assert st.ledger.Held(k) == st.ledger.qty[k];
      }
      ExpireLaterSame(symbol, st.ledger.keys, st.ledger.qty, st.current, upTo, later);
    }
  }

  lemma {:induction false} RunSnoc(symbol: string, fills: seq<Fill>, f: Fill)
    ensures Run(symbol, fills + [f]) == Feed(symbol, Run(symbol, fills), f)
  {
    SnocParts(fills, f);
  }

  lemma {:induction false} RunTake(symbol: string, fills: seq<Fill>, i: nat, st: State)
    requires i < |fills| && st == Run(symbol, fills[..i])
    ensures Run(symbol, fills[..i+1]) == Feed(symbol, st, fills[i])
  {
    TakeNext(fills, i);
    RunSnoc(symbol, fills[..i], fills[i]);
  }

  /** Whatever a pass has closed by day `asOf` survives feeding it later fills. */
  lemma {:induction false} RunExtends(symbol: string, fills: seq<Fill>, more: seq<Fill>, asOf: int, asOf': int)
    requires forall f | f in fills + more :: IsReal(f)
    requires forall f | f in more :: asOf <= Day(f.ts)
    requires asOf <= asOf'
    ensures ExpireStale(symbol, Run(symbol, fills), asOf).episodes
         <= ExpireStale(symbol, Run(symbol, fills + more), asOf').episodes
    ensures more != [] ==>
      ExpireStale(symbol, Run(symbol, fills), asOf).episodes <= Run(symbol, fills + more).episodes
    decreases |more|
  {
    if more == [] {
      assert fills + more == fills;
      RunKeeps(symbol, fills);
      ExpireLater(symbol, Run(symbol, fills), asOf, asOf');
    } else {
      var n := |more| - 1;
      var f := more[n];
      assert fills + more == (fills + more[..n]) + [f];
      RunExtends(symbol, fills, more[..n], asOf, Day(f.ts));
      var st := Run(symbol, fills + more[..n]);
      RunKeeps(symbol, fills + more[..n]);
      RunSnoc(symbol, fills + more[..n], f);
      ExpireStaleKeeps(symbol, st, Day(f.ts));
      BookKeeps(symbol, ExpireStale(symbol, st, Day(f.ts)), f);
      FeedKeeps(symbol, st, f);
      ExpireStaleKeeps(symbol, Run(symbol, fills + more), asOf');
    }
  }

  /** Re-run stability: replaying a linked group with later fills appended and a
      later `asOf` reproduces every closed episode, unchanged and in place. */
  lemma {:induction false} RerunStable(symbol: string, group: seq<Fill>, more: seq<Fill>, asOf: int, asOf': int)
    requires forall f | f in group + more :: IsReal(f)
    requires forall f, g | f in group && g in more :: f.ts <= g.ts
    requires forall g | g in more :: asOf <= Day(g.ts)
    requires asOf <= asOf'
    ensures ClosedPart(Split(symbol, group, asOf)) <= ClosedPart(Split(symbol, group + more, asOf'))
  {
    SortPermutes(Earlier, group);
    SortPermutes(Earlier, more);
    SortPermutes(Earlier, group + more);
    SortAppend(Earlier, group, more);
    var a, b := SortBy(Earlier, group), SortBy(Earlier, more);
    RunExtends(symbol, a, b, asOf, asOf');
    RunKeeps(symbol, a);
    RunKeeps(symbol, a + b);
    FinishClosedPart(symbol, Run(symbol, a), asOf);
    FinishClosedPart(symbol, Run(symbol, a + b), asOf');
  }
}
