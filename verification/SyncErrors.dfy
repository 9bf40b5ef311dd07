/** When the loop of `sync` raises (scripts/rh_sync.py): the label of an episode is
    built outside the `try`, reads `opened_at` and, for a closed episode, formats the
    exit, which is None when nothing closed it. */
module SyncErrors {
  import opened Basics
  import opened Seqs
  import opened Fills
  import opened ListDicts
  import opened Cutting
  import opened EpisodeStarts
  import opened SyncWorklist
  import FlatSplit

  // ----------------------------------------------------------- labels, from the fills

  /** Something opened, and something closed if everything is flat. */
  predicate LabelOk(fills: seq<Fill>) {
    && (exists f :: f in fills && IsOpening(f))
    && (Flat(fills) ==> exists f :: f in fills && IsClosing(f))
  }

  lemma {:induction false} SomeKept(p: Fill -> bool, fills: seq<Fill>)
    ensures Filter(p, fills) != [] <==> exists f :: f in fills && p(f)
  {
    if Filter(p, fills) != [] {
      assert Filter(p, fills)[0] in Filter(p, fills);
    }
  }

  lemma {:induction false} LabelFromFills(e: Episode)
    ensures Labelable(e) <==> LabelOk(e.fills)
  {
    MinTsIsLeast(Filter(IsOpening, e.fills));
    SomeKept(IsOpening, e.fills);
    SomeKept(IsClosing, e.fills);
  }

  /** A single-contract episode ends with its synthetic fill, if it has one. */
  lemma {:induction false} ExpiryEnds(symbol: string, e: Episode, i: nat)
    requires FlatSplit.WellShaped(symbol, e) && OneContract(e)
    requires i < |e.fills| && e.fills[i].effect == Expiry
    ensures i == |e.fills| - 1 && Net(e.fills[..i], e.fills[i].contract) != 0
  {
    var k := e.fills[i].contract;
    assert FlatSplit.ExpiryExactAt(e, i);
    TakeNext(e.fills, i);
    NetSnoc(e.fills[..i], e.fills[i], k);
    forall f | f in e.fills[..i+1] ensures Net(e.fills[..i+1], f.contract) == 0 {
      assert f in e.fills && e.fills[i] in e.fills;
    }
    assert FlatSplit.FlatAfter(e, i + 1);
  }

  /** Synthetic fills do not change whether a single-contract episode can be labelled. */
  lemma {:induction false} PieceLabel(e: Episode)
    requires WellFormed(e) && OneContract(e)
    ensures Labelable(e) <==> LabelOk(Reals(e.fills))
  {
    LabelFromFills(e);
    if i :| 0 <= i < |e.fills| && e.fills[i].effect == Expiry {
      ExpiryEnds(e.symbol, e, i);
      forall j | 0 <= j < i ensures IsReal(e.fills[j]) {
        if e.fills[j].effect == Expiry {
          ExpiryEnds(e.symbol, e, j);
        }
      }
      FilterAll(IsReal, e.fills[..i]);
      SplitLast(e.fills);
      FilterSnoc(IsReal, e.fills[..i], e.fills[i]);
      assert Reals(e.fills) == e.fills[..i];
      ExpiredLabel(e, i);
    } else {
      FilterAll(IsReal, e.fills);
    }
  }

  lemma {:induction false} ExpiredLabel(e: Episode, i: nat)
    requires OneContract(e) && 0 < |e.fills| == i + 1 && e.fills[i].effect == Expiry
    requires Net(e.fills[..i], e.fills[i].contract) != 0
    ensures LabelOk(e.fills) <==> LabelOk(e.fills[..i])
  {
    var q, x := e.fills[..i], e.fills[i];
    SplitLast(e.fills);
    assert x in e.fills && IsClosing(x) && !IsOpening(x);
    assert forall f :: f in e.fills <==> f in q || f == x;
    if Flat(q) {
      FlatNet(q, x.contract);
    }
  }

  // --------------------------------------------------------------- pieces, from the fills

  /** The real fills of one contract, in time order. */
  function OfContract(e: Episode, k: Contract): seq<Fill> {
    SortBy(FlatSplit.Earlier, Reals(At(ByContract(e.fills), k)))
  }

  ghost function ChunksOf(e: Episode, keys: seq<Contract>): seq<seq<Fill>> {
    if keys == [] then []
    else ChunksOf(e, keys[..|keys|-1]) + Chunks(OfContract(e, keys[|keys|-1]))
  }

  /** What the fallback split makes of an episode's real fills: contract after
      contract, cut at the moments nothing is held. */
  ghost function ContractChunks(e: Episode): seq<seq<Fill>> {
    ChunksOf(e, Keys(ByContract(e.fills)))
  }

  lemma {:induction false} RealListsAppend(a: seq<Episode>, b: seq<Episode>)
    ensures RealLists(a + b) == RealLists(a) + RealLists(b)
    decreases |b|
  {
    if b == [] {
      assert a + b == a;
    } else {
      var n := |b| - 1;
      AppendSnoc(a, b);
      RealListsAppend(a, b[..n]);
      RealListsSnoc(a + b[..n], b[n]);
      AppendAssociates(RealLists(a), RealLists(b[..n]), [Reals(b[n].fills)]);
    }
  }

  lemma {:induction false} SplitContractsChunks(e: Episode, keys: seq<Contract>, asOf: int)
    ensures RealLists(SplitContracts(e.symbol, ByContract(e.fills), keys, asOf)) == ChunksOf(e, keys)
  {
    if keys != [] {
      var n := |keys| - 1;
      var own := Reals(At(ByContract(e.fills), keys[n]));
      SplitContractsChunks(e, keys[..n], asOf);
      EpisodesAreChunks(e.symbol, own, asOf);
      RealListsAppend(SplitContracts(e.symbol, ByContract(e.fills), keys[..n], asOf),
                      FlatSplit.Split(e.symbol, own, asOf));
    }
  }

  /** The pieces of an episode do not depend on the day they are made, but for the
      synthetic fills. */
  lemma {:induction false} PiecesAreChunks(e: Episode, asOf: int)
    ensures RealLists(Pieces(e, asOf)) == ContractChunks(e)
  {
    SplitContractsChunks(e, Keys(ByContract(e.fills)), asOf);
  }

  // ------------------------------------------------------- a piece is not split again

  ghost predicate OnlyContract(fills: seq<Fill>, k: Contract) {
    forall f | f in fills :: f.contract == k
  }

  /** With one contract, a moment is empty when it has expired or is not held. */
  lemma {:induction false} EmptyForOne(fills: seq<Fill>, k: Contract, i: nat)
    requires OnlyContract(fills, k) && i < |fills|
    ensures EmptyAt(fills, i) <==> (k.expiration < Day(fills[i].ts) || Net(fills[..i], k) == 0)
  {
    forall c | c != k ensures Net(fills[..i], c) == 0 {
      assert forall f | f in fills[..i] :: f in fills;
      NetAbsent(fills[..i], c);
    }
  }

  /** An unmarked moment inside a piece is not empty for the piece on its own either. */
  lemma {:induction false} StillHeld(s: seq<Fill>, k: Contract, a: nat, b: nat, i: nat)
    requires OnlyContract(s, k) && InTimeOrder(s) && a < b <= |s| && 0 < i < b - a
    requires (a == 0 || EmptyAt(s, a)) && !EmptyAt(s, a + i)
    ensures !EmptyAt(s[a..b], i)
  {
    var c := s[a..b];
    assert forall f | f in c :: f in s;
    EmptyForOne(s, k, a);
    EmptyForOne(s, k, a + i);
    EmptyForOne(c, k, i);
    assert s[a].ts <= s[a + i].ts;
    NetWithin(s, k, a, b, i);
  }

  lemma {:induction false} NetWithin(s: seq<Fill>, k: Contract, a: nat, b: nat, i: nat)
    requires a + i < b <= |s|
    ensures Net(s[..a + i], k) == Net(s[..a], k) + Net(s[a..b][..i], k) && s[a..b][i] == s[a + i]
  {
    assert s[..a + i] == s[..a] + s[a..b][..i];
    NetAppend(s[..a], s[a..b][..i], k);
  }

  /** A chunk of one contract's fills is, on its own, a single chunk. */
  lemma {:induction false} ChunkStaysWhole(s: seq<Fill>, k: Contract, m: nat)
    requires OnlyContract(s, k) && InTimeOrder(s) && m < |Chunks(s)|
    ensures Chunks(Chunks(s)[m]) == [Chunks(s)[m]]
    ensures OnlyContract(Chunks(s)[m], k) && InTimeOrder(Chunks(s)[m])
  {
    var a, b := PieceIsSpan(s, Marks(s), m);
    SliceStaysWhole(s, k, a, b);
  }

  lemma {:induction false} SliceStaysWhole(s: seq<Fill>, k: Contract, a: nat, b: nat)
    requires OnlyContract(s, k) && InTimeOrder(s) && a < b <= |s|
    requires (a == 0 || EmptyAt(s, a)) && forall i | a < i < b :: !EmptyAt(s, i)
    ensures Chunks(s[a..b]) == [s[a..b]]
    ensures OnlyContract(s[a..b], k) && InTimeOrder(s[a..b])
  {
    assert forall f | f in s[a..b] :: f in s;
    forall i | 0 < i < b - a ensures !EmptyAt(s[a..b], i) {
      StillHeld(s, k, a, b, i);
    }
    Uncut(s[a..b], Marks(s[a..b]));
  }

  lemma {:induction false} ChunkSource(e: Episode, keys: seq<Contract>, c: seq<Fill>) returns (k: Contract)
    requires c in ChunksOf(e, keys)
    ensures k in keys && c in Chunks(OfContract(e, k))
  {
    k := keys[|keys|-1];
    if c !in Chunks(OfContract(e, k)) {
      k := ChunkSource(e, keys[..|keys|-1], c);
    }
  }

  lemma {:induction false} OfContractIs(e: Episode, k: Contract)
    ensures OnlyContract(OfContract(e, k), k) && InTimeOrder(OfContract(e, k))
  {
    ContractList(e.fills, ByContract(e.fills), k);
    SortPermutes(FlatSplit.Earlier, Reals(At(ByContract(e.fills), k)));
    SortedInTime(Reals(At(ByContract(e.fills), k)));
  }

  /** One contract makes one key, holding everything. */
  lemma {:induction false} OneKey(fills: seq<Fill>, k: Contract)
    requires fills != [] && OnlyContract(fills, k)
    ensures Keys(ByContract(fills)) == [k] && At(ByContract(fills), k) == fills
  {
    var n := |fills| - 1;
    var log := ByContract(fills);
    SplitLast(fills);
    assert log[..n] == ByContract(fills[..n]);
    assert fills[n] in fills;
    if n > 0 {
      assert forall f | f in fills[..n] :: f in fills;
      OneKey(fills[..n], k);
    } else {
      assert log[..0] == [];
    }
  }

  /** The fallback split finds nothing more to split in a piece it made. */
  lemma {:induction false} PieceStays(e: Episode, asOf: int, p: Episode, again: int)
    requires WellFormed(e) && p in Pieces(e, asOf)
    ensures WellFormed(p) && OneContract(p) && |Pieces(p, again)| == 1
  {
    SplitPerContractConserves(e, asOf);
    PiecesAreChunks(e, asOf);
    PiecesAreChunks(p, again);
    RealListsAt(Pieces(e, asOf));
    RealListsAt(Pieces(p, again));
    var c := Reals(p.fills);
    var k := ChunkSource(e, Keys(ByContract(e.fills)), c);
    var m :| 0 <= m < |Chunks(OfContract(e, k))| && Chunks(OfContract(e, k))[m] == c;
    OfContractIs(e, k);
    ChunkStaysWhole(OfContract(e, k), k, m);
    PieceChunks(p, c, k);
  }

  lemma {:induction false} PieceChunks(p: Episode, c: seq<Fill>, k: Contract)
    requires WellFormed(p) && OneContract(p) && c == Reals(p.fills)
    requires OnlyContract(c, k) && InTimeOrder(c) && Chunks(c) == [c]
    ensures ContractChunks(p) == [c]
  {
    assert p.fills[0] in p.fills && p.fills[0] in c;
    OneKey(p.fills, k);
    assert forall i, j | 0 <= i < j < |c| :: FlatSplit.Earlier(c[i], c[j]);
    SortOfSorted(FlatSplit.Earlier, c);
    assert ChunksOf(p, [k]) == ChunksOf(p, []) + Chunks(OfContract(p, k)) by {
      assert [k][..0] == [];
    }
  }

  // ------------------------------------------------------------------ the exact condition

  /** An episode whose label, and the label of whatever it is split into, can be built. */
  ghost predicate SafeLabels(e: Episode) {
    && LabelOk(e.fills)
    && (|ContractChunks(e)| > 1 ==> forall c | c in ContractChunks(e) :: LabelOk(c))
  }

  /** What takes the place of a safe episode is safe. */
  lemma {:induction false} PiecesSafe(e: Episode, asOf: int)
    requires WellFormed(e) && |Pieces(e, asOf)| > 1
    ensures forall p | p in Pieces(e, asOf) :: WellFormed(p) && (SafeLabels(p) <==> Labelable(p))
    ensures |ContractChunks(e)| > 1
    ensures (forall c | c in ContractChunks(e) :: LabelOk(c)) <==> forall p | p in Pieces(e, asOf) :: Labelable(p)
  {
    var ps := Pieces(e, asOf);
    PiecesAreChunks(e, asOf);
    RealListsAt(ps);
    forall p | p in ps
      ensures WellFormed(p) && (SafeLabels(p) <==> Labelable(p)) && (Labelable(p) <==> LabelOk(Reals(p.fills)))
    {
      PieceStays(e, asOf, p, asOf);
      PiecesAreChunks(p, asOf);
      RealListsAt(Pieces(p, asOf));
      LabelFromFills(p);
      PieceLabel(p);
    }
    ByIndex(e, asOf);
  }

  lemma {:induction false} ByIndex(e: Episode, asOf: int)
    ensures forall c :: c in ContractChunks(e) <==> exists p :: p in Pieces(e, asOf) && c == Reals(p.fills)
  {
    var ps := Pieces(e, asOf);
    PiecesAreChunks(e, asOf);
    RealListsAt(ps);
    forall c ensures c in ContractChunks(e) <==> exists p :: p in ps && c == Reals(p.fills) {
      if c in ContractChunks(e) {
        var i :| 0 <= i < |ps| && RealLists(ps)[i] == c;
        assert ps[i] in ps;
      }
      if p :| p in ps && c == Reals(p.fills) {
        var i :| 0 <= i < |ps| && ps[i] == p;
        assert RealLists(ps)[i] == c;
      }
    }
  }

  /** Safe work never raises, whatever is answered. */
  lemma {:induction false} SafeWorkReports(work: seq<Episode>, done: seq<Entry>, turn: nat,
                                           tracking: (nat, Episode) -> Tracking, recognised: (nat, Episode) -> bool,
                                           today: nat -> int)
    requires forall e | e in work :: WellFormed(e) && SafeLabels(e)
    ensures SyncFrom(work, done, turn, tracking, recognised, today).Report?
    decreases Weight(work)
  {
    if work != [] {
      var ep, rest := work[0], work[1..];
      assert work == [ep] + rest && ep in work;
      LabelFromFills(ep);
      var found, known := tracking(turn, ep), recognised(turn, ep);
      var subs := SyncWorklist.Parts(ep, found, known, today(turn));
      PartsConserve(ep, found, known, today(turn));
      if |subs| > 1 {
        PiecesSafe(ep, today(turn));
        SplitAdvances(ep, subs, rest);
        SafeWorkReports(subs + rest, done, turn + 1, tracking, recognised, today);
      } else {
        ReportAdvances(work);
        SafeWorkReports(rest, done + [Entry(ep, OutcomeOf(ep, found, known), turn)], turn + 1,
                        tracking, recognised, today);
      }
    }
  }

  /** Answers that track every episode but one. */
  function AllBut(e: Episode): (nat, Episode) -> Tracking {
    (turn: nat, x: Episode) => if x == e then Untracked else TrackedOther
  }

  function NeverRecognised(): (nat, Episode) -> bool {
    (turn: nat, x: Episode) => false
  }

  /** With those answers a work list that holds an unlabelable episode, or the one
      unsafe episode left untracked, raises. */
  lemma {:induction false} UnsafeWorkRaises(work: seq<Episode>, done: seq<Entry>, turn: nat, e: Episode,
                                            today: nat -> int)
    requires forall x | x in work :: WellFormed(x)
    requires (e in work && !SafeLabels(e)) || exists x :: x in work && !Labelable(x)
    ensures SyncFrom(work, done, turn, AllBut(e), NeverRecognised(), today).Crashed?
    decreases Weight(work)
  {
    var ep, rest := work[0], work[1..];
    assert work == [ep] + rest && ep in work;
    if Labelable(ep) {
      var found, known := AllBut(e)(turn, ep), NeverRecognised()(turn, ep);
      var subs := SyncWorklist.Parts(ep, found, known, today(turn));
      PartsConserve(ep, found, known, today(turn));
      LabelFromFills(ep);
      assert ep != e ==> subs == [];
      if ep == e && !SafeLabels(e) {
        PiecesAreChunks(e, today(turn));
        RealListsAt(Pieces(e, today(turn)));
        PiecesSafe(e, today(turn));
      }
      if |subs| > 1 {
        assert forall x :: x in subs + rest <==> x in subs || x in rest;
        SplitAdvances(ep, subs, rest);
        UnsafeWorkRaises(subs + rest, done, turn + 1, e, today);
      } else {
        ReportAdvances(work);
        UnsafeWorkRaises(rest, done + [Entry(ep, OutcomeOf(ep, found, known), turn)], turn + 1, e, today);
      }
    }
  }

  /** Main result: `sync` finishes whatever the database answers and whatever is
      recognised, on whatever days, exactly when every incoming episode has an opening
      fill and, if flat, a closing one, and the same holds of each of the parts its
      contracts fall into, when there are several. */
  lemma {:induction false} NeverRaisesExactly(eps: seq<Episode>)
    requires forall e | e in eps :: WellFormed(e)
    ensures (forall tracking: (nat, Episode) -> Tracking, recognised: (nat, Episode) -> bool, today: nat -> int ::
               SyncFrom(eps, [], 0, tracking, recognised, today).Report?)
       <==> forall e | e in eps :: SafeLabels(e)
  {
    if forall e | e in eps :: SafeLabels(e) {
      forall tracking: (nat, Episode) -> Tracking, recognised: (nat, Episode) -> bool, today: nat -> int
        ensures SyncFrom(eps, [], 0, tracking, recognised, today).Report?
      {
        SafeWorkReports(eps, [], 0, tracking, recognised, today);
      }
    } else {
      var e :| e in eps && !SafeLabels(e);
      var today := (turn: nat) => 0;
      UnsafeWorkRaises(eps, [], 0, e, today);
      assert !SyncFrom(eps, [], 0, AllBut(e), NeverRecognised(), today).Report?;
    }
  }

  /** A position bought and sold back by orders the broker marked as opening: closed,
      with nothing that closed it. */
  lemma {:induction false} RoundTripOfOpensRaises(bought: Fill, sold: Fill, tracking: (nat, Episode) -> Tracking,
                                                  recognised: (nat, Episode) -> bool, today: nat -> int)
    requires bought.effect == sold.effect == Open && bought.contract == sold.contract
    requires bought.signedQty == -sold.signedQty != 0
    ensures var e := Episode(bought.symbol, [bought, sold]);
      WellFormed(e) && Flat(e.fills) && SyncFrom([e], [], 0, tracking, recognised, today) == Crashed(e)
  {
    var e := Episode(bought.symbol, [bought, sold]);
    var k := bought.contract;
    assert e.fills[..1] == [bought] && [bought][..0] == [];
    assert e.fills == [bought] + [sold];
    NetSnoc([bought], sold, k);
    assert Net([bought], k) == bought.signedQty && Net(e.fills, k) == 0;
    forall i | 0 < i < |e.fills| ensures !FlatSplit.FlatAfter(e, i) {
      assert i == 1 && bought in e.fills[..1];
    }
    forall i | 0 <= i < |e.fills| ensures FlatSplit.ExpiryExactAt(e, i) {
    }
    LabelFromFills(e);
  }
}
