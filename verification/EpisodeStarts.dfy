/** Where the episodes of a linked group begin (`_split_flat`, scripts/rh_sync.py),
    told from the fills alone: no ledger, no synthetic fills and no `as_of`. An episode
    begins at each fill that finds no position in a contract still alive on its day. */
module EpisodeStarts {
  import opened Basics
  import opened Seqs
  import opened Cutting
  import opened Fills
  import opened FlatSplit

  /** Nothing that lives to the day of fill i is held just before it. */
  ghost predicate EmptyAt(fills: seq<Fill>, i: nat)
    requires i < |fills|
  {
    forall k: Contract | k.expiration >= Day(fills[i].ts) :: Net(fills[..i], k) == 0
  }

  ghost function Marks(fills: seq<Fill>): (marks: seq<bool>)
    ensures |marks| == |fills| && forall i | 0 <= i < |fills| :: marks[i] == EmptyAt(fills, i)
  {
    seq(|fills|, i requires 0 <= i < |fills| => EmptyAt(fills, i))
  }

  /** The fills cut at every empty moment. */
  ghost function Chunks(fills: seq<Fill>): seq<seq<Fill>> {
    Cut(fills, Marks(fills))
  }

  lemma {:induction false} MarksOfPrefix(fills: seq<Fill>, n: nat)
    requires n <= |fills|
    ensures Marks(fills[..n]) == Marks(fills)[..n]
  {
    forall i | 0 <= i < n ensures Marks(fills[..n])[i] == Marks(fills)[i] {
      assert fills[..n][..i] == fills[..i];
    }
  }

  // ------------------------------------------------------ what the ledger holds, in closed form

  ghost predicate InTimeOrder(fills: seq<Fill>) {
    forall i, j | 0 <= i < j < |fills| :: fills[i].ts <= fills[j].ts
  }

  /** A contract that lives to the day of the last fill fed has its whole net position. */
  lemma {:induction false} LedgerIsNet(symbol: string, fills: seq<Fill>, k: Contract)
    requires InTimeOrder(fills) && forall f | f in fills :: IsReal(f)
    requires fills != [] ==> Day(fills[|fills|-1].ts) <= k.expiration
    ensures Run(symbol, fills).ledger.Held(k) == Net(fills, k)
  {
    if fills != [] {
      var n := |fills| - 1;
      var f := fills[n];
      SplitLast(fills);
      if n > 0 {
        assert fills[..n][n-1].ts <= f.ts;
      }
      LedgerIsNet(symbol, fills[..n], k);
      RunKeeps(symbol, fills[..n]);
      FeedHolds(symbol, Run(symbol, fills[..n]), f, k);
      NetSnoc(fills[..n], f, k);
    }
  }

  lemma {:induction false} FeedHolds(symbol: string, st: State, f: Fill, k: Contract)
    requires st.ledger.Valid()
    ensures Feed(symbol, st, f).ledger.Held(k)
         == (if k.expiration < Day(f.ts) then 0 else st.ledger.Held(k)) + if f.contract == k then f.signedQty else 0
  {
    ExpireStaleValid(symbol, st, Day(f.ts));
    BumpHeld(ExpireStale(symbol, st, Day(f.ts)).ledger, f.contract, f.signedQty);
  }

  /** What a sweep up to the day of fill n leaves of each contract. */
  lemma {:induction false} SweptHolds(symbol: string, fills: seq<Fill>, n: nat, k: Contract)
    requires n < |fills| && InTimeOrder(fills) && forall f | f in fills :: IsReal(f)
    ensures ExpireStale(symbol, Run(symbol, fills[..n]), Day(fills[n].ts)).ledger.Held(k)
         == if k.expiration < Day(fills[n].ts) then 0 else Net(fills[..n], k)
  {
    var st := Run(symbol, fills[..n]);
    PrefixInOrder(fills, n);
    RunKeeps(symbol, fills[..n]);
    ExpireStaleValid(symbol, st, Day(fills[n].ts));
    if k.expiration >= Day(fills[n].ts) {
      LedgerIsNet(symbol, fills[..n], k);
    }
  }

  lemma {:induction false} PrefixInOrder(fills: seq<Fill>, n: nat)
    requires n < |fills| && InTimeOrder(fills)
    ensures InTimeOrder(fills[..n])
    ensures forall f | f in fills[..n] :: f in fills
    ensures n > 0 ==> Day(fills[..n][n-1].ts) <= Day(fills[n].ts)
  {
    if n > 0 {
      assert fills[..n][n-1].ts <= fills[n].ts;
    }
  }

  /** Nothing is open exactly when the ledger holds nothing. */
  lemma {:induction false} OpenHoldsSomething(symbol: string, st: State)
    requires Inv(symbol, st)
    ensures st.current.None? <==> forall k :: st.ledger.Held(k) == 0
  {
    if st.current.Some? {
      var e := st.current.value;
      var f :| f in e.fills && Net(e.fills, f.contract) != 0;
      assert st.ledger.Held(f.contract) != 0;
    }
  }

  /** After the sweep that precedes a fill nothing is open exactly at an empty moment. */
  lemma {:induction false} NothingOpenWhenEmpty(symbol: string, fills: seq<Fill>, n: nat)
    requires n < |fills| && InTimeOrder(fills) && forall f | f in fills :: IsReal(f)
    ensures var st := ExpireStale(symbol, Run(symbol, fills[..n]), Day(fills[n].ts));
      st.current.None? <==> EmptyAt(fills, n)
  {
    var st := ExpireStale(symbol, Run(symbol, fills[..n]), Day(fills[n].ts));
    RunKeeps(symbol, fills[..n]);
    ExpireStaleKeeps(symbol, Run(symbol, fills[..n]), Day(fills[n].ts));
    OpenHoldsSomething(symbol, st);
    forall k {
      SweptHolds(symbol, fills, n, k);
    }
  }

  // ------------------------------------------------------------ the episodes are the chunks

  /** The real fills of each episode, the open one included. */
  ghost function RealLists(eps: seq<Episode>): seq<seq<Fill>> {
    if eps == [] then [] else RealLists(eps[..|eps|-1]) + [Reals(eps[|eps|-1].fills)]
  }

  lemma {:induction false} RealListsSnoc(eps: seq<Episode>, e: Episode)
    ensures RealLists(eps + [e]) == RealLists(eps) + [Reals(e.fills)]
  {
    SnocParts(eps, e);
  }

  lemma {:induction false} RealListsAt(eps: seq<Episode>)
    ensures |RealLists(eps)| == |eps|
    ensures forall i | 0 <= i < |eps| :: RealLists(eps)[i] == Reals(eps[i].fills)
  {
    if eps != [] {
      RealListsAt(eps[..|eps|-1]);
    }
  }

  function Emitted(st: State): seq<Episode> {
    if st.current.Some? then st.episodes + [st.current.value] else st.episodes
  }

  lemma {:induction false} SweepKeepsLists(symbol: string, st: State, upTo: int)
    requires Inv(symbol, st)
    ensures RealLists(Emitted(ExpireStale(symbol, st, upTo))) == RealLists(Emitted(st))
  {
    match st.current
    case None =>
      NoEpisodeFromNone(symbol, st.ledger.keys, st.ledger.qty, upTo);
    case Some(e) =>
      ExpiredEpisode(symbol, st.ledger.keys, st.ledger.qty, e, upTo);
      var e' := ExpireKeys(symbol, st.ledger.keys, st.ledger.qty, Some(e), upTo).1.value;
      RealListsSnoc(st.episodes, e);
      RealListsSnoc(st.episodes, e');
  }

  /** One more fill: a new list when nothing is open, or one more item of the last. */
  ghost function Grown(lists: seq<seq<Fill>>, anew: bool, f: Fill): seq<seq<Fill>> {
    if lists == [] || anew then lists + [[f]] else lists[..|lists|-1] + [lists[|lists|-1] + [f]]
  }

  lemma {:induction false} GrownSnoc(lists: seq<seq<Fill>>, last: seq<Fill>, f: Fill)
    ensures Grown(lists + [last], false, f) == lists + [last + [f]]
  {
    SnocParts(lists, last);
  }

  lemma {:induction false} BookNew(symbol: string, st: State, f: Fill)
    requires IsReal(f) && st.current.None?
    ensures RealLists(Emitted(Book(symbol, st, f))) == RealLists(Emitted(st)) + [[f]]
  {
    var e := Episode(symbol, [] + [f]);
    FilterSnoc(IsReal, [], f);
    RealListsSnoc(st.episodes, e);
    assert Emitted(Book(symbol, st, f)) == st.episodes + [e];
  }

  lemma {:induction false} BookMore(symbol: string, st: State, f: Fill)
    requires IsReal(f) && st.current.Some?
    ensures RealLists(Emitted(st)) != []
    ensures RealLists(Emitted(Book(symbol, st, f))) == Grown(RealLists(Emitted(st)), false, f)
  {
    var e := st.current.value;
    var e' := e.(fills := e.fills + [f]);
    FilterSnoc(IsReal, e.fills, f);
    RealListsSnoc(st.episodes, e);
    RealListsSnoc(st.episodes, e');
    GrownSnoc(RealLists(st.episodes), Reals(e.fills), f);
    assert Emitted(Book(symbol, st, f)) == st.episodes + [e'];
  }

  lemma {:induction false} FeedLists(symbol: string, st: State, f: Fill)
    requires Inv(symbol, st) && IsReal(f)
    ensures RealLists(Emitted(Feed(symbol, st, f)))
         == Grown(RealLists(Emitted(st)), ExpireStale(symbol, st, Day(f.ts)).current.None?, f)
  {
    var swept := ExpireStale(symbol, st, Day(f.ts));
    SweepKeepsLists(symbol, st, Day(f.ts));
    if swept.current.None? {
      BookNew(symbol, swept, f);
    } else {
      BookMore(symbol, swept, f);
    }
  }

  lemma {:induction false} ChunksGrow(fills: seq<Fill>)
    requires fills != []
    ensures var n := |fills| - 1;
      Chunks(fills) == Grown(Chunks(fills[..n]), EmptyAt(fills, n), fills[n])
  {
    MarksOfPrefix(fills, |fills| - 1);
  }

  lemma {:induction false} RunIsChunks(symbol: string, fills: seq<Fill>)
    requires InTimeOrder(fills) && forall f | f in fills :: IsReal(f)
    ensures RealLists(Emitted(Run(symbol, fills))) == Chunks(fills)
  {
    if fills != [] {
      var n := |fills| - 1;
      PrefixInOrder(fills, n);
      RunIsChunks(symbol, fills[..n]);
      RunKeeps(symbol, fills[..n]);
      FeedLists(symbol, Run(symbol, fills[..n]), fills[n]);
      NothingOpenWhenEmpty(symbol, fills, n);
      ChunksGrow(fills);
    }
  }

  lemma {:induction false} SortedInTime(group: seq<Fill>)
    ensures InTimeOrder(SortBy(Earlier, group))
  {
    SortBySorted(Earlier, group);
    var s := SortBy(Earlier, group);
    assert forall i, j | 0 <= i < j < |s| :: Earlier(s[i], s[j]);
  }

  /** The real fills of the episodes of a group are its fills, in time order, cut at
      every empty moment; `as_of` has no say in it. */
  lemma {:induction false} EpisodesAreChunks(symbol: string, group: seq<Fill>, asOf: int)
    requires forall f | f in group :: IsReal(f)
    ensures RealLists(Split(symbol, group, asOf)) == Chunks(SortBy(Earlier, group))
  {
    SortPermutes(Earlier, group);
    SortedInTime(group);
    RunIsChunks(symbol, SortBy(Earlier, group));
    RunKeeps(symbol, SortBy(Earlier, group));
    FinishEmits(symbol, Run(symbol, SortBy(Earlier, group)), asOf);
  }

  lemma {:induction false} FinishEmits(symbol: string, st: State, asOf: int)
    requires Inv(symbol, st)
    ensures RealLists(Finish(symbol, st, asOf)) == RealLists(Emitted(st))
  {
    SweepKeepsLists(symbol, st, asOf);
    ExpireStaleKeeps(symbol, st, asOf);
    assert Finish(symbol, st, asOf) == Emitted(ExpireStale(symbol, st, asOf));
  }

  // ------------------------------------------------------------- episodes never opened

  predicate OpensNothing(fills: seq<Fill>) {
    forall f | f in fills :: !IsOpening(f)
  }

  lemma {:induction false} NoOpeningTime(e: Episode)
    ensures OpenedAt(e).None? <==> OpensNothing(Reals(e.fills))
  {
    MinTsIsLeast(Filter(IsOpening, e.fills));
    if OpensNothing(Reals(e.fills)) {
      forall f | f in e.fills ensures !IsOpening(f) {
        assert IsReal(f) ==> f in Reals(e.fills);
      }
      FilterNone(IsOpening, e.fills);
    } else {
      var f :| f in Reals(e.fills) && IsOpening(f);
      assert f in Filter(IsOpening, e.fills);
    }
  }

  /** A stretch between two empty moments, or up to the end, without an opening fill. */
  ghost predicate UnopenedStretch(fills: seq<Fill>, a: int, b: int) {
    Span(Marks(fills), a, b) && OpensNothing(fills[a..b])
  }

  ghost predicate HasUnopenedStretch(fills: seq<Fill>) {
    exists a, b :: UnopenedStretch(fills, a, b)
  }

  /** A group yields an episode without an opening fill exactly when its fills, in time
      order, have a stretch without one between two empty moments. */
  lemma {:induction false} UnopenedExactly(symbol: string, group: seq<Fill>, asOf: int)
    requires forall f | f in group :: IsReal(f)
    ensures (exists e :: e in Split(symbol, group, asOf) && OpenedAt(e).None?)
       <==> HasUnopenedStretch(SortBy(Earlier, group))
  {
    var s, eps := SortBy(Earlier, group), Split(symbol, group, asOf);
    EpisodesAreChunks(symbol, group, asOf);
    RealListsAt(eps);
    if e :| e in eps && OpenedAt(e).None? {
      var m :| 0 <= m < |eps| && eps[m] == e;
      NoOpeningTime(e);
      UnopenedChunk(s, m);
    }
    if a, b :| UnopenedStretch(s, a, b) {
      var m := ChunkOfUnopened(s, a, b);
      NoOpeningTime(eps[m]);
      assert eps[m] in eps;
    }
  }

  lemma {:induction false} UnopenedChunk(s: seq<Fill>, m: nat)
    requires m < |Chunks(s)| && OpensNothing(Chunks(s)[m])
    ensures HasUnopenedStretch(s)
  {
    var a, b := PieceIsSpan(s, Marks(s), m);
    assert UnopenedStretch(s, a, b);
  }

  lemma {:induction false} ChunkOfUnopened(s: seq<Fill>, a: int, b: int) returns (m: nat)
    requires UnopenedStretch(s, a, b)
    ensures m < |Chunks(s)| && OpensNothing(Chunks(s)[m])
  {
    var x, y;
    m, x, y := SpanHoldsPiece(s, Marks(s), a, b);
    SubStretch(s, a, b, x, y);
  }

  lemma {:induction false} SubStretch(s: seq<Fill>, a: nat, b: nat, x: nat, y: nat)
    requires a <= x <= y <= b <= |s| && OpensNothing(s[a..b])
    ensures OpensNothing(s[x..y])
  {
    forall f | f in s[x..y] ensures f in s[a..b] {
      var i :| x <= i < y && s[i] == f;
      assert s[a..b][i - a] == f;
    }
  }
}
