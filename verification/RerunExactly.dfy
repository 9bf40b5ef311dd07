/** Exactly which closed episodes a re-run on a longer history rebuilds
    (`build_episodes`, scripts/rh_sync.py). */
module RerunExactly {
  import opened Basics
  import opened Seqs
  import opened Fills
  import opened ContractLinks
  import opened EpisodeBuilder
  import opened EpisodeStarts
  import opened EpisodeShapes
  import opened RebuildErrors
  import opened RebuildRerun
  import FlatSplit

  // ------------------------------------------------------------------------- real fills

  /** The group of an episode is the component of its first real fill. */
  lemma {:induction false} GroupOfFirst(fills: seq<Fill>, asOf: int, r: BuildResult, e: Episode) returns (g: Group)
    requires (forall f | f in fills :: IsReal(f)) && Rebuilt(fills, asOf, r) && r.Built? && e in r.episodes
    ensures Reals(e.fills) != [] && Reals(e.fills)[0] in fills && e.symbol == Reals(e.fills)[0].symbol == g.root.symbol
    ensures g.fills == Component(fills, NodeOf(Reals(e.fills)[0])) && forall f | f in Reals(e.fills) :: f in g.fills
    ensures e in FlatSplit.Split(g.root.symbol, g.fills, asOf)
  {
    g := EpisodeGroup(fills, asOf, r, e);
    EpisodeOfGroup(fills, g, asOf, e);
    assert e.fills[0] in Reals(e.fills);
    FromGroup(g, asOf, e);
    SameComponent(fills, g.root, Reals(e.fills)[0]);
    ComponentSymbol(fills, g, Reals(e.fills)[0]);
  }

  /** The real fills of a rebuilt episode are a chunk of what they are linked to. */
  lemma {:induction false} RebuiltIsChunk(fills: seq<Fill>, asOf: int, r: BuildResult, e: Episode)
    requires (forall f | f in fills :: IsReal(f)) && Rebuilt(fills, asOf, r) && r.Built? && e in r.episodes
    ensures Reals(e.fills) != [] && Reals(e.fills) in Chunks(LinkedInTime(fills, Reals(e.fills)[0]))
  {
    var g := GroupOfFirst(fills, asOf, r, e);
    var m := ChunkOfEpisode(g.root.symbol, g.fills, asOf, e);
  }

  /** And every such chunk is rebuilt. */
  lemma {:induction false} ChunkIsRebuilt(fills: seq<Fill>, asOf: int, r: BuildResult, own: seq<Fill>)
    returns (e: Episode)
    requires (forall f | f in fills :: IsReal(f)) && Rebuilt(fills, asOf, r) && r.Built?
    requires own != [] && own[0] in fills && own in Chunks(LinkedInTime(fills, own[0]))
    ensures e in r.episodes && Reals(e.fills) == own
  {
    var groups: seq<Group> :| GroupsOk(fills, groups) && RebuiltFrom(groups, asOf, r);
    RebuiltKeeps(groups, asOf, r);
    var g: Group :| g in groups && own[0] in g.fills;
    SameComponent(fills, g.root, own[0]);
    e := ChunkInSplit(g.root.symbol, g.fills, asOf, own);
    InEpisodesOf(groups, asOf, g, e);
    assert e in multiset(EpisodesOf(groups, asOf));
    assert e in multiset(r.episodes);
  }

  lemma {:induction false} ChunkInSplit(symbol: string, group: seq<Fill>, asOf: int, own: seq<Fill>)
    returns (e: Episode)
    requires (forall f | f in group :: IsReal(f)) && own in Chunks(SortBy(FlatSplit.Earlier, group))
    ensures e in FlatSplit.Split(symbol, group, asOf) && Reals(e.fills) == own
  {
    var eps := FlatSplit.Split(symbol, group, asOf);
    EpisodesAreChunks(symbol, group, asOf);
    RealListsAt(eps);
    var m :| 0 <= m < |RealLists(eps)| && RealLists(eps)[m] == own;
    e := eps[m];
  }

  /** Of any rebuild: the real fills of its episodes are exactly the chunks. */
  lemma {:induction false} RealsRebuiltExactly(fills: seq<Fill>, asOf: int, r: BuildResult, own: seq<Fill>)
    requires (forall f | f in fills :: IsReal(f)) && Rebuilt(fills, asOf, r) && r.Built?
    requires own != [] && own[0] in fills
    ensures (exists e :: e in r.episodes && Reals(e.fills) == own) <==> own in Chunks(LinkedInTime(fills, own[0]))
  {
    if own in Chunks(LinkedInTime(fills, own[0])) {
      var e := ChunkIsRebuilt(fills, asOf, r, own);
    }
    if e :| e in r.episodes && Reals(e.fills) == own {
      RebuiltIsChunk(fills, asOf, r, e);
    }
  }

  // -------------------------------------------------------------------- synthetic fills

  /** An old fill of a contract that linked old fills trade is itself among those linked,
      whatever else is linked later. */
  lemma {:induction false} LinkedBefore(fills: seq<Fill>, more: seq<Fill>, o: Fill, own: seq<Fill>, f: Fill)
    requires (forall g | g in own :: g in Component(fills, NodeOf(o))) && Trades(own, f.contract)
    ensures Connected(fills, NodeOf(o), NodeOf(f)) <==> Connected(fills + more, NodeOf(o), NodeOf(f))
  {
    if Connected(fills, NodeOf(o), NodeOf(f)) {
      MoreFillsLinkMore(fills, more, NodeOf(o), NodeOf(f));
    }
    if Connected(fills + more, NodeOf(o), NodeOf(f)) {
      var g :| g in own && g.contract == f.contract;
      ConnectedKeepsSymbol(fills, NodeOf(o), NodeOf(g));
      ConnectedKeepsSymbol(fills + more, NodeOf(o), NodeOf(f));
      assert NodeOf(f) == NodeOf(g);
    }
  }

  /** In a longer history the fills of those contracts are the old ones and later ones. */
  lemma {:induction false} KeptGrows(fills: seq<Fill>, more: seq<Fill>, o: Fill, own: seq<Fill>)
    returns (later: seq<Fill>)
    requires forall g | g in own :: g in Component(fills, NodeOf(o))
    ensures Filter(FillsLike(own), Component(fills + more, NodeOf(o)))
         == Filter(FillsLike(own), Component(fills, NodeOf(o))) + later
    ensures forall f | f in later :: f in more && Trades(own, f.contract)
  {
    var p' := (f: Fill) => Connected(fills + more, NodeOf(o), NodeOf(f));
    FilterAppend(p', fills, more);
    FilterAppend(FillsLike(own), Filter(p', fills), Filter(p', more));
    KeptOld(fills, more, o, own, p');
    later := Filter(FillsLike(own), Filter(p', more));
  }

  lemma {:induction false} KeptOld(fills: seq<Fill>, more: seq<Fill>, o: Fill, own: seq<Fill>, linked: Fill -> bool)
    requires forall g | g in own :: g in Component(fills, NodeOf(o))
    requires forall f | f in fills :: linked(f) == Connected(fills + more, NodeOf(o), NodeOf(f))
    ensures Filter(FillsLike(own), Filter(linked, fills)) == Filter(FillsLike(own), Component(fills, NodeOf(o)))
  {
    var p := (f: Fill) => Connected(fills, NodeOf(o), NodeOf(f));
    forall f | f in fills && FillsLike(own)(f) ensures p(f) == linked(f) {
      LinkedBefore(fills, more, o, own, f);
    }
    FilterSameWithin(p, linked, FillsLike(own), fills);
  }

  lemma {:induction false} EarlierIsTotal()
    ensures TotalPreorder(FlatSplit.Earlier)
  {
  }

  /** Contracts in order of trade, of a component sorted in time. */
  lemma {:induction false} OrderOfKept(group: seq<Fill>, own: seq<Fill>)
    ensures Filter(ContractsOf(own), FirstSeen(SortBy(FlatSplit.Earlier, group)))
         == FirstSeen(SortBy(FlatSplit.Earlier, Filter(FillsLike(own), group)))
  {
    EarlierIsTotal();
    FirstSeenOfKept(SortBy(FlatSplit.Earlier, group), own);
    FilterOfSort(FlatSplit.Earlier, FillsLike(own), group);
  }

  lemma {:induction false} LaterChangesNothing(kept: seq<Fill>, later: seq<Fill>, own: seq<Fill>)
    requires (forall f | f in own :: f in kept) && forall f | f in later :: Trades(own, f.contract)
    requires forall x, y | x in kept && y in later :: x.ts <= y.ts
    ensures FirstSeen(SortBy(FlatSplit.Earlier, kept + later)) == FirstSeen(SortBy(FlatSplit.Earlier, kept))
  {
    EarlierIsTotal();
    SortAppend(FlatSplit.Earlier, kept, later);
    SortPermutes(FlatSplit.Earlier, kept);
    SortPermutes(FlatSplit.Earlier, later);
    forall f | f in SortBy(FlatSplit.Earlier, later) ensures Trades(SortBy(FlatSplit.Earlier, kept), f.contract) {
      var g :| g in own && g.contract == f.contract;
    }
    FirstSeenKnown(SortBy(FlatSplit.Earlier, kept), SortBy(FlatSplit.Earlier, later));
  }

  /** A longer history keeps the order in which the contracts of linked old fills were
      first traded. */
  lemma {:induction false} SameFirstTrades(fills: seq<Fill>, more: seq<Fill>, o: Fill, own: seq<Fill>)
    requires forall x, y | x in fills && y in more :: x.ts <= y.ts
    requires forall g | g in own :: g in Component(fills, NodeOf(o))
    ensures Filter(ContractsOf(own), FirstSeen(LinkedInTime(fills, o)))
         == Filter(ContractsOf(own), FirstSeen(LinkedInTime(fills + more, o)))
  {
    OrderOfKept(Component(fills, NodeOf(o)), own);
    OrderOfKept(Component(fills + more, NodeOf(o)), own);
    var later := KeptGrows(fills, more, o, own);
    LaterChangesNothing(Filter(FillsLike(own), Component(fills, NodeOf(o))), later, own);
  }

  /** An episode of a rebuild, by shape. */
  lemma {:induction false} RebuiltIsShaped(fills: seq<Fill>, asOf: int, r: BuildResult, e: Episode) returns (upTo: int)
    requires (forall f | f in fills :: IsReal(f)) && Rebuilt(fills, asOf, r) && r.Built? && e in r.episodes
    ensures Reals(e.fills) != [] && Reals(e.fills)[0] in fills && e.symbol == Reals(e.fills)[0].symbol
    ensures Shaped(e.symbol, e, FirstSeen(LinkedInTime(fills, Reals(e.fills)[0])), upTo)
    ensures forall f | f in Reals(e.fills) :: f in Component(fills, NodeOf(Reals(e.fills)[0]))
    ensures upTo == asOf || exists f :: f in fills && upTo == Day(f.ts)
    ensures !Flat(e.fills) ==> upTo == asOf
  {
    var g := GroupOfFirst(fills, asOf, r, e);
    upTo := EpisodesAreShaped(g.root.symbol, g.fills, asOf, e);
  }

  /** A closed episode and an episode of the re-run with the same real fills are equal. */
  lemma {:induction false} SameRealsSameEpisode(fills: seq<Fill>, more: seq<Fill>, asOf: int, asOf': int,
                                                r: BuildResult, r': BuildResult, e: Episode, e': Episode)
    requires forall x | x in fills + more :: IsReal(x)
    requires forall x, y | x in fills && y in more :: x.ts <= y.ts
    requires asOf <= asOf' && forall x | x in fills :: Day(x.ts) <= asOf'
    requires Rebuilt(fills, asOf, r) && Rebuilt(fills + more, asOf', r') && r.Built? && r'.Built?
    requires e in r.episodes && Flat(e.fills) && e' in r'.episodes && Reals(e'.fills) == Reals(e.fills)
    ensures e' == e
  {
    var upTo := RebuiltIsShaped(fills, asOf, r, e);
    var upTo' := RebuiltIsShaped(fills + more, asOf', r', e');
    var own := Reals(e.fills);
    SameFirstTrades(fills, more, own[0], own);
    FlatShapeIsUnique(e.symbol, own, FirstSeen(LinkedInTime(fills, own[0])),
                      FirstSeen(LinkedInTime(fills + more, own[0])), ContractsOf(own), upTo, upTo');
  }

  /** Main result: append fills no earlier than the old ones, with no old fill dated after
      the later `as_of`, and re-run. A closed episode is rebuilt, unchanged and with its
      synthetic fills, exactly when its real fills are still a chunk of everything they
      are linked to: consecutive in time, begun and ended at moments when nothing alive
      is held, with no such moment between. */
  lemma {:induction false} ClosedEpisodeSurvivesExactly(fills: seq<Fill>, more: seq<Fill>, asOf: int, asOf': int,
                                                        r: BuildResult, r': BuildResult, e: Episode)
    requires forall x | x in fills + more :: IsReal(x)
    requires forall x, y | x in fills && y in more :: x.ts <= y.ts
    requires asOf <= asOf' && forall x | x in fills :: Day(x.ts) <= asOf'
    requires Rebuilt(fills, asOf, r) && Rebuilt(fills + more, asOf', r') && r.Built? && r'.Built?
    requires e in r.episodes && Flat(e.fills)
    ensures Reals(e.fills) != []
    ensures e in r'.episodes <==> Reals(e.fills) in Chunks(LinkedInTime(fills + more, Reals(e.fills)[0]))
  {
    var g := GroupOfFirst(fills, asOf, r, e);
    if e in r'.episodes {
      RebuiltIsChunk(fills + more, asOf', r', e);
    }
    if Reals(e.fills) in Chunks(LinkedInTime(fills + more, Reals(e.fills)[0])) {
      var e' := ChunkIsRebuilt(fills + more, asOf', r', Reals(e.fills));
      SameRealsSameEpisode(fills, more, asOf, asOf', r, r', e, e');
    }
  }
}
