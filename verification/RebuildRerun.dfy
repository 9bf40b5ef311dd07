/** Re-running the whole rebuild on a longer history (`build_episodes`, and the
    idempotence promised at the top of scripts/rh_sync.py): closed episodes come back
    unchanged when no new order links old contracts that were not linked, and a log in
    which one does not come back. `RerunExactly` says exactly which come back. */
module RebuildRerun {
  import opened Basics
  import opened Seqs
  import opened Fills
  import opened ContractLinks
  import opened EpisodeBuilder
  import opened EpisodeStarts
  import opened RebuildErrors
  import opened Cutting
  import FlatSplit

  /** The new fills join no two old contracts that were apart. */
  ghost predicate NoNewLinks(fills: seq<Fill>, more: seq<Fill>) {
    forall f, g | f in fills && g in fills && Connected(fills + more, NodeOf(f), NodeOf(g)) ::
      Connected(fills, NodeOf(f), NodeOf(g))
  }

  lemma {:induction false} MoreFillsLinkMore(fills: seq<Fill>, more: seq<Fill>, a: Node, b: Node)
    requires Connected(fills, a, b)
    ensures Connected(fills + more, a, b)
  {
    var p :| Joins(fills, p, a, b);
    forall i | 0 <= i < |p| - 1 ensures Linked(fills + more, p[i], p[i+1]) {
      assert Linked(fills, p[i], p[i+1]);
      var f, g :| f in fills && g in fills && SameOrder(f, g) && NodeOf(f) == p[i] && NodeOf(g) == p[i+1];
      assert f in fills + more && g in fills + more;
    }
    assert Joins(fills + more, p, a, b);
  }

  /** A component keeps its old fills and may gain new ones. */
  lemma {:induction false} ComponentGrows(fills: seq<Fill>, more: seq<Fill>, f: Fill) returns (gained: seq<Fill>)
    requires f in fills && NoNewLinks(fills, more)
    ensures Component(fills + more, NodeOf(f)) == Component(fills, NodeOf(f)) + gained
    ensures forall g | g in gained :: g in more
  {
    var p := (g: Fill) => Connected(fills, NodeOf(f), NodeOf(g));
    var q := (g: Fill) => Connected(fills + more, NodeOf(f), NodeOf(g));
    forall g | g in fills ensures p(g) == q(g) {
      if p(g) {
        MoreFillsLinkMore(fills, more, NodeOf(f), NodeOf(g));
      }
    }
    FilterSame(p, q, fills);
    FilterAppend(q, fills, more);
    gained := Filter(q, more);
  }

  lemma {:induction false} ClosedIsKept(eps: seq<Episode>, e: Episode)
    requires e in eps && Flat(e.fills)
    ensures e in FlatSplit.ClosedPart(eps)
  {
    var i :| 0 <= i < |eps| && eps[i] == e;
    if eps != [] && !Flat(eps[|eps|-1].fills) {
      assert eps[..|eps|-1][i] == e;
    }
  }

  /** The group of a fill, before and after. */
  lemma {:induction false} GroupGrows(fills: seq<Fill>, more: seq<Fill>, g: Group, g': Group, f: Fill)
    returns (gained: seq<Fill>)
    requires NoNewLinks(fills, more)
    requires g.fills == Component(fills, g.root) && g'.fills == Component(fills + more, g'.root)
    requires f in g.fills && f in g'.fills
    ensures g'.fills == g.fills + gained && g'.root.symbol == g.root.symbol
    ensures (forall x | x in g.fills :: x in fills) && forall y | y in gained :: y in more
  {
    SameComponent(fills, g.root, f);
    SameComponent(fills + more, g'.root, f);
    ComponentSymbol(fills, g, f);
    ComponentSymbol(fills + more, g', f);
    gained := ComponentGrows(fills, more, f);
  }

  lemma {:induction false} ClosedRerun(symbol: string, group: seq<Fill>, gained: seq<Fill>, asOf: int, asOf': int,
                                       e: Episode)
    requires forall x | x in group + gained :: IsReal(x)
    requires forall x, y | x in group && y in gained :: x.ts <= y.ts
    requires forall y | y in gained :: asOf <= Day(y.ts)
    requires asOf <= asOf'
    requires e in FlatSplit.Split(symbol, group, asOf) && Flat(e.fills)
    ensures e in FlatSplit.Split(symbol, group + gained, asOf')
  {
    FlatSplit.RerunStable(symbol, group, gained, asOf, asOf');
    ClosedIsKept(FlatSplit.Split(symbol, group, asOf), e);
  }

  /** One component, re-run. */
  lemma {:induction false} ComponentRerun(fills: seq<Fill>, more: seq<Fill>, asOf: int, asOf': int, g: Group, g': Group,
                                          f: Fill, e: Episode)
    requires forall x | x in fills + more :: IsReal(x)
    requires forall x, y | x in fills && y in more :: x.ts <= y.ts
    requires forall y | y in more :: asOf <= Day(y.ts)
    requires asOf <= asOf' && NoNewLinks(fills, more)
    requires g.fills == Component(fills, g.root) && g'.fills == Component(fills + more, g'.root)
    requires f in g.fills && f in g'.fills
    requires e in FlatSplit.Split(g.root.symbol, g.fills, asOf) && Flat(e.fills)
    ensures e in FlatSplit.Split(g'.root.symbol, g'.fills, asOf')
  {
    var gained := GroupGrows(fills, more, g, g', f);
    forall x | x in g.fills + gained ensures x in fills + more {
      assert x in g.fills || x in gained;
    }
    ClosedRerun(g.root.symbol, g.fills, gained, asOf, asOf', e);
  }

  /** Main result: append fills no earlier than the old ones and dated on or after
      `asOf`, linking no old contracts anew, and re-run with a later `asOf`: every closed
      episode is rebuilt, unchanged. */
  lemma {:induction false} ClosedEpisodesSurvive(fills: seq<Fill>, more: seq<Fill>, asOf: int, asOf': int,
                                                 r: BuildResult, r': BuildResult, e: Episode)
    requires forall x | x in fills + more :: IsReal(x)
    requires forall x, y | x in fills && y in more :: x.ts <= y.ts
    requires forall y | y in more :: asOf <= Day(y.ts)
    requires asOf <= asOf' && NoNewLinks(fills, more)
    requires Rebuilt(fills, asOf, r) && Rebuilt(fills + more, asOf', r') && r.Built? && r'.Built?
    requires e in r.episodes && Flat(e.fills)
    ensures e in r'.episodes
  {
    var groups: seq<Group> :| GroupsOk(fills, groups) && RebuiltFrom(groups, asOf, r);
    RebuiltKeeps(groups, asOf, r);
    var groups': seq<Group> :| GroupsOk(fills + more, groups') && RebuiltFrom(groups', asOf', r');
    RebuiltKeeps(groups', asOf', r');
    assert e in multiset(r.episodes);
    var g := EpisodeOrigin(groups, asOf, e);
    var f := g.fills[0];
    assert f in g.fills && f in fills && f in fills + more;
    var g': Group :| g' in groups' && f in g'.fills;
    ComponentRerun(fills, more, asOf, asOf', g, g', f, e);
    InEpisodesOf(groups', asOf', g', e);
    assert e in multiset(EpisodesOf(groups', asOf'));
    assert e in multiset(r'.episodes);
  }

  // ------------------------------------------------- a linking order rewrites history

  const CALL_A := Contract(Call, 100, 300)
  const CALL_B := Contract(Call, 110, 300)
  const OPEN_A := Fill(1, "X", CALL_A, 1, 5, Open, "1")
  const OPEN_B := Fill(2, "X", CALL_B, 1, 4, Open, "2")
  const CLOSE_A := Fill(3, "X", CALL_A, -1, 7, Close, "3")
  const BOTH_A := Fill(4, "X", CALL_A, 1, 6, Open, "4")
  const BOTH_B := Fill(4, "X", CALL_B, 1, 3, Open, "4")
  const HISTORY := [OPEN_A, OPEN_B, CLOSE_A]
  const SPREAD := [BOTH_A, BOTH_B]

  lemma {:induction false} OnlySelfLinked(a: Node, b: Node)
    requires Connected(HISTORY, a, b)
    ensures a == b
  {
    var p :| Joins(HISTORY, p, a, b);
    PathStaysPut(p);
  }

  lemma {:induction false} PathStaysPut(p: seq<Node>)
    requires IsPath(HISTORY, p)
    ensures p[0] == p[|p|-1]
    decreases |p|
  {
    if |p| > 1 {
      var q := p[..|p|-1];
      assert forall i :: 0 <= i < |q| - 1 ==> Linked(HISTORY, q[i], q[i+1]);
      PathStaysPut(q);
      assert Linked(HISTORY, p[|p|-2], p[|p|-2+1]);
    }
  }

  lemma {:induction false} ComponentBefore()
    ensures Component(HISTORY, NodeOf(OPEN_A)) == [OPEN_A, CLOSE_A]
  {
    var p := (f: Fill) => Connected(HISTORY, NodeOf(OPEN_A), NodeOf(f));
    ConnectedSelf(HISTORY, NodeOf(OPEN_A));
    if p(OPEN_B) {
      OnlySelfLinked(NodeOf(OPEN_A), NodeOf(OPEN_B));
    }
    FilterThree(p, OPEN_A, OPEN_B, CLOSE_A);
  }

  lemma {:induction false} ComponentAfter()
    ensures Component(HISTORY + SPREAD, NodeOf(OPEN_A)) == HISTORY + SPREAD
  {
    var all := HISTORY + SPREAD;
    assert BOTH_A in all && BOTH_B in all && SameOrder(BOTH_A, BOTH_B);
    assert Linked(all, NodeOf(OPEN_A), NodeOf(OPEN_B));
    LinkedConnected(all, NodeOf(OPEN_A), NodeOf(OPEN_B));
    ConnectedSelf(all, NodeOf(OPEN_A));
    FilterAll((f: Fill) => Connected(all, NodeOf(OPEN_A), NodeOf(f)), all);
  }

  lemma {:induction false} InOrder(s: seq<Fill>)
    requires s == HISTORY || s == HISTORY + SPREAD
    ensures SortBy(FlatSplit.Earlier, s) == s
  {
    assert forall i, j | 0 <= i < j < |s| :: s[i].ts <= s[j].ts;
    assert forall i, j | 0 <= i < j < |s| :: FlatSplit.Earlier(s[i], s[j]);
    SortOfSorted(FlatSplit.Earlier, s);
  }

  /** A contract opened and then closed in full, both while it lives. */
  ghost predicate RoundTrip(o: Fill, c: Fill) {
    && o.effect == Open && c.effect == Close && o.contract == c.contract
    && o.signedQty == -c.signedQty != 0 && o.ts <= c.ts && Day(c.ts) <= c.contract.expiration
  }

  lemma {:induction false} NetOfTwo(o: Fill, c: Fill)
    requires RoundTrip(o, c)
    ensures Net([o], o.contract) != 0 && Flat([o, c])
  {
    assert [o][..0] == [];
    assert [o, c] == [o] + [c];
    NetSnoc([o], c, o.contract);
  }

  lemma {:induction false} OneChunk(o: Fill, c: Fill)
    requires RoundTrip(o, c)
    ensures Chunks([o, c]) == [[o, c]]
  {
    var s := [o, c];
    NetOfTwo(o, c);
    assert s[..1] == [o] && s[1] == c;
    assert !EmptyAt(s, 1);
    Uncut(s, Marks(s));
  }

  /** A group that is one chunk is one episode. */
  lemma {:induction false} OneChunkOneEpisode(symbol: string, group: seq<Fill>, asOf: int) returns (e: Episode)
    requires (forall f | f in group :: IsReal(f)) && SortBy(FlatSplit.Earlier, group) == group
    requires Chunks(group) == [group]
    ensures FlatSplit.Split(symbol, group, asOf) == [e] && Reals(e.fills) == group
  {
    var eps := FlatSplit.Split(symbol, group, asOf);
    EpisodesAreChunks(symbol, group, asOf);
    RealListsAt(eps);
    e := eps[0];
    assert eps == [e];
    assert RealLists(eps)[0] == group;
  }

  /** Without an expired contract an episode has no synthetic fill. */
  lemma {:induction false} AllIsReal(symbol: string, group: seq<Fill>, asOf: int, e: Episode)
    requires forall f | f in group :: IsReal(f) && Day(f.ts) <= asOf <= f.contract.expiration
    requires FlatSplit.Split(symbol, group, asOf) == [e] && Reals(e.fills) == group
    ensures e.fills == group
  {
    FlatSplit.NothingExpiresEarly(symbol, group, asOf);
    FlatSplit.SplitIsSound(symbol, group, asOf);
    assert FlatSplit.WellShaped(symbol, [e][0]);
    forall f | f in e.fills ensures IsReal(f) {
      AllFillsMember([e], e, f);
      if !IsReal(f) {
        ExpiryOfReals(symbol, e, f);
      }
    }
    FilterAll(IsReal, e.fills);
  }

  lemma {:induction false} PairInOrder(o: Fill, c: Fill)
    requires o.ts <= c.ts
    ensures SortBy(FlatSplit.Earlier, [o, c]) == [o, c]
  {
    var group := [o, c];
    assert forall i, j | 0 <= i < j < |group| :: FlatSplit.Earlier(group[i], group[j]);
    SortOfSorted(FlatSplit.Earlier, group);
  }

  /** A round trip on its own is one closed episode. */
  lemma {:induction false} RoundTripIsEpisode(symbol: string, o: Fill, c: Fill, asOf: int) returns (e: Episode)
    requires RoundTrip(o, c) && Day(o.ts) <= asOf && Day(c.ts) <= asOf <= c.contract.expiration
    ensures FlatSplit.Split(symbol, [o, c], asOf) == [e] && Reals(e.fills) == [o, c] && Flat(e.fills)
  {
    var group := [o, c];
    PairInOrder(o, c);
    OneChunk(o, c);
    e := OneChunkOneEpisode(symbol, group, asOf);
    AllIsReal(symbol, group, asOf, e);
    NetOfTwo(o, c);
  }

  /** A synthetic fill is for a contract some real fill of its episode traded. */
  lemma {:induction false} ExpiryOfReals(symbol: string, e: Episode, f: Fill)
    requires FlatSplit.WellShaped(symbol, e) && f in e.fills && !IsReal(f)
    ensures exists x :: x in Reals(e.fills) && x.contract == f.contract
  {
    var i :| 0 <= i < |e.fills| && e.fills[i] == f;
    FirstOfContract(symbol, e, i);
  }

  lemma {:induction false} FirstOfContract(symbol: string, e: Episode, i: nat)
    requires FlatSplit.WellShaped(symbol, e) && i < |e.fills|
    ensures exists x :: x in Reals(e.fills) && x.contract == e.fills[i].contract
    decreases i
  {
    var k := e.fills[i].contract;
    if IsReal(e.fills[i]) {
      assert e.fills[i] in Reals(e.fills);
    } else {
      assert FlatSplit.ExpiryExactAt(e, i);
      if forall f | f in e.fills[..i] :: f.contract != k {
        NetAbsent(e.fills[..i], k);
      }
      var f :| f in e.fills[..i] && f.contract == k;
      var j :| 0 <= j < i && e.fills[j] == f;
      FirstOfContract(symbol, e, j);
    }
  }

  /** A round trip that is a component of its own in `fills`, while in `all` everything is
      linked and other fills lie between the two. */
  ghost predicate Interleaved(fills: seq<Fill>, all: seq<Fill>, asOf: int, o: Fill, c: Fill) {
    && RoundTrip(o, c) && Day(o.ts) <= asOf && Day(c.ts) <= asOf <= c.contract.expiration
    && o in fills && Component(fills, NodeOf(o)) == [o, c]
    && (forall f | f in all :: IsReal(f)) && Component(all, NodeOf(o)) == all
    && SortBy(FlatSplit.Earlier, all) == all && !Consecutive(all, o, c)
  }

  /** Such a round trip is rebuilt at first and not later. */
  lemma {:induction false} RoundTripIsLost(fills: seq<Fill>, all: seq<Fill>, asOf: int, asOf': int, r: BuildResult,
                                           r': BuildResult, o: Fill, c: Fill)
    requires Interleaved(fills, all, asOf, o, c)
    requires Rebuilt(fills, asOf, r) && Rebuilt(all, asOf', r') && r.Built? && r'.Built?
    ensures exists e :: e in r.episodes && Flat(e.fills) && Reals(e.fills) == [o, c] && e !in r'.episodes
  {
    var e := WasRebuilt(fills, asOf, r, o, c);
    if e in r'.episodes {
      NotRebuilt(all, asOf', r', e, o, c);
    }
  }

  lemma {:induction false} WasRebuilt(fills: seq<Fill>, asOf: int, r: BuildResult, o: Fill, c: Fill)
    returns (e: Episode)
    requires RoundTrip(o, c) && Day(o.ts) <= asOf && Day(c.ts) <= asOf <= c.contract.expiration
    requires o in fills && Component(fills, NodeOf(o)) == [o, c]
    requires Rebuilt(fills, asOf, r) && r.Built?
    ensures e in r.episodes && Flat(e.fills) && Reals(e.fills) == [o, c]
  {
    var groups: seq<Group> :| GroupsOk(fills, groups) && RebuiltFrom(groups, asOf, r);
    RebuiltKeeps(groups, asOf, r);
    var g: Group :| g in groups && o in g.fills;
    SameComponent(fills, g.root, o);
    e := RoundTripIsEpisode(g.root.symbol, o, c, asOf);
    InEpisodesOf(groups, asOf, g, e);
    assert e in multiset(EpisodesOf(groups, asOf));
    assert e in multiset(r.episodes);
  }

  lemma {:induction false} SpreadInterleaves(fills: seq<Fill>, all: seq<Fill>, asOf: int)
    requires fills == HISTORY && all == HISTORY + SPREAD && 0 <= asOf <= 300
    ensures Interleaved(fills, all, asOf, OPEN_A, CLOSE_A)
  {
    ComponentBefore();
    ComponentAfter();
    InOrder(all);
    NoSuchSlice();
  }

  lemma {:induction false} HeldBeforeClose(s: seq<Fill>)
    requires s == HISTORY || s == HISTORY + SPREAD
    ensures NodeNet(s[..2], NodeOf(CLOSE_A)) == 1
  {
    assert s[..2] == [OPEN_A, OPEN_B] && s[..2][..1] == [OPEN_A] && [OPEN_A][..0] == [];
    assert NodeNet([OPEN_A], NodeOf(CLOSE_A)) == 1;
  }

  ghost predicate Ready(s: seq<Fill>) {
    (forall f | f in s :: IsReal(f)) && SortBy(FlatSplit.Earlier, s) == s && ClosesWhatIsHeld(s)
  }

  lemma {:induction false} BothAreReady(s: seq<Fill>)
    requires s == HISTORY || s == HISTORY + SPREAD
    ensures Ready(s)
  {
    InOrder(s);
    HeldBeforeClose(s);
    forall i | 0 <= i < |s|
      ensures Day(s[i].ts) <= s[i].contract.expiration
      ensures IsOpening(s[i]) || NodeNet(s[..i], NodeOf(s[i])) != 0
    {
      assert IsOpening(s[i]) || (i == 2 && s[i] == CLOSE_A);
    }
  }

  lemma {:induction false} ReadyIsBuilt(s: seq<Fill>, asOf: int, r: BuildResult)
    requires Ready(s) && Rebuilt(s, asOf, r)
    ensures r.Built?
  {
    ClosesHeldIsBuilt(s, asOf, r);
  }

  /** After an order in both calls, the first one's round trip is no episode any more. */
  lemma {:induction false} LinkingOrderRewrites(fills: seq<Fill>, more: seq<Fill>, asOf: int, asOf': int,
                                                r: BuildResult, r': BuildResult)
    requires fills == HISTORY && more == SPREAD && 0 <= asOf <= 300
    requires Rebuilt(fills, asOf, r) && Rebuilt(fills + more, asOf', r')
    ensures r.Built? && r'.Built?
    ensures exists e :: e in r.episodes && Flat(e.fills) && e !in r'.episodes
  {
    BothAreReady(fills);
    BothAreReady(fills + more);
    ReadyIsBuilt(fills, asOf, r);
    ReadyIsBuilt(fills + more, asOf', r');
    SpreadInterleaves(fills, fills + more, asOf);
    RoundTripIsLost(fills, fills + more, asOf, asOf', r, r', OPEN_A, CLOSE_A);
  }

  /** The group an episode of the rebuild was cut from. */
  lemma {:induction false} EpisodeGroup(fills: seq<Fill>, asOf: int, r: BuildResult, e: Episode) returns (g: Group)
    requires Rebuilt(fills, asOf, r) && r.Built? && e in r.episodes
    ensures g.fills == Component(fills, g.root) && e in FlatSplit.Split(g.root.symbol, g.fills, asOf)
  {
    var groups: seq<Group> :| GroupsOk(fills, groups) && RebuiltFrom(groups, asOf, r);
    RebuiltKeeps(groups, asOf, r);
    assert e in multiset(r.episodes);
    g := EpisodeOrigin(groups, asOf, e);
  }

  /** The real fills of an episode are consecutive in its group. */
  lemma {:induction false} RealsAreSlice(symbol: string, group: seq<Fill>, asOf: int, e: Episode)
    returns (a: nat, b: nat)
    requires (forall f | f in group :: IsReal(f)) && e in FlatSplit.Split(symbol, group, asOf)
    ensures var s := SortBy(FlatSplit.Earlier, group); a < b <= |s| && Reals(e.fills) == s[a..b]
  {
    var s := SortBy(FlatSplit.Earlier, group);
    var m := ChunkOfEpisode(symbol, group, asOf, e);
    a, b := PieceIsSpan(s, Marks(s), m);
  }

  ghost predicate Consecutive(s: seq<Fill>, o: Fill, c: Fill) {
    exists a, b :: 0 <= a < b <= |s| && s[a..b] == [o, c]
  }

  /** In a fully linked log, fills that are not consecutive are no episode. */
  lemma {:induction false} NotRebuilt(all: seq<Fill>, asOf: int, r: BuildResult, e: Episode, o: Fill, c: Fill)
    requires (forall f | f in all :: IsReal(f)) && Rebuilt(all, asOf, r) && r.Built? && e in r.episodes
    requires Component(all, NodeOf(o)) == all && SortBy(FlatSplit.Earlier, all) == all && !Consecutive(all, o, c)
    ensures Reals(e.fills) != [o, c]
  {
    var g := EpisodeGroup(all, asOf, r, e);
    if o in g.fills {
      SameComponent(all, g.root, o);
      var a, b := RealsAreSlice(g.root.symbol, all, asOf, e);
    } else {
      FromGroup(g, asOf, e);
      assert o !in Reals(e.fills) && o in [o, c];
    }
  }

  lemma {:induction false} FromGroup(g: Group, asOf: int, e: Episode)
    requires (forall f | f in g.fills :: IsReal(f)) && e in FlatSplit.Split(g.root.symbol, g.fills, asOf)
    ensures forall f | f in Reals(e.fills) :: f in g.fills
  {
    var eps := FlatSplit.Split(g.root.symbol, g.fills, asOf);
    FlatSplit.SplitIsSound(g.root.symbol, g.fills, asOf);
    SortPermutes(FlatSplit.Earlier, g.fills);
    forall f | f in Reals(e.fills) ensures f in g.fills {
      AllFillsMember(eps, e, f);
      assert f in Reals(AllFills(eps));
    }
  }

  lemma {:induction false} ChunkOfEpisode(symbol: string, group: seq<Fill>, asOf: int, e: Episode) returns (m: nat)
    requires (forall f | f in group :: IsReal(f)) && e in FlatSplit.Split(symbol, group, asOf)
    ensures m < |Chunks(SortBy(FlatSplit.Earlier, group))|
    ensures Chunks(SortBy(FlatSplit.Earlier, group))[m] == Reals(e.fills)
  {
    var eps := FlatSplit.Split(symbol, group, asOf);
    EpisodesAreChunks(symbol, group, asOf);
    RealListsAt(eps);
    m :| 0 <= m < |eps| && eps[m] == e;
  }

  lemma {:induction false} NoSuchSlice()
    ensures !Consecutive(HISTORY + SPREAD, OPEN_A, CLOSE_A)
  {
    var s := HISTORY + SPREAD;
    forall a, b | 0 <= a < b <= |s| ensures s[a..b] != [OPEN_A, CLOSE_A] {
      if b == a + 2 {
        assert s[a..b][0] == s[a] && s[a..b][1] == s[a + 1];
      }
    }
  }
}
