/** When `build_episodes` raises (scripts/rh_sync.py): the final sort reads
    `opened_at`, the least timestamp of the opening fills, of every episode. */
module RebuildErrors {
  import opened Basics
  import opened Seqs
  import opened Fills
  import opened ContractLinks
  import opened EpisodeBuilder
  import opened EpisodeStarts
  import opened Cutting
  import FlatSplit

  /** The fills linked to f, f included, in time order. */
  ghost function LinkedInTime(fills: seq<Fill>, f: Fill): seq<Fill> {
    SortBy(FlatSplit.Earlier, Component(fills, NodeOf(f)))
  }

  lemma {:induction false} InEpisodesOf(groups: seq<Group>, asOf: int, g: Group, e: Episode)
    requires g in groups && e in FlatSplit.Split(g.root.symbol, g.fills, asOf)
    ensures e in EpisodesOf(groups, asOf)
  {
    if groups[|groups|-1] != g {
      InEpisodesOf(groups[..|groups|-1], asOf, g, e);
    }
  }

  lemma {:induction false} SomeGroupNeverOpens(groups: seq<Group>, asOf: int)
    requires forall g | g in groups :: forall f | f in g.fills :: IsReal(f)
    ensures SomeNeverOpened(EpisodesOf(groups, asOf))
       <==> exists g :: g in groups && HasUnopenedStretch(SortBy(FlatSplit.Earlier, g.fills))
  {
    forall g | g in groups {
      UnopenedExactly(g.root.symbol, g.fills, asOf);
    }
    if SomeNeverOpened(EpisodesOf(groups, asOf)) {
      var e :| e in EpisodesOf(groups, asOf) && OpenedAt(e).None?;
      var g := EpisodeOrigin(groups, asOf, e);
      assert HasUnopenedStretch(SortBy(FlatSplit.Earlier, g.fills));
    }
    if g :| g in groups && HasUnopenedStretch(SortBy(FlatSplit.Earlier, g.fills)) {
      var e :| e in FlatSplit.Split(g.root.symbol, g.fills, asOf) && OpenedAt(e).None?;
      InEpisodesOf(groups, asOf, g, e);
    }
  }

  /** The component of a node is that of any fill in it. */
  lemma {:induction false} SameComponent(fills: seq<Fill>, root: Node, f: Fill)
    requires f in Component(fills, root)
    ensures Component(fills, NodeOf(f)) == Component(fills, root)
  {
    var p := (g: Fill) => Connected(fills, root, NodeOf(g));
    var q := (g: Fill) => Connected(fills, NodeOf(f), NodeOf(g));
    ConnectedSym(fills, root, NodeOf(f));
    forall g | g in fills ensures p(g) == q(g) {
      if p(g) {
        ConnectedTrans(fills, NodeOf(f), root, NodeOf(g));
      }
      if q(g) {
        ConnectedTrans(fills, root, NodeOf(f), NodeOf(g));
      }
    }
    FilterSame(p, q, fills);
  }

  /** The groups of a rebuild are the components of its fills, and all of them. */
  lemma {:induction false} GroupsAreComponents(fills: seq<Fill>, groups: seq<Group>)
    requires GroupsOk(fills, groups)
    ensures (exists g :: g in groups && HasUnopenedStretch(SortBy(FlatSplit.Earlier, g.fills)))
       <==> exists f :: f in fills && HasUnopenedStretch(LinkedInTime(fills, f))
  {
    if g :| g in groups && HasUnopenedStretch(SortBy(FlatSplit.Earlier, g.fills)) {
      var f := g.fills[0];
      assert f in Component(fills, g.root);
      SameComponent(fills, g.root, f);
      assert HasUnopenedStretch(LinkedInTime(fills, f));
    }
    if f :| f in fills && HasUnopenedStretch(LinkedInTime(fills, f)) {
      var g :| g in groups && f in g.fills;
      SameComponent(fills, g.root, f);
    }
  }

  /** Main result: `build_episodes` raises exactly when the fills linked to some fill
      have, in time order, a stretch without an opening fill between two moments at
      which nothing still alive is held. */
  lemma {:induction false} RaisesExactly(fills: seq<Fill>, asOf: int, r: BuildResult)
    requires (forall f | f in fills :: IsReal(f)) && Rebuilt(fills, asOf, r)
    ensures r.NoOpeningFill? <==> exists f :: f in fills && HasUnopenedStretch(LinkedInTime(fills, f))
  {
    var groups :| GroupsOk(fills, groups) && RebuiltFrom(groups, asOf, r);
    SomeGroupNeverOpens(groups, asOf);
    GroupsAreComponents(fills, groups);
  }

  /** A log that opens nothing at all, such as a single close, raises. */
  lemma {:induction false} OnlyClosesRaise(fills: seq<Fill>, asOf: int, r: BuildResult)
    requires fills != [] && (forall f | f in fills :: f.effect == Close) && Rebuilt(fills, asOf, r)
    ensures r.NoOpeningFill?
  {
    var s := LinkedInTime(fills, fills[0]);
    ConnectedSelf(fills, NodeOf(fills[0]));
    SortPermutes(FlatSplit.Earlier, Component(fills, NodeOf(fills[0])));
    assert fills[0] in s;
    AllUnopened(s);
    RaisesExactly(fills, asOf, r);
  }

  lemma {:induction false} AllUnopened(s: seq<Fill>)
    requires s != [] && forall f | f in s :: !IsOpening(f)
    ensures HasUnopenedStretch(s)
  {
    TakeAll(s);
    assert UnopenedStretch(s, 0, |s|);
  }

  // ------------------------------------------------------------ a sufficient condition

  /** Signed position of one symbol's contract. */
  function NodeNet(fills: seq<Fill>, x: Node): int {
    if fills == [] then 0
    else
      var f := fills[|fills|-1];
      NodeNet(fills[..|fills|-1], x) + if NodeOf(f) == x then f.signedQty else 0
  }

  /** In time order, every closing fill meets a position and nothing trades after it expired. */
  ghost predicate ClosesWhatIsHeld(ordered: seq<Fill>) {
    forall i | 0 <= i < |ordered| ::
      && Day(ordered[i].ts) <= ordered[i].contract.expiration
      && (IsOpening(ordered[i]) || NodeNet(ordered[..i], NodeOf(ordered[i])) != 0)
  }

  /** Keeping every fill of a contract, and only its symbol's, keeps its position. */
  lemma {:induction false} NetOfKept(p: Fill -> bool, fills: seq<Fill>, x: Node)
    requires forall f | f in fills :: (NodeOf(f) == x ==> p(f)) && (p(f) ==> f.symbol == x.symbol)
    ensures Net(Filter(p, fills), x.contract) == NodeNet(fills, x)
  {
    if fills != [] {
      var n := |fills| - 1;
      SplitLast(fills);
      NetOfKept(p, fills[..n], x);
      if p(fills[n]) {
        NetSnoc(Filter(p, fills[..n]), fills[n], x.contract);
      }
    }
  }

  /** In a component of such a log a closing fill is never at an empty moment. */
  lemma {:induction false} ClosesInComponent(fills: seq<Fill>, root: Node, a: nat)
    requires ClosesWhatIsHeld(SortBy(FlatSplit.Earlier, fills))
    requires a < |SortBy(FlatSplit.Earlier, Component(fills, root))|
    requires !IsOpening(SortBy(FlatSplit.Earlier, Component(fills, root))[a])
    ensures !EmptyAt(SortBy(FlatSplit.Earlier, Component(fills, root)), a)
  {
    var p := (f: Fill) => Connected(fills, root, NodeOf(f));
    var ordered := SortBy(FlatSplit.Earlier, fills);
    FilterOfSort(FlatSplit.Earlier, p, fills);
    var i := FilterIndex(p, ordered, a);
    var f := ordered[i];
    assert p(f);
    forall g | g in ordered[..i] ensures (NodeOf(g) == NodeOf(f) ==> p(g)) && (p(g) ==> g.symbol == f.symbol) {
      if p(g) {
        ConnectedKeepsSymbol(fills, root, NodeOf(g));
        ConnectedKeepsSymbol(fills, root, NodeOf(f));
      }
    }
    NetOfKept(p, ordered[..i], NodeOf(f));
  }

  /** So no stretch of a component begins with one. */
  lemma {:induction false} StretchesOpen(fills: seq<Fill>, f: Fill, a: int, b: int)
    requires ClosesWhatIsHeld(SortBy(FlatSplit.Earlier, fills))
    ensures !UnopenedStretch(LinkedInTime(fills, f), a, b)
  {
    var s := LinkedInTime(fills, f);
    if UnopenedStretch(s, a, b) {
      assert s[a..b][0] == s[a];
      StartIsEmpty(s);
      ClosesInComponent(fills, NodeOf(f), a);
      assert false;
    }
  }

  /** A log whose closes all meet a position, and that trades nothing expired, is rebuilt. */
  lemma {:induction false} ClosesHeldIsBuilt(fills: seq<Fill>, asOf: int, r: BuildResult)
    requires (forall f | f in fills :: IsReal(f)) && Rebuilt(fills, asOf, r)
    requires ClosesWhatIsHeld(SortBy(FlatSplit.Earlier, fills))
    ensures r.Built?
  {
    RaisesExactly(fills, asOf, r);
    forall f, a, b {
      StretchesOpen(fills, f, a, b);
    }
  }

  lemma {:induction false} StartIsEmpty(s: seq<Fill>)
    requires s != []
    ensures EmptyAt(s, 0)
  {
  }
}
