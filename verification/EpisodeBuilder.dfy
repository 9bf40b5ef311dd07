/** `build_episodes` (scripts/rh_sync.py): link contracts by order, group the
    fills by link, split every group, and sort the episodes by opening time. */
module EpisodeBuilder {
  import opened Basics
  import opened Seqs
  import opened Fills
  import opened ListDicts
  import opened ContractLinks
  import FlatSplit
  import FlatSplitter

  datatype Group = Group(root: Node, fills: seq<Fill>)

  /** The fills connected to a node, in their original order. */
  ghost function Component(fills: seq<Fill>, root: Node): seq<Fill> {
    Filter((f: Fill) => Connected(fills, root, NodeOf(f)), fills)
  }

  /** Some fill of a precedes every fill of b. */
  ghost predicate ComesFirst(fills: seq<Fill>, a: Group, b: Group) {
    exists p :: 0 <= p < |fills| && fills[p] in a.fills && forall q | 0 <= q <= p :: fills[q] !in b.fills
  }

  /** The groups are exactly the connected components that occur, in the order of their
      first fills. */
  ghost predicate GroupsOk(fills: seq<Fill>, groups: seq<Group>) {
    && (forall g | g in groups :: g.fills != [] && g.fills == Component(fills, g.root))
    && (forall i, j :: 0 <= i < j < |groups| ==> !Connected(fills, groups[i].root, groups[j].root))
    && (forall f | f in fills :: exists g :: g in groups && f in g.fills)
    && multiset(GroupedFills(groups)) == multiset(fills)
    && (forall i, j | 0 <= i < j < |groups| :: ComesFirst(fills, groups[i], groups[j]))
  }

  function GroupedFills(groups: seq<Group>): seq<Fill> {
    if groups == [] then [] else GroupedFills(groups[..|groups|-1]) + groups[|groups|-1].fills
  }

  // ---------------------------------------------------------------- linking

  ghost predicate Unified(rep: Reps, fs: seq<Fill>) {
    forall f, g | f in fs && g in fs :: rep(NodeOf(f)) == rep(NodeOf(g))
  }

  /** Representatives are reached by chains of orders. */
  ghost predicate Sound(rep: Reps, fills: seq<Fill>) {
    forall x :: Connected(fills, x, rep(x))
  }

  /** Two nodes share a representative exactly when orders connect them. */
  ghost predicate Exact(rep: Reps, fills: seq<Fill>) {
    forall a, b :: rep(a) == rep(b) <==> Connected(fills, a, b)
  }

  /** Classes only grow from `rep` to `rep'`. */
  ghost predicate Coarser(rep: Reps, rep': Reps) {
    forall x, y :: rep(x) == rep(y) ==> rep'(x) == rep'(y)
  }

  lemma {:induction false} MergeSound(rep: Reps, rep': Reps, a: Node, b: Node, fills: seq<Fill>)
    requires Sound(rep, fills) && Connected(fills, a, b) && Merged(rep, rep', a, b)
    ensures Sound(rep', fills) && Coarser(rep, rep') && rep'(a) == rep'(b)
  {
    forall x ensures Connected(fills, x, rep'(x)) {
      if rep(x) == rep(a) {
        ConnectedSym(fills, a, rep(a));
        ConnectedTrans(fills, x, rep(a), a);
        ConnectedTrans(fills, x, a, b);
        ConnectedTrans(fills, x, b, rep(b));
      }
    }
  }

  lemma {:induction false} CoarserTrans(r0: Reps, r1: Reps, r2: Reps)
    requires Coarser(r0, r1) && Coarser(r1, r2)
    ensures Coarser(r0, r2)
  {
  }

  /** Unites the contracts of one order with its first contract. */
  method LinkOrder(forest: Forest, symbol: string, group: seq<Fill>, ghost fills: seq<Fill>)
    requires forest.Valid() && Sound(forest.rep, fills) && group != []
    requires forall i | 0 <= i < |group| ::
               group[i].symbol == symbol && Connected(fills, NodeOf(group[i]), NodeOf(group[0]))
    modifies forest
    ensures forest.Valid() && Sound(forest.rep, fills) && Unified(forest.rep, group)
    ensures Coarser(old(forest.rep), forest.rep)
  {
    var first := Node(symbol, group[0].contract);
    var i := 1;
    while i < |group|
      invariant 1 <= i <= |group|
      invariant forest.Valid() && Sound(forest.rep, fills)
      invariant Unified(forest.rep, group[..i])
      invariant Coarser(old(forest.rep), forest.rep)
    {
      assert group[0] in group[..i] && group[i].symbol == symbol;
      ghost var before := forest.rep;
      forest.Union(Node(symbol, group[i].contract), first);
      MergeSound(before, forest.rep, NodeOf(group[i]), first, fills);
      CoarserTrans(old(forest.rep), before, forest.rep);
      UnifiedNext(before, forest.rep, group, i);
      i := i + 1;
    }
    TakeAll(group);
  }

  lemma {:induction false} UnifiedNext(rep: Reps, rep': Reps, group: seq<Fill>, i: nat)
    requires 0 < i < |group| && Unified(rep, group[..i]) && Coarser(rep, rep')
    requires rep'(NodeOf(group[i])) == rep'(NodeOf(group[0]))
    ensures Unified(rep', group[..i+1])
  {
    TakeNext(group, i);
    assert group[0] in group[..i];
  }

  ghost predicate OrderLog(fills: seq<Fill>, log: seq<((string, string), Fill)>) {
    |log| == |fills| && forall i | 0 <= i < |fills| :: log[i] == ((fills[i].symbol, fills[i].orderId), fills[i])
  }

  method ByOrder(fills: seq<Fill>) returns (d: ListDict<(string, string), Fill>)
    ensures fresh(d) && d.Valid() && OrderLog(fills, d.log)
  {
    d := new ListDict();
    var i := 0;
    while i < |fills|
      invariant 0 <= i <= |fills| && fresh(d) && d.Valid() && OrderLog(fills[..i], d.log)
    {
      d.Append((fills[i].symbol, fills[i].orderId), fills[i]);
      i := i + 1;
    }
    assert fills[..i] == fills;
  }

  lemma {:induction false} OrderGroup(fills: seq<Fill>, log: seq<((string, string), Fill)>, k: (string, string))
    requires OrderLog(fills, log)
    ensures forall f :: f in At(log, k) <==> f in fills && f.symbol == k.0 && f.orderId == k.1
  {
    forall f ensures f in At(log, k) <==> f in fills && f.symbol == k.0 && f.orderId == k.1 {
      AtMember(log, k, f);
      if f in fills && f.symbol == k.0 && f.orderId == k.1 {
        var i :| 0 <= i < |fills| && fills[i] == f;
        assert log[i] == (k, f);
      }
    }
  }

  lemma {:induction false} OrderConnected(fills: seq<Fill>, group: seq<Fill>, k: (string, string))
    requires group != [] && forall f | f in group :: f in fills && f.symbol == k.0 && f.orderId == k.1
    ensures forall i | 0 <= i < |group| ::
              group[i].symbol == k.0 && Connected(fills, NodeOf(group[i]), NodeOf(group[0]))
  {
    forall i | 0 <= i < |group|
      ensures group[i].symbol == k.0 && Connected(fills, NodeOf(group[i]), NodeOf(group[0]))
    {
      assert group[i] in group && group[0] in group;
      assert SameOrder(group[i], group[0]);
      LinkedConnected(fills, NodeOf(group[i]), NodeOf(group[0]));
    }
  }

  /** The fills of one order: some, all of its symbol, all connected to the first. */
  lemma {:induction false} OrderReady(fills: seq<Fill>, log: seq<((string, string), Fill)>, k: (string, string))
    requires OrderLog(fills, log) && k in Keys(log)
    ensures At(log, k) != []
    ensures forall i | 0 <= i < |At(log, k)| ::
              At(log, k)[i].symbol == k.0 && Connected(fills, NodeOf(At(log, k)[i]), NodeOf(At(log, k)[0]))
  {
    OrderGroup(fills, log, k);
    OrderGroupNonEmpty(log, k);
    OrderConnected(fills, At(log, k), k);
  }

  method LinkOrders(fills: seq<Fill>) returns (forest: Forest)
    ensures fresh(forest) && forest.Valid() && Exact(forest.rep, fills)
  {
    var byOrder := ByOrder(fills);
    ghost var log := byOrder.log;
    forest := new Forest();
    forall x { ConnectedSelf(fills, x); }
    var keys, lists := byOrder.keys, byOrder.lists;
    var i := 0;
    while i < |keys|
      invariant 0 <= i <= |keys|
      invariant fresh(forest) && forest.Valid() && Sound(forest.rep, fills)
      invariant forall j | 0 <= j < i :: Unified(forest.rep, At(log, keys[j]))
    {
      var k := keys[i];
      assert k in keys;
      OrderReady(fills, log, k);
      LinkOrder(forest, k.0, lists[k], fills);
      i := i + 1;
    }
    UnifiedIsExact(forest.rep, fills, log);
  }

  lemma {:induction false} OrderGroupNonEmpty(log: seq<((string, string), Fill)>, k: (string, string))
    requires k in Keys(log)
    ensures At(log, k) != []
  {
    KeysDistinct(log);
    var i :| 0 <= i < |log| && log[i].0 == k;
    assert log[i] == (k, log[i].1);
    AtMember(log, k, log[i].1);
  }

  /** Once every order is united, sharing a representative is exactly being connected. */
  lemma {:induction false} UnifiedIsExact(rep: Reps, fills: seq<Fill>, log: seq<((string, string), Fill)>)
    requires Sound(rep, fills) && OrderLog(fills, log)
    requires forall k | k in Keys(log) :: Unified(rep, At(log, k))
    ensures Exact(rep, fills)
  {
    forall a, b | Linked(fills, a, b) ensures rep(a) == rep(b) {
      LinkedUnified(rep, fills, log, a, b);
    }
    forall a, b ensures rep(a) == rep(b) <==> Connected(fills, a, b) {
      if Connected(fills, a, b) {
        var p :| Joins(fills, p, a, b);
        PathUnified(rep, fills, p);
      } else if rep(a) == rep(b) {
        ConnectedSym(fills, b, rep(b));
        ConnectedTrans(fills, a, rep(a), b);
      }
    }
  }

  lemma {:induction false} LinkedUnified(rep: Reps, fills: seq<Fill>, log: seq<((string, string), Fill)>, a: Node,
                                         b: Node)
    requires OrderLog(fills, log) && Linked(fills, a, b)
    requires forall k | k in Keys(log) :: Unified(rep, At(log, k))
    ensures rep(a) == rep(b)
  {
    var f, g :| f in fills && g in fills && SameOrder(f, g) && NodeOf(f) == a && NodeOf(g) == b;
    var k := (f.symbol, f.orderId);
    OrderGroup(fills, log, k);
    var i :| 0 <= i < |fills| && fills[i] == f;
    KeysDistinct(log);
    assert log[i].0 == k;
  }

  lemma {:induction false} PathUnified(rep: Reps, fills: seq<Fill>, p: seq<Node>)
    requires IsPath(fills, p)
    requires forall a, b | Linked(fills, a, b) :: rep(a) == rep(b)
    ensures rep(p[0]) == rep(p[|p|-1])
    decreases |p|
  {
    if |p| > 1 {
      var q := p[..|p|-1];
      assert forall i :: 0 <= i < |q| - 1 ==> Linked(fills, q[i], q[i+1]);
      PathUnified(rep, fills, q);
      assert Linked(fills, p[|p|-2], p[|p|-2+1]);
    }
  }

  // --------------------------------------------------------------- grouping

  lemma {:induction false} AtIsFilter(log: seq<(Node, Fill)>, fs: seq<Fill>, r: Node, p: Fill -> bool)
    requires |log| == |fs|
    requires forall i | 0 <= i < |fs| :: log[i].1 == fs[i] && (log[i].0 == r <==> p(fs[i]))
    ensures At(log, r) == Filter(p, fs)
  {
    if fs != [] {
      AtIsFilter(log[..|fs|-1], fs[..|fs|-1], r, p);
    }
  }

  lemma {:induction false} ValuesAre(log: seq<(Node, Fill)>, fs: seq<Fill>)
    requires |log| == |fs| && forall i | 0 <= i < |fs| :: log[i].1 == fs[i]
    ensures Values(log) == fs
  {
    if fs != [] {
      ValuesAre(log[..|fs|-1], fs[..|fs|-1]);
      assert fs == fs[..|fs|-1] + [fs[|fs|-1]];
    }
  }

  ghost predicate RepLog(rep: Reps, fills: seq<Fill>, log: seq<(Node, Fill)>) {
    |log| == |fills| && forall i | 0 <= i < |fills| :: log[i] == (rep(NodeOf(fills[i])), fills[i])
  }

  /** Grouping under the representative gives the connected components. */
  lemma {:induction false} GroupedByRep(rep: Reps, fills: seq<Fill>, log: seq<(Node, Fill)>, r: Node)
    requires Sound(rep, fills) && Exact(rep, fills) && RepLog(rep, fills, log) && r in Keys(log)
    ensures rep(r) == r && At(log, r) == Component(fills, r) && At(log, r) != []
  {
    KeysDistinct(log);
    var i :| 0 <= i < |log| && log[i].0 == r;
    var n := NodeOf(fills[i]);
    assert rep(n) == r && Connected(fills, n, rep(n));
    forall j | 0 <= j < |fills| ensures log[j].0 == r <==> Connected(fills, r, NodeOf(fills[j])) {
      assert rep(r) == rep(NodeOf(fills[j])) <==> Connected(fills, r, NodeOf(fills[j]));
    }
    AtIsFilter(log, fills, r, (f: Fill) => Connected(fills, r, NodeOf(f)));
    AtMember(log, r, fills[i]);
    assert log[i] == (r, fills[i]);
  }

  /** The groups a dictionary of appended fills stands for. */
  function GroupsOf(log: seq<(Node, Fill)>, keys: seq<Node>): seq<Group> {
    if keys == [] then []
    else GroupsOf(log, keys[..|keys|-1]) + [Group(keys[|keys|-1], At(log, keys[|keys|-1]))]
  }

  lemma {:induction false} GroupsOfIndex(log: seq<(Node, Fill)>, keys: seq<Node>)
    ensures |GroupsOf(log, keys)| == |keys|
    ensures forall i | 0 <= i < |keys| :: GroupsOf(log, keys)[i] == Group(keys[i], At(log, keys[i]))
    ensures GroupedFills(GroupsOf(log, keys)) == Concat(Lists(log, keys))
  {
    if keys != [] {
      GroupsOfIndex(log, keys[..|keys|-1]);
      var gs := GroupsOf(log, keys[..|keys|-1]);
      SnocParts(gs, Group(keys[|keys|-1], At(log, keys[|keys|-1])));
      ConcatOne(Lists(log, keys[..|keys|-1]), At(log, keys[|keys|-1]));
    }
  }

  lemma {:induction false} GroupsApart(rep: Reps, fills: seq<Fill>, log: seq<(Node, Fill)>, keys: seq<Node>)
    requires Sound(rep, fills) && Exact(rep, fills) && RepLog(rep, fills, log)
    requires keys == Keys(log)
    ensures forall i, j :: 0 <= i < j < |keys| ==> !Connected(fills, keys[i], keys[j])
  {
    KeysDistinct(log);
    forall i, j | 0 <= i < j < |keys| ensures !Connected(fills, keys[i], keys[j]) {
      GroupedByRep(rep, fills, log, keys[i]);
      GroupedByRep(rep, fills, log, keys[j]);
      assert rep(keys[i]) == rep(keys[j]) <==> Connected(fills, keys[i], keys[j]);
    }
  }

  lemma {:induction false} GroupHolding(rep: Reps, fills: seq<Fill>, log: seq<(Node, Fill)>, keys: seq<Node>, f: Fill)
    returns (j: nat)
    requires RepLog(rep, fills, log) && keys == Keys(log) && f in fills
    ensures j < |keys| && f in At(log, keys[j])
  {
    KeysDistinct(log);
    var i :| 0 <= i < |fills| && fills[i] == f;
    assert log[i] == (rep(NodeOf(f)), f);
    AtMember(log, log[i].0, f);
    j :| 0 <= j < |keys| && keys[j] == log[i].0;
  }

  /** Grouping under representatives yields exactly the connected components. */
  lemma {:induction false} GroupsAreComponents(rep: Reps, fills: seq<Fill>, log: seq<(Node, Fill)>)
    requires Sound(rep, fills) && Exact(rep, fills) && RepLog(rep, fills, log)
    ensures GroupsOk(fills, GroupsOf(log, Keys(log)))
  {
    var keys := Keys(log);
    var groups := GroupsOf(log, keys);
    GroupsOfIndex(log, keys);
    GroupsApart(rep, fills, log, keys);
    forall g | g in groups ensures g.fills != [] && g.fills == Component(fills, g.root) {
      var i :| 0 <= i < |groups| && groups[i] == g;
      GroupedByRep(rep, fills, log, keys[i]);
    }
    forall f | f in fills ensures exists g :: g in groups && f in g.fills {
      var j := GroupHolding(rep, fills, log, keys, f);
      assert groups[j] in groups && f in groups[j].fills;
    }
    ListsConserve(log);
    ValuesAre(log, fills);
    forall i, j | 0 <= i < j < |groups| ensures ComesFirst(fills, groups[i], groups[j]) {
      KeysInOrder(log, i, j);
      FirstFillFirst(rep, fills, log, groups[i], groups[j]);
    }
  }

  lemma {:induction false} FirstFillFirst(rep: Reps, fills: seq<Fill>, log: seq<(Node, Fill)>, a: Group, b: Group)
    requires RepLog(rep, fills, log) && OccursFirst(log, a.root, b.root)
    requires a.fills == At(log, a.root) && b.fills == At(log, b.root)
    ensures ComesFirst(fills, a, b)
  {
    var p :| 0 <= p < |log| && log[p].0 == a.root && forall q | 0 <= q <= p :: log[q].0 != b.root;
    assert log[p] == (a.root, fills[p]);
    AtMember(log, a.root, fills[p]);
    forall q | 0 <= q <= p ensures fills[q] !in b.fills {
      AtMember(log, b.root, fills[q]);
    }
  }

  lemma {:induction false} ExactIsSound(rep: Reps, fills: seq<Fill>)
    requires Exact(rep, fills)
    requires forall x :: rep(rep(x)) == rep(x)
    ensures Sound(rep, fills)
  {
  }

  /** Files every fill under its representative. */
  method FileFills(forest: Forest, fills: seq<Fill>) returns (d: ListDict<Node, Fill>)
    requires forest.Valid()
    modifies forest
    ensures fresh(d) && d.Valid() && RepLog(old(forest.rep), fills, d.log)
  {
    d := new ListDict();
    ghost var rep := forest.rep;
    var i := 0;
    while i < |fills|
      invariant 0 <= i <= |fills|
      invariant d.Valid() && fresh(d) && forest.Valid() && forest.rep == rep
      invariant RepLog(rep, fills[..i], d.log)
    {
      var r := forest.Find(NodeOf(fills[i]));
      d.Append(r, fills[i]);
      i := i + 1;
    }
    assert fills[..i] == fills;
  }

  /** The grouping half of `build_episodes`: union the contracts of each order,
      then file every fill under its representative. */
  method BuildGroups(fills: seq<Fill>) returns (groups: seq<Group>)
    ensures GroupsOk(fills, groups)
  {
    var forest := LinkOrders(fills);
    ghost var rep := forest.rep;
    forall x { forest.RepOfRep(x); }
    ExactIsSound(rep, fills);
    var d := FileFills(forest, fills);
    GroupsAreComponents(rep, fills, d.log);
    groups := ListGroups(d);
  }

  method ListGroups(d: ListDict<Node, Fill>) returns (groups: seq<Group>)
    requires d.Valid()
    ensures groups == GroupsOf(d.log, Keys(d.log))
  {
    var keys, lists := d.keys, d.lists;
    groups := [];
    var i := 0;
    while i < |keys|
      invariant 0 <= i <= |keys|
      invariant groups == GroupsOf(d.log, keys[..i])
    {
      assert keys[..i+1][..i] == keys[..i];
      assert keys[i] in keys;
      groups := groups + [Group(keys[i], lists[keys[i]])];
      i := i + 1;
    }
    assert keys[..i] == keys;
  }

  // ---------------------------------------------------------------- episodes

  /** The episodes of all groups, group after group. */
  function EpisodesOf(groups: seq<Group>, asOf: int): seq<Episode> {
    if groups == [] then []
    else
      var g := groups[|groups|-1];
      EpisodesOf(groups[..|groups|-1], asOf) + FlatSplit.Split(g.root.symbol, g.fills, asOf)
  }

  function OpenKey(e: Episode): int {
    match OpenedAt(e)
    case None => 0
    case Some(ts) => ts
  }

  predicate OpenedEarlier(a: Episode, b: Episode) {
    OpenKey(a) <= OpenKey(b)
  }

  datatype BuildResult =
    | Built(episodes: seq<Episode>)
    | NoOpeningFill   // min() over the opening fills of some episode is empty and raises

  predicate SomeNeverOpened(eps: seq<Episode>) {
    exists e :: e in eps && OpenedAt(e).None?
  }

  /** Every episode opens, and none with a fill earlier than the one an episode before it
      opens with. */
  ghost predicate InOpeningOrder(eps: seq<Episode>) {
    && (forall e | e in eps :: exists f :: OpensWith(e.fills, f))
    && (forall i, j, f, g | 0 <= i < j < |eps| && OpensWith(eps[i].fills, f) && OpensWith(eps[j].fills, g) ::
          f.ts <= g.ts)
  }

  /** Each group split in turn. */
  method SplitGroups(gs: seq<Group>, asOf: int) returns (eps: seq<Episode>)
    ensures eps == EpisodesOf(gs, asOf)
  {
    eps := [];
    var i := 0;
    while i < |gs|
      invariant 0 <= i <= |gs|
      invariant eps == EpisodesOf(gs[..i], asOf)
    {
      TakeNext(gs, i);
      var more := FlatSplitter.SplitFlat(gs[i].root.symbol, gs[i].fills, asOf);
      eps := eps + more;
      i := i + 1;
    }
    TakeAll(gs);
  }

  /** `sorted(episodes, key=lambda e: e.opened_at)`, which raises on an episode that
      has no opening fill. */
  method SortEpisodes(eps: seq<Episode>) returns (r: BuildResult)
    ensures r == if SomeNeverOpened(eps) then NoOpeningFill else Built(SortBy(OpenedEarlier, eps))
  {
    if SomeNeverOpened(eps) {
      return NoOpeningFill;
    }
    return Built(SortBy(OpenedEarlier, eps));
  }

  /** That sort keeps every episode and puts them in opening order. */
  lemma {:induction false} SortedByOpening(eps: seq<Episode>)
    requires !SomeNeverOpened(eps)
    ensures multiset(SortBy(OpenedEarlier, eps)) == multiset(eps) && InOpeningOrder(SortBy(OpenedEarlier, eps))
  {
    SortPermutes(OpenedEarlier, eps);
    SortBySorted(OpenedEarlier, eps);
    var sorted := SortBy(OpenedEarlier, eps);
    SameElements(sorted, eps);
    forall e | e in sorted ensures exists f :: OpensWith(e.fills, f) {
      OpenedAtIsEarliest(e);
    }
    forall i, j, f, g | 0 <= i < j < |sorted| && OpensWith(sorted[i].fills, f) && OpensWith(sorted[j].fills, g)
      ensures f.ts <= g.ts
    {
      OpenedAtIsEarliest(sorted[i]);
      OpenedAtIsEarliest(sorted[j]);
      assert OpenedEarlier(sorted[i], sorted[j]);
    }
  }

  predicate OpenedOn(e: Episode, ts: int) {
    OpenedAt(e) == Some(ts)
  }

  lemma {:induction false} OpeningIsTotal()
    ensures TotalPreorder(OpenedEarlier)
  {
  }

  lemma {:induction false} TiedAreSorted(tied: seq<Episode>, ts: int)
    requires forall e | e in tied :: OpenKey(e) == ts
    ensures SortBy(OpenedEarlier, tied) == tied
  {
    assert forall i | 0 <= i < |tied| :: tied[i] in tied;
    SortOfSorted(OpenedEarlier, tied);
  }

  /** Episodes opened at one time keep their order. */
  lemma {:induction false} TiesKeepTheirOrder(eps: seq<Episode>, ts: int)
    ensures var p := (e: Episode) => OpenedOn(e, ts);
      Filter(p, SortBy(OpenedEarlier, eps)) == Filter(p, eps)
  {
    var p := (e: Episode) => OpenedOn(e, ts);
    OpeningIsTotal();
    FilterOfSort(OpenedEarlier, p, eps);
    TiedAreSorted(Filter(p, eps), ts);
  }

  /** The sort raises exactly when some episode has no opening fill. */
  lemma {:induction false} NeverOpenedExactly(eps: seq<Episode>)
    ensures SomeNeverOpened(eps) <==> exists e :: e in eps && forall f | f in e.fills :: f.effect != Open
  {
    forall e | e in eps {
      OpenedAtIsEarliest(e);
    }
  }

  /** What `build_episodes` returns: the episodes of the connected groups, group after
      group, put in opening order by a stable sort, or the error it raises exactly when
      some episode has no opening fill, because that sort reads `opened_at`. */
  ghost predicate Rebuilt(fills: seq<Fill>, asOf: int, r: BuildResult) {
    exists groups :: GroupsOk(fills, groups) && RebuiltFrom(groups, asOf, r)
  }

  ghost predicate RebuiltFrom(groups: seq<Group>, asOf: int, r: BuildResult) {
    var eps := EpisodesOf(groups, asOf);
    r == if SomeNeverOpened(eps) then NoOpeningFill else Built(SortBy(OpenedEarlier, eps))
  }

  lemma {:induction false} RebuiltKeeps(groups: seq<Group>, asOf: int, r: BuildResult)
    requires RebuiltFrom(groups, asOf, r) && r.Built?
    ensures multiset(r.episodes) == multiset(EpisodesOf(groups, asOf))
  {
    SortPermutes(OpenedEarlier, EpisodesOf(groups, asOf));
  }

  /** `build_episodes` */
  method BuildEpisodes(fills: seq<Fill>, asOf: int) returns (r: BuildResult)
    ensures Rebuilt(fills, asOf, r)
    ensures r.Built? ==> InOpeningOrder(r.episodes)
  {
    var groups := BuildGroups(fills);
    var eps := SplitGroups(groups, asOf);
    r := SortEpisodes(eps);
    assert RebuiltFrom(groups, asOf, r);
    if r.Built? {
      SortedByOpening(eps);
    }
  }

  // -------------------------------------------------- what the rebuild promises

  lemma {:induction false} ComponentSymbol(fills: seq<Fill>, g: Group, f: Fill)
    requires g.fills == Component(fills, g.root) && f in g.fills
    ensures f in fills && f.symbol == g.root.symbol
  {
    ConnectedKeepsSymbol(fills, g.root, NodeOf(f));
  }

  /** Conservation across grouping and splitting: the real fills of all episodes
      are the broker's fills, each exactly once, and the cash is the same. */
  lemma {:induction false} EpisodesConserve(groups: seq<Group>, asOf: int)
    requires forall g | g in groups :: forall f | f in g.fills :: IsReal(f)
    ensures multiset(Reals(AllFills(EpisodesOf(groups, asOf)))) == multiset(GroupedFills(groups))
    ensures Cash(AllFills(EpisodesOf(groups, asOf))) == Cash(GroupedFills(groups))
  {
    if groups != [] {
      var g := groups[|groups|-1];
      var before := groups[..|groups|-1];
      EpisodesConserve(before, asOf);
      assert g in groups;
      var eps := FlatSplit.Split(g.root.symbol, g.fills, asOf);
      FlatSplit.SplitIsSound(g.root.symbol, g.fills, asOf);
      FlatSplit.SplitKeepsCash(g.root.symbol, g.fills, asOf);
      AllFillsAppend(EpisodesOf(before, asOf), eps);
      FilterAppend(IsReal, AllFills(EpisodesOf(before, asOf)), AllFills(eps));
      CashAppend(AllFills(EpisodesOf(before, asOf)), AllFills(eps));
      CashAppend(GroupedFills(before), g.fills);
    }
  }

  /** Main result for `build_episodes`: every broker fill is in exactly one returned
      episode, and together the episodes carry exactly the broker's cash. */
  lemma {:induction false} RebuildConserves(fills: seq<Fill>, asOf: int, r: BuildResult)
    requires forall f | f in fills :: IsReal(f)
    requires Rebuilt(fills, asOf, r) && r.Built?
    ensures multiset(Reals(AllFills(r.episodes))) == multiset(fills)
    ensures Cash(AllFills(r.episodes)) == Cash(fills)
    ensures InOpeningOrder(r.episodes)
  {
    var groups :| GroupsOk(fills, groups) && RebuiltFrom(groups, asOf, r);
    RebuiltKeeps(groups, asOf, r);
    var eps := EpisodesOf(groups, asOf);
    SortedByOpening(eps);
    EpisodesConserve(groups, asOf);
    CashPermutes(GroupedFills(groups), fills);
    AllFillsPermutes(r.episodes, eps);
    FilterMultiset(IsReal, AllFills(r.episodes), AllFills(eps));
    CashPermutes(AllFills(r.episodes), AllFills(eps));
  }

  lemma {:induction false} EpisodeOrigin(groups: seq<Group>, asOf: int, e: Episode) returns (g: Group)
    requires e in EpisodesOf(groups, asOf)
    ensures g in groups && e in FlatSplit.Split(g.root.symbol, g.fills, asOf)
  {
    g := groups[|groups|-1];
    if e !in FlatSplit.Split(g.root.symbol, g.fills, asOf) {
      g := EpisodeOrigin(groups[..|groups|-1], asOf, e);
    }
  }

  /** The real fills of one episode come from one group. */
  lemma {:induction false} EpisodeOfGroup(fills: seq<Fill>, g: Group, asOf: int, e: Episode)
    requires forall f | f in fills :: IsReal(f)
    requires g.fills == Component(fills, g.root) && e in FlatSplit.Split(g.root.symbol, g.fills, asOf)
    ensures FlatSplit.WellShaped(g.root.symbol, e)
    ensures forall f | f in e.fills && IsReal(f) ::
              f in fills && f.symbol == g.root.symbol && Connected(fills, g.root, NodeOf(f))
  {
    var eps := FlatSplit.Split(g.root.symbol, g.fills, asOf);
    FlatSplit.SplitIsSound(g.root.symbol, g.fills, asOf);
    SortPermutes(FlatSplit.Earlier, g.fills);
    forall f | f in e.fills && IsReal(f)
      ensures f in fills && f.symbol == g.root.symbol && Connected(fills, g.root, NodeOf(f))
    {
      AllFillsMember(eps, e, f);
      assert f in Reals(AllFills(eps));
      ComponentSymbol(fills, g, f);
    }
  }

  /** Every rebuilt episode is well shaped, and its real fills are broker fills
      of one symbol whose contracts are joined by orders. */
  lemma {:induction false} EpisodesAreLinked(fills: seq<Fill>, asOf: int, r: BuildResult, e: Episode)
    requires forall f | f in fills :: IsReal(f)
    requires Rebuilt(fills, asOf, r) && r.Built? && e in r.episodes
    ensures FlatSplit.WellShaped(e.symbol, e)
    ensures forall f, h | f in e.fills && h in e.fills && IsReal(f) && IsReal(h) ::
              f in fills && f.symbol == e.symbol && Connected(fills, NodeOf(f), NodeOf(h))
  {
    var groups :| GroupsOk(fills, groups) && RebuiltFrom(groups, asOf, r);
    RebuiltKeeps(groups, asOf, r);
    assert e in multiset(r.episodes);
    var g := EpisodeOrigin(groups, asOf, e);
    EpisodeOfGroup(fills, g, asOf, e);
    forall f, h | f in e.fills && h in e.fills && IsReal(f) && IsReal(h)
      ensures f in fills && f.symbol == e.symbol && Connected(fills, NodeOf(f), NodeOf(h))
    {
      ConnectedSym(fills, g.root, NodeOf(f));
      ConnectedTrans(fills, NodeOf(f), g.root, NodeOf(h));
    }
  }
}
