/** `split_per_contract` and the work list of `sync` (scripts/rh_sync.py). */
module SyncWorklist {
  import opened Basics
  import opened Seqs
  import opened Fills
  import opened ListDicts
  import FlatSplit
  import FlatSplitter

  // ------------------------------------------------------------ split per contract

  /** The fills filed under their contract: the appends made to `by_contract`. */
  function ByContract(fills: seq<Fill>): (log: seq<(Contract, Fill)>)
    ensures |log| == |fills| && forall i | 0 <= i < |fills| :: log[i] == (fills[i].contract, fills[i])
  {
    seq(|fills|, i requires 0 <= i < |fills| => (fills[i].contract, fills[i]))
  }

  /** Each contract's real fills split on their own, contract after contract. */
  function SplitContracts(symbol: string, log: seq<(Contract, Fill)>, keys: seq<Contract>, asOf: int): seq<Episode> {
    if keys == [] then []
    else
      SplitContracts(symbol, log, keys[..|keys|-1], asOf)
      + FlatSplit.Split(symbol, Reals(At(log, keys[|keys|-1])), asOf)
  }

  /** The episode trades exactly one contract. */
  ghost predicate OneContract(e: Episode) {
    forall f, g | f in e.fills && g in e.fills :: f.contract == g.contract
  }

  ghost predicate WellFormed(e: Episode) {
    FlatSplit.WellShaped(e.symbol, e)
  }

  function RealCount(e: Episode): nat {
    |Reals(e.fills)|
  }

  /** The pieces of an episode, contract after contract. */
  function Pieces(ep: Episode, asOf: int): seq<Episode> {
    SplitContracts(ep.symbol, ByContract(ep.fills), Keys(ByContract(ep.fills)), asOf)
  }

  method FileByContract(fills: seq<Fill>) returns (d: ListDict<Contract, Fill>)
    ensures fresh(d) && d.Valid() && d.log == ByContract(fills)
  {
    d := new ListDict<Contract, Fill>();
    var i := 0;
    while i < |fills|
      invariant 0 <= i <= |fills| && d.Valid() && fresh(d) && d.log == ByContract(fills[..i])
    {
      TakeNext(fills, i);
      d.Append(fills[i].contract, fills[i]);
      i := i + 1;
    }
    TakeAll(fills);
  }

  /** `split_per_contract` */
  method SplitPerContract(ep: Episode, asOf: int) returns (subs: seq<Episode>)
    ensures subs == Pieces(ep, asOf)
  {
    var d := FileByContract(ep.fills);
    ghost var log := d.log;
    var keys, lists := d.keys, d.lists;
    subs := [];
    var i := 0;
    while i < |keys|
      invariant 0 <= i <= |keys|
      invariant subs == SplitContracts(ep.symbol, log, keys[..i], asOf)
    {
      TakeNext(keys, i);
      assert keys[i] in keys;
      var more := FlatSplitter.SplitFlat(ep.symbol, Reals(lists[keys[i]]), asOf);
      subs := subs + more;
      i := i + 1;
    }
    TakeAll(keys);
  }

  lemma {:induction false} ValuesOfContracts(fills: seq<Fill>, log: seq<(Contract, Fill)>)
    requires log == ByContract(fills)
    ensures Values(log) == fills
  {
    if fills != [] {
      assert log[..|fills|-1] == ByContract(fills[..|fills|-1]);
      ValuesOfContracts(fills[..|fills|-1], log[..|fills|-1]);
      SplitLast(fills);
    }
  }

  lemma {:induction false} ContractList(fills: seq<Fill>, log: seq<(Contract, Fill)>, k: Contract)
    requires log == ByContract(fills)
    ensures forall f | f in At(log, k) :: f.contract == k
  {
    forall f | f in At(log, k) ensures f.contract == k {
      AtMember(log, k, f);
    }
  }

  /** The synthetic fills of an episode trade contracts its real fills trade. */
  lemma {:induction false} ExpiryHasContract(symbol: string, e: Episode, k: Contract)
    requires FlatSplit.WellShaped(symbol, e)
    requires forall f | f in e.fills && IsReal(f) :: f.contract == k
    ensures OneContract(e) && forall f | f in e.fills :: f.contract == k
  {
    forall i | 0 <= i < |e.fills| ensures e.fills[i].contract == k {
      ExpiryContractAt(symbol, e, k, i);
    }
  }

  lemma {:induction false} ExpiryContractAt(symbol: string, e: Episode, k: Contract, i: nat)
    requires FlatSplit.WellShaped(symbol, e) && i < |e.fills|
    requires forall f | f in e.fills && IsReal(f) :: f.contract == k
    ensures e.fills[i].contract == k
    decreases i
  {
    assert e.fills[i] in e.fills;
    assert FlatSplit.ExpiryExactAt(e, i);
    if !IsReal(e.fills[i]) && e.fills[i].contract != k {
      forall j | 0 <= j < i ensures e.fills[j].contract == k {
        ExpiryContractAt(symbol, e, k, j);
      }
      NetAbsent(e.fills[..i], e.fills[i].contract);
    }
  }

  /** Splitting one contract's fills gives single-contract episodes of that contract. */
  lemma {:induction false} SplitOneContract(symbol: string, fills: seq<Fill>, k: Contract, asOf: int, e: Episode)
    requires forall f | f in fills :: f.contract == k && IsReal(f)
    requires e in FlatSplit.Split(symbol, fills, asOf)
    ensures FlatSplit.WellShaped(symbol, e) && OneContract(e) && RealCount(e) >= 1
  {
    FlatSplit.SplitIsSound(symbol, fills, asOf);
    SortPermutes(FlatSplit.Earlier, fills);
    var eps := FlatSplit.Split(symbol, fills, asOf);
    forall f | f in e.fills && IsReal(f) ensures f.contract == k {
      AllFillsMember(eps, e, f);
      assert f in Reals(AllFills(eps));
    }
    ExpiryHasContract(symbol, e, k);
    HasReal(symbol, e);
  }

  lemma {:induction false} HasReal(symbol: string, e: Episode)
    requires FlatSplit.WellShaped(symbol, e)
    ensures RealCount(e) >= 1
  {
    assert e.fills[0] in e.fills;
    assert e.fills[0] in Reals(e.fills);
  }

  lemma {:induction false} SplitContractsShape(symbol: string, fills: seq<Fill>, log: seq<(Contract, Fill)>,
                                               keys: seq<Contract>, asOf: int)
    requires log == ByContract(fills)
    ensures forall e | e in SplitContracts(symbol, log, keys, asOf) ::
              FlatSplit.WellShaped(symbol, e) && OneContract(e) && RealCount(e) >= 1
    ensures multiset(Reals(AllFills(SplitContracts(symbol, log, keys, asOf))))
         == multiset(Reals(Concat(Lists(log, keys))))
    ensures Cash(AllFills(SplitContracts(symbol, log, keys, asOf))) == Cash(Reals(Concat(Lists(log, keys))))
  {
    if keys != [] {
      var before, k := keys[..|keys|-1], keys[|keys|-1];
      SplitContractsShape(symbol, fills, log, before, asOf);
      ContractList(fills, log, k);
      var own := Reals(At(log, k));
      var eps := FlatSplit.Split(symbol, own, asOf);
      forall e | e in eps
        ensures FlatSplit.WellShaped(symbol, e) && OneContract(e) && RealCount(e) >= 1
      {
        SplitOneContract(symbol, own, k, asOf, e);
      }
      SplitJoins(SplitContracts(symbol, log, before, asOf), eps, Lists(log, before), At(log, k));
      FlatSplit.SplitIsSound(symbol, own, asOf);
      FlatSplit.SplitKeepsCash(symbol, own, asOf);
    }
  }

  lemma {:induction false} SplitJoins(a: seq<Episode>, b: seq<Episode>, lists: seq<seq<Fill>>, last: seq<Fill>)
    ensures Reals(AllFills(a + b)) == Reals(AllFills(a)) + Reals(AllFills(b))
    ensures Cash(AllFills(a + b)) == Cash(AllFills(a)) + Cash(AllFills(b))
    ensures Reals(Concat(lists + [last])) == Reals(Concat(lists)) + Reals(last)
    ensures Cash(Reals(Concat(lists + [last]))) == Cash(Reals(Concat(lists))) + Cash(Reals(last))
  {
    AllFillsAppend(a, b);
    FilterAppend(IsReal, AllFills(a), AllFills(b));
    CashAppend(AllFills(a), AllFills(b));
    ConcatOne(lists, last);
    FilterAppend(IsReal, Concat(lists), last);
    CashAppend(Reals(Concat(lists)), Reals(last));
  }

  /** Main result for `split_per_contract`: single-contract episodes that
      together hold exactly the real fills, and the cash, of the original. */
  lemma {:induction false} SplitPerContractConserves(ep: Episode, asOf: int)
    requires WellFormed(ep)
    ensures var subs := Pieces(ep, asOf);
      && (forall e | e in subs :: WellFormed(e) && OneContract(e) && RealCount(e) >= 1)
      && multiset(Reals(AllFills(subs))) == multiset(Reals(ep.fills))
      && Cash(AllFills(subs)) == Cash(ep.fills)
  {
    var log := ByContract(ep.fills);
    SplitContractsShape(ep.symbol, ep.fills, log, Keys(log), asOf);
    ListsConserve(log);
    ValuesOfContracts(ep.fills, log);
    FilterMultiset(IsReal, Concat(Lists(log, Keys(log))), ep.fills);
    CashPermutes(Reals(Concat(Lists(log, Keys(log)))), Reals(ep.fills));
    CashOfWellFormed(ep);
  }

  lemma {:induction false} OneEpisode(ep: Episode)
    ensures AllFills([ep]) == ep.fills
  {
    assert [ep][..0] == [];
    assert AllFills([]) + ep.fills == ep.fills;
  }

  lemma {:induction false} CashOfWellFormed(ep: Episode)
    requires WellFormed(ep)
    ensures Cash(ep.fills) == Cash(Reals(ep.fills))
  {
    FlatSplit.ExpiriesAreFree(ep.symbol, [ep]);
    OneEpisode(ep);
    FlatSplit.CashOfReals(ep.fills);
  }

  // ------------------------------------------------------------------ the work list

  /** What `sync` finds in the database for an episode. */
  datatype Tracking = Untracked | TrackedOpen | TrackedOther

  datatype Outcome = ClosedInPlace | AlreadyTracked | CreatedClosed | CreatedOpen | Skipped

  /** A line of the report, with the turn of the loop that wrote it. */
  datatype Entry = Entry(episode: Episode, outcome: Outcome, turn: nat)

  /** What the loop does with an episode it does not split further. */
  function OutcomeOf(e: Episode, found: Tracking, recognised: bool): Outcome {
    if found != Untracked then (if Flat(e.fills) && found == TrackedOpen then ClosedInPlace else AlreadyTracked)
    else if recognised then (if Flat(e.fills) then CreatedClosed else CreatedOpen)
    else Skipped
  }

  datatype SyncResult =
    | Report(entries: seq<Entry>)
    | Crashed(at: Episode)   // building this episode's label raised

  /** The label reads `opened_at`, and for a closed episode formats `exit_net`. */
  predicate Labelable(e: Episode) {
    OpenedAt(e).Some? && (Flat(e.fills) ==> ExitNet(e).Some?)
  }

  /** 2 * real fills - 1, summed: what each turn of the loop lowers. */
  ghost function Weight(work: seq<Episode>): int {
    if work == [] then 0 else Weight(work[..|work|-1]) + 2 * RealCount(work[|work|-1]) - 1
  }

  function Episodes(entries: seq<Entry>): seq<Episode> {
    if entries == [] then [] else Episodes(entries[..|entries|-1]) + [entries[|entries|-1].episode]
  }

  lemma {:induction false} WeightAppend(a: seq<Episode>, b: seq<Episode>)
    ensures Weight(a + b) == Weight(a) + Weight(b)
    decreases |b|
  {
    if b == [] {
      assert a + b == a;
    } else {
      assert (a + b)[..|a+b|-1] == a + b[..|b|-1];
      WeightAppend(a, b[..|b|-1]);
    }
  }

  lemma {:induction false} WeightOf(work: seq<Episode>)
    ensures Weight(work) == 2 * |Reals(AllFills(work))| - |work|
  {
    if work != [] {
      WeightOf(work[..|work|-1]);
      FilterAppend(IsReal, AllFills(work[..|work|-1]), work[|work|-1].fills);
    }
  }

  lemma {:induction false} WeightOfFirst(work: seq<Episode>)
    requires work != []
    ensures Weight(work) == 2 * RealCount(work[0]) - 1 + Weight(work[1..])
  {
    assert work == [work[0]] + work[1..];
    WeightAppend([work[0]], work[1..]);
    assert [work[0]][..0] == [];
  }

  lemma {:induction false} WeightNonNegative(work: seq<Episode>)
    requires forall e | e in work :: RealCount(e) >= 1
    ensures Weight(work) >= 0
  {
    if work != [] {
      assert work[|work|-1] in work;
      WeightNonNegative(work[..|work|-1]);
    }
  }

  lemma {:induction false} EpisodesSnoc(entries: seq<Entry>, x: Entry)
    ensures Episodes(entries + [x]) == Episodes(entries) + [x.episode]
  {
    assert (entries + [x])[..|entries|] == entries;
  }

  /** Moving the head of the work list to the report keeps the pool of real fills. */
  lemma {:induction false} MoveHead(done: seq<Entry>, x: Entry, rest: seq<Episode>)
    ensures AllFills(Episodes(done + [x]) + rest) == AllFills(Episodes(done) + ([x.episode] + rest))
  {
    EpisodesSnoc(done, x);
    assert (Episodes(done) + [x.episode]) + rest == Episodes(done) + ([x.episode] + rest);
  }

  /** Replacing the head by its sub-episodes keeps the pool of real fills. */
  lemma {:induction false} ReplaceHead(done: seq<Episode>, ep: Episode, subs: seq<Episode>, rest: seq<Episode>)
    requires multiset(Reals(AllFills(subs))) == multiset(Reals(ep.fills))
    ensures multiset(Reals(AllFills(done + (subs + rest)))) == multiset(Reals(AllFills(done + ([ep] + rest))))
  {
    AllFillsAppend(done, subs + rest);
    AllFillsAppend(subs, rest);
    AllFillsAppend(done, [ep] + rest);
    AllFillsAppend([ep], rest);
    OneEpisode(ep);
    RealsOfThree(AllFills(done), AllFills(subs), AllFills(rest));
    RealsOfThree(AllFills(done), ep.fills, AllFills(rest));
  }

  lemma {:induction false} RealsOfThree(a: seq<Fill>, b: seq<Fill>, c: seq<Fill>)
    ensures Reals(a + (b + c)) == Reals(a) + (Reals(b) + Reals(c))
  {
    FilterAppend(IsReal, a, b + c);
    FilterAppend(IsReal, b, c);
  }

  /** Splitting lowers the weight as soon as it yields more than one part. */
  lemma {:induction false} SplitLowersWeight(ep: Episode, subs: seq<Episode>, rest: seq<Episode>)
    requires |subs| > 1
    requires multiset(Reals(AllFills(subs))) == multiset(Reals(ep.fills))
    ensures Weight(subs + rest) < Weight([ep] + rest)
  {
    WeightOf(subs);
    WeightAppend(subs, rest);
    WeightAppend([ep], rest);
    assert [ep][..0] == [];
    assert |Reals(AllFills(subs))| == |multiset(Reals(AllFills(subs)))| == |Reals(ep.fills)|;
  }

  /** The episodes that would take an episode's place: its pieces when the database does
      not know it and it is not recognised as a trade. */
  function Parts(ep: Episode, found: Tracking, recognised: bool, today: int): seq<Episode> {
    if found == Untracked && !recognised then Pieces(ep, today) else []
  }

  lemma {:induction false} PartsConserve(ep: Episode, found: Tracking, recognised: bool, today: int)
    requires WellFormed(ep)
    ensures var subs := Parts(ep, found, recognised, today);
      |subs| > 1 ==>
        && (forall e | e in subs :: WellFormed(e) && OneContract(e) && RealCount(e) >= 1)
        && multiset(Reals(AllFills(subs))) == multiset(Reals(ep.fills))
        && Cash(AllFills(subs)) == Cash(ep.fills)
  {
    SplitPerContractConserves(ep, today);
  }

  /** One turn of the loop: what is reported of the episode, or the episodes that take
      its place in the work list. */
  method Turn(ep: Episode, found: Tracking, recognised: bool, today: int) returns (outcome: Outcome, subs: seq<Episode>)
    ensures outcome == OutcomeOf(ep, found, recognised) && subs == Parts(ep, found, recognised, today)
  {
    outcome, subs := Skipped, [];
    if found != Untracked {
      outcome := if Flat(ep.fills) && found == TrackedOpen then ClosedInPlace else AlreadyTracked;
    } else if recognised {
      outcome := if Flat(ep.fills) then CreatedClosed else CreatedOpen;
    } else {
      subs := SplitPerContract(ep, today);
    }
  }

  /** Everything on the work list and in the report so far. */
  ghost predicate Accounted(done: seq<Entry>, work: seq<Episode>, pool: multiset<Fill>) {
    && multiset(Reals(AllFills(Episodes(done) + work))) == pool
    && forall e | e in work :: WellFormed(e) && RealCount(e) >= 1
  }

  lemma {:induction false} Replaced(done: seq<Entry>, ep: Episode, subs: seq<Episode>, rest: seq<Episode>,
                                    pool: multiset<Fill>)
    requires Accounted(done, [ep] + rest, pool)
    requires forall e | e in subs :: WellFormed(e) && RealCount(e) >= 1
    requires multiset(Reals(AllFills(subs))) == multiset(Reals(ep.fills))
    ensures Accounted(done, subs + rest, pool)
  {
    ReplaceHead(Episodes(done), ep, subs, rest);
  }

  lemma {:induction false} Reported(done: seq<Entry>, x: Entry, rest: seq<Episode>, pool: multiset<Fill>)
    requires Accounted(done, [x.episode] + rest, pool)
    ensures Accounted(done + [x], rest, pool)
  {
    MoveHead(done, x, rest);
  }

  /** What a line of the report says of its episode: one the database knows is closed in
      place exactly when it is open there and nothing is held any more; a new trade is
      created closed when nothing is held and open when something is; and an episode is
      skipped when it is unknown, no recognised trade and does not fall into pieces. */
  ghost predicate LineOk(x: Entry, tracking: (nat, Episode) -> Tracking, recognised: (nat, Episode) -> bool,
                         today: nat -> int)
  {
    var found, known := tracking(x.turn, x.episode), recognised(x.turn, x.episode);
    var nothingHeld := forall k :: Net(x.episode.fills, k) == 0;
    && WellFormed(x.episode) && Labelable(x.episode)
    && (x.outcome == ClosedInPlace <==> found == TrackedOpen && nothingHeld)
    && (x.outcome == AlreadyTracked <==> found == TrackedOther || (found == TrackedOpen && !nothingHeld))
    && (x.outcome == CreatedClosed <==> found == Untracked && known && nothingHeld)
    && (x.outcome == CreatedOpen <==> found == Untracked && known && !nothingHeld)
    && (x.outcome == Skipped <==> found == Untracked && !known)
    && (x.outcome == Skipped ==> |Pieces(x.episode, today(x.turn))| <= 1)
  }

  lemma {:induction false} DecidedLineOk(x: Entry, tracking: (nat, Episode) -> Tracking,
                                         recognised: (nat, Episode) -> bool, today: nat -> int)
    requires WellFormed(x.episode) && Labelable(x.episode)
    requires var found, known := tracking(x.turn, x.episode), recognised(x.turn, x.episode);
      && x.outcome == OutcomeOf(x.episode, found, known)
      && |Parts(x.episode, found, known, today(x.turn))| <= 1
    ensures LineOk(x, tracking, recognised, today)
  {
    FlatIff(x.episode.fills);
  }

  /** The work list after a turn that splits its head. */
  lemma {:induction false} SplitAdvances(ep: Episode, subs: seq<Episode>, rest: seq<Episode>)
    requires |subs| > 1 && multiset(Reals(AllFills(subs))) == multiset(Reals(ep.fills))
    requires forall e | e in subs + rest :: WellFormed(e)
    ensures 0 <= Weight(subs + rest) < Weight([ep] + rest)
  {
    forall e | e in subs + rest { HasReal(e.symbol, e); }
    WeightNonNegative(subs + rest);
    SplitLowersWeight(ep, subs, rest);
  }

  lemma {:induction false} ReportAdvances(work: seq<Episode>)
    requires work != [] && forall e | e in work :: WellFormed(e)
    ensures 0 <= Weight(work[1..]) < Weight(work)
  {
    forall e | e in work { HasReal(e.symbol, e); }
    WeightNonNegative(work[1..]);
    WeightOfFirst(work);
    assert work[0] in work;
  }

  /** What the loop returns from a work list, a report so far and a turn number. */
  ghost function SyncFrom(work: seq<Episode>, done: seq<Entry>, turn: nat, tracking: (nat, Episode) -> Tracking,
                          recognised: (nat, Episode) -> bool, today: nat -> int): SyncResult
    requires forall e | e in work :: WellFormed(e)
    decreases Weight(work)
  {
    if work == [] then Report(done)
    else
      var ep, rest := work[0], work[1..];
      assert work == [ep] + rest && ep in work;
      if !Labelable(ep) then Crashed(ep)
      else
        var found, known := tracking(turn, ep), recognised(turn, ep);
        var subs := Parts(ep, found, known, today(turn));
        PartsConserve(ep, found, known, today(turn));
        if |subs| > 1 then
          SplitAdvances(ep, subs, rest);
          SyncFrom(subs + rest, done, turn + 1, tracking, recognised, today)
        else
          ReportAdvances(work);
          SyncFrom(rest, done + [Entry(ep, OutcomeOf(ep, found, known), turn)], turn + 1, tracking, recognised, today)
  }

  /** The loop of `sync`. What the database answers and whether an episode is
      recognised as a trade may depend on anything, so both are arbitrary
      functions of the turn number and the episode; the clock may move too.
      The loop terminates, and unless a label raises, every real fill of the
      work list ends up in exactly one reported episode. */
  method Sync(eps: seq<Episode>, tracking: (nat, Episode) -> Tracking, recognised: (nat, Episode) -> bool,
              today: nat -> int) returns (r: SyncResult)
    requires forall e | e in eps :: WellFormed(e)
    ensures r == SyncFrom(eps, [], 0, tracking, recognised, today)
    ensures r.Report? ==> multiset(Reals(AllFills(Episodes(r.entries)))) == multiset(Reals(AllFills(eps)))
    ensures r.Report? ==> forall x | x in r.entries :: LineOk(x, tracking, recognised, today)
    ensures r.Crashed? ==> WellFormed(r.at) && !Labelable(r.at)
  {
    var work, done := eps, [];
    ghost var pool := multiset(Reals(AllFills(eps)));
    var turn: nat := 0;
    assert Episodes(done) + work == eps;
    forall e | e in work { HasReal(e.symbol, e); }
    while work != []
      invariant Accounted(done, work, pool)
      invariant forall x | x in done :: LineOk(x, tracking, recognised, today)
      invariant SyncFrom(work, done, turn, tracking, recognised, today)
             == SyncFrom(eps, [], 0, tracking, recognised, today)
      decreases Weight(work)
    {
      var ep, rest := work[0], work[1..];
      assert work == [ep] + rest && ep in work;
      WeightOfFirst(work);
      WeightNonNegative(work);
      if !Labelable(ep) {
        return Crashed(ep);
      }
      var outcome, subs := Turn(ep, tracking(turn, ep), recognised(turn, ep), today(turn));
      PartsConserve(ep, tracking(turn, ep), recognised(turn, ep), today(turn));
      if |subs| > 1 {
        Replaced(done, ep, subs, rest, pool);
        SplitLowersWeight(ep, subs, rest);
        work := subs + rest;
      } else {
        Reported(done, Entry(ep, outcome, turn), rest, pool);
        DecidedLineOk(Entry(ep, outcome, turn), tracking, recognised, today);
        done := done + [Entry(ep, outcome, turn)];
        work := rest;
      }
      turn := turn + 1;
    }
    assert Episodes(done) + work == Episodes(done);
    r := Report(done);
  }
}
