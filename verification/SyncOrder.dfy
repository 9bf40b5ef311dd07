/** Where the lines of a report stand (`sync`, scripts/rh_sync.py): the pieces of a split
    episode go to the front of the work list, so what is reported of an episode stands
    together, in the place of that episode. */
module SyncOrder {
  import opened Basics
  import opened Seqs
  import opened Fills
  import opened SyncWorklist

  /** The real fills of some reported lines. */
  ghost function Reported(entries: seq<Entry>): multiset<Fill> {
    multiset(Reals(AllFills(Episodes(entries))))
  }

  /** The lines fall into consecutive stretches, one for each episode in turn, that
      report exactly its real fills. */
  ghost predicate InPlace(entries: seq<Entry>, eps: seq<Episode>)
    decreases |eps|
  {
    if eps == [] then entries == []
    else exists n: nat :: StretchOf(entries, n, eps[0]) && InPlace(entries[n..], eps[1..])
  }

  ghost predicate StretchOf(entries: seq<Entry>, n: nat, e: Episode) {
    1 <= n <= |entries| && Reported(entries[..n]) == multiset(Reals(e.fills))
  }

  lemma {:induction false} EpisodesAppend(a: seq<Entry>, b: seq<Entry>)
    ensures Episodes(a + b) == Episodes(a) + Episodes(b)
    decreases |b|
  {
    if b == [] {
      assert a + b == a;
    } else {
      var n := |b| - 1;
      AppendSnoc(a, b);
      EpisodesAppend(a, b[..n]);
      EpisodesSnoc(a + b[..n], b[n]);
      AppendAssociates(Episodes(a), Episodes(b[..n]), [b[n].episode]);
    }
  }

  lemma {:induction false} ReportedAppend(a: seq<Entry>, b: seq<Entry>)
    ensures Reported(a + b) == Reported(a) + Reported(b)
  {
    EpisodesAppend(a, b);
    AllFillsAppend(Episodes(a), Episodes(b));
    FilterAppend(IsReal, AllFills(Episodes(a)), AllFills(Episodes(b)));
  }

  lemma {:induction false} FillsOfFirst(eps: seq<Episode>)
    requires eps != []
    ensures multiset(Reals(AllFills(eps))) == multiset(Reals(eps[0].fills)) + multiset(Reals(AllFills(eps[1..])))
  {
    assert eps == [eps[0]] + eps[1..];
    AllFillsAppend([eps[0]], eps[1..]);
    OneEpisode(eps[0]);
    FilterAppend(IsReal, eps[0].fills, AllFills(eps[1..]));
  }

  lemma {:induction false} AddStretch(own: seq<Entry>, more: seq<Entry>, e: Episode, rest: seq<Episode>)
    requires own != [] && Reported(own) == multiset(Reals(e.fills)) && InPlace(more, rest)
    ensures InPlace(own + more, [e] + rest)
  {
    var entries, eps, n := own + more, [e] + rest, |own|;
    assert entries[..n] == own && entries[n..] == more && eps[0] == e && eps[1..] == rest;
    assert StretchOf(entries, n, eps[0]);
  }

  lemma {:induction false} FirstStretch(entries: seq<Entry>, eps: seq<Episode>)
    returns (own: seq<Entry>, more: seq<Entry>)
    requires eps != [] && InPlace(entries, eps)
    ensures entries == own + more && own != [] && Reported(own) == multiset(Reals(eps[0].fills))
    ensures InPlace(more, eps[1..])
  {
    var n: nat :| StretchOf(entries, n, eps[0]) && InPlace(entries[n..], eps[1..]);
    own, more := entries[..n], entries[n..];
    SplitAt(entries, n);
  }

  lemma {:induction false} RestOfBoth<T>(a: seq<T>, b: seq<T>)
    requires a != []
    ensures a + b != [] && (a + b)[0] == a[0] && (a + b)[1..] == a[1..] + b
  {
  }

  /** The lines of two lists of episodes are those of the first, then those of the second. */
  lemma {:induction false} InPlaceParts(entries: seq<Entry>, a: seq<Episode>, b: seq<Episode>)
    returns (own: seq<Entry>, more: seq<Entry>)
    requires InPlace(entries, a + b)
    ensures entries == own + more && Reported(own) == multiset(Reals(AllFills(a))) && InPlace(more, b)
    ensures a != [] ==> own != []
    decreases |a|
  {
    if a == [] {
      assert a + b == b;
      own, more := [], entries;
    } else {
      RestOfBoth(a, b);
      var first, later := FirstStretch(entries, a + b);
      var others, after := InPlaceParts(later, a[1..], b);
      own, more := first + others, after;
      AppendAssociates(first, others, after);
      ReportedAppend(first, others);
      FillsOfFirst(a);
    }
  }

  lemma {:induction false} LineInPlace(x: Entry, more: seq<Entry>, rest: seq<Episode>)
    requires InPlace(more, rest)
    ensures InPlace([x] + more, [x.episode] + rest)
  {
    OneLine(x);
    AddStretch([x], more, x.episode, rest);
  }

  lemma {:induction false} OneLine(x: Entry)
    ensures Reported([x]) == multiset(Reals(x.episode.fills))
  {
    assert [x][..0] == [];
    assert Episodes([x]) == Episodes([]) + [x.episode];
    OneEpisode(x.episode);
  }

  lemma {:induction false} SplitInPlace(ep: Episode, subs: seq<Episode>, rest: seq<Episode>, entries: seq<Entry>)
    requires InPlace(entries, subs + rest)
    requires subs != [] && multiset(Reals(AllFills(subs))) == multiset(Reals(ep.fills))
    ensures InPlace(entries, [ep] + rest)
  {
    var own, more := InPlaceParts(entries, subs, rest);
    AddStretch(own, more, ep, rest);
  }

  /** A report says of each incoming episode, in its place, what became of all its fills. */
  lemma {:induction false} ReportIsInPlace(work: seq<Episode>, done: seq<Entry>, turn: nat,
                                           tracking: (nat, Episode) -> Tracking, recognised: (nat, Episode) -> bool,
                                           today: nat -> int) returns (more: seq<Entry>)
    requires forall e | e in work :: WellFormed(e)
    requires SyncFrom(work, done, turn, tracking, recognised, today).Report?
    ensures SyncFrom(work, done, turn, tracking, recognised, today).entries == done + more && InPlace(more, work)
    decreases Weight(work)
  {
    more := [];
    if work != [] {
      var ep, rest := work[0], work[1..];
      assert work == [ep] + rest && ep in work;
      var found, known := tracking(turn, ep), recognised(turn, ep);
      var subs := Parts(ep, found, known, today(turn));
      PartsConserve(ep, found, known, today(turn));
      if |subs| > 1 {
        SplitAdvances(ep, subs, rest);
        more := ReportIsInPlace(subs + rest, done, turn + 1, tracking, recognised, today);
        SplitInPlace(ep, subs, rest, more);
      } else {
        ReportAdvances(work);
        var x := Entry(ep, OutcomeOf(ep, found, known), turn);
        var later := ReportIsInPlace(rest, done + [x], turn + 1, tracking, recognised, today);
        more := [x] + later;
        LineInPlace(x, later, rest);
        AppendAssociates(done, [x], later);
      }
    }
  }
}
