/** `_split_flat` as the source runs it: one pass over the sorted fills that
    updates a ledger, the open episode and the list of finished episodes. */
module FlatSplitter {
  import opened Basics
  import opened Seqs
  import opened Fills
  import FlatSplit

  class Splitter {
    const symbol: string
    var episodes: seq<Episode>
    var keys: seq<Contract>
    var qty: map<Contract, int>
    var current: Option<Episode>

    ghost function Abs(): FlatSplit.State
      reads this
    {
      FlatSplit.State(episodes, FlatSplit.Ledger(keys, qty), current)
    }

    constructor (symbol: string)
      ensures this.symbol == symbol && Abs() == FlatSplit.START
    {
      this.symbol := symbol;
      episodes, keys, qty, current := [], [], map[], None;
    }

    /** The loop of `expire_stale` over the ledger's items. */
    method ZeroStale(upTo: int)
      modifies this`qty, this`current
      ensures (qty, current) == FlatSplit.ExpireKeys(symbol, keys, old(qty), old(current), upTo)
    {
      var i := 0;
      while i < |keys|
        invariant 0 <= i <= |keys|
        invariant FlatSplit.ExpireKeys(symbol, keys[i..], qty, current, upTo)
               == FlatSplit.ExpireKeys(symbol, keys, old(qty), old(current), upTo)
      {
        var k := keys[i];
        assert keys[i..][0] == k && keys[i..][1..] == keys[i+1..];
        var q := FlatSplit.Position(qty, k);
        if q != 0 && k.expiration < upTo {
          current := FlatSplit.Extend(current, ExpiryFill(symbol, k, q));
          qty := qty[k := 0];
        }
        i := i + 1;
      }
      assert keys[i..] == [];
    }

    method ExpireStale(upTo: int)
      modifies this
      ensures Abs() == FlatSplit.ExpireStale(symbol, old(Abs()), upTo)
    {
      ZeroStale(upTo);
      if current.Some? && Flat(current.value.fills) && FlatSplit.HasClosing(current.value.fills) {
        episodes := episodes + [current.value];
        current := None;
      }
    }

    method Book(f: Fill)
      modifies this
      ensures Abs() == FlatSplit.Book(symbol, old(Abs()), f)
    {
      var e := if current.Some? then current.value else Episode(symbol, []);
      e := e.(fills := e.fills + [f]);
      if f.contract in qty {
        qty := qty[f.contract := qty[f.contract] + f.signedQty];
      } else {
        keys := keys + [f.contract];
        qty := qty[f.contract := f.signedQty];
      }
      if Flat(e.fills) {
        episodes := episodes + [e];
        current := None;
      } else {
        current := Some(e);
      }
    }

    method Feed(f: Fill)
      modifies this
      ensures Abs() == FlatSplit.Feed(symbol, old(Abs()), f)
    {
      ExpireStale(Day(f.ts));
      Book(f);
    }

    method FeedNext(fills: seq<Fill>, i: nat)
      requires i < |fills| && Abs() == FlatSplit.Run(symbol, fills[..i])
      modifies this
      ensures Abs() == FlatSplit.Run(symbol, fills[..i+1])
    {
      ghost var st := Abs();
      Feed(fills[i]);
      FlatSplit.RunTake(symbol, fills, i, st);
    }

    method FeedAll(fills: seq<Fill>)
      requires Abs() == FlatSplit.START
      modifies this
      ensures Abs() == FlatSplit.Run(symbol, fills)
    {
      var i := 0;
      while i < |fills|
        invariant 0 <= i <= |fills|
        invariant Abs() == FlatSplit.Run(symbol, fills[..i])
      {
        FeedNext(fills, i);
        i := i + 1;
      }
      assert fills[..i] == fills;
    }

    /** The tail of `_split_flat`: expire up to `asOf`, emit what is still open. */
    method Finish(asOf: int) returns (eps: seq<Episode>)
      modifies this
      ensures eps == FlatSplit.Finish(symbol, old(Abs()), asOf)
    {
      ExpireStale(asOf);
      eps := episodes;
      if current.Some? && current.value.fills != [] {
        eps := eps + [current.value];
      }
    }
  }

  method SplitFlat(symbol: string, group: seq<Fill>, asOf: int) returns (eps: seq<Episode>)
    ensures eps == FlatSplit.Split(symbol, group, asOf)
  {
    var s := new Splitter(symbol);
    s.FeedAll(SortBy(FlatSplit.Earlier, group));
    eps := s.Finish(asOf);
  }
}
