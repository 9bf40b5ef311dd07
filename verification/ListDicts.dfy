/** `defaultdict(list)`: a dictionary of lists that remembers the order in which
    its keys first appeared. Its meaning is the log of appends made to it. */
module ListDicts {
  import opened Seqs

  function Values<K, V>(log: seq<(K, V)>): seq<V> {
    if log == [] then [] else Values(log[..|log|-1]) + [log[|log|-1].1]
  }

  /** What the dictionary holds under one key. */
  function At<K(==), V>(log: seq<(K, V)>, k: K): seq<V> {
    if log == [] then []
    else
      var rest := At(log[..|log|-1], k);
      if log[|log|-1].0 == k then rest + [log[|log|-1].1] else rest
  }

  /** The keys in insertion order. */
  function Keys<K(==), V>(log: seq<(K, V)>): seq<K> {
    if log == [] then []
    else
      var rest := Keys(log[..|log|-1]);
      var k := log[|log|-1].0;
      if k in rest then rest else rest + [k]
  }

  /** The lists under the given keys, one after another. */
  function Lists<K(==), V>(log: seq<(K, V)>, keys: seq<K>): seq<seq<V>> {
    if keys == [] then [] else Lists(log, keys[..|keys|-1]) + [At(log, keys[|keys|-1])]
  }

  predicate Distinct<K(==)>(keys: seq<K>) {
    forall i, j :: 0 <= i < j < |keys| ==> keys[i] != keys[j]
  }

  lemma {:induction false} AtSnoc<K, V>(log: seq<(K, V)>, k: K, v: V, q: K)
    ensures At(log + [(k, v)], q) == if k == q then At(log, q) + [v] else At(log, q)
  {
    assert (log + [(k, v)])[..|log|] == log;
  }

  lemma {:induction false} KeysSnoc<K, V>(log: seq<(K, V)>, k: K, v: V)
    ensures Keys(log + [(k, v)]) == if k in Keys(log) then Keys(log) else Keys(log) + [k]
    ensures Values(log + [(k, v)]) == Values(log) + [v]
  {
    assert (log + [(k, v)])[..|log|] == log;
  }

  lemma {:induction false} KeysDistinct<K, V>(log: seq<(K, V)>)
    ensures Distinct(Keys(log))
    ensures forall i | 0 <= i < |log| :: log[i].0 in Keys(log)
    ensures forall k | k in Keys(log) :: exists i :: 0 <= i < |log| && log[i].0 == k
  {
    if log != [] {
      var n := |log| - 1;
      KeysDistinct(log[..n]);
      forall k | k in Keys(log) ensures exists i :: 0 <= i < |log| && log[i].0 == k {
        if k in Keys(log[..n]) {
          var i :| 0 <= i < |log[..n]| && log[..n][i].0 == k;
          assert log[i].0 == k;
        } else {
          assert log[n].0 == k;
        }
      }
    }
  }

  /** Key a occurs before key b does. */
  ghost predicate OccursFirst<K, V>(log: seq<(K, V)>, a: K, b: K) {
    exists p :: 0 <= p < |log| && log[p].0 == a && forall q | 0 <= q <= p :: log[q].0 != b
  }

  lemma {:induction false} OccursFirstSnoc<K, V>(log: seq<(K, V)>, x: (K, V), a: K, b: K)
    requires OccursFirst(log, a, b)
    ensures OccursFirst(log + [x], a, b)
  {
    var p :| 0 <= p < |log| && log[p].0 == a && forall q | 0 <= q <= p :: log[q].0 != b;
    assert (log + [x])[p].0 == a && forall q | 0 <= q <= p :: (log + [x])[q] == log[q];
  }

  /** Insertion order is the order of first occurrence. */
  lemma {:induction false} KeysInOrder<K, V>(log: seq<(K, V)>, i: nat, j: nat)
    requires i < j < |Keys(log)|
    ensures OccursFirst(log, Keys(log)[i], Keys(log)[j])
  {
    var n := |log| - 1;
    var rest := Keys(log[..n]);
    SplitLast(log);
    KeysDistinct(log[..n]);
    if j < |rest| {
      KeysInOrder(log[..n], i, j);
    } else {
      assert rest[i] in rest;
      var p :| 0 <= p < |log[..n]| && log[..n][p].0 == rest[i];
      assert forall q | 0 <= q <= p :: log[..n][q].0 in rest;
      assert OccursFirst(log[..n], rest[i], log[n].0);
    }
    OccursFirstSnoc(log[..n], log[n], Keys(log)[i], Keys(log)[j]);
  }

  lemma {:induction false} AtEmpty<K, V>(log: seq<(K, V)>, k: K)
    requires forall i | 0 <= i < |log| :: log[i].0 != k
    ensures At(log, k) == []
  {
    if log != [] {
      AtEmpty(log[..|log|-1], k);
    }
  }

  lemma {:induction false} AtMember<K, V>(log: seq<(K, V)>, k: K, v: V)
    ensures v in At(log, k) <==> exists i :: 0 <= i < |log| && log[i] == (k, v)
  {
    if log != [] {
      var n := |log| - 1;
      AtMember(log[..n], k, v);
      if v in At(log[..n], k) {
        var i :| 0 <= i < |log[..n]| && log[..n][i] == (k, v);
        assert log[i] == (k, v);
      }
      if i :| 0 <= i < |log| && log[i] == (k, v) {
        assert i < n ==> log[..n][i] == (k, v);
      }
    }
  }

  lemma {:induction false} ListsSnocKey<K, V>(log: seq<(K, V)>, keys: seq<K>, k: K)
    ensures Lists(log, keys + [k]) == Lists(log, keys) + [At(log, k)]
  {
    assert (keys + [k])[..|keys|] == keys;
  }

  lemma {:induction false} ListsIndex<K, V>(log: seq<(K, V)>, keys: seq<K>)
    ensures |Lists(log, keys)| == |keys|
    ensures forall i | 0 <= i < |keys| :: Lists(log, keys)[i] == At(log, keys[i])
  {
    if keys != [] {
      ListsIndex(log, keys[..|keys|-1]);
    }
  }

  /** Appending one entry lands in exactly one list. */
  lemma {:induction false} ListsSnocEntry<K, V>(log: seq<(K, V)>, keys: seq<K>, k: K, v: V)
    requires Distinct(keys)
    ensures multiset(Concat(Lists(log + [(k, v)], keys)))
         == multiset(Concat(Lists(log, keys))) + if k in keys then multiset{v} else multiset{}
  {
    if keys != [] {
      var n := |keys| - 1;
      SplitLast(keys);
      ListsSnocEntry(log, keys[..n], k, v);
      AtSnocMultiset(log, k, v, keys[n]);
      ListsParts(log + [(k, v)], keys);
      ListsParts(log, keys);
      assert k == keys[n] ==> k !in keys[..n];
    }
  }

  lemma {:induction false} ListsParts<K, V>(log: seq<(K, V)>, keys: seq<K>)
    requires keys != []
    ensures var n := |keys| - 1;
      multiset(Concat(Lists(log, keys))) == multiset(Concat(Lists(log, keys[..n]))) + multiset(At(log, keys[n]))
  {
    ConcatMultiset(Lists(log, keys[..|keys|-1]), At(log, keys[|keys|-1]));
  }

  lemma {:induction false} AtSnocMultiset<K, V>(log: seq<(K, V)>, k: K, v: V, q: K)
    ensures multiset(At(log + [(k, v)], q)) == multiset(At(log, q)) + if k == q then multiset{v} else multiset{}
  {
    AtSnoc(log, k, v, q);
  }

  lemma {:induction false} ConcatMultiset<T>(ss: seq<seq<T>>, s: seq<T>)
    ensures multiset(Concat(ss + [s])) == multiset(Concat(ss)) + multiset(s)
  {
    ConcatOne(ss, s);
  }

  lemma {:induction false} ConcatOne<T>(ss: seq<seq<T>>, s: seq<T>)
    ensures Concat(ss + [s]) == Concat(ss) + s
  {
    assert (ss + [s])[..|ss|] == ss;
  }

  /** Grouping loses nothing and duplicates nothing. */
  lemma {:induction false} ListsConserve<K, V>(log: seq<(K, V)>)
    ensures multiset(Concat(Lists(log, Keys(log)))) == multiset(Values(log))
  {
    if log != [] {
      var n := |log| - 1;
      var k, v := log[n].0, log[n].1;
      assert log == log[..n] + [(k, v)];
      ListsConserve(log[..n]);
      KeysSnoc(log[..n], k, v);
      KeysDistinct(log[..n]);
      ListsSnocEntry(log[..n], Keys(log[..n]), k, v);
      if k !in Keys(log[..n]) {
        AtEmpty(log[..n], k);
        AtSnoc(log[..n], k, v, k);
        ListsSnocKey(log, Keys(log[..n]), k);
        ConcatOne(Lists(log, Keys(log[..n])), At(log, k));
      }
    }
  }

  class ListDict<K(==,!new), V> {
    var keys: seq<K>
    var lists: map<K, seq<V>>
    ghost var log: seq<(K, V)>

    ghost predicate Valid()
      reads this
    {
      && keys == Keys(log)
      && (forall k :: k in keys <==> k in lists)
      && (forall k | k in lists :: lists[k] == At(log, k))
    }

    constructor ()
      ensures Valid() && log == []
    {
      keys, lists, log := [], map[], [];
    }

    /** `d[k].append(v)` */
    method Append(k: K, v: V)
      requires Valid()
      modifies this
      ensures Valid() && log == old(log) + [(k, v)]
    {
      KeysSnoc(log, k, v);
      forall q ensures At(log + [(k, v)], q) == if k == q then At(log, q) + [v] else At(log, q) {
        AtSnoc(log, k, v, q);
      }
      if k in lists {
        lists := lists[k := lists[k] + [v]];
      } else {
        KeysDistinct(log);
        AtEmpty(log, k);
        keys := keys + [k];
        lists := lists[k := [v]];
      }
      log := log + [(k, v)];
    }
  }
}
