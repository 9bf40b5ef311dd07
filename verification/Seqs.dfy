/** Sequence tools the programs lean on: Python's stable sort, filters, concatenation. */
module Seqs {
  import opened Basics

  // ------------------------------------------------------------- taking a list apart

  lemma {:induction false} SplitLast<T>(s: seq<T>)
    requires s != []
    ensures s == s[..|s|-1] + [s[|s|-1]]
  {
  }

  lemma {:induction false} TakeNext<T>(s: seq<T>, i: nat)
    requires i < |s|
    ensures s[..i+1] == s[..i] + [s[i]]
    ensures s[..i+1][..i] == s[..i]
  {
  }

  lemma {:induction false} TakeAll<T>(s: seq<T>)
    ensures s[..|s|] == s
  {
  }

  lemma {:induction false} SplitAt<T>(s: seq<T>, i: nat)
    requires i <= |s|
    ensures s == s[..i] + s[i..]
  {
  }

  lemma {:induction false} SnocParts<T>(s: seq<T>, x: T)
    ensures (s + [x])[..|s|] == s && (s + [x])[|s|] == x
  {
  }

  lemma {:induction false} TakeWithin<T>(s: seq<T>, i: nat, n: nat)
    requires i <= n <= |s|
    ensures s[..n][..i] == s[..i]
  {
  }

  lemma {:induction false} TakeOfSnoc<T>(s: seq<T>, x: T, a: nat)
    requires a < |s|
    ensures (s + [x])[..a] == s[..a] && (s + [x])[a] == s[a]
  {
  }

  lemma {:induction false} AppendSnoc<T>(a: seq<T>, b: seq<T>)
    requires b != []
    ensures a + b == (a + b[..|b|-1]) + [b[|b|-1]]
  {
  }

  lemma {:induction false} AppendAssociates<T>(a: seq<T>, b: seq<T>, c: seq<T>)
    ensures (a + b) + c == a + (b + c)
  {
  }

  // ---------------------------------------------------------------- stable sort

  ghost predicate TotalPreorder<T(!new)>(leq: (T, T) -> bool) {
    && (forall a, b :: leq(a, b) || leq(b, a))
    && (forall a, b, c :: leq(a, b) && leq(b, c) ==> leq(a, c))
  }

  ghost predicate Antisymmetric<T(!new)>(leq: (T, T) -> bool) {
    forall a, b :: leq(a, b) && leq(b, a) ==> a == b
  }

  ghost predicate Sorted<T>(leq: (T, T) -> bool, s: seq<T>) {
    forall i, j :: 0 <= i < j < |s| ==> leq(s[i], s[j])
  }

  /** Puts x after every element that is not greater: the stable position. */
  function Insert<T>(leq: (T, T) -> bool, s: seq<T>, x: T): (r: seq<T>)
    ensures |r| == |s| + 1
    decreases |s|
  {
    if s == [] || leq(s[|s|-1], x) then s + [x]
    else Insert(leq, s[..|s|-1], x) + [s[|s|-1]]
  }

  /** `sorted(s, key=...)`: ascending, equal keys keep their order. */
  function SortBy<T>(leq: (T, T) -> bool, s: seq<T>): (r: seq<T>)
    ensures |r| == |s|
    decreases |s|
  {
    if s == [] then [] else Insert(leq, SortBy(leq, s[..|s|-1]), s[|s|-1])
  }

  lemma {:induction false} InsertPermutes<T>(leq: (T, T) -> bool, s: seq<T>, x: T)
    ensures multiset(Insert(leq, s, x)) == multiset(s) + multiset{x}
    decreases |s|
  {
    if s != [] && !leq(s[|s|-1], x) {
      InsertPermutes(leq, s[..|s|-1], x);
      assert s == s[..|s|-1] + [s[|s|-1]];
    }
  }

  lemma {:induction false} SameElements<T(!new)>(a: seq<T>, b: seq<T>)
    requires multiset(a) == multiset(b)
    ensures forall x :: x in a <==> x in b
  {
    forall x ensures x in a <==> x in b {
      assert x in multiset(a) <==> x in a;
      assert x in multiset(b) <==> x in b;
    }
  }

  lemma {:induction false} SortPermutes<T(!new)>(leq: (T, T) -> bool, s: seq<T>)
    ensures multiset(SortBy(leq, s)) == multiset(s)
    ensures forall x :: x in SortBy(leq, s) <==> x in s
    decreases |s|
  {
    if s != [] {
      SortPermutes(leq, s[..|s|-1]);
      InsertPermutes(leq, SortBy(leq, s[..|s|-1]), s[|s|-1]);
      SplitLast(s);
    }
    SameElements(SortBy(leq, s), s);
  }

  lemma {:induction false} InsertSorted<T(!new)>(leq: (T, T) -> bool, s: seq<T>, x: T)
    requires TotalPreorder(leq) && Sorted(leq, s)
    ensures Sorted(leq, Insert(leq, s, x))
    decreases |s|
  {
    if s != [] && !leq(s[|s|-1], x) {
      var n := |s| - 1;
      InsertSorted(leq, s[..n], x);
      InsertPermutes(leq, s[..n], x);
      var r := Insert(leq, s[..n], x);
      forall i | 0 <= i < |r| ensures leq(r[i], s[n]) {
        assert r[i] in multiset(r);
        assert r[i] == x || r[i] in s[..n];
      }
    }
  }

  lemma {:induction false} SortBySorted<T(!new)>(leq: (T, T) -> bool, s: seq<T>)
    requires TotalPreorder(leq)
    ensures Sorted(leq, SortBy(leq, s))
    decreases |s|
  {
    if s != [] {
      SortBySorted(leq, s[..|s|-1]);
      InsertSorted(leq, SortBy(leq, s[..|s|-1]), s[|s|-1]);
    }
  }

  lemma {:induction false} SortOfSorted<T>(leq: (T, T) -> bool, s: seq<T>)
    requires Sorted(leq, s)
    ensures SortBy(leq, s) == s
    decreases |s|
  {
    if s != [] {
      var n := |s| - 1;
      SortOfSorted(leq, s[..n]);
      assert n > 0 ==> leq(s[n-1], s[n]);
      assert s[..n] + [s[n]] == s;
    }
  }

  lemma {:induction false} InsertAfter<T>(leq: (T, T) -> bool, a: seq<T>, b: seq<T>, x: T)
    requires forall y | y in a :: leq(y, x)
    ensures Insert(leq, a + b, x) == a + Insert(leq, b, x)
    decreases |b|
  {
    if b == [] {
      assert a + b == a;
    } else {
      var n := |b| - 1;
      assert (a + b)[..|a+b|-1] == a + b[..n];
      if !leq(b[n], x) {
        InsertAfter(leq, a, b[..n], x);
      }
    }
  }

  /** Later items sort behind earlier ones without disturbing them. */
  lemma {:induction false} SortAppend<T(!new)>(leq: (T, T) -> bool, a: seq<T>, b: seq<T>)
    requires forall x, y | x in a && y in b :: leq(x, y)
    ensures SortBy(leq, a + b) == SortBy(leq, a) + SortBy(leq, b)
    decreases |b|
  {
    if b == [] {
      assert a + b == a;
    } else {
      var n := |b| - 1;
      assert (a + b)[..|a+b|-1] == a + b[..n];
      SortAppend(leq, a, b[..n]);
      SortPermutes(leq, a);
      assert forall y | y in SortBy(leq, a) :: leq(y, b[n]);
      InsertAfter(leq, SortBy(leq, a), SortBy(leq, b[..n]), b[n]);
    }
  }

  /** Under a total order, two sorted arrangements of one multiset coincide. */
  lemma {:induction false} SortedUnique<T(!new)>(leq: (T, T) -> bool, a: seq<T>, b: seq<T>)
    requires Antisymmetric(leq)
    requires Sorted(leq, a) && Sorted(leq, b) && multiset(a) == multiset(b)
    ensures a == b
    decreases |a|
  {
    assert |a| == |multiset(a)| == |multiset(b)| == |b|;
    if a != [] {
      var n := |a| - 1;
      LastAgrees(leq, a, b);
      DropLast(a);
      DropLast(b);
      SortedUnique(leq, a[..n], b[..n]);
      assert a == b;
    }
  }

  lemma {:induction false} DropLast<T(!new)>(s: seq<T>)
    requires s != []
    ensures multiset(s[..|s|-1]) == multiset(s) - multiset{s[|s|-1]}
  {
    assert s == s[..|s|-1] + [s[|s|-1]];
  }

  lemma {:induction false} LastAgrees<T(!new)>(leq: (T, T) -> bool, a: seq<T>, b: seq<T>)
    requires Antisymmetric(leq)
    requires Sorted(leq, a) && Sorted(leq, b) && multiset(a) == multiset(b)
    requires |a| == |b| > 0
    ensures a[|a|-1] == b[|b|-1]
  {
    var x, y := a[|a|-1], b[|b|-1];
    assert x in multiset(b) && y in multiset(a);
    var i :| 0 <= i < |b| && b[i] == x;
    var j :| 0 <= j < |a| && a[j] == y;
    assert i == |b|-1 || leq(x, y);
    assert j == |a|-1 || leq(y, x);
  }

  // --------------------------------------------------------------------- filter

  lemma {:induction false} SortedSnoc<T>(leq: (T, T) -> bool, s: seq<T>, x: T)
    requires Sorted(leq, s) && forall y | y in s :: leq(y, x)
    ensures Sorted(leq, s + [x])
  {
  }

  /** Keeping some of a sorted list keeps it sorted. */
  lemma {:induction false} SortedKept<T>(leq: (T, T) -> bool, p: T -> bool, s: seq<T>)
    requires Sorted(leq, s)
    ensures Sorted(leq, Filter(p, s))
  {
    if s != [] {
      var n := |s| - 1;
      assert forall i, j | 0 <= i < j < n :: s[..n][i] == s[i] && s[..n][j] == s[j];
      SortedKept(leq, p, s[..n]);
      forall y | y in Filter(p, s[..n]) ensures leq(y, s[n]) {
        var i :| 0 <= i < n && s[..n][i] == y;
        assert s[i] == y;
      }
      SortedSnoc(leq, Filter(p, s[..n]), s[n]);
    }
  }

  function Filter<T>(p: T -> bool, s: seq<T>): (r: seq<T>)
    ensures forall x | x in r :: p(x) && x in s
    ensures forall x | x in s && p(x) :: x in r
    ensures |r| <= |s|
  {
    if s == [] then []
    else
      var n := |s| - 1;
      assert s == s[..n] + [s[n]];
      if p(s[n]) then Filter(p, s[..n]) + [s[n]] else Filter(p, s[..n])
  }

  lemma {:induction false} FilterAppend<T>(p: T -> bool, a: seq<T>, b: seq<T>)
    ensures Filter(p, a + b) == Filter(p, a) + Filter(p, b)
    decreases |b|
  {
    if b == [] {
      assert a + b == a;
    } else {
      var n := |b| - 1;
      assert (a + b)[..|a+b|-1] == a + b[..n];
      FilterAppend(p, a, b[..n]);
    }
  }

  lemma {:induction false} FilterAll<T>(p: T -> bool, s: seq<T>)
    requires forall x | x in s :: p(x)
    ensures Filter(p, s) == s
  {
    if s != [] {
      var n := |s| - 1;
      FilterAll(p, s[..n]);
      assert s == s[..n] + [s[n]];
    }
  }

  lemma {:induction false} FilterNone<T>(p: T -> bool, s: seq<T>)
    requires forall x | x in s :: !p(x)
    ensures Filter(p, s) == []
  {
    if s != [] {
      FilterNone(p, s[..|s|-1]);
    }
  }

  lemma {:induction false} FilterMultiset<T(!new)>(p: T -> bool, a: seq<T>, b: seq<T>)
    requires multiset(a) == multiset(b)
    ensures multiset(Filter(p, a)) == multiset(Filter(p, b))
  {
    var fa, fb := multiset(Filter(p, a)), multiset(Filter(p, b));
    forall x ensures fa[x] == fb[x] {
      FilterCount(p, a, x);
      FilterCount(p, b, x);
    }
    assert fa == fb;
  }

  lemma {:induction false} FilterCount<T>(p: T -> bool, s: seq<T>, x: T)
    ensures multiset(Filter(p, s))[x] == if p(x) then multiset(s)[x] else 0
  {
    if s != [] {
      var n := |s| - 1;
      FilterCount(p, s[..n], x);
      assert s == s[..n] + [s[n]];
    }
  }

  lemma {:induction false} FilterSnoc<T>(p: T -> bool, s: seq<T>, x: T)
    ensures Filter(p, s + [x]) == if p(x) then Filter(p, s) + [x] else Filter(p, s)
  {
    assert (s + [x])[..|s + [x]| - 1] == s;
  }

  lemma {:induction false} FilterOne<T>(p: T -> bool, x: T)
    ensures Filter(p, [x]) == if p(x) then [x] else []
  {
    assert [x][..0] == [];
  }

  lemma {:induction false} FilterPair<T>(p: T -> bool, x: T, y: T)
    requires p(x) && !p(y)
    ensures Filter(p, [x, y]) == [x]
  {
    FilterOne(p, x);
    FilterSnoc(p, [x], y);
    assert [x, y] == [x] + [y];
  }

  lemma {:induction false} FilterThree<T>(p: T -> bool, x: T, y: T, z: T)
    requires p(x) && !p(y) && p(z)
    ensures Filter(p, [x, y, z]) == [x, z]
  {
    FilterPair(p, x, y);
    FilterSnoc(p, [x, y], z);
    assert [x, y, z] == [x, y] + [z];
  }

  /** x belongs behind everything in s, and so behind everything kept from it. */
  lemma {:induction false} InsertAtEnd<T>(leq: (T, T) -> bool, p: T -> bool, s: seq<T>, x: T)
    requires forall y | y in s :: leq(y, x)
    ensures Insert(leq, s, x) == s + [x]
    ensures Insert(leq, Filter(p, s), x) == Filter(p, s) + [x]
  {
    var f := Filter(p, s);
    assert f != [] ==> f[|f|-1] in f;
    assert s != [] ==> s[|s|-1] in s;
  }

  /** x belongs before the last element, kept or not. */
  lemma {:induction false} InsertBeforeLast<T>(leq: (T, T) -> bool, f: seq<T>, last: T, x: T)
    requires !leq(last, x)
    ensures Insert(leq, f + [last], x) == Insert(leq, f, x) + [last]
  {
    assert (f + [last])[..|f + [last]| - 1] == f;
  }

  lemma {:induction false} FilterInsert<T(!new)>(leq: (T, T) -> bool, p: T -> bool, s: seq<T>, x: T)
    requires TotalPreorder(leq) && Sorted(leq, s)
    ensures Filter(p, Insert(leq, s, x)) == if p(x) then Insert(leq, Filter(p, s), x) else Filter(p, s)
    decreases |s|
  {
    if s == [] || leq(s[|s|-1], x) {
      forall y | y in s ensures leq(y, x) {
        var i :| 0 <= i < |s| && s[i] == y;
        assert i == |s|-1 || leq(s[i], s[|s|-1]);
      }
      InsertAtEnd(leq, p, s, x);
      FilterSnoc(p, s, x);
    } else {
      var n := |s| - 1;
      FilterInsert(leq, p, s[..n], x);
      FilterSnoc(p, Insert(leq, s[..n], x), s[n]);
      InsertBeforeLast(leq, Filter(p, s[..n]), s[n], x);
    }
  }

  /** Keeping some rows and then sorting is the same as sorting and then keeping them. */
  lemma {:induction false} FilterOfSort<T(!new)>(leq: (T, T) -> bool, p: T -> bool, s: seq<T>)
    requires TotalPreorder(leq)
    ensures Filter(p, SortBy(leq, s)) == SortBy(leq, Filter(p, s))
    decreases |s|
  {
    if s != [] {
      var n := |s| - 1;
      FilterOfSort(leq, p, s[..n]);
      SortBySorted(leq, s[..n]);
      FilterInsert(leq, p, SortBy(leq, s[..n]), s[n]);
      if p(s[n]) {
        assert Filter(p, s)[..|Filter(p, s)|-1] == Filter(p, s[..n]);
      }
    }
  }

  lemma {:induction false} FilterSame<T>(p: T -> bool, q: T -> bool, s: seq<T>)
    requires forall x | x in s :: p(x) == q(x)
    ensures Filter(p, s) == Filter(q, s)
  {
    if s != [] {
      SplitLast(s);
      FilterSame(p, q, s[..|s|-1]);
    }
  }

  /** Filters that agree where another one keeps something agree before it. */
  lemma {:induction false} FilterSameWithin<T>(p: T -> bool, p': T -> bool, q: T -> bool, s: seq<T>)
    requires forall x | x in s && q(x) :: p(x) == p'(x)
    ensures Filter(q, Filter(p, s)) == Filter(q, Filter(p', s))
  {
    if s != [] {
      var n := |s| - 1;
      SplitLast(s);
      FilterSameWithin(p, p', q, s[..n]);
      FilterSnoc(q, Filter(p, s[..n]), s[n]);
      FilterSnoc(q, Filter(p', s[..n]), s[n]);
    }
  }

  /** Where an element of a filtered list was, and what was kept before it. */
  lemma {:induction false} FilterIndex<T>(p: T -> bool, s: seq<T>, a: nat) returns (i: nat)
    requires a < |Filter(p, s)|
    ensures i < |s| && Filter(p, s)[a] == s[i] && Filter(p, s)[..a] == Filter(p, s[..i])
    decreases |s|
  {
    var n := |s| - 1;
    SplitLast(s);
    if a < |Filter(p, s[..n])| {
      i := FilterIndex(p, s[..n], a);
      TakeWithin(s, i, n);
      TakeOfKept(p, s, a);
    } else {
      i := n;
      SnocParts(Filter(p, s[..n]), s[n]);
    }
  }

  lemma {:induction false} TakeOfKept<T>(p: T -> bool, s: seq<T>, a: nat)
    requires s != [] && a < |Filter(p, s[..|s|-1])|
    ensures var before := Filter(p, s[..|s|-1]);
      a < |Filter(p, s)| && Filter(p, s)[..a] == before[..a] && Filter(p, s)[a] == before[a]
  {
    TakeOfSnoc(Filter(p, s[..|s|-1]), s[|s|-1], a);
  }

  lemma {:induction false} FiltersCommute<T>(p: T -> bool, q: T -> bool, s: seq<T>)
    ensures Filter(p, Filter(q, s)) == Filter(q, Filter(p, s))
  {
    if s != [] {
      var n := |s| - 1;
      FiltersCommute(p, q, s[..n]);
      FilterSnoc(p, Filter(q, s[..n]), s[n]);
      FilterSnoc(q, Filter(p, s[..n]), s[n]);
    }
  }

  lemma {:induction false} AllKept<T>(p: T -> bool, q: T -> bool, s: seq<T>)
    requires forall x | x in s :: p(x) && !q(x)
    ensures s == Filter(p, s) + Filter(q, s)
  {
    FilterAll(p, s);
    FilterNone(q, s);
  }

  lemma {:induction false} LastLeft<T>(p: T -> bool, q: T -> bool, s: seq<T>, x: T)
    requires s == Filter(p, s) + Filter(q, s) && !p(x) && q(x)
    ensures s + [x] == Filter(p, s + [x]) + Filter(q, s + [x])
  {
    FilterSnoc(p, s, x);
    FilterSnoc(q, s, x);
  }

  /** On a sorted list, a property that holds downwards cuts the list in two. */
  lemma {:induction false} SplitDownClosed<T(!new)>(leq: (T, T) -> bool, p: T -> bool, q: T -> bool, s: seq<T>)
    requires Sorted(leq, s)
    requires forall x :: q(x) <==> !p(x)
    requires forall x, y :: leq(x, y) && p(y) ==> p(x)
    ensures s == Filter(p, s) + Filter(q, s)
  {
    if s != [] {
      var n := |s| - 1;
      assert s == s[..n] + [s[n]];
      if p(s[n]) {
        forall x | x in s ensures p(x) && !q(x) {
          var i :| 0 <= i < |s| && s[i] == x;
          assert i == n || leq(s[i], s[n]);
        }
        AllKept(p, q, s);
      } else {
        SplitDownClosed(leq, p, q, s[..n]);
        LastLeft(p, q, s[..n], s[n]);
      }
    }
  }

  // ------------------------------------------------------------------------ minimum

  /** `min(s, key=...)`: the first element of least key. */
  function FirstLeast<T>(key: T -> real, s: seq<T>): Option<T> {
    if s == [] then None
    else match FirstLeast(key, s[..|s|-1])
      case None => Some(s[|s|-1])
      case Some(b) => if key(s[|s|-1]) < key(b) then Some(s[|s|-1]) else Some(b)
  }

  lemma {:induction false} FirstLeastIsLeast<T>(key: T -> real, s: seq<T>)
    ensures FirstLeast(key, s).None? <==> s == []
    ensures var r := FirstLeast(key, s);
      r.Some? ==> r.value in s && forall x | x in s :: key(r.value) <= key(x)
  {
    if s != [] {
      SplitLast(s);
      FirstLeastIsLeast(key, s[..|s|-1]);
    }
  }

  // ------------------------------------------------------------- counting, adding up

  function CountIf<T>(p: T -> bool, s: seq<T>): nat {
    if s == [] then 0 else CountIf(p, s[..|s|-1]) + if p(s[|s|-1]) then 1 else 0
  }

  function Sum(xs: seq<real>): real {
    if xs == [] then 0.0 else Sum(xs[..|xs|-1]) + xs[|xs|-1]
  }

  function Map<T>(f: T -> real, s: seq<T>): (r: seq<real>)
    ensures |r| == |s| && forall i | 0 <= i < |s| :: r[i] == f(s[i])
  {
    seq(|s|, i requires 0 <= i < |s| => f(s[i]))
  }

  function SumBy<T>(f: T -> real, s: seq<T>): real {
    if s == [] then 0.0 else SumBy(f, s[..|s|-1]) + f(s[|s|-1])
  }

  lemma {:induction false} CountIsFilter<T(!new)>(p: T -> bool, s: seq<T>)
    ensures CountIf(p, s) == |Filter(p, s)|
  {
    if s != [] {
      CountIsFilter(p, s[..|s|-1]);
    }
  }

  lemma {:induction false} CountPermutes<T(!new)>(p: T -> bool, a: seq<T>, b: seq<T>)
    requires multiset(a) == multiset(b)
    ensures CountIf(p, a) == CountIf(p, b)
  {
    FilterMultiset(p, a, b);
    CountIsFilter(p, a);
    CountIsFilter(p, b);
    assert |multiset(Filter(p, a))| == |multiset(Filter(p, b))|;
  }

  lemma {:induction false} CountAppend<T>(p: T -> bool, a: seq<T>, b: seq<T>)
    ensures CountIf(p, a + b) == CountIf(p, a) + CountIf(p, b)
    decreases |b|
  {
    if b == [] {
      assert a + b == a;
    } else {
      assert (a + b)[..|a+b|-1] == a + b[..|b|-1];
      CountAppend(p, a, b[..|b|-1]);
    }
  }

  lemma {:induction false} CountAllOrNone<T>(p: T -> bool, s: seq<T>)
    ensures (forall x | x in s :: p(x)) ==> CountIf(p, s) == |s|
    ensures (forall x | x in s :: !p(x)) ==> CountIf(p, s) == 0
  {
    if s != [] {
      CountAllOrNone(p, s[..|s|-1]);
      assert s == s[..|s|-1] + [s[|s|-1]];
    }
  }

  lemma {:induction false} SumByAppend<T>(f: T -> real, a: seq<T>, b: seq<T>)
    ensures SumBy(f, a + b) == SumBy(f, a) + SumBy(f, b)
    decreases |b|
  {
    if b == [] {
      assert a + b == a;
    } else {
      assert (a + b)[..|a+b|-1] == a + b[..|b|-1];
      SumByAppend(f, a, b[..|b|-1]);
    }
  }

  lemma {:induction false} SumByDrop<T>(f: T -> real, s: seq<T>, i: nat)
    requires i < |s|
    ensures SumBy(f, s) == SumBy(f, s[..i] + s[i+1..]) + f(s[i])
  {
    assert s == s[..i] + [s[i]] + s[i+1..];
    assert [s[i]][..0] == [];
    SumByAppend(f, s[..i] + [s[i]], s[i+1..]);
    SumByAppend(f, s[..i], [s[i]]);
    SumByAppend(f, s[..i], s[i+1..]);
  }

  /** Exact addition does not care about order. */
  lemma {:induction false} SumByPermutes<T(!new)>(f: T -> real, a: seq<T>, b: seq<T>)
    requires multiset(a) == multiset(b)
    ensures SumBy(f, a) == SumBy(f, b)
    decreases |a|
  {
    assert |multiset(a)| == |a| && |multiset(b)| == |b|;
    if a != [] {
      var n := |a| - 1;
      assert a[n] in multiset(b);
      var i :| 0 <= i < |b| && b[i] == a[n];
      DropLast(a);
      assert b == b[..i] + [b[i]] + b[i+1..];
      SumByPermutes(f, a[..n], b[..i] + b[i+1..]);
      SumByDrop(f, b, i);
    }
  }

  lemma {:induction false} SumByAgrees<T>(f: T -> real, g: T -> real, s: seq<T>)
    requires forall x | x in s :: f(x) == g(x)
    ensures SumBy(f, s) == SumBy(g, s)
  {
    if s != [] {
      SumByAgrees(f, g, s[..|s|-1]);
    }
  }

  lemma {:induction false} SumIsSumBy(xs: seq<real>)
    ensures Sum(xs) == SumBy((x: real) => x, xs)
  {
    if xs != [] {
      SumIsSumBy(xs[..|xs|-1]);
    }
  }

  lemma {:induction false} SumAppend(a: seq<real>, b: seq<real>)
    ensures Sum(a + b) == Sum(a) + Sum(b)
    decreases |b|
  {
    if b == [] {
      assert a + b == a;
    } else {
      assert (a + b)[..|a+b|-1] == a + b[..|b|-1];
      SumAppend(a, b[..|b|-1]);
    }
  }

  lemma {:induction false} SumPermutes(a: seq<real>, b: seq<real>)
    requires multiset(a) == multiset(b)
    ensures Sum(a) == Sum(b)
  {
    SumIsSumBy(a);
    SumIsSumBy(b);
    SumByPermutes((x: real) => x, a, b);
  }

  // --------------------------------------------------------------- concatenation

  function Concat<T>(ss: seq<seq<T>>): seq<T> {
    if ss == [] then [] else Concat(ss[..|ss|-1]) + ss[|ss|-1]
  }

  lemma {:induction false} ConcatAppend<T>(a: seq<seq<T>>, b: seq<seq<T>>)
    ensures Concat(a + b) == Concat(a) + Concat(b)
    decreases |b|
  {
    if b == [] {
      assert a + b == a;
    } else {
      var n := |b| - 1;
      assert (a + b)[..|a+b|-1] == a + b[..n];
      ConcatAppend(a, b[..n]);
    }
  }
}
