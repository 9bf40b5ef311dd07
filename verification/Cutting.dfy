/** Cutting a list at marked positions. */
module Cutting {
  import opened Seqs

  /** The pieces of s, a new one beginning at every marked position. */
  function Cut<T>(s: seq<T>, marks: seq<bool>): (r: seq<seq<T>>)
    requires |marks| == |s|
    ensures r == [] <==> s == []
  {
    if s == [] then []
    else
      var n := |s| - 1;
      var rest := Cut(s[..n], marks[..n]);
      if rest == [] || marks[n] then rest + [[s[n]]]
      else rest[..|rest|-1] + [rest[|rest|-1] + [s[n]]]
  }

  /** From one mark, or the beginning, to another, or the end. */
  predicate Span(marks: seq<bool>, a: int, b: int) {
    0 <= a < b <= |marks| && (a == 0 || marks[a]) && (b == |marks| || marks[b])
  }

  lemma {:induction false} SliceOfTake<T>(s: seq<T>, n: nat, a: nat, b: nat)
    requires a <= b <= n <= |s|
    ensures s[..n][a..b] == s[a..b]
    ensures b == n < |s| ==> s[a..b] + [s[n]] == s[a..n+1]
  {
  }

  lemma {:induction false} SpanOfTake(marks: seq<bool>, n: nat, a: nat, b: nat)
    requires n < |marks| && a < b <= n && Span(marks[..n], a, b)
    ensures b < n || marks[n] ==> Span(marks, a, b)
    ensures b == n == |marks| - 1 ==> Span(marks, a, n + 1)
  {
  }

  /** Each piece is a span without marks inside; the last one, and only it, reaches the end. */
  lemma {:induction false} PieceIsSpan<T>(s: seq<T>, marks: seq<bool>, m: nat) returns (a: nat, b: nat)
    requires |marks| == |s| && m < |Cut(s, marks)|
    ensures Span(marks, a, b) && Cut(s, marks)[m] == s[a..b]
    ensures forall i | a < i < b :: !marks[i]
    ensures b == |s| <==> m == |Cut(s, marks)| - 1
  {
    var n := |s| - 1;
    var rest := Cut(s[..n], marks[..n]);
    if m == |rest| {
      a, b := n, n + 1;
    } else {
      a, b := PieceIsSpan(s[..n], marks[..n], m);
      SliceOfTake(s, n, a, b);
      SpanOfTake(marks, n, a, b);
      if b == n && !marks[n] {
        b := n + 1;
      }
    }
  }

  /** Every span contains a whole piece. */
  lemma {:induction false} SpanHoldsPiece<T>(s: seq<T>, marks: seq<bool>, a: nat, b: nat)
    returns (m: nat, x: nat, y: nat)
    requires |marks| == |s| && Span(marks, a, b)
    ensures m < |Cut(s, marks)| && a <= x < y <= b && Cut(s, marks)[m] == s[x..y]
    ensures y == |s| <==> m == |Cut(s, marks)| - 1
  {
    var n := |s| - 1;
    var rest := Cut(s[..n], marks[..n]);
    if a == n {
      m, x, y := |rest|, n, n + 1;
    } else {
      m, x, y := SpanHoldsPiece(s[..n], marks[..n], a, if b <= n then b else n);
      SliceOfTake(s, n, x, y);
      if y == n && !marks[n] {
        y := n + 1;
      }
    }
  }

  /** Without marks after the first position there is one piece. */
  lemma {:induction false} Uncut<T>(s: seq<T>, marks: seq<bool>)
    requires |marks| == |s| > 0 && forall i | 0 < i < |s| :: !marks[i]
    ensures Cut(s, marks) == [s]
  {
    var n := |s| - 1;
    SplitLast(s);
    if n > 0 {
      Uncut(s[..n], marks[..n]);
    } else {
      assert s == [s[0]];
    }
  }
}
