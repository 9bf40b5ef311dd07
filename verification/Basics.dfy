/** Small shared vocabulary: optional values and Python's rounding on exact numbers. */
module Basics {

  datatype Option<+T> = None | Some(value: T) {
    predicate IsFailure() { None? }
    function PropagateFailure<U>(): Option<U>
      requires None?
    { None }
    function Extract(): T
      requires Some?
    { value }
  }

  function Abs(x: int): (r: nat)
    ensures r == x || r == -x
  {
    if x < 0 then -x else x
  }

  function Min(x: int, y: int): int {
    if x <= y then x else y
  }

  function Max(x: int, y: int): int {
    if x >= y then x else y
  }

  function MinReal(a: real, b: real): real {
    if a <= b then a else b
  }

  function MaxReal(a: real, b: real): real {
    if a >= b then a else b
  }

  /** `round(total / n)` on integers: nearest integer, ties to even. */
  function RoundDiv(total: int, n: int): (q: int)
    requires n > 0
    ensures 2 * Abs(n * q - total) <= n
  {
    var q := total / n;
    var r := total % n;
    assert total == n * q + r;
    assert n * (q + 1) == n * q + n;
    if 2 * r < n then q
    else if 2 * r > n then q + 1
    else if q % 2 == 0 then q
    else q + 1
  }

  lemma {:induction false} MulAtLeast(n: int, d: int)
    requires n > 0
    ensures d >= 1 ==> n * d >= n
    ensures d <= -1 ==> n * d <= -n
  {
    if d >= 1 {
      assert n * d == n + n * (d - 1);
    } else if d <= -1 {
      assert n * d == -n + n * (d + 1);
    }
  }

  /** Rounding a whole quotient is the identity. */
  lemma {:induction false} RoundDivExact(q: int, n: int)
    requires n > 0
    ensures RoundDiv(n * q, n) == q
  {
    var d := RoundDiv(n * q, n) - q;
    assert n * d == n * RoundDiv(n * q, n) - n * q;
    MulAtLeast(n, d);
  }

  /** `round(x, 2)` of a price given in whole 1e-4 units. */
  function ToCent(x: int): int {
    100 * RoundDiv(x, 100)
  }

  lemma {:induction false} ToCentFacts(x: int)
    ensures ToCent(x) % 100 == 0 && x - 50 <= ToCent(x) <= x + 50
    ensures x % 100 == 0 <==> ToCent(x) == x
  {
    if x % 100 == 0 {
      RoundDivExact(x / 100, 100);
    }
  }

  /** `round(x, k)` for scale == 10^k on exact reals: nearest grid point, ties to even. */
  function RoundTo(x: real, scale: nat): real
    requires scale > 0
  {
    NearestInt(x * scale as real) as real / scale as real
  }

  function NearestInt(y: real): int {
    var f := y.Floor;
    var d := y - f as real;
    if d < 0.5 then f
    else if d > 0.5 then f + 1
    else if f % 2 == 0 then f
    else f + 1
  }

  /** Rounding to four places keeps order. */
  lemma {:induction false} RoundMonotone(x: real, y: real)
    requires x <= y
    ensures RoundTo(x, 10000) <= RoundTo(y, 10000)
  {
    var a, b := x * 10000.0, y * 10000.0;
    assert NearestInt(a) <= NearestInt(b) by {
      if a.Floor < b.Floor {
      } else {
        assert a.Floor == b.Floor;
      }
    }
  }

  lemma {:induction false} ScaleQuotient(x: real, n: real, c: real)
    requires n > 0.0
    ensures x / n <= c <==> x <= c * n
    ensures x / n >= c <==> x >= c * n
  {
    var q := x / n;
    assert q * n == x;
    if q <= c { assert q * n <= c * n; } else { assert q * n > c * n; }
    if q >= c { assert q * n >= c * n; } else { assert q * n < c * n; }
  }

  /** Both roundings give a nearest integer, and the even one of two. */
  lemma {:induction false} TiesGoToEven(total: int, n: int, y: real)
    requires n > 0
    ensures var q := RoundDiv(total, n);
      2 * Abs(n * q - total) <= n && (2 * Abs(n * q - total) == n ==> q % 2 == 0)
    ensures var r, gap := NearestInt(y), y - NearestInt(y) as real;
      -0.5 <= gap <= 0.5 && (gap == 0.5 || gap == -0.5 ==> r % 2 == 0)
  {
    var q := total / n;
    assert n * (q + 1) == n * q + n;
  }
}
