/** Option contract symbols: the printer of app/analytics/policy_settlement.py and
    the parser of scripts/validate_flow_features.py. Strikes are whole 1e-4 dollars,
    so thousandths of a dollar are strike / 10. */
module OccSymbols {
  import opened Basics
  import opened OptionStructures
  import opened Seqs

  datatype Date = Date(year: int, month: int, day: int)

  datatype Contract = Contract(root: string, expiration: Date, optionType: OptionType, strike: int)

  predicate Leap(y: int) {
    y % 4 == 0 && (y % 100 != 0 || y % 400 == 0)
  }

  function DaysIn(y: int, m: int): int {
    if m == 2 then (if Leap(y) then 29 else 28)
    else if m in {4, 6, 9, 11} then 30
    else 31
  }

  /** The dates `datetime.date` accepts. */
  predicate ValidDate(d: Date) {
    1 <= d.year <= 9999 && 1 <= d.month <= 12 && 1 <= d.day <= DaysIn(d.year, d.month)
  }

  /** Leap years up to and including y. */
  function LeapsUpTo(y: nat): nat {
    if y == 0 then 0 else LeapsUpTo(y - 1) + if Leap(y) then 1 else 0
  }

  /** Every fourth year, less the centuries, plus every fourth century. */
  lemma {:induction false} LeapYears(y: nat)
    ensures LeapsUpTo(y) == y / 4 - y / 100 + y / 400
  {
    if y > 0 {
      LeapYears(y - 1);
      QuotientStep(y, 4);
      QuotientStep(y, 100);
      QuotientStep(y, 400);
      if y % 100 == 0 { MultiplesNest(y, 25, 4); }
      if y % 400 == 0 { MultiplesNest(y, 4, 100); }
    }
  }

  lemma {:induction false} QuotientStep(y: nat, k: nat)
    requires y > 0 && k > 0
    ensures y / k == (y - 1) / k + if y % k == 0 then 1 else 0
  {
    var q, r := (y - 1) / k, (y - 1) % k;
    assert y == k * q + (r + 1);
    if r + 1 == k {
      assert y == k * (q + 1);
      DivideExactly(y, k, q + 1, 0);
    } else {
      DivideExactly(y, k, q, r + 1);
    }
  }

  lemma {:induction false} DivideExactly(x: nat, k: nat, q: nat, r: nat)
    requires r < k && x == k * q + r
    ensures x / k == q && x % k == r
  {
    var d := x / k - q;
    assert k * d == k * (x / k) - k * q;
    MulAtLeast(k, d);
  }

  lemma {:induction false} MultiplesNest(y: nat, a: nat, b: nat)
    requires a > 0 && b > 0 && y % (a * b) == 0
    ensures y % b == 0
  {
    var q := y / (a * b);
    assert y == b * (a * q) + 0;
    DivideExactly(y, b, a * q, 0);
  }

  /** Months alternate between 31 and 30 days, starting over in August, but for
      February. */
  lemma {:induction false} MonthLengths(y: int, m: int)
    requires 1 <= m <= 12
    ensures m != 2 ==> DaysIn(y, m) == 30 + (m + m / 8) % 2
    ensures DaysIn(y, 2) == if Leap(y) then 29 else 28
  {
  }

  /** The first and the last date, and no gap: after a date comes the next day, or the
      first of the next month, or the first of the next year. */
  function NextDay(d: Date): Date {
    if ValidDate(d.(day := d.day + 1)) then d.(day := d.day + 1)
    else if d.month < 12 then Date(d.year, d.month + 1, 1)
    else Date(d.year + 1, 1, 1)
  }

  lemma {:induction false} DatesFollow(d: Date)
    requires ValidDate(d)
    ensures ValidDate(NextDay(d)) <==> d != Date(9999, 12, 31)
    ensures NextDay(d).day == 1 <==> d.day == DaysIn(d.year, d.month)
    ensures ValidDate(Date(1, 1, 1)) && !ValidDate(d.(day := 0)) && !ValidDate(d.(month := 0))
    ensures !ValidDate(d.(month := 13)) && !ValidDate(d.(year := 0)) && !ValidDate(d.(year := 10000))
  {
  }

  // --------------------------------------------------------------------- printing

  function DigitChar(n: nat): char
    requires n < 10
  {
    '0' + n as char
  }

  /** Decimal digits of n, zero-padded on the left to at least w characters. */
  function Pad(n: nat, w: nat): (s: string)
    ensures s != "" && |s| >= w
    ensures forall c | c in s :: IsDigit(c)
    decreases n + w
  {
    if n < 10 && w <= 1 then [DigitChar(n)]
    else Pad(n / 10, if w == 0 then 0 else w - 1) + [DigitChar(n % 10)]
  }

  /** `{n:08d}`: the sign, when there is one, takes one of the eight places. */
  function EightWide(n: int): string {
    if n >= 0 then Pad(n, 8) else "-" + Pad(-n, 7)
  }

  function UpperChar(c: char): char {
    if 'a' <= c <= 'z' then c - 'a' + 'A' else c
  }

  function Upper(s: string): (u: string)
    ensures |u| == |s|
  {
    seq(|s|, i requires 0 <= i < |s| => UpperChar(s[i]))
  }

  /** Upper-casing moves exactly the letters a to z, each to the letter in its place. */
  lemma {:induction false} UpperMeans(s: string, i: nat)
    requires i < |s|
    ensures if s[i] in "abcdefghijklmnopqrstuvwxyz" then Upper(s)[i] as int == s[i] as int - 32 else Upper(s)[i] == s[i]
  {
    assert s[i] in "abcdefghijklmnopqrstuvwxyz" <==> 'a' <= s[i] <= 'z';
  }

  function Letter(t: OptionType): char {
    if t == Call then 'C' else 'P'
  }

  function Thousandths(strike: int): int {
    RoundDiv(strike, 10)
  }

  function YearMonthDay(d: Date): (s: string)
    requires ValidDate(d)
    ensures |s| == 6
  {
    PadLength(d.year % 100, 2);
    PadLength(d.month, 2);
    PadLength(d.day, 2);
    Pad(d.year % 100, 2) + Pad(d.month, 2) + Pad(d.day, 2)
  }

  /** `occ_symbol` */
  function Symbol(x: Contract): string
    requires ValidDate(x.expiration)
  {
    Upper(x.root) + YearMonthDay(x.expiration) + [Letter(x.optionType)] + EightWide(Thousandths(x.strike))
  }

  // ---------------------------------------------------------------------- parsing

  predicate IsDigit(c: char) {
    '0' <= c <= '9'
  }

  predicate IsSpace(c: char) {
    c in {' ', '\t', '\n', '\r', 11 as char, 12 as char}
  }

  function TrimLeft(s: string): string {
    if s != "" && IsSpace(s[0]) then TrimLeft(s[1..]) else s
  }

  function TrimRight(s: string): string {
    if s != "" && IsSpace(s[|s|-1]) then TrimRight(s[..|s|-1]) else s
  }

  /** Decimal digits, single underscores allowed between them. */
  function Digits(s: string): Option<nat> {
    if s == "" || !IsDigit(s[|s|-1]) then None
    else
      var last := (s[|s|-1] - '0') as nat;
      if |s| == 1 then Some(last)
      else
        var rest :- Digits(if s[|s|-2] == '_' then s[..|s|-2] else s[..|s|-1]);
        Some(10 * rest + last)
  }

  /** An optional sign, then digits. */
  function SignedDigits(t: string): Option<int> {
    if t != "" && t[0] == '-' then Negated(Digits(t[1..]))
    else if t != "" && t[0] == '+' then Digits(t[1..])
    else Digits(t)
  }

  /** `int(s)`; None where it raises ValueError. */
  function ParseInt(s: string): Option<int> {
    SignedDigits(TrimRight(TrimLeft(s)))
  }

  function Negated(n: Option<int>): Option<int> {
    match n
    case None => None
    case Some(v) => Some(-v)
  }

  /** Year, month, day, letter and strike, each read on its own. */
  function ParseFields(root: string, year: string, month: string, day: string, cp: char,
                       strike: string): Option<Contract> {
    var yy :- ParseInt(year);
    var mm :- ParseInt(month);
    var dd :- ParseInt(day);
    var exp := Date(2000 + yy, mm, dd);
    if !ValidDate(exp) then None
    else
      var n :- ParseInt(strike);
      if cp != 'C' && cp != 'P' then None
      else Some(Contract(root, exp, if cp == 'C' then Call else Put, 10 * n))
  }

  /** The last fifteen characters; the root is what precedes them. */
  function ParseTail(root: string, tail: string): Option<Contract>
    requires |tail| == 15
  {
    ParseFields(root, tail[0..2], tail[2..4], tail[4..6], tail[6], tail[7..])
  }

  /** `_parse_occ` */
  function Parse(cid: string): Option<Contract> {
    if |cid| < 16 then None
    else ParseTail(cid[..|cid|-15], cid[|cid|-15..])
  }

  // ------------------------------------------------------------- digits and widths

  function Pow10(w: nat): nat {
    if w == 0 then 1 else 10 * Pow10(w - 1)
  }

  lemma {:induction false} PadLength(n: nat, w: nat)
    requires w >= 1
    ensures |Pad(n, w)| == w <==> n < Pow10(w)
    ensures Pow10(2) == 100
    decreases n + w
  {
    if n < 10 && w <= 1 {
      assert Pow10(1) == 10;
    } else if w == 1 {
      assert Pow10(1) == 10;
    } else {
      PadLength(n / 10, w - 1);
    }
  }

  lemma {:induction false} DigitsSnoc(s: string, d: nat)
    requires s != "" && IsDigit(s[|s|-1]) && d < 10
    ensures Digits(s + [DigitChar(d)])
         == match Digits(s) case None => None case Some(n) => Some(10 * n + d)
  {
    SnocParts(s, DigitChar(d));
  }

  lemma {:induction false} OneDigitReads(d: nat)
    requires d < 10
    ensures Digits([DigitChar(d)]) == Some(d)
  {
  }

  lemma {:induction false} PadReads(n: nat, w: nat)
    ensures Digits(Pad(n, w)) == Some(n)
    decreases n + w
  {
    if n < 10 && w <= 1 {
      OneDigitReads(n);
    } else {
      var v := if w == 0 then 0 else w - 1;
      PadReads(n / 10, v);
      OneMoreReads(Pad(n / 10, v), n / 10, n % 10);
    }
  }

  lemma {:induction false} OneMoreReads(s: string, read: nat, d: nat)
    requires Digits(s) == Some(read) && d < 10 && forall c | c in s :: IsDigit(c)
    ensures Digits(s + [DigitChar(d)]) == Some(10 * read + d)
  {
    assert s[|s|-1] in s;
    DigitsSnoc(s, d);
  }

  lemma {:induction false} TrimClean(s: string)
    requires forall c | c in s :: IsDigit(c) || c == '-'
    ensures TrimRight(TrimLeft(s)) == s
  {
    if s != "" {
      assert s[0] in s && s[|s|-1] in s;
    }
  }

  lemma {:induction false} PadParses(n: nat, w: nat)
    ensures ParseInt(Pad(n, w)) == Some(n)
  {
    TrimClean(Pad(n, w));
    PadReads(n, w);
    assert Pad(n, w)[0] in Pad(n, w);
  }

  lemma {:induction false} NegativeParses(n: nat, w: nat)
    ensures ParseInt("-" + Pad(n, w)) == Negated(Some(n))
  {
    var s := "-" + Pad(n, w);
    TrimClean(s);
    PadReads(n, w);
    assert s[1..] == Pad(n, w);
  }

  lemma {:induction false} EightWideParses(n: int)
    ensures ParseInt(EightWide(n)) == Some(n)
  {
    if n >= 0 {
      PadParses(n, 8);
    } else {
      NegativeParses(-n, 7);
    }
  }

  /** The strike field is exactly eight characters wide on this range and no other. */
  lemma {:induction false} EightWideLength(n: int)
    ensures |EightWide(n)| >= 8
    ensures |EightWide(n)| == 8 <==> -10000000 < n < 100000000
  {
    assert Pow10(8) == 100000000;
    if n >= 0 {
      PadLength(n, 8);
    } else {
      PadLength(-n, 7);
    }
  }

  lemma {:induction false} StrikeChars(n: int, c: char)
    requires c in EightWide(n)
    ensures IsDigit(c) || c == '-'
  {
  }

  // ------------------------------------------------- a letter never reads as a number

  lemma {:induction false} DigitsHaveNoLetter(s: string, c: char)
    requires c in s && c in {'C', 'P'}
    ensures Digits(s) == None
  {
    if IsDigit(s[|s|-1]) && |s| > 1 {
      var t := if s[|s|-2] == '_' then s[..|s|-2] else s[..|s|-1];
      assert s == s[..|s|-1] + [s[|s|-1]];
      if s[|s|-2] == '_' {
        assert s == s[..|s|-2] + ['_', s[|s|-1]];
      }
      DigitsHaveNoLetter(t, c);
    }
  }

  lemma {:induction false} TrimKeepsLetter(s: string, c: char)
    requires c in s && c in {'C', 'P'}
    ensures c in TrimLeft(s) && c in TrimRight(s)
  {
    if IsSpace(s[0]) {
      assert s == [s[0]] + s[1..];
      TrimKeepsLetter(s[1..], c);
    }
    if IsSpace(s[|s|-1]) {
      assert s == s[..|s|-1] + [s[|s|-1]];
      TrimKeepsLetter(s[..|s|-1], c);
    }
  }

  lemma {:induction false} LetterIsNoNumber(s: string, c: char)
    requires c in s && c in {'C', 'P'}
    ensures ParseInt(s) == None
  {
    TrimKeepsLetter(s, c);
    TrimKeepsLetter(TrimLeft(s), c);
    var t := TrimRight(TrimLeft(s));
    DigitsHaveNoLetter(t, c);
    if t[0] == '-' || t[0] == '+' {
      assert t == [t[0]] + t[1..];
      DigitsHaveNoLetter(t[1..], c);
    }
  }

  // ----------------------------------------------------------------- the round trip

  /** Contracts the symbol layout can carry. */
  predicate Representable(x: Contract) {
    && x.root != "" && Upper(x.root) == x.root
    && 2000 <= x.expiration.year <= 2099
    && x.strike % 10 == 0 && -100000000 < x.strike < 1000000000
  }

  function Reread(x: Contract): Contract {
    Contract(Upper(x.root), x.expiration.(year := 2000 + x.expiration.year % 100), x.optionType,
             10 * Thousandths(x.strike))
  }

  lemma {:induction false} FieldSlices(a: string, b: string, c: string, d: string, e: string)
    requires |a| == |b| == |c| == 2 && |d| == 1
    ensures var t := a + b + c + d + e;
      t[0..2] == a && t[2..4] == b && t[4..6] == c && t[6] == d[0] && t[7..] == e
  {
  }

  lemma {:induction false} RootAndTail(root: string, tail: string)
    requires |tail| == 15
    ensures var s := root + tail; |s| == |root| + 15 && s[..|s|-15] == root && s[|s|-15..] == tail
  {
  }

  /** What follows the root in a printed symbol. */
  function Tail(x: Contract): string
    requires ValidDate(x.expiration)
  {
    YearMonthDay(x.expiration) + [Letter(x.optionType)] + EightWide(Thousandths(x.strike))
  }

  lemma {:induction false} SymbolIsRootAndTail(x: Contract)
    requires ValidDate(x.expiration)
    ensures Symbol(x) == Upper(x.root) + Tail(x)
  {
  }

  /** Printed fields read back, whatever the width of the last. */
  lemma {:induction false} FieldsRead(x: Contract)
    requires ValidDate(x.expiration)
    ensures ParseFields(Upper(x.root), Pad(x.expiration.year % 100, 2), Pad(x.expiration.month, 2),
                        Pad(x.expiration.day, 2), Letter(x.optionType), EightWide(Thousandths(x.strike)))
         == if ValidDate(Reread(x).expiration) then Some(Reread(x)) else None
  {
    PadParses(x.expiration.year % 100, 2);
    PadParses(x.expiration.month, 2);
    PadParses(x.expiration.day, 2);
    EightWideParses(Thousandths(x.strike));
    FieldsOfNumbers(Upper(x.root), Pad(x.expiration.year % 100, 2), Pad(x.expiration.month, 2),
                    Pad(x.expiration.day, 2), x.optionType, EightWide(Thousandths(x.strike)),
                    x.expiration.year % 100, x.expiration.month, x.expiration.day, Thousandths(x.strike));
  }

  lemma {:induction false} FieldsOfNumbers(root: string, year: string, month: string, day: string, t: OptionType,
                                           strike: string, yy: int, mm: int, dd: int, n: int)
    requires ParseInt(year) == Some(yy) && ParseInt(month) == Some(mm) && ParseInt(day) == Some(dd)
    requires ParseInt(strike) == Some(n)
    ensures var exp := Date(2000 + yy, mm, dd);
      ParseFields(root, year, month, day, Letter(t), strike)
      == if ValidDate(exp) then Some(Contract(root, exp, t, 10 * n)) else None
  {
  }

  lemma {:induction false} TwoDigitFields(d: Date)
    requires ValidDate(d)
    ensures |Pad(d.year % 100, 2)| == |Pad(d.month, 2)| == |Pad(d.day, 2)| == 2
  {
    PadLength(d.year % 100, 2);
    PadLength(d.month, 2);
    PadLength(d.day, 2);
  }

  /** The tail reads back field by field. */
  lemma {:induction false} TailComesBack(x: Contract)
    requires ValidDate(x.expiration) && |EightWide(Thousandths(x.strike))| == 8
    ensures |Tail(x)| == 15
    ensures ParseTail(Upper(x.root), Tail(x)) == if ValidDate(Reread(x).expiration) then Some(Reread(x)) else None
  {
    var d := x.expiration;
    TwoDigitFields(d);
    FieldSlices(Pad(d.year % 100, 2), Pad(d.month, 2), Pad(d.day, 2), [Letter(x.optionType)],
                EightWide(Thousandths(x.strike)));
    FieldsRead(x);
  }

  /** When the strike field keeps its width, every field comes back as printed. */
  lemma {:induction false} FieldsComeBack(x: Contract)
    requires ValidDate(x.expiration) && x.root != "" && |EightWide(Thousandths(x.strike))| == 8
    ensures Parse(Symbol(x)) == if ValidDate(Reread(x).expiration) then Some(Reread(x)) else None
  {
    TailComesBack(x);
    SymbolIsRootAndTail(x);
    RootAndTail(Upper(x.root), Tail(x));
  }

  lemma {:induction false} LetterBeforeNumber(before: string, c: char, num: string)
    requires 8 < |num| < 15 && |before| >= 6
    ensures var s := before + [c] + num; s[|s|-15..][14 - |num|] == c
  {
  }

  lemma {:induction false} NumberFillsTail(before: string, num: string)
    requires |num| >= 15
    ensures var s := before + num; s[|s|-15..][6] == num[|num| - 9]
  {
  }

  /** A strike too wide for its field pushes the letter into the date, or out of the tail. */
  lemma {:induction false} WideStrikeIsRejected(x: Contract)
    requires ValidDate(x.expiration) && |EightWide(Thousandths(x.strike))| > 8
    ensures Parse(Symbol(x)) == None
  {
    var num := EightWide(Thousandths(x.strike));
    var before := Upper(x.root) + YearMonthDay(x.expiration);
    if |num| < 15 {
      LetterBeforeNumber(before, Letter(x.optionType), num);
      LetterIsRejected(Symbol(x), 14 - |num|);
    } else {
      NumberFillsTail(before + [Letter(x.optionType)], num);
      StrikeChars(Thousandths(x.strike), num[|num| - 9]);
    }
  }

  lemma {:induction false} LetterIsRejected(s: string, k: nat)
    requires |s| >= 15 && k < 6 && (s[|s|-15..][k] == 'C' || s[|s|-15..][k] == 'P')
    ensures Parse(s) == None
  {
    LetterInDate(s[..|s|-15], s[|s|-15..], k);
  }

  /** A letter among the first six of the tail is no part of a date. */
  lemma {:induction false} LetterInDate(root: string, tail: string, k: nat)
    requires |tail| == 15 && k < 6 && (tail[k] == 'C' || tail[k] == 'P')
    ensures ParseTail(root, tail) == None
  {
    var from := if k < 2 then 0 else if k < 4 then 2 else 4;
    assert tail[from..from+2][k - from] == tail[k];
    LetterIsNoNumber(tail[from..from+2], tail[k]);
  }

  /** Strikes are printed to the nearest thousandth. */
  lemma {:induction false} ThousandthsNearest(strike: int)
    ensures -5 <= 10 * Thousandths(strike) - strike <= 5
  {
  }

  lemma {:induction false} ThousandthsWidth(x: Contract)
    ensures x.strike == 10 * Thousandths(x.strike) <==> x.strike % 10 == 0
    ensures x.strike % 10 == 0 ==>
              (|EightWide(Thousandths(x.strike))| == 8 <==> -100000000 < x.strike < 1000000000)
  {
    EightWideLength(Thousandths(x.strike));
    if x.strike % 10 == 0 {
      RoundDivExact(x.strike / 10, 10);
    }
  }

  /** What is read back is the contract exactly when nothing was lost in print. */
  lemma {:induction false} RereadIsSame(x: Contract)
    requires ValidDate(x.expiration)
    ensures Reread(x) == x <==>
              Upper(x.root) == x.root && 2000 <= x.expiration.year <= 2099 && x.strike % 10 == 0
  {
    ThousandthsWidth(x);
    var y := x.expiration.year;
    assert 2000 + y % 100 == y <==> 2000 <= y <= 2099;
  }

  lemma {:induction false} NoRootNoSymbol(x: Contract)
    requires ValidDate(x.expiration) && x.root == "" && |EightWide(Thousandths(x.strike))| == 8
    ensures Parse(Symbol(x)) == None
  {
    assert |Symbol(x)| == 15;
  }

  /** Parsing a printed symbol gives the contract back exactly for the contracts the
      layout can carry: a non-empty upper-case root, a year of this century, and a
      strike in whole thousandths that fits its eight characters. */
  lemma {:induction false} RoundTrip(x: Contract)
    requires ValidDate(x.expiration)
    ensures Parse(Symbol(x)) == Some(x) <==> Representable(x)
  {
    ThousandthsWidth(x);
    EightWideLength(Thousandths(x.strike));
    RereadIsSame(x);
    if |EightWide(Thousandths(x.strike))| > 8 {
      WideStrikeIsRejected(x);
    } else if x.root == "" {
      NoRootNoSymbol(x);
    } else {
      FieldsComeBack(x);
    }
  }

  /** Distinct contracts never share a symbol. */
  lemma {:induction false} SymbolsAreDistinct(x: Contract, y: Contract)
    requires ValidDate(x.expiration) && ValidDate(y.expiration)
    requires Representable(x) && Representable(y) && x != y
    ensures Symbol(x) != Symbol(y)
  {
    RoundTrip(x);
    RoundTrip(y);
  }

  // ------------------------------------------------------------------- marks of legs

  /** A calendar gives each day number its own date. */
  ghost predicate IsCalendar(dateOf: int -> Date) {
    forall d, e :: ValidDate(dateOf(d)) && (dateOf(d) == dateOf(e) ==> d == e)
  }

  function ContractOf(dateOf: int -> Date, leg: Leg): Contract {
    Contract(leg.symbol, dateOf(leg.expiration), leg.optionType, leg.strike)
  }

  /** The key under which the replays look up a leg's mark. */
  function MarkKey(dateOf: int -> Date, leg: Leg): string
    requires ValidDate(dateOf(leg.expiration))
  {
    Symbol(ContractOf(dateOf, leg))
  }

  /** Legs share a mark exactly when they are the same contract. */
  lemma {:induction false} LegsShareMarksExactly(dateOf: int -> Date, a: Leg, b: Leg)
    requires IsCalendar(dateOf)
    requires Representable(ContractOf(dateOf, a)) && Representable(ContractOf(dateOf, b))
    ensures MarkKey(dateOf, a) == MarkKey(dateOf, b)
       <==> a.symbol == b.symbol && a.expiration == b.expiration && a.optionType == b.optionType && a.strike == b.strike
  {
    if ContractOf(dateOf, a) != ContractOf(dateOf, b) {
      SymbolsAreDistinct(ContractOf(dateOf, a), ContractOf(dateOf, b));
    }
  }
}
