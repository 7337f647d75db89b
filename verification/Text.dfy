/** Strings as Go compares, prints and parses them: `<` on strings, `%d`, `%08d` and `Atoi`. */
module Text {
  import opened Wrappers

  /** Go's `a < b` on strings. */
  predicate StrLess(a: string, b: string) {
    b != [] && (a == [] || a[0] < b[0] || (a[0] == b[0] && StrLess(a[1..], b[1..])))
  }

  lemma {:induction false} StrLessIrreflexive(a: string)
    ensures !StrLess(a, a)
  {
    if a != [] {
      StrLessIrreflexive(a[1..]);
    }
  }

  lemma {:induction false} StrLessTransitive(a: string, b: string, c: string)
    requires StrLess(a, b) && StrLess(b, c)
    ensures StrLess(a, c)
  {
    if a != [] && a[0] == b[0] == c[0] {
      StrLessTransitive(a[1..], b[1..], c[1..]);
    }
  }

  /** Distinct strings are always ordered one way or the other. */
  lemma {:induction false} StrLessTotal(a: string, b: string)
    ensures a == b || StrLess(a, b) || StrLess(b, a)
  {
    if a != [] && b != [] && a[0] == b[0] {
      StrLessTotal(a[1..], b[1..]);
      assert a == [a[0]] + a[1..] && b == [b[0]] + b[1..];
    }
  }

  /** Concatenations whose first parts have equal length compare part by part. */
  lemma {:induction false} StrLessConcat(a: string, x: string, b: string, y: string)
    requires |a| == |b|
    ensures StrLess(a + x, b + y) <==> StrLess(a, b) || (a == b && StrLess(x, y))
  {
    if a == [] {
      assert a + x == x && b + y == y;
    } else {
      StrLessConcat(a[1..], x, b[1..], y);
      assert (a + x)[1..] == a[1..] + x && (b + y)[1..] == b[1..] + y;
      assert a == [a[0]] + a[1..] && b == [b[0]] + b[1..];
    }
  }

  // Decimal numbers

  predicate IsDigit(c: char) {
    '0' <= c <= '9'
  }

  predicate AllDigits(s: string) {
    forall i | 0 <= i < |s| :: IsDigit(s[i])
  }

  function DigitChar(d: nat): (c: char)
    requires d < 10
    ensures IsDigit(c) && c as int - '0' as int == d
  {
    '0' + d as char
  }

  function DigitValue(c: char): (d: nat)
    requires IsDigit(c)
    ensures d < 10
  {
    c as int - '0' as int
  }

  /** The number a digit string denotes. */
  function Value(s: string): nat
    requires AllDigits(s)
  {
    if s == [] then 0 else Value(s[..|s| - 1]) * 10 + DigitValue(s[|s| - 1])
  }

  function Pow10(w: nat): (p: nat)
    ensures p > 0
  {
    if w == 0 then 1 else 10 * Pow10(w - 1)
  }

  /** `strconv.FormatInt(n, 10)` for a number that is not negative. */
  function Dec(n: nat): (s: string)
    ensures s != [] && AllDigits(s)
    ensures Value(s) == n
    ensures n > 0 ==> s[0] != '0'
  {
    if n < 10 then
      assert [DigitChar(n)][..0] == [];
      [DigitChar(n)]
    else
      var s := Dec(n / 10) + [DigitChar(n % 10)];
      assert s[..|s| - 1] == Dec(n / 10);
      s
  }

  function Zeros(k: nat): (s: string)
    ensures |s| == k && AllDigits(s)
    ensures forall i | 0 <= i < k :: s[i] == '0'
  {
    seq(k, i => '0')
  }

  /** `strconv.FormatInt(n, 10)`. */
  function Itoa(n: int): string {
    if n < 0 then "-" + Dec(-n) else Dec(n)
  }

  /** `fmt.Sprintf("%0wd", n)` for a number that is not negative. */
  function PadDec(n: nat, w: nat): (s: string)
    ensures AllDigits(s) && s != [] && |s| >= w
  {
    var d := Dec(n);
    if |d| < w then Zeros(w - |d|) + d else d
  }

  /** `fmt.Sprintf("%0wd", n)`: the sign counts towards the width. */
  function PadInt(n: int, w: nat): string {
    if n < 0 then "-" + PadDec(-n, if w > 0 then w - 1 else 0) else PadDec(n, w)
  }

  /** `strconv.Atoi`: an optional sign and then at least one digit; 64-bit range errors aside. */
  function Atoi(s: string): Option<int> {
    if s == [] then None
    else if s[0] == '-' then
      if |s| > 1 && AllDigits(s[1..]) then Some(0 - Value(s[1..])) else None
    else if s[0] == '+' then
      if |s| > 1 && AllDigits(s[1..]) then Some(Value(s[1..])) else None
    else if AllDigits(s) then Some(Value(s)) else None
  }

  lemma {:induction false} ValueBound(s: string)
    requires AllDigits(s)
    ensures Value(s) < Pow10(|s|)
  {
    if s != [] {
      ValueBound(s[..|s| - 1]);
    }
  }

  lemma TenTimes(d: nat, p: nat, v: nat)
    ensures (d * p + v) * 10 == d * (10 * p) + v * 10
  {
  }

  /** A leading digit weighs its power of ten. */
  lemma {:induction false} ValueCons(c: char, s: string)
    requires IsDigit(c) && AllDigits(s)
    ensures AllDigits([c] + s)
    ensures Value([c] + s) == DigitValue(c) * Pow10(|s|) + Value(s)
  {
    var t := [c] + s;
    if s == [] {
      assert t[..0] == [] && Pow10(0) == 1;
    } else {
      var n, d, p := |s| - 1, DigitValue(c), Pow10(|s| - 1);
      ValueCons(c, s[..n]);
      assert t[..n + 1] == [c] + s[..n];
      TenTimes(d, p, Value(s[..n]));
    }
  }

  lemma {:induction false} ValueZeros(k: nat, s: string)
    requires AllDigits(s)
    ensures AllDigits(Zeros(k) + s)
    ensures Value(Zeros(k) + s) == Value(s)
  {
    if k == 0 {
      assert Zeros(0) + s == s;
    } else {
      ValueZeros(k - 1, s);
      assert Zeros(k) + s == ['0'] + (Zeros(k - 1) + s);
      ValueCons('0', Zeros(k - 1) + s);
    }
  }

  lemma PadDecValue(n: nat, w: nat)
    ensures Value(PadDec(n, w)) == n
  {
    var d := Dec(n);
    if |d| < w {
      ValueZeros(w - |d|, d);
    }
  }

  lemma AtoiOfDigits(d: string)
    requires AllDigits(d) && d != []
    ensures Atoi(d) == Some(Value(d)) && Atoi("-" + d) == Some(0 - Value(d))
  {
    hide Value;
    assert IsDigit(d[0]) && ("-" + d)[1..] == d;
  }

  /** Printing and parsing are inverse, padded or not, whatever the sign. */
  lemma AtoiInvertsPadInt(n: int, w: nat)
    ensures Atoi(PadInt(n, w)) == Some(n)
  {
    hide Atoi, PadDec;
    var digits := if n >= 0 then w else if w > 0 then w - 1 else 0;
    PadDecValue(if n < 0 then -n else n, digits);
    AtoiOfDigits(PadDec(if n < 0 then -n else n, digits));
  }

  lemma AtoiInvertsItoa(n: int)
    ensures Atoi(Itoa(n)) == Some(n)
  {
    hide Atoi, Dec;
    AtoiOfDigits(Dec(if n < 0 then -n else n));
  }

  /** A number below 10^w prints in at most w digits. */
  lemma {:induction false} DecLength(n: nat, w: nat)
    requires 0 < w && n < Pow10(w)
    ensures |Dec(n)| <= w
  {
    if n >= 10 {
      assert w > 1;
      DecLength(n / 10, w - 1);
    }
  }

  lemma LargerDigitWins(x: nat, y: nat, r: nat, p: nat)
    requires x < y && r < p
    ensures x * p + r < y * p
  {
    var d := y - x;
    assert y * p == x * p + d * p;
    assert d * p == (d - 1) * p + p;
    assert (d - 1) * p >= 0;
  }

  lemma LeadingDigitDecides(x: nat, r: nat, y: nat, t: nat, p: nat)
    requires r < p && t < p
    ensures x * p + r < y * p + t <==> x < y || (x == y && r < t)
  {
    if x < y {
      LargerDigitWins(x, y, r, p);
    } else if y < x {
      LargerDigitWins(y, x, t, p);
    }
  }

  /** On digit strings of one length, string order is numeric order. */
  lemma {:induction false} DigitOrder(a: string, b: string)
    requires |a| == |b| && AllDigits(a) && AllDigits(b)
    ensures StrLess(a, b) <==> Value(a) < Value(b)
  {
    if a != [] {
      DigitOrder(a[1..], b[1..]);
      assert a == [a[0]] + a[1..] && b == [b[0]] + b[1..];
      ValueCons(a[0], a[1..]);
      ValueCons(b[0], b[1..]);
      ValueBound(a[1..]);
      ValueBound(b[1..]);
      LeadingDigitDecides(DigitValue(a[0]), Value(a[1..]), DigitValue(b[0]), Value(b[1..]), Pow10(|a| - 1));
    }
  }

  /** Zero-padded numbers of any width w sort as numbers below 10^w. */
  lemma PaddedOrder(m: nat, n: nat, w: nat)
    requires 0 < w && m < Pow10(w) && n < Pow10(w)
    ensures StrLess(PadDec(m, w), PadDec(n, w)) <==> m < n
    ensures PadDec(m, w) == PadDec(n, w) <==> m == n
  {
    DecLength(m, w);
    DecLength(n, w);
    PadDecValue(m, w);
    PadDecValue(n, w);
    DigitOrder(PadDec(m, w), PadDec(n, w));
  }

  /** An unpadded positive number sorts behind every padded number that still has a leading zero,
      however the two compare as numbers. */
  lemma UnpaddedSortsLast(m: nat, n: nat, w: nat)
    requires 0 < w && m < Pow10(w) && 0 < n
    ensures StrLess(PadDec(m, w + 1), Dec(n))
  {
    DecLength(m, w);
    assert PadDec(m, w + 1)[0] == '0';
  }

  /** Padding fills up to the width, sign included, and never cuts. */
  lemma PadIntLength(n: int, w: nat)
    ensures |PadInt(n, w)| == if |Itoa(n)| < w then w else |Itoa(n)|
  {
    hide Dec;
  }

  /** Only an optional sign and at least one digit read as a number, and the sign is the number's. */
  lemma AtoiExactly(s: string, n: int)
    ensures Atoi(s) == Some(n) <==>
            exists d: string | d != [] && AllDigits(d) ::
              (s == d && n == Value(d)) || (s == "+" + d && n == Value(d)) || (s == "-" + d && n == 0 - Value(d))
  {
    hide Value;
    if Atoi(s) == Some(n) {
      var d := if s[0] == '-' || s[0] == '+' then s[1..] else s;
      assert AllDigits(d) && (s == d || s == [s[0]] + d);
    }
    forall d: string | d != [] && AllDigits(d)
      ensures Atoi(d) == Some(Value(d)) && Atoi("+" + d) == Some(Value(d)) && Atoi("-" + d) == Some(0 - Value(d))
    {
      assert IsDigit(d[0]) && ("-" + d)[1..] == d && ("+" + d)[1..] == d;
    }
  }

  /** Digit strings of one length are determined by their number. */
  lemma SameValue(a: string, b: string)
    requires |a| == |b| && AllDigits(a) && AllDigits(b) && Value(a) == Value(b)
    ensures a == b
  {
    DigitOrder(a, b);
    DigitOrder(b, a);
    StrLessTotal(a, b);
  }
}
