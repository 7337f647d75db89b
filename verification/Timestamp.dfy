/** Instants and their RFC 3339 text (section 5.1 of RFC 3339 on the order of timestamps).

    An instant is a number of nanoseconds since 0001-01-01T00:00:00Z, Go's zero time. Only UTC
    texts with the designator `Z` and whole seconds are written by the work queue. */
module Timestamp {
  import opened Wrappers
  import opened Text

  type Time = int

  const SECOND: Time := 1_000_000_000
  const MINUTE: Time := 60 * SECOND

  /** The first instant of the year 10000. */
  const END_OF_TIME: Time := DaysBeforeYear(10000) * 86400 * SECOND

  predicate IsLeap(year: nat) {
    year % 4 == 0 && (year % 100 != 0 || year % 400 == 0)
  }

  function DaysInYear(year: nat): nat {
    if IsLeap(year) then 366 else 365
  }

  function DaysInMonth(year: nat, month: nat): nat {
    if month == 2 then (if IsLeap(year) then 29 else 28)
    else if month in {4, 6, 9, 11} then 30
    else 31
  }

  /** The days from 0001-01-01 to the first of January of `year`. */
  function DaysBeforeYear(year: nat): nat
    requires year >= 1
  {
    var y := year - 1;
    365 * y + y / 4 - y / 100 + y / 400
  }

  lemma NextYear(year: nat)
    requires year >= 1
    ensures DaysBeforeYear(year + 1) == DaysBeforeYear(year) + DaysInYear(year)
  {
    EveryFourth(year);
    EveryHundredth(year);
    EveryFourHundredth(year);
  }

  lemma EveryFourth(year: nat)
    requires year >= 1
    ensures (year - 1) / 4 == year / 4 - if year % 4 == 0 then 1 else 0
    ensures year % 100 == 0 ==> year % 4 == 0
  {
  }

  lemma EveryHundredth(year: nat)
    requires year >= 1
    ensures (year - 1) / 100 == year / 100 - if year % 100 == 0 then 1 else 0
    ensures year % 400 == 0 ==> year % 100 == 0
  {
  }

  lemma EveryFourHundredth(year: nat)
    requires year >= 1
    ensures (year - 1) / 400 == year / 400 - if year % 400 == 0 then 1 else 0
  {
  }

  lemma {:induction false} LaterYear(y: nat, z: nat)
    requires 1 <= y <= z
    ensures DaysBeforeYear(y) + (if y < z then DaysInYear(y) else 0) <= DaysBeforeYear(z)
    decreases z - y
  {
    if y < z {
      NextYear(y);
      LaterYear(y + 1, z);
    }
  }

  function DaysBeforeMonth(year: nat, month: nat): nat
    requires 1 <= month <= 13
  {
    if month == 1 then 0 else DaysBeforeMonth(year, month - 1) + DaysInMonth(year, month - 1)
  }

  lemma {:induction false} LaterMonth(year: nat, m: nat, n: nat)
    requires 1 <= m <= n <= 13
    ensures DaysBeforeMonth(year, m) + (if m < n then DaysInMonth(year, m) else 0) <= DaysBeforeMonth(year, n)
    decreases n - m
  {
    if m < n {
      LaterMonth(year, m + 1, n);
    }
  }

  lemma TwelveMonths(year: nat)
    ensures DaysBeforeMonth(year, 13) == DaysInYear(year)
  {
    assert DaysBeforeMonth(year, 3) == DaysBeforeMonth(year, 2) + DaysInMonth(year, 2);
    assert DaysBeforeMonth(year, 5) == DaysBeforeMonth(year, 4) + 30;
    assert DaysBeforeMonth(year, 7) == DaysBeforeMonth(year, 6) + 30;
    assert DaysBeforeMonth(year, 9) == DaysBeforeMonth(year, 8) + 31;
    assert DaysBeforeMonth(year, 11) == DaysBeforeMonth(year, 10) + 31;
  }

  /** A calendar day and time of day. */
  datatype Civil = Civil(year: nat, month: nat, day: nat, hour: nat, minute: nat, second: nat)

  predicate ValidCivil(c: Civil) {
    1 <= c.year <= 9999 && 1 <= c.month <= 12 && 1 <= c.day <= DaysInMonth(c.year, c.month)
    && c.hour < 24 && c.minute < 60 && c.second < 60
  }

  function DayNumber(c: Civil): nat
    requires ValidCivil(c)
  {
    DaysBeforeYear(c.year) + DaysBeforeMonth(c.year, c.month) + c.day - 1
  }

  function SecondOfDay(c: Civil): nat {
    c.hour * 3600 + c.minute * 60 + c.second
  }

  /** The seconds from the zero time to a calendar time. */
  function SecondNumber(c: Civil): nat
    requires ValidCivil(c)
  {
    DayNumber(c) * 86400 + SecondOfDay(c)
  }

  /** The year that day `d` after the first of January of year `y` falls in, and its day in that year. */
  function YearFrom(d: nat, y: nat): (r: (nat, nat))
    requires y >= 1
    ensures r.0 >= y && r.1 < DaysInYear(r.0)
    ensures DaysBeforeYear(r.0) + r.1 == DaysBeforeYear(y) + d
    decreases d
  {
    if d < DaysInYear(y) then (y, d)
    else
      NextYear(y);
      YearFrom(d - DaysInYear(y), y + 1)
  }

  /** The month that day `d` after the first of month `m` falls in, and its day in that month. */
  function MonthFrom(year: nat, d: nat, m: nat): (r: (nat, nat))
    requires 1 <= m <= 12 && DaysBeforeMonth(year, m) + d < DaysBeforeMonth(year, 13)
    ensures m <= r.0 <= 12 && r.1 < DaysInMonth(year, r.0)
    ensures DaysBeforeMonth(year, r.0) + r.1 == DaysBeforeMonth(year, m) + d
    decreases 12 - m
  {
    if d < DaysInMonth(year, m) then (m, d)
    else
      assert DaysBeforeMonth(year, m + 1) == DaysBeforeMonth(year, m) + DaysInMonth(year, m);
      MonthFrom(year, d - DaysInMonth(year, m), m + 1)
  }

  /** The calendar time of a second in the years 1 to 9999. */
  function ToCivil(seconds: nat): (c: Civil)
    requires seconds < DaysBeforeYear(10000) * 86400
    ensures ValidCivil(c) && SecondNumber(c) == seconds
  {
    var days, rest := seconds / 86400, seconds % 86400;
    var (year, dayOfYear) := YearFrom(days, 1);
    assert year <= 9999 by {
      if year > 9999 {
        LaterYear(10000, year);
      }
    }
    TwelveMonths(year);
    var (month, day) := MonthFrom(year, dayOfYear, 1);
    assert rest == rest / 3600 * 3600 + rest % 3600 / 60 * 60 + rest % 60;
    Civil(year, month, day + 1, rest / 3600, rest % 3600 / 60, rest % 60)
  }

  predicate CivilLess(a: Civil, b: Civil) {
    if a.year != b.year then a.year < b.year
    else if a.month != b.month then a.month < b.month
    else if a.day != b.day then a.day < b.day
    else SecondOfDay(a) < SecondOfDay(b)
  }

  lemma EarlierDayOrTime(a: Civil, b: Civil)
    requires ValidCivil(a) && ValidCivil(b) && CivilLess(a, b)
    ensures SecondNumber(a) < SecondNumber(b)
  {
    if a.year < b.year {
      TwelveMonths(a.year);
      LaterMonth(a.year, a.month, 13);
      LaterYear(a.year, b.year);
    } else if a.month < b.month {
      LaterMonth(a.year, a.month, b.month);
    }
  }

  /** The calendar's field-by-field order is the order of the seconds. */
  lemma CivilOrder(a: Civil, b: Civil)
    requires ValidCivil(a) && ValidCivil(b)
    ensures CivilLess(a, b) <==> SecondNumber(a) < SecondNumber(b)
    ensures a == b <==> SecondNumber(a) == SecondNumber(b)
  {
    if CivilLess(a, b) {
      EarlierDayOrTime(a, b);
    } else if CivilLess(b, a) {
      EarlierDayOrTime(b, a);
    }
  }

  /** The text `YYYY-MM-DDThh:mm:ssZ`. */
  function Print(c: Civil): string {
    PadDec(c.year, 4) + ("-" + (PadDec(c.month, 2) + ("-" + (PadDec(c.day, 2) + ("T" + Clock(c))))))
  }

  function Clock(c: Civil): string {
    PadDec(c.hour, 2) + (":" + (PadDec(c.minute, 2) + (":" + (PadDec(c.second, 2) + "Z"))))
  }

  lemma PartOrder(m: nat, n: nat, w: nat, x: string, y: string)
    requires 0 < w && m < Pow10(w) && n < Pow10(w)
    ensures StrLess(PadDec(m, w) + x, PadDec(n, w) + y) <==> m < n || (m == n && StrLess(x, y))
  {
    DecLength(m, w);
    DecLength(n, w);
    PaddedOrder(m, n, w);
    StrLessConcat(PadDec(m, w), x, PadDec(n, w), y);
  }

  lemma SeparatorOrder(c: char, x: string, y: string)
    ensures StrLess([c] + x, [c] + y) <==> StrLess(x, y)
  {
    StrLessConcat([c], x, [c], y);
    StrLessIrreflexive([c]);
  }

  lemma ClockOrder(a: Civil, b: Civil)
    requires ValidCivil(a) && ValidCivil(b)
    ensures StrLess(Clock(a), Clock(b)) <==> SecondOfDay(a) < SecondOfDay(b)
  {
    assert Pow10(2) == 100;
    var second := (c: Civil) => PadDec(c.second, 2) + "Z";
    var minute := (c: Civil) => PadDec(c.minute, 2) + (":" + second(c));
    StrLessIrreflexive("Z");
    PartOrder(a.second, b.second, 2, "Z", "Z");
    SeparatorOrder(':', second(a), second(b));
    PartOrder(a.minute, b.minute, 2, ":" + second(a), ":" + second(b));
    SeparatorOrder(':', minute(a), minute(b));
    PartOrder(a.hour, b.hour, 2, ":" + minute(a), ":" + minute(b));
  }

  lemma PrintOrder(a: Civil, b: Civil)
    requires ValidCivil(a) && ValidCivil(b)
    ensures StrLess(Print(a), Print(b)) <==> CivilLess(a, b)
  {
    assert Pow10(2) == 100 && Pow10(4) == 10000;
    var day := (c: Civil) => PadDec(c.day, 2) + ("T" + Clock(c));
    var month := (c: Civil) => PadDec(c.month, 2) + ("-" + day(c));
    ClockOrder(a, b);
    SeparatorOrder('T', Clock(a), Clock(b));
    PartOrder(a.day, b.day, 2, "T" + Clock(a), "T" + Clock(b));
    SeparatorOrder('-', day(a), day(b));
    PartOrder(a.month, b.month, 2, "-" + day(a), "-" + day(b));
    SeparatorOrder('-', month(a), month(b));
    PartOrder(a.year, b.year, 4, "-" + month(a), "-" + month(b));
  }

  // Reading a timestamp

  /** The numbers at their fixed places in a text of the printed shape. */
  function Fields(s: string): Option<Civil> {
    if |s| == 20 && s[4] == '-' && s[7] == '-' && s[10] == 'T' && s[13] == ':' && s[16] == ':' && s[19] == 'Z'
       && AllDigits(s[..4]) && AllDigits(s[5..7]) && AllDigits(s[8..10])
       && AllDigits(s[11..13]) && AllDigits(s[14..16]) && AllDigits(s[17..19]) then
      Some(Civil(Value(s[..4]), Value(s[5..7]), Value(s[8..10]),
                 Value(s[11..13]), Value(s[14..16]), Value(s[17..19])))
    else None
  }

  lemma DatePlaces(y: string, m: string, d: string, clock: string)
    requires |y| == 4 && |m| == 2 && |d| == 2 && |clock| == 9
    ensures var s := y + ("-" + (m + ("-" + (d + ("T" + clock)))));
            |s| == 20 && s[..4] == y && s[4] == '-' && s[5..7] == m && s[7] == '-' && s[8..10] == d && s[10] == 'T'
            && s[11..] == clock
  {
  }

  lemma ClockPlaces(h: string, m: string, s: string)
    requires |h| == 2 && |m| == 2 && |s| == 2
    ensures var t := h + (":" + (m + (":" + (s + "Z"))));
            |t| == 9 && t[..2] == h && t[2] == ':' && t[3..5] == m && t[5] == ':' && t[6..8] == s && t[8] == 'Z'
  {
  }

  lemma TwoDigits(n: nat)
    requires n < 100
    ensures |PadDec(n, 2)| == 2 && Value(PadDec(n, 2)) == n
  {
    assert Pow10(2) == 100;
    DecLength(n, 2);
    PadDecValue(n, 2);
  }

  lemma FieldsInvertsPrint(c: Civil)
    requires ValidCivil(c)
    ensures Fields(Print(c)) == Some(c)
  {
    assert Pow10(4) == 10000;
    DecLength(c.year, 4);
    PadDecValue(c.year, 4);
    TwoDigits(c.month); TwoDigits(c.day); TwoDigits(c.hour); TwoDigits(c.minute); TwoDigits(c.second);
    ClockPlaces(PadDec(c.hour, 2), PadDec(c.minute, 2), PadDec(c.second, 2));
    DatePlaces(PadDec(c.year, 4), PadDec(c.month, 2), PadDec(c.day, 2), Clock(c));
    SubClock(Print(c), Clock(c));
  }

  lemma SubClock(s: string, t: string)
    requires |s| == 20 && |t| == 9 && s[11..] == t
    ensures s[11..13] == t[..2] && s[13] == t[2] && s[14..16] == t[3..5] && s[16] == t[5]
    ensures s[17..19] == t[6..8] && s[19] == t[8]
  {
    assert forall i | 0 <= i < 9 :: s[11 + i] == t[i];
  }

  predicate InRange(t: Time) {
    0 <= t < END_OF_TIME
  }

  /** Outside the years 1 to 9999 Go prints a year that no reader accepts; any such text will do. */
  const UNREADABLE := "year out of range"

  /** `t.UTC().Format(time.RFC3339)`: the fraction of the second is cut off. */
  function FormatTime(t: Time): string {
    if InRange(t) then Print(ToCivil(t / SECOND)) else UNREADABLE
  }

  /** `time.Parse(time.RFC3339, s)` on UTC texts with whole seconds. */
  function ParseTime(s: string): Option<Time> {
    var c := Fields(s);
    if c.Some? && ValidCivil(c.value) then Some(SecondNumber(c.value) * SECOND) else None
  }

  /** The whole second an instant lies in. */
  function Truncate(t: Time): Time {
    t / SECOND * SECOND
  }

  /** Reading back what was written loses the fraction of the second and nothing else. */
  lemma ParseInvertsFormat(t: Time)
    ensures ParseTime(FormatTime(t)) == if InRange(t) then Some(Truncate(t)) else None
  {
    if InRange(t) {
      FieldsInvertsPrint(ToCivil(t / SECOND));
    }
  }

  /** Timestamps of the years 1 to 9999 sort as strings in the order of their seconds. */
  lemma FormatOrder(t: Time, u: Time)
    requires InRange(t) && InRange(u)
    ensures StrLess(FormatTime(t), FormatTime(u)) <==> Truncate(t) < Truncate(u)
    ensures FormatTime(t) == FormatTime(u) <==> Truncate(t) == Truncate(u)
  {
    var a, b := ToCivil(t / SECOND), ToCivil(u / SECOND);
    PrintOrder(a, b);
    CivilOrder(a, b);
    FieldsInvertsPrint(a);
    FieldsInvertsPrint(b);
  }

  lemma PadsBack(s: string, w: nat)
    requires |s| == w > 0 && AllDigits(s)
    ensures PadDec(Value(s), w) == s
  {
    ValueBound(s);
    DecLength(Value(s), w);
    PadDecValue(Value(s), w);
    SameValue(PadDec(Value(s), w), s);
  }

  lemma PrintInvertsFields(s: string)
    requires Fields(s).Some?
    ensures Print(Fields(s).value) == s
  {
    hide Value, PadDec;
    PadsBack(s[..4], 4);
    PadsBack(s[5..7], 2); PadsBack(s[8..10], 2);
    PadsBack(s[11..13], 2); PadsBack(s[14..16], 2); PadsBack(s[17..19], 2);
    assert s[17..] == s[17..19] + "Z";
    assert s[14..] == s[14..16] + (":" + s[17..]);
    assert s[11..] == s[11..13] + (":" + s[14..]);
    assert s[8..] == s[8..10] + ("T" + s[11..]);
    assert s[5..] == s[5..7] + ("-" + s[8..]);
    assert s == s[..4] + ("-" + s[5..]);
  }

  /** Nothing is read but what would be written: a text is read as an instant exactly when that instant, a
      whole second of the years 1 to 9999, is written so. */
  lemma ParsesExactly(s: string, t: Time)
    ensures ParseTime(s) == Some(t) <==> InRange(t) && Truncate(t) == t && FormatTime(t) == s
  {
    hide ParseTime, FormatTime;
    if ParseTime(s) == Some(t) {
      ReadIsWritten(s, t);
    }
    if InRange(t) {
      ParseInvertsFormat(t);
    }
  }

  lemma ReadIsWritten(s: string, t: Time)
    requires ParseTime(s) == Some(t)
    ensures InRange(t) && Truncate(t) == t && FormatTime(t) == s
  {
    hide Fields, Print, ToCivil;
    var c := Fields(s).value;
    PrintInvertsFields(s);
    LastSecond(c);
    CivilOf(c);
  }

  lemma CivilOf(c: Civil)
    requires ValidCivil(c)
    ensures SecondNumber(c) < DaysBeforeYear(10000) * 86400 && ToCivil(SecondNumber(c)) == c
  {
    LastSecond(c);
    CivilOrder(ToCivil(SecondNumber(c)), c);
  }

  lemma LastSecond(c: Civil)
    requires ValidCivil(c)
    ensures SecondNumber(c) < DaysBeforeYear(10000) * 86400
  {
    TwelveMonths(c.year);
    LaterMonth(c.year, c.month, 13);
    LaterYear(c.year, 10000);
  }

  /** The lengths of the months, added up. */
  lemma MonthTable(year: nat)
    ensures var leap := if year % 4 == 0 && (year % 100 != 0 || year % 400 == 0) then 1 else 0;
            && DaysBeforeMonth(year, 2) == 31 && DaysBeforeMonth(year, 3) == 59 + leap
            && DaysBeforeMonth(year, 4) == 90 + leap && DaysBeforeMonth(year, 5) == 120 + leap
            && DaysBeforeMonth(year, 6) == 151 + leap && DaysBeforeMonth(year, 7) == 181 + leap
            && DaysBeforeMonth(year, 8) == 212 + leap && DaysBeforeMonth(year, 9) == 243 + leap
            && DaysBeforeMonth(year, 10) == 273 + leap && DaysBeforeMonth(year, 11) == 304 + leap
            && DaysBeforeMonth(year, 12) == 334 + leap && DaysBeforeMonth(year, 13) == 365 + leap
  {
    assert DaysBeforeMonth(year, 3) == DaysBeforeMonth(year, 2) + DaysInMonth(year, 2);
    assert DaysBeforeMonth(year, 4) == DaysBeforeMonth(year, 3) + 31;
    assert DaysBeforeMonth(year, 5) == DaysBeforeMonth(year, 4) + 30;
    assert DaysBeforeMonth(year, 6) == DaysBeforeMonth(year, 5) + 31;
    assert DaysBeforeMonth(year, 7) == DaysBeforeMonth(year, 6) + 30;
    assert DaysBeforeMonth(year, 8) == DaysBeforeMonth(year, 7) + 31;
    assert DaysBeforeMonth(year, 9) == DaysBeforeMonth(year, 8) + 31;
    assert DaysBeforeMonth(year, 10) == DaysBeforeMonth(year, 9) + 30;
    assert DaysBeforeMonth(year, 11) == DaysBeforeMonth(year, 10) + 31;
    assert DaysBeforeMonth(year, 12) == DaysBeforeMonth(year, 11) + 30;
  }

  lemma TwoDigitText(n: nat)
    requires n < 10
    ensures PadDec(n, 2) == ['0', DigitChar(n)]
  {
    assert Dec(n) == [DigitChar(n)];
  }

  lemma Decimal1970()
    ensures PadDec(1970, 4) == "1970"
  {
    assert Dec(1) == "1" && Dec(19) == "19" && Dec(197) == "197" && Dec(1970) == "1970";
  }

  /** The shape of a written timestamp, on the Unix epoch: 719162 days after the zero time. */
  lemma EpochText(days: nat, t: Time)
    requires days == 719162 && t == days * 86400 * SECOND
    ensures FormatTime(t) == "1970-01-01T00:00:00Z"
  {
    hide FormatTime, Print, ToCivil, DaysBeforeYear;
    var c := Civil(1970, 1, 1, 0, 0, 0);
    EpochIsCivil(c, days * 86400);
    FormatOf(t, days * 86400, c);
    EpochPrints(c);
  }

  lemma FormatOf(t: Time, seconds: nat, c: Civil)
    requires t == seconds * SECOND && seconds < DaysBeforeYear(10000) * 86400 && ToCivil(seconds) == c
    ensures FormatTime(t) == Print(c)
  {
    hide ToCivil, Print;
    assert t / SECOND == seconds;
  }

  lemma EpochPrints(c: Civil)
    requires c == Civil(1970, 1, 1, 0, 0, 0)
    ensures Print(c) == "1970-01-01T00:00:00Z"
  {
    hide PadDec;
    TwoDigitText(0);
    TwoDigitText(1);
    Decimal1970();
  }

  lemma EpochIsCivil(c: Civil, n: nat)
    requires c == Civil(1970, 1, 1, 0, 0, 0) && n == 719162 * 86400
    ensures n < DaysBeforeYear(10000) * 86400 && ToCivil(n) == c
  {
    hide ToCivil, SecondNumber, ValidCivil;
    EpochNumber(c, n);
    CivilOf(c);
  }

  lemma EpochNumber(c: Civil, n: nat)
    requires c == Civil(1970, 1, 1, 0, 0, 0) && n == 719162 * 86400
    ensures ValidCivil(c) && SecondNumber(c) == n
  {
    hide DaysBeforeMonth, DaysBeforeYear;
    EpochDay(c.year, c.month);
    assert DayNumber(c) == 719162;
  }

  lemma EpochDay(year: nat, month: nat)
    requires year == 1970 && month == 1
    ensures DaysBeforeYear(year) == 719162 && DaysBeforeMonth(year, month) == 0
  {
  }
}
