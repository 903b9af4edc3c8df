/** Calendar dates: their text, their order, and the days they count. */
module Calendar {
  import opened Wrappers
  import opened Ordering
  import opened Text

  datatype Date = Date(year: nat, month: nat, day: nat)

  predicate IsLeap(year: nat) {
    year % 4 == 0 && (year % 100 != 0 || year % 400 == 0)
  }

  function DaysIn(year: nat, month: nat): nat {
    if month == 2 then (if IsLeap(year) then 29 else 28)
    else if month in {4, 6, 9, 11} then 30
    else 31
  }

  predicate OnCalendar(d: Date) {
    1 <= d.year <= 9999 && 1 <= d.month <= 12 && 1 <= d.day <= DaysIn(d.year, d.month)
  }

  predicate DateLess(a: Date, b: Date) {
    a.year < b.year || (a.year == b.year && (a.month < b.month || (a.month == b.month && a.day < b.day)))
  }

  /** `\d{4}-\d{2}-\d{2}` */
  predicate IsDateText(s: string) {
    && |s| == 10 && s[4] == '-' && s[7] == '-'
    && forall i :: 0 <= i < 10 && i != 4 && i != 7 ==> IsDigit(s[i])
  }

  /** `date.fromisoformat` on text of that shape. */
  function ParseDate(s: string): Option<Date>
    requires IsDateText(s)
  {
    var d := Date(FromDecimal(s[..4]), FromDecimal(s[5..7]), FromDecimal(s[8..]));
    if OnCalendar(d) then Some(d) else None
  }

  // ---------------------------------------------------------------- the days of the calendar

  /** The days before year `y` in the Gregorian calendar, carried back to year 1. */
  function YearStart(y: int): int {
    365 * (y - 1) + (y - 1) / 4 - (y - 1) / 100 + (y - 1) / 400
  }

  /** The days before a month; from March on they count as in a year that begins with March. */
  function MonthStart(y: int, m: int): int {
    if m <= 2 then YearStart(y) + 31 * (m - 1) else YearStart(y + 1) - 306 + (153 * (m - 3) + 2) / 5
  }

  /** `date.toordinal`: 1 January of year 1 is day 1. */
  function Ordinal(d: Date): int {
    MonthStart(d.year, d.month) + d.day
  }

  lemma {:induction false} QuotientStep(n: int, k: int)
    requires n >= 1 && (k == 4 || k == 100 || k == 400)
    ensures n / k == (n - 1) / k + if n % k == 0 then 1 else 0
  {
    if k == 4 {
      assert n == 4 * (n / 4) + n % 4;
    } else if k == 100 {
      assert n == 100 * (n / 100) + n % 100;
    } else {
      assert n == 400 * (n / 400) + n % 400;
    }
  }

  lemma {:induction false} Multiples(a: int, b: int)
    ensures (400 * a) % 100 == 0 && (100 * b) % 4 == 0
  {
    assert 400 * a == 100 * (4 * a) && 100 * b == 4 * (25 * b);
  }

  lemma {:induction false} LeapCentury(y: int)
    requires y >= 1
    ensures y % 400 == 0 ==> y % 100 == 0
    ensures y % 100 == 0 ==> y % 4 == 0
  {
    Multiples(y / 400, y / 100);
    if y % 400 == 0 { assert y == 400 * (y / 400); }
    if y % 100 == 0 { assert y == 100 * (y / 100); }
  }

  lemma {:induction false} YearGrowsBy(y: int, a: int, b: int, c: int)
    requires y / 4 == (y - 1) / 4 + a && y / 100 == (y - 1) / 100 + b && y / 400 == (y - 1) / 400 + c
    ensures YearStart(y + 1) == YearStart(y) + 365 + a - b + c
  {
  }

  /** A year has 366 days if it is a leap year, and 365 otherwise. */
  lemma {:induction false} YearEnds(y: nat)
    requires y >= 1
    ensures YearStart(y + 1) == YearStart(y) + if IsLeap(y) then 366 else 365
  {
    QuotientStep(y, 4);
    QuotientStep(y, 100);
    QuotientStep(y, 400);
    LeapCentury(y);
    YearGrowsBy(y, if y % 4 == 0 then 1 else 0, if y % 100 == 0 then 1 else 0, if y % 400 == 0 then 1 else 0);
  }

  lemma {:induction false} MonthEnds(y: nat, m: nat)
    requires y >= 1 && 1 <= m <= 12
    ensures MonthStart(y, m + 1) == MonthStart(y, m) + DaysIn(y, m)
  {
    YearEnds(y);
    assert m in {1, 2, 3, 4, 5, 6, 7, 8, 9, 10, 11, 12};
  }

  lemma {:induction false} MonthsGrow(y: nat, m: nat, n: nat)
    requires y >= 1 && 1 <= m <= n <= 13
    ensures MonthStart(y, m) <= MonthStart(y, n)
  {
    if m < n {
      MonthsGrow(y, m, n - 1);
      MonthEnds(y, n - 1);
    }
  }

  lemma {:induction false} YearsGrow(y: nat, z: nat)
    requires 1 <= y <= z
    ensures YearStart(y) <= YearStart(z)
  {
    if y < z {
      YearsGrow(y, z - 1);
      YearEnds(z - 1);
    }
  }

  /** Every date falls into its month, and its month into its year. */
  lemma {:induction false} OrdinalBounds(d: Date)
    requires OnCalendar(d)
    ensures YearStart(d.year) <= MonthStart(d.year, d.month) < Ordinal(d) <= MonthStart(d.year, d.month + 1) <= YearStart(d.year + 1)
  {
    MonthsGrow(d.year, 1, d.month);
    MonthEnds(d.year, d.month);
    MonthsGrow(d.year, d.month + 1, 13);
  }

  lemma {:induction false} EarlierHasSmallerOrdinal(a: Date, b: Date)
    requires OnCalendar(a) && OnCalendar(b) && DateLess(a, b)
    ensures Ordinal(a) < Ordinal(b)
  {
    OrdinalBounds(a);
    OrdinalBounds(b);
    if a.year < b.year {
      YearsGrow(a.year + 1, b.year);
    } else if a.month < b.month {
      MonthsGrow(a.year, a.month + 1, b.month);
    }
  }

  /** Dates are compared as the days they are. */
  lemma {:induction false} DatesAreOrderedByDay(a: Date, b: Date)
    requires OnCalendar(a) && OnCalendar(b)
    ensures DateLess(a, b) <==> Ordinal(a) < Ordinal(b)
    ensures a == b <==> Ordinal(a) == Ordinal(b)
  {
    if DateLess(a, b) { EarlierHasSmallerOrdinal(a, b); }
    if DateLess(b, a) { EarlierHasSmallerOrdinal(b, a); }
  }

  /** The calendar has every day from 1 January of year 1 to 31 December 9999, and no other. */
  lemma {:induction false} EveryDayHasItsDate(n: nat) returns (d: Date)
    requires 1 <= n <= 3652059
    ensures OnCalendar(d) && Ordinal(d) == n
  {
    if n == 1 {
      d := Date(1, 1, 1);
    } else {
      var e := EveryDayHasItsDate(n - 1);
      MonthEnds(e.year, e.month);
      YearEnds(e.year);
      assert YearStart(10000) == 3652059;
      d := if e.day < DaysIn(e.year, e.month) then e.(day := e.day + 1)
           else if e.month < 12 then Date(e.year, e.month + 1, 1)
           else Date(e.year + 1, 1, 1);
    }
  }

  lemma {:induction false} DatesAreDays(d: Date)
    requires OnCalendar(d)
    ensures 1 <= Ordinal(d) <= 3652059
  {
    OrdinalBounds(d);
    YearsGrow(1, d.year);
    YearsGrow(d.year + 1, 10000);
  }

  // ---------------------------------------------------------------- dates as text

  lemma {:induction false} LessConcat(a: string, b: string, c: string, d: string)
    requires |a| == |c|
    ensures Less(a + b, c + d) <==> Less(a, c) || (a == c && Less(b, d))
  {
    if a == "" {
      assert a + b == b && c + d == d;
    } else {
      assert (a + b)[1..] == a[1..] + b && (c + d)[1..] == c[1..] + d;
      LessConcat(a[1..], b, c[1..], d);
      assert a == [a[0]] + a[1..] && c == [c[0]] + c[1..];
    }
  }

  /** Dates are compared as their texts are. */
  lemma {:induction false} DatesAreOrderedAsText(s: string, t: string)
    requires IsDateText(s) && IsDateText(t) && ParseDate(s).Some? && ParseDate(t).Some?
    ensures DateLess(ParseDate(s).value, ParseDate(t).value) <==> Less(s, t)
    ensures ParseDate(s) == ParseDate(t) <==> s == t
  {
    var y, m, d := s[..4], s[5..7], s[8..];
    var u, n, e := t[..4], t[5..7], t[8..];
    assert s == y + ("-" + (m + ("-" + d))) && t == u + ("-" + (n + ("-" + e)));
    LessConcat(y, "-" + (m + ("-" + d)), u, "-" + (n + ("-" + e)));
    LessConcat("-", m + ("-" + d), "-", n + ("-" + e));
    LessConcat(m, "-" + d, n, "-" + e);
    LessConcat("-", d, "-", e);
    LessIrreflexive("-");
    DigitsOrder(y, u);
    DigitsOrder(m, n);
    DigitsOrder(d, e);
  }

  lemma {:induction false} OneMoreDigit(s: string, c: char)
    requires (forall i :: 0 <= i < |s| ==> IsDigit(s[i])) && IsDigit(c)
    ensures FromDecimal(s + [c]) == 10 * FromDecimal(s) + DigitValue(c)
  {
    assert (s + [c])[..|s|] == s;
  }

  lemma {:induction false} OneDigit(a: char)
    requires IsDigit(a)
    ensures FromDecimal([a]) == DigitValue(a)
  {
    assert [a][..0] == "";
  }

  lemma {:induction false} TwoDigits(a: char, b: char)
    requires IsDigit(a) && IsDigit(b)
    ensures FromDecimal([a, b]) == 10 * DigitValue(a) + DigitValue(b)
  {
    OneDigit(a);
    OneMoreDigit([a], b);
    assert [a] + [b] == [a, b];
  }

  lemma {:induction false} FourDigits(a: char, b: char, c: char, d: char)
    requires IsDigit(a) && IsDigit(b) && IsDigit(c) && IsDigit(d)
    ensures FromDecimal([a, b, c, d]) == 1000 * DigitValue(a) + 100 * DigitValue(b) + 10 * DigitValue(c) + DigitValue(d)
  {
    TwoDigits(a, b);
    OneMoreDigit([a, b], c);
    OneMoreDigit([a, b, c], d);
    assert [a, b] + [c] == [a, b, c] && [a, b, c] + [d] == [a, b, c, d];
  }

  /** The text of a date reads as year, month and day, if there is such a day. */
  lemma {:induction false} DateReads(s: string)
    requires IsDateText(s)
    ensures var d := Date(
        1000 * DigitValue(s[0]) + 100 * DigitValue(s[1]) + 10 * DigitValue(s[2]) + DigitValue(s[3]),
        10 * DigitValue(s[5]) + DigitValue(s[6]), 10 * DigitValue(s[8]) + DigitValue(s[9]));
      ParseDate(s) == if OnCalendar(d) then Some(d) else None
  {
    TwoDigits(s[5], s[6]);
    TwoDigits(s[8], s[9]);
    FourDigits(s[0], s[1], s[2], s[3]);
    assert s[..4] == [s[0], s[1], s[2], s[3]] && s[5..7] == [s[5], s[6]] && s[8..] == [s[8], s[9]];
  }
}
