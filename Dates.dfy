// Naive local calendar dates: parseLocalDate and getDaysBetween (logic.ts:14-23)
// and the zero-padded `YYYY-MM-DD` text the report engine builds (logic.ts:42).
//
// A JavaScript Date built as `new Date(y, m - 1, d)` is modelled by the triple
// (y, m, d) when that triple is a real Gregorian calendar date; comparing two
// such Date objects is the lexicographic comparison of the triples
// (LexOrderIsDayOrder), and the millisecond difference of getDaysBetween is the
// difference of their day numbers.
module Dates {
  import opened Types

  datatype Date = Date(year: int, month: int, day: int)

  // ---------------------------------------------------------------------------
  // The Gregorian calendar
  // ---------------------------------------------------------------------------

  predicate IsLeapYear(y: int) {
    y % 4 == 0 && (y % 100 != 0 || y % 400 == 0)
  }

  function DaysInMonth(y: int, m: int): (n: int)
    requires 1 <= m <= 12
    ensures 28 <= n <= 31
    ensures m == 2 ==> n == (if IsLeapYear(y) then 29 else 28)
  {
    if m == 2 then (if IsLeapYear(y) then 29 else 28)
    else if m == 4 || m == 6 || m == 9 || m == 11 then 30
    else 31
  }

  predicate IsCalendarDate(x: Date) {
    1 <= x.month <= 12 && 1 <= x.day <= DaysInMonth(x.year, x.month)
  }

  /** `a <= b` for the Date objects the triples stand for. */
  predicate LessEq(a: Date, b: Date) {
    a.year < b.year ||
    (a.year == b.year && (a.month < b.month || (a.month == b.month && a.day <= b.day)))
  }

  /** The calendar day after x. */
  function NextDay(x: Date): Date
    requires IsCalendarDate(x)
  {
    if x.day < DaysInMonth(x.year, x.month) then Date(x.year, x.month, x.day + 1)
    else if x.month < 12 then Date(x.year, x.month + 1, 1)
    else Date(x.year + 1, 1, 1)
  }

  /** Days of the years before y, counted from 0001-01-01 (proleptic Gregorian). */
  function DaysBeforeYear(y: int): int {
    365 * (y - 1) + (y - 1) / 4 - (y - 1) / 100 + (y - 1) / 400
  }

  /** Days of the months of year y before month m. */
  function DaysBeforeMonth(y: int, m: int): int
    requires 1 <= m <= 12
  {
    [0, 31, 59, 90, 120, 151, 181, 212, 243, 273, 304, 334][m - 1]
      + (if m > 2 && IsLeapYear(y) then 1 else 0)
  }

  /** Day number of x; 0001-01-01 is day 0. */
  function DayNumber(x: Date): int
    requires IsCalendarDate(x)
  {
    DaysBeforeYear(x.year) + DaysBeforeMonth(x.year, x.month) + x.day - 1
  }

  /** Stepping from y - 1 to y crosses a multiple of k exactly when k divides y. */
  lemma CrossesMultiple(y: int, k: int)
    requires k == 4 || k == 100 || k == 400
    ensures y / k - (y - 1) / k == (if y % k == 0 then 1 else 0)
  {
    var q, r := y / k, y % k;
    assert y == k * q + r && 0 <= r < k;
    if r == 0 {
      assert y - 1 == k * (q - 1) + (k - 1);
    } else {
      assert y - 1 == k * q + (r - 1);
    }
  }

  lemma YearLength(y: int)
    ensures DaysBeforeYear(y + 1) == DaysBeforeYear(y) + (if IsLeapYear(y) then 366 else 365)
  {
    var c4, c100, c400 := y / 4 - (y - 1) / 4, y / 100 - (y - 1) / 100, y / 400 - (y - 1) / 400;
    assert DaysBeforeYear(y + 1) == DaysBeforeYear(y) + 365 + c4 - c100 + c400;
    CrossesMultiple(y, 4);
    CrossesMultiple(y, 100);
    CrossesMultiple(y, 400);
    if y % 400 == 0 {
      var q := y / 400;
      assert y == 100 * (4 * q) && y == 4 * (100 * q);
      assert c4 == 1 && c100 == 1 && c400 == 1 && IsLeapYear(y);
    } else if y % 100 == 0 {
      var q := y / 100;
      assert y == 4 * (25 * q);
      assert c4 == 1 && c100 == 1 && c400 == 0 && !IsLeapYear(y);
    } else {
      assert c100 == 0 && c400 == 0;
    }
  }

  lemma MonthLength(y: int, m: int)
    requires 1 <= m < 12
    ensures DaysBeforeMonth(y, m + 1) == DaysBeforeMonth(y, m) + DaysInMonth(y, m)
  {
  }

  /** The day after x is a calendar date one day number later. */
  lemma NextDayNumber(x: Date)
    requires IsCalendarDate(x)
    ensures IsCalendarDate(NextDay(x))
    ensures DayNumber(NextDay(x)) == DayNumber(x) + 1
    ensures LessEq(x, NextDay(x)) && x != NextDay(x)
  {
    if x.day < DaysInMonth(x.year, x.month) {
    } else if x.month < 12 {
      MonthLength(x.year, x.month);
    } else {
      YearLength(x.year);
    }
  }

  lemma {:induction false} YearsAreOrdered(a: int, b: int)
    requires a <= b
    ensures DaysBeforeYear(a) + (b - a) * 365 <= DaysBeforeYear(b)
    decreases b - a
  {
    if a < b {
      YearsAreOrdered(a, b - 1);
      YearLength(b - 1);
    }
  }

  lemma DayNumberWithinYear(x: Date)
    requires IsCalendarDate(x)
    ensures DaysBeforeYear(x.year) <= DayNumber(x) < DaysBeforeYear(x.year + 1)
  {
    YearLength(x.year);
  }

  /**
   * Lexicographic order of calendar triples is the order of their day numbers,
   * so comparing the triples is comparing the Date objects of logic.ts:51.
   */
  lemma LexOrderIsDayOrder(a: Date, b: Date)
    requires IsCalendarDate(a) && IsCalendarDate(b)
    ensures LessEq(a, b) <==> DayNumber(a) <= DayNumber(b)
    ensures a == b <==> DayNumber(a) == DayNumber(b)
  {
    if a != b {
      if LessEq(a, b) {
        EarlierDayNumber(a, b);
      } else {
        EarlierDayNumber(b, a);
      }
    }
  }

  lemma EarlierDayNumber(a: Date, b: Date)
    requires IsCalendarDate(a) && IsCalendarDate(b)
    requires LessEq(a, b) && a != b
    ensures DayNumber(a) < DayNumber(b)
  {
    if a.year < b.year {
      DayNumberWithinYear(a);
      DayNumberWithinYear(b);
      YearsAreOrdered(a.year + 1, b.year);
    } else if a.month < b.month {
      MonthsAreOrdered(a.year, a.month, b.month);
    }
  }

  lemma MonthsAreOrdered(y: int, m: int, n: int)
    requires 1 <= m < n <= 12
    ensures DaysBeforeMonth(y, m) + DaysInMonth(y, m) <= DaysBeforeMonth(y, n)
  {
  }

  // ---------------------------------------------------------------------------
  // Text: String(n), padStart(2, '0'), split('-'), Number(field)
  // ---------------------------------------------------------------------------

  predicate IsDigit(c: char) {
    '0' <= c <= '9'
  }

  predicate AllDigits(s: string) {
    forall i :: 0 <= i < |s| ==> IsDigit(s[i])
  }

  function DigitChar(n: int): (c: char)
    requires 0 <= n < 10
    ensures IsDigit(c) && c as int - '0' as int == n
  {
    ('0' as int + n) as char
  }

  /** Number(s) for a field of decimal digits; Number("") is 0. */
  function DigitsValue(s: string): (n: nat)
    requires AllDigits(s)
  {
    if s == [] then 0
    else 10 * DigitsValue(s[..|s| - 1]) + (s[|s| - 1] as int - '0' as int)
  }

  /** String(n) for a non-negative integer. */
  function DecimalString(n: nat): string {
    if n < 10 then [DigitChar(n)] else DecimalString(n / 10) + [DigitChar(n % 10)]
  }

  /** The decimal text of n is a dash-free run of digits worth n, without a leading zero. */
  lemma {:induction false} DecimalStringDigits(n: nat)
    ensures var s := DecimalString(n);
      |s| >= 1 && AllDigits(s) && '-' !in s && DigitsValue(s) == n && (|s| == 1 <==> n < 10) &&
      (n >= 10 ==> s[0] != '0')
  {
    if n >= 10 {
      DecimalStringDigits(n / 10);
      var s := DecimalString(n);
      assert s[..|s| - 1] == DecimalString(n / 10);
      assert s[0] == DecimalString(n / 10)[0];
    }
  }

  /** The decimal text of n, padded on the left with '0' to two characters. */
  function Pad2(n: nat): string {
    var t := DecimalString(n);
    if |t| < 2 then "0" + t else t
  }

  /** The padded text is a dash-free run of at least two digits worth n, exactly two below 100. */
  lemma Pad2Digits(n: nat)
    ensures var s := Pad2(n); |s| >= 2 && AllDigits(s) && '-' !in s && DigitsValue(s) == n
    ensures n < 100 ==> |Pad2(n)| == 2
  {
    DecimalStringDigits(n);
    var t := DecimalString(n);
    if |t| < 2 {
      LeadingZero(t);
    } else if n < 100 {
      DecimalStringDigits(n / 10);
    }
  }

  lemma {:induction false} LeadingZero(s: string)
    requires AllDigits(s)
    ensures AllDigits("0" + s) && DigitsValue("0" + s) == DigitsValue(s)
  {
    if s != [] {
      var p := s[..|s| - 1];
      LeadingZero(p);
      assert ("0" + s)[..|s|] == "0" + p;
    }
  }

  /** dateStr.split('-'): the maximal dash-free fields, in order. */
  function Split(s: string): (parts: seq<string>)
    ensures |parts| >= 1
  {
    if s == [] then [""]
    else
      var rest := Split(s[1..]);
      if s[0] == '-' then [""] + rest
      else [[s[0]] + rest[0]] + rest[1..]
  }

  /** parts.join('-') */
  function Join(parts: seq<string>): string
    requires |parts| >= 1
  {
    if |parts| == 1 then parts[0] else parts[0] + "-" + Join(parts[1..])
  }

  /** The fields are dash-free and joining them with '-' gives the text back. */
  lemma {:induction false} SplitJoin(s: string)
    ensures forall i :: 0 <= i < |Split(s)| ==> '-' !in Split(s)[i]
    ensures Join(Split(s)) == s
  {
    if s != [] {
      SplitJoin(s[1..]);
      var rest := Split(s[1..]);
      if s[0] == '-' {
        assert ([""] + rest)[1..] == rest;
        assert s == "" + "-" + s[1..];
      } else {
        var parts := [[s[0]] + rest[0]] + rest[1..];
        assert parts[1..] == rest[1..];
        if |rest| == 1 {
          assert s == [s[0]] + s[1..];
        } else {
          assert rest == [rest[0]] + rest[1..];
          assert s == [s[0]] + s[1..];
        }
      }
    }
  }

  lemma {:induction false} SplitField(a: string, b: string)
    requires '-' !in a
    ensures Split(a + "-" + b) == [a] + Split(b)
  {
    if a == [] {
      assert (a + "-" + b)[1..] == b;
    } else {
      var s := a + "-" + b;
      assert s[0] == a[0] && s[1..] == a[1..] + "-" + b;
      SplitField(a[1..], b);
      var rest := Split(s[1..]);
      assert rest == [a[1..]] + Split(b);
      assert [a[0]] + rest[0] == a;
      assert rest[1..] == Split(b);
    }
  }

  lemma {:induction false} SplitLastField(a: string)
    requires '-' !in a
    ensures Split(a) == [a]
  {
    if a != [] {
      SplitLastField(a[1..]);
      assert a[0] != '-' && [a[0]] + a[1..] == a;
    }
  }

  // ---------------------------------------------------------------------------
  // parseLocalDate, getDaysBetween and the `YYYY-MM-DD` format
  // ---------------------------------------------------------------------------

  /** `new Date(y, m - 1, d)` takes a year 0..99 as 1900 + y. */
  function FullYear(y: int): int {
    if 0 <= y <= 99 then 1900 + y else y
  }

  /**
   * parseLocalDate: split on '-', Number() the first three fields and build a
   * local-midnight Date. None stands for an Invalid Date (a missing field or a
   * field that is not a run of digits gives NaN) and for a triple that is not
   * a real calendar date.
   */
  function ParseLocalDate(s: string): (r: Option<Date>)
    ensures r.Some? ==> IsCalendarDate(r.value)
  {
    var f := Split(s);
    if |f| < 3 || !AllDigits(f[0]) || !AllDigits(f[1]) || !AllDigits(f[2]) then None
    else
      var x := Date(FullYear(DigitsValue(f[0])), DigitsValue(f[1]), DigitsValue(f[2]));
      if IsCalendarDate(x) then Some(x) else None
  }

  /** The report's date text: the year in decimal, then month and day padded to two digits, joined by dashes. */
  function FormatDate(x: Date): (s: string)
    requires x.year >= 0 && x.month >= 0 && x.day >= 0
  {
    DecimalString(x.year) + "-" + Pad2(x.month) + "-" + Pad2(x.day)
  }

  /** Parsing the text the engine builds gives back the date it was built from. */
  lemma ParseFormat(x: Date)
    requires IsCalendarDate(x) && x.year >= 100
    ensures ParseLocalDate(FormatDate(x)) == Some(x)
  {
    var y, m, d := DecimalString(x.year), Pad2(x.month), Pad2(x.day);
    DecimalStringDigits(x.year);
    Pad2Digits(x.month);
    Pad2Digits(x.day);
    assert FormatDate(x) == y + "-" + (m + "-" + d);
    SplitField(y, m + "-" + d);
    SplitField(m, d);
    SplitLastField(d);
    assert Split(FormatDate(x)) == [y, m, d];
  }

  /** Two calendar dates of years from 100 on are formatted alike only if equal. */
  lemma FormatInjective(a: Date, b: Date)
    requires IsCalendarDate(a) && a.year >= 100
    requires IsCalendarDate(b) && b.year >= 100
    ensures FormatDate(a) == FormatDate(b) <==> a == b
  {
    ParseFormat(a);
    ParseFormat(b);
  }

  /** The number of dashes in a text. */
  function DashCount(s: string): nat {
    if s == [] then 0 else (if s[0] == '-' then 1 else 0) + DashCount(s[1..])
  }

  /** Splitting on '-' gives one field more than there are dashes. */
  lemma {:induction false} SplitCount(s: string)
    ensures |Split(s)| == DashCount(s) + 1
  {
    if s != [] {
      SplitCount(s[1..]);
    }
  }

  /** A text with fewer than two dashes has fewer than three fields: an Invalid Date. */
  lemma ParseNeedsTwoDashes(s: string)
    ensures ParseLocalDate(s).Some? ==> DashCount(s) >= 2
  {
    SplitCount(s);
  }

  /**
   * Any text whose first three dash-separated fields are y, m and d is read as
   * that triple, padded or not and whatever follows a third dash: it is a date
   * exactly when all three fields are digits naming a calendar date (a year of
   * two digits or fewer counting from 1900).
   */
  lemma ParseFields(y: string, m: string, d: string, tail: string)
    requires '-' !in y && '-' !in m && '-' !in d
    requires tail == [] || tail[0] == '-'
    ensures var r := ParseLocalDate(y + "-" + m + "-" + d + tail);
      (r.Some? <==> AllDigits(y) && AllDigits(m) && AllDigits(d) &&
                    IsCalendarDate(Date(FullYear(DigitsValue(y)), DigitsValue(m), DigitsValue(d)))) &&
      (r.Some? ==> r.value == Date(FullYear(DigitsValue(y)), DigitsValue(m), DigitsValue(d)))
  {
    SplitThree(y, m, d, tail);
  }

  lemma SplitThree(y: string, m: string, d: string, tail: string)
    requires '-' !in y && '-' !in m && '-' !in d
    requires tail == [] || tail[0] == '-'
    ensures var f := Split(y + "-" + m + "-" + d + tail);
      |f| >= 3 && f[0] == y && f[1] == m && f[2] == d
  {
    var t := d + tail;
    SplitHead(d, tail);
    var t2 := m + "-" + t;
    SplitField(m, t);
    SplitField(y, t2);
    assert y + "-" + m + "-" + d + tail == y + "-" + t2;
  }

  /** A dash-free field ending the text or followed by a dash is the first field. */
  lemma SplitHead(a: string, tail: string)
    requires '-' !in a
    requires tail == [] || tail[0] == '-'
    ensures Split(a + tail)[0] == a
  {
    if tail == [] {
      SplitLastField(a);
      assert a + tail == a;
    } else {
      SplitField(a, tail[1..]);
      assert a + "-" + tail[1..] == a + tail;
    }
  }

  /**
   * getDaysBetween: whole days from the first date to the second; None is the
   * NaN the source returns when either string is an Invalid Date.
   */
  function GetDaysBetween(startStr: string, endStr: string): (r: Option<int>)
    ensures r.Some? <==> ParseLocalDate(startStr).Some? && ParseLocalDate(endStr).Some?
  {
    match (ParseLocalDate(startStr), ParseLocalDate(endStr))
    case (Some(s), Some(e)) => Some(DayNumber(e) - DayNumber(s))
    case _ => None
  }

  lemma DaysBetweenSelf(s: string)
    requires ParseLocalDate(s).Some?
    ensures GetDaysBetween(s, s) == Some(0)
  {
  }

  lemma DaysBetweenAntisymmetric(a: string, b: string)
    ensures GetDaysBetween(a, b).Some? <==> GetDaysBetween(b, a).Some?
    ensures GetDaysBetween(a, b).Some? ==> GetDaysBetween(a, b).value == -GetDaysBetween(b, a).value
  {
  }

  /** The formatted texts of two consecutive calendar days are one day apart. */
  lemma DaysBetweenNextDay(x: Date)
    requires IsCalendarDate(x) && x.year >= 100
    ensures GetDaysBetween(FormatDate(x), FormatDate(NextDay(x))) == Some(1)
  {
    NextDayNumber(x);
    ParseFormat(x);
    ParseFormat(NextDay(x));
  }

  /** The sign of getDaysBetween is the order the engine compares dates by. */
  lemma DaysBetweenSign(a: string, b: string)
    requires ParseLocalDate(a).Some? && ParseLocalDate(b).Some?
    ensures GetDaysBetween(a, b).value >= 0 <==> LessEq(ParseLocalDate(a).value, ParseLocalDate(b).value)
  {
    LexOrderIsDayOrder(ParseLocalDate(a).value, ParseLocalDate(b).value);
  }
}
