/** Calendar dates as src/utils/date.ts handles them through JavaScript's
    `Date`: a local (year, month, day) triple. The `Date(y, m, d)` constructor
    is `MakeDate`: a year argument in 0..99 means 1900 + year, then a month
    index outside 0..11 rolls into neighbouring years, then a day outside the
    month rolls into neighbouring months. Time of day and time zones are not
    part of the model. */
module Dates {
  import opened Text
  import opened Wrappers

  /** `month` is 1..12 (JavaScript's `getMonth() + 1`). */
  datatype Date = Date(year: int, month: int, day: int)

  /** The Gregorian rule, extended to all years as JavaScript does. */
  predicate IsLeapYear(y: int) {
    (y % 4 == 0 && y % 100 != 0) || y % 400 == 0
  }

  function DaysInMonth(y: int, m: int): (n: int)
    requires 1 <= m <= 12
    ensures 28 <= n <= 31
    ensures n == 29 <==> m == 2 && IsLeapYear(y)
    ensures n < 30 <==> m == 2
  {
    if m == 2 then (if IsLeapYear(y) then 29 else 28)
    else if m == 4 || m == 6 || m == 9 || m == 11 then 30
    else 31
  }

  predicate IsValid(d: Date) {
    1 <= d.month <= 12 && 1 <= d.day <= DaysInMonth(d.year, d.month)
  }

  /** What a JavaScript `Date` (other than an invalid one) always denotes. */
  type CalendarDate = d: Date | IsValid(d) witness Date(1970, 1, 1)

  /** The year the `Date(year, monthIndex, day)` constructor actually uses. */
  function FullYear(y: int): int {
    if 0 <= y <= 99 then 1900 + y else y
  }

  /** The month before month index `mi` of year `y`, as (year, index). */
  function PrevMonth(y: int, mi: int): (int, int)
    requires 0 <= mi < 12
  {
    if mi == 0 then (y - 1, 11) else (y, mi - 1)
  }

  /** The month after month index `mi` of year `y`, as (year, index). */
  function NextMonth(y: int, mi: int): (int, int)
    requires 0 <= mi < 12
  {
    if mi == 11 then (y + 1, 0) else (y, mi + 1)
  }

  /** Moves a day number below 1 back through the previous months. */
  function RollBack(y: int, mi: int, d: int): CalendarDate
    requires 0 <= mi < 12 && d <= DaysInMonth(y, mi + 1)
    decreases 1 - d
  {
    if d >= 1 then Date(y, mi + 1, d)
    else
      var (py, pm) := PrevMonth(y, mi);
      RollBack(py, pm, d + DaysInMonth(py, pm + 1))
  }

  /** Moves a day number past the end of the month into the next months. */
  function RollForward(y: int, mi: int, d: int): CalendarDate
    requires 0 <= mi < 12 && d >= 1
    decreases d
  {
    if d <= DaysInMonth(y, mi + 1) then Date(y, mi + 1, d)
    else
      var (ny, nm) := NextMonth(y, mi);
      RollForward(ny, nm, d - DaysInMonth(y, mi + 1))
  }

  /** Rolls a day number that lies outside month `mi` (0-based) of year `y`
      into the neighbouring months until it fits. */
  function Normalize(y: int, mi: int, d: int): CalendarDate
    requires 0 <= mi < 12
  {
    if d < 1 then RollBack(y, mi, d) else RollForward(y, mi, d)
  }

  /** `new Date(year, monthIndex, day)`. */
  function MakeDate(year: int, monthIndex: int, day: int): CalendarDate {
    Normalize(FullYear(year) + monthIndex / 12, monthIndex % 12, day)
  }

  /** `new Date(year, monthIndex, day)` for a day that every month has: only
      the month index can overflow, into whole years (floor division). */
  function MonthDay(year: int, monthIndex: int, day: int): CalendarDate
    requires 1 <= day <= 28
  {
    Date(FullYear(year) + monthIndex / 12, monthIndex % 12 + 1, day)
  }

  /** For days 1 to 28 the closed form agrees with the general constructor. */
  lemma MonthDayIsMakeDate(year: int, monthIndex: int, day: int)
    requires 1 <= day <= 28
    ensures MonthDay(year, monthIndex, day) == MakeDate(year, monthIndex, day)
  {
    NormalizeValid(FullYear(year) + monthIndex / 12, monthIndex % 12, day);
  }

  // ----- Day numbers: the position of a date on a continuous day axis -----

  /** Leap years in [0, y) (negative for y < 0: minus those in [y, 0)). */
  function LeapYearsBefore(y: int): int {
    (y + 3) / 4 - (y + 99) / 100 + (y + 399) / 400
  }

  function DaysBeforeYear(y: int): int {
    365 * y + LeapYearsBefore(y)
  }

  function DaysBeforeMonth(y: int, m: int): int
    requires 1 <= m <= 13
  {
    [0, 31, 59, 90, 120, 151, 181, 212, 243, 273, 304, 334, 365][m - 1]
      + (if m > 2 && IsLeapYear(y) then 1 else 0)
  }

  /** Days from 0000-01-01 to `d`. */
  function DayNumber(d: CalendarDate): int {
    DaysBeforeYear(d.year) + DaysBeforeMonth(d.year, d.month) + d.day - 1
  }

  lemma YearLength(y: int)
    ensures DaysBeforeYear(y + 1) == DaysBeforeYear(y) + DaysBeforeMonth(y, 13)
  {
    QuotientStep4(y);
    QuotientStep100(y);
    QuotientStep400(y);
    DivisorChain(y);
  }

  lemma DivisorChain(y: int)
    ensures y % 400 == 0 ==> y % 100 == 0
    ensures y % 100 == 0 ==> y % 4 == 0
  {
    if y % 400 == 0 {
      var q := y / 400;
      assert y == 100 * (4 * q);
    }
    if y % 100 == 0 {
      var q := y / 100;
      assert y == 4 * (25 * q);
    }
  }

  lemma QuotientStep4(y: int)
    ensures (y + 4) / 4 == (y + 3) / 4 + (if y % 4 == 0 then 1 else 0)
  {
    var q, r := y / 4, y % 4;
    assert y == 4 * q + r && 0 <= r < 4;
    if r == 0 {
      assert (y + 4) / 4 == q + 1 && (y + 3) / 4 == q;
    } else {
      assert (y + 4) / 4 == q + 1 && (y + 3) / 4 == q + 1;
    }
  }

  lemma QuotientStep100(y: int)
    ensures (y + 100) / 100 == (y + 99) / 100 + (if y % 100 == 0 then 1 else 0)
  {
    var q, r := y / 100, y % 100;
    assert y == 100 * q + r && 0 <= r < 100;
    if r == 0 {
      assert (y + 100) / 100 == q + 1 && (y + 99) / 100 == q;
    } else {
      assert (y + 100) / 100 == q + 1 && (y + 99) / 100 == q + 1;
    }
  }

  lemma QuotientStep400(y: int)
    ensures (y + 400) / 400 == (y + 399) / 400 + (if y % 400 == 0 then 1 else 0)
  {
    var q, r := y / 400, y % 400;
    assert y == 400 * q + r && 0 <= r < 400;
    if r == 0 {
      assert (y + 400) / 400 == q + 1 && (y + 399) / 400 == q;
    } else {
      assert (y + 400) / 400 == q + 1 && (y + 399) / 400 == q + 1;
    }
  }

  lemma MonthLength(y: int, m: int)
    requires 1 <= m <= 12
    ensures DaysBeforeMonth(y, m + 1) == DaysBeforeMonth(y, m) + DaysInMonth(y, m)
  {
  }

  lemma {:induction false} RollBackDayNumber(y: int, mi: int, d: int)
    requires 0 <= mi < 12 && d <= DaysInMonth(y, mi + 1)
    ensures DayNumber(RollBack(y, mi, d)) == DaysBeforeYear(y) + DaysBeforeMonth(y, mi + 1) + d - 1
    decreases 1 - d
  {
    if d < 1 {
      var (py, pm) := PrevMonth(y, mi);
      RollBackDayNumber(py, pm, d + DaysInMonth(py, pm + 1));
      if mi == 0 {
        YearLength(y - 1);
        MonthLength(y - 1, 12);
      } else {
        MonthLength(y, mi);
      }
    }
  }

  lemma {:induction false} RollForwardDayNumber(y: int, mi: int, d: int)
    requires 0 <= mi < 12 && d >= 1
    ensures DayNumber(RollForward(y, mi, d)) == DaysBeforeYear(y) + DaysBeforeMonth(y, mi + 1) + d - 1
    decreases d
  {
    if d > DaysInMonth(y, mi + 1) {
      var (ny, nm) := NextMonth(y, mi);
      RollForwardDayNumber(ny, nm, d - DaysInMonth(y, mi + 1));
      MonthLength(y, mi + 1);
      if mi == 11 {
        YearLength(y);
      }
    }
  }

  /** Normalization lands `d - 1` days after the first of month `mi` of
      year `y`, wherever `d` lies. */
  lemma NormalizeDayNumber(y: int, mi: int, d: int)
    requires 0 <= mi < 12
    ensures DayNumber(Normalize(y, mi, d)) == DaysBeforeYear(y) + DaysBeforeMonth(y, mi + 1) + d - 1
  {
    if d < 1 {
      RollBackDayNumber(y, mi, d);
    } else {
      RollForwardDayNumber(y, mi, d);
    }
  }

  /** A date that already fits its month is left as it is. */
  lemma NormalizeValid(y: int, mi: int, d: int)
    requires 0 <= mi < 12 && 1 <= d <= DaysInMonth(y, mi + 1)
    ensures Normalize(y, mi, d) == Date(y, mi + 1, d)
  {
  }

  /** `shiftDays(date, days)`: a fresh date `days` calendar days later (earlier
      when negative); the argument, a value, is untouched. */
  function ShiftDays(date: CalendarDate, days: int): (r: CalendarDate)
    ensures DayNumber(r) == DayNumber(date) + days
  {
    NormalizeDayNumber(date.year, date.month - 1, date.day + days);
    Normalize(date.year, date.month - 1, date.day + days)
  }

  // ----- Formatting and parsing -----

  /** `toDateInputValue(date)`. */
  function ToDateInputValue(d: CalendarDate): string {
    IntToString(d.year) + "-" + TwoDigits(d.month) + "-" + TwoDigits(d.day)
  }

  /** The formatted date is the unpadded year, then month and day as exactly
      two digits each, separated by '-'. */
  lemma FormatShape(d: CalendarDate)
    ensures var s := ToDateInputValue(d);
      && |s| == |IntToString(d.year)| + 6
      && s[..|s| - 6] == IntToString(d.year)
      && s[|s| - 6] == '-' && s[|s| - 3] == '-'
      && AllDigits(s[|s| - 5..|s| - 3]) && DigitsValue(s[|s| - 5..|s| - 3]) == d.month
      && AllDigits(s[|s| - 2..]) && DigitsValue(s[|s| - 2..]) == d.day
  {
    var s := ToDateInputValue(d);
    assert s[|s| - 5..|s| - 3] == TwoDigits(d.month);
    assert s[|s| - 2..] == TwoDigits(d.day);
    TwoDigitsValue(d.month);
    TwoDigitsValue(d.day);
  }

  lemma TwoDigitsValue(n: nat)
    requires n < 100
    ensures DigitsValue(TwoDigits(n)) == n
  {
    var t := TwoDigits(n);
    assert t[..1][..0] == [];
    assert DigitsValue(t[..1]) == DigitValue(t[0]);
    assert DigitValue(t[0]) == n / 10 && DigitValue(t[1]) == n % 10;
    assert DigitsValue(t) == DigitsValue(t[..1]) * 10 + DigitValue(t[1]);
  }

  /** `parseDateInput(value)`: split on '-', `Number` of the first three
      pieces, then `new Date(year, month - 1, day)`; `None` is an invalid
      date (a missing piece or one that is not a number). */
  function ParseDateInput(value: string): Option<CalendarDate> {
    var parts := Split(value, '-');
    if |parts| < 3 then None
    else
      var year, month, day := ToNumber(parts[0]), ToNumber(parts[1]), ToNumber(parts[2]);
      if year.Some? && month.Some? && day.Some? then Some(MakeDate(year.value, month.value as int - 1, day.value))
      else None
  }

  /** Formatting then parsing gives the date back when its year has no
      special meaning to the `Date` constructor (year >= 100). */
  lemma FormatThenParse(d: CalendarDate)
    requires d.year >= 100
    ensures ParseDateInput(ToDateInputValue(d)) == Some(d)
  {
    ParseFormatted(d);
    MakeDateOfValid(d);
  }

  /** A formatted date parses as `new Date` of its own numbers. */
  lemma ParseFormatted(d: CalendarDate)
    requires d.year >= 0
    ensures ParseDateInput(ToDateInputValue(d)) == Some(MakeDate(d.year, d.month - 1, d.day))
  {
    var ys, ms, ds := NatToString(d.year), TwoDigits(d.month), TwoDigits(d.day);
    assert ToDateInputValue(d) == ys + "-" + ms + "-" + ds;
    ParseDigitPieces(ys, ms, ds);
    DigitsValueOfNatToString(d.year);
    TwoDigitsValue(d.month);
    TwoDigitsValue(d.day);
  }

  /** `new Date(y, m - 1, d)` of a valid date of a year of at least 100 is
      that date. */
  lemma MakeDateOfValid(d: CalendarDate)
    requires d.year >= 100
    ensures MakeDate(d.year, d.month - 1, d.day) == d
  {
    NormalizeValid(d.year, d.month - 1, d.day);
  }

  /** Three pieces of digits joined by '-' parse as the date they spell,
      through `new Date(y, m - 1, d)`. */
  lemma ParseDigitPieces(ys: string, ms: string, ds: string)
    requires AllDigits(ys) && AllDigits(ms) && AllDigits(ds)
    ensures ParseDateInput(ys + "-" + ms + "-" + ds) == Some(MakeDate(DigitsValue(ys), DigitsValue(ms) as int - 1, DigitsValue(ds)))
  {
    SplitDate(ys, ms, ds);
    ParseNumbers(ys + "-" + ms + "-" + ds, DigitsValue(ys), DigitsValue(ms), DigitsValue(ds));
  }

  /** Three pieces that are numbers parse as `new Date(y, m - 1, d)`. */
  lemma ParseNumbers(value: string, y: nat, m: nat, d: nat)
    requires |Split(value, '-')| >= 3
    requires ToNumber(Split(value, '-')[0]) == Some(y)
    requires ToNumber(Split(value, '-')[1]) == Some(m)
    requires ToNumber(Split(value, '-')[2]) == Some(d)
    ensures ParseDateInput(value) == Some(MakeDate(y, m as int - 1, d))
  {
  }

  lemma SplitDate(ys: string, ms: string, ds: string)
    requires AllDigits(ys) && AllDigits(ms) && AllDigits(ds)
    ensures Split(ys + "-" + ms + "-" + ds, '-') == [ys, ms, ds]
  {
    assert '-' !in ys && '-' !in ms && '-' !in ds by {
      assert !IsDigit('-');
    }
    assert ys + "-" + ms + "-" + ds == ys + ['-'] + (ms + ['-'] + ds);
    SplitAfterPiece(ys, '-', ms + ['-'] + ds);
    SplitAfterPiece(ms, '-', ds);
    SplitNoSeparator(ds, '-');
  }

  /** `s` has the `YYYY-MM-DD` shape of a real calendar date whose year has
      four digits. */
  predicate IsCanonicalDateString(s: string) {
    && |s| == 10 && s[4] == '-' && s[7] == '-'
    && AllDigits(s[..4]) && AllDigits(s[5..7]) && AllDigits(s[8..]) && s[0] != '0'
    && 1 <= DigitsValue(s[5..7]) <= 12
    && 1 <= DigitsValue(s[8..]) <= DaysInMonth(DigitsValue(s[..4]), DigitsValue(s[5..7]))
  }

  lemma FourDigitsValue(s: string)
    requires |s| == 4 && AllDigits(s)
    ensures DigitsValue(s) == 1000 * DigitValue(s[0]) + 100 * DigitValue(s[1]) + 10 * DigitValue(s[2]) + DigitValue(s[3])
  {
    assert s[..1][..0] == [];
    assert DigitsValue(s[..1]) == DigitValue(s[0]);
    assert s[..2][..1] == s[..1];
    assert DigitsValue(s[..2]) == DigitsValue(s[..1]) * 10 + DigitValue(s[1]);
    assert s[..3][..2] == s[..2];
    assert DigitsValue(s[..3]) == DigitsValue(s[..2]) * 10 + DigitValue(s[2]);
    assert DigitsValue(s) == DigitsValue(s[..3]) * 10 + DigitValue(s[3]);
  }

  lemma TwoDigitsOfValue(s: string)
    requires |s| == 2 && AllDigits(s)
    ensures DigitsValue(s) < 100 && TwoDigits(DigitsValue(s)) == s
  {
    assert s[..1][..0] == [];
    assert DigitsValue(s[..1]) == DigitValue(s[0]);
    var v := DigitsValue(s);
    assert v == 10 * DigitValue(s[0]) + DigitValue(s[1]);
    assert v / 10 == DigitValue(s[0]) && v % 10 == DigitValue(s[1]);
  }

  /** The round trip of src/utils/date.test.ts: parsing a canonical date
      string and formatting the result gives the same string. */
  lemma ParseThenFormat(s: string)
    requires IsCanonicalDateString(s)
    ensures ParseDateInput(s).Some?
    ensures ToDateInputValue(ParseDateInput(s).value) == s
  {
    var ys, ms, ds := s[..4], s[5..7], s[8..];
    var y, m, d := DigitsValue(ys), DigitsValue(ms), DigitsValue(ds);
    ParseCanonical(s);
    assert s == ys + ['-'] + (ms + ['-'] + ds);
    NatToStringOfDigitsValue(ys);
    TwoDigitsOfValue(ms);
    TwoDigitsOfValue(ds);
    assert IntToString(y) == ys;
    assert ToDateInputValue(Date(y, m, d)) == ys + "-" + ms + "-" + ds;
    assert ys + "-" + ms + "-" + ds == s;
  }

  /** A canonical date string parses to the date its three digit groups name. */
  lemma ParseCanonical(s: string)
    requires IsCanonicalDateString(s)
    ensures ParseDateInput(s) == Some(Date(DigitsValue(s[..4]), DigitsValue(s[5..7]), DigitsValue(s[8..])))
  {
    var ys, ms, ds := s[..4], s[5..7], s[8..];
    assert s == ys + ['-'] + (ms + ['-'] + ds);
    assert '-' !in ys && '-' !in ms && '-' !in ds by {
      assert forall i :: 0 <= i < 4 ==> IsDigit(ys[i]);
    }
    SplitAfterPiece(ys, '-', ms + ['-'] + ds);
    SplitAfterPiece(ms, '-', ds);
    SplitNoSeparator(ds, '-');
    var y, m, d := DigitsValue(ys), DigitsValue(ms), DigitsValue(ds);
    FourDigitsValue(ys);
    assert y >= 1000;
    NormalizeValid(y, m - 1, d);
  }

  // ----- Month ranges -----

  datatype DateRange = DateRange(start: string, end: string)

  /** `getMonthDateRange(year, monthIndex)`: from the first to the last day of
      the month, after the constructor's year and month adjustments. The
      source builds both ends with the `Date` constructor (day 1 of the month
      and day 0 of the next one); `MonthEnd` proves these closed forms equal
      to those constructor calls. */
  function GetMonthDateRange(year: int, monthIndex: int): DateRange {
    DateRange(ToDateInputValue(MonthDay(year, monthIndex, 1)), ToDateInputValue(MonthLast(year, monthIndex)))
  }

  /** The last day of month index `monthIndex` of `year`, after the
      constructor's adjustments. */
  function MonthLast(year: int, monthIndex: int): CalendarDate {
    var y, m := FullYear(year) + monthIndex / 12, monthIndex % 12 + 1;
    Date(y, m, DaysInMonth(y, m))
  }

  /** Day 1 of the month is its first day, and day 0 of the following month
      is its last day. */
  lemma MonthEnd(year: int, monthIndex: int)
    ensures MakeDate(year, monthIndex, 1) == MonthDay(year, monthIndex, 1)
    ensures MakeDate(year, monthIndex + 1, 0) == MonthLast(year, monthIndex)
  {
    MonthDayIsMakeDate(year, monthIndex, 1);
    var y, mi := FullYear(year) + monthIndex / 12, monthIndex % 12;
    if mi == 11 {
      assert (monthIndex + 1) / 12 == monthIndex / 12 + 1 && (monthIndex + 1) % 12 == 0;
      assert Normalize(y + 1, 0, 0) == Normalize(y, 11, DaysInMonth(y, 12));
    } else {
      assert (monthIndex + 1) / 12 == monthIndex / 12 && (monthIndex + 1) % 12 == mi + 1;
      assert Normalize(y, mi + 1, 0) == Normalize(y, mi, DaysInMonth(y, mi + 1));
    }
  }

  /** The range is exactly what the two constructor calls of the source give. */
  lemma MonthRangeIsConstructorDates(year: int, monthIndex: int)
    ensures GetMonthDateRange(year, monthIndex)
      == DateRange(ToDateInputValue(MakeDate(year, monthIndex, 1)), ToDateInputValue(MakeDate(year, monthIndex + 1, 0)))
  {
    MonthEnd(year, monthIndex);
  }

  /** `getPreviousMonthDateRange(baseDate)`. */
  function GetPreviousMonthDateRange(baseDate: CalendarDate): DateRange {
    GetMonthDateRange(baseDate.year, baseDate.month - 1 - 1)
  }

  /** `getCurrentMonthDateRange(baseDate)`. */
  function GetCurrentMonthDateRange(baseDate: CalendarDate): DateRange {
    GetMonthDateRange(baseDate.year, baseDate.month - 1)
  }

  /** A date with a four-digit year formats to exactly ten characters. */
  lemma FourDigitFormat(d: CalendarDate)
    requires 1000 <= d.year <= 9999
    ensures ToDateInputValue(d) == [DigitChar(d.year / 1000), DigitChar(d.year / 100 % 10),
      DigitChar(d.year / 10 % 10), DigitChar(d.year % 10), '-', DigitChar(d.month / 10),
      DigitChar(d.month % 10), '-', DigitChar(d.day / 10), DigitChar(d.day % 10)]
  {
    var y := d.year;
    assert NatToString(y / 1000) == [DigitChar(y / 1000)];
    assert NatToString(y / 100) == NatToString(y / 1000) + [DigitChar(y / 100 % 10)] by {
      assert y / 100 / 10 == y / 1000;
    }
    assert NatToString(y / 10) == NatToString(y / 100) + [DigitChar(y / 10 % 10)] by {
      assert y / 10 / 10 == y / 100;
    }
    assert NatToString(y) == NatToString(y / 10) + [DigitChar(y % 10)];
  }

  /** The first test case of src/utils/date.test.ts: January 2025. */
  lemma MonthRangeJanuary2025(year: int, monthIndex: int)
    requires year == 2025 && monthIndex == 0
    ensures GetMonthDateRange(year, monthIndex) == DateRange("2025-01-01", "2025-01-31")
  {
    var first, last := Date(2025, 1, 1), Date(2025, 1, 31);
    assert FullYear(year) + monthIndex / 12 == 2025 && monthIndex % 12 + 1 == 1;
    assert MonthDay(year, monthIndex, 1) == first && MonthLast(year, monthIndex) == last;
    assert GetMonthDateRange(year, monthIndex) == DateRange(ToDateInputValue(first), ToDateInputValue(last));
    FourDigitFormat(first);
    FourDigitFormat(last);
  }

  /** February of the leap year 2024 ends on the 29th. */
  lemma MonthRangeLeapFebruary(baseDate: CalendarDate)
    requires baseDate == Date(2024, 2, 10)
    ensures GetCurrentMonthDateRange(baseDate) == DateRange("2024-02-01", "2024-02-29")
  {
    var first, last := Date(2024, 2, 1), Date(2024, 2, 29);
    var year, monthIndex := baseDate.year, baseDate.month - 1;
    assert FullYear(year) + monthIndex / 12 == 2024 && monthIndex % 12 + 1 == 2;
    assert MonthDay(year, monthIndex, 1) == first && MonthLast(year, monthIndex) == last;
    assert GetCurrentMonthDateRange(baseDate) == DateRange(ToDateInputValue(first), ToDateInputValue(last));
    FourDigitFormat(first);
    FourDigitFormat(last);
  }

  /** Index -1 rolls into December of the previous year. */
  lemma PreviousMonthAcrossYear(baseDate: CalendarDate)
    requires baseDate == Date(2025, 1, 15)
    ensures GetPreviousMonthDateRange(baseDate) == DateRange("2024-12-01", "2024-12-31")
  {
    var first, last := Date(2024, 12, 1), Date(2024, 12, 31);
    var year, monthIndex := baseDate.year, baseDate.month - 2;
    assert FullYear(year) + monthIndex / 12 == 2024 && monthIndex % 12 + 1 == 12;
    assert MonthDay(year, monthIndex, 1) == first && MonthLast(year, monthIndex) == last;
    assert GetPreviousMonthDateRange(baseDate) == DateRange(ToDateInputValue(first), ToDateInputValue(last));
    FourDigitFormat(first);
    FourDigitFormat(last);
  }

  // ----- String order of formatted dates -----

  /** Digit strings of equal length compare like their values. */
  lemma {:induction false} EqualLengthDigitOrder(a: string, b: string)
    requires |a| == |b| && AllDigits(a) && AllDigits(b)
    ensures LexLess(a, b) <==> DigitsValue(a) < DigitsValue(b)
    decreases |a|
  {
    if a != [] {
      var n := |a| - 1;
      var a0, b0 := a[..n], b[..n];
      assert a == a0 + [a[n]] && b == b0 + [b[n]];
      EqualLengthDigitOrder(a0, b0);
      if a0 == b0 {
        LexLessCommonPrefix(a0, [a[n]], [b[n]]);
      } else {
        LexLessDifferentHeads(a0, [a[n]], b0, [b[n]]);
        LexLessTotal(a0, b0);
        LexLessAsymmetric(a0, b0);
        EqualLengthDigitOrder(b0, a0);
      }
    } else {
      LexLessIrreflexive(a);
    }
  }

  lemma TwoDigitsOrder(a: nat, b: nat)
    requires a < 100 && b < 100
    ensures LexLess(TwoDigits(a), TwoDigits(b)) <==> a < b
  {
    TwoDigitsValue(a);
    TwoDigitsValue(b);
    EqualLengthDigitOrder(TwoDigits(a), TwoDigits(b));
  }

  lemma FourDigitYear(y: int)
    requires 1000 <= y <= 9999
    ensures |IntToString(y)| == 4
  {
    assert NatToString(y) == NatToString(y / 10) + [DigitChar(y % 10)];
    assert NatToString(y / 10) == NatToString(y / 100) + [DigitChar(y / 10 % 10)];
    assert NatToString(y / 100) == NatToString(y / 1000) + [DigitChar(y / 100 % 10)];
  }

  /** `a` is earlier than `b` on the calendar. */
  predicate Before(a: Date, b: Date) {
    a.year < b.year || (a.year == b.year && (a.month < b.month || (a.month == b.month && a.day < b.day)))
  }

  lemma DifferentYearOrder(a: CalendarDate, b: CalendarDate)
    requires 1000 <= a.year <= 9999 && 1000 <= b.year <= 9999 && a.year != b.year
    ensures LexLess(ToDateInputValue(a), ToDateInputValue(b)) <==> a.year < b.year
  {
    var ya, yb := IntToString(a.year), IntToString(b.year);
    var ra := "-" + TwoDigits(a.month) + "-" + TwoDigits(a.day);
    var rb := "-" + TwoDigits(b.month) + "-" + TwoDigits(b.day);
    assert ToDateInputValue(a) == ya + ra && ToDateInputValue(b) == yb + rb;
    FourDigitYear(a.year);
    FourDigitYear(b.year);
    DigitsValueOfNatToString(a.year);
    DigitsValueOfNatToString(b.year);
    NatToStringInjective(a.year, b.year);
    LexLessDifferentHeads(ya, ra, yb, rb);
    EqualLengthDigitOrder(ya, yb);
  }

  lemma SameYearOrder(a: CalendarDate, b: CalendarDate)
    requires a.year == b.year && a.month != b.month
    ensures LexLess(ToDateInputValue(a), ToDateInputValue(b)) <==> a.month < b.month
  {
    var p := IntToString(a.year) + "-";
    var ma, mb := TwoDigits(a.month), TwoDigits(b.month);
    var da, db := "-" + TwoDigits(a.day), "-" + TwoDigits(b.day);
    assert ToDateInputValue(a) == p + (ma + da) && ToDateInputValue(b) == p + (mb + db);
    LexLessCommonPrefix(p, ma + da, mb + db);
    TwoDigitsValue(a.month);
    TwoDigitsValue(b.month);
    LexLessDifferentHeads(ma, da, mb, db);
    TwoDigitsOrder(a.month, b.month);
  }

  /** For four-digit years, comparing formatted dates as strings (what the
      filters of both App.tsx files do) is comparing them on the calendar. */
  lemma FormatOrder(a: CalendarDate, b: CalendarDate)
    requires 1000 <= a.year <= 9999 && 1000 <= b.year <= 9999
    ensures LexLess(ToDateInputValue(a), ToDateInputValue(b)) <==> Before(a, b)
  {
    if a.year != b.year {
      DifferentYearOrder(a, b);
    } else if a.month != b.month {
      SameYearOrder(a, b);
    } else {
      SameMonthOrder(a, b);
    }
  }

  /** Within one month, formatted dates compare like their days, whatever
      the year's width. */
  lemma SameMonthOrder(a: CalendarDate, b: CalendarDate)
    requires a.year == b.year && a.month == b.month
    ensures LexLess(ToDateInputValue(a), ToDateInputValue(b)) <==> a.day < b.day
  {
    var p := IntToString(a.year) + "-" + TwoDigits(a.month) + "-";
    assert ToDateInputValue(a) == p + TwoDigits(a.day);
    assert ToDateInputValue(b) == p + TwoDigits(b.day);
    LexLessCommonPrefix(p, TwoDigits(a.day), TwoDigits(b.day));
    TwoDigitsOrder(a.day, b.day);
  }

  /** The current-month range holds the base date and is not empty, compared
      as strings the way the filters compare them. */
  lemma CurrentMonthContains(baseDate: CalendarDate)
    requires !(0 <= baseDate.year <= 99)
    ensures var r := GetCurrentMonthDateRange(baseDate);
      && LexLe(r.start, ToDateInputValue(baseDate))
      && LexLe(ToDateInputValue(baseDate), r.end)
      && LexLe(r.start, r.end)
  {
    var y, m := baseDate.year, baseDate.month;
    var first, last := Date(y, m, 1), Date(y, m, DaysInMonth(y, m));
    CurrentMonthBounds(baseDate);
    SameMonthOrder(baseDate, first);
    SameMonthOrder(last, baseDate);
    SameMonthOrder(last, first);
  }

  /** The current month's range, spelled out: from the first to the last
      day of `baseDate`'s month. */
  lemma CurrentMonthBounds(baseDate: CalendarDate)
    ensures var y, m := FullYear(baseDate.year), baseDate.month;
      && GetCurrentMonthDateRange(baseDate).start == ToDateInputValue(Date(y, m, 1))
      && GetCurrentMonthDateRange(baseDate).end == ToDateInputValue(Date(y, m, DaysInMonth(y, m)))
  {
    var y, m := FullYear(baseDate.year), baseDate.month;
    assert y + (m - 1) / 12 == y && (m - 1) % 12 + 1 == m;
    MonthRangeOf(baseDate.year, m - 1, y, m);
  }

  /** The previous month's range, spelled out: from its first to its last
      day. */
  lemma PreviousMonthBounds(baseDate: CalendarDate)
    ensures var y, m := FullYear(baseDate.year) + (baseDate.month - 2) / 12, (baseDate.month - 2) % 12 + 1;
      && GetPreviousMonthDateRange(baseDate).start == ToDateInputValue(Date(y, m, 1))
      && GetPreviousMonthDateRange(baseDate).end == ToDateInputValue(Date(y, m, DaysInMonth(y, m)))
  {
    var mi := baseDate.month - 2;
    var y, m := FullYear(baseDate.year) + mi / 12, mi % 12 + 1;
    var first, last := Date(y, m, 1), Date(y, m, DaysInMonth(y, m));
    assert MonthDay(baseDate.year, mi, 1) == first;
    assert MonthLast(baseDate.year, mi) == last;
    assert GetPreviousMonthDateRange(baseDate) == DateRange(ToDateInputValue(first), ToDateInputValue(last));
  }

  /** `GetMonthDateRange` with the month it lands in given by name. */
  lemma MonthRangeOf(year: int, monthIndex: int, y: int, m: int)
    requires y == FullYear(year) + monthIndex / 12 && m == monthIndex % 12 + 1
    ensures GetMonthDateRange(year, monthIndex).start == ToDateInputValue(Date(y, m, 1))
    ensures GetMonthDateRange(year, monthIndex).end == ToDateInputValue(Date(y, m, DaysInMonth(y, m)))
  {
    var first, last := Date(y, m, 1), Date(y, m, DaysInMonth(y, m));
    assert MonthDay(year, monthIndex, 1) == first && MonthLast(year, monthIndex) == last;
    assert GetMonthDateRange(year, monthIndex) == DateRange(ToDateInputValue(first), ToDateInputValue(last));
  }

  /** The previous month of a date in March of a common year is February of
      28 days; every other previous month is longer. */
  lemma PreviousMonthLength(baseDate: CalendarDate)
    ensures var y, m := FullYear(baseDate.year) + (baseDate.month - 2) / 12, (baseDate.month - 2) % 12 + 1;
      && y >= FullYear(baseDate.year) - 1
      && (DaysInMonth(y, m) > 28 <==> baseDate.month != 3 || IsLeapYear(FullYear(baseDate.year)))
  {
    var y, m := FullYear(baseDate.year) + (baseDate.month - 2) / 12, (baseDate.month - 2) % 12 + 1;
    if baseDate.month == 1 {
      assert m == 12;
    } else {
      assert y == FullYear(baseDate.year) && m == baseDate.month - 1;
    }
  }
}
