/** Calendar dates as the application stores them (MySQL `DATE`), their
    `Y-m-d` text, day numbers for arithmetic, and PHP's `+N months`.

    The application compares dates by comparing their `Y-m-d` strings; the
    central fact here, `FormatOrder`, is that for zero-padded four-digit
    years this string order is exactly the order of the days. */
module Dates {
  import opened Strings
  import opened Options

  datatype Date = Date(year: nat, month: nat, day: nat)

  predicate IsLeap(y: nat) {
    y % 4 == 0 && (y % 100 != 0 || y % 400 == 0)
  }

  function DaysInMonth(y: nat, m: nat): (n: nat)
    ensures 28 <= n <= 31
  {
    if m == 2 then (if IsLeap(y) then 29 else 28)
    else if m == 4 || m == 6 || m == 9 || m == 11 then 30
    else 31
  }

  function DaysInYear(y: nat): nat {
    if IsLeap(y) then 366 else 365
  }

  /** A real day of the Gregorian calendar, in any year. */
  predicate IsCalendarDay(d: Date) {
    1 <= d.month <= 12 && 1 <= d.day <= DaysInMonth(d.year, d.month)
  }

  /** A day MySQL's `DATE` type holds and PHP's `Y` prints with four digits. */
  predicate Valid(d: Date) {
    IsCalendarDay(d) && d.year <= 9999
  }

  function DaysBeforeYear(y: nat): nat {
    if y == 0 then 0 else DaysBeforeYear(y - 1) + DaysInYear(y - 1)
  }

  /** Days of year `y` before the first of month `m`; `m == 13` gives the whole year. */
  function DaysBeforeMonth(y: nat, m: nat): nat
    requires 1 <= m <= 13
  {
    var common :=
      if m == 1 then 0 else if m == 2 then 31 else if m == 3 then 59
      else if m == 4 then 90 else if m == 5 then 120 else if m == 6 then 151
      else if m == 7 then 181 else if m == 8 then 212 else if m == 9 then 243
      else if m == 10 then 273 else if m == 11 then 304 else if m == 12 then 334
      else 365;
    common + (if m > 2 && IsLeap(y) then 1 else 0)
  }

  /** Days since 0000-01-01 (proleptic Gregorian calendar). */
  function DayNumber(d: Date): int
    requires IsCalendarDay(d)
  {
    DaysBeforeYear(d.year) + DaysBeforeMonth(d.year, d.month) + d.day - 1
  }

  /** Calendar order: year, then month, then day. */
  predicate Before(a: Date, b: Date) {
    a.year < b.year || (a.year == b.year && (a.month < b.month || (a.month == b.month && a.day < b.day)))
  }

  lemma MonthStep(y: nat, m: nat)
    requires 1 <= m <= 12
    ensures DaysBeforeMonth(y, m) + DaysInMonth(y, m) == DaysBeforeMonth(y, m + 1)
    ensures DaysBeforeMonth(y, 13) == DaysInYear(y)
  {
  }

  lemma MonthMonotone(y: nat, m1: nat, m2: nat)
    requires 1 <= m1 <= m2 <= 13
    ensures DaysBeforeMonth(y, m1) <= DaysBeforeMonth(y, m2)
  {
  }

  lemma {:induction false} YearMonotone(y1: nat, y2: nat)
    requires y1 < y2
    ensures DaysBeforeYear(y1) + DaysInYear(y1) <= DaysBeforeYear(y2)
    decreases y2
  {
    if y1 + 1 < y2 {
      YearMonotone(y1, y2 - 1);
    }
  }

  /** A day lies inside its year: its offset in the year is below the year's length. */
  lemma DayOfYearBound(d: Date)
    requires IsCalendarDay(d)
    ensures 0 <= DaysBeforeMonth(d.year, d.month) + d.day - 1 < DaysInYear(d.year)
  {
    MonthStep(d.year, d.month);
    MonthMonotone(d.year, d.month + 1, 13);
  }

  /** Day numbers increase strictly along the calendar. */
  lemma DayNumberMonotone(a: Date, b: Date)
    requires IsCalendarDay(a) && IsCalendarDay(b) && Before(a, b)
    ensures DayNumber(a) < DayNumber(b)
  {
    if a.year < b.year {
      DayOfYearBound(a);
      YearMonotone(a.year, b.year);
    } else if a.month < b.month {
      MonthStep(a.year, a.month);
      MonthMonotone(a.year, a.month + 1, b.month);
    }
  }

  /** Comparing day numbers is comparing dates, and equal day numbers mean the same date. */
  lemma DayNumberOrder(a: Date, b: Date)
    requires IsCalendarDay(a) && IsCalendarDay(b)
    ensures DayNumber(a) < DayNumber(b) <==> Before(a, b)
    ensures DayNumber(a) == DayNumber(b) <==> a == b
  {
    if Before(a, b) {
      DayNumberMonotone(a, b);
    } else if Before(b, a) {
      DayNumberMonotone(b, a);
    }
  }

  // ---------------------------------------------------------------------
  // The `Y-m-d` text of a date

  function DigitChar(n: nat): (c: char)
    requires n < 10
    ensures IsDigit(c)
  {
    ('0' as int + n) as char
  }

  function DigitValue(c: char): nat
    requires IsDigit(c)
  {
    c as int - '0' as int
  }

  /** Two decimal digits with a leading zero (`m`, `d` in PHP's `date`). */
  function Pad2(n: nat): (s: string)
    requires n < 100
    ensures |s| == 2
  {
    [DigitChar(n / 10), DigitChar(n % 10)]
  }

  /** Four decimal digits with leading zeros (`Y` in PHP's `date`, years below 10000). */
  function Pad4(n: nat): (s: string)
    requires n < 10000
    ensures |s| == 4
  {
    Pad2(n / 100) + Pad2(n % 100)
  }

  /** `date('Y-m-d', $t)` for the day `d`. */
  function Format(d: Date): (s: string)
    requires Valid(d)
    ensures |s| == 10 && s[4] == '-' && s[7] == '-'
  {
    Pad4(d.year) + ("-" + (Pad2(d.month) + ("-" + Pad2(d.day))))
  }

  function Num2(a: char, b: char): nat
    requires IsDigit(a) && IsDigit(b)
  {
    10 * DigitValue(a) + DigitValue(b)
  }

  /** Reading a `Y-m-d` text back: exactly ten characters, dashes at 4 and 7,
      digits elsewhere, and a real day. Other formats are not recognised. */
  function Parse(s: string): (r: Option<Date>)
    ensures r.Some? ==> Valid(r.value)
  {
    if |s| == 10 && s[4] == '-' && s[7] == '-'
       && IsDigit(s[0]) && IsDigit(s[1]) && IsDigit(s[2]) && IsDigit(s[3])
       && IsDigit(s[5]) && IsDigit(s[6]) && IsDigit(s[8]) && IsDigit(s[9])
    then
      var d := Date(100 * Num2(s[0], s[1]) + Num2(s[2], s[3]), Num2(s[5], s[6]), Num2(s[8], s[9]));
      if Valid(d) then Some(d) else None
    else None
  }

  lemma Pad2Digits(n: nat)
    requires n < 100
    ensures Num2(Pad2(n)[0], Pad2(n)[1]) == n
  {
  }

  /** Formatting then parsing gives the date back. */
  lemma ParseFormat(d: Date)
    requires Valid(d)
    ensures Parse(Format(d)) == Some(d)
  {
    var s := Format(d);
    Pad2Digits(d.year / 100);
    Pad2Digits(d.year % 100);
    Pad2Digits(d.month);
    Pad2Digits(d.day);
    assert s[0..2] == Pad2(d.year / 100) && s[2..4] == Pad2(d.year % 100);
    assert s[5..7] == Pad2(d.month) && s[8..10] == Pad2(d.day);
  }

  /** Parsing then formatting gives the text back: `Parse` accepts only canonical texts. */
  lemma FormatParse(s: string)
    requires Parse(s).Some?
    ensures Format(Parse(s).value) == s
  {
    var d := Parse(s).value;
    var hi, lo := Num2(s[0], s[1]), Num2(s[2], s[3]);
    YearParts(d.year, hi, lo);
    Pad2Num(s[0], s[1]);
    Pad2Num(s[2], s[3]);
    Pad2Num(s[5], s[6]);
    Pad2Num(s[8], s[9]);
    assert s == [s[0], s[1]] + [s[2], s[3]] + ("-" + ([s[5], s[6]] + ("-" + [s[8], s[9]])));
  }

  lemma YearParts(year: nat, hi: nat, lo: nat)
    requires lo < 100 && year == 100 * hi + lo
    ensures year / 100 == hi && year % 100 == lo
  {
  }

  /** Two digits read as a number print back as themselves. */
  lemma Pad2Num(a: char, b: char)
    requires IsDigit(a) && IsDigit(b)
    ensures Num2(a, b) < 100 && Pad2(Num2(a, b)) == [a, b]
  {
  }

  lemma DigitOrder(x: nat, y: nat)
    requires x < 10 && y < 10
    ensures DigitChar(x) < DigitChar(y) <==> x < y
    ensures DigitChar(x) == DigitChar(y) <==> x == y
  {
  }

  lemma Pad2Order(x: nat, y: nat)
    requires x < 100 && y < 100
    ensures Less(Pad2(x), Pad2(y)) <==> x < y
    ensures Pad2(x) == Pad2(y) <==> x == y
  {
    DigitOrder(x / 10, y / 10);
    DigitOrder(x % 10, y % 10);
    LessConcat([DigitChar(x / 10)], [DigitChar(x % 10)], [DigitChar(y / 10)], [DigitChar(y % 10)]);
    assert Pad2(x) == [DigitChar(x / 10)] + [DigitChar(x % 10)];
    assert Pad2(y) == [DigitChar(y / 10)] + [DigitChar(y % 10)];
    if Pad2(x) == Pad2(y) {
      assert Pad2(x)[0] == Pad2(y)[0] && Pad2(x)[1] == Pad2(y)[1];
    }
  }

  lemma Pad4Order(x: nat, y: nat)
    requires x < 10000 && y < 10000
    ensures Less(Pad4(x), Pad4(y)) <==> x < y
    ensures Pad4(x) == Pad4(y) <==> x == y
  {
    Pad2Order(x / 100, y / 100);
    Pad2Order(x % 100, y % 100);
    LessConcat(Pad2(x / 100), Pad2(x % 100), Pad2(y / 100), Pad2(y % 100));
    if Pad4(x) == Pad4(y) {
      assert Pad4(x)[..2] == Pad2(x / 100) && Pad4(y)[..2] == Pad2(y / 100);
      assert Pad4(x)[2..] == Pad2(x % 100) && Pad4(y)[2..] == Pad2(y % 100);
    }
  }

  /** The `Y-m-d` texts of two days compare as strings exactly as the days
      compare in the calendar, and so as their day numbers do. */
  lemma FormatOrder(a: Date, b: Date)
    requires Valid(a) && Valid(b)
    ensures Less(Format(a), Format(b)) <==> Before(a, b)
    ensures Less(Format(a), Format(b)) <==> DayNumber(a) < DayNumber(b)
    ensures Format(a) == Format(b) <==> a == b
  {
    var ta := "-" + (Pad2(a.month) + ("-" + Pad2(a.day)));
    var tb := "-" + (Pad2(b.month) + ("-" + Pad2(b.day)));
    var ua := Pad2(a.month) + ("-" + Pad2(a.day));
    var ub := Pad2(b.month) + ("-" + Pad2(b.day));
    var va := "-" + Pad2(a.day);
    var vb := "-" + Pad2(b.day);
    Pad4Order(a.year, b.year);
    Pad2Order(a.month, b.month);
    Pad2Order(a.day, b.day);
    LessConcat(Pad4(a.year), ta, Pad4(b.year), tb);
    LessConcat("-", ua, "-", ub);
    LessConcat(Pad2(a.month), va, Pad2(b.month), vb);
    LessConcat("-", Pad2(a.day), "-", Pad2(b.day));
    assert ta == "-" + ua && tb == "-" + ub;
    assert ua == Pad2(a.month) + va && ub == Pad2(b.month) + vb;
    if Format(a) == Format(b) {
      assert Format(a)[..4] == Pad4(a.year) && Format(b)[..4] == Pad4(b.year);
      assert Format(a)[5..7] == Pad2(a.month) && Format(b)[5..7] == Pad2(b.month);
      assert Format(a)[8..] == Pad2(a.day) && Format(b)[8..] == Pad2(b.day);
    }
    LessIrreflexive("-");
    DayNumberOrder(a, b);
  }

  /** A nullable date column as PHP sees it when comparing: NULL reads as `''`. */
  function DateText(d: Option<Date>): (s: string)
    requires d.Some? ==> Valid(d.value)
    ensures d.None? <==> s == ""
  {
    if d.None? then "" else Format(d.value)
  }

  /** `$column < $today` in PHP, on a nullable date column: NULL is before
      every day; a date is before today exactly when its day number is smaller. */
  lemma DateTextBefore(d: Option<Date>, today: Date)
    requires d.Some? ==> Valid(d.value)
    requires Valid(today)
    ensures Less(DateText(d), Format(today)) <==> d.None? || DayNumber(d.value) < DayNumber(today)
  {
    if d.Some? {
      FormatOrder(d.value, today);
    }
  }

  // ---------------------------------------------------------------------
  // Calendar months and PHP's `strtotime("$date +N months")`

  /** The months since January of year 0 (the absolute month index of a day). */
  function MonthIndex(d: Date): nat {
    12 * d.year + (if d.month == 0 then 0 else d.month - 1)
  }

  /** The first day of the month after the month of `a`. */
  function NextMonth(a: Date): Date {
    if a.month == 12 then Date(a.year + 1, 1, 1) else Date(a.year, a.month + 1, 1)
  }

  /** The first day of the month with absolute index `k`. */
  function MonthStart(k: nat): (d: Date)
    ensures IsCalendarDay(d) && d.day == 1 && MonthIndex(d) == k
  {
    Date(k / 12, k % 12 + 1, 1)
  }

  /** The month with a day's own index starts on the first of that day's month. */
  lemma MonthStartOf(d: Date)
    requires IsCalendarDay(d)
    ensures MonthStart(MonthIndex(d)) == Date(d.year, d.month, 1)
  {
    var r := MonthStart(MonthIndex(d));
    IndexParts(r.year, r.month, d.year, d.month);
  }

  /** Year and month are determined by the month index. */
  lemma IndexParts(y1: nat, m1: nat, y2: nat, m2: nat)
    requires 1 <= m1 <= 12 && 1 <= m2 <= 12 && 12 * y1 + m1 == 12 * y2 + m2
    ensures y1 == y2 && m1 == m2
  {
  }

  /** PHP's relative `+N months`: the month moves by `n` keeping the day of
      the month; a day the target month does not have spills over into the
      following month (2024-01-31 +1 month is 2024-03-02). */
  function AddMonths(d: Date, n: nat): (r: Date)
    requires IsCalendarDay(d)
    ensures IsCalendarDay(r)
  {
    var target := MonthStart(MonthIndex(d) + n);
    var len := DaysInMonth(target.year, target.month);
    if d.day <= len then Date(target.year, target.month, d.day)
    else NextMonth(target).(day := d.day - len)
  }

  /** The first of the next month lies a month's length after the first of this one. */
  lemma NextMonthDay(a: Date)
    requires IsCalendarDay(a) && a.day == 1
    ensures IsCalendarDay(NextMonth(a))
    ensures DayNumber(NextMonth(a)) == DayNumber(a) + DaysInMonth(a.year, a.month)
  {
    MonthStep(a.year, a.month);
  }

  /** A later month index means a later day in the calendar. */
  lemma IndexBefore(a: Date, b: Date)
    requires IsCalendarDay(a) && IsCalendarDay(b) && MonthIndex(a) < MonthIndex(b)
    ensures Before(a, b)
  {
  }

  /** PHP's month-overflow rule as day arithmetic: the result lies `day - 1`
      days after the first of the target month, even when that runs past
      the month's end. */
  lemma AddMonthsRule(d: Date, n: nat)
    requires IsCalendarDay(d)
    ensures DayNumber(AddMonths(d, n)) == DayNumber(MonthStart(MonthIndex(d) + n)) + d.day - 1
  {
    var target := MonthStart(MonthIndex(d) + n);
    var len := DaysInMonth(target.year, target.month);
    if d.day <= len {
      assert AddMonths(d, n) == target.(day := d.day);
      DayOfMonth(target, d.day);
    } else {
      assert AddMonths(d, n) == NextMonth(target).(day := d.day - len);
      NextMonthDay(target);
      DayOfMonth(NextMonth(target), d.day - len);
    }
  }

  /** Day `day` of a month lies `day - 1` days after its first. */
  lemma DayOfMonth(first: Date, day: nat)
    requires IsCalendarDay(first) && first.day == 1 && IsCalendarDay(first.(day := day))
    ensures DayNumber(first.(day := day)) == DayNumber(first) + day - 1
  {
  }

  /** Adding no months changes nothing. */
  lemma AddZeroMonths(d: Date)
    requires IsCalendarDay(d)
    ensures AddMonths(d, 0) == d
  {
    MonthStartOf(d);
  }

  /** Adding at least one month gives a strictly later day. */
  lemma AddMonthsLater(d: Date, n: nat)
    requires IsCalendarDay(d) && n >= 1
    ensures DayNumber(AddMonths(d, n)) > DayNumber(d)
  {
    var r := AddMonths(d, n);
    assert MonthIndex(r) > MonthIndex(d);
    IndexBefore(d, r);
    DayNumberMonotone(d, r);
  }

  // ---------------------------------------------------------------------
  // Stored dates

  /** A value a MySQL DATE column can hold in this model. */
  type CalendarDate = d: Date | Valid(d) witness Date(2000, 1, 1)

  /** A form's date text as the database stores it: `Y-m-d`, or not at all. */
  function ParseDate(s: string): (r: Option<CalendarDate>)
    ensures r.Some? ==> Format(r.value) == s
    ensures forall d: CalendarDate :: s == Format(d) ==> r == Some(d)
  {
    var p := Parse(s);
    FormatsOf(s);
    if p.Some? then
      FormatParse(s);
      Some(p.value)
    else
      None
  }

  /** The only day whose text is `s` is the one `Parse` reads from it. */
  lemma FormatsOf(s: string)
    ensures forall d: CalendarDate :: s == Format(d) ==> Parse(s) == Some(d)
  {
    forall d: CalendarDate | s == Format(d) ensures Parse(s) == Some(d) {
      ParseFormat(d);
    }
  }

  /** PHP `date('M d, Y')`: "Jan 05, 2024". */
  function LongFormat(d: Date): string
    requires Valid(d)
  {
    var names := ["Jan", "Feb", "Mar", "Apr", "May", "Jun", "Jul", "Aug", "Sep", "Oct", "Nov", "Dec"];
    names[d.month - 1] + " " + Pad2(d.day) + ", " + Pad4(d.year)
  }
}
