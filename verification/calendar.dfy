/** Calendar arithmetic behind the growth series: local calendar dates, day
    numbers, the day of the week (`Date.prototype.getDay`), the week number of
    `getWeekNumber`, the period keys of `formatPeriod` and the period ends of
    `getPeriodEnd` (lib/queries.ts). Days are counted in the proleptic Gregorian
    calendar from 0000-01-01, which is a Saturday. */
module Calendar {
  import opened Wrappers
  import opened Strings

  const MsPerDay: nat := 86400000

  predicate IsLeap(y: int) {
    y % 4 == 0 && (y % 100 != 0 || y % 400 == 0)
  }

  function DaysInMonth(y: int, m: int): (n: nat)
    requires 1 <= m <= 12
    ensures 28 <= n <= 31
  {
    if m == 2 then (if IsLeap(y) then 29 else 28)
    else if m == 4 || m == 6 || m == 9 || m == 11 then 30
    else 31
  }

  function DaysInYear(y: int): nat {
    if IsLeap(y) then 366 else 365
  }

  datatype Date = Date(year: nat, month: nat, day: nat)

  /** A real calendar date. */
  type CalendarDate = d: Date | d.year >= 1 && 1 <= d.month <= 12 && 1 <= d.day <= DaysInMonth(d.year, d.month)
    witness Date(1, 1, 1)

  /** A local date and time, to the millisecond. */
  datatype Timestamp = Timestamp(date: CalendarDate, msOfDay: nat)
  type Instant = t: Timestamp | t.msOfDay < MsPerDay witness Timestamp(Date(1, 1, 1), 0)

  /** Days from 0000-01-01 to January 1 of year `y`. */
  function DaysBeforeYear(y: nat): nat {
    365 * y + (y + 3) / 4 - (y + 99) / 100 + (y + 399) / 400
  }

  /** Days from January 1 of year `y` to the first of month `m` (13 is the next January). */
  function DaysBeforeMonth(y: nat, m: nat): nat
    requires 1 <= m <= 13
  {
    (367 * m - 362) / 12 - (if m > 2 then 2 else 0) + (if m > 2 && IsLeap(y) then 1 else 0)
  }

  /** The cumulative table agrees with the month lengths, and the months fill the year. */
  lemma DaysBeforeMonthStep(y: nat, m: nat)
    requires 1 <= m <= 12
    ensures DaysBeforeMonth(y, m + 1) == DaysBeforeMonth(y, m) + DaysInMonth(y, m)
    ensures DaysBeforeMonth(y, 13) == DaysInYear(y)
  {
  }

  function DayNumber(d: CalendarDate): nat {
    DaysBeforeYear(d.year) + DaysBeforeMonth(d.year, d.month) + d.day - 1
  }

  /** Milliseconds since 0000-01-01 00:00 local time; instants compare by this. */
  function Millis(t: Instant): int {
    DayNumber(t.date) * MsPerDay + t.msOfDay
  }

  /** `getDay()`: 0 is Sunday, 1 Monday, ..., 6 Saturday. */
  function Weekday(n: int): (w: nat)
    ensures w < 7
  {
    (n + 6) % 7
  }

  lemma DivStep4(y: nat)
    ensures (y + 4) / 4 - (y + 3) / 4 == if y % 4 == 0 then 1 else 0
  {
  }

  lemma DivStep100(y: nat)
    ensures (y + 100) / 100 - (y + 99) / 100 == if y % 100 == 0 then 1 else 0
  {
  }

  lemma DivStep400(y: nat)
    ensures (y + 400) / 400 - (y + 399) / 400 == if y % 400 == 0 then 1 else 0
  {
  }

  lemma Multiple400(y: nat)
    requires y % 400 == 0
    ensures y % 100 == 0
  {
    assert y == 100 * (4 * (y / 400));
  }

  lemma Multiple100(y: nat)
    requires y % 100 == 0
    ensures y % 4 == 0
  {
    assert y == 4 * (25 * (y / 100));
  }

  /** Consecutive Januaries are a year's length apart. */
  lemma DaysBeforeYearStep(y: nat)
    ensures DaysBeforeYear(y + 1) == DaysBeforeYear(y) + DaysInYear(y)
  {
    DivStep4(y);
    DivStep100(y);
    DivStep400(y);
    if y % 400 == 0 { Multiple400(y); }
    if y % 100 == 0 { Multiple100(y); }
    var a, b, c := (y + 4) / 4 - (y + 3) / 4, (y + 100) / 100 - (y + 99) / 100, (y + 400) / 400 - (y + 399) / 400;
    assert DaysBeforeYear(y + 1) - DaysBeforeYear(y) == 365 + a - b + c;
  }

  /** A date's day number lies within its year. */
  lemma DayNumberInYear(d: CalendarDate)
    ensures DaysBeforeYear(d.year) <= DayNumber(d) < DaysBeforeYear(d.year + 1)
  {
    DaysBeforeMonthStep(d.year, d.month);
    DaysBeforeYearStep(d.year);
  }

  lemma {:induction false} DaysBeforeYearMonotone(a: nat, b: nat)
    requires a <= b
    ensures DaysBeforeYear(a) + 365 * (b - a) <= DaysBeforeYear(b)
    decreases b - a
  {
    if a < b {
      DaysBeforeYearStep(a);
      DaysBeforeYearMonotone(a + 1, b);
    }
  }

  /** Exactly one year contains a given day. */
  lemma YearUnique(t: int, a: nat, b: nat)
    requires DaysBeforeYear(a) <= t < DaysBeforeYear(a + 1)
    requires DaysBeforeYear(b) <= t < DaysBeforeYear(b + 1)
    ensures a == b
  {

  }

  /** The Thursday of the Monday-to-Sunday week containing day `n`. */
  function IsoThursday(n: int): (t: int)
    ensures n - 3 <= t <= n + 3
  {
    var dayNum := if Weekday(n) == 0 then 7 else Weekday(n);
    n + 4 - dayNum
  }

  /** The year containing the Thursday of `d`'s week: `d`'s year or a neighbour. */
  function ThursdayYear(d: CalendarDate): (ty: nat)
    ensures DaysBeforeYear(ty) <= IsoThursday(DayNumber(d)) < DaysBeforeYear(ty + 1)
  {
    var t := IsoThursday(DayNumber(d));
    DayNumberInYear(d);
    DaysBeforeYearStep(d.year - 1);
    DaysBeforeYearStep(d.year);
    DaysBeforeYearStep(d.year + 1);
    if t < DaysBeforeYear(d.year) then d.year - 1
    else if t >= DaysBeforeYear(d.year + 1) then d.year + 1
    else d.year
  }

  /** `getWeekNumber(date)`: the ISO 8601 week of the date. */
  function IsoWeek(d: CalendarDate): (w: nat)
    ensures 1 <= w <= 53
  {
    var ty := ThursdayYear(d);
    DaysBeforeYearStep(ty);
    (IsoThursday(DayNumber(d)) - DaysBeforeYear(ty)) / 7 + 1
  }

  /** Days of one Monday-to-Sunday week share their Thursday. */
  lemma SameWeekSameThursday(monday: int, k: int)
    requires Weekday(monday) == 1 && 0 <= k < 7
    ensures IsoThursday(monday + k) == monday + 3
  {
    assert Weekday(monday + k) == (k + 1) % 7;
  }

  /** Dates of one Monday-to-Sunday week get the same week number, even when the
      week straddles two years. */
  lemma SameWeekSameNumber(d1: CalendarDate, d2: CalendarDate)
    requires Weekday(DayNumber(d1)) == 1
    requires DayNumber(d1) <= DayNumber(d2) < DayNumber(d1) + 7
    ensures IsoWeek(d1) == IsoWeek(d2)
  {
    var n1, n2 := DayNumber(d1), DayNumber(d2);
    SameWeekSameThursday(n1, 0);
    SameWeekSameThursday(n1, n2 - n1);
    assert IsoThursday(n1) == IsoThursday(n2);
    YearUnique(IsoThursday(n1), ThursdayYear(d1), ThursdayYear(d2));
  }

  datatype PeriodKind = Weekly | Monthly

  /** `formatPeriod(date, type)`: "YYYY-MM" or "YYYY-Www", where the year is the
      calendar year of the date and the week is its ISO week. */
  function FormatPeriod(d: CalendarDate, kind: PeriodKind): (key: string)
    ensures |key| > 0
  {
    match kind
    case Monthly => NatToString(d.year) + "-" + PadStart2(NatToString(d.month))
    case Weekly => NatToString(d.year) + "-W" + PadStart2(NatToString(IsoWeek(d)))
  }

  /** Two-digit years passed to the `Date` constructor mean 1900-1999. */
  function JsYear(y: nat): (r: nat)
    ensures r >= 1900 || r == y
  {
    if y <= 99 then 1900 + y else y
  }

  /** `new Date(year, monthIndex, 0)`: the day before the first of month
      `monthIndex` (0-based, overflowing into later years). */
  function MonthEnd(year: nat, monthIndex: nat): int {
    var y := JsYear(year) + monthIndex / 12;
    DaysBeforeYear(y) + DaysBeforeMonth(y, monthIndex % 12 + 1) - 1
  }

  /** The weekly branch of `getPeriodEnd`: from January 1 of `year`, step
      `week - 1` weeks, move to the Monday of that week and then to its Sunday. */
  function WeekEnd(year: nat, week: nat): int {
    var n := DaysBeforeYear(JsYear(year)) + 7 * (week - 1);
    var day := Weekday(n);
    var monday := n - day + (if day == 0 then -6 else 1);
    monday + 6
  }

  /** `getPeriodEnd(period, type)` as a day number (midnight local time).
      A key that does not parse gives an invalid date, on which the caller's
      `toISOString()` throws. */
  function PeriodEnd(period: string, kind: PeriodKind): Result<int, string> {
    match ParseKey(period, kind)
    case None => Failure("Invalid time value")
    case Some((y, v)) => Success(if kind == Monthly then MonthEnd(y, v) else WeekEnd(y, v))
  }

  /** `period.split(sep).map(Number)` destructured into two numbers; `None` when
      a part is missing or is not a number. */
  function ParseKey(period: string, kind: PeriodKind): Option<(nat, nat)> {
    var parts := Split(period, if kind == Monthly then "-" else "-W");
    if |parts| < 2 then None
    else match (ToNumber(parts[0]), ToNumber(parts[1]))
      case (Some(y), Some(v)) => Some((y, v))
      case _ => None
  }

  /** Parsing a key made by `formatPeriod` recovers the year and the month or
      week it was made from. */
  lemma KeyRoundTrip(d: CalendarDate, kind: PeriodKind)
    ensures ParseKey(FormatPeriod(d, kind), kind) == Some((d.year, if kind == Monthly then d.month else IsoWeek(d)))
  {
    var sep := if kind == Monthly then "-" else "-W";
    var v := if kind == Monthly then d.month else IsoWeek(d);
    var ys, vs := NatToString(d.year), PadStart2(NatToString(v));
    NatToStringRoundTrip(d.year);
    PaddedRoundTrip(v);
    DigitsAvoid(ys, sep);
    DigitsAvoid(vs, sep);
    SplitTwoFields(ys, sep, vs);
    assert FormatPeriod(d, kind) == ys + sep + vs;
  }

  /** Dates with the same key have the same year, and the same month (monthly)
      or week number (weekly). */
  lemma SameKeySamePeriod(d1: CalendarDate, d2: CalendarDate, kind: PeriodKind)
    requires FormatPeriod(d1, kind) == FormatPeriod(d2, kind)
    ensures d1.year == d2.year
    ensures kind == Monthly ==> d1.month == d2.month
    ensures kind == Weekly ==> IsoWeek(d1) == IsoWeek(d2)
  {
    KeyRoundTrip(d1, kind);
    KeyRoundTrip(d2, kind);
  }

  /** The weekly period end is the first Sunday on or after January 1 plus
      `week - 1` weeks. */
  lemma WeekEndIsSunday(year: nat, week: nat)
    ensures Weekday(WeekEnd(year, week)) == 0
    ensures var n := DaysBeforeYear(JsYear(year)) + 7 * (week - 1);
            n <= WeekEnd(year, week) < n + 7
  {
    SundayOnOrAfter(DaysBeforeYear(JsYear(year)) + 7 * (week - 1));
  }

  /** The Monday-based week containing day `n` ends on the first Sunday on
      or after `n`. */
  lemma SundayOnOrAfter(n: int)
    ensures var day := Weekday(n);
      var e := n - day + (if day == 0 then -6 else 1) + 6;
      Weekday(e) == 0 && n <= e < n + 7
  {
    var day := Weekday(n);
    var q := (n + 6) / 7;
    assert n + 6 == 7 * q + day;
    if day != 0 {
      var e := n - day + 7;
      assert e + 6 == 7 * (q + 1);
      MultipleOfSeven(q + 1);
    }
  }

  lemma MultipleOfSeven(k: int)
    ensures (7 * k) % 7 == 0
  {
  }

  lemma DigitsAvoid(s: string, sep: string)
    requires AllDigits(s) && |sep| > 0 && sep[0] == '-'
    ensures Avoids(s, sep)
  {
  }

  /** The end of a monthly key made by `formatPeriod` is the last day of the
      date's month. */
  lemma MonthlyPeriodEnd(d: CalendarDate)
    requires d.year >= 100
    ensures PeriodEnd(FormatPeriod(d, Monthly), Monthly)
         == Success(DayNumber(Date(d.year, d.month, DaysInMonth(d.year, d.month))))
  {
    KeyRoundTrip(d, Monthly);
    MonthEndIsLastDay(d.year, d.month);
  }

  /** `new Date(y, m, 0)` is the last day of month `m` (1-based) of year `y`. */
  lemma MonthEndIsLastDay(y: nat, m: nat)
    requires y >= 100 && 1 <= m <= 12
    ensures MonthEnd(y, m) == DaysBeforeYear(y) + DaysBeforeMonth(y, m) + DaysInMonth(y, m) - 1
  {
    DaysBeforeMonthStep(y, m);
    if m == 12 {
      DaysBeforeYearStep(y);
    }
  }

  /** The end of a weekly key made by `formatPeriod` is computed from the
      calendar year and the week number. */
  lemma WeeklyPeriodEnd(d: CalendarDate)
    ensures PeriodEnd(FormatPeriod(d, Weekly), Weekly) == Success(WeekEnd(d.year, IsoWeek(d)))
  {
    KeyRoundTrip(d, Weekly);
  }

  /** A monthly key's end is on or after every date that produced the key. */
  lemma MonthlyEndCoversDate(d: CalendarDate)
    requires d.year >= 100
    ensures PeriodEnd(FormatPeriod(d, Monthly), Monthly).Success?
    ensures DayNumber(d) <= PeriodEnd(FormatPeriod(d, Monthly), Monthly).value
  {
    MonthlyPeriodEnd(d);
  }

  /** The weekly key uses the calendar year, not the ISO week-numbering year:
      2024-12-30 (in the first week of 2025) and 2024-01-03 share the key
      "2024-W01" although they are 362 days apart. */
  lemma WeeklyKeyCollision()
    ensures FormatPeriod(Date(2024, 12, 30), Weekly) == FormatPeriod(Date(2024, 1, 3), Weekly) == "2024-W01"
    ensures DayNumber(Date(2024, 12, 30)) - DayNumber(Date(2024, 1, 3)) == 362
  {
    LateDecemberKey();
    EarlyJanuaryKey();
  }

  lemma LateDecemberKey()
    ensures FormatPeriod(Date(2024, 12, 30), Weekly) == "2024-W01"
  {
    Year2024();
    Padded01();
    LateDecemberWeek();
    WeeklyKeyOf(Date(2024, 12, 30), 1);
  }

  lemma EarlyJanuaryKey()
    ensures FormatPeriod(Date(2024, 1, 3), Weekly) == "2024-W01"
  {
    Year2024();
    Padded01();
    EarlyJanuaryWeek();
    WeeklyKeyOf(Date(2024, 1, 3), 1);
  }

  lemma LateDecemberWeek()
    ensures IsoWeek(Date(2024, 12, 30)) == 1
  {
    var late := Date(2024, 12, 30);
    assert DaysBeforeYear(2024) == 739251;
    assert DaysBeforeYear(2025) == 739617;
    assert DayNumber(late) == 739615;
    assert Weekday(739615) == 1;
    assert IsoThursday(739615) == 739618;
    assert ThursdayYear(late) == 2025;
  }

  lemma EarlyJanuaryWeek()
    ensures IsoWeek(Date(2024, 1, 3)) == 1
  {
    var early := Date(2024, 1, 3);
    assert DaysBeforeYear(2024) == 739251;
    assert DaysBeforeYear(2025) == 739617;
    assert DayNumber(early) == 739253;
    assert Weekday(739253) == 3;
    assert IsoThursday(739253) == 739254;
    assert ThursdayYear(early) == 2024;
  }

  lemma WeeklyKeyOf(d: CalendarDate, w: nat)
    requires IsoWeek(d) == w
    ensures FormatPeriod(d, Weekly) == NatToString(d.year) + "-W" + PadStart2(NatToString(w))
  {
  }

  lemma Padded01()
    ensures PadStart2(NatToString(1)) == "01"
  {
  }

  lemma Year2024()
    ensures NatToString(2024) == "2024"
  {
    assert NatToString(2) == "2";
    assert NatToString(20) == "20";
    assert NatToString(202) == "202";
  }

  lemma Year2021()
    ensures NatToString(2021) == "2021"
  {
    assert NatToString(2) == "2";
    assert NatToString(20) == "20";
    assert NatToString(202) == "202";
  }

  /** When January 1 falls on a Friday, the week-1 end computed by `getPeriodEnd`
      is the Sunday before week 1 begins: 2021-01-05 gets the key "2021-W01",
      whose end is 2021-01-03. */
  lemma WeeklyEndBeforeItsDates()
    ensures FormatPeriod(Date(2021, 1, 5), Weekly) == "2021-W01"
    ensures PeriodEnd("2021-W01", Weekly) == Success(DayNumber(Date(2021, 1, 3)))
  {
    var d := Date(2021, 1, 5);
    Key2021W01();
    WeeklyPeriodEnd(d);
    Week1End2021();
  }

  lemma Week1End2021()
    ensures WeekEnd(2021, 1) == DayNumber(Date(2021, 1, 3))
  {
    assert DaysBeforeYear(2021) == 738156;
    assert Weekday(738156) == 5;
    assert WeekEnd(2021, 1) == 738158;
    assert DayNumber(Date(2021, 1, 3)) == 738158;
  }

  lemma Key2021W01()
    ensures IsoWeek(Date(2021, 1, 5)) == 1
    ensures FormatPeriod(Date(2021, 1, 5), Weekly) == "2021-W01"
  {
    var d := Date(2021, 1, 5);
    assert DaysBeforeYear(2021) == 738156;
    assert DayNumber(d) == 738160;
    assert Weekday(738160) == 2;
    assert ThursdayYear(d) == 2021;
    assert IsoWeek(d) == 1;
    Year2021();
    Padded01();
    WeeklyKeyOf(d, 1);
  }
}
