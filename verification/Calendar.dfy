/** The proleptic Gregorian calendar as Go's time package counts it: a day is numbered by
  * its year's first day plus the days before its month, whatever the day of the month is,
  * so that an out-of-range day rolls into the neighbouring month. */
module Calendar {

  datatype Date = Date(year: int, month: int, day: int)

  predicate Leap(year: int) {
    year % 4 == 0 && (year % 100 != 0 || year % 400 == 0)
  }

  function DaysIn(year: int, month: int): int {
    if month == 2 then (if Leap(year) then 29 else 28)
    else if month in {4, 6, 9, 11} then 30
    else 31
  }

  /** Days of `year` before `month` begins. */
  function DaysBefore(year: int, month: int): int
    decreases month
  {
    if month <= 1 then 0 else DaysBefore(year, month - 1) + DaysIn(year, month - 1)
  }

  /** The number of the first of January, counted from an arbitrary fixed day. */
  function YearStart(year: int): int {
    365 * year + (year - 1) / 4 - (year - 1) / 100 + (year - 1) / 400
  }

  /** The number of a day; `d.day` need not be a day of its month. */
  function Number(d: Date): int {
    YearStart(d.year) + DaysBefore(d.year, d.month) + d.day - 1
  }

  predicate Valid(d: Date) {
    1 <= d.month <= 12 && 1 <= d.day <= DaysIn(d.year, d.month)
  }

  predicate Earlier(a: Date, b: Date) {
    || a.year < b.year
    || (a.year == b.year && a.month < b.month)
    || (a.year == b.year && a.month == b.month && a.day < b.day)
  }

  function NextDay(d: Date): Date {
    if d.day < DaysIn(d.year, d.month) then d.(day := d.day + 1)
    else if d.month < 12 then Date(d.year, d.month + 1, 1)
    else Date(d.year + 1, 1, 1)
  }

  function PreviousDay(d: Date): Date {
    if d.day > 1 then d.(day := d.day - 1)
    else if d.month > 1 then Date(d.year, d.month - 1, DaysIn(d.year, d.month - 1))
    else Date(d.year - 1, 12, 31)
  }

  function AddDays(d: Date, days: int): Date
    decreases if days < 0 then -days else days
  {
    if days == 0 then d
    else if days > 0 then AddDays(NextDay(d), days - 1)
    else AddDays(PreviousDay(d), days + 1)
  }

  /** `AddDate(years, 0, days)`: the same month and day of another year, which is the first
    * of March when that year has no 29 February, moved by `days`. */
  function AddDate(d: Date, years: int, days: int): Date {
    var moved := d.(year := d.year + years);
    AddDays(if Valid(moved) then moved else Date(moved.year, 3, 1), days)
  }

  // ----- days are numbered without gaps, in calendar order -----

  lemma FourthYear(y: int)
    ensures y / 4 == (y - 1) / 4 + (if y % 4 == 0 then 1 else 0)
  {}

  lemma CenturyYear(y: int)
    ensures y / 100 == (y - 1) / 100 + (if y % 100 == 0 then 1 else 0)
  {}

  lemma FourthCentury(y: int)
    ensures y / 400 == (y - 1) / 400 + (if y % 400 == 0 then 1 else 0)
  {}

  lemma CenturyIsFourth(y: int)
    requires y % 100 == 0
    ensures y % 4 == 0
  {
    var q := y / 100;
    assert y == 4 * (25 * q);
  }

  lemma FourthIsCentury(y: int)
    requires y % 400 == 0
    ensures y % 100 == 0
  {
    var q := y / 400;
    assert y == 100 * (4 * q);
  }

  lemma YearLength(year: int)
    ensures YearStart(year + 1) == YearStart(year) + (if Leap(year) then 366 else 365)
  {
    FourthYear(year);
    CenturyYear(year);
    FourthCentury(year);
    if year % 400 == 0 {
      FourthIsCentury(year);
    }
    if year % 100 == 0 {
      CenturyIsFourth(year);
    }
    var a, b, c := year / 4, year / 100, year / 400;
    assert YearStart(year + 1) == 365 * (year + 1) + a - b + c;
  }

  lemma MonthTable(year: int)
    ensures DaysBefore(year, 12) + 31 == if Leap(year) then 366 else 365
    ensures forall m :: 1 <= m < 12 ==> DaysBefore(year, m + 1) == DaysBefore(year, m) + DaysIn(year, m)
  {
    assert DaysBefore(year, 4) == 31 + DaysIn(year, 2) + 31;
    assert DaysBefore(year, 7) == DaysBefore(year, 4) + 91;
    assert DaysBefore(year, 10) == DaysBefore(year, 7) + 92;
    assert DaysBefore(year, 12) == DaysBefore(year, 10) + 61;
  }

  lemma NextDayNumber(d: Date)
    requires Valid(d)
    ensures Valid(NextDay(d)) && Number(NextDay(d)) == Number(d) + 1
  {
    hide YearStart, Leap;
    MonthTable(d.year);
    YearLength(d.year);
  }

  lemma PreviousDayNumber(d: Date)
    requires Valid(d)
    ensures Valid(PreviousDay(d)) && Number(PreviousDay(d)) == Number(d) - 1
  {
    hide YearStart, Leap, DaysBefore;
    var p := PreviousDay(d);
    assert NextDay(p) == d;
    NextDayNumber(p);
  }

  lemma {:induction false} AddDaysNumber(d: Date, days: int)
    requires Valid(d)
    ensures Valid(AddDays(d, days)) && Number(AddDays(d, days)) == Number(d) + days
    decreases if days < 0 then -days else days
  {
    hide YearStart, Leap;
    if days > 0 {
      NextDayNumber(d);
      AddDaysNumber(NextDay(d), days - 1);
    } else if days < 0 {
      PreviousDayNumber(d);
      AddDaysNumber(PreviousDay(d), days + 1);
    }
  }

  /** Moving a date by years and days reaches the day Go's normalisation numbers: the count
    * of (year + years, month, day + days), whether or not such a day exists. */
  lemma AddDateNumber(d: Date, years: int, days: int)
    requires Valid(d)
    ensures Valid(AddDate(d, years, days))
    ensures Number(AddDate(d, years, days)) == Number(Date(d.year + years, d.month, d.day + days))
  {
    hide YearStart, Leap;
    var moved := d.(year := d.year + years);
    MonthTable(moved.year);
    var base := if Valid(moved) then moved else Date(moved.year, 3, 1);
    if !Valid(moved) {
      assert d.month == 2 && d.day == 29;
      assert Number(base) == Number(moved);
    }
    AddDaysNumber(base, days);
  }

  lemma {:induction false} YearStartsGrow(a: int, b: int)
    requires a <= b
    ensures YearStart(a) + 365 * (b - a) <= YearStart(b)
    decreases b - a
  {
    hide YearStart, Leap;
    if a < b {
      YearLength(a);
      YearStartsGrow(a + 1, b);
    }
  }

  lemma {:induction false} MonthsGrow(year: int, m: int, n: int)
    requires 1 <= m < n <= 12
    ensures DaysBefore(year, m) + DaysIn(year, m) <= DaysBefore(year, n)
    decreases n - m
  {
    if m + 1 < n {
      MonthsGrow(year, m, n - 1);
    }
  }

  lemma WithinYear(d: Date)
    requires Valid(d)
    ensures YearStart(d.year) <= Number(d) < YearStart(d.year + 1)
  {
    hide YearStart, Leap;
    MonthTable(d.year);
    YearLength(d.year);
    if d.month < 12 {
      MonthsGrow(d.year, d.month, 12);
    }
    if 1 < d.month {
      MonthsGrow(d.year, 1, d.month);
    }
  }

  lemma EarlierNumber(a: Date, b: Date)
    requires Valid(a) && Valid(b) && Earlier(a, b)
    ensures Number(a) < Number(b)
  {
    hide YearStart, Leap;
    if a.year < b.year {
      WithinYear(a);
      WithinYear(b);
      YearStartsGrow(a.year + 1, b.year);
    } else if a.month < b.month {
      MonthsGrow(a.year, a.month, b.month);
    }
  }

  /** Calendar order is the order of the day numbers, and no two days share a number. */
  lemma NumberOrders(a: Date, b: Date)
    requires Valid(a) && Valid(b)
    ensures Earlier(a, b) <==> Number(a) < Number(b)
    ensures a == b <==> Number(a) == Number(b)
  {
    hide YearStart, Leap;
    if Earlier(a, b) {
      EarlierNumber(a, b);
    } else if Earlier(b, a) {
      EarlierNumber(b, a);
    }
  }
}
