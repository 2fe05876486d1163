/**
 The proleptic Gregorian calendar of section 21.4.1 of ECMA-262, on whole days and milliseconds: days and
 real dates correspond one to one, in order.
 */
module Calendar {
  const MS_PER_DAY := 86_400_000

  datatype Civil = Civil(year: int, month: int, date: int)

  predicate Leap(y: int) {
    y % 4 == 0 && (y % 100 != 0 || y % 400 == 0)
  }

  function DaysInYear(y: int): int {
    if Leap(y) then 366 else 365
  }

  /** Day number of January 1st. */
  function DayFromYear(y: int): int {
    365 * (y - 1970) + (y - 1969) / 4 - (y - 1901) / 100 + (y - 1601) / 400
  }

  /** Days of the year before a month, months counted from 0. */
  function DaysBefore(month: int, leap: bool): int
    requires 0 <= month <= 12
  {
    var l := if leap then 1 else 0;
    match month
    case 0 => 0
    case 1 => 31
    case 2 => 59 + l
    case 3 => 90 + l
    case 4 => 120 + l
    case 5 => 151 + l
    case 6 => 181 + l
    case 7 => 212 + l
    case 8 => 243 + l
    case 9 => 273 + l
    case 10 => 304 + l
    case 11 => 334 + l
    case _ => 365 + l
  }

  /** The same by counting years one at a time. */
  function FirstDay(y: int): int
    decreases if y < 1970 then 1970 - y else y - 1970
  {
    if y == 1970 then 0
    else if y < 1970 then FirstDay(y + 1) - DaysInYear(y)
    else FirstDay(y - 1) + DaysInYear(y - 1)
  }

  lemma YearHasItsDays(y: int)
    ensures FirstDay(y + 1) == FirstDay(y) + DaysInYear(y) && 365 <= DaysInYear(y) <= 366
  {
  }

  lemma Step4(y: int)
    ensures (y - 1968) / 4 == (y - 1969) / 4 + if y % 4 == 0 then 1 else 0
  {
  }

  lemma Step100(y: int)
    ensures (y - 1900) / 100 == (y - 1901) / 100 + if y % 100 == 0 then 1 else 0
  {
  }

  lemma Step400(y: int)
    ensures (y - 1600) / 400 == (y - 1601) / 400 + if y % 400 == 0 then 1 else 0
  {
  }

  lemma HundredIsMultipleOf4(y: int)
    ensures y % 100 == 0 ==> y % 4 == 0
  {
    assert y == 4 * (25 * (y / 100)) + y % 100;
  }

  lemma FourHundredIsMultipleOf100(y: int)
    ensures y % 400 == 0 ==> y % 100 == 0
  {
    assert y == 100 * (4 * (y / 400)) + y % 400;
  }

  lemma FormulaStep(y: int)
    ensures DayFromYear(y + 1) == DayFromYear(y) + DaysInYear(y)
  {
    Step4(y);
    Step100(y);
    Step400(y);
    HundredIsMultipleOf4(y);
    FourHundredIsMultipleOf100(y);
  }

  /** The standard's closed formula counts the years' days. */
  lemma {:induction false} FormulaCountsDays(y: int)
    ensures DayFromYear(y) == FirstDay(y)
    decreases if y < 1970 then 1970 - y else y - 1970
  {
    if y < 1970 {
      FormulaCountsDays(y + 1);
      FormulaStep(y);
      YearHasItsDays(y);
    } else if y > 1970 {
      FormulaCountsDays(y - 1);
      FormulaStep(y - 1);
      YearHasItsDays(y - 1);
    }
  }

  lemma {:induction false} YearsAreOrdered(x: int, y: int)
    requires x < y
    ensures FirstDay(x) + 365 * (y - x) <= FirstDay(y)
    decreases y - x
  {
    YearHasItsDays(y - 1);
    if x < y - 1 {
      YearsAreOrdered(x, y - 1);
    }
  }

  /** The year a day lies in, searched from `y`. */
  function YearFrom(day: int, y: int): (r: int)
    ensures FirstDay(r) <= day < FirstDay(r + 1)
    decreases if day < FirstDay(y) then FirstDay(y) - day + 400 else if day < FirstDay(y + 1) then 0
              else day - FirstDay(y)
  {
    YearHasItsDays(y - 1);
    YearHasItsDays(y);
    if day < FirstDay(y) then YearFrom(day, y - 1)
    else if day >= FirstDay(y + 1) then YearFrom(day, y + 1)
    else y
  }

  function YearOf(day: int): (r: int)
    ensures FirstDay(r) <= day < FirstDay(r + 1)
  {
    YearFrom(day, 1970)
  }

  lemma YearIsUnique(day: int, y: int)
    requires FirstDay(y) <= day < FirstDay(y + 1)
    ensures YearOf(day) == y
  {
    var r := YearOf(day);
    if r < y && r + 1 < y { YearsAreOrdered(r + 1, y); }
    if y < r && y + 1 < r { YearsAreOrdered(y + 1, r); }
  }

  /** The month, from 0, of a day of the year. */
  function MonthFrom(dayOfYear: int, leap: bool, month: int): (r: int)
    requires 0 <= month <= 11 && 0 <= dayOfYear < DaysBefore(month + 1, leap)
    ensures 0 <= r <= 11 && DaysBefore(r, leap) <= dayOfYear < DaysBefore(r + 1, leap)
    decreases month
  {
    if DaysBefore(month, leap) <= dayOfYear then month else MonthFrom(dayOfYear, leap, month - 1)
  }

  lemma {:induction false} MonthsAreOrdered(m: int, n: int, leap: bool)
    requires 0 <= m < n <= 12
    ensures DaysBefore(m, leap) + 28 * (n - m) <= DaysBefore(n, leap)
    decreases n - m
  {
    if m < n - 1 {
      MonthsAreOrdered(m, n - 1, leap);
    }
  }

  /** YearFromTime, MonthFromTime and DateFromTime of a day; the month is counted from 1. */
  function CivilOf(day: int): Civil {
    var y := YearOf(day);
    YearHasItsDays(y);
    var d := day - FirstDay(y);
    var m := MonthFrom(d, Leap(y), 11);
    Civil(y, m + 1, d - DaysBefore(m, Leap(y)) + 1)
  }

  function DaysInMonth(year: int, month: int): int
    requires 1 <= month <= 12
  {
    DaysBefore(month, Leap(year)) - DaysBefore(month - 1, Leap(year))
  }

  /** The calendar has this date. */
  predicate Real(c: Civil) {
    1 <= c.month <= 12 && 1 <= c.date <= DaysInMonth(c.year, c.month)
  }

  /** MakeDay, for any integers: months overflow into years, dates into days. */
  function MakeDay(year: int, month: int, date: int): int {
    var y := year + (month - 1) / 12;
    FirstDay(y) + DaysBefore((month - 1) % 12, Leap(y)) + date - 1
  }

  /** Main result: a day's date is real, and is the date of that day only. */
  lemma CivilIsReal(day: int)
    ensures Real(CivilOf(day)) && var c := CivilOf(day); MakeDay(c.year, c.month, c.date) == day
  {
    hide DaysBefore, FirstDay, Leap, YearOf, MonthFrom, CivilOf;
    CivilParts(day);
    SmallMonth(CivilOf(day).month - 1);
  }

  /** The parts of a date, and where its month lies in its year. */
  lemma CivilParts(day: int)
    ensures var c, leap := CivilOf(day), Leap(CivilOf(day).year);
            c.year == YearOf(day) && 1 <= c.month <= 12
            && 0 <= day - FirstDay(c.year) < DaysBefore(12, leap)
            && c.month - 1 == MonthFrom(day - FirstDay(c.year), leap, 11)
            && c.date == day - FirstDay(c.year) - DaysBefore(c.month - 1, leap) + 1
  {
    YearHasItsDays(YearOf(day));
    hide FirstDay, YearOf, MonthFrom;
  }

  lemma SmallMonth(m: int)
    requires 0 <= m < 12
    ensures m / 12 == 0 && m % 12 == m
  {
  }

  lemma MonthWithinYear(m: int, leap: bool)
    requires 0 <= m < 12
    ensures 0 <= DaysBefore(m, leap) && DaysBefore(m + 1, leap) <= DaysBefore(12, leap)
  {
  }

  lemma RealIsCivil(c: Civil)
    requires Real(c)
    ensures CivilOf(MakeDay(c.year, c.month, c.date)) == c
  {
    hide FirstDay, DaysBefore, Leap, YearOf, MonthFrom, CivilOf, DaysInYear;
    var m := c.month - 1;
    SmallMonth(m);
    var leap := Leap(c.year);
    var day := MakeDay(c.year, c.month, c.date);
    YearHasItsDays(c.year);
    MonthsFillYear(c.year);
    MonthWithinYear(m, leap);
    CivilParts(day);
    YearIsUnique(day, c.year);
    MonthIsUnique(day - FirstDay(c.year), leap, m);
  }

  lemma MonthIsUnique(dayOfYear: int, leap: bool, m: int)
    requires 0 <= m <= 11 && DaysBefore(m, leap) <= dayOfYear < DaysBefore(m + 1, leap)
    requires 0 <= dayOfYear < DaysBefore(12, leap)
    ensures MonthFrom(dayOfYear, leap, 11) == m
  {
    hide DaysBefore, MonthFrom;
    var r := MonthFrom(dayOfYear, leap, 11);
    if r + 1 < m { MonthsAreOrdered(r + 1, m, leap); }
    if m + 1 < r { MonthsAreOrdered(m + 1, r, leap); }
  }

  predicate Earlier(a: Civil, b: Civil) {
    a.year < b.year || (a.year == b.year && (a.month < b.month || (a.month == b.month && a.date < b.date)))
  }

  lemma YearsFollow(x: int, y: int)
    requires x < y
    ensures YearOf(x) <= YearOf(y)
  {
    hide FirstDay, YearOf;
    if YearOf(y) + 1 < YearOf(x) { YearsAreOrdered(YearOf(y) + 1, YearOf(x)); }
  }

  lemma MonthsFollow(x: int, y: int, leap: bool)
    requires 0 <= x < y < DaysBefore(12, leap)
    ensures MonthFrom(x, leap, 11) <= MonthFrom(y, leap, 11)
  {
    hide DaysBefore, MonthFrom;
    var m, n := MonthFrom(x, leap, 11), MonthFrom(y, leap, 11);
    if n + 1 < m { MonthsAreOrdered(n + 1, m, leap); }
  }

  /** Main result: later days have later dates. */
  lemma CivilIsOrdered(x: int, y: int)
    requires x < y
    ensures Earlier(CivilOf(x), CivilOf(y))
  {
    hide DaysBefore, FirstDay, Leap, MonthFrom, YearOf, CivilOf;
    YearsFollow(x, y);
    CivilParts(x);
    CivilParts(y);
    if CivilOf(x).year == CivilOf(y).year {
      MonthsFollow(x - FirstDay(CivilOf(x).year), y - FirstDay(CivilOf(x).year), Leap(CivilOf(x).year));
    }
  }

  lemma MonthsFillYear(y: int)
    ensures DaysBefore(12, Leap(y)) == DaysInYear(y)
  {
  }
}
