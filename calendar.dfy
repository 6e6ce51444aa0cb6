/**
 The proleptic Gregorian calendar as Python's `datetime.date` implements it:
 dates from 0001-01-01 to 9999-12-31, the day ordinal (`toordinal`), the
 weekday (`weekday`, Monday = 0) and the one-day steps `+ timedelta(days=1)`
 and `- timedelta(days=1)`.
 */
module Calendar {

  datatype CivilDate = CivilDate(year: int, month: int, day: int)

  predicate IsLeapYear(y: int) {
    y % 4 == 0 && (y % 100 != 0 || y % 400 == 0)
  }

  function DaysInYear(y: int): int {
    if IsLeapYear(y) then 366 else 365
  }

  function DaysInMonth(y: int, m: int): int
    requires 1 <= m <= 12
  {
    if m == 2 then (if IsLeapYear(y) then 29 else 28)
    else if m == 4 || m == 6 || m == 9 || m == 11 then 30
    else 31
  }

  predicate IsValid(d: CivilDate) {
    1 <= d.year <= 9999 && 1 <= d.month <= 12 && 1 <= d.day <= DaysInMonth(d.year, d.month)
  }

  /** A date `datetime.date` can represent. */
  type Date = d: CivilDate | IsValid(d) witness CivilDate(1, 1, 1)

  const MinDate: Date := CivilDate(1, 1, 1)
  const MaxDate: Date := CivilDate(9999, 12, 31)

  /** Days in the years before `y` (Python's `_days_before_year`). */
  function DaysBeforeYear(y: int): int
    requires y >= 1
  {
    var p := y - 1;
    p * 365 + p / 4 - p / 100 + p / 400
  }

  /** Days in the months of year `y` before month `m`. */
  function DaysBeforeMonth(y: int, m: int): (n: int)
    requires 1 <= m <= 12
    ensures n >= 0
    decreases m
  {
    if m == 1 then 0 else DaysBeforeMonth(y, m - 1) + DaysInMonth(y, m - 1)
  }

  /** Python's `date.toordinal()`: 0001-01-01 is day 1. */
  function Ordinal(d: Date): int {
    DaysBeforeYear(d.year) + DaysBeforeMonth(d.year, d.month) + d.day
  }

  /** Python's `date.weekday()`: Monday is 0, Saturday 5, Sunday 6. */
  function Weekday(d: Date): (w: int)
    ensures 0 <= w < 7
  {
    (Ordinal(d) + 6) % 7
  }

  predicate Before(a: Date, b: Date) {
    Ordinal(a) < Ordinal(b)
  }

  predicate OnOrBefore(a: Date, b: Date) {
    Ordinal(a) <= Ordinal(b)
  }

  /** The order Python uses to compare dates: by year, then month, then day. */
  predicate LexBefore(a: CivilDate, b: CivilDate) {
    a.year < b.year
    || (a.year == b.year && a.month < b.month)
    || (a.year == b.year && a.month == b.month && a.day < b.day)
  }

  lemma DaysBeforeYearStep(y: int)
    requires y >= 1
    ensures DaysBeforeYear(y + 1) == DaysBeforeYear(y) + DaysInYear(y)
  {
    var p := y - 1;
    assert y / 4 == p / 4 + (if y % 4 == 0 then 1 else 0);
    assert y / 100 == p / 100 + (if y % 100 == 0 then 1 else 0);
    assert y / 400 == p / 400 + (if y % 400 == 0 then 1 else 0);
  }

  lemma DaysBeforeDecember(y: int)
    ensures DaysBeforeMonth(y, 12) + 31 == DaysInYear(y)
  {
  }

  /** The first of the next month follows the last day of a month other than December. */
  lemma NewMonth(d: Date)
    requires d.day == DaysInMonth(d.year, d.month) && d.month < 12
    ensures IsValid(CivilDate(d.year, d.month + 1, 1))
    ensures Ordinal(CivilDate(d.year, d.month + 1, 1)) == Ordinal(d) + 1
  {
  }

  /** New Year's Day follows 31 December of every year but 9999. */
  lemma NewYear(d: Date)
    requires d.month == 12 && d.day == 31 && d.year < 9999
    ensures IsValid(CivilDate(d.year + 1, 1, 1))
    ensures Ordinal(CivilDate(d.year + 1, 1, 1)) == Ordinal(d) + 1
  {
    DaysBeforeYearStep(d.year);
    DaysBeforeDecember(d.year);
  }

  /** The day after `d`; Python raises OverflowError after 9999-12-31. */
  function NextDay(d: Date): (r: Date)
    requires d != MaxDate
    ensures Ordinal(r) == Ordinal(d) + 1
  {
    if d.day < DaysInMonth(d.year, d.month) then
      CivilDate(d.year, d.month, d.day + 1)
    else if d.month < 12 then
      NewMonth(d);
      CivilDate(d.year, d.month + 1, 1)
    else
      NewYear(d);
      CivilDate(d.year + 1, 1, 1)
  }

  /** The day before `d`; Python raises OverflowError before 0001-01-01. */
  function PrevDay(d: Date): (r: Date)
    requires d != MinDate
    ensures Ordinal(r) == Ordinal(d) - 1
  {
    if d.day > 1 then
      CivilDate(d.year, d.month, d.day - 1)
    else if d.month > 1 then
      var e: Date := CivilDate(d.year, d.month - 1, DaysInMonth(d.year, d.month - 1));
      NewMonth(e);
      e
    else
      var e: Date := CivilDate(d.year - 1, 12, 31);
      NewYear(e);
      e
  }

  lemma {:induction false} DaysBeforeMonthGrows(y: int, m1: int, m2: int)
    requires 1 <= m1 < m2 <= 12
    ensures DaysBeforeMonth(y, m1) + DaysInMonth(y, m1) <= DaysBeforeMonth(y, m2)
    decreases m2 - m1
  {
    if m1 + 1 < m2 {
      DaysBeforeMonthGrows(y, m1, m2 - 1);
    }
  }

  lemma {:induction false} DaysBeforeYearGrows(y1: int, y2: int)
    requires 1 <= y1 < y2
    ensures DaysBeforeYear(y1) + DaysInYear(y1) <= DaysBeforeYear(y2)
    decreases y2 - y1
  {
    DaysBeforeYearStep(y1);
    if y1 + 1 < y2 {
      DaysBeforeYearGrows(y1 + 1, y2);
    }
  }

  lemma DayWithinYear(d: Date)
    ensures DaysBeforeMonth(d.year, d.month) + d.day <= DaysInYear(d.year)
  {
    if d.month < 12 {
      DaysBeforeMonthGrows(d.year, d.month, 12);
    }
    DaysBeforeDecember(d.year);
  }

  /** Comparing ordinals is comparing dates the way Python does. */
  lemma OrdinalOrderIsCalendarOrder(a: Date, b: Date)
    ensures Before(a, b) <==> LexBefore(a, b)
  {
    if a.year < b.year {
      DayWithinYear(a);
      DaysBeforeYearGrows(a.year, b.year);
    } else if b.year < a.year {
      DayWithinYear(b);
      DaysBeforeYearGrows(b.year, a.year);
    } else if a.month < b.month {
      DaysBeforeMonthGrows(a.year, a.month, b.month);
    } else if b.month < a.month {
      DaysBeforeMonthGrows(b.year, b.month, a.month);
    }
  }

  /** Distinct dates have distinct ordinals. */
  lemma OrdinalInjective(a: Date, b: Date)
    requires Ordinal(a) == Ordinal(b)
    ensures a == b
  {
    OrdinalOrderIsCalendarOrder(a, b);
    OrdinalOrderIsCalendarOrder(b, a);
  }

  /** Every other date comes before 9999-12-31. */
  lemma BeforeMaxDate(d: Date)
    requires d != MaxDate
    ensures Before(d, MaxDate)
  {
    OrdinalOrderIsCalendarOrder(d, MaxDate);
  }

  /** Every other date comes after 0001-01-01. */
  lemma AfterMinDate(d: Date)
    requires d != MinDate
    ensures Before(MinDate, d)
  {
    OrdinalOrderIsCalendarOrder(MinDate, d);
  }
}
