/**
 The business-day calendar: a date is skipped when it falls on a Saturday
 or Sunday or when its "%d-%m-%Y" text is one of the listed holidays.
 */
module BusinessDays {
  import opened Calendar
  import opened DateText

  /** The script's `HOLIDAYS` list, in its own text form. */
  const Holidays: seq<string> := [
    "01-01-2024", "20-04-2024", "01-05-2024", "07-09-2024", "12-10-2024",
    "02-11-2024", "15-11-2024", "20-11-2024", "25-12-2024",
    "01-01-2025", "20-04-2025", "01-05-2025", "07-09-2025", "12-10-2025",
    "02-11-2025", "15-11-2025", "20-11-2025", "25-12-2025"
  ]

  predicate IsWeekend(d: Date) {
    Weekday(d) >= 5
  }

  predicate IsHoliday(d: Date) {
    FormatDate(d) in Holidays
  }

  predicate IsBusinessDay(d: Date) {
    !IsWeekend(d) && !IsHoliday(d)
  }

  /** 0001-01-01 is a Monday and not a holiday, so a backward walk stops there at the latest. */
  lemma MinDateIsBusinessDay()
    ensures IsBusinessDay(MinDate)
  {
    assert Weekday(MinDate) == 0;
    assert FormatDate(MinDate) == "01-01-0001";
  }

  /** The days of `[lo, hi]` that pass `keep`, earliest first. */
  function DaysIn(lo: Date, hi: Date, keep: Date -> bool): seq<Date>
    decreases Ordinal(hi) - Ordinal(lo)
  {
    if Before(hi, lo) then []
    else
      (if keep(lo) then [lo] else [])
      + (if lo == MaxDate then [] else DaysIn(NextDay(lo), hi, keep))
  }

  /**
   The business days of `[lo, hi]`, earliest first: the dates for which the
   backfill invokes the pipeline.
   */
  function BusinessDaysIn(lo: Date, hi: Date): seq<Date> {
    DaysIn(lo, hi, IsBusinessDay)
  }

  predicate StrictlyAscending(ds: seq<Date>) {
    forall i, j :: 0 <= i < j < |ds| ==> Before(ds[i], ds[j])
  }

  /** A date is listed exactly when it lies in the range and passes the filter. */
  lemma {:induction false} DaysInMembers(lo: Date, hi: Date, keep: Date -> bool, d: Date)
    ensures d in DaysIn(lo, hi, keep) <==> OnOrBefore(lo, d) && OnOrBefore(d, hi) && keep(d)
    decreases Ordinal(hi) - Ordinal(lo)
  {
    if Before(hi, lo) {
      return;
    }
    var head := if keep(lo) then [lo] else [];
    var tail := if lo == MaxDate then [] else DaysIn(NextDay(lo), hi, keep);
    assert DaysIn(lo, hi, keep) == head + tail;
    assert d in head <==> d == lo && keep(d);
    if OnOrBefore(lo, d) && Ordinal(d) == Ordinal(lo) {
      OrdinalInjective(lo, d);
    }
    if lo != MaxDate {
      DaysInMembers(NextDay(lo), hi, keep, d);
    } else {
      OrdinalOrderIsCalendarOrder(MaxDate, d);
    }
  }

  /** The listed dates are in calendar order, so none is listed twice. */
  lemma {:induction false} DaysInAscending(lo: Date, hi: Date, keep: Date -> bool)
    ensures StrictlyAscending(DaysIn(lo, hi, keep))
    decreases Ordinal(hi) - Ordinal(lo)
  {
    if !Before(hi, lo) && lo != MaxDate {
      var tail := DaysIn(NextDay(lo), hi, keep);
      DaysInAscending(NextDay(lo), hi, keep);
      forall d | d in tail ensures Before(lo, d) {
        DaysInMembers(NextDay(lo), hi, keep, d);
      }
    }
  }

  /** A date is listed exactly when it lies in the range and is a business day. */
  lemma BusinessDaysInMembers(lo: Date, hi: Date, d: Date)
    ensures d in BusinessDaysIn(lo, hi) <==> OnOrBefore(lo, d) && OnOrBefore(d, hi) && IsBusinessDay(d)
  {
    DaysInMembers(lo, hi, IsBusinessDay, d);
  }

  /** The listed business days are in calendar order. */
  lemma BusinessDaysInAscending(lo: Date, hi: Date)
    ensures StrictlyAscending(BusinessDaysIn(lo, hi))
  {
    DaysInAscending(lo, hi, IsBusinessDay);
  }
}
