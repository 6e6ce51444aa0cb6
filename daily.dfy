/**
 One iteration of `process_daily_dou`: process today's edition when today is
 a business day, then wait until 06:00 of the next day, or retry after a
 5-minute cooldown when the iteration raises.
 */
module Daily {
  import opened Calendar
  import opened BusinessDays

  const MicrosPerSecond := 1_000_000
  const MicrosPerDay := 86_400 * MicrosPerSecond

  /** 06:00:00.000000, the time of day of the next run. */
  const RunTime := 6 * 3_600 * MicrosPerSecond

  /** Seconds of `asyncio.sleep` after an iteration that raised. */
  const Cooldown := 300

  /** A `datetime`: a date and the microseconds since its midnight. */
  datatype Moment = Moment(date: Date, micros: int)

  type Instant = m: Moment | 0 <= m.micros < MicrosPerDay witness Moment(MinDate, 0)

  /** `(b - a)` in microseconds. */
  function Span(a: Instant, b: Instant): int {
    (Ordinal(b.date) - Ordinal(a.date)) * MicrosPerDay + b.micros - a.micros
  }

  /** How the iteration ends. */
  datatype Wait =
    | Sleep(nextRun: Instant, micros: int)     // `asyncio.sleep(sleep_seconds)`
    | NoSleep(nextRun: Instant)                // "Tempo de espera negativo"
    | Retry(seconds: int)                      // the `except` branch

  /** Whether today's edition was handed to `process_dou_date`, and the wait that follows. */
  datatype DailyStep = DailyStep(dispatched: bool, wait: Wait)

  /**
   `now` is `datetime.now()` at the top of the iteration, `later` the second
   `datetime.now()` when the sleep is computed, and `raised` whether
   processing and sending today's edition raised. Today's edition is
   processed exactly on business days; the 5-minute cooldown follows exactly
   when processing raised or the next day does not exist (`OverflowError`
   on 31-12-9999); otherwise the next run is the next day at 06:00, and the
   iteration sleeps only for a positive time from the second clock reading
   to it.
   */
  function DailyIteration(now: Instant, later: Instant, raised: bool): (s: DailyStep)
    ensures s.dispatched <==> !IsWeekend(now.date) && !IsHoliday(now.date)
    ensures s.wait.Retry? <==> (s.dispatched && raised) || now.date == MaxDate
    ensures s.wait.Retry? ==> s.wait.seconds == Cooldown
    ensures !s.wait.Retry? ==>
              now.date != MaxDate && s.wait.nextRun == Moment(NextDay(now.date), RunTime)
    ensures s.wait.Sleep? ==> s.wait.micros > 0 && s.wait.micros == Span(later, s.wait.nextRun)
    ensures s.wait.NoSleep? ==> Span(later, s.wait.nextRun) <= 0
  {
    var dispatched := IsBusinessDay(now.date);
    if dispatched && raised then DailyStep(true, Retry(Cooldown))
    else if now.date == MaxDate then DailyStep(dispatched, Retry(Cooldown))
    else
      var nextRun: Instant := Moment(NextDay(now.date), RunTime);
      var micros := Span(later, nextRun);
      if micros > 0 then DailyStep(dispatched, Sleep(nextRun, micros))
      else DailyStep(dispatched, NoSleep(nextRun))
  }

  /** The next run, when there is one, is more than 6 and at most 30 hours after the start of the iteration. */
  lemma NextRunWindow(now: Instant, later: Instant, raised: bool)
    requires !DailyIteration(now, later, raised).wait.Retry?
    ensures 6 * 3_600 * MicrosPerSecond < Span(now, DailyIteration(now, later, raised).wait.nextRun)
            <= 30 * 3_600 * MicrosPerSecond
  {
    TomorrowAtSix(now);
  }

  /** 06:00 of the next day lies more than 6 and at most 30 hours ahead. */
  lemma TomorrowAtSix(now: Instant)
    requires now.date != MaxDate
    ensures 6 * 3_600 * MicrosPerSecond < Span(now, Moment(NextDay(now.date), RunTime)) <= 30 * 3_600 * MicrosPerSecond
  {
    var next := NextDay(now.date);
    var days := Ordinal(next) - Ordinal(now.date);
    assert days == 1;
    assert Span(now, Moment(next, RunTime)) == days * MicrosPerDay + RunTime - now.micros;
  }

  /** When both clock readings agree and nothing raises, the iteration sleeps, for more than 6 and at most 30 hours. */
  lemma SameInstantSleeps(now: Instant, raised: bool)
    requires now.date != MaxDate && !(IsBusinessDay(now.date) && raised)
    ensures var w := DailyIteration(now, now, raised).wait;
      w.Sleep? && 6 * 3_600 * MicrosPerSecond < w.micros <= 30 * 3_600 * MicrosPerSecond
  {
    NextRunWindow(now, now, raised);
  }
}
