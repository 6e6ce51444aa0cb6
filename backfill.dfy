/**
 `process_historical_dous`: resume after the saved date (or from the start
 of the history), clamp a future end date back to the latest business day,
 walk the days, queue each business day's task, and flush the queue two
 tasks at a time, pausing 10 seconds after each full batch.
 */
module Backfill {
  import opened Wrappers
  import opened Calendar
  import opened DateText
  import opened BusinessDays
  import opened Storage
  import opened Pipeline
  import opened Batching

  /** `start_date`: the first day of the history. */
  const HistoryStart: Date := CivilDate(2024, 11, 1)

  /** Seconds of `asyncio.sleep` after each full batch. */
  const BatchPause := 10

  /**
   The day the walk starts from: the day after the saved date when that
   date is on or after the start of the history, otherwise the start.
   `None` when the day after does not exist (`timedelta` overflows).
   */
  function ResumePoint(marker: Option<Date>): (r: Option<Date>)
    ensures r.None? <==> marker == Some(MaxDate)
    ensures r.Some? ==> OnOrBefore(HistoryStart, r.value)
    ensures r.Some? && marker.Some? && OnOrBefore(HistoryStart, marker.value) ==>
              Ordinal(r.value) == Ordinal(marker.value) + 1
    ensures marker.None? || Before(marker.value, HistoryStart) ==> r == Some(HistoryStart)
  {
    BeforeMaxDate(HistoryStart);
    if marker.Some? && OnOrBefore(HistoryStart, marker.value) then
      if marker.value == MaxDate then None else Some(NextDay(marker.value))
    else Some(HistoryStart)
  }

  /** The latest business day on or before `d`. */
  function LatestBusinessDay(d: Date): (r: Date)
    ensures OnOrBefore(r, d) && IsBusinessDay(r)
    decreases Ordinal(d) - Ordinal(MinDate)
  {
    if IsBusinessDay(d) then d
    else
      MinDateIsBusinessDay();
      AfterMinDate(d);
      LatestBusinessDay(PrevDay(d))
  }

  /** No business day lies after the latest one and on or before `d`. */
  lemma {:induction false} LatestIsLatest(d: Date, e: Date)
    requires Before(LatestBusinessDay(d), e) && OnOrBefore(e, d)
    ensures !IsBusinessDay(e)
    decreases Ordinal(d) - Ordinal(MinDate)
  {
    if !IsBusinessDay(d) {
      MinDateIsBusinessDay();
      AfterMinDate(d);
      if e != d {
        if Ordinal(e) == Ordinal(d) {
          OrdinalInjective(e, d);
        }
        LatestIsLatest(PrevDay(d), e);
      }
    }
  }

  /** The end-date walk: step back one day while the day is a weekend day or a holiday. */
  method LastBusinessDayOnOrBefore(now: Date) returns (d: Date)
    ensures d == LatestBusinessDay(now)
  {
    MinDateIsBusinessDay();
    d := now;
    while Weekday(d) >= 5 || FormatDate(d) in Holidays
      invariant LatestBusinessDay(d) == LatestBusinessDay(now)
      decreases Ordinal(d) - Ordinal(MinDate)
    {
      AfterMinDate(d);
      d := PrevDay(d);
    }
  }

  /** The end of the walk: unchanged unless it lies after today, else the latest business day up to today. */
  function ClampEnd(endDate: Date, today: Date): (e: Date)
    ensures OnOrBefore(e, today) || e == endDate
    ensures OnOrBefore(endDate, today) ==> e == endDate
    ensures Before(today, endDate) ==> OnOrBefore(e, today) && IsBusinessDay(e)
  {
    if Before(today, endDate) then LatestBusinessDay(today) else endDate
  }

  /** When the end date was in the future, every day after the clamped end up to today is a weekend day or a holiday. */
  lemma ClampIsLatest(endDate: Date, today: Date, d: Date)
    requires Before(today, endDate)
    requires Before(ClampEnd(endDate, today), d) && OnOrBefore(d, today)
    ensures !IsBusinessDay(d)
  {
    LatestIsLatest(today, d);
  }

  /** `k` pauses of `BatchPause` seconds. */
  function Pauses(k: nat): (ps: seq<int>)
    ensures |ps| == k && forall i :: 0 <= i < k ==> ps[i] == BatchPause
  {
    if k == 0 then [] else Pauses(k - 1) + [BatchPause]
  }

  /**
   What a backfill does: `Overflowed` when the resume point does not exist;
   otherwise the range walked, the batches dispatched, `days_processed`, the
   results sent in order, and the pauses taken.
   */
  datatype BackfillRun =
    | Overflowed
    | Finished(start: Date, end: Date, batches: seq<seq<Date>>, daysProcessed: nat,
               delivered: seq<ProcessingResult>, pauses: seq<int>)

  /**
   The backfill, given the files on disk, the end date, today, what each
   date's task returns (`None` when it raises) and the order in which
   `gather` hands back each batch.
   */
  function HistoricalRun(files: map<string, FileData>, endDate: Date, today: Date,
                         outcome: Date -> Option<TaskOutput>, swapped: seq<Date> -> bool): BackfillRun
  {
    match ResumePoint(LoadLastProcessedDate(files))
    case None => Overflowed
    case Some(start) =>
      var end := ClampEnd(endDate, today);
      var ds := BusinessDaysIn(start, end);
      Finished(start, end, Batches(ds), |ds|, Deliveries(Batches(ds), TaskResults(outcome), swapped),
               Pauses(|ds| / 2))
  }

  /** A day of the range contributes itself when kept, followed by the days after it. */
  lemma DaysInStep(d: Date, end: Date, keep: Date -> bool)
    requires OnOrBefore(d, end) && d != MaxDate
    ensures DaysIn(d, end, keep) == (if keep(d) then [d] else []) + DaysIn(NextDay(d), end, keep)
  {
  }

  /** Passing over a day the filter rejects leaves the walked days, the queue and the days still ahead adding up to all days. */
  lemma SkipDay(batches: seq<seq<Date>>, tasks: seq<Date>, d: Date, end: Date, keep: Date -> bool, all: seq<Date>)
    requires OnOrBefore(d, end) && d != MaxDate && !keep(d)
    requires Flatten(batches) + tasks + DaysIn(d, end, keep) == all
    ensures Flatten(batches) + tasks + DaysIn(NextDay(d), end, keep) == all
  {
    DaysInStep(d, end, keep);
  }

  lemma Regroup(walked: seq<Date>, queue: seq<Date>, d: Date, ahead: seq<Date>)
    ensures walked + queue + ([d] + ahead) == walked + (queue + [d]) + ahead
  {
  }

  /** Queueing a day the filter keeps moves it from the days ahead to the queue. */
  lemma QueueDay(batches: seq<seq<Date>>, tasks: seq<Date>, d: Date, end: Date, keep: Date -> bool, all: seq<Date>)
    requires OnOrBefore(d, end) && d != MaxDate && keep(d)
    requires Flatten(batches) + tasks + DaysIn(d, end, keep) == all
    ensures Flatten(batches) + (tasks + [d]) + DaysIn(NextDay(d), end, keep) == all
  {
    DaysInStep(d, end, keep);
    var ahead := DaysIn(NextDay(d), end, keep);
    Regroup(Flatten(batches), tasks, d, ahead);
  }

  /** Once the walk is past the end, no day is ahead. */
  lemma WalkDone(batches: seq<seq<Date>>, tasks: seq<Date>, d: Date, end: Date, all: seq<Date>)
    requires Before(end, d) && Flatten(batches) + tasks + BusinessDaysIn(d, end) == all
    ensures Flatten(batches) + tasks == all
  {
    assert Flatten(batches) + tasks + [] == Flatten(batches) + tasks;
  }

  /** Flushing a queued pair moves it from the queue to the batches. */
  lemma FlushStep(batches: seq<seq<Date>>, tasks: seq<Date>, rest: seq<Date>, all: seq<Date>)
    requires Flatten(batches) + tasks + rest == all && AllPairs(batches) && |tasks| == 2
    ensures Flatten(batches + [tasks]) + [] + rest == all
    ensures |Flatten(batches + [tasks]) + []| == |Flatten(batches) + tasks|
    ensures AllPairs(batches + [tasks])
  {
    FlattenSnoc(batches, tasks);
    assert Flatten(batches + [tasks]) + [] == Flatten(batches) + tasks;
  }

  lemma PausesSnoc(k: nat)
    ensures Pauses(k + 1) == Pauses(k) + [BatchPause]
  {
  }

  /** The state after the walk and the final flush matches the batches of all the business days. */
  lemma FinishStep(batches: seq<seq<Date>>, tasks: seq<Date>, all: seq<Date>)
    requires Flatten(batches) + tasks == all && AllPairs(batches) && |tasks| <= 1
    ensures Batches(all) == batches + (if tasks == [] then [] else [tasks])
    ensures |all| / 2 == |batches|
  {
    BatchesOfPairs(batches, tasks);
    FlattenPairs(batches);
  }

  /**
   The flush inside the walk: `gather` the two queued tasks, send the
   successful results in date order, and pause.
   */
  method FlushFullBatch(batches: seq<seq<Date>>, tasks: seq<Date>, delivered: seq<ProcessingResult>, pauses: seq<int>,
                        task: Date -> Option<ProcessingResult>, swapped: seq<Date> -> bool,
                        ghost rest: seq<Date>, ghost all: seq<Date>)
    returns (batches': seq<seq<Date>>, delivered': seq<ProcessingResult>, pauses': seq<int>)
    requires Flatten(batches) + tasks + rest == all && AllPairs(batches) && |tasks| == 2
    requires delivered == Deliveries(batches, task, swapped) && pauses == Pauses(|batches|)
    ensures batches' == batches + [tasks]
    ensures Flatten(batches') + [] + rest == all && AllPairs(batches')
    ensures |Flatten(batches') + []| == |Flatten(batches) + tasks|
    ensures delivered' == Deliveries(batches', task, swapped)
    ensures pauses' == Pauses(|batches'|)
  {
    var results := SortByDate(Successes(Arrange(tasks, swapped(tasks)), task));
    FlushStep(batches, tasks, rest, all);
    DeliveriesSnoc(batches, tasks, task, swapped);
    PausesSnoc(|batches|);
    delivered' := delivered + results;
    batches' := batches + [tasks];
    pauses' := pauses + [BatchPause];
  }

  /**
   The `while current_date <= end_date` walk over `[start, end]` and the
   final flush of a left-over single task.
   */
  method WalkDays(start: Date, end: Date, task: Date -> Option<ProcessingResult>, swapped: seq<Date> -> bool)
    returns (batches: seq<seq<Date>>, daysProcessed: nat, delivered: seq<ProcessingResult>, pauses: seq<int>)
    requires end != MaxDate
    ensures batches == Batches(BusinessDaysIn(start, end))
    ensures daysProcessed == |BusinessDaysIn(start, end)|
    ensures delivered == Deliveries(batches, task, swapped)
    ensures pauses == Pauses(|BusinessDaysIn(start, end)| / 2)
  {
    BeforeMaxDate(end);
    ghost var all := BusinessDaysIn(start, end);
    var current := start;
    var tasks: seq<Date> := [];
    daysProcessed, batches, delivered, pauses := 0, [], [], [];
    while OnOrBefore(current, end)
      invariant Flatten(batches) + tasks + BusinessDaysIn(current, end) == all
      invariant |tasks| <= 1 && AllPairs(batches)
      invariant daysProcessed == |Flatten(batches) + tasks|
      invariant delivered == Deliveries(batches, task, swapped)
      invariant pauses == Pauses(|batches|)
      decreases Ordinal(end) - Ordinal(current)
    {
      if !IsBusinessDay(current) {
        SkipDay(batches, tasks, current, end, IsBusinessDay, all);
      } else {
        QueueDay(batches, tasks, current, end, IsBusinessDay, all);
        tasks := tasks + [current];
        daysProcessed := daysProcessed + 1;
        if |tasks| >= 2 {
          batches, delivered, pauses :=
            FlushFullBatch(batches, tasks, delivered, pauses, task, swapped, BusinessDaysIn(NextDay(current), end), all);
          tasks := [];
        }
      }
      current := NextDay(current);
    }
    WalkDone(batches, tasks, current, end, all);
    FinishStep(batches, tasks, all);
    if tasks != [] {
      DeliveriesSnoc(batches, tasks, task, swapped);
      delivered := delivered + SortByDate(Successes(Arrange(tasks, swapped(tasks)), task));
      batches := batches + [tasks];
    }
  }

  method ProcessHistoricalDous(disk: Disk, endDate: Date, today: Date,
                               outcome: Date -> Option<TaskOutput>, swapped: seq<Date> -> bool)
    returns (run: BackfillRun)
    requires today != MaxDate
    ensures run == HistoricalRun(disk.files, endDate, today, outcome, swapped)
  {
    var lastProcessed := LoadLastProcessedDate(disk.files);
    var current: Date;
    if lastProcessed.Some? && OnOrBefore(HistoryStart, lastProcessed.value) {
      if lastProcessed.value == MaxDate {
        return Overflowed;
      }
      current := NextDay(lastProcessed.value);
    } else {
      current := HistoryStart;
    }
    var end := endDate;
    if Before(today, endDate) {
      end := LastBusinessDayOnOrBefore(today);
    }
    assert end == ClampEnd(endDate, today);
    BeforeMaxDate(today);
    var batches, daysProcessed, delivered, pauses := WalkDays(current, end, TaskResults(outcome), swapped);
    run := Finished(current, end, batches, daysProcessed, delivered, pauses);
  }

  /** The backfill fails with `OverflowError` exactly when the saved date is 9999-12-31. */
  lemma HistoricalOverflow(files: map<string, FileData>, endDate: Date, today: Date,
                           outcome: Date -> Option<TaskOutput>, swapped: seq<Date> -> bool)
    ensures HistoricalRun(files, endDate, today, outcome, swapped).Overflowed?
            <==> LoadLastProcessedDate(files) == Some(MaxDate)
  {
  }

  /**
   The walk starts the day after a saved date that is on or after the start
   of the history, and at the start otherwise; it ends at the clamped end date.
   */
  lemma HistoricalRange(files: map<string, FileData>, endDate: Date, today: Date,
                        outcome: Date -> Option<TaskOutput>, swapped: seq<Date> -> bool)
    ensures var run := HistoricalRun(files, endDate, today, outcome, swapped);
      run.Finished? ==>
        && OnOrBefore(HistoryStart, run.start)
        && run.end == ClampEnd(endDate, today)
        && (match LoadLastProcessedDate(files)
            case Some(m) => if OnOrBefore(HistoryStart, m) then Ordinal(run.start) == Ordinal(m) + 1
                            else run.start == HistoryStart
            case None => run.start == HistoryStart)
  {
  }

  /**
   The dates dispatched are exactly the business days of the walked range,
   in calendar order, and `days_processed` counts them.
   */
  lemma DispatchedDays(files: map<string, FileData>, endDate: Date, today: Date,
                       outcome: Date -> Option<TaskOutput>, swapped: seq<Date> -> bool, d: Date)
    ensures var run := HistoricalRun(files, endDate, today, outcome, swapped);
      run.Finished? ==>
        && (d in Flatten(run.batches) <==> OnOrBefore(run.start, d) && OnOrBefore(d, run.end) && IsBusinessDay(d))
        && StrictlyAscending(Flatten(run.batches))
        && run.daysProcessed == |Flatten(run.batches)|
  {
    var run := HistoricalRun(files, endDate, today, outcome, swapped);
    if run.Finished? {
      var ds := BusinessDaysIn(run.start, run.end);
      FlattenBatches(ds);
      BusinessDaysInMembers(run.start, run.end, d);
      BusinessDaysInAscending(run.start, run.end);
    }
  }

  /**
   Every batch holds two dates except possibly the last, which holds one;
   there is a 10-second pause after each batch of two and none after a
   final single date.
   */
  lemma BatchesAndPauses(files: map<string, FileData>, endDate: Date, today: Date,
                         outcome: Date -> Option<TaskOutput>, swapped: seq<Date> -> bool)
    ensures var run := HistoricalRun(files, endDate, today, outcome, swapped);
      run.Finished? ==>
        && (forall i :: 0 <= i < |run.batches| - 1 ==> |run.batches[i]| == 2)
        && (run.batches != [] ==> 1 <= |run.batches[|run.batches| - 1]| <= 2)
        && (run.daysProcessed == 0 <==> run.batches == [])
        && (forall i :: 0 <= i < |run.pauses| ==> run.pauses[i] == BatchPause)
        && |run.pauses| == |run.batches| - run.daysProcessed % 2
  {
    var run := HistoricalRun(files, endDate, today, outcome, swapped);
    if run.Finished? {
      var ds := BusinessDaysIn(run.start, run.end);
      BatchShape(ds);
      BatchCount(ds);
    }
  }

  /**
   The results sent are those of the dispatched dates whose task did not
   raise, one per such date, in strictly increasing date order.
   */
  lemma DeliveredResults(files: map<string, FileData>, endDate: Date, today: Date,
                         outcome: Date -> Option<TaskOutput>, swapped: seq<Date> -> bool, r: ProcessingResult)
    ensures var run := HistoricalRun(files, endDate, today, outcome, swapped);
      run.Finished? ==>
        && run.delivered == Successes(Flatten(run.batches), TaskResults(outcome))
        && (forall i, j :: 0 <= i < j < |run.delivered| ==> DateKey(run.delivered[i]) < DateKey(run.delivered[j]))
        && (r in run.delivered <==>
              exists d :: d in Flatten(run.batches) && outcome(d).Some? && r == ResultFor(d, outcome(d).value))
  {
    var run := HistoricalRun(files, endDate, today, outcome, swapped);
    if run.Finished? {
      var ds := BusinessDaysIn(run.start, run.end);
      var task := TaskResults(outcome);
      FlattenBatches(ds);
      BusinessDaysInAscending(run.start, run.end);
      TaskResultsRanked(outcome);
      DeliveredInDateOrder(ds, task, swapped);
      SuccessesInDateOrder(ds, task);
      SuccessesMembers(ds, task, r);
      assert forall d :: task(d) == Some(r) <==> outcome(d).Some? && r == ResultFor(d, outcome(d).value);
    }
  }

  /** The order in which `gather` returns each batch changes nothing the backfill does. */
  lemma GatherOrderIrrelevant(files: map<string, FileData>, endDate: Date, today: Date,
                              outcome: Date -> Option<TaskOutput>, swapped: seq<Date> -> bool,
                              swapped': seq<Date> -> bool)
    ensures HistoricalRun(files, endDate, today, outcome, swapped)
            == HistoricalRun(files, endDate, today, outcome, swapped')
  {
    var run := HistoricalRun(files, endDate, today, outcome, swapped);
    if run.Finished? {
      var ds := BusinessDaysIn(run.start, run.end);
      var task := TaskResults(outcome);
      BusinessDaysInAscending(run.start, run.end);
      TaskResultsRanked(outcome);
      DeliveredInDateOrder(ds, task, swapped);
      DeliveredInDateOrder(ds, task, swapped');
    }
  }

  /**
   After a date on or after the start of the history has been saved, the
   next backfill starts the day after it and dispatches no date up to it.
   */
  lemma ResumeAfterSave(files: map<string, FileData>, saved: Date, endDate: Date, today: Date,
                        outcome: Date -> Option<TaskOutput>, swapped: seq<Date> -> bool, d: Date)
    requires OnOrBefore(HistoryStart, saved) && saved != MaxDate
    ensures var run := HistoricalRun(files[LastDateFile := TextFile(FormatDate(saved))], endDate, today, outcome, swapped);
      && run.Finished?
      && run.start == NextDay(saved)
      && (d in Flatten(run.batches) ==> Before(saved, d))
  {
    var files' := files[LastDateFile := TextFile(FormatDate(saved))];
    SaveThenLoad(files, saved);
    DispatchedDays(files', endDate, today, outcome, swapped, d);
  }

  /** Thursday 1 May 2025 is a listed holiday. */
  lemma LabourDay2025()
    ensures !IsBusinessDay(CivilDate(2025, 5, 1))
  {
    assert FormatDate(CivilDate(2025, 5, 1)) == "01-05-2025";
  }

  /** Wednesday 30 April 2025 is a business day. */
  lemma April30th2025()
    ensures IsBusinessDay(CivilDate(2025, 4, 30))
  {
    assert DaysBeforeYear(2025) == 739251;
    assert DaysBeforeMonth(2025, 4) == 90;
    assert Weekday(CivilDate(2025, 4, 30)) == 2;
    assert FormatDate(CivilDate(2025, 4, 30)) == "30-04-2025";
  }

  /**
   A concrete clamp: with today Thursday 1 May 2025, a listed holiday, and
   an end date at the end of May, the walk ends on Wednesday 30 April 2025.
   */
  lemma LabourDayClamp()
    ensures ClampEnd(CivilDate(2025, 5, 31), CivilDate(2025, 5, 1)) == CivilDate(2025, 4, 30)
  {
    LabourDay2025();
    April30th2025();
    assert PrevDay(CivilDate(2025, 5, 1)) == CivilDate(2025, 4, 30);
  }
}
