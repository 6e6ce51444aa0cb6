# DOU daily scraper: a verified model of its control logic

`dou_daily_scraper.py` watches section 3 of Brazil's *Diário Oficial da
União* (DOU). For each business day it finds the day's PDF edition in the
search results and downloads it. It then collects the lines that mention a
given name together with the word "Convocação", sends them to Telegram, and
records that day as processed. The script also back-fills the days from
1 November 2024 up to an end date, two at a time, and then runs a daily
06:00 schedule.

This project models in Dafny the deterministic logic that surrounds the
network, PDF and Telegram plumbing, and proves what the script promises of
it. The network, the PDF library, the clock and the concurrency of
`asyncio.gather` become parameters or oracles:

- **Calendar** (`calendar.dfy`): `datetime.date` as a (year, month, day)
  subset type, with Python's `toordinal`, `weekday` and one-day steps. Date
  order is proved to be Python's lexicographic order.
- **DateText** (`datetext.dfy`): `strftime("%d-%m-%Y")` and the matching
  `strptime`, with the round trip between them.
- **BusinessDays** (`businessdays.dfy`): the weekend and `HOLIDAYS` test,
  and the business days of a range.
- **Text** (`text.dfy`): `lower`, `strip`, `in` and `splitlines`.
- **Storage** (`storage.dfy`): the file system as a mutable map from paths
  to file contents, and the progress-marker file.
- **Locator** (`locator.dfy`): picking the download link out of result rows
  that are already parsed, and the non-greedy `redirecionaSelect('…');`
  match.
- **Fetcher** (`fetcher.dfy`): what `download_dou` writes, removes and
  returns.
- **Extractor** (`extractor.dfy`): `search_entries` as nested loops over
  pages and lines, proved against a filter over numbered lines.
- **Pipeline** (`pipeline.dfy`): `process_dou_date`. This means the
  future-date skip, the bounded retries with the 20/40/60-second backoff,
  the marker write on both outcomes, and the `finally` clean-up.
- **Batching** (`batching.dfy`): batches of two, dropping results that
  raised, the stable sort by parsed date, and the delivery log.
- **Backfill** (`backfill.dfy`): `process_historical_dous`. It covers the
  resume point, the end-date clamp (a backward loop), and the day walk (a
  `while` loop that keeps the queue, the counter and the log). Lemmas about
  the whole run sit beside it.
- **Notify** (`notify.dfy`): cutting a long Telegram message into
  4096-character parts.
- **Daily** (`daily.dfy`): one iteration of `process_daily_dou`.

Three results are worth naming:

- The backfill's delivery order does not depend on the order in which
  `gather` hands back a batch.
- The backfill's sends are exactly the successful results of the dispatched
  business days, in strictly increasing date order.
- On success, `process_dou_date` returns the path of a file that its own
  `finally` has already removed (`Pipeline.Cleanup`). So the later
  `os.path.exists(pdf_path)` in `send_to_telegram` never sees it.

## Model

| member | source | states |
|---|---|---|
| Calendar.Weekday | dou_daily_scraper.py:312 | the weekday lies in 0..6, Monday being 0 as in `weekday()` |
| Calendar.OrdinalOrderIsCalendarOrder | dou_daily_scraper.py:302 | comparing day numbers is Python's date comparison: by year, then month, then day |
| Calendar.OrdinalInjective | dou_daily_scraper.py:322 | distinct dates have distinct day numbers |
| Calendar.NextDay | dou_daily_scraper.py:339 | `+ timedelta(days=1)` gives the date whose day number is one more; it does not exist after 9999-12-31 |
| Calendar.PrevDay | dou_daily_scraper.py:313 | `- timedelta(days=1)` gives the date whose day number is one less |
| Calendar.BeforeMaxDate | dou_daily_scraper.py:339 | every date but 9999-12-31 precedes it, so the walk's step is defined |
| DateText.FormatDate | dou_daily_scraper.py:323 | `"%d-%m-%Y"` text is ten characters: digits with dashes at positions 2 and 5 |
| DateText.Decimal | dou_daily_scraper.py:65 | the value 0..9 of a character that `\d` matches and `int()` reads, the ASCII digits keeping their own value |
| DateText.DayField | dou_daily_scraper.py:65 | an accepted `%d` field is 1..31; only its `\d` position takes a non-ASCII digit |
| DateText.MonthField | dou_daily_scraper.py:65 | an accepted `%m` field is 1..12 |
| DateText.YearField | dou_daily_scraper.py:65 | an accepted `%Y` field of four decimal digits of any script is 0..9999 |
| DateText.ParseFormat | dou_daily_scraper.py:65 | parsing the formatted text of a date gives back that date |
| DateText.ParseFields | dou_daily_scraper.py:65 | a day field, a dash, a month field, a dash and a year field parse as the date the three fields give, or fail when it does not exist |
| DateText.ArabicIndicDigits | dou_daily_scraper.py:65 | U+0660, U+0662 and U+0665 read as 0, 2 and 5 |
| DateText.ArabicIndicYear | dou_daily_scraper.py:65 | `%Y` reads Arabic-Indic 2025 as the year 2025 |
| DateText.ArabicIndicDay | dou_daily_scraper.py:65 | `%d` reads '1' and Arabic-Indic 5 as 15 but rejects '3' and Arabic-Indic 0 |
| DateText.ArabicIndicMarker | dou_daily_scraper.py:59-65 | a marker "01-01-" plus Arabic-Indic 2025 loads as 1 January 2025 |
| DateText.FormatInjective | dou_daily_scraper.py:324 | two dates with the same text are the same date, so the holiday lookup by text is a lookup by date |
| BusinessDays.MinDateIsBusinessDay | dou_daily_scraper.py:312-313 | 0001-01-01 is a Monday and not a holiday, so the backward walk always stops |
| BusinessDays.DaysInMembers | dou_daily_scraper.py:322-339 | a date is listed iff it lies in the range and passes the filter |
| BusinessDays.DaysInAscending | dou_daily_scraper.py:322-339 | the listed dates are in strictly increasing order |
| BusinessDays.BusinessDaysInMembers | dou_daily_scraper.py:322-328 | a date is dispatched iff it is in the range, not a Saturday or Sunday, and not in `HOLIDAYS` |
| BusinessDays.BusinessDaysInAscending | dou_daily_scraper.py:322-339 | the business days of a range are in strictly increasing order |
| Text.LowerSpec | dou_daily_scraper.py:208 | `lower()` keeps the length, turns each ASCII or Latin-1 capital into its small letter, keeps every other character, and leaves no capital |
| Text.LowerIdempotent | dou_daily_scraper.py:200-208 | lowering an already lowered text changes nothing |
| Text.StripLeading | dou_daily_scraper.py:212 | removes exactly the leading whitespace, Python's `isspace` set |
| Text.StripTrailing | dou_daily_scraper.py:212 | removes exactly the trailing whitespace |
| Text.StripKeepsTrimmed | dou_daily_scraper.py:64 | `strip()` leaves a string without edge whitespace unchanged |
| Text.ContainsMeansOccurs | dou_daily_scraper.py:209 | `sub in s` holds iff `sub` occurs at some index of `s` |
| Text.FirstBoundary | dou_daily_scraper.py:207 | finds the first line-boundary character at or after a position |
| Text.SplitLines | dou_daily_scraper.py:207 | no line that `splitlines()` returns holds a boundary character |
| Storage.Disk.constructor | dou_daily_scraper.py:62 | a disk starts with the given files |
| Storage.Disk.Write | dou_daily_scraper.py:171-172 | writing replaces one path's contents and changes nothing else |
| Storage.Disk.Remove | dou_daily_scraper.py:177 | `os.remove` drops one existing path and nothing else |
| Storage.SaveLastProcessedDate | dou_daily_scraper.py:50-57 | the marker file then holds `date_str` verbatim; no other file changes |
| Storage.SaveThenLoad | dou_daily_scraper.py:59-69 | loading after saving a date's text gives back that date |
| Locator.FirstDownloadLink | dou_daily_scraper.py:139-141 | the first link of the last cell titled "download da edição completa", or none iff no link is |
| Locator.CloseFrom | dou_daily_scraper.py:143 | the first `');` after a position with no newline between, as `.*?` finds it |
| Locator.FindCall | dou_daily_scraper.py:143 | the leftmost and then shortest `redirecionaSelect('…');` match, or none iff there is none |
| Locator.SearchCall | dou_daily_scraper.py:143 | `re.search` finds a capture iff some match exists |
| Locator.FirstCapture | dou_daily_scraper.py:131-144 | the index of the first qualifying row, every earlier row yielding nothing |
| Locator.SelectPdfUrl | dou_daily_scraper.py:126-152 | None iff no row qualifies; otherwise the first qualifying row's capture, joined to the base URL unless it starts with `http` |
| Fetcher.RemoveDashes | dou_daily_scraper.py:159 | `date_str.replace("-", "")` holds no dash and is no longer |
| Fetcher.PdfPathIsNotMarker | dou_daily_scraper.py:29-30 | the download path is never the marker file |
| Fetcher.DownloadDou | dou_daily_scraper.py:154-191 | a path is returned iff the URL is non-empty, the response is a PDF and it is valid; then the file holds it. An invalid PDF is written and removed again; otherwise nothing changes |
| Extractor.LineEntry | dou_daily_scraper.py:208-214 | a line yields at most one entry, and one iff its lowercase holds both the name and the keyword |
| Extractor.SearchEntries | dou_daily_scraper.py:193-219 | the nested page and line loops return the entries of the file on disk: none for a missing path, a missing file or an unreadable PDF |
| Extractor.ScanPages | dou_daily_scraper.py:203-214 | the page loop appends each page's entries in page order |
| Extractor.ScanLines | dou_daily_scraper.py:207-214 | the line loop appends each matching line's entry in line order |
| Extractor.ExtractEntriesSelectsLines | dou_daily_scraper.py:199-216 | the entries are exactly the matching (page, line) pairs in page-then-line order; each has the 1-based page, the stripped line and "Seção 3" |
| Extractor.ExtractEntriesShape | dou_daily_scraper.py:203 | entry pages lie in 1..number of pages and never decrease |
| Pipeline.FirstSuccess | dou_daily_scraper.py:277-284 | the first round in range whose download succeeds, or none iff no round does |
| Pipeline.Backoff | dou_daily_scraper.py:286 | after failed round k (1-based) the sleep is 20·k seconds |
| Pipeline.DownloadRound | dou_daily_scraper.py:278-280 | one round returns a path iff it located a URL and downloaded a valid PDF |
| Pipeline.RemoveDownload | dou_daily_scraper.py:290-296 | the `finally` removes the returned path, if any, and nothing else |
| Pipeline.ProcessDouDate | dou_daily_scraper.py:266-296 | the retry loop's result, rounds and sleeps are `Outcome`'s: rounds up to the first success, then the marker write. The files are `FinalFiles`: each round's writes, the marker, and the `finally` removal |
| Pipeline.FutureShortCircuit | dou_daily_scraper.py:273-275 | a date after today returns `([], date_str, None)` without locating, sleeping or touching a file |
| Pipeline.RetryBound | dou_daily_scraper.py:277-289 | at most `max_retries` rounds; the sleeps are 20, 40, 60, ... and one follows every failed round, including the last |
| Pipeline.FirstSuccessWins | dou_daily_scraper.py:277-284 | a path is returned iff some round succeeds; then the last round run is the first success and its entries are returned |
| Pipeline.OutcomeOnSuccess | dou_daily_scraper.py:281-284 | the first success after k failures gives its entries and path after k+1 rounds and k sleeps |
| Pipeline.OutcomeOnExhaustion | dou_daily_scraper.py:287-289 | no success returns `([], date_str, None)` after all rounds and sleeps, marker written |
| Pipeline.MarkerSaved | dou_daily_scraper.py:283 | on both terminal outcomes the marker holds `date_str`, so it then loads as the target date |
| Pipeline.Cleanup | dou_daily_scraper.py:290-296 | the download path survives iff it existed and no round wrote it; after a success it is gone |
| Pipeline.OtherFilesUntouched | dou_daily_scraper.py:266-296 | every file other than the download and the marker keeps its contents |
| Batching.FlattenBatches | dou_daily_scraper.py:327-332 | splitting into batches loses, adds and reorders no date |
| Batching.BatchShape | dou_daily_scraper.py:329-341 | every batch has two dates except the last, which has one or two; batches exist iff dates do |
| Batching.BatchCount | dou_daily_scraper.py:329-341 | n dates make (n+1)/2 batches |
| Batching.BatchesOfPairs | dou_daily_scraper.py:329-341 | full pairs plus at most one queued date re-split into the same batches |
| Batching.DateKeyOfResult | dou_daily_scraper.py:334 | the sort key of a task's result is its own date |
| Batching.TaskResultsRanked | dou_daily_scraper.py:334 | every result is keyed by the date of its task |
| Batching.SuccessesMembers | dou_daily_scraper.py:331 | a result is kept iff some date's task returned it without raising |
| Batching.SortByDateSorted | dou_daily_scraper.py:334 | the sorted results are in non-decreasing parsed-date order and are a permutation of the input |
| Batching.SortSortedIsIdentity | dou_daily_scraper.py:334 | the stable sort leaves an already sorted list unchanged |
| Batching.Arrange | dou_daily_scraper.py:330 | `gather`'s order for a batch is a permutation of it |
| Batching.SuccessesInDateOrder | dou_daily_scraper.py:331-334 | the kept results of ascending dates are in strictly increasing date order |
| Batching.BatchDelivery | dou_daily_scraper.py:330-336 | for one ascending batch, in either `gather` order, the sorted kept results are the kept results in date order |
| Batching.DeliveredInDateOrder | dou_daily_scraper.py:322-346 | all flushed batches of ascending dates deliver the kept results of all dates in date order, whatever `gather` does |
| Backfill.ResumePoint | dou_daily_scraper.py:300-306 | the day after a marker on or after 2024-11-01, else 2024-11-01; none iff the marker is 9999-12-31 |
| Backfill.LatestBusinessDay | dou_daily_scraper.py:312-313 | a business day on or before the given day |
| Backfill.LatestIsLatest | dou_daily_scraper.py:312-313 | no business day lies between it and the given day |
| Backfill.LastBusinessDayOnOrBefore | dou_daily_scraper.py:311-313 | the backward loop stops at the latest business day |
| Backfill.ClampEnd | dou_daily_scraper.py:309-313 | the end date is unchanged unless after today; then a business day on or before today |
| Backfill.ClampIsLatest | dou_daily_scraper.py:310-313 | after clamping, every day after the end up to today is a weekend day or a holiday |
| Backfill.Pauses | dou_daily_scraper.py:338 | k pauses of 10 seconds |
| Backfill.FlushFullBatch | dou_daily_scraper.py:329-338 | flushing the full queue appends it to the batches, its sorted kept results to the log, and 10 s to the pauses |
| Backfill.WalkDays | dou_daily_scraper.py:316-346 | the loop dispatches the batches of the business days of the range, counts them, logs the deliveries, and pauses once per batch of two |
| Backfill.ProcessHistoricalDous | dou_daily_scraper.py:298-346 | the whole backfill equals `HistoricalRun`: resume from the marker, clamp the end, walk the days. The properties of that run are the lemmas below |
| Backfill.HistoricalOverflow | dou_daily_scraper.py:302-303 | the backfill overflows iff the saved date is 9999-12-31 |
| Backfill.HistoricalRange | dou_daily_scraper.py:300-313 | the walk starts at the resume point and ends at the clamped end date |
| Backfill.DispatchedDays | dou_daily_scraper.py:322-328 | a date is dispatched iff it is a business day in the range; the dispatch is ascending; `days_processed` counts it |
| Backfill.BatchesAndPauses | dou_daily_scraper.py:329-341 | batches of two with a final single date; one 10 s pause per batch of two and none after a final single date |
| Backfill.DeliveredResults | dou_daily_scraper.py:330-346 | the sends are the kept results of the dispatched dates, in strictly increasing date order, each from one such date |
| Backfill.GatherOrderIrrelevant | dou_daily_scraper.py:329-346 | the run is the same whatever order `gather` returns each batch in |
| Backfill.ResumeAfterSave | dou_daily_scraper.py:300-303 | after a date on or after 2024-11-01 is saved, the next backfill starts the day after it and dispatches no date up to it |
| Backfill.LabourDay2025 | dou_daily_scraper.py:36 | 1 May 2025 is a listed holiday |
| Backfill.April30th2025 | dou_daily_scraper.py:312 | 30 April 2025 is a business day |
| Backfill.LabourDayClamp | dou_daily_scraper.py:310-313 | with today 1 May 2025 and end 31 May 2025, the clamped end is 30 April 2025 |
| Notify.ChunksFromConcat | dou_daily_scraper.py:238 | the slices join back into the message |
| Notify.ChunksFromSizes | dou_daily_scraper.py:238 | every slice has 1 to 4096 characters, all but the last exactly 4096 |
| Notify.ChunksFromCount | dou_daily_scraper.py:238 | the number of slices is the ceiling of length / 4096 |
| Notify.ChunkAt | dou_daily_scraper.py:238 | slice j is `message[i:i+max_len]` with `i = j·max_len` |
| Notify.MessagePartsSpec | dou_daily_scraper.py:224-251 | a message of at most 4096 characters is sent whole; a longer one in ceil(len/4096) parts that join back into it, each ≤ 4096 and all but the last exactly 4096 |
| Notify.MessagePartAt | dou_daily_scraper.py:238 | part j of a long message is its j-th 4096-character slice |
| Daily.DailyIteration | dou_daily_scraper.py:352-373 | one iteration processes iff today is a business day. It cools down for 300 s iff processing raised or the day is 9999-12-31; otherwise the next run is tomorrow at 06:00 and it sleeps only for a positive time |
| Daily.NextRunWindow | dou_daily_scraper.py:364 | the next run is more than 6 and at most 30 hours after the iteration's start |
| Daily.SameInstantSleeps | dou_daily_scraper.py:364-368 | when the two clock readings agree and nothing raises, the iteration always sleeps, for 6 to 30 hours |

## Specification functions

These definitions carry no contract of their own; the rows named here state
what they mean.

| definition | models | specified by |
|---|---|---|
| DateText.ParseDate | `strptime(s, "%d-%m-%Y")`, line 65 | DateText.ParseFormat, DateText.ParseFields, DateText.ArabicIndicMarker, and the field rows |
| Storage.LoadLastProcessedDate | `load_last_processed_date`, lines 59-69 | Storage.SaveThenLoad, Pipeline.MarkerSaved |
| BusinessDays.IsBusinessDay | the weekday and `HOLIDAYS` test, lines 312, 324 and 356 | BusinessDays.BusinessDaysInMembers, BusinessDays.MinDateIsBusinessDay, Backfill.LatestIsLatest, Daily.DailyIteration |
| Batching.Batches | the queue of two and the final flush, lines 327-341 | Batching.FlattenBatches, Batching.BatchShape, Batching.BatchCount, Batching.BatchesOfPairs |
| Batching.Successes | the `isinstance(r, Exception)` filter, line 331 | Batching.SuccessesMembers, Batching.SuccessesInDateOrder |
| Batching.SortByDate | `sorted(..., key=strptime(x[1]))`, line 334 | Batching.SortByDateSorted, Batching.SortSortedIsIdentity |
| Notify.ChunksFrom | the slicing comprehension, line 238 | Notify.ChunksFromConcat, Notify.ChunksFromSizes, Notify.ChunksFromCount, Notify.ChunkAt |
| Notify.MessageParts | the split-or-whole choice, lines 237-251 | Notify.MessagePartsSpec, Notify.MessagePartAt |
| Pipeline.RoundOf | one attempt of the retry loop, lines 278-284 | Pipeline.DownloadRound, Pipeline.FirstSuccess |
| Pipeline.Outcome | the result, rounds and sleeps of `process_dou_date`, lines 266-289 | Pipeline.ProcessDouDate, Pipeline.FutureShortCircuit, Pipeline.RetryBound, Pipeline.FirstSuccessWins, Pipeline.OutcomeOnSuccess, Pipeline.OutcomeOnExhaustion |
| Pipeline.FinalFiles | the files after `process_dou_date`, lines 266-296 | Pipeline.ProcessDouDate, Pipeline.MarkerSaved, Pipeline.Cleanup, Pipeline.OtherFilesUntouched |
| Backfill.HistoricalRun | the run of `process_historical_dous`, lines 298-346 | Backfill.ProcessHistoricalDous, Backfill.HistoricalOverflow, Backfill.HistoricalRange, Backfill.DispatchedDays, Backfill.BatchesAndPauses, Backfill.DeliveredResults, Backfill.GatherOrderIrrelevant, Backfill.ResumeAfterSave |
| Locator.IsSection3Row | the row and journal-name test, lines 131-138 | Locator.FirstCapture, Locator.SelectPdfUrl |
| Locator.IsDownloadLink | the `onclick` and title test, line 140 | Locator.FirstDownloadLink |
| Locator.RowCapture | link, `onclick` and regex of one row, lines 139-145 | Locator.FirstCapture, Locator.SelectPdfUrl |
| Locator.ResolveUrl | the `http` test and `urljoin`, lines 146-148 | Locator.SelectPdfUrl |
| Extractor.PageLines | the empty-page skip and `splitlines`, lines 204-207 | Extractor.ExtractEntriesSelectsLines, Text.SplitLines |
| Extractor.DocumentLines | the lines of every page, lines 203-207 | Extractor.ExtractEntriesSelectsLines, Extractor.ExtractEntriesShape |
| Extractor.ExtractEntries | the page and line loops over a readable PDF, lines 199-216 | Extractor.ExtractEntriesSelectsLines, Extractor.ExtractEntriesShape |
| Extractor.EntriesOnDisk | `search_entries` on the files, lines 193-219 | Extractor.SearchEntries |
| Fetcher.IsPdfResponse | the `application/pdf` test, lines 163-164 | Fetcher.DownloadDou |
| Fetcher.PdfPath | `PDF_PATH.format(...)`, line 159 | Fetcher.PdfPathIsNotMarker, Fetcher.DownloadDou |
| Text.Strip | `str.strip()`, lines 64 and 212 | Text.StripLeading, Text.StripTrailing, Text.StripKeepsTrimmed |
| Text.Lower | `str.lower()`, lines 137, 164, 200-201 and 208 | Text.LowerSpec, Text.LowerIdempotent |
| Text.Contains | `sub in s`, lines 138, 209 and 164 | Text.ContainsMeansOccurs |

## Left out

- Network access through `aiohttp` is left out: the requests, headers, timeouts and HTTP error handling (dou_daily_scraper.py:103-122, 160-191). Each round's located URL and HTTP response are oracles indexed by the attempt.
- BeautifulSoup is left out. The result table is given as parsed rows of cells and links.
- Text extraction by pdfplumber and the PyPDF2 validity check are left out. A document is a validity flag plus optional per-page text; an unreadable document has no pages.
- Telegram is left out: building the message text, the sends, the one-second pause after each part that sent, the PDF attachment and its 20 MB check. Only the cutting of the message into parts is modelled.
- `asyncio.gather` concurrency is left out, and so are the unsynchronised marker writes of the two tasks of a batch. A batch's tasks are independent oracles; `gather` may return a batch of two in either order, although Python keeps the order given.
- Logging, real sleeps and `datetime.now()` are left out. Sleeps are recorded as seconds (microseconds in the daily loop), and clock readings are parameters.
- The `while True` loop of `process_daily_dou` is left out, with `main` and the `__main__` restart block. One iteration is modelled.
- DateText.Decimal: the decimal digits are those of Unicode 15.0, the database of Python 3.12; another Python version's database may list more.
- Text.Lower lowers only ASCII and Latin-1 capitals, and Text.StripLeading and Text.StripTrailing use Python's `isspace` set. Full Unicode case mapping is not modelled.
- Text.SplitLines: the contract states only that no line holds a boundary character. It does not state that the lines and their boundaries join back into the text.
- Fetcher.RemoveDashes: the contract states only that no dash remains and that the text does not grow.
- Locator.SelectPdfUrl: `urljoin` is a function parameter. `.replace('&', '&')` at dou_daily_scraper.py:146 is an identity, so the model has no step for it.
- Backfill.ProcessHistoricalDous requires today to be before 9999-12-31. The walk's last `+= timedelta(days=1)` would raise `OverflowError` there, and the model does not include that exception.
- Backfill.ProcessHistoricalDous reads the clock once. The source reads it twice during the clamp (dou_daily_scraper.py:309, 311), and the model assumes both readings fall on the same day.
- Backfill.WalkDays: the model walks the days as dates. It does not model the clamped `end_date` carrying today's time of day, which does not change which days `current_date <= end_date` admits.
- Daily.DailyIteration: the sleep is exact in microseconds; the float rounding of `total_seconds()` is not modelled. An exception raised by `send_to_telegram` is folded into the one `raised` flag.
- Storage: failed writes and removals, whose exceptions the source logs and swallows, are left out.
