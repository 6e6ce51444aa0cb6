/**
 `process_dou_date`: the per-date state machine. A date after today is
 skipped outright; otherwise up to `max_retries` rounds try to locate and
 download the edition, the first good download is searched, the progress
 marker is written on both terminal outcomes, and a `finally` removes the
 downloaded file.

 The network is replaced by two oracles indexed by the 0-based attempt:
 `locate(k)` is what `get_dou_section3_pdf_url` returns in round k, and
 `fetch(k)` is what the GET of that URL gives.
 */
module Pipeline {
  import opened Wrappers
  import opened Calendar
  import opened DateText
  import opened Storage
  import opened Fetcher
  import opened Extractor

  /** The `(entries, date_str, pdf_path)` triple. */
  datatype ProcessingResult = ProcessingResult(entries: seq<Entry>, dateStr: string, pdfPath: Option<string>)

  /** A run of the pipeline: its result, how many rounds called the locator, and the recorded sleeps, in seconds. */
  datatype Run = Run(result: ProcessingResult, rounds: nat, delays: seq<int>)

  /** What one round did on disk and whether it succeeded. */
  datatype Round = NoUrl | NotPdf | Rejected | Downloaded(doc: Document)

  /** `if pdf_url:` — None and "" are falsy. */
  predicate Truthy(url: Option<string>) {
    url.Some? && url.value != ""
  }

  function RoundOf(url: Option<string>, response: Response): Round {
    if !Truthy(url) then NoUrl
    else if !IsPdfResponse(response) then NotPdf
    else if !response.doc.validPdf then Rejected
    else Downloaded(response.doc)
  }

  function RoundAt(locate: nat -> Option<string>, fetch: nat -> Response, k: nat): Round {
    RoundOf(locate(k), fetch(k))
  }

  /** A round that writes the PDF file: it is then either removed as invalid or kept as the download. */
  predicate RoundWrites(r: Round) {
    r.Rejected? || r.Downloaded?
  }

  /** The first round in `[k, n)` whose download succeeds. */
  function FirstSuccess(locate: nat -> Option<string>, fetch: nat -> Response, k: nat, n: int): (r: Option<nat>)
    ensures r.Some? ==> k <= r.value < n && RoundAt(locate, fetch, r.value).Downloaded?
                        && forall i :: k <= i < r.value ==> !RoundAt(locate, fetch, i).Downloaded?
    ensures r.None? ==> forall i :: k <= i < n ==> !RoundAt(locate, fetch, i).Downloaded?
    decreases n - k
  {
    if n <= k then None
    else if RoundAt(locate, fetch, k).Downloaded? then Some(k)
    else FirstSuccess(locate, fetch, k + 1, n)
  }

  /** The sleeps after `k` failed rounds: 20 s, 40 s, 60 s, ... */
  function Backoff(k: nat): (ds: seq<int>)
    ensures |ds| == k
    ensures forall i :: 0 <= i < k ==> ds[i] == 20 * (i + 1)
  {
    if k == 0 then [] else Backoff(k - 1) + [20 * k]
  }

  /** `search_entries(pdf_path, YOUR_NAME)` on the document just written. */
  function DocEntries(doc: Document, name: string): seq<Entry> {
    match doc.pages
    case None => []
    case Some(pages) => ExtractEntries(pages, name, DefaultKeyword)
  }

  /** The files after the first `k` rounds: every round that writes the PDF leaves it removed. */
  function FilesAfter(files: map<string, FileData>, locate: nat -> Option<string>, fetch: nat -> Response,
                      dateStr: string, k: nat): map<string, FileData>
  {
    if k == 0 then files
    else
      var before := FilesAfter(files, locate, fetch, dateStr, k - 1);
      if RoundWrites(RoundAt(locate, fetch, k - 1)) then before - {PdfPath(dateStr)} else before
  }

  function NonNegative(n: int): nat {
    if n < 0 then 0 else n
  }

  /** What `process_dou_date(target_date, max_retries)` returns, and what it calls and sleeps. */
  function Outcome(target: Date, today: Date, maxRetries: int, name: string,
                   locate: nat -> Option<string>, fetch: nat -> Response): Run
  {
    var ds := FormatDate(target);
    if Before(today, target) then Run(ProcessingResult([], ds, None), 0, [])
    else
      match FirstSuccess(locate, fetch, 0, maxRetries)
      case Some(k) =>
        Run(ProcessingResult(DocEntries(RoundAt(locate, fetch, k).doc, name), ds, Some(PdfPath(ds))), k + 1, Backoff(k))
      case None =>
        Run(ProcessingResult([], ds, None), NonNegative(maxRetries), Backoff(NonNegative(maxRetries)))
  }

  /** The files after `process_dou_date` returns. */
  function FinalFiles(files: map<string, FileData>, target: Date, today: Date, maxRetries: int, name: string,
                      locate: nat -> Option<string>, fetch: nat -> Response): map<string, FileData>
  {
    var ds := FormatDate(target);
    if Before(today, target) then files
    else
      var o := Outcome(target, today, maxRetries, name, locate, fetch);
      FilesAfter(files, locate, fetch, ds, o.rounds)[LastDateFile := TextFile(ds)]
  }

  /** Writing `p`, then the marker, then removing `p`, is removing `p` and writing the marker. */
  lemma DropAfterWrite(files: map<string, FileData>, p: string, pdf: FileData, marker: FileData)
    requires p != LastDateFile
    ensures files[p := pdf][LastDateFile := marker] - {p} == (files - {p})[LastDateFile := marker]
  {
  }

  /** No round before `k` downloads a valid PDF. */
  predicate NoSuccessBefore(locate: nat -> Option<string>, fetch: nat -> Response, k: nat) {
    k == 0 || (NoSuccessBefore(locate, fetch, k - 1) && !RoundAt(locate, fetch, k - 1).Downloaded?)
  }

  lemma {:induction false} NoSuccessMeans(locate: nat -> Option<string>, fetch: nat -> Response, k: nat)
    ensures NoSuccessBefore(locate, fetch, k) <==> forall i :: 0 <= i < k ==> !RoundAt(locate, fetch, i).Downloaded?
  {
    if k > 0 {
      NoSuccessMeans(locate, fetch, k - 1);
    }
  }

  lemma FirstSuccessAt(locate: nat -> Option<string>, fetch: nat -> Response, k: nat, n: int)
    requires k < n && RoundAt(locate, fetch, k).Downloaded?
    requires forall i :: 0 <= i < k ==> !RoundAt(locate, fetch, i).Downloaded?
    ensures FirstSuccess(locate, fetch, 0, n) == Some(k)
  {
  }

  /** One round up to the download: `if pdf_url: pdf_path = download_dou(...)`. */
  method DownloadRound(disk: Disk, url: Option<string>, response: Response, dateStr: string)
    returns (pdfPath: Option<string>)
    modifies disk
    ensures pdfPath.Some? <==> RoundOf(url, response).Downloaded?
    ensures pdfPath.Some? ==> && pdfPath.value == PdfPath(dateStr)
                              && disk.files == old(disk.files)[PdfPath(dateStr) := PdfFile(response.doc)]
    ensures pdfPath.None? ==> disk.files == if RoundWrites(RoundOf(url, response)) then old(disk.files) - {PdfPath(dateStr)}
                                            else old(disk.files)
  {
    pdfPath := None;
    if url.Some? && url.value != "" {
      pdfPath := DownloadDou(disk, url.value, dateStr, response);
    }
  }

  lemma OutcomeOnSuccess(files: map<string, FileData>, target: Date, today: Date, maxRetries: int, name: string,
                         locate: nat -> Option<string>, fetch: nat -> Response, k: nat)
    requires !Before(today, target)
    requires FirstSuccess(locate, fetch, 0, maxRetries) == Some(k)
    ensures var ds := FormatDate(target);
      Outcome(target, today, maxRetries, name, locate, fetch)
      == Run(ProcessingResult(DocEntries(RoundAt(locate, fetch, k).doc, name), ds, Some(PdfPath(ds))), k + 1, Backoff(k))
    ensures var ds := FormatDate(target);
      FinalFiles(files, target, today, maxRetries, name, locate, fetch)
      == (FilesAfter(files, locate, fetch, ds, k) - {PdfPath(ds)})[LastDateFile := TextFile(ds)]
  {
  }

  lemma OutcomeOnExhaustion(files: map<string, FileData>, target: Date, today: Date, maxRetries: int, name: string,
                            locate: nat -> Option<string>, fetch: nat -> Response)
    requires !Before(today, target)
    requires FirstSuccess(locate, fetch, 0, maxRetries).None?
    ensures var ds := FormatDate(target);
      Outcome(target, today, maxRetries, name, locate, fetch)
      == Run(ProcessingResult([], ds, None), NonNegative(maxRetries), Backoff(NonNegative(maxRetries)))
    ensures var ds := FormatDate(target);
      FinalFiles(files, target, today, maxRetries, name, locate, fetch)
      == FilesAfter(files, locate, fetch, ds, NonNegative(maxRetries))[LastDateFile := TextFile(ds)]
  {
  }

  /** The `finally` block: remove the downloaded file when there is one. */
  method RemoveDownload(disk: Disk, pdfPath: Option<string>)
    modifies disk
    ensures pdfPath.Some? && pdfPath.value != "" ==> disk.files == old(disk.files) - {pdfPath.value}
    ensures pdfPath.None? || pdfPath.value == "" ==> disk.files == old(disk.files)
  {
    if pdfPath.Some? && pdfPath.value != "" && pdfPath.value in disk.files {
      disk.Remove(pdfPath.value);
    }
  }

  method ProcessDouDate(disk: Disk, target: Date, today: Date, maxRetries: int, name: string,
                        locate: nat -> Option<string>, fetch: nat -> Response)
    returns (r: ProcessingResult, rounds: nat, delays: seq<int>)
    modifies disk
    ensures Run(r, rounds, delays) == Outcome(target, today, maxRetries, name, locate, fetch)
    ensures disk.files == FinalFiles(old(disk.files), target, today, maxRetries, name, locate, fetch)
  {
    var ds := FormatDate(target);
    var pdfPath: Option<string> := None;
    if Before(today, target) {
      return ProcessingResult([], ds, None), 0, [];
    }
    ghost var p := PdfPath(ds);
    PdfPathIsNotMarker(ds);
    delays := [];
    var attempt: nat := 0;
    while attempt < maxRetries
      invariant attempt <= NonNegative(maxRetries)
      invariant NoSuccessBefore(locate, fetch, attempt)
      invariant delays == Backoff(attempt)
      invariant pdfPath.None?
      invariant disk.files == FilesAfter(old(disk.files), locate, fetch, ds, attempt)
    {
      var url := locate(attempt);
      pdfPath := DownloadRound(disk, url, fetch(attempt), ds);
      if pdfPath.Some? {
        ghost var doc := fetch(attempt).doc;
        ghost var before := FilesAfter(old(disk.files), locate, fetch, ds, attempt);
        assert RoundAt(locate, fetch, attempt) == Downloaded(doc);
        var entries := SearchEntries(disk, pdfPath, name, DefaultKeyword);
        assert entries == DocEntries(doc, name);
        SaveLastProcessedDate(disk, ds);
        r, rounds := ProcessingResult(entries, ds, pdfPath), attempt + 1;
        RemoveDownload(disk, pdfPath);
        DropAfterWrite(before, p, PdfFile(doc), TextFile(ds));
        NoSuccessMeans(locate, fetch, attempt);
        FirstSuccessAt(locate, fetch, attempt, maxRetries);
        OutcomeOnSuccess(old(disk.files), target, today, maxRetries, name, locate, fetch, attempt);
        return;
      }
      delays := delays + [20 * (attempt + 1)];
      attempt := attempt + 1;
    }
    NoSuccessMeans(locate, fetch, attempt);
    OutcomeOnExhaustion(old(disk.files), target, today, maxRetries, name, locate, fetch);
    SaveLastProcessedDate(disk, ds);
    r, rounds := ProcessingResult([], ds, None), attempt;
    RemoveDownload(disk, pdfPath);
  }

  /** A date after today returns `([], date_str, None)` at once: no round, no sleep, no file touched. */
  lemma FutureShortCircuit(files: map<string, FileData>, target: Date, today: Date, maxRetries: int, name: string,
                           locate: nat -> Option<string>, fetch: nat -> Response)
    requires Before(today, target)
    ensures Outcome(target, today, maxRetries, name, locate, fetch)
            == Run(ProcessingResult([], FormatDate(target), None), 0, [])
    ensures FinalFiles(files, target, today, maxRetries, name, locate, fetch) == files
  {
  }

  /**
   At most `max_retries` rounds run; after failed round k (1-based) the
   sleep is 20*k seconds, including after the last one; a successful round
   does not sleep.
   */
  lemma RetryBound(target: Date, today: Date, maxRetries: int, name: string,
                   locate: nat -> Option<string>, fetch: nat -> Response)
    ensures var o := Outcome(target, today, maxRetries, name, locate, fetch);
      && o.rounds <= NonNegative(maxRetries)
      && (forall i :: 0 <= i < |o.delays| ==> o.delays[i] == 20 * (i + 1))
      && (o.result.pdfPath.Some? ==> |o.delays| + 1 == o.rounds)
      && (!Before(today, target) && o.result.pdfPath.None? ==>
            o.rounds == NonNegative(maxRetries) && |o.delays| == o.rounds)
  {
  }

  /**
   A result with a file exists exactly when some round within the budget
   downloads a valid PDF; it is then the first such round, and the entries
   are the ones searched in that round's document.
   */
  lemma FirstSuccessWins(target: Date, today: Date, maxRetries: int, name: string,
                         locate: nat -> Option<string>, fetch: nat -> Response)
    requires !Before(today, target)
    ensures Outcome(target, today, maxRetries, name, locate, fetch).result.pdfPath.Some?
            <==> exists k :: 0 <= k < maxRetries && RoundAt(locate, fetch, k).Downloaded?
    ensures var o := Outcome(target, today, maxRetries, name, locate, fetch);
      o.result.pdfPath.Some? ==>
        && o.rounds >= 1
        && RoundAt(locate, fetch, o.rounds - 1).Downloaded?
        && (forall i :: 0 <= i < o.rounds - 1 ==> !RoundAt(locate, fetch, i).Downloaded?)
        && o.result.entries == DocEntries(RoundAt(locate, fetch, o.rounds - 1).doc, name)
        && o.result.pdfPath == Some(PdfPath(FormatDate(target)))
  {
    var f := FirstSuccess(locate, fetch, 0, maxRetries);
    if f.Some? {
      assert 0 <= f.value < maxRetries && RoundAt(locate, fetch, f.value).Downloaded?;
    }
  }

  /** Both terminal outcomes save `date_str`, and loading the marker back gives the target date. */
  lemma MarkerSaved(files: map<string, FileData>, target: Date, today: Date, maxRetries: int, name: string,
                    locate: nat -> Option<string>, fetch: nat -> Response)
    requires !Before(today, target)
    ensures var final := FinalFiles(files, target, today, maxRetries, name, locate, fetch);
      LastDateFile in final && final[LastDateFile] == TextFile(FormatDate(target))
    ensures LoadLastProcessedDate(FinalFiles(files, target, today, maxRetries, name, locate, fetch)) == Some(target)
  {
    var o := Outcome(target, today, maxRetries, name, locate, fetch);
    SaveThenLoad(FilesAfter(files, locate, fetch, FormatDate(target), o.rounds), target);
  }

  /** The PDF path survives `k` rounds exactly when it was there and no round wrote it. */
  lemma {:induction false} FilesAfterPdf(files: map<string, FileData>, locate: nat -> Option<string>,
                                         fetch: nat -> Response, dateStr: string, k: nat)
    ensures PdfPath(dateStr) in FilesAfter(files, locate, fetch, dateStr, k)
            <==> PdfPath(dateStr) in files && forall i :: 0 <= i < k ==> !RoundWrites(RoundAt(locate, fetch, i))
  {
    if k > 0 {
      FilesAfterPdf(files, locate, fetch, dateStr, k - 1);
    }
  }

  /** The rounds touch no path but the PDF path. */
  lemma {:induction false} FilesAfterOther(files: map<string, FileData>, locate: nat -> Option<string>,
                                           fetch: nat -> Response, dateStr: string, k: nat, q: string)
    requires q != PdfPath(dateStr)
    ensures q in FilesAfter(files, locate, fetch, dateStr, k) <==> q in files
    ensures q in files ==> FilesAfter(files, locate, fetch, dateStr, k)[q] == files[q]
  {
    if k > 0 {
      FilesAfterOther(files, locate, fetch, dateStr, k - 1, q);
    }
  }

  /**
   The `finally` cleanup: once a round has written the PDF it is gone when
   the call returns, whatever the outcome; in particular a successful run
   returns the path of a file that no longer exists.
   */
  lemma Cleanup(files: map<string, FileData>, target: Date, today: Date, maxRetries: int, name: string,
                locate: nat -> Option<string>, fetch: nat -> Response)
    requires !Before(today, target)
    ensures var o := Outcome(target, today, maxRetries, name, locate, fetch);
      var p := PdfPath(FormatDate(target));
      p in FinalFiles(files, target, today, maxRetries, name, locate, fetch)
      <==> p in files && forall i :: 0 <= i < o.rounds ==> !RoundWrites(RoundAt(locate, fetch, i))
    ensures Outcome(target, today, maxRetries, name, locate, fetch).result.pdfPath.Some? ==>
      PdfPath(FormatDate(target)) !in FinalFiles(files, target, today, maxRetries, name, locate, fetch)
  {
    var ds := FormatDate(target);
    var o := Outcome(target, today, maxRetries, name, locate, fetch);
    var after := FilesAfter(files, locate, fetch, ds, o.rounds);
    assert FinalFiles(files, target, today, maxRetries, name, locate, fetch) == after[LastDateFile := TextFile(ds)];
    PdfPathIsNotMarker(ds);
    FilesAfterPdf(files, locate, fetch, ds, o.rounds);
    if o.result.pdfPath.Some? {
      FirstSuccessWins(target, today, maxRetries, name, locate, fetch);
      assert RoundWrites(RoundAt(locate, fetch, o.rounds - 1));
      assert PdfPath(ds) !in after;
    }
  }

  /** Apart from the PDF and the marker, no file is created, changed or removed. */
  lemma OtherFilesUntouched(files: map<string, FileData>, target: Date, today: Date, maxRetries: int, name: string,
                            locate: nat -> Option<string>, fetch: nat -> Response, q: string)
    requires q != PdfPath(FormatDate(target)) && q != LastDateFile
    ensures var final := FinalFiles(files, target, today, maxRetries, name, locate, fetch);
      && (q in final <==> q in files)
      && (q in files ==> final[q] == files[q])
  {
    if !Before(today, target) {
      var o := Outcome(target, today, maxRetries, name, locate, fetch);
      FilesAfterOther(files, locate, fetch, FormatDate(target), o.rounds, q);
    }
  }
}
