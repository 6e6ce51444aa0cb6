/**
 The batch handling of `process_historical_dous`: dates are queued two at
 a time, each batch is gathered, results of tasks that raised are dropped,
 the rest are sorted by their parsed date and delivered in that order.
 */
module Batching {
  import opened Wrappers
  import opened Calendar
  import opened DateText
  import opened BusinessDays
  import opened Extractor
  import opened Pipeline

  /** What a task for one date returns when it does not raise: its entries and its PDF path. */
  datatype TaskOutput = TaskOutput(entries: seq<Entry>, pdfPath: Option<string>)

  /** The `(entries, date_str, pdf_path)` triple of a task for date `d`. */
  function ResultFor(d: Date, o: TaskOutput): ProcessingResult {
    ProcessingResult(o.entries, FormatDate(d), o.pdfPath)
  }

  /** What each date's `process_dou_date` task returns: its result triple, or `None` when it raised. */
  function TaskResults(outcome: Date -> Option<TaskOutput>): Date -> Option<ProcessingResult> {
    (d: Date) => if outcome(d).Some? then Some(ResultFor(d, outcome(d).value)) else None
  }

  /** Consecutive groups of two, the last one possibly a single date. */
  function Batches(ds: seq<Date>): (bs: seq<seq<Date>>)
    decreases |ds|
  {
    if ds == [] then []
    else if |ds| <= 2 then [ds]
    else [ds[..2]] + Batches(ds[2..])
  }

  function Flatten(bs: seq<seq<Date>>): seq<Date> {
    if bs == [] then [] else bs[0] + Flatten(bs[1..])
  }

  predicate AllPairs(bs: seq<seq<Date>>) {
    forall i :: 0 <= i < |bs| ==> |bs[i]| == 2
  }

  lemma {:induction false} FlattenSnoc(bs: seq<seq<Date>>, b: seq<Date>)
    ensures Flatten(bs + [b]) == Flatten(bs) + b
  {
    if bs == [] {
      assert [] + [b] == [b];
    } else {
      assert (bs + [b])[1..] == bs[1..] + [b];
      FlattenSnoc(bs[1..], b);
    }
  }

  lemma {:induction false} FlattenPairs(bs: seq<seq<Date>>)
    requires AllPairs(bs)
    ensures |Flatten(bs)| == 2 * |bs|
  {
    if bs != [] {
      FlattenPairs(bs[1..]);
    }
  }

  /** Full batches of two followed by at most one queued date split back into the same batches. */
  lemma {:induction false} BatchesOfPairs(bs: seq<seq<Date>>, tail: seq<Date>)
    requires AllPairs(bs) && |tail| <= 1
    ensures Batches(Flatten(bs) + tail) == bs + (if tail == [] then [] else [tail])
  {
    if bs == [] {
      assert Flatten(bs) + tail == tail;
    } else {
      var rest := Flatten(bs[1..]) + tail;
      var all := Flatten(bs) + tail;
      assert all == bs[0] + rest;
      BatchesOfPairs(bs[1..], tail);
      if rest == [] {
        assert all == bs[0];
        FlattenPairs(bs[1..]);
        assert bs[1..] == [];
      } else {
        assert all[..2] == bs[0] && all[2..] == rest;
      }
    }
  }

  /** Splitting into batches loses, adds and reorders nothing. */
  lemma {:induction false} FlattenBatches(ds: seq<Date>)
    ensures Flatten(Batches(ds)) == ds
    decreases |ds|
  {
    if |ds| > 2 {
      FlattenBatches(ds[2..]);
      assert ds == ds[..2] + ds[2..];
    }
  }

  /** `n` queued dates make `n / 2` batches of two and, when `n` is odd, one more. */
  lemma {:induction false} BatchCount(ds: seq<Date>)
    ensures |Batches(ds)| == (|ds| + 1) / 2
    decreases |ds|
  {
    if |ds| > 2 {
      BatchCount(ds[2..]);
    }
  }

  /** Every batch holds two dates except the last, which holds one or two. */
  lemma {:induction false} BatchShape(ds: seq<Date>)
    ensures var bs := Batches(ds);
      && (forall i :: 0 <= i < |bs| - 1 ==> |bs[i]| == 2)
      && (bs != [] ==> 1 <= |bs[|bs| - 1]| <= 2)
      && (ds == [] <==> bs == [])
    decreases |ds|
  {
    if |ds| > 2 {
      BatchShape(ds[2..]);
      var bs := Batches(ds);
      var rest := Batches(ds[2..]);
      assert bs == [ds[..2]] + rest;
      forall i | 0 <= i < |bs| - 1
        ensures |bs[i]| == 2
      {
        if i > 0 {
          assert bs[i] == rest[i - 1];
        }
      }
    }
  }

  /** The results of the coroutines that did not raise, in the order of `ds`: what `gather` collects. */
  function Successes(ds: seq<Date>, task: Date -> Option<ProcessingResult>): seq<ProcessingResult> {
    if ds == [] then []
    else (if task(ds[0]).Some? then [task(ds[0]).value] else []) + Successes(ds[1..], task)
  }

  lemma {:induction false} SuccessesAppend(a: seq<Date>, b: seq<Date>, task: Date -> Option<ProcessingResult>)
    ensures Successes(a + b, task) == Successes(a, task) + Successes(b, task)
  {
    if a == [] {
      assert a + b == b;
    } else {
      var h := if task(a[0]).Some? then [task(a[0]).value] else [];
      assert (a + b)[0] == a[0];
      assert (a + b)[1..] == a[1..] + b;
      assert Successes(a + b, task) == h + Successes(a[1..] + b, task);
      SuccessesAppend(a[1..], b, task);
      assert Successes(a, task) == h + Successes(a[1..], task);
    }
  }

  /** The sort key `datetime.strptime(x[1], "%d-%m-%Y")`, as a day number. */
  function DateKey(r: ProcessingResult): int {
    match ParseDate(r.dateStr)
    case Some(d) => Ordinal(d)
    case None => 0
  }

  /** The key of a task's result is its own date. */
  lemma DateKeyOfResult(d: Date, o: TaskOutput)
    ensures DateKey(ResultFor(d, o)) == Ordinal(d)
  {
    ParseFormat(d);
  }

  /** `key` ranks every result a date's task returns by `rank` of that date. */
  ghost predicate Ranked(task: Date -> Option<ProcessingResult>, key: ProcessingResult -> int, rank: Date -> int) {
    forall d: Date :: task(d).Some? ==> key(task(d).value) == rank(d)
  }

  /** The date key ranks every task result by its own date. */
  lemma TaskResultsRanked(outcome: Date -> Option<TaskOutput>)
    ensures Ranked(TaskResults(outcome), DateKey, Ordinal)
  {
    forall d: Date | TaskResults(outcome)(d).Some?
      ensures DateKey(TaskResults(outcome)(d).value) == Ordinal(d)
    {
      DateKeyOfResult(d, outcome(d).value);
    }
  }

  /** Every key in `rs` is at least `b`. */
  predicate KeysAtLeast(rs: seq<ProcessingResult>, key: ProcessingResult -> int, b: int) {
    rs == [] || (b <= key(rs[0]) && KeysAtLeast(rs[1..], key, b))
  }

  /** In key order: no element's key exceeds the key of a later one. */
  predicate SortedBy(rs: seq<ProcessingResult>, key: ProcessingResult -> int) {
    rs == [] || (KeysAtLeast(rs[1..], key, key(rs[0])) && SortedBy(rs[1..], key))
  }

  lemma {:induction false} KeysAtLeastMeans(rs: seq<ProcessingResult>, key: ProcessingResult -> int, b: int)
    ensures KeysAtLeast(rs, key, b) <==> forall k :: 0 <= k < |rs| ==> b <= key(rs[k])
  {
    if rs != [] {
      KeysAtLeastMeans(rs[1..], key, b);
      assert forall k :: 1 <= k < |rs| ==> rs[k] == rs[1..][k - 1];
    }
  }

  /** The ordering stated pairwise. */
  lemma {:induction false} SortedByMeans(rs: seq<ProcessingResult>, key: ProcessingResult -> int)
    ensures SortedBy(rs, key) <==> forall i, j :: 0 <= i < j < |rs| ==> key(rs[i]) <= key(rs[j])
  {
    if rs != [] {
      var tail := rs[1..];
      SortedByMeans(tail, key);
      KeysAtLeastMeans(tail, key, key(rs[0]));
      assert forall k :: 1 <= k < |rs| ==> rs[k] == tail[k - 1];
    }
  }

  lemma {:induction false} KeysAtLeastWeaken(rs: seq<ProcessingResult>, key: ProcessingResult -> int, a: int, b: int)
    requires a <= b && KeysAtLeast(rs, key, b)
    ensures KeysAtLeast(rs, key, a)
  {
    if rs != [] {
      KeysAtLeastWeaken(rs[1..], key, a, b);
    }
  }

  /** Insert `x` before the first element whose key is not smaller. */
  function Insert(x: ProcessingResult, rs: seq<ProcessingResult>, key: ProcessingResult -> int)
    : seq<ProcessingResult>
  {
    if rs == [] then [x]
    else if key(x) <= key(rs[0]) then [x] + rs
    else [rs[0]] + Insert(x, rs[1..], key)
  }

  lemma {:induction false} InsertPermutes(x: ProcessingResult, rs: seq<ProcessingResult>, key: ProcessingResult -> int)
    ensures multiset(Insert(x, rs, key)) == multiset(rs) + multiset{x}
  {
    if rs != [] {
      assert rs == [rs[0]] + rs[1..];
      if key(x) > key(rs[0]) {
        InsertPermutes(x, rs[1..], key);
      }
    }
  }

  /** `list.sort(key=key)`: a stable sort. */
  function SortBy(rs: seq<ProcessingResult>, key: ProcessingResult -> int): seq<ProcessingResult> {
    if rs == [] then [] else Insert(rs[0], SortBy(rs[1..], key), key)
  }

  /** `results.sort(key=lambda x: datetime.strptime(x[1], "%d-%m-%Y"))`. */
  function SortByDate(rs: seq<ProcessingResult>): seq<ProcessingResult> {
    SortBy(rs, DateKey)
  }

  /** Inserting an element no smaller than `b` among elements no smaller than `b` keeps that bound. */
  lemma {:induction false} InsertAtLeast(x: ProcessingResult, rs: seq<ProcessingResult>,
                                        key: ProcessingResult -> int, b: int)
    requires b <= key(x) && KeysAtLeast(rs, key, b)
    ensures KeysAtLeast(Insert(x, rs, key), key, b)
  {
    if rs == [] {
      assert Insert(x, rs, key) == [x] && [x][1..] == [];
    } else if key(x) <= key(rs[0]) {
      assert ([x] + rs)[1..] == rs;
    } else {
      InsertAtLeast(x, rs[1..], key, b);
      assert ([rs[0]] + Insert(x, rs[1..], key))[1..] == Insert(x, rs[1..], key);
    }
  }

  lemma {:induction false} InsertSorted(x: ProcessingResult, rs: seq<ProcessingResult>, key: ProcessingResult -> int)
    requires SortedBy(rs, key)
    ensures SortedBy(Insert(x, rs, key), key)
  {
    if rs == [] {
      assert Insert(x, rs, key) == [x] && [x][1..] == [];
    } else if key(x) <= key(rs[0]) {
      assert ([x] + rs)[1..] == rs;
      KeysAtLeastWeaken(rs[1..], key, key(x), key(rs[0]));
    } else {
      var tail := Insert(x, rs[1..], key);
      InsertSorted(x, rs[1..], key);
      InsertAtLeast(x, rs[1..], key, key(rs[0]));
      assert ([rs[0]] + tail)[1..] == tail;
    }
  }

  /** The sort yields its input in key order, and exactly the same elements. */
  lemma {:induction false} SortBySorted(rs: seq<ProcessingResult>, key: ProcessingResult -> int)
    ensures SortedBy(SortBy(rs, key), key)
    ensures multiset(SortBy(rs, key)) == multiset(rs)
  {
    if rs != [] {
      SortBySorted(rs[1..], key);
      InsertSorted(rs[0], SortBy(rs[1..], key), key);
      InsertPermutes(rs[0], SortBy(rs[1..], key), key);
      assert rs == [rs[0]] + rs[1..];
    }
  }

  /** Sorting a list already in key order changes nothing: the sort is stable. */
  lemma {:induction false} SortSortedIsIdentity(rs: seq<ProcessingResult>, key: ProcessingResult -> int)
    requires SortedBy(rs, key)
    ensures SortBy(rs, key) == rs
  {
    if rs != [] {
      SortSortedIsIdentity(rs[1..], key);
      assert rs == [rs[0]] + rs[1..];
    }
  }

  /** The date sort orders the results by date, pairwise, and keeps every one of them. */
  lemma SortByDateSorted(rs: seq<ProcessingResult>)
    ensures forall i, j :: 0 <= i < j < |SortByDate(rs)| ==> DateKey(SortByDate(rs)[i]) <= DateKey(SortByDate(rs)[j])
    ensures multiset(SortByDate(rs)) == multiset(rs)
  {
    SortBySorted(rs, DateKey);
    SortedByMeans(SortByDate(rs), DateKey);
  }

  /** The log of batches flushed one after another, each contributing `f` of the batch. */
  function ConcatMap(bs: seq<seq<Date>>, f: seq<Date> -> seq<ProcessingResult>): seq<ProcessingResult> {
    if bs == [] then [] else ConcatMap(bs[..|bs| - 1], f) + f(bs[|bs| - 1])
  }

  lemma {:induction false} ConcatMapAppend(a: seq<seq<Date>>, b: seq<seq<Date>>, f: seq<Date> -> seq<ProcessingResult>)
    ensures ConcatMap(a + b, f) == ConcatMap(a, f) + ConcatMap(b, f)
    decreases |b|
  {
    if b == [] {
      assert a + b == a;
    } else {
      var n := |b| - 1;
      assert (a + b)[..|a + b| - 1] == a + b[..n];
      assert (a + b)[|a + b| - 1] == b[n];
      ConcatMapAppend(a, b[..n], f);
    }
  }

  /**
   The order in which `gather` hands back the coroutines of a batch: as queued,
   or (for a batch of two) the other way round.
   */
  function Arrange(b: seq<Date>, swap: bool): (r: seq<Date>)
    ensures multiset(r) == multiset(b)
  {
    if swap && |b| == 2 then
      assert b == [b[0]] + [b[1]];
      [b[1], b[0]]
    else b
  }

  /** What one flushed batch sends: the results that did not raise, in gather order, sorted by date. */
  function FlushBatch(task: Date -> Option<ProcessingResult>, swapped: seq<Date> -> bool)
    : seq<Date> -> seq<ProcessingResult>
  {
    (b: seq<Date>) => SortByDate(Successes(Arrange(b, swapped(b)), task))
  }

  /** The delivery log of the batches flushed so far. */
  function Deliveries(bs: seq<seq<Date>>, task: Date -> Option<ProcessingResult>, swapped: seq<Date> -> bool)
    : seq<ProcessingResult>
  {
    ConcatMap(bs, FlushBatch(task, swapped))
  }

  /** Flushing one more batch appends that batch's sorted results to the log. */
  lemma DeliveriesSnoc(bs: seq<seq<Date>>, b: seq<Date>, task: Date -> Option<ProcessingResult>,
                       swapped: seq<Date> -> bool)
    ensures Deliveries(bs + [b], task, swapped)
            == Deliveries(bs, task, swapped) + SortByDate(Successes(Arrange(b, swapped(b)), task))
  {
    assert (bs + [b])[..|bs + [b]| - 1] == bs;
  }

  /** Every delivered result is the result of a listed date whose task did not raise, and conversely. */
  lemma {:induction false} SuccessesMembers(ds: seq<Date>, task: Date -> Option<ProcessingResult>, r: ProcessingResult)
    ensures r in Successes(ds, task) <==> exists d :: d in ds && task(d) == Some(r)
  {
    if ds != [] {
      SuccessesMembers(ds[1..], task, r);
      if r in Successes(ds[1..], task) {
        var d :| d in ds[1..] && task(d) == Some(r);
        assert d in ds;
      }
      forall d | d in ds && d != ds[0]
        ensures d in ds[1..]
      {
        var i :| 0 <= i < |ds| && ds[i] == d;
        assert ds[1..][i - 1] == d;
      }
    }
  }

  /** Every date in `ds` ranks above `b`. */
  predicate RanksAbove(ds: seq<Date>, rank: Date -> int, b: int) {
    ds == [] || (b < rank(ds[0]) && RanksAbove(ds[1..], rank, b))
  }

  /** Strictly ascending by rank. */
  predicate RankAscending(ds: seq<Date>, rank: Date -> int) {
    ds == [] || (RanksAbove(ds[1..], rank, rank(ds[0])) && RankAscending(ds[1..], rank))
  }

  /** Every key in `rs` exceeds `b`. */
  predicate KeysAbove(rs: seq<ProcessingResult>, key: ProcessingResult -> int, b: int) {
    rs == [] || (b < key(rs[0]) && KeysAbove(rs[1..], key, b))
  }

  /** Strictly ascending by key. */
  predicate StrictlyByKey(rs: seq<ProcessingResult>, key: ProcessingResult -> int) {
    rs == [] || (KeysAbove(rs[1..], key, key(rs[0])) && StrictlyByKey(rs[1..], key))
  }

  lemma {:induction false} KeysAboveMeans(rs: seq<ProcessingResult>, key: ProcessingResult -> int, b: int)
    ensures KeysAbove(rs, key, b) <==> forall k :: 0 <= k < |rs| ==> b < key(rs[k])
  {
    if rs != [] {
      KeysAboveMeans(rs[1..], key, b);
      assert forall k :: 1 <= k < |rs| ==> rs[k] == rs[1..][k - 1];
    }
  }

  /** Strict key order stated pairwise. */
  lemma {:induction false} StrictlyByKeyMeans(rs: seq<ProcessingResult>, key: ProcessingResult -> int)
    ensures StrictlyByKey(rs, key) <==> forall i, j :: 0 <= i < j < |rs| ==> key(rs[i]) < key(rs[j])
  {
    if rs != [] {
      var tail := rs[1..];
      StrictlyByKeyMeans(tail, key);
      KeysAboveMeans(tail, key, key(rs[0]));
      assert forall k :: 1 <= k < |rs| ==> rs[k] == tail[k - 1];
    }
  }

  lemma {:induction false} StrictlyIsSorted(rs: seq<ProcessingResult>, key: ProcessingResult -> int)
    requires StrictlyByKey(rs, key)
    ensures SortedBy(rs, key)
  {
    if rs != [] {
      StrictlyIsSorted(rs[1..], key);
      KeysAboveMeans(rs[1..], key, key(rs[0]));
      KeysAtLeastMeans(rs[1..], key, key(rs[0]));
    }
  }

  lemma {:induction false} RanksAboveFrom(ds: seq<Date>, rank: Date -> int, b: int)
    requires forall k :: 0 <= k < |ds| ==> b < rank(ds[k])
    ensures RanksAbove(ds, rank, b)
  {
    if ds != [] {
      assert forall k :: 0 <= k < |ds[1..]| ==> ds[1..][k] == ds[k + 1];
      RanksAboveFrom(ds[1..], rank, b);
    }
  }

  /** Calendar order is ascending day-number rank. */
  lemma {:induction false} AscendingRanks(ds: seq<Date>)
    requires StrictlyAscending(ds)
    ensures RankAscending(ds, Ordinal)
  {
    if ds != [] {
      var rest := ds[1..];
      forall k | 0 <= k < |rest| ensures Ordinal(ds[0]) < Ordinal(rest[k]) {
        assert rest[k] == ds[k + 1] && Before(ds[0], ds[k + 1]);
      }
      RanksAboveFrom(rest, Ordinal, Ordinal(ds[0]));
      assert StrictlyAscending(rest) by {
        forall i, j | 0 <= i < j < |rest| ensures Before(rest[i], rest[j]) {
          assert rest[i] == ds[i + 1] && rest[j] == ds[j + 1];
        }
      }
      AscendingRanks(rest);
    }
  }

  /** When every listed date ranks above `b`, so does every result's key. */
  lemma {:induction false} SuccessesAbove(ds: seq<Date>, task: Date -> Option<ProcessingResult>,
                                         key: ProcessingResult -> int, rank: Date -> int, b: int)
    requires RanksAbove(ds, rank, b)
    requires Ranked(task, key, rank)
    ensures KeysAbove(Successes(ds, task), key, b)
  {
    if ds != [] {
      SuccessesAbove(ds[1..], task, key, rank, b);
      var tail := Successes(ds[1..], task);
      if task(ds[0]).Some? {
        assert Successes(ds, task) == [task(ds[0]).value] + tail;
        assert ([task(ds[0]).value] + tail)[1..] == tail;
      } else {
        assert Successes(ds, task) == tail;
      }
    }
  }

  /** The results of dates in ascending rank come in strictly ascending key. */
  lemma {:induction false} SuccessesAscending(ds: seq<Date>, task: Date -> Option<ProcessingResult>,
                                             key: ProcessingResult -> int, rank: Date -> int)
    requires RankAscending(ds, rank)
    requires Ranked(task, key, rank)
    ensures StrictlyByKey(Successes(ds, task), key)
  {
    if ds != [] {
      SuccessesAscending(ds[1..], task, key, rank);
      var tail := Successes(ds[1..], task);
      if task(ds[0]).Some? {
        SuccessesAbove(ds[1..], task, key, rank, rank(ds[0]));
        assert Successes(ds, task) == [task(ds[0]).value] + tail;
        assert ([task(ds[0]).value] + tail)[1..] == tail;
      } else {
        assert Successes(ds, task) == tail;
      }
    }
  }

  /**
   The results of an ascending list of dates whose tasks did not raise come
   strictly ascending by the date key: the messages go out in calendar order.
   */
  lemma SuccessesInDateOrder(ds: seq<Date>, task: Date -> Option<ProcessingResult>)
    requires StrictlyAscending(ds)
    requires Ranked(task, DateKey, Ordinal)
    ensures forall i, j :: 0 <= i < j < |Successes(ds, task)| ==>
              DateKey(Successes(ds, task)[i]) < DateKey(Successes(ds, task)[j])
  {
    AscendingRanks(ds);
    SuccessesAscending(ds, task, DateKey, Ordinal);
    StrictlyByKeyMeans(Successes(ds, task), DateKey);
  }

  /** Two results out of key order come back swapped. */
  lemma SortPair(x: ProcessingResult, y: ProcessingResult, key: ProcessingResult -> int)
    requires key(y) < key(x)
    ensures SortBy([x, y], key) == [y, x]
  {
    assert [x, y][1..] == [y];
    assert [y][1..] == [];
    assert SortBy([y], key) == [y];
    assert Insert(x, [y], key) == [y] + Insert(x, [], key);
  }

  lemma SuccessesSingle(d: Date, task: Date -> Option<ProcessingResult>)
    ensures Successes([d], task) == if task(d).Some? then [task(d).value] else []
  {
    assert [d][1..] == [];
  }

  /** A batch of two handed back the other way round is put back into rank order by the sort. */
  lemma SwappedPair(p: Date, q: Date, task: Date -> Option<ProcessingResult>,
                    key: ProcessingResult -> int, rank: Date -> int)
    requires rank(p) < rank(q)
    requires Ranked(task, key, rank)
    ensures SortBy(Successes([q, p], task), key) == Successes([p, q], task)
  {
    assert [q, p][1..] == [p] && [p][1..] == [] && [p, q][1..] == [q] && [q][1..] == [];
    var rp := Successes([p], task);
    var rq := Successes([q], task);
    SuccessesSingle(p, task);
    SuccessesSingle(q, task);
    assert Successes([p, q], task) == rp + rq;
    assert Successes([q, p], task) == rq + rp;
    if task(p).Some? && task(q).Some? {
      var x, y := task(p).value, task(q).value;
      assert Successes([p, q], task) == [x, y];
      assert Successes([q, p], task) == [y, x];
      SortPair(y, x, key);
    } else if task(p).Some? {
      var x := task(p).value;
      assert Successes([p, q], task) == [x] == Successes([q, p], task);
      assert [x][1..] == [];
    } else if task(q).Some? {
      var y := task(q).value;
      assert Successes([p, q], task) == [y] == Successes([q, p], task);
      assert [y][1..] == [];
    } else {
      assert Successes([p, q], task) == [] == Successes([q, p], task);
    }
  }

  /** Results of a batch in rank order stay as they are. */
  lemma OrderedBatch(b: seq<Date>, task: Date -> Option<ProcessingResult>,
                     key: ProcessingResult -> int, rank: Date -> int)
    requires RankAscending(b, rank)
    requires Ranked(task, key, rank)
    ensures SortBy(Successes(b, task), key) == Successes(b, task)
  {
    SuccessesAscending(b, task, key, rank);
    StrictlyIsSorted(Successes(b, task), key);
    SortSortedIsIdentity(Successes(b, task), key);
  }

  /**
   The results of one batch of ascending dates are delivered in date order,
   whatever order `gather` hands them back in.
   */
  lemma BatchDelivery(b: seq<Date>, task: Date -> Option<ProcessingResult>, swap: bool)
    requires |b| <= 2 && RankAscending(b, Ordinal)
    requires Ranked(task, DateKey, Ordinal)
    ensures SortByDate(Successes(Arrange(b, swap), task)) == Successes(b, task)
  {
    if swap && |b| == 2 {
      assert b == [b[0], b[1]];
      assert b[1..][0] == b[1];
      SwappedPair(b[0], b[1], task, DateKey, Ordinal);
    } else {
      OrderedBatch(b, task, DateKey, Ordinal);
    }
  }

  /**
   Flushing the batches of dates in ascending rank, with a flush that
   sends an ascending batch's results as they are, sends the results of
   all dates in order.
   */
  lemma {:induction false} FlushInOrder(ds: seq<Date>, task: Date -> Option<ProcessingResult>,
                                       flush: seq<Date> -> seq<ProcessingResult>, rank: Date -> int)
    requires RankAscending(ds, rank)
    requires forall b :: |b| <= 2 && RankAscending(b, rank) ==> flush(b) == Successes(b, task)
    ensures ConcatMap(Batches(ds), flush) == Successes(ds, task)
    decreases |ds|
  {
    if ds == [] {
    } else if |ds| <= 2 {
      assert Batches(ds) == [ds];
      assert [ds][..0] == [];
    } else {
      var head, rest := ds[..2], ds[2..];
      RankAscendingSplit(ds, rank);
      FlushInOrder(rest, task, flush, rank);
      ConcatMapCons(head, Batches(rest), flush);
      assert ds == head + rest;
      SuccessesAppend(head, rest, task);
    }
  }

  /** The first two dates of an ascending list, and the dates after them, are ascending. */
  lemma RankAscendingSplit(ds: seq<Date>, rank: Date -> int)
    requires |ds| > 2 && RankAscending(ds, rank)
    ensures RankAscending(ds[..2], rank) && RankAscending(ds[2..], rank)
  {
    var head := ds[..2];
    assert ds[1..][1..] == ds[2..] && ds[1..][0] == ds[1];
    assert head[1..] == [ds[1]] && [ds[1]][1..] == [];
    assert head[0] == ds[0] && rank(ds[0]) < rank(ds[1]);
    assert RanksAbove([ds[1]], rank, rank(ds[0])) && RankAscending([ds[1]], rank);
  }

  lemma ConcatMapCons(b: seq<Date>, bs: seq<seq<Date>>, f: seq<Date> -> seq<ProcessingResult>)
    ensures ConcatMap([b] + bs, f) == f(b) + ConcatMap(bs, f)
  {
    ConcatMapAppend([b], bs, f);
    assert [b][..0] == [];
  }

  /**
   Delivering the batches of an ascending list of dates gives the results of
   the dates that did not raise, in calendar order, whatever order `gather`
   uses.
   */
  lemma DeliveredInDateOrder(ds: seq<Date>, task: Date -> Option<ProcessingResult>, swapped: seq<Date> -> bool)
    requires StrictlyAscending(ds)
    requires Ranked(task, DateKey, Ordinal)
    ensures Deliveries(Batches(ds), task, swapped) == Successes(ds, task)
  {
    forall b | |b| <= 2 && RankAscending(b, Ordinal)
      ensures FlushBatch(task, swapped)(b) == Successes(b, task)
    {
      BatchDelivery(b, task, swapped(b));
    }
    AscendingRanks(ds);
    FlushInOrder(ds, task, FlushBatch(task, swapped), Ordinal);
  }
}
