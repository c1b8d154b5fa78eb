/** One domain's scan (`check_directories`): normalise the domain, load the
    wordlist, abort before any request if it is missing, unreadable or
    empty, otherwise dispatch one request per segment and collect the
    results as they complete.

    Requests run in a thread pool and `fetch_url` updates the globals from
    the worker threads, so two orders matter and neither is known in
    advance: the order in which the workers' bookkeeping happens
    (`recordOrder`) and the order in which `as_completed` hands the finished
    requests to the collector loop (`completionOrder`). Both are inputs here,
    as is what each request produced; every property holds for every pair
    of orders. */
module Scan {
  import opened Wrappers
  import opened Seqs
  import opened Domains
  import opened Filters
  import opened Tally

  /** What reading a file produced: `os.path.isfile` said no, opening or
      reading raised, or the lines `readlines()` returned. */
  datatype FileRead = Missing | Unreadable | Lines(lines: seq<string>)

  /** The three conditions that end a scan before any request. */
  datatype LoadError = FileNotFound | ReadFailed | NoDirectories

  /** What reading the wordlist gives: the segments, or why there are none. */
  type Loaded = Result<seq<string>, LoadError>

  /** What the environment does during one scan: the response each
      dispatched request gets (indexed in wordlist order) and the two
      orders in which the requests are recorded and collected. */
  datatype Schedule = Schedule(responses: seq<Response>, recordOrder: seq<nat>, completionOrder: seq<nat>)

  /** One entry of `table_data`: the ordinal of the result, the segment it
      was for, and the request with its outcome. */
  datatype Row = Row(ordinal: nat, segment: string, fetch: Fetch)

  /** How a scan ends: aborted before any request, refused by the thread
      pool (`ThreadPoolExecutor` rejects a non-positive worker count with a
      `ValueError` that escapes the scan), or completed with its result rows
      and the summary it prints (the globals at that point). */
  datatype ScanOutcome =
    | Aborted(reason: LoadError)
    | PoolRejected
    | Completed(rows: seq<Row>, summary: Tally)

  /** Lines 57-76: the segments to test, or why there are none. */
  function LoadWordlist(file: FileRead): (r: Loaded)
    ensures file.Missing? ==> r == Err(FileNotFound)
    ensures file.Unreadable? ==> r == Err(ReadFailed)
    ensures file.Lines? && CountWithText(file.lines) == 0 ==> r == Err(NoDirectories)
    ensures r.Ok? <==> file.Lines? && CountWithText(file.lines) > 0
    ensures r.Ok? ==> r.value == WordlistSegments(file.lines) && |r.value| == CountWithText(file.lines)
  {
    match file
    case Missing => Err(FileNotFound)
    case Unreadable => Err(ReadFailed)
    case Lines(lines) =>
      var segments := WordlistSegments(lines);
      if |segments| == 0 then Err(NoDirectories) else Ok(segments)
  }

  /** `f"{domain}/{directory}"` */
  function TargetUrl(domain: string, segment: string): string
  {
    domain + "/" + segment
  }

  /** Distinct segments give distinct URLs on the same domain, so each
      request names its own path. */
  lemma TargetUrlInjective(domain: string, a: string, b: string)
    ensures TargetUrl(domain, a) == TargetUrl(domain, b) <==> a == b
  {
    if TargetUrl(domain, a) == TargetUrl(domain, b) {
      assert a == TargetUrl(domain, a)[|domain| + 1..];
      assert b == TargetUrl(domain, b)[|domain| + 1..];
    }
  }

  /** The requests in wordlist order, each with the response it gets. */
  function Dispatched(domain: string, segments: seq<string>, responses: seq<Response>): (fs: seq<Fetch>)
    requires |responses| == |segments|
    ensures |fs| == |segments|
    ensures forall i :: 0 <= i < |fs| ==> fs[i] == Fetch(TargetUrl(domain, segments[i]), responses[i])
  {
    seq(|segments|, i requires 0 <= i < |segments| => Fetch(TargetUrl(domain, segments[i]), responses[i]))
  }

  /** The schedule fits `n` dispatched requests: one response each, and each
      request recorded once and collected once. */
  ghost predicate Fits(s: Schedule, n: nat)
  {
    |s.responses| == n && IsPermutationOf(s.recordOrder, n) && IsPermutationOf(s.completionOrder, n)
  }

  /** The schedule fits whatever the wordlist yielded. */
  ghost predicate FitsWordlist(s: Schedule, loaded: Loaded)
  {
    loaded.Ok? ==> Fits(s, |loaded.value|)
  }

  /** How many requests a scan dispatches. */
  function DispatchCount(loaded: Loaded, threads: int): nat
  {
    if loaded.Ok? && threads > 0 then |loaded.value| else 0
  }

  /** A scan dispatches one request per wordlist line with text, or none
      when the wordlist fails or the pool refuses its worker count. */
  lemma DispatchCountLines(file: FileRead, threads: int)
    ensures DispatchCount(LoadWordlist(file), threads) ==
              if file.Lines? && threads > 0 then CountWithText(file.lines) else 0
  {
  }

  /** The globals after one scan that started from `t`, given what reading
      the wordlist gave (left as they were when the schedule does not fit
      the wordlist, which never happens in a run). */
  ghost function ScanEffect(t: Tally, domain: string, loaded: Loaded, threads: int, s: Schedule): Tally
  {
    match loaded
    case Err(_) => t
    case Ok(segments) =>
      if threads <= 0 || !Fits(s, |segments|) then t
      else ApplyAll(t, Recorded(NormalizeDomain(domain), segments, s))
  }

  /** Each request is recorded exactly once, so the counter sum grows by the
      number of dispatched requests, or by nothing when the scan aborts. */
  lemma ScanTotal(t: Tally, domain: string, loaded: Loaded, threads: int, s: Schedule)
    requires FitsWordlist(s, loaded)
    ensures Total(ScanEffect(t, domain, loaded, threads, s)) == Total(t) + DispatchCount(loaded, threads)
  {
    if loaded.Ok? && threads > 0 {
      var fs := Recorded(NormalizeDomain(domain), loaded.value, s);
      assert ScanEffect(t, domain, loaded, threads, s) == ApplyAll(t, fs);
      ApplyAllTotal(t, fs);
    } else {
      assert ScanEffect(t, domain, loaded, threads, s) == t;
    }
  }

  /** The counters after a scan do not depend on the order in which the
      workers recorded their results, and `ok_urls` ends with the same
      entries (in some order) whatever that order was. */
  lemma ScanOrderIndependent(t: Tally, domain: string, loaded: Loaded, threads: int, s1: Schedule, s2: Schedule)
    requires FitsWordlist(s1, loaded) && FitsWordlist(s2, loaded)
    requires s1.responses == s2.responses
    ensures forall b :: Count(ScanEffect(t, domain, loaded, threads, s1), b) == Count(ScanEffect(t, domain, loaded, threads, s2), b)
    ensures multiset(ScanEffect(t, domain, loaded, threads, s1).okUrls) == multiset(ScanEffect(t, domain, loaded, threads, s2).okUrls)
  {
    if loaded.Ok? && threads > 0 {
      var d, segments := NormalizeDomain(domain), loaded.value;
      ApplyAllOrderIndependent(t, Recorded(d, segments, s1), Recorded(d, segments, s2));
    }
  }

  /** The requests a scan records, in the order the workers record them. */
  function Recorded(domain: string, segments: seq<string>, s: Schedule): (fs: seq<Fetch>)
    requires Fits(s, |segments|)
    ensures |fs| == |segments|
    ensures multiset(fs) == multiset(Dispatched(domain, segments, s.responses))
  {
    PickPermutation(Dispatched(domain, segments, s.responses), s.recordOrder);
    Pick(Dispatched(domain, segments, s.responses), s.recordOrder)
  }

  /** A target URL answered 200 with a given length exactly when some
      segment's request got that response. */
  lemma DispatchedOk(domain: string, segments: seq<string>, responses: seq<Response>, url: string, length: nat)
    requires |responses| == |segments|
    ensures Fetch(url, Status(200, length)) in Dispatched(domain, segments, responses) <==>
              exists i :: 0 <= i < |segments| && url == TargetUrl(domain, segments[i]) &&
                          responses[i] == Status(200, length)
  {
    var fs, f := Dispatched(domain, segments, responses), Fetch(url, Status(200, length));
    if f in fs {
      var i :| 0 <= i < |fs| && fs[i] == f;
      assert responses[i] == Status(200, length);
    }
    if exists i :: 0 <= i < |segments| && url == TargetUrl(domain, segments[i]) &&
                   responses[i] == Status(200, length) {
      var i :| 0 <= i < |segments| && url == TargetUrl(domain, segments[i]) &&
               responses[i] == Status(200, length);
      assert fs[i] == f;
    }
  }

  /** A scan only appends to `ok_urls`: the successes among the requests,
      in the order the workers recorded them. */
  lemma ScanAppendsOkUrls(t: Tally, domain: string, loaded: Loaded, threads: int, s: Schedule)
    requires FitsWordlist(s, loaded)
    ensures loaded.Ok? && threads > 0 ==>
              ScanEffect(t, domain, loaded, threads, s).okUrls ==
                t.okUrls + OkEntries(Recorded(NormalizeDomain(domain), loaded.value, s))
    ensures !(loaded.Ok? && threads > 0) ==> ScanEffect(t, domain, loaded, threads, s).okUrls == t.okUrls
  {
    if loaded.Ok? && threads > 0 {
      ApplyAllOkUrls(t, Recorded(NormalizeDomain(domain), loaded.value, s));
    }
  }

  /** What a scan appends to `ok_urls` is exactly the target URLs that
      answered 200, with their body lengths. */
  lemma ScanOkUrls(t: Tally, domain: string, loaded: Loaded, threads: int, s: Schedule, url: string, length: nat)
    requires FitsWordlist(s, loaded)
    requires loaded.Ok? && threads > 0
    ensures |t.okUrls| <= |ScanEffect(t, domain, loaded, threads, s).okUrls|
    ensures (url, length) in ScanEffect(t, domain, loaded, threads, s).okUrls[|t.okUrls|..] <==>
              exists i :: 0 <= i < |loaded.value| &&
                          url == TargetUrl(NormalizeDomain(domain), loaded.value[i]) &&
                          s.responses[i] == Status(200, length)
  {
    var d, segments := NormalizeDomain(domain), loaded.value;
    var picked := Recorded(d, segments, s);
    ScanAppendsOkUrls(t, domain, loaded, threads, s);
    var after := ScanEffect(t, domain, loaded, threads, s).okUrls;
    assert after[|t.okUrls|..] == OkEntries(picked);
    OkEntriesExactly(picked, url, length);
    var f := Fetch(url, Status(200, length));
    assert f in picked <==> f in multiset(Dispatched(d, segments, s.responses));
    DispatchedOk(d, segments, s.responses, url, length);
  }

  /** The worker side of the thread pool: every dispatched request's
      `fetch_url` bookkeeping runs once, in `recordOrder`. */
  method RunWorkers(g: StatusTally, domain: string, segments: seq<string>, s: Schedule)
    requires Fits(s, |segments|)
    modifies g
    ensures g.Snapshot() == ApplyAll(old(g.Snapshot()), Recorded(domain, segments, s))
  {
    var n := |segments|;
    PermutationBounds(s.recordOrder, n);
    ghost var t0 := g.Snapshot();
    var k := 0;
    while k < n
      invariant 0 <= k <= n
      invariant g.Snapshot() == ApplyAll(t0, Recorded(domain, segments, s)[..k])
    {
      var i := s.recordOrder[k];
      RecordStep(t0, domain, segments, s, k);
      var _ := g.Record(TargetUrl(domain, segments[i]), s.responses[i]);
      k := k + 1;
    }
    assert Recorded(domain, segments, s)[..n] == Recorded(domain, segments, s);
  }

  /** The k-th worker to record applies the request at position
      `recordOrder[k]` of the wordlist. */
  lemma RecordStep(t0: Tally, domain: string, segments: seq<string>, s: Schedule, k: nat)
    requires Fits(s, |segments|) && k < |segments| && k < |s.recordOrder|
    ensures s.recordOrder[k] < |segments|
    ensures ApplyAll(t0, Recorded(domain, segments, s)[..k + 1]) ==
              Apply(ApplyAll(t0, Recorded(domain, segments, s)[..k]),
                    Fetch(TargetUrl(domain, segments[s.recordOrder[k]]), s.responses[s.recordOrder[k]]))
  {
    PermutationBounds(s.recordOrder, |segments|);
    var recorded := Recorded(domain, segments, s);
    ApplyAllSnoc(t0, recorded[..k], recorded[k]);
    assert recorded[..k + 1] == recorded[..k] + [recorded[k]];
  }

  /** The collector loop over `as_completed`: `current_threads` counts the
      results received so far and each result becomes one `table_data` row. */
  method Collect(domain: string, segments: seq<string>, s: Schedule) returns (rows: seq<Row>)
    requires Fits(s, |segments|)
    ensures RowsInCompletionOrder(rows, domain, segments, s)
    ensures rows == CollectedRows(domain, segments, s)
  {
    var n := |segments|;
    PermutationBounds(s.completionOrder, n);
    var current := 0;
    rows := [];
    while current < n
      invariant 0 <= current <= n
      invariant rows == RowsUpTo(domain, segments, s, current)
    {
      var i := s.completionOrder[current];
      current := current + 1;
      rows := rows + [Row(current, segments[i], Fetch(TargetUrl(domain, segments[i]), s.responses[i]))];
    }
    CollectedRowsInOrder(domain, segments, s);
  }

  /** The first `n` rows the collector produces: the j-th result to
      complete is numbered j + 1. */
  function RowsUpTo(domain: string, segments: seq<string>, s: Schedule, n: nat): (rows: seq<Row>)
    requires Fits(s, |segments|) && n <= |segments|
    ensures |rows| == n
    decreases n
  {
    if n == 0 then []
    else
      PermutationBounds(s.completionOrder, |segments|);
      var i := s.completionOrder[n - 1];
      RowsUpTo(domain, segments, s, n - 1) + [Row(n, segments[i], Fetch(TargetUrl(domain, segments[i]), s.responses[i]))]
  }

  /** All the rows the collector produces. */
  function CollectedRows(domain: string, segments: seq<string>, s: Schedule): (rows: seq<Row>)
    requires Fits(s, |segments|)
    ensures |rows| == |segments|
  {
    RowsUpTo(domain, segments, s, |segments|)
  }

  /** The j-th row names the request that completed j-th. */
  lemma {:induction false} RowsUpToAt(domain: string, segments: seq<string>, s: Schedule, n: nat, j: nat)
    requires Fits(s, |segments|) && j < n <= |segments|
    ensures j < |s.completionOrder| && s.completionOrder[j] < |segments|
    ensures RowsUpTo(domain, segments, s, n)[j] ==
              Row(j + 1, segments[s.completionOrder[j]],
                  Fetch(TargetUrl(domain, segments[s.completionOrder[j]]), s.responses[s.completionOrder[j]]))
    decreases n
  {
    PermutationBounds(s.completionOrder, |segments|);
    if j < n - 1 {
      RowsUpToAt(domain, segments, s, n - 1, j);
    }
  }

  /** The collected rows follow the completion order. */
  lemma CollectedRowsInOrder(domain: string, segments: seq<string>, s: Schedule)
    requires Fits(s, |segments|)
    ensures RowsInCompletionOrder(CollectedRows(domain, segments, s), domain, segments, s)
  {
    PermutationBounds(s.completionOrder, |segments|);
    forall j | 0 <= j < |segments| {
      RowsUpToAt(domain, segments, s, |segments|, j);
    }
  }

  /** What `check_directories` reports when the globals stand at `t`: the
      abort reason when the wordlist fails, the pool's refusal when the
      worker count is not positive, and otherwise the rows of this domain's
      own requests with the summary of the globals after the scan (no rows
      when the schedule does not fit the wordlist, which never happens in a
      run). */
  ghost function ExpectedOutcome(t: Tally, domain: string, loaded: Loaded, threads: int, s: Schedule): ScanOutcome
  {
    match loaded
    case Err(e) => Aborted(e)
    case Ok(segments) =>
      if threads <= 0 then PoolRejected
      else if !Fits(s, |segments|) then Completed([], t)
      else Completed(CollectedRows(NormalizeDomain(domain), segments, s), ScanEffect(t, domain, loaded, threads, s))
  }

  /** `check_directories(domain, directory_file, max_threads)` against the
      globals `g`. */
  method CheckDirectories(g: StatusTally, domain: string, file: FileRead, threads: int, s: Schedule)
    returns (outcome: ScanOutcome)
    requires FitsWordlist(s, LoadWordlist(file))
    modifies g
    ensures g.Snapshot() == ScanEffect(old(g.Snapshot()), domain, LoadWordlist(file), threads, s)
    ensures LoadWordlist(file).Err? ==> outcome == Aborted(LoadWordlist(file).error)
    ensures LoadWordlist(file).Ok? && threads <= 0 ==> outcome == PoolRejected
    ensures LoadWordlist(file).Ok? && threads > 0 ==>
              outcome.Completed? && outcome.summary == g.Snapshot() &&
              RowsInCompletionOrder(outcome.rows, NormalizeDomain(domain), LoadWordlist(file).value, s)
    ensures outcome == ExpectedOutcome(old(g.Snapshot()), domain, LoadWordlist(file), threads, s)
  {
    var d := NormalizeDomain(domain);
    var loaded := LoadWordlist(file);
    if loaded.Err? {
      return Aborted(loaded.error);
    }
    var segments := loaded.value;
    if threads <= 0 {
      return PoolRejected;
    }
    RunWorkers(g, d, segments, s);
    var rows := Collect(d, segments, s);
    outcome := Completed(rows, g.Snapshot());
  }

  /** The rows follow the completion order, numbered 1 .. n, each naming its
      segment, the URL `domain/segment` and the response it got. */
  ghost predicate RowsInCompletionOrder(rows: seq<Row>, domain: string, segments: seq<string>, s: Schedule)
  {
    && |s.responses| == |segments|
    && |rows| == |segments| == |s.completionOrder|
    && forall j :: 0 <= j < |rows| ==>
         && s.completionOrder[j] < |segments|
         && rows[j].ordinal == j + 1
         && rows[j].segment == segments[s.completionOrder[j]]
         && rows[j].fetch == Fetch(TargetUrl(domain, rows[j].segment), s.responses[s.completionOrder[j]])
  }

  function RowFetch(r: Row): Fetch
  {
    r.fetch
  }

  /** The collected rows cover every dispatched request exactly once. */
  lemma RowsCoverDispatch(rows: seq<Row>, domain: string, segments: seq<string>, s: Schedule)
    requires Fits(s, |segments|)
    requires RowsInCompletionOrder(rows, domain, segments, s)
    ensures multiset(Map(RowFetch, rows)) == multiset(Dispatched(domain, segments, s.responses))
  {
    var fs := Dispatched(domain, segments, s.responses);
    PickPermutation(fs, s.completionOrder);
    assert Map(RowFetch, rows) == Pick(fs, s.completionOrder);
  }
}
