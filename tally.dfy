/** The status bookkeeping of `fetch_url`: a response is classified into
    one of four buckets; the matching counter of the global `status_counts`
    grows by one, and a 200 response also appends `(url, length)` to the
    global `ok_urls`. The bands are the status-code classes of section 15 of
    RFC 9110: only 200 itself (section 15.3.1) is a success, 3xx
    (section 15.4) a redirect, 4xx (section 15.5) a client error, and every
    other code, like a transport failure, falls into "Other". */
module Tally {
  import opened Seqs

  /** What one GET produced: a status code and the byte length of the body,
      or a transport-level failure (`httpx.RequestError`). */
  datatype Response = Status(code: int, length: nat) | TransportError

  /** The four keys of `status_counts`. */
  datatype Bucket = Ok200 | Redirect | ClientError | Other

  /** One completed request: the URL it was sent to and what came back. */
  datatype Fetch = Fetch(url: string, response: Response)

  /** The classification of `fetch_url`; every response lands in exactly one bucket. */
  function Classify(r: Response): (b: Bucket)
    ensures b == Ok200 <==> r.Status? && r.code == 200
    ensures b == Redirect <==> r.Status? && 300 <= r.code < 400
    ensures b == ClientError <==> r.Status? && 400 <= r.code < 500
    ensures b == Other <==> r.TransportError? || (r.code != 200 && !(300 <= r.code < 500))
  {
    match r
    case TransportError => Other
    case Status(code, _) =>
      if code == 200 then Ok200
      else if 300 <= code < 400 then Redirect
      else if 400 <= code < 500 then ClientError
      else Other
  }

  /** The classification read through the first digit of a status code, as
      RFC 9110 section 15 groups them: 2xx other than 200, 1xx and 5xx all
      count as "Other". */
  lemma ClassifyByStatusClass(code: int, length: nat)
    requires 100 <= code <= 599
    ensures Classify(Status(code, length)) ==
      match code / 100
      case 3 => Redirect
      case 4 => ClientError
      case 2 => if code == 200 then Ok200 else Other
      case _ => Other
  {
  }

  /** The value of the two globals: the four counters and the success list. */
  datatype Tally = Tally(ok: nat, redirect: nat, clientError: nat, other: nat,
                         okUrls: seq<(string, nat)>)

  /** `status_counts` and `ok_urls` as the program starts. */
  const Initial: Tally := Tally(0, 0, 0, 0, [])

  function Count(t: Tally, b: Bucket): nat
  {
    match b
    case Ok200 => t.ok
    case Redirect => t.redirect
    case ClientError => t.clientError
    case Other => t.other
  }

  /** The sum of the four counters. */
  function Total(t: Tally): nat
  {
    Count(t, Ok200) + Count(t, Redirect) + Count(t, ClientError) + Count(t, Other)
  }

  predicate IsOk(f: Fetch)
  {
    Classify(f.response) == Ok200
  }

  /** The row a successful fetch adds to `ok_urls`. */
  function OkEntry(f: Fetch): (string, nat)
  {
    match f.response
    case Status(_, length) => (f.url, length)
    case TransportError => (f.url, 0)
  }

  /** The rows a sequence of fetches adds to `ok_urls`, in order. */
  function OkEntries(fs: seq<Fetch>): seq<(string, nat)>
  {
    Map(OkEntry, Filter(IsOk, fs))
  }

  function BucketOf(f: Fetch): Bucket
  {
    Classify(f.response)
  }

  /** The effect of one `fetch_url` call on the globals: exactly one counter,
      the one for the response's bucket, grows by exactly one; `ok_urls`
      gains `(url, length)` for a 200 and nothing otherwise. */
  function Apply(t: Tally, f: Fetch): (r: Tally)
    ensures Total(r) == Total(t) + 1
    ensures Count(r, Classify(f.response)) == Count(t, Classify(f.response)) + 1
    ensures forall b :: b != Classify(f.response) ==> Count(r, b) == Count(t, b)
    ensures f.response.Status? && f.response.code == 200 ==>
              r.okUrls == t.okUrls + [(f.url, f.response.length)]
    ensures !(f.response.Status? && f.response.code == 200) ==> r.okUrls == t.okUrls
  {
    match Classify(f.response)
    case Ok200 => t.(ok := t.ok + 1, okUrls := t.okUrls + [OkEntry(f)])
    case Redirect => t.(redirect := t.redirect + 1)
    case ClientError => t.(clientError := t.clientError + 1)
    case Other => t.(other := t.other + 1)
  }

  /** The globals after a sequence of `fetch_url` calls, in the order given. */
  function ApplyAll(t: Tally, fs: seq<Fetch>): Tally
    decreases |fs|
  {
    if fs == [] then t else ApplyAll(Apply(t, fs[0]), fs[1..])
  }

  lemma OkEntriesCons(f: Fetch, fs: seq<Fetch>)
    ensures OkEntries([f] + fs) == OkEntries([f]) + OkEntries(fs)
    ensures OkEntries([f]) == if IsOk(f) then [OkEntry(f)] else []
  {
    FilterAppend(IsOk, [f], fs);
    FilterSingle(IsOk, f);
    MapAppend(OkEntry, Filter(IsOk, [f]), Filter(IsOk, fs));
  }

  /** Recording one more fetch after a batch is applying it to the batch's result. */
  lemma {:induction false} ApplyAllSnoc(t: Tally, fs: seq<Fetch>, f: Fetch)
    ensures ApplyAll(t, fs + [f]) == Apply(ApplyAll(t, fs), f)
    decreases |fs|
  {
    if fs == [] {
      assert [f][1..] == [];
    } else {
      assert (fs + [f])[1..] == fs[1..] + [f];
      ApplyAllSnoc(Apply(t, fs[0]), fs[1..], f);
    }
  }

  /** After a sequence of fetches the counter sum has grown by the number
      of fetches. */
  lemma {:induction false} ApplyAllTotal(t: Tally, fs: seq<Fetch>)
    ensures Total(ApplyAll(t, fs)) == Total(t) + |fs|
    decreases |fs|
  {
    if fs != [] {
      ApplyAllTotal(Apply(t, fs[0]), fs[1..]);
    }
  }

  /** After a sequence of fetches each counter has grown by the number of
      fetches in its bucket. */
  lemma {:induction false} ApplyAllCounts(t: Tally, fs: seq<Fetch>, b: Bucket)
    ensures Count(ApplyAll(t, fs), b) == Count(t, b) + multiset(Map(BucketOf, fs))[b]
    decreases |fs|
  {
    if fs != [] {
      var f, rest := fs[0], fs[1..];
      ApplyAllCounts(Apply(t, f), rest, b);
      assert Map(BucketOf, fs) == [BucketOf(f)] + Map(BucketOf, rest);
      assert multiset(Map(BucketOf, fs)) == multiset{BucketOf(f)} + multiset(Map(BucketOf, rest));
    }
  }

  /** After a sequence of fetches `ok_urls` has grown by the successful ones,
      in the order they were recorded. */
  lemma {:induction false} ApplyAllOkUrls(t: Tally, fs: seq<Fetch>)
    ensures ApplyAll(t, fs).okUrls == t.okUrls + OkEntries(fs)
    decreases |fs|
  {
    if fs != [] {
      var f, rest := fs[0], fs[1..];
      ApplyAllOkUrls(Apply(t, f), rest);
      assert fs == [f] + rest;
      OkEntriesCons(f, rest);
    }
  }

  /** The counters after a batch of fetches do not depend on the order in
      which they were recorded, and `ok_urls` holds the same entries in
      every order. */
  lemma ApplyAllOrderIndependent(t: Tally, fs: seq<Fetch>, gs: seq<Fetch>)
    requires multiset(fs) == multiset(gs)
    ensures forall b :: Count(ApplyAll(t, fs), b) == Count(ApplyAll(t, gs), b)
    ensures Total(ApplyAll(t, fs)) == Total(ApplyAll(t, gs))
    ensures multiset(ApplyAll(t, fs).okUrls) == multiset(ApplyAll(t, gs).okUrls)
  {
    MapMultiset(BucketOf, fs, gs);
    forall b
      ensures Count(ApplyAll(t, fs), b) == Count(ApplyAll(t, gs), b)
    {
      ApplyAllCounts(t, fs, b);
      ApplyAllCounts(t, gs, b);
    }
    assert |fs| == |multiset(fs)| == |multiset(gs)| == |gs|;
    ApplyAllTotal(t, fs);
    ApplyAllTotal(t, gs);
    OkUrlsOrderIndependent(t, fs, gs);
  }

  lemma OkUrlsOrderIndependent(t: Tally, fs: seq<Fetch>, gs: seq<Fetch>)
    requires multiset(fs) == multiset(gs)
    ensures multiset(ApplyAll(t, fs).okUrls) == multiset(ApplyAll(t, gs).okUrls)
  {
    ApplyAllOkUrls(t, fs);
    ApplyAllOkUrls(t, gs);
    FilterMultiset(IsOk, fs, gs);
    MapMultiset(OkEntry, Filter(IsOk, fs), Filter(IsOk, gs));
    assert multiset(OkEntries(fs)) == multiset(OkEntries(gs));
  }

  /** `ok_urls` lists exactly the URLs that answered 200, with their body
      lengths: no redirect, error or failure ever appears in it. */
  lemma {:induction false} OkEntriesExactly(fs: seq<Fetch>, url: string, length: nat)
    ensures (url, length) in OkEntries(fs) <==> Fetch(url, Status(200, length)) in fs
  {
    if fs != [] {
      OkEntriesExactly(fs[1..], url, length);
      assert fs == [fs[0]] + fs[1..];
      OkEntriesCons(fs[0], fs[1..]);
    }
  }

  /** The object holding the module globals `status_counts` and `ok_urls`. */
  class StatusTally {
    var ok: nat
    var redirect: nat
    var clientError: nat
    var other: nat
    var okUrls: seq<(string, nat)>

    /** The current value of the globals. */
    function Snapshot(): Tally
      reads this
    {
      Tally(ok, redirect, clientError, other, okUrls)
    }

    /** The globals as the module is loaded: four zero counters, no successes. */
    constructor ()
      ensures Snapshot() == Initial
    {
      ok, redirect, clientError, other := 0, 0, 0, 0;
      okUrls := [];
    }

    /** The bookkeeping half of `fetch_url(client, url)`, given what the
        request produced; returns the bucket the log line is coloured by. */
    method Record(url: string, response: Response) returns (b: Bucket)
      modifies this
      ensures b == Classify(response)
      ensures Snapshot() == Apply(old(Snapshot()), Fetch(url, response))
    {
      match response
      case TransportError =>
        other := other + 1;
        b := Other;
      case Status(code, length) =>
        if code == 200 {
          ok := ok + 1;
          okUrls := okUrls + [(url, length)];
          b := Ok200;
        } else if 300 <= code < 400 {
          redirect := redirect + 1;
          b := Redirect;
        } else if 400 <= code < 500 {
          clientError := clientError + 1;
          b := ClientError;
        } else {
          other := other + 1;
          b := Other;
        }
    }
  }
}
