# Web directory inspector: verified model of the scan bookkeeping

`quickhttpx.py` brute-forces web directories. It normalises a domain. It
reads a wordlist of path segments and requests `domain/segment` for each
segment from a thread pool. Each response goes into one of four buckets:
"200 OK", "300 Redirect", "400 Error" or "Other". The script prints a
summary table per domain. This project models the deterministic
bookkeeping of that workflow in Dafny and proves its properties:

- `pystr.dfy` (module `PyStr`): the Python string operations the script
  uses. These are `startswith`, plus `strip`, `lstrip` and `rstrip`, with
  `str.isspace()`'s set of whitespace characters.
- `domains.dfy` (module `Domains`): `format_domain` and the trailing-slash
  strip applied right after it.
- `filters.dfy` (module `Filters`): the wordlist comprehension at line 71
  and the domain-list comprehension at line 136. Each is a `Map` over a
  `Filter`.
- `tally.dfy` (module `Tally`): the classification done by `fetch_url` and
  its effect on the globals `status_counts` and `ok_urls`. The value
  `Tally` and the function `Apply` specify that effect. The class
  `StatusTally` holds the globals, and its `Record` method updates them in
  place.
- `scan.dfy` (module `Scan`): `check_directories`. It covers the three
  early aborts, the dispatch of one URL per segment, the worker bookkeeping
  and the collector loop over `as_completed` with its ordinal counter.
- `driver.dfy` (module `Driver`): choosing the domains from `-d`/`-D`, the
  loop that scans each domain against the same globals, and the exit
  status.
- `seqs.dfy` and `wrappers.dfy`: generic sequence lemmas and the
  `Option`/`Result` types.

The HTTP exchange is an input. Each request's outcome is a
`Response`: either `Status(code, length)` or `TransportError`. Thread
scheduling is an input too, given as two arbitrary permutations of the
dispatched requests. `recordOrder` is the order in which the workers run
`fetch_url`'s bookkeeping. `completionOrder` is the order in which
`as_completed` delivers the finished requests. Every property is proved
for every pair of orders.

The status bands follow the status-code classes of RFC 9110. Only 200
(section 15.3.1) counts as success. 3xx (section 15.4) is a redirect and
4xx (section 15.5) a client error. Every other code, including other 2xx,
1xx and 5xx, counts as "Other", and so does a transport failure.

Behaviour of the code that the model keeps as written:

- When both `-d` and `-D` are given, the code uses the domain list
  (line 133) and ignores `-d`.
- `fetch_url` updates `status_counts` and `ok_urls` itself (lines 24-38),
  inside the worker threads. That is why the model has a separate
  `recordOrder`.
- The counters and the success list are module globals that are never reset
  (lines 12-18). The summary printed after each domain is cumulative. The
  model keeps this behaviour (`Driver.CheckAllDomains`, `Driver.RunTotal`)
  and does not fix it.
- `ThreadPoolExecutor` raises `ValueError` when `-t` is 0 or negative. The
  pool is created after the wordlist has loaded (line 84). This exception
  is not caught, so it ends the whole run with exit status 1. The model
  represents it as the `PoolRejected` outcome.
- An empty `-d ""` is falsy in Python and counts as not given. The same
  holds for `-D ""`.

## Model

| member | source | states |
|---|---|---|
| `PyStr.LStrip` | quickhttpx.py:71 | `lstrip('/')` drops the longest prefix made only of characters of the set. The result is a suffix of the input, everything dropped is in the set, and the result is empty or starts outside the set. |
| `PyStr.RStrip` | quickhttpx.py:51 | `rstrip('/')` drops the longest suffix made only of characters of the set. The result is a prefix of the input, everything dropped is in the set, and the result is empty or ends outside the set. |
| `PyStr.Strip` | quickhttpx.py:71 | `strip()` returns a middle slice of the input. Everything cut off on either side is whitespace, and the slice neither starts nor ends with whitespace. The result is empty exactly when the input is all whitespace. |
| `PyStr.LStripUnique` | quickhttpx.py:71 | The characterisation of `lstrip` determines its result uniquely. |
| `PyStr.RStripUnique` | quickhttpx.py:51 | The characterisation of `rstrip` determines its result uniquely. |
| `PyStr.RStripAppend` | quickhttpx.py:51 | Stripping the end of `a + h` leaves `a` untouched when `h` contains a character outside the set. |
| `Domains.HasScheme` | quickhttpx.py:42 | The `startswith(('http://', 'https://'))` test: the string starts with one of the two recognised schemes. |
| `Domains.FormatDomain` | quickhttpx.py:41-44 | The result always starts with `http://` or `https://`. Input that already has either scheme is returned unchanged. Any other input gets `https://` prepended. |
| `Domains.FormatDomainIdempotent` | quickhttpx.py:41-44 | Formatting twice gives the same result as formatting once. |
| `Domains.Host` | quickhttpx.py:41-44 | The formatted domain is the scheme followed by the host part. |
| `Domains.NormalizeDomain` | quickhttpx.py:48-51 | The scan's domain never ends in `/`. It has at least the 5 characters of `http:`. It is the formatted domain with a run of trailing slashes cut off. |
| `Domains.SchemeKept` | quickhttpx.py:48-51 | When a character other than `/` follows the scheme, the scheme survives and only the host's trailing slashes are removed. |
| `Domains.SchemeLost` | quickhttpx.py:48-51 | When only slashes follow the scheme, the result collapses to `https:` or `http:`, which has no scheme. |
| `Domains.SchemeKeptIff` | quickhttpx.py:48-51 | The normalised domain keeps a scheme exactly when its host contains a character other than `/`. |
| `Domains.NormalizeIdempotent` | quickhttpx.py:48-51 | Normalising again changes nothing once the scheme has survived. |
| `Domains.NormalizeBareHost` | quickhttpx.py:41-51 | `example.com` becomes `https://example.com`. |
| `Domains.NormalizeTrailingSlash` | quickhttpx.py:41-51 | `http://example.com/` becomes `http://example.com`. |
| `Domains.NormalizeSlashOnly` | quickhttpx.py:41-51 | `/` becomes `https:`. |
| `Filters.SegmentOf` | quickhttpx.py:71 | `dir.strip().lstrip('/')` for one line. The segment is empty, or it neither starts with `/` nor ends in whitespace. |
| `Filters.WordlistSegments` | quickhttpx.py:71 | The wordlist comprehension: `SegmentOf` of each line that passes `if dir.strip()`, in file order. It gives one segment per line with text. |
| `Filters.DomainLines` | quickhttpx.py:136 | The domain-list comprehension: `strip()` of each line with text, in file order. It gives one domain per line with text. |
| `Filters.NonBlank` | quickhttpx.py:71 | The filter `if dir.strip()` (and `if line.strip()` at line 136): the stripped line is non-empty. |
| `Filters.NonBlankIffHasText` | quickhttpx.py:71 | The filter `if dir.strip()` keeps exactly the lines that contain a non-whitespace character. |
| `Filters.NonBlankCount` | quickhttpx.py:71 | The filter keeps as many lines as contain a non-whitespace character. |
| `Filters.WordlistSegmentsAppend` | quickhttpx.py:71 | The wordlist filter works line by line. Filtering a concatenation gives the concatenation of the filtered parts, so order is kept. |
| `Filters.WordlistSegmentsOfLine` | quickhttpx.py:71 | A single line gives one segment, `line.strip().lstrip('/')`, when it has text. Otherwise it gives none. |
| `Filters.WordlistSegmentsShape` | quickhttpx.py:71 | No loaded segment starts with `/` or ends in whitespace. |
| `Filters.AdminExample` | quickhttpx.py:71 | The line `  /admin/ ` gives the segment `admin/`. |
| `Filters.SlashLineExample` | quickhttpx.py:71 | A line of slashes survives as an empty segment. |
| `Filters.DomainLinesAppend` | quickhttpx.py:136 | The domain-list filter works line by line and keeps order. |
| `Filters.DomainLinesOfLine` | quickhttpx.py:136 | A single line gives its stripped text when it has text. Otherwise it gives nothing. |
| `Filters.DomainLinesShape` | quickhttpx.py:136 | Each loaded domain is non-empty and has no surrounding whitespace. |
| `Tally.Classify` | quickhttpx.py:24-38 | Every response lands in exactly one bucket. 200 goes to OK, 300..399 to Redirect, 400..499 to ClientError. Everything else, including a transport error, goes to Other. |
| `Tally.ClassifyByStatusClass` | quickhttpx.py:24-36 | The same classification by the first digit of a status code (RFC 9110 section 15). A 2xx other than 200, and any 1xx or 5xx, is Other. |
| `Tally.Apply` | quickhttpx.py:20-39 | One `fetch_url` call raises exactly one counter, the one for its bucket, by exactly 1, so the counter sum grows by 1. `ok_urls` gains `(url, length)` for a 200 and is unchanged for any other response. |
| `Tally.ApplyAll` | quickhttpx.py:20-39 | The specification of a batch of `fetch_url` calls: `Apply` folded over the fetches in the order they are recorded. Its properties are in the `ApplyAll*` lemmas. |
| `Tally.ApplyAllSnoc` | quickhttpx.py:20-39 | Recording one more fetch after a batch is the same as applying it to the batch's result. |
| `Tally.ApplyAllTotal` | quickhttpx.py:24-38 | After any sequence of fetches, the counter sum has grown by the number of fetches. |
| `Tally.ApplyAllCounts` | quickhttpx.py:24-38 | Each counter grows by the number of fetches in its bucket. |
| `Tally.ApplyAllOkUrls` | quickhttpx.py:24-26 | `ok_urls` grows by the successful fetches, in the order they were recorded. |
| `Tally.OkEntriesExactly` | quickhttpx.py:24-26 | `(url, n)` is added to `ok_urls` exactly when some fetch of `url` answered 200 with a body of `n` bytes. Redirects, errors and failures never appear. |
| `Tally.ApplyAllOrderIndependent` | quickhttpx.py:84-94 | The counters, the counter sum and the multiset of `ok_urls` do not depend on the order in which the fetches were recorded. |
| `Tally.OkUrlsOrderIndependent` | quickhttpx.py:24-26 | `ok_urls` ends with the same entries, in some order, whatever the recording order. |
| `Tally.StatusTally.constructor` | quickhttpx.py:12-18 | The globals start as four zero counters and an empty success list. |
| `Tally.StatusTally.Record` | quickhttpx.py:20-39 | The in-place update of the globals is `Apply` of the old state. It returns the bucket of the response. |
| `Scan.LoadWordlist` | quickhttpx.py:57-76 | A missing file gives FileNotFound and an unreadable file gives ReadFailed. A file without a line of text gives NoDirectories. Otherwise the segments are loaded; this succeeds exactly when some line has text. The number of segments equals the number of lines with text. |
| `Scan.TargetUrl` | quickhttpx.py:85 | The URL `f"{domain}/{directory}"` of one request. |
| `Scan.TargetUrlInjective` | quickhttpx.py:85 | On one domain, two segments give the same URL exactly when they are equal. |
| `Scan.Dispatched` | quickhttpx.py:85 | The submit comprehension: one request per segment, in wordlist order. The i-th request is for `domain/segments[i]` and gets the i-th response. |
| `Scan.ScanEffect` | quickhttpx.py:46-94 | The specification of one `check_directories` call on the globals. It leaves them unchanged on an abort or a pool rejection. Otherwise it applies every dispatched request in recording order. |
| `Scan.Recorded` | quickhttpx.py:84-85 | The requests as the workers record them are a rearrangement of the dispatched requests. |
| `Scan.DispatchedOk` | quickhttpx.py:85 | A dispatched request answered 200 with length `n` exactly when the request for some segment `domain/segment` got that response. |
| `Scan.ScanTotal` | quickhttpx.py:84-94 | One scan raises the counter sum by exactly `DispatchCount`: the number of segments when the wordlist loads and the pool accepts its worker count, 0 otherwise. |
| `Scan.DispatchCountLines` | quickhttpx.py:58-85 | A scan dispatches one request per wordlist line with text, and none when the file is missing or unreadable or the thread count is not positive. |
| `Scan.ScanOrderIndependent` | quickhttpx.py:84-94 | The counters after a scan, and the multiset of `ok_urls`, are the same for every recording order. |
| `Scan.ScanAppendsOkUrls` | quickhttpx.py:24-26 | A scan only appends to `ok_urls`. It appends the successes in recording order, or nothing when it aborts. |
| `Scan.ScanOkUrls` | quickhttpx.py:24-26 | The entries a scan appends are exactly the target URLs that answered 200, with their body lengths. |
| `Scan.RunWorkers` | quickhttpx.py:84-85 | The workers' bookkeeping takes the globals from `t` to `ApplyAll(t, requests in recordOrder)`. |
| `Scan.RowsUpTo` | quickhttpx.py:87-93 | The specification of the first n rows of `table_data`: the j-th result to complete becomes row j + 1, naming its segment and its fetch. There are exactly n rows. |
| `Scan.CollectedRows` | quickhttpx.py:87-93 | The specification of the whole `table_data`: one row per dispatched request. |
| `Scan.Collect` | quickhttpx.py:87-94 | The collector produces one row per dispatched request, in completion order. The ordinals run 1..N, and each row names its segment, its URL `domain/segment` and the response it got. |
| `Scan.RowsCoverDispatch` | quickhttpx.py:85-93 | The collected rows cover every dispatched request exactly once. |
| `Scan.RowsUpToAt` | quickhttpx.py:87-93 | The j-th row the collector produces is numbered j + 1 and names the request that completed j-th, with its URL and response. |
| `Scan.CollectedRowsInOrder` | quickhttpx.py:87-93 | All the collected rows together follow the completion order (`RowsInCompletionOrder`). |
| `Scan.ExpectedOutcome` | quickhttpx.py:57-113 | The specification of what one `check_directories` call reports on globals `t`. A failing wordlist gives its abort reason. A loaded wordlist with a non-positive thread count gives the pool's `ValueError`. Otherwise the call gives the collected rows and the summary of the globals after the scan. |
| `Scan.CheckDirectories` | quickhttpx.py:46-113 | An abort (missing, unreadable or empty wordlist) returns the reason and leaves the globals unchanged. A non-positive thread count is rejected by the pool. Otherwise the globals become `ScanEffect` of the old ones, the rows follow the completion order, and the summary is the globals after the scan. The outcome is `ExpectedOutcome` of the old globals. |
| `Driver.SelectDomains` | quickhttpx.py:127-141 | With neither `-d` nor `-D`, or with an unreadable `-D` file, the run exits with status 1. With `-D`, the domains are the stripped non-blank lines of the file. Otherwise the domain is the single `-d` value. |
| `Driver.DomainListWins` | quickhttpx.py:133-141 | With `-D` given, the value of `-d` has no effect. |
| `Driver.RunEffect` | quickhttpx.py:144-145 | The specification of the driver loop on the globals: `ScanEffect` of each domain in turn, starting from the state the previous scan left. |
| `Driver.RunTotalStep` | quickhttpx.py:144-145 | One more domain raises the counter sum by the requests its scan dispatches. |
| `Driver.RunTotal` | quickhttpx.py:144-145 | The counters are never reset. After any number of domains, the counter sum has grown by the number of domains times the requests per scan. |
| `Driver.RunKeepsOkUrls` | quickhttpx.py:144-145 | `ok_urls` is never cleared. After any number of domains, it still starts with what it held before. |
| `Driver.RunUnchangedWhenRejected` | quickhttpx.py:84 | With a non-positive thread count, no scan changes the globals. |
| `Driver.RunOutcomes` | quickhttpx.py:144-145 | The specification of what the loop reports: one outcome per domain scanned, each `ExpectedOutcome` of that domain on the globals the earlier scans left. |
| `Driver.RunOutcomesSnoc` | quickhttpx.py:144-145 | One more scan reports one more outcome: the next domain's own, on the globals the earlier scans left. |
| `Driver.RunOutcomesLast` | quickhttpx.py:144-145 | The outcomes of m + 1 scans are those of the first m followed by the last domain's own. |
| `Driver.RunOutcomesAt` | quickhttpx.py:144-145 | The i-th reported outcome is the i-th domain's own scan outcome, on the globals that the first i scans left. |
| `Driver.OutcomeSummary` | quickhttpx.py:84-107 | A domain's own outcome is a pool rejection exactly when the wordlist loads and the thread count is not positive. When it completes, its summary is the globals after that scan. |
| `Driver.RunOutcomeSummaryAt` | quickhttpx.py:100-107 | The summary printed after the i-th completed scan is the globals after scans 1..i + 1: cumulative figures, not the domain's own. |
| `Driver.RunOutcomeSummaries` | quickhttpx.py:100-107 | The same for every reported outcome. No outcome is a pool rejection unless the pool refuses every scan. |
| `Driver.RejectedFirst` | quickhttpx.py:84 | When the first scan is refused by the pool, that is the only outcome and the globals stay as they were. |
| `Driver.LoopStep` | quickhttpx.py:144-145 | One iteration of the loop keeps `LoopState`: the globals and outcomes after k + 1 scans are those of scanning the first k + 1 domains. On a pool rejection, which can only happen at the first domain, the run ends with the single outcome `PoolRejected`. |
| `Driver.LoopReport` | quickhttpx.py:144-145 | When the loop stops, after every domain or after a refused first scan, the globals are those after all the domains and the outcomes are `RunOutcomes` of the scans made. |
| `Driver.CheckAllDomains` | quickhttpx.py:143-145 | The domains are scanned in order against the same globals, and the globals end as `RunEffect` of all the domains. The outcomes are `RunOutcomes`: each is that domain's own scan outcome on the globals the earlier scans left. A pool rejection stops the loop at the first domain with the single outcome `PoolRejected`; otherwise there is one outcome per domain. |
| `Driver.Run` | quickhttpx.py:126-145 | The exit status is 1 before any scan when no domain source is usable. It is 1 when the pool rejects the thread count, and 0 otherwise. The globals end as `RunEffect` of the selected domains, and the outcomes are `RunOutcomes` of them: one per selected domain, or `[PoolRejected]` (`[]` with no domain) when the pool rejects. |
| `Driver.RefusalEndsRun` | quickhttpx.py:144-145 | The last outcome of a run is a pool rejection exactly when the pool refuses its worker count and there was a domain to scan. |

## Left out

- HTTP: `httpx.Client`, `client.get`, reading `response.content` and closing the client. Each request's outcome is an input `Response`: status and body length, or a transport error. Timeouts, redirect handling (httpx does not follow redirects by default, so 3xx codes reach the classifier) and TLS are the client's business.
- Exceptions from `client.get` that are not `httpx.RequestError` (for example `httpx.InvalidURL` for a malformed URL). `future.result()` would re-raise them in the collector and end the run. They are not modelled.
- Thread scheduling: the pool size bound, and interleaving inside `fetch_url`. The orders of recording and of completion are arbitrary permutations given as input.
- Lost updates: the code runs `status_counts[...] += 1` from the worker threads without a lock. The model treats each increment and each `append` to `ok_urls` as atomic. `Tally.ApplyAllTotal`, `Tally.ApplyAllCounts`, `Scan.ScanTotal` and `Driver.RunTotal` hold only under that assumption. A lost update from a racing read-modify-write would make the printed counts smaller.
- File-system access: `os.path.isfile`, `open`, `readlines` and text decoding. A file is `Missing`, `Unreadable` or its list of lines. The wordlist is re-read for each domain; the model gives every domain the same contents.
- Output: the coloured log lines, the header lines, and the two `tabulate` tables. The log line of a row is represented by its `Fetch`. The printed summary is the `Tally` value the scan returns. The success table is printed only when non-empty; that is cosmetic and is not modelled.
- Argument parsing by argparse, including the required `-l` and the integer parsing of `-t`. `Flags` holds the values after parsing.
- `table_data` is built and never printed. The model returns it as the rows of the outcome.
