/** The command-line driver: choose the domains from `-d` / `-D`, then run
    one scan per domain, one after another, against the same globals, which
    are never reset between domains. */
module Driver {
  import opened Wrappers
  import opened Filters
  import opened Tally
  import opened Scan

  /** The parsed flags that the driver consults: `-d`, `-D`, `-l` and `-t`
      (the wordlist path itself is only passed on, so it is not kept). */
  datatype Flags = Flags(domain: Option<string>, domainsList: Option<string>, threads: int)

  /** Python truthiness of an optional string flag: given and non-empty. */
  predicate Given(arg: Option<string>)
  {
    arg.Some? && arg.value != ""
  }

  /** Lines 127-141: the domains to scan, or the exit status when the run
      stops first. A domain list, when given, wins over a single domain. */
  function SelectDomains(flags: Flags, domainsFile: FileRead): (r: Result<seq<string>, nat>)
    ensures r.Err? ==> r.error == 1
    ensures r.Err? <==> (!Given(flags.domain) && !Given(flags.domainsList)) ||
                        (Given(flags.domainsList) && !domainsFile.Lines?)
    ensures r.Ok? && Given(flags.domainsList) ==>
              r.value == DomainLines(domainsFile.lines) && |r.value| == CountWithText(domainsFile.lines)
    ensures r.Ok? && !Given(flags.domainsList) ==> r.value == [flags.domain.value]
  {
    if !Given(flags.domain) && !Given(flags.domainsList) then Err(1)
    else if Given(flags.domainsList) then
      match domainsFile
      case Lines(lines) =>
        Ok(DomainLines(lines))
      case _ => Err(1)
    else Ok([flags.domain.value])
  }

  /** With `-D` given, `-d` plays no part in the choice. */
  lemma DomainListWins(flags: Flags, other: Option<string>, domainsFile: FileRead)
    requires Given(flags.domainsList)
    ensures SelectDomains(flags, domainsFile) == SelectDomains(flags.(domain := other), domainsFile)
  {
  }

  /** The schedules fit the wordlist for every domain. */
  ghost predicate AllFit(schedules: seq<Schedule>, loaded: Loaded)
  {
    forall s | s in schedules :: FitsWordlist(s, loaded)
  }

  /** The globals after scanning the first `n` domains in turn from `t`. */
  ghost function RunEffect(t: Tally, domains: seq<string>, loaded: Loaded, threads: int, schedules: seq<Schedule>, n: nat): Tally
    requires |schedules| == |domains| && n <= |domains|
  {
    if n == 0 then t
    else ScanEffect(RunEffect(t, domains, loaded, threads, schedules, n - 1), domains[n - 1], loaded, threads, schedules[n - 1])
  }

  /** `n` equal steps of `d` after `n - 1` of them and one more. */
  lemma StepSum(start: int, mid: int, end: int, m: nat, n: nat, d: nat)
    requires n == m + 1
    requires mid == start + m * d && end == mid + d
    ensures end == start + n * d
  {
  }

  /** One more scan adds the requests it dispatches to the counter sum. */
  lemma RunTotalStep(t: Tally, domains: seq<string>, loaded: Loaded, threads: int, schedules: seq<Schedule>, m: nat)
    requires |schedules| == |domains| && m < |domains| && AllFit(schedules, loaded)
    ensures Total(RunEffect(t, domains, loaded, threads, schedules, m + 1)) ==
              Total(RunEffect(t, domains, loaded, threads, schedules, m)) + DispatchCount(loaded, threads)
  {
    assert schedules[m] in schedules;
    ScanTotal(RunEffect(t, domains, loaded, threads, schedules, m), domains[m], loaded, threads, schedules[m]);
  }

  /** Nothing is reset between domains: after any number of scans the
      counter sum has grown by the requests of every scan together. */
  lemma {:induction false} RunTotal(t: Tally, domains: seq<string>, loaded: Loaded, threads: int, schedules: seq<Schedule>, n: nat)
    requires |schedules| == |domains| && n <= |domains| && AllFit(schedules, loaded)
    ensures Total(RunEffect(t, domains, loaded, threads, schedules, n)) == Total(t) + n * DispatchCount(loaded, threads)
  {
    if n > 0 {
      var m: nat := n - 1;
      RunTotal(t, domains, loaded, threads, schedules, m);
      RunTotalStep(t, domains, loaded, threads, schedules, m);
      StepSum(Total(t), Total(RunEffect(t, domains, loaded, threads, schedules, m)),
              Total(RunEffect(t, domains, loaded, threads, schedules, n)), m, n, DispatchCount(loaded, threads));
    }
  }

  /** Nothing is reset between domains: `ok_urls` after any number of scans
      still starts with what it held before them. */
  lemma {:induction false} RunKeepsOkUrls(t: Tally, domains: seq<string>, loaded: Loaded, threads: int, schedules: seq<Schedule>, n: nat)
    requires |schedules| == |domains| && n <= |domains| && AllFit(schedules, loaded)
    ensures |t.okUrls| <= |RunEffect(t, domains, loaded, threads, schedules, n).okUrls|
    ensures RunEffect(t, domains, loaded, threads, schedules, n).okUrls[..|t.okUrls|] == t.okUrls
  {
    if n > 0 {
      var before := RunEffect(t, domains, loaded, threads, schedules, n - 1);
      RunKeepsOkUrls(t, domains, loaded, threads, schedules, n - 1);
      assert schedules[n - 1] in schedules;
      ScanAppendsOkUrls(before, domains[n - 1], loaded, threads, schedules[n - 1]);
      var mid, after := before.okUrls, RunEffect(t, domains, loaded, threads, schedules, n).okUrls;
      assert after == ScanEffect(before, domains[n - 1], loaded, threads, schedules[n - 1]).okUrls;
      assert |mid| <= |after| && after[..|mid|] == mid;
      PrefixOfPrefix(t.okUrls, mid, after);
    }
  }

  lemma PrefixOfPrefix<X>(a: seq<X>, b: seq<X>, c: seq<X>)
    requires |a| <= |b| && b[..|a|] == a
    requires |b| <= |c| && c[..|b|] == b
    ensures |a| <= |c| && c[..|a|] == a
  {
    assert c[..|a|] == c[..|b|][..|a|];
  }

  /** What the driver loop reports for the first `n` domains, scanned in
      turn from `t`: each domain's own scan outcome, starting from the
      globals that the scans before it left. */
  ghost function RunOutcomes(t: Tally, domains: seq<string>, loaded: Loaded, threads: int, schedules: seq<Schedule>, n: nat): (r: seq<ScanOutcome>)
    requires |schedules| == |domains| && n <= |domains|
    ensures |r| == n
  {
    if n == 0 then []
    else RunOutcomes(t, domains, loaded, threads, schedules, n - 1) +
         [ExpectedOutcome(RunEffect(t, domains, loaded, threads, schedules, n - 1), domains[n - 1], loaded, threads, schedules[n - 1])]
  }

  /** One more scan reports one more outcome: the next domain's own, on the
      globals the earlier scans left. */
  lemma RunOutcomesSnoc(t: Tally, domains: seq<string>, loaded: Loaded, threads: int, schedules: seq<Schedule>, k: nat,
                        outcomes: seq<ScanOutcome>, outcome: ScanOutcome)
    requires |schedules| == |domains| && k < |domains|
    requires outcomes == RunOutcomes(t, domains, loaded, threads, schedules, k)
    requires outcome == ExpectedOutcome(RunEffect(t, domains, loaded, threads, schedules, k), domains[k], loaded, threads, schedules[k])
    ensures outcomes + [outcome] == RunOutcomes(t, domains, loaded, threads, schedules, k + 1)
  {
  }

  lemma AppendIndex<X>(xs: seq<X>, x: X, i: nat)
    requires i <= |xs|
    ensures (xs + [x])[i] == if i < |xs| then xs[i] else x
  {
  }

  /** The outcomes of `n` scans are those of the first `n - 1` and the last
      domain's own. */
  lemma RunOutcomesLast(t: Tally, domains: seq<string>, loaded: Loaded, threads: int, schedules: seq<Schedule>, m: nat)
    requires |schedules| == |domains| && m < |domains|
    ensures RunOutcomes(t, domains, loaded, threads, schedules, m + 1) ==
              RunOutcomes(t, domains, loaded, threads, schedules, m) +
              [ExpectedOutcome(RunEffect(t, domains, loaded, threads, schedules, m), domains[m], loaded, threads, schedules[m])]
  {
  }

  /** The i-th reported outcome is the i-th domain's own scan, run on the
      globals that the first i scans left. */
  lemma {:induction false} RunOutcomesAt(t: Tally, domains: seq<string>, loaded: Loaded, threads: int, schedules: seq<Schedule>, n: nat, i: nat)
    requires |schedules| == |domains| && i < n <= |domains|
    ensures RunOutcomes(t, domains, loaded, threads, schedules, n)[i] ==
              ExpectedOutcome(RunEffect(t, domains, loaded, threads, schedules, i), domains[i], loaded, threads, schedules[i])
  {
    var m: nat := n - 1;
    RunOutcomesLast(t, domains, loaded, threads, schedules, m);
    AppendIndex(RunOutcomes(t, domains, loaded, threads, schedules, m),
                ExpectedOutcome(RunEffect(t, domains, loaded, threads, schedules, m), domains[m], loaded, threads, schedules[m]), i);
    if i < m {
      RunOutcomesAt(t, domains, loaded, threads, schedules, m, i);
    }
  }

  /** The i-th domain's own outcome is never a refused pool unless the pool
      refuses every scan, and when it is a completed scan its summary is the
      globals after the first i + 1 scans. */
  lemma OutcomeSummary(t: Tally, domains: seq<string>, loaded: Loaded, threads: int, schedules: seq<Schedule>, i: nat)
    requires |schedules| == |domains| && AllFit(schedules, loaded) && i < |domains|
    ensures var o := ExpectedOutcome(RunEffect(t, domains, loaded, threads, schedules, i), domains[i], loaded, threads, schedules[i]);
            (o.Completed? ==> o.summary == RunEffect(t, domains, loaded, threads, schedules, i + 1)) &&
            (o.PoolRejected? <==> loaded.Ok? && threads <= 0)
  {
    assert schedules[i] in schedules;
  }

  /** The i-th reported outcome is never a refused pool unless the pool
      refuses every scan, and when it is a completed scan its summary is
      the globals after the first i + 1 scans: cumulative figures. */
  lemma RunOutcomeSummaryAt(t: Tally, domains: seq<string>, loaded: Loaded, threads: int, schedules: seq<Schedule>, n: nat, i: nat)
    requires |schedules| == |domains| && AllFit(schedules, loaded)
    requires i < n <= |domains|
    ensures var o := RunOutcomes(t, domains, loaded, threads, schedules, n)[i];
            (o.Completed? ==> o.summary == RunEffect(t, domains, loaded, threads, schedules, i + 1)) &&
            (o.PoolRejected? <==> loaded.Ok? && threads <= 0)
  {
    RunOutcomesAt(t, domains, loaded, threads, schedules, n, i);
    OutcomeSummary(t, domains, loaded, threads, schedules, i);
  }

  /** Every reported outcome: cumulative summaries, and a refused pool
      only when the pool refuses every scan. */
  lemma RunOutcomeSummaries(t: Tally, domains: seq<string>, loaded: Loaded, threads: int, schedules: seq<Schedule>, n: nat)
    requires |schedules| == |domains| && AllFit(schedules, loaded)
    requires n <= |domains|
    ensures forall i :: 0 <= i < n ==>
              RunOutcomes(t, domains, loaded, threads, schedules, n)[i].Completed? ==>
                RunOutcomes(t, domains, loaded, threads, schedules, n)[i].summary ==
                  RunEffect(t, domains, loaded, threads, schedules, i + 1)
    ensures forall i :: 0 <= i < n ==>
              (RunOutcomes(t, domains, loaded, threads, schedules, n)[i].PoolRejected? <==> loaded.Ok? && threads <= 0)
  {
    forall i | 0 <= i < n {
      RunOutcomeSummaryAt(t, domains, loaded, threads, schedules, n, i);
    }
  }

  /** A refused first scan is the only outcome reported, and the globals
      stay as they were. */
  lemma RejectedFirst(t: Tally, domains: seq<string>, loaded: Loaded, threads: int, schedules: seq<Schedule>,
                      outcomes: seq<ScanOutcome>)
    requires |schedules| == |domains| && AllFit(schedules, loaded)
    requires 1 <= |domains|
    requires outcomes == RunOutcomes(t, domains, loaded, threads, schedules, 1)
    requires outcomes[0].PoolRejected?
    ensures loaded.Ok? && threads <= 0
    ensures outcomes == [PoolRejected]
    ensures RunEffect(t, domains, loaded, threads, schedules, 1) == RunEffect(t, domains, loaded, threads, schedules, |domains|)
  {
    RunOutcomeSummaryAt(t, domains, loaded, threads, schedules, 1, 0);
    RunUnchangedWhenRejected(t, domains, loaded, threads, schedules, |domains|);
    RunUnchangedWhenRejected(t, domains, loaded, threads, schedules, 1);
  }

  /** The driver loop after its first `k` scans: the globals (`snap`) and
      the outcomes so far are what scanning those domains in turn from `t`
      gives, and the pool has not refused a scan. */
  ghost predicate LoopState(t: Tally, domains: seq<string>, loaded: Loaded, threads: int, schedules: seq<Schedule>,
                            k: nat, snap: Tally, outcomes: seq<ScanOutcome>)
  {
    |schedules| == |domains| && k <= |domains| &&
    snap == RunEffect(t, domains, loaded, threads, schedules, k) &&
    outcomes == RunOutcomes(t, domains, loaded, threads, schedules, k) &&
    (k > 0 ==> !(loaded.Ok? && threads <= 0))
  }

  /** The globals, the outcomes and the exit of the loop after one more
      scan: either the loop goes on, or the pool refused this first scan
      and the run is over with that single outcome and the globals
      untouched. */
  lemma LoopStep(t: Tally, domains: seq<string>, loaded: Loaded, threads: int, schedules: seq<Schedule>,
                 k: nat, before: Tally, outcomes: seq<ScanOutcome>, after: Tally, outcome: ScanOutcome)
    requires LoopState(t, domains, loaded, threads, schedules, k, before, outcomes)
    requires k < |domains| && AllFit(schedules, loaded)
    requires after == ScanEffect(before, domains[k], loaded, threads, schedules[k])
    requires outcome == ExpectedOutcome(before, domains[k], loaded, threads, schedules[k])
    ensures !outcome.PoolRejected? ==> LoopState(t, domains, loaded, threads, schedules, k + 1, after, outcomes + [outcome])
    ensures outcome.PoolRejected? ==>
              loaded.Ok? && threads <= 0 && outcomes + [outcome] == [PoolRejected] &&
              after == RunEffect(t, domains, loaded, threads, schedules, |domains|) &&
              outcomes + [outcome] == RunOutcomes(t, domains, loaded, threads, schedules, 1)
  {
    RunOutcomesSnoc(t, domains, loaded, threads, schedules, k, outcomes, outcome);
    if outcome.PoolRejected? {
      assert schedules[k] in schedules;
      assert k == 0;
      RejectedFirst(t, domains, loaded, threads, schedules, outcomes + [outcome]);
    }
  }

  /** Lines 144-145: `check_directories` once per domain, in order. A
      `ValueError` from the thread pool escapes the loop and ends the run.
      What each domain reports is its own scan's outcome on the globals the
      earlier scans left (`RunOutcomes`); `RunOutcomeSummaries` shows that
      the summary printed after each completed scan holds cumulative
      figures, not the domain's own. */
  method CheckAllDomains(g: StatusTally, domains: seq<string>, file: FileRead, threads: int, schedules: seq<Schedule>)
    returns (outcomes: seq<ScanOutcome>)
    requires |schedules| == |domains| && AllFit(schedules, LoadWordlist(file))
    modifies g
    ensures g.Snapshot() == RunEffect(old(g.Snapshot()), domains, LoadWordlist(file), threads, schedules, |domains|)
    ensures LoadWordlist(file).Ok? && threads <= 0 ==> outcomes == if domains == [] then [] else [PoolRejected]
    ensures !(LoadWordlist(file).Ok? && threads <= 0) ==> |outcomes| == |domains|
    ensures |outcomes| <= |domains|
    ensures outcomes == RunOutcomes(old(g.Snapshot()), domains, LoadWordlist(file), threads, schedules, |outcomes|)
  {
    ghost var t0 := old(g.Snapshot());
    ghost var loaded := LoadWordlist(file);
    outcomes := [];
    var k := 0;
    while k < |domains|
      invariant LoopState(t0, domains, loaded, threads, schedules, k, g.Snapshot(), outcomes)
    {
      assert schedules[k] in schedules;
      ghost var before := g.Snapshot();
      var outcome := CheckDirectories(g, domains[k], file, threads, schedules[k]);
      LoopStep(t0, domains, loaded, threads, schedules, k, before, outcomes, g.Snapshot(), outcome);
      outcomes := outcomes + [outcome];
      if outcome.PoolRejected? {
        break;
      }
      k := k + 1;
    }
    LoopReport(t0, domains, loaded, threads, schedules, k, g.Snapshot(), outcomes);
  }

  /** What the loop has shown when it stops, after every domain or after
      a refused first scan. */
  lemma LoopReport(t: Tally, domains: seq<string>, loaded: Loaded, threads: int, schedules: seq<Schedule>,
                   k: nat, snap: Tally, outcomes: seq<ScanOutcome>)
    requires |schedules| == |domains| && AllFit(schedules, loaded)
    requires (k == |domains| && LoopState(t, domains, loaded, threads, schedules, k, snap, outcomes)) ||
             (1 <= |domains| && loaded.Ok? && threads <= 0 && outcomes == [PoolRejected] &&
              snap == RunEffect(t, domains, loaded, threads, schedules, |domains|) &&
              outcomes == RunOutcomes(t, domains, loaded, threads, schedules, 1))
    ensures snap == RunEffect(t, domains, loaded, threads, schedules, |domains|)
    ensures loaded.Ok? && threads <= 0 ==> outcomes == if domains == [] then [] else [PoolRejected]
    ensures !(loaded.Ok? && threads <= 0) ==> |outcomes| == |domains|
    ensures |outcomes| <= |domains|
    ensures outcomes == RunOutcomes(t, domains, loaded, threads, schedules, |outcomes|)
  {
    if k == |domains| && LoopState(t, domains, loaded, threads, schedules, k, snap, outcomes) {
      if loaded.Ok? && threads <= 0 {
        assert k == 0;
      }
    }
  }

  /** A thread pool that refuses its worker count leaves the globals as
      they were, whatever the domains. */
  lemma {:induction false} RunUnchangedWhenRejected(t: Tally, domains: seq<string>, loaded: Loaded, threads: int, schedules: seq<Schedule>, n: nat)
    requires |schedules| == |domains| && n <= |domains|
    requires threads <= 0
    ensures RunEffect(t, domains, loaded, threads, schedules, n) == t
  {
    if n > 0 {
      RunUnchangedWhenRejected(t, domains, loaded, threads, schedules, n - 1);
    }
  }

  /** The `__main__` block: select the domains, then scan them all. The
      exit status is 1 when no domain source was given or the domain list
      could not be read (before any scan), and when the thread pool refused
      its worker count; it is 0 otherwise. */
  method Run(g: StatusTally, flags: Flags, domainsFile: FileRead, wordlist: FileRead, schedules: seq<Schedule>)
    returns (exitCode: nat, outcomes: seq<ScanOutcome>)
    requires SelectDomains(flags, domainsFile).Ok? ==>
               |schedules| == |SelectDomains(flags, domainsFile).value| && AllFit(schedules, LoadWordlist(wordlist))
    modifies g
    ensures SelectDomains(flags, domainsFile).Err? ==>
              exitCode == 1 && outcomes == [] && g.Snapshot() == old(g.Snapshot())
    ensures SelectDomains(flags, domainsFile).Ok? ==>
              g.Snapshot() == RunEffect(old(g.Snapshot()), SelectDomains(flags, domainsFile).value,
                                        LoadWordlist(wordlist), flags.threads, schedules, |SelectDomains(flags, domainsFile).value|)
    ensures SelectDomains(flags, domainsFile).Ok? ==>
              |outcomes| <= |SelectDomains(flags, domainsFile).value| &&
              outcomes == RunOutcomes(old(g.Snapshot()), SelectDomains(flags, domainsFile).value,
                                      LoadWordlist(wordlist), flags.threads, schedules, |outcomes|)
    ensures SelectDomains(flags, domainsFile).Ok? && !(LoadWordlist(wordlist).Ok? && flags.threads <= 0) ==>
              |outcomes| == |SelectDomains(flags, domainsFile).value|
    ensures SelectDomains(flags, domainsFile).Ok? && LoadWordlist(wordlist).Ok? && flags.threads <= 0 ==>
              outcomes == if SelectDomains(flags, domainsFile).value == [] then [] else [PoolRejected]
    ensures SelectDomains(flags, domainsFile).Ok? ==>
              (exitCode == 1 <==> LoadWordlist(wordlist).Ok? && flags.threads <= 0 &&
                                  SelectDomains(flags, domainsFile).value != [])
    ensures exitCode == 0 || exitCode == 1
  {
    ghost var t0 := g.Snapshot();
    var selected := SelectDomains(flags, domainsFile);
    if selected.Err? {
      return selected.error, [];
    }
    outcomes := CheckAllDomains(g, selected.value, wordlist, flags.threads, schedules);
    RefusalEndsRun(t0, selected.value, LoadWordlist(wordlist), flags.threads, schedules, outcomes);
    exitCode := if |outcomes| > 0 && outcomes[|outcomes| - 1].PoolRejected? then 1 else 0;
  }

  /** The last outcome of a run is a refused pool exactly when the pool
      refuses its worker count and there was a domain to scan. */
  lemma RefusalEndsRun(t: Tally, domains: seq<string>, loaded: Loaded, threads: int, schedules: seq<Schedule>,
                       outcomes: seq<ScanOutcome>)
    requires |schedules| == |domains| && AllFit(schedules, loaded)
    requires |outcomes| <= |domains|
    requires outcomes == RunOutcomes(t, domains, loaded, threads, schedules, |outcomes|)
    requires loaded.Ok? && threads <= 0 ==> outcomes == if domains == [] then [] else [PoolRejected]
    requires !(loaded.Ok? && threads <= 0) ==> |outcomes| == |domains|
    ensures (|outcomes| > 0 && outcomes[|outcomes| - 1].PoolRejected?) <==> loaded.Ok? && threads <= 0 && domains != []
  {
    if |outcomes| > 0 {
      RunOutcomeSummaryAt(t, domains, loaded, threads, schedules, |outcomes|, |outcomes| - 1);
    }
  }

}
