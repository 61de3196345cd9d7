/**
 * The gainer scanner: for each ticker, fetch the lookback window of daily
 * bars and run the max-gain detector; collect the tickers that qualify,
 * either one after another or through the batch executor, and order them
 * by gain, largest first.
 */
module Scanner {
  import opened Common
  import opened Dates
  import opened Frames
  import opened Results
  import opened Sorting
  import Calculations
  import Parallel

  /** The scan settings the scanner reads: the lookback in years and the gain threshold in percent. */
  datatype ScanConfig = ScanConfig(lookbackYears: int, minGainPct: real)

  /** `data_provider.get_historical_df(ticker, start, end)`: a frame, no frame, or an exception. */
  type Fetcher = (string, Date, Date) -> Attempt<Option<seq<Bar>>>

  /** What `scan_single` gives one ticker, as the executor sees it. */
  type Outcome = Parallel.TaskResult<string, Option<ScanResult>>

  /** `_get_date_range`: from `lookback_years * 365` days before today up to today. */
  function DateRange(today: Date, lookbackYears: int): (r: (Date, Date))
    requires Valid(today)
    ensures r.1 == today && Valid(r.0)
    ensures Ordinal(r.1) - Ordinal(r.0) == lookbackYears * 365
  {
    OrdinalPlusDays(today, -(lookbackYears * 365));
    (PlusDays(today, -(lookbackYears * 365)), today)
  }

  /**
   * `scan_single(ticker)`. A start before year 1 makes the date arithmetic
   * raise; an exception of the provider propagates; no frame or an empty one
   * gives `None`; otherwise the detector decides.
   */
  function ScanSingle(fetch: Fetcher, cfg: ScanConfig, today: Date, ticker: string): (r: Attempt<Option<ScanResult>>)
    requires InRange(today)
    ensures var (start, end) := DateRange(today, cfg.lookbackYears);
      (r.Raised? <==> !InRange(start) || fetch(ticker, start, end).Raised?)
      && (InRange(start) && fetch(ticker, start, end).Ok? ==>
            var df := fetch(ticker, start, end).value;
            r == Ok(if df.None? || df.value == [] then None
                    else Calculations.MaxGain(ticker, df.value, true, cfg.minGainPct)))
  {
    var (start, end) := DateRange(today, cfg.lookbackYears);
    if !InRange(start) then Raised("date value out of range")
    else
      match fetch(ticker, start, end)
      case Raised(e) => Raised(e)
      case Ok(df) =>
        if df.None? || df.value == [] then Ok(None)
        else Ok(Calculations.MaxGain(ticker, df.value, true, cfg.minGainPct))
  }

  /** A result of `scan_single` names its ticker and meets the gain threshold. */
  lemma ScanSingleFound(fetch: Fetcher, cfg: ScanConfig, today: Date, ticker: string)
    requires InRange(today)
    requires var r := ScanSingle(fetch, cfg, today, ticker); r.Ok? && r.value.Some?
    ensures var res := ScanSingle(fetch, cfg, today, ticker).value.value;
      res.ticker == ticker && res.gainPct >= cfg.minGainPct && res.gainPct > 0.0
      && res.daysToPeak > 0 && res.lowPrice > 0.0
  {
    var (start, end) := DateRange(today, cfg.lookbackYears);
    var df := fetch(ticker, start, end).value.value;
    Calculations.MaxGainResult(ticker, df, true, cfg.minGainPct);
    Calculations.ClosesResult(ticker, CloseSeries(df), cfg.minGainPct);
  }

  /** `scan_single` as the function handed to the executor. */
  function ScanFn(fetch: Fetcher, cfg: ScanConfig, today: Date): string -> Attempt<Option<ScanResult>>
    requires InRange(today)
  {
    t => ScanSingle(fetch, cfg, today, t)
  }

  /** The result an outcome contributes to the result list: one when the scan succeeded and found one. */
  function FoundIn(o: Outcome): seq<ScanResult>
  {
    if o.success && o.result.Some? && o.result.value.Some? then [o.result.value.value] else []
  }

  /** The ticker an outcome contributes to the error list: its own when the scan raised. */
  function ErrorIn(o: Outcome): seq<string>
  {
    if !o.success then [o.item] else []
  }

  /** The results found, in the order the outcomes arrive. */
  function Found(os: seq<Outcome>): seq<ScanResult>
  {
    Gather(os, FoundIn)
  }

  /** The tickers that raised, in the order the outcomes arrive. */
  function Errors(os: seq<Outcome>): seq<string>
  {
    Gather(os, ErrorIn)
  }

  /**
   * The caller's `on_result`: whether one is given, and for which results
   * the call raises (the one caller in the program writes each result to a
   * database, which can fail).
   */
  datatype Callback = Callback(given: bool, raises: ScanResult -> bool)

  /** The error escaping a parallel scan when `on_result` raises. */
  const CallbackError: string := "on_result raised"

  /** The outcome carries a found result that `on_result` is called on and raises for. */
  predicate CallbackFails(cb: Callback, o: Outcome)
  {
    cb.given && o.success && o.result.Some? && o.result.value.Some? && cb.raises(o.result.value.value)
  }

  /**
   * The ticker an outcome contributes to the sequential error list: the
   * `try` around `scan_single` and `on_result` catches a failure of either.
   */
  function SequentialErrorIn(cb: Callback): Outcome -> seq<string>
  {
    (o: Outcome) => if !o.success || CallbackFails(cb, o) then [o.item] else []
  }

  /** Some outcome's callback raises. */
  predicate AnyFails(cb: Callback, os: seq<Outcome>)
  {
    exists o :: o in os && CallbackFails(cb, o)
  }

  /** The outcomes handed to the collecting callback before one of them makes `on_result` raise. */
  function Seen(cb: Callback, os: seq<Outcome>): (r: seq<Outcome>)
    ensures r <= os
  {
    if os == [] then []
    else if CallbackFails(cb, os[0]) then [os[0]]
    else [os[0]] + Seen(cb, os[1..])
  }

  /**
   * `_scan_sequential`: scan the tickers in order; a found result is kept
   * and handed to `on_result` (when one is given); a ticker whose scan or
   * callback raises is recorded as an error, and the scan goes on.
   */
  method ScanSequential(fetch: Fetcher, cfg: ScanConfig, today: Date, tickers: seq<string>, cb: Callback)
    returns (results: seq<ScanResult>, errors: seq<string>, reported: seq<ScanResult>)
    requires InRange(today)
    ensures var outcomes := Parallel.AllResults(ScanFn(fetch, cfg, today), tickers);
      results == Found(outcomes) && errors == Gather(outcomes, SequentialErrorIn(cb))
    ensures reported == if cb.given then results else []
  {
    ghost var outcomes := Parallel.AllResults(ScanFn(fetch, cfg, today), tickers);
    results, errors, reported := [], [], [];
    for i := 0 to |tickers|
      invariant results == Found(outcomes[..i]) && errors == Gather(outcomes[..i], SequentialErrorIn(cb))
      invariant reported == if cb.given then results else []
    {
      assert outcomes[..i + 1] == outcomes[..i] + [outcomes[i]];
      GatherAppend(outcomes[..i], [outcomes[i]], FoundIn);
      GatherAppend(outcomes[..i], [outcomes[i]], SequentialErrorIn(cb));
      assert [outcomes[i]][..0] == [];
      match ScanSingle(fetch, cfg, today, tickers[i])
      case Ok(result) =>
        if result.Some? {
          results := results + [result.value];
          if cb.given {
            reported := reported + [result.value];
            if cb.raises(result.value) {
              errors := errors + [tickers[i]];
            }
          }
        }
      case Raised(_) =>
        errors := errors + [tickers[i]];
    }
    assert outcomes[..|tickers|] == outcomes;
  }

  /**
   * `_scan_parallel`: the executor runs `scan_single` on every ticker and
   * hands each task result to the collecting callback as the tasks complete
   * in `order`; the callback keeps found results (handing them on to
   * `on_result`) and records the tickers whose task failed. The executor
   * does not guard its callbacks, so when `on_result` raises, the error
   * escapes the executor and the scan (`raised`) after the results seen so
   * far were handed over.
   */
  method ScanParallel(fetch: Fetcher, cfg: ScanConfig, today: Date, tickers: seq<string>, order: seq<nat>,
                      showProgress: bool, cb: Callback)
    returns (results: seq<ScanResult>, errors: seq<string>, reported: seq<ScanResult>, raised: bool)
    requires InRange(today) && Parallel.IsCompletionOrder(order, |tickers|)
    ensures var done := Parallel.Completed(ScanFn(fetch, cfg, today), tickers, order, |order|);
      var seen := Seen(cb, done);
      results == Found(seen) && errors == Errors(seen)
      && (raised <==> AnyFails(cb, done))
      && (!raised ==> seen == done)
    ensures reported == if cb.given then results else []
  {
    var scan := ScanFn(fetch, cfg, today);
    var _, events := Parallel.Execute(scan, tickers, order, true, showProgress);
    Parallel.ReportedInCompletionOrder(scan, tickers, order, |order|, showProgress);
    results, errors, reported, raised := [], [], [], false;
    var k := 0;
    ghost var seen: seq<Outcome> := [];
    while k < |events| && !raised
      invariant 0 <= k <= |events| && seen == Parallel.Reported(events[..k])
      invariant results == Found(seen) && errors == Errors(seen)
      invariant reported == if cb.given then results else []
      invariant Seen(cb, seen) == seen && (raised <==> AnyFails(cb, seen))
    {
      assert events[..k + 1] == events[..k] + [events[k]];
      CollectStep(events[..k], events[k]);
      var t := if events[k].OnResult? then [events[k].task] else [];
      SeenStep(cb, seen, t);
      var found, failed := Collect(events[k]);
      results, errors := results + found, errors + failed;
      if cb.given {
        reported := reported + found;
      }
      raised := events[k].OnResult? && CallbackFails(cb, events[k].task);
      seen := seen + t;
      k := k + 1;
    }
    Parallel.ReportedAppend(events[..k], events[k..]);
    assert events[..k] + events[k..] == events;
    SeenAppend(cb, seen, Parallel.Reported(events[k..]));
    if !raised {
      assert events[..k] == events;
    }
  }

  /** The collecting callback on one executor event: the result it keeps and the ticker it records. */
  method Collect(e: Parallel.Event<string, Option<ScanResult>>) returns (found: seq<ScanResult>, failed: seq<string>)
    ensures found == (if e.OnResult? then FoundIn(e.task) else [])
    ensures failed == (if e.OnResult? then ErrorIn(e.task) else [])
  {
    found, failed := [], [];
    if e.OnResult? {
      var tr := e.task;
      if tr.success && tr.result.Some? && tr.result.value.Some? {
        found := [tr.result.value.value];
      } else if !tr.success {
        failed := [tr.item];
      }
    }
  }

  /** One more task result after a prefix in which no callback raised. */
  lemma SeenStep(cb: Callback, p: seq<Outcome>, t: seq<Outcome>)
    requires |t| <= 1 && Seen(cb, p) == p && !AnyFails(cb, p)
    ensures Seen(cb, p + t) == p + t
    ensures AnyFails(cb, p + t) <==> (t != [] && CallbackFails(cb, t[0]))
  {
    SeenAppend(cb, p, t);
    if t != [] {
      assert Seen(cb, t) == t;
    }
  }

  /** Where the callback first raises, the rest of the outcomes are never seen. */
  lemma {:induction false} SeenAppend(cb: Callback, p: seq<Outcome>, q: seq<Outcome>)
    ensures AnyFails(cb, p) ==> Seen(cb, p + q) == Seen(cb, p) && AnyFails(cb, p + q)
    ensures !AnyFails(cb, p) ==> Seen(cb, p + q) == p + Seen(cb, q) && (AnyFails(cb, p + q) <==> AnyFails(cb, q))
  {
    if p != [] {
      assert (p + q)[0] == p[0] && (p + q)[1..] == p[1..] + q;
      SeenAppend(cb, p[1..], q);
      assert forall o :: o in p <==> o == p[0] || o in p[1..];
      assert forall o :: o in p + q <==> o in p || o in q;
      assert forall o :: o in p[1..] + q <==> o in p[1..] || o in q;
    } else {
      assert p + q == q;
    }
  }

  /** What the collecting callback adds for one more executor event. */
  lemma CollectStep(prefix: seq<Parallel.Event<string, Option<ScanResult>>>, e: Parallel.Event<string, Option<ScanResult>>)
    ensures Found(Parallel.Reported(prefix + [e])) ==
      Found(Parallel.Reported(prefix)) + (if e.OnResult? then FoundIn(e.task) else [])
    ensures Errors(Parallel.Reported(prefix + [e])) ==
      Errors(Parallel.Reported(prefix)) + (if e.OnResult? then ErrorIn(e.task) else [])
  {
    Parallel.ReportedAppend(prefix, [e]);
    assert [e][..0] == [];
    if e.OnResult? {
      GatherAppend(Parallel.Reported(prefix), [e.task], FoundIn);
      GatherAppend(Parallel.Reported(prefix), [e.task], ErrorIn);
      assert [e.task][..0] == [];
    } else {
      assert Parallel.Reported(prefix + [e]) == Parallel.Reported(prefix);
    }
  }

  /** `reverse=True` on `gain_pct`: a stable sort on the negated gain. */
  function DescendingGain(r: ScanResult): real
  {
    -r.gainPct
  }

  /**
   * `scan(tickers)`: collect through the executor when parallelism is on,
   * sequentially otherwise, then sort by gain, largest first, keeping the
   * collection order among equal gains. An `on_result` error that escapes
   * the executor escapes the scan too.
   */
  method Scan(fetch: Fetcher, cfg: ScanConfig, today: Date, tickers: seq<string>, parallel: bool,
              order: seq<nat>, showProgress: bool, cb: Callback)
    returns (results: Attempt<seq<ScanResult>>, reported: seq<ScanResult>)
    requires InRange(today) && Parallel.IsCompletionOrder(order, |tickers|)
    ensures parallel ==>
      var done := Parallel.Completed(ScanFn(fetch, cfg, today), tickers, order, |order|);
      (results.Raised? <==> AnyFails(cb, done))
      && (results.Ok? ==> results.value == SortBy(Found(done), DescendingGain))
      && reported == (if cb.given then Found(Seen(cb, done)) else [])
    ensures !parallel ==>
      var collected := Found(Parallel.AllResults(ScanFn(fetch, cfg, today), tickers));
      results == Ok(SortBy(collected, DescendingGain)) && reported == (if cb.given then collected else [])
  {
    var collected, errors;
    if parallel {
      var raised;
      collected, errors, reported, raised := ScanParallel(fetch, cfg, today, tickers, order, showProgress, cb);
      if raised {
        return Raised(CallbackError), reported;
      }
    } else {
      collected, errors, reported := ScanSequential(fetch, cfg, today, tickers, cb);
    }
    results := Ok(SortBy(collected, DescendingGain));
  }

  /**
   * Whatever the completion order, the parallel path collects the same
   * results and the same failed scans as the sequential one, as multisets,
   * and `on_result` raises on one path exactly when it does on the other.
   * While it never raises, the parallel path sees every outcome and the
   * sequential errors are exactly the failed scans.
   */
  lemma SequentialParallelAgree(fetch: Fetcher, cfg: ScanConfig, today: Date, tickers: seq<string>, order: seq<nat>,
                                cb: Callback)
    requires InRange(today) && Parallel.IsCompletionOrder(order, |tickers|)
    ensures var scan := ScanFn(fetch, cfg, today);
      var all := Parallel.AllResults(scan, tickers);
      var done := Parallel.Completed(scan, tickers, order, |order|);
      multiset(Found(done)) == multiset(Found(all)) && multiset(Errors(done)) == multiset(Errors(all))
      && (AnyFails(cb, done) <==> AnyFails(cb, all))
      && (!AnyFails(cb, all) ==> Seen(cb, done) == done && Gather(all, SequentialErrorIn(cb)) == Errors(all))
  {
    var scan := ScanFn(fetch, cfg, today);
    var all := Parallel.AllResults(scan, tickers);
    var done := Parallel.Completed(scan, tickers, order, |order|);
    Parallel.ReorderKeepsMultiset(all, order);
    assert done == Parallel.Reorder(all, order);
    GatherPermutation(done, all, FoundIn);
    GatherPermutation(done, all, ErrorIn);
    assert forall o :: o in done <==> o in all by {
      forall o
        ensures o in done <==> o in all
      {
        assert o in done <==> o in multiset(done);
        assert o in all <==> o in multiset(all);
      }
    }
    if !AnyFails(cb, all) {
      SeenAll(cb, done);
      NoFailureSameErrors(cb, all);
    }
  }

  /** Without a raising callback every outcome is seen. */
  lemma {:induction false} SeenAll(cb: Callback, os: seq<Outcome>)
    requires !AnyFails(cb, os)
    ensures Seen(cb, os) == os
  {
    if os != [] {
      assert os[0] in os;
      assert forall o :: o in os[1..] ==> o in os;
      SeenAll(cb, os[1..]);
    }
  }

  /** Without a raising callback the sequential errors are the failed scans. */
  lemma {:induction false} NoFailureSameErrors(cb: Callback, os: seq<Outcome>)
    requires !AnyFails(cb, os)
    ensures Gather(os, SequentialErrorIn(cb)) == Errors(os)
  {
    if os != [] {
      var init := os[..|os| - 1];
      assert os[|os| - 1] in os;
      assert forall o :: o in init ==> o in os;
      NoFailureSameErrors(cb, init);
    }
  }

  /**
   * A raising `on_result` splits the two paths: the sequential scan keeps
   * the result, records its ticker as an error and finishes, while the
   * parallel scan raises.
   */
  lemma CallbackFailureDiverges(fetch: Fetcher, cfg: ScanConfig, today: Date, tickers: seq<string>, order: seq<nat>,
                                cb: Callback, i: nat)
    requires InRange(today) && Parallel.IsCompletionOrder(order, |tickers|) && i < |tickers|
    requires CallbackFails(cb, Parallel.AllResults(ScanFn(fetch, cfg, today), tickers)[i])
    ensures var scan := ScanFn(fetch, cfg, today);
      var all := Parallel.AllResults(scan, tickers);
      var done := Parallel.Completed(scan, tickers, order, |order|);
      all[i].result.value.value in Found(all) && tickers[i] in Gather(all, SequentialErrorIn(cb))
      && AnyFails(cb, done)
  {
    var scan := ScanFn(fetch, cfg, today);
    var all := Parallel.AllResults(scan, tickers);
    assert all[i] in all;
    GatherMember(all, i, FoundIn);
    GatherMember(all, i, SequentialErrorIn(cb));
    SequentialParallelAgree(fetch, cfg, today, tickers, order, cb);
  }

  /**
   * The list `scan` returns is ordered by gain, largest first, holds
   * exactly the results collected, and every one of them names a scanned
   * ticker and meets the gain threshold.
   */
  lemma ScanResultsOrdered(fetch: Fetcher, cfg: ScanConfig, today: Date, tickers: seq<string>)
    requires InRange(today)
    ensures var found := Found(Parallel.AllResults(ScanFn(fetch, cfg, today), tickers));
      var results := SortBy(found, DescendingGain);
      (forall i, j :: 0 <= i < j < |results| ==> results[i].gainPct >= results[j].gainPct)
      && multiset(results) == multiset(found)
      && forall r :: r in results ==> r.ticker in tickers && r.gainPct >= cfg.minGainPct
  {
    var all := Parallel.AllResults(ScanFn(fetch, cfg, today), tickers);
    var found := Found(all);
    var results := SortBy(found, DescendingGain);
    SortByCorrect(found, DescendingGain);
    FoundFromTickers(fetch, cfg, today, tickers, |tickers|);
    assert all[..|tickers|] == all;
    forall i, j | 0 <= i < j < |results|
      ensures results[i].gainPct >= results[j].gainPct
    {
      assert DescendingGain(results[i]) <= DescendingGain(results[j]);
    }
    forall r | r in results
      ensures r.ticker in tickers && r.gainPct >= cfg.minGainPct
    {
      assert r in multiset(results);
    }
  }

  /** Every result found among the first `n` tickers comes from one of them and meets the threshold. */
  lemma {:induction false} FoundFromTickers(fetch: Fetcher, cfg: ScanConfig, today: Date, tickers: seq<string>, n: nat)
    requires InRange(today) && n <= |tickers|
    ensures var found := Found(Parallel.AllResults(ScanFn(fetch, cfg, today), tickers)[..n]);
      forall r :: r in found ==> r.ticker in tickers && r.gainPct >= cfg.minGainPct
  {
    if n > 0 {
      var all := Parallel.AllResults(ScanFn(fetch, cfg, today), tickers);
      FoundFromTickers(fetch, cfg, today, tickers, n - 1);
      assert all[..n][..n - 1] == all[..n - 1];
      var o := all[n - 1];
      var res := ScanSingle(fetch, cfg, today, tickers[n - 1]);
      if res.Ok? && res.value.Some? {
        ScanSingleFound(fetch, cfg, today, tickers[n - 1]);
      }
    }
  }

  /** An empty ticker list gives an empty result on either path. */
  lemma EmptyScan(fetch: Fetcher, cfg: ScanConfig, today: Date)
    requires InRange(today)
    ensures Found(Parallel.AllResults(ScanFn(fetch, cfg, today), [])) == []
    ensures Found(Parallel.Completed(ScanFn(fetch, cfg, today), [], [], 0)) == []
  {
  }
}
