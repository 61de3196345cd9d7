# stock-finder, modelled in Dafny

stock-finder scans a list of tickers for stocks that made a large gain
(the biggest "buy at a low, sell at a later high" move over a look-back
period). It caches price history on disk, analyses the base each winner
formed before its run (swing lows, an ascending trendline, touches of
that line), scores each winner against eight "Neumann" criteria, and
derives and reports statistics over the results.

This project models the decision and bookkeeping logic of that pipeline:

- the max-gain detector and the scanner that runs it over tickers,
  sequentially or through a thread-pool executor whose completion order
  is a parameter;
- the disk cache (key naming, the two-tier expiry rule, superset
  lookups, size-limited eviction in modification-time order, clearing,
  statistics) as a class over a directory map, and the caching data
  provider built on it;
- swing-low/high detection, the ascending-lows filter, touch detection,
  the trendline record and the per-stock trendline analysis;
- the scoring context, the eight criteria, the scorer, the scoring
  modes and the criterion report;
- the statistics helpers (percentile, summary statistics, lift) and the
  derivation of criteria thresholds from winners and non-winners;
- the small string and record helpers: ticker normalisation, the scan
  result dictionary with ISO dates, and the theme-key parse of the
  dashboard.

Prices and ratios are exact `real`s; dates are civil (year, month, day)
records with their proleptic ordinal; text is ASCII `seq<char>`.
Exceptions of the source are an `Attempt<T>` (`Ok` or `Raised`);
missing values are `Option`. Foreign numerics (the regression fit,
square roots, weekly resampling), the data provider and the database
are parameters of the model; rounding to a fixed number of decimals is
left out except in `Results`, where `Round2` models `round(x, 2)`.

Modules, one per source file: `Calculations`, `Cache`, `CachedProvider`,
`Parallel`, `Scanner`, `SwingDetection`, `TouchDetection`,
`AnalysisModels`, `Analyzer`, `Statistics`, `Deriver`, `Modes`,
`CriteriaBase`, `Criteria` (all eight criterion files), `Scorer`,
`Report`, `Results`, `TickerSource`, `Themes`; and shared support:
`Common` (Option, Attempt, dynamic values, sums and means), `Text`
(digits, split, case, strip, title), `Dates` (civil dates, ISO format
and parse, day arithmetic), `Frames` (price bars, date windows, the
NaN-free close series) and `Sorting` (a stable sort by a real key).

## Model

| member | source | states |
|---|---|---|
| Calculations.PctGainSign | src/stock_finder/utils/calculations.py:63-66 | from a positive running minimum, the measured gain is positive exactly when the current close is above it |
| Calculations.RunMin | src/stock_finder/utils/calculations.py:50-60 | the running minimum's position lies before the current step |
| Calculations.RunMinLeast | src/stock_finder/utils/calculations.py:50-60 | the running minimum is the least close so far and, because it moves only on a strict decrease, its earliest position |
| Calculations.BestUpTo | src/stock_finder/utils/calculations.py:44-71 | a recorded best pair has its low strictly before its high, both before the current step, and a positive gain |
| Calculations.BestPair | src/stock_finder/utils/calculations.py:57-71 | a recorded pair starts at the running minimum before its high, at a positive price, and its gain is that pair's percentage gain |
| Calculations.ScanPass | src/stock_finder/utils/calculations.py:44-71 | the loop leaves best_gain_pct, best_low/high_idx and best_low/high_price holding the best pair of the specification `BestUpTo` over all closes |
| Calculations.CalculateMaxGain | src/stock_finder/utils/calculations.py:10-97 | the method returns exactly the specification `MaxGain`: the guards, the pass and the result construction |
| Calculations.PassStep | src/stock_finder/utils/calculations.py:57-71 | one step: the minimum moves only on a strict decrease, the best gain never drops, and each measured gain is at most the new best |
| Calculations.BestGainMonotone | src/stock_finder/utils/calculations.py:66-71 | the best gain starts at 0, is never negative and never decreases along the pass |
| Calculations.BestIsMaximum | src/stock_finder/utils/calculations.py:53-71 | optimality: with positive closes no pair i < j gains more than the pass's best, and a pair is recorded whenever some later close is above an earlier one |
| Calculations.BestSettled | src/stock_finder/utils/calculations.py:66-71 | a recorded pair was set at its high's step and strictly improved on the best before it |
| Calculations.EarliestPeak | src/stock_finder/utils/calculations.py:66 | ties keep the earliest peak: every pair ending before the recorded high gains strictly less |
| Calculations.MaxGainResult | src/stock_finder/utils/calculations.py:29-38 | a result needs at least two rows, a Close column and at least two non-NaN closes, and is the result computed over the NaN-free closes |
| Calculations.ClosesResult | src/stock_finder/utils/calculations.py:74-97 | a result's low is strictly before its high in the close series, prices are the closes there, gain_pct is their percentage gain, positive and at least min_gain_pct, days_to_peak is the position difference and current_price is the last close |
| Calculations.MaxGainExact | src/stock_finder/utils/calculations.py:29-97 | with positive closes, a result exists iff some rising pair i < j gains at least min_gain_pct, and its gain is the maximum pair gain |
| Calculations.BestMeetsThreshold | src/stock_finder/utils/calculations.py:74-78 | the pass keeps a pair at or above the threshold iff some rising pair reaches it; no pair beating 0 means None |
| Results.StartDate | src/stock_finder/models/results.py:16-19 | start_date is a date of the frame and at or before every other date; an empty frame has none |
| Results.EndDate | src/stock_finder/models/results.py:21-24 | end_date is a date of the frame and at or after every other date; an empty frame has none |
| Results.TradingDays | src/stock_finder/models/results.py:26-29 | trading_days is the row count |
| Results.Round2 | src/stock_finder/models/results.py:49 | `round(x, 2)` lies within half a cent of x |
| Results.ToDict | src/stock_finder/models/results.py:45-56 | to_dict has exactly the eight ScanResult keys, copies ticker and days_to_peak and renders both dates in ISO form |
| Results.FromDict | src/stock_finder/models/results.py:58-70 | the keyword arguments are read in order and the first failure wins: KeyError exactly when a key is missing before the first date that fails to parse; with string dates, ValueError exactly when one fails to parse; a record it builds takes every field from its key, the dates parsed by `date.fromisoformat` |
| Results.BadLowDateBeforeMissingKey | src/stock_finder/models/results.py:61-66 | a malformed low_date with low_price missing raises ValueError, not KeyError |
| Results.DictRoundTrip | src/stock_finder/models/results.py:45-70 | from_dict(to_dict(r)) succeeds and keeps ticker, both dates and days_to_peak exactly; prices and gain come back as their 2-decimal rounding, within half a cent |
| Dates.OrdinalPlusDays | src/stock_finder/scanners/gainer_scanner.py:46 | `d + timedelta(days=n)` moves the ordinal day by exactly n |
| Dates.BeforeIffOrdinalLess | src/stock_finder/data/cache.py:71-72 | comparing dates agrees with comparing their ordinals |
| Dates.IsoRoundTrip | src/stock_finder/models/results.py:50-64 | `date.fromisoformat(d.isoformat()) == d` |
| Dates.ParseIsoCanonical | src/stock_finder/models/results.py:64 | a string fromisoformat accepts in the YYYY-MM-DD form is the ISO rendering of the date it gives |
| Cache.Glob | src/stock_finder/data/cache.py:116-117 | a glob lists exactly the listed names matching `prefix*.parquet`, in listing order, each once |
| Cache.FirstWhere | src/stock_finder/data/cache.py:117-135 | the position found satisfies the test and none before it does; no position means no element satisfies it |
| Cache.FirstSuperset | src/stock_finder/data/cache.py:99-135 | `_find_superset_cache` returns a listed file whose name parses to a span covering the request; it returns nothing exactly when no listed file covers it |
| Cache.Keep | src/stock_finder/data/cache.py:351 | the listing after unlinks holds exactly the listed names not unlinked, still without repeats |
| Cache.RemoveAll | src/stock_finder/data/cache.py:279-284 | unlinking keeps the directory listing each file exactly once |
| Cache.Write | src/stock_finder/data/cache.py:228 | `to_parquet` stores the entry under its name and keeps the listing well formed |
| Cache.RemoveAllTwice | src/stock_finder/data/cache.py:345-355 | unlinking in two rounds is unlinking everything at once |
| Cache.Evict | src/stock_finder/data/cache.py:345-355 | eviction deletes only listed files that can be deleted, and only while over the limit |
| Cache.EvictRemaining | src/stock_finder/data/cache.py:349-352 | the running size falls by the size of each deleted file, and a failed deletion does not reduce it |
| Cache.EvictStep | src/stock_finder/data/cache.py:345-355 | one round over the limit: an undeletable file is passed over, any other is the next one deleted |
| Cache.EnforceSpec | src/stock_finder/data/cache.py:327-355 | `_enforce_size_limit` keeps the directory well formed |
| Cache.EnforceDeleted | src/stock_finder/data/cache.py:336-355 | the size limit is enforced by unlinking exactly the files the oldest-first eviction loop deletes (none when within the limit or disabled) |
| Cache.SetSpec | src/stock_finder/data/cache.py:202-231 | `set` keeps the directory well formed |
| Cache.Deletable | src/stock_finder/data/cache.py:282-287 | clearing deletes exactly the globbed names whose unlink succeeds |
| Cache.CacheManager.constructor | src/stock_finder/data/cache.py:25-36 | a manager starts over the directory it is given, with its configuration |
| Cache.CacheManager.Unlink | src/stock_finder/data/cache.py:164 | `unlink` removes exactly that file |
| Cache.CacheManager.WriteFile | src/stock_finder/data/cache.py:228 | `to_parquet` writes exactly that entry |
| Cache.CacheManager.FindSupersetCache | src/stock_finder/data/cache.py:99-135 | the loop returns the first globbed file whose name covers the request, as `FirstSuperset` specifies |
| Cache.CacheManager.Get | src/stock_finder/data/cache.py:137-200 | `get` serves and changes the directory as `GetSpec` says: disabled gives None; an expired exact file is deleted with no superset fallback; a fresh exact file is served; otherwise the first covering file is deleted if expired, else served cut to the inclusive window; an expired file that refuses deletion makes `get` raise and stays |
| Cache.CacheManager.TryUnlink | src/stock_finder/data/cache.py:162-165 | the bare `unlink` of an expired file: it is deleted and nothing is served, or it refuses, stays, and the error escapes |
| Cache.CacheManager.Set | src/stock_finder/data/cache.py:202-231 | `set` evicts first, then writes the frame under its key unless the write fails; disabled does nothing |
| Cache.CacheManager.Exists | src/stock_finder/data/cache.py:233-263 | `exists` changes nothing and answers `ExistsSpec`: an unexpired exact file, or any covering file whatever its age |
| Cache.CacheManager.Clear | src/stock_finder/data/cache.py:265-290 | `clear` deletes the globbed files it can and returns their count; disabled returns 0 |
| Cache.CacheManager.EnforceSizeLimit | src/stock_finder/data/cache.py:327-355 | the directory afterwards is `EnforceSpec` of the one before |
| Cache.CacheManager.EvictNext | src/stock_finder/data/cache.py:349-355 | one round of the loop unlinks the file unless it is undeletable, and subtracts its size only when it was unlinked |
| Cache.CacheManager.EvictOldest | src/stock_finder/data/cache.py:345-355 | the loop unlinks exactly the files the specification `Evict` deletes |
| Cache.CacheManager.GetStats | src/stock_finder/data/cache.py:292-325 | entry_count is the number of Parquet files and total_size_mb their total size in MiB to within half a hundredth; oldest and newest are present together, exactly when there is a file, and are the least and greatest modification times; a disabled cache reports entry_count 0, total_size_mb 0.0, no oldest or newest entry and no cache_dir |
| Cache.SortedEnds | src/stock_finder/data/cache.py:314-316 | the ends of the files sorted by mtime hold the smallest and largest mtime |
| Cache.KeyInjective | src/stock_finder/data/cache.py:55 | the key determines ticker, start and end: different requests never share a file |
| Cache.KeyParses | src/stock_finder/data/cache.py:55-126 | a key matches its ticker's glob; its name parses back to (start, end) exactly when the ticker holds no underscore, and never otherwise |
| Cache.KeyStemParts | src/stock_finder/data/cache.py:55-121 | a key's stem splits at underscores into the ticker's parts and the two ISO dates |
| Cache.HistoricalIffOrdinal | src/stock_finder/data/cache.py:61-72 | an entry is historical iff its end lies more than 365 days before today |
| Cache.HistoricalStaysHistorical | src/stock_finder/data/cache.py:85-87 | an entry historical today stays historical on every later day, so it never expires |
| Cache.DisabledIsInert | src/stock_finder/data/cache.py:154-277 | a disabled cache: get serves nothing, set stores nothing, exists is false, clear returns 0, and nothing changes |
| Cache.SetThenGet | src/stock_finder/data/cache.py:158-231 | after a successful set, a get of the same request serves the stored frame while fresh; once expired it deletes the file and serves nothing, with no superset fallback, or raises and keeps the file when it refuses deletion |
| Cache.GetRaisesOnlyOnUnlink | src/stock_finder/data/cache.py:161-183 | get raises only through an undeletable file, and then changes nothing; a get that returns is the same as with every file deletable; with every file deletable get never raises |
| Cache.GetHitImpliesExists | src/stock_finder/data/cache.py:137-263 | whatever get serves, exists reports |
| Cache.ExistsIgnoresSupersetExpiry | src/stock_finder/data/cache.py:176-258 | with no exact file and an expired covering file, exists reports it while get deletes it and serves nothing (or raises, when the file refuses deletion) |
| Cache.SupersetServesWindow | src/stock_finder/data/cache.py:176-194 | without an exact file, a served frame comes from one of the ticker's covering files, holding exactly its rows dated in [start, end] |
| Cache.PartialOverlapMisses | src/stock_finder/data/cache.py:128-200 | when no file of the ticker covers the request (partial overlap included), get misses and changes nothing |
| Cache.EvictPrefix | src/stock_finder/data/cache.py:345-355 | eviction goes strictly in sorted order: once a file is deleted, every earlier deletable file was deleted too |
| Cache.EvictReachesLimit | src/stock_finder/data/cache.py:345-352 | with every file deletable and a non-negative limit, the running size ends within the limit |
| Cache.EvictDistinct | src/stock_finder/data/cache.py:345-355 | each file is deleted at most once |
| Cache.SizeOfPermutation | src/stock_finder/data/cache.py:336-342 | the total size does not depend on the order of the files |
| Cache.EvictionOrder | src/stock_finder/data/cache.py:342 | the Parquet files sorted by mtime are a permutation of the listing, sorted, each once |
| Cache.EnforceOldestFirst | src/stock_finder/data/cache.py:341-355 | least recently written first: if a file was evicted, every deletable file written strictly earlier was evicted too |
| Cache.EnforceKeepsOthers | src/stock_finder/data/cache.py:333-355 | files outside the Parquet glob and files that cannot be deleted are kept unchanged |
| Cache.RemainingSize | src/stock_finder/data/cache.py:336-352 | unlinking distinct Parquet files lowers their total size by exactly their sizes |
| Cache.EnforceReachesLimit | src/stock_finder/data/cache.py:327-355 | with every Parquet file deletable and a non-negative limit, the Parquet files left fit within max_size_gb·1024³ bytes |
| Cache.ClearDeletesMatching | src/stock_finder/data/cache.py:279-290 | clear deletes exactly the deletable files named `ticker_*.parquet` (or all `*.parquet`), returns their count, and leaves every other file as it was |
| CachedProvider.HistoricalSpec | src/stock_finder/data/cached_provider.py:33-67 | `get_historical` keeps the cache directory well formed, including when the cache lookup or the provider raises |
| CachedProvider.CachedDataProvider.constructor | src/stock_finder/data/cached_provider.py:22-31 | the wrapper holds the provider and the cache manager it is given, and has made no provider call |
| CachedProvider.CachedDataProvider.GetHistorical | src/stock_finder/data/cached_provider.py:33-67 | the answer or the escaping error, the cache afterwards and the provider calls made are those of `HistoricalSpec` |
| CachedProvider.CachedDataProvider.GetCurrentPrice | src/stock_finder/data/cached_provider.py:69-82 | the current price is the provider's answer; the cache is not touched |
| CachedProvider.CachedDataProvider.GetHistoricalDf | src/stock_finder/data/cached_provider.py:84-87 | the frame of a non-bypassing `get_historical`, or None, or the error it raises |
| CachedProvider.ProviderCalledOnlyOnMiss | src/stock_finder/data/cached_provider.py:52-67 | no provider call iff the read was not bypassed and the cache hit or raised; a raising cache lookup escapes with the directory unchanged; otherwise exactly one call whose answer, or error, is returned; a None answer or an error writes nothing; a frame is written under the request's key |
| CachedProvider.EnforceOnlyRemoves | src/stock_finder/data/cache.py:327-355 | eviction only removes files and leaves the others unchanged |
| CachedProvider.SoleFileServes | src/stock_finder/data/cache.py:158-194 | a fresh sole file of the ticker answers every request it covers: itself for the same span, otherwise the rows in the window |
| CachedProvider.FetchLeavesSoleFile | src/stock_finder/data/cached_provider.py:59-67 | a fetch that misses on a cache with no file of the ticker leaves exactly one such file: the frame under its key |
| CachedProvider.RepeatAfterFetchIsCached | src/stock_finder/data/cached_provider.py:52-67 | after a first fetch, repeating the request or asking for a window inside it, while the file is fresh, is answered from the cache with no provider call |
| Parallel.ExecuteSingle | src/stock_finder/utils/parallel.py:91-117 | the task result carries its item; it succeeds iff the function returns, with result set and no error; a raise gives result None and error = the message |
| Parallel.Execute | src/stock_finder/utils/parallel.py:41-89 | for every completion order, the output has one task result per item in input order (empty for no items), each that item's own; the callbacks fired are exactly those of the completions, in completion order |
| Parallel.Map | src/stock_finder/utils/parallel.py:119-137 | map returns, in input order, the value of each success and None for each failure |
| Parallel.Completed | src/stock_finder/utils/parallel.py:76-79 | the t-th completion's task result is that of the item at the t-th position of the completion order |
| Parallel.ReportedInCompletionOrder | src/stock_finder/utils/parallel.py:76-84 | with on_result set, it receives the task results in completion order, one per completion |
| Parallel.StepReported | src/stock_finder/utils/parallel.py:83-84 | one completion hands exactly its own task result to on_result |
| Parallel.Reorder | src/stock_finder/utils/parallel.py:76-77 | reordering by a completion order picks, at each position, the element the order names |
| Parallel.ReorderKeepsMultiset | src/stock_finder/utils/parallel.py:76-89 | reordering by a completion order keeps the multiset of elements |
| Parallel.AllResults | src/stock_finder/utils/parallel.py:89 | the result list holds each item's task result at its own index |
| Parallel.OnResultOncePerItem | src/stock_finder/utils/parallel.py:76-84 | whatever the completion order, on_result receives every item's task result exactly once |
| Parallel.TraceShape | src/stock_finder/utils/parallel.py:80-86 | each completion fires on_result and then on_progress for the same item, and the completed counter runs 1, 2, ..., n over total = len(items) |
| Scanner.DateRange | src/stock_finder/scanners/gainer_scanner.py:43-47 | end is today and start lies exactly lookback_years·365 days before it |
| Scanner.ScanSingle | src/stock_finder/scanners/gainer_scanner.py:49-82 | scan_single raises iff the start date is out of range or the provider raises; no frame or an empty frame gives None; otherwise the result is exactly calculate_max_gain over the frame |
| Scanner.ScanSingleFound | src/stock_finder/scanners/gainer_scanner.py:69-82 | a found result names its ticker, has a positive low price and a positive days_to_peak, and meets min_gain_pct |
| Scanner.ScanSequential | src/stock_finder/scanners/gainer_scanner.py:126-170 | the results are the found results of the tickers in input order, the errors the tickers whose scan or on_result call raised, and on_result receives exactly the results |
| Scanner.ScanParallel | src/stock_finder/scanners/gainer_scanner.py:172-229 | the results and errors are those of the task results in completion order up to the first on_result call that raises; the scan raises exactly when one does; on_result receives exactly the results collected |
| Scanner.Collect | src/stock_finder/scanners/gainer_scanner.py:215-221 | the collecting callback keeps the result of a successful non-None task and records the ticker of a failed one |
| Scanner.CollectStep | src/stock_finder/scanners/gainer_scanner.py:215-221 | the collecting callback adds a result for a successful non-None task, the ticker for a failed one, and nothing otherwise |
| Scanner.Scan | src/stock_finder/scanners/gainer_scanner.py:84-124 | scan collects through the chosen path and returns the collected results stably sorted by gain_pct, largest first; in parallel mode a raising on_result makes scan raise |
| Scanner.SequentialParallelAgree | src/stock_finder/scanners/gainer_scanner.py:109-226 | for every completion order, the parallel path collects the same multiset of results and of failed scans as the sequential one, on_result raises on one path iff on the other, and while it never raises the parallel path sees every task and the sequential errors are the failed scans |
| Scanner.CallbackFailureDiverges | src/stock_finder/scanners/gainer_scanner.py:146-206 | when on_result raises on a found result, the sequential scan keeps it and records its ticker as an error, while the parallel scan raises |
| Scanner.ScanResultsOrdered | src/stock_finder/scanners/gainer_scanner.py:114-115 | the returned list is ordered by gain_pct descending, is a permutation of the collected results, and every entry names a scanned ticker and meets the threshold |
| Scanner.FoundFromTickers | src/stock_finder/scanners/gainer_scanner.py:159-165 | every result found among the first n tickers comes from one of them and meets the threshold |
| Scanner.EmptyScan | src/stock_finder/scanners/gainer_scanner.py:159-229 | an empty ticker list collects nothing on either path |
| SwingDetection.Others | src/stock_finder/analysis/trendline/swing_detection.py:31-36 | `window.drop(label)` holds exactly the levels of the window rows whose date differs from bar i's |
| SwingDetection.SwingTestIsSwing | src/stock_finder/analysis/trendline/swing_detection.py:33-75 | the detector's test against the window's min (max) without bar i holds iff bar i is strictly below (above) every other row of the window |
| SwingDetection.SwingsBelowAreSwings | src/stock_finder/analysis/trendline/swing_detection.py:27-43 | every listed point is a swing bar, and carries that bar's date, level (Low or High) and bar_index |
| SwingDetection.SwingsBelowComplete | src/stock_finder/analysis/trendline/swing_detection.py:27-43 | every swing bar is listed |
| SwingDetection.SwingsBelowOrdered | src/stock_finder/analysis/trendline/swing_detection.py:27 | points are listed in strictly increasing bar_index order |
| SwingDetection.DetectSwings | src/stock_finder/analysis/trendline/swing_detection.py:22-84 | the loop lists exactly the swings of the frame |
| SwingDetection.DetectSwingLows | src/stock_finder/analysis/trendline/swing_detection.py:8-45 | detect_swing_lows lists the swings on Low: bars with lookback bars either side whose Low is strictly the least of the window |
| SwingDetection.DetectSwingHighs | src/stock_finder/analysis/trendline/swing_detection.py:48-84 | detect_swing_highs lists the swings on High, with a strict maximum |
| SwingDetection.NoSwingsAtTail | src/stock_finder/analysis/trendline/swing_detection.py:27 | the last lookback bars are never swings |
| SwingDetection.ShortFrameHasNoSwings | src/stock_finder/analysis/trendline/swing_detection.py:22-63 | fewer than 2·lookback+1 bars give [] |
| SwingDetection.MonotoneHasNoSwingLows | src/stock_finder/analysis/trendline/swing_detection.py:36 | with distinct dates, a series whose Lows never rise, or never fall (flat included), has no swing lows |
| SwingDetection.Mirror | src/stock_finder/analysis/trendline/swing_detection.py:70-75 | the mirror frame holds each bar with its High negated in the Low column |
| SwingDetection.HighsMirrorLows | src/stock_finder/analysis/trendline/swing_detection.py:48-84 | a bar is a swing high iff it is a swing low of the mirrored frame |
| SwingDetection.Ascending | src/stock_finder/analysis/trendline/swing_detection.py:100-112 | the ascending lows are empty iff the input is, and start with the first point |
| SwingDetection.AscendingRises | src/stock_finder/analysis/trendline/swing_detection.py:108-110 | the prices kept rise strictly |
| SwingDetection.AscendingEndsAtMax | src/stock_finder/analysis/trendline/swing_detection.py:106-112 | the last point kept is an input point holding the highest input price |
| SwingDetection.AscendingIsSubsequence | src/stock_finder/analysis/trendline/swing_detection.py:106-112 | the output is the input with some points left out, in input order |
| SwingDetection.FilterAscendingLows | src/stock_finder/analysis/trendline/swing_detection.py:87-112 | the loop returns the ascending lows `Ascending` specifies, as a new list |
| SwingDetection.AscendingKeepsRecords | src/stock_finder/analysis/trendline/swing_detection.py:108-110 | a point is kept exactly when its price is above every earlier point's |
| SwingDetection.AscendingMembers | src/stock_finder/analysis/trendline/swing_detection.py:106-112 | every output point is an input point |
| TouchDetection.Abs | src/stock_finder/analysis/trendline/touch_detection.py:44 | `abs` is non-negative and is x or -x |
| TouchDetection.TouchesBelow | src/stock_finder/analysis/trendline/touch_detection.py:28-33 | at most one touch per bar, so an empty frame gives none |
| TouchDetection.TouchesBelowAreTouches | src/stock_finder/analysis/trendline/touch_detection.py:33-53 | every listed touch is of a bar whose line price is non-zero and whose |deviation| is at most the tolerance, and stores that bar's date, Low, price_at_bar(i), deviation and bar_index |
| TouchDetection.TouchesBelowComplete | src/stock_finder/analysis/trendline/touch_detection.py:33-53 | every touching bar is listed |
| TouchDetection.TouchesBelowOrdered | src/stock_finder/analysis/trendline/touch_detection.py:33 | touches are listed in strictly increasing bar_index order |
| TouchDetection.DetectTouches | src/stock_finder/analysis/trendline/touch_detection.py:8-55 | the loop lists exactly the touches `Touches` specifies, skipping bars where the line price is 0 |
| TouchDetection.TouchStep | src/stock_finder/analysis/trendline/touch_detection.py:38-53 | one more bar adds its touch exactly when it touches |
| TouchDetection.DeviationSign | src/stock_finder/analysis/trendline/touch_detection.py:41 | over a positive line the deviation is positive above the line and negative below it |
| TouchDetection.ZeroToleranceIsExact | src/stock_finder/analysis/trendline/touch_detection.py:38-44 | with tolerance 0 only bars whose Low lies exactly on the line touch it |
| TouchDetection.TouchBand | src/stock_finder/analysis/trendline/touch_detection.py:41-44 | over a positive line a bar touches iff its Low lies in [tp·(1−tolerance), tp·(1+tolerance)], inclusive |
| AnalysisModels.PriceAtBar | src/stock_finder/analysis/models.py:111-113 | the line's price at a bar differs from the intercept by slope times the bar index |
| AnalysisModels.PriceAtBarLinear | src/stock_finder/analysis/models.py:106-113 | price_at_bar(0) is the intercept, and the price moves by exactly the slope per bar |
| AnalysisModels.IntOrNone | src/stock_finder/analysis/models.py:180-190 | an optional integer field is None exactly when it is unset, and otherwise its value |
| AnalysisModels.AnalysisToDict | src/stock_finder/analysis/models.py:173-191 | to_dict has exactly the fifteen scalar keys, and break_date is None when unset, otherwise its ISO string |
| AnalysisModels.AnalysisBreakDateRoundTrip | src/stock_finder/analysis/models.py:187 | the break date read back from the dictionary is the one written: None for None, otherwise fromisoformat gives the date back |
| AnalysisModels.StatsToDict | src/stock_finder/analysis/models.py:29-43 | to_dict has exactly the eleven field names as keys, with the name and sample size copied |
| Analyzer.ParseDate | src/stock_finder/analysis/analyzer.py:279-285 | a date is returned as it is, a value that is neither a date nor a string raises, and a parsed date is always a representable one |
| Analyzer.ParseDateText | src/stock_finder/analysis/analyzer.py:283-284 | an ISO string written from a date parses back to that date, a string fromisoformat rejects raises, and a string that parses is the canonical ISO form of its date |
| Analyzer.FetchWindow | src/stock_finder/analysis/analyzer.py:93-94 | the fetch window starts data_buffer_days calendar days before the low date and ends as many days after the high date; it raises exactly when either bound leaves the years a date can hold |
| Analyzer.AbsDeviations | src/stock_finder/analysis/analyzer.py:204 | one entry per touch, the absolute value of that touch's deviation |
| Analyzer.SlopePctPerDay | src/stock_finder/analysis/analyzer.py:196-199 | the slope in percent of the intercept is unset exactly when the slope or the intercept is zero, and otherwise times the intercept gives the slope times 100 |
| Analyzer.SwingDatesInRange | src/stock_finder/analysis/analyzer.py:144-194 | every ascending swing low carries the date of a row of the frame, so subtracting two of them is defined |
| Analyzer.AnalyzeStockSpec | src/stock_finder/analysis/analyzer.py:83-238 | analyze_stock raises exactly when a date does not parse, the fetch window overflows or the provider raises; otherwise the result is the analysis of the fetched frame, a None from the provider counting as an empty frame |
| Analyzer.AnalysisCopiesRow | src/stock_finder/analysis/analyzer.py:109-225 | every branch copies the ticker, the scan-result id, the timeframe, gain_pct and days_to_peak from the row, sets no break, and counts exactly the swing lows and touches it lists |
| Analyzer.AnalysisCopiesRowOk | src/stock_finder/analysis/analyzer.py:83-221 | a successful analysis names the row's ticker, the timeframe asked for and the row's gain and days to peak |
| Analyzer.FormedIff | src/stock_finder/analysis/analyzer.py:108-184 | trendline_formed holds exactly when the frame and the cut move are non-empty, there are at least min_touches ascending lows, a line is fitted through them and its R² reaches min_r_squared |
| Analyzer.NoDataIsUnformed | src/stock_finder/analysis/analyzer.py:108-141 | with no rows fetched, or none left in the move, the analysis is unformed, with no swing lows, no touches and no fit |
| Analyzer.NoLineIsUnformed | src/stock_finder/analysis/analyzer.py:149-181 | too few ascending lows, or no fit, leaves the analysis unformed with no R², no touches and no fit, but still reports every swing low of the move |
| Analyzer.FrameIsMeasured | src/stock_finder/analysis/analyzer.py:143-225 | with enough ascending lows and a fit, the analysis is the one measured from the fit and the touches detected at touch_tolerance on the move's rows |
| Analyzer.MeasuredMetrics | src/stock_finder/analysis/analyzer.py:184-225 | a measured analysis reports the fit and its R², is formed exactly when R² reaches min_r_squared, lists the swing lows and touches, counts the touches, and reports the slope in percent |
| Analyzer.MeasuredDays | src/stock_finder/analysis/analyzer.py:190-194 | days_to_form is set exactly when there are two or more ascending lows, and is then the number of calendar days from the first to the last |
| Analyzer.BounceMetrics | src/stock_finder/analysis/analyzer.py:201-206 | the bounce and maximum deviation are unset exactly when there are no touches; otherwise the mean bounce lies between 0 and the maximum, which bounds every touch's absolute deviation in percent and equals one of them |
| Analyzer.MaxDeviationWithinTolerance | src/stock_finder/analysis/analyzer.py:187-206 | the reported maximum deviation never exceeds the touch tolerance in percent |
| Analyzer.RowResults | src/stock_finder/analysis/analyzer.py:264-275 | one row contributes at most two analyses to analyze_all |
| Analyzer.BothRow | src/stock_finder/analysis/analyzer.py:265-275 | with "both", a row contributes nothing or a daily then a weekly analysis of its own ticker |
| Analyzer.AnalyzeStep | src/stock_finder/analysis/analyzer.py:260-275 | one more row appends exactly its analyses to the list and its writes to the database log |
| Analyzer.AnalyzeAllSingle | src/stock_finder/analysis/analyzer.py:260-277 | with one timeframe, the list has at most one analysis per row, each on that timeframe and of some row's ticker, and it holds the analysis of every row that did not raise |
| Analyzer.AnalyzeAllBoth | src/stock_finder/analysis/analyzer.py:260-277 | with "both", the list is made of daily-then-weekly pairs of the same ticker, one pair per row whose two analyses succeeded |
| Analyzer.TrendlineAnalyzer.constructor | src/stock_finder/analysis/analyzer.py:42-58 | the analyzer keeps its provider and database, uses the default settings when none are given, and has written nothing |
| Analyzer.TrendlineAnalyzer.AnalyzeStock | src/stock_finder/analysis/analyzer.py:60-238 | the result is the analysis specified above, and it is written to the database exactly when saving is asked for, a database is present and the analysis did not raise |
| Analyzer.TrendlineAnalyzer.AnalyzeRow | src/stock_finder/analysis/analyzer.py:264-275 | the body of the loop for one row appends that row's analyses; with "both" a daily analysis written before the weekly one raised stays written |
| Analyzer.TrendlineAnalyzer.AnalyzeNext | src/stock_finder/analysis/analyzer.py:260-275 | one turn of the loop extends the results and the writes by those of the next row |
| Analyzer.TrendlineAnalyzer.AnalyzeAll | src/stock_finder/analysis/analyzer.py:240-277 | analyze_all returns the analyses of every row that did not raise, in row order, and the writes are those of every row in order, including a daily analysis whose weekly partner raised |
| Statistics.Clean | src/stock_finder/analysis/statistics.py:26 | the clean values are exactly the numbers among the inputs, dropping None and NaN, and are no more than the inputs |
| Statistics.Ceil | src/stock_finder/analysis/statistics.py:80-81 | the ceiling is the floor or one more, bounds the value from above, and equals the floor exactly when the value is integral |
| Statistics.Rank | src/stock_finder/analysis/statistics.py:79-81 | for p in [0, 100] the rank (n - 1)·p/100 lies in [0, n - 1], so both neighbouring indices are valid |
| Statistics.Interpolate | src/stock_finder/analysis/statistics.py:86 | a non-negative amount scaled by a weight in [0, 1] stays between 0 and the amount |
| Statistics.Between | src/stock_finder/analysis/statistics.py:86 | linear interpolation between two ordered values with a weight in [0, 1] stays between them |
| Statistics.Percentile | src/stock_finder/analysis/statistics.py:60-86 | 0 for an empty list, the only element of a one-element list, the element at an integral rank, and otherwise a value between the two neighbouring elements of a sorted list |
| Statistics.PercentileEnds | src/stock_finder/analysis/statistics.py:60-86 | on a sorted list the 0th percentile is the first element, the 100th the last, and every percentile lies between them |
| Statistics.SquaredDeviations | src/stock_finder/analysis/statistics.py:40 | one entry per clean value, its squared distance from the mean |
| Statistics.SampleVariance | src/stock_finder/analysis/statistics.py:40 | the sample variance is never negative |
| Statistics.CalculateStats | src/stock_finder/analysis/statistics.py:11-57 | the name is kept and the sample size is the number of clean values; with none the stats are empty; otherwise the mean, extremes and median are those of the clean values, the median and the 10th, 25th, 75th and 90th percentiles taken on the sorted values, and the standard deviation is the root of the sample variance (0 for one value) |
| Statistics.StatsWithinRange | src/stock_finder/analysis/statistics.py:31-57 | the mean, median and the four percentiles all lie between the reported minimum and maximum |
| Statistics.CalculateLift | src/stock_finder/analysis/statistics.py:89-123 | the lift is None exactly when a mean is missing or zero; otherwise it is winners_mean / all_mean, and for drawdown and the SMA distances its absolute value, which is positive |
| Statistics.LiftOfEqualMeans | src/stock_finder/analysis/statistics.py:106-123 | equal means give a lift of 1, and for the negative metrics so do means of opposite sign |
| Deriver.ConfiguredVariablesAreTheTable | src/stock_finder/analysis/deriver.py:41-87 | the default variable list is exactly the keys of VARIABLE_CONFIG; "<=" goes with lower-is-better and ">=" with higher-is-better, and days_since_high is the only higher-is-better variable |
| Deriver.ValuesOf | src/stock_finder/analysis/deriver.py:215-216 | the values read are exactly the non-None values of the variable among the rows, at most one per row |
| Deriver.PyIndex | src/stock_finder/analysis/deriver.py:231-236 | Python indexing succeeds exactly for an index in [-n, n), negative ones counting from the end, and then returns an element of the list |
| Deriver.ReadThreshold | src/stock_finder/analysis/deriver.py:223-236 | the threshold is sorted(values)[idx], with idx = min(int(n·rate), n−1) for lower-is-better and max(int(n·(1−rate)), 0) for higher-is-better, a negative idx counting from the end; it raises IndexError exactly when idx lies outside [−n, n); the value is one of the winner values |
| Deriver.DeriveThreshold | src/stock_finder/analysis/deriver.py:202-255 | no threshold exactly when no winner has a value; it raises exactly when reading the threshold from the sorted winner values raises; otherwise the threshold carries the variable and its configured operator, is the value read at the sorted index, its capture rate is the share of winner values on the winners' side of it, and its exclusion rate is the share of non-winner values strictly on the other side (`>` for lower-is-better, `<` for higher-is-better), 0 when no non-winner has a value |
| Deriver.CountAtMost | src/stock_finder/analysis/deriver.py:239-244 | a count of values meeting a condition is at most the number of values |
| Deriver.CountPermutation | src/stock_finder/analysis/deriver.py:239-244 | counting over the winner values gives the same number as counting over them sorted |
| Deriver.CountAll | src/stock_finder/analysis/deriver.py:240-243 | when every value is on the winners' side, all are counted |
| Deriver.CountSplit | src/stock_finder/analysis/deriver.py:239-244 | counting over two lists joined is the sum of the two counts |
| Deriver.CountComplement | src/stock_finder/analysis/deriver.py:239-244 | every value is counted either as captured or as excluded, so the two counts add up to the number of values |
| Deriver.ExclusionIsUncapturedShare | src/stock_finder/analysis/deriver.py:239-247 | with non-winner values present, the exclusion rate is one minus the share of them the threshold captures |
| Deriver.CountMember | src/stock_finder/analysis/deriver.py:240-243 | a list holding a captured value counts at least one capture |
| Deriver.RatesAreFractions | src/stock_finder/analysis/deriver.py:246-247 | the capture rate lies in (0, 1], since the threshold is itself a captured winner value, and the exclusion rate in [0, 1] |
| Deriver.CaptureMeetsTarget | src/stock_finder/analysis/deriver.py:222-246 | for a target in (0, 1] (or [0, 1] for a lower-is-better variable), deriving does not raise and the capture rate reaches the target |
| Deriver.ThresholdCaptures | src/stock_finder/analysis/deriver.py:223-246 | for such a target the threshold index is in the list and the value read there captures at least the target share of the values |
| Deriver.CountAtSortedIndex | src/stock_finder/analysis/deriver.py:231-243 | the value at sorted index idx captures at least idx + 1 values for lower-is-better and at least n - idx for higher-is-better |
| Deriver.IndexInRange | src/stock_finder/analysis/deriver.py:229-236 | for such a target int(n·rate) capped at n - 1, or int(n·(1 - rate)) floored at 0, lies in the list and covers at least rate·n values |
| Deriver.SortedCount | src/stock_finder/analysis/deriver.py:239-244 | in a sorted list the element at idx is at least every element up to it and at most every one after it |
| Deriver.HigherAtZeroRateRaises | src/stock_finder/analysis/deriver.py:234-236 | a target of 0 for days_since_high indexes one past the end of the winner values and raises |
| Deriver.Meeting | src/stock_finder/analysis/deriver.py:277 | the number of winners meeting every threshold is at most the number of winners |
| Deriver.CombinedCaptureRate | src/stock_finder/analysis/deriver.py:257-278 | the combined rate is 0 with no thresholds or no winners, lies in [0, 1], and is 1 exactly when every winner meets every threshold |
| Deriver.MeetingAll | src/stock_finder/analysis/deriver.py:266-277 | all winners are counted exactly when each of them meets every threshold |
| Deriver.MeetingMonotone | src/stock_finder/analysis/deriver.py:266-277 | adding a threshold never raises the number of winners meeting them all |
| Deriver.CombinedRateMonotone | src/stock_finder/analysis/deriver.py:257-278 | adding a threshold to a non-empty set never raises the combined capture rate |
| Deriver.DeriveAllRaisedPrefix | src/stock_finder/analysis/deriver.py:117-130 | once the loop has raised on a prefix of the variables, the whole loop raises with that exception |
| Deriver.DeriveAllThresholds | src/stock_finder/analysis/deriver.py:117-130 | the loop keeps at most one threshold per variable asked for, each for a configured variable, with its operator and at one of the winner values |
| Deriver.DeriveAllSucceeds | src/stock_finder/analysis/deriver.py:117-236 | with a target in (0, 1] no variable raises |
| Deriver.DeriveThresholds | src/stock_finder/analysis/deriver.py:87-130 | the loop of derive over the variables asked for (all configured ones when none or an empty list is given) returns the thresholds DeriveAll specifies, or the first exception |
| Modes.MaxScore | src/stock_finder/scoring/modes.py:41-70 | the full mode's maximum is the number of criteria and the core mode's the number of core criteria |
| Modes.Weight | src/stock_finder/scoring/modes.py:48-65 | a weight is at most 3; under core mode it is 1 exactly for the core criteria; under weighted mode a name missing from the table weighs 1 |
| Modes.TableIsTheCriteria | src/stock_finder/scoring/modes.py:21-38 | the weight table covers exactly the eight criteria, their names are distinct, and the core criteria are among them |
| Modes.MaxScores | src/stock_finder/scoring/modes.py:41-45 | the maximum scores are 8, 2 and 10 for the full, core and weighted modes |
| Modes.WeightsSumToMaxScore | src/stock_finder/scoring/modes.py:41-65 | under every mode the weights of the eight criteria add up to that mode's maximum score, so a stock passing everything reaches it |
| Modes.FullTotalIsCount | src/stock_finder/scoring/modes.py:59-60 | under full mode a total of weights is the number of criteria counted |
| Modes.WeightedTotalIsTable | src/stock_finder/scoring/modes.py:44-64 | under weighted mode the total of the weights of tabled criteria is their sum in the table |
| Modes.CoreTotal | src/stock_finder/scoring/modes.py:38-62 | under core mode the eight criteria weigh 2 in total |
| Modes.DrawdownWeighsMost | src/stock_finder/scoring/modes.py:23-65 | no criterion weighs more than drawdown's 3 under any mode, and every criterion weighs 1 under full mode |
| CriteriaBase.Highs | src/stock_finder/scoring/criteria/base.py:49-63 | the High column: one entry per row, that row's high |
| CriteriaBase.Lows | src/stock_finder/scoring/criteria/base.py:56 | the Low column: one entry per row, that row's low |
| CriteriaBase.Volumes | src/stock_finder/scoring/criteria/base.py:105-122 | the Volume column: one entry per row, that row's volume |
| CriteriaBase.TwoYearHigh | src/stock_finder/scoring/criteria/base.py:37-50 | set exactly when the history has at least 50 rows, and then the largest high, reached by one of the rows |
| CriteriaBase.TwoYearLow | src/stock_finder/scoring/criteria/base.py:37-57 | set exactly when the history has at least 50 rows, and then the smallest low, reached by one of the rows |
| CriteriaBase.FirstMaxIndex | src/stock_finder/scoring/criteria/base.py:63 | idxmax: a valid index holding the largest value, with every earlier value strictly smaller |
| CriteriaBase.TwoYearHighDate | src/stock_finder/scoring/criteria/base.py:58-63 | set exactly when the history suffices, and then the date of the first row holding the two-year high |
| CriteriaBase.DaysSinceHigh | src/stock_finder/scoring/criteria/base.py:65-77 | set exactly when the history suffices, and then a count of rows, at most the history's length |
| CriteriaBase.DaysSinceHighCountsFromHigh | src/stock_finder/scoring/criteria/base.py:66-77 | on a history dated in increasing order and ending by the ignition date, the count is the number of rows from the first two-year high to the end |
| CriteriaBase.RangePosition | src/stock_finder/scoring/criteria/base.py:79-91 | set exactly when the history suffices and the two-year high differs from the low |
| CriteriaBase.RangePositionBounds | src/stock_finder/scoring/criteria/base.py:80-91 | for an ignition price within the range the position lies in [0, 1], and is 0 exactly at the low and 1 exactly at the high |
| CriteriaBase.PositionInRange | src/stock_finder/scoring/criteria/base.py:91 | (p - low) / (high - low) lies in [0, 1] for p in the range, 0 exactly at low and 1 exactly at high |
| CriteriaBase.EstimatedMarketCap | src/stock_finder/scoring/criteria/base.py:93-98 | set exactly when the shares outstanding are known |
| CriteriaBase.FirstDated | src/stock_finder/scoring/criteria/base.py:105-107 | the first row dated on the day, or none when no row is |
| CriteriaBase.LastBefore | src/stock_finder/scoring/criteria/base.py:110-112 | the last row dated before the day, or none when there is none |
| CriteriaBase.FirstAfter | src/stock_finder/scoring/criteria/base.py:110-112 | the first row dated after the day, or none when there is none |
| CriteriaBase.NearestIndex | src/stock_finder/scoring/criteria/base.py:110-113 | the nearest row is a valid index, and there is none exactly when no row lies before or after the day |
| CriteriaBase.VolumeAtIgnition | src/stock_finder/scoring/criteria/base.py:100-115 | a volume is found only when the history suffices, and it is the volume of one of the rows |
| CriteriaBase.VolumeAtIgnitionExists | src/stock_finder/scoring/criteria/base.py:100-115 | with enough history a volume is always found, and it is the first row dated on the ignition day when there is one |
| CriteriaBase.Tail | src/stock_finder/scoring/criteria/base.py:122 | tail(k) is a suffix of the column: its last k rows, all rows when k exceeds the length, and all but the first -k rows for a negative k |
| CriteriaBase.AvgVolume | src/stock_finder/scoring/criteria/base.py:117-125 | set exactly when the history suffices and the window tail(days) is non-empty |
| CriteriaBase.AvgVolumeBounds | src/stock_finder/scoring/criteria/base.py:122-125 | the average volume lies between any bounds of the history's volumes |
| CriteriaBase.ResultDict | src/stock_finder/scoring/criteria/base.py:147-155 | to_dict has exactly the keys name, passed, value, threshold and details |
| CriteriaBase.ResultDictRoundTrip | src/stock_finder/scoring/criteria/base.py:147-155 | to_dict loses nothing: reading the dictionary back gives the result |
| CriteriaBase.MissingDataResult | src/stock_finder/scoring/criteria/base.py:193-201 | the result names the criterion, fails, has neither value nor threshold, and its details start with "Unable to evaluate: " |
| Criteria.EvaluateDrawdown | src/stock_finder/scoring/criteria/drawdown.py:32-51 | the result is named drawdown; it has no value exactly when the history is short or the two-year high is 0; otherwise it reports the threshold and passes exactly when the drawdown, price / two-year high - 1, is at most the threshold |
| Criteria.EvaluateExtendedDecline | src/stock_finder/scoring/criteria/extended_decline.py:31-46 | no value exactly when the history is short; otherwise the value is days_since_high, the threshold min_days, and it passes exactly when the days reach min_days |
| Criteria.EvaluateNearLows | src/stock_finder/scoring/criteria/near_lows.py:32-47 | no value exactly when there is no range position; otherwise the value is the range position and it passes exactly when that is at most max_position |
| Criteria.EvaluateBelowSma | src/stock_finder/scoring/criteria/below_sma50.py:32-52 | no value exactly when the average is missing or 0; otherwise it reports the threshold and passes exactly when the distance from the average, price / average - 1, is strictly below it |
| Criteria.EvaluateVolumeExhaustion | src/stock_finder/scoring/criteria/volume_exhaustion.py:34-57 | no value exactly when the history is short, the ignition volume is not found, or the average volume is missing or 0; otherwise the value is the ignition volume over the average volume and it passes exactly when that ratio is at most max_ratio |
| Criteria.EvaluateMarketCap | src/stock_finder/scoring/criteria/market_cap.py:45-67 | never a threshold; no value exactly when the shares are unknown; otherwise the value is the estimated market cap and it passes exactly when that lies in [min_cap, max_cap] |
| Criteria.EvaluateTrendlineBreak | src/stock_finder/scoring/criteria/trendline_break.py:35-57 | no value exactly when the average is missing or 0; otherwise the value is price / average - 1, the threshold is 0, and it passes exactly when the price is strictly above the average |
| Criteria.EvaluateShape | src/stock_finder/scoring/criteria/base.py:193-201 | every result carries its criterion's name, a result without a value is a missing-data result, and every criterion but market cap reports a threshold exactly when it reports a value |
| Criteria.RatioAtMost | src/stock_finder/scoring/criteria/drawdown.py:43-45 | for a positive divisor, a / d is at most (below) b exactly when a is at most (below) b·d |
| Criteria.DrawdownPassesIff | src/stock_finder/scoring/criteria/drawdown.py:43-45 | for a positive two-year high, drawdown passes exactly when the price is at most (1 + threshold) times the high |
| Criteria.BelowSmaPassesIff | src/stock_finder/scoring/criteria/below_sma200.py:42-45 | for a positive average, the below-SMA criteria pass exactly when the price is strictly below (1 + threshold) times the average |
| Criteria.NearLowsPassesIff | src/stock_finder/scoring/criteria/near_lows.py:37-41 | on a non-empty range, near_lows passes exactly when the price lies in the bottom max_position share of it |
| Criteria.VolumeExhaustionPassesIff | src/stock_finder/scoring/criteria/volume_exhaustion.py:39-51 | with a positive average volume, the ignition volume is always found and the criterion passes exactly when it is at most max_ratio times the average |
| Criteria.VolumeVerdict | src/stock_finder/scoring/criteria/volume_exhaustion.py:48-51 | with both volumes known and a non-zero average, the verdict compares their ratio with max_ratio |
| Criteria.MarketCapStatusAgrees | src/stock_finder/scoring/criteria/market_cap.py:54-61 | the status reads "in sweet spot" exactly when the criterion passes |
| Criteria.TrendlineBreakAgreesWithValue | src/stock_finder/scoring/criteria/trendline_break.py:48-57 | for a positive average, the criterion passes exactly when its reported distance from the average exceeds the reported threshold 0 |
| Criteria.ExtendedDeclinePassesIff | src/stock_finder/scoring/criteria/extended_decline.py:36-40 | on a history dated in increasing order up to ignition, extended_decline passes exactly when at least min_days rows lie from the first two-year high on |
| Scorer.NameList | src/stock_finder/scoring/scorer.py:101-103 | one name per criterion, in order, each the criterion's own name |
| Scorer.DefaultNames | src/stock_finder/scoring/scorer.py:52-63 | the default criteria are, in order, drawdown, extended_decline, near_lows, below_sma50, below_sma200, volume_exhaustion, market_cap and trendline_break, all distinct |
| Scorer.DefaultCriteriaAreTheWeightedOnes | src/stock_finder/scoring/scorer.py:52-63 | there are eight default criteria, named exactly as the keys of the scoring-mode weight table |
| Scorer.SmaData | src/stock_finder/scoring/scorer.py:207-235 | sma50 is present exactly when there are at least 50 rows and a close among the last 50, and is then their mean; likewise sma200 with 200; no other key |
| Scorer.SmaWithinCloses | src/stock_finder/scoring/scorer.py:207-213 | every moving average lies between any bounds of the history's closes |
| Scorer.TailMeanWithin | src/stock_finder/scoring/scorer.py:209-212 | the mean of the closes among the last n rows lies between any bounds of the closes |
| Scorer.SharesFromQuote | src/stock_finder/scoring/scorer.py:215-223 | shares are estimated exactly when the quote was obtained and both its market cap and price are truthy, and then shares times price is the market cap |
| Scorer.BuildContext | src/stock_finder/scoring/scorer.py:181-236 | without a provider, an empty context; with one, it raises exactly when the start date 730 days back overflows or the provider raises, and otherwise holds the fetched history (empty for None), its moving averages and the quote's shares estimate, with the row's figures copied |
| Scorer.Prepare | src/stock_finder/scoring/scorer.py:76-95 | preparing a row raises exactly when a date does not parse or the context cannot be built |
| Scorer.Outcomes | src/stock_finder/scoring/scorer.py:101-102 | one result per criterion, in order, each that criterion evaluated on the context |
| Scorer.ResultsMap | src/stock_finder/scoring/scorer.py:98-103 | the criteria_results dictionary has exactly the criteria's names as keys |
| Scorer.ResultsStep | src/stock_finder/scoring/scorer.py:101-105 | one more criterion adds its result under its name and counts one more point exactly when it passed |
| Scorer.PassCountBounds | src/stock_finder/scoring/scorer.py:99-105 | the score is at most the number of criteria, equals it exactly when every criterion passed, and is 0 exactly when none did |
| Scorer.ResultsMapEntries | src/stock_finder/scoring/scorer.py:101-103 | with distinct names, each criterion's entry is its own result's dictionary |
| Scorer.ScoreCountsPassedEntries | src/stock_finder/scoring/scorer.py:98-105 | with distinct names, the score equals the number of entries of criteria_results marked passed |
| Scorer.GettersReadResult | src/stock_finder/scoring/scorer.py:244-264 | on a result's dictionary, _get_value gives its value, _get_value_int that value truncated toward zero, and _get_passed its pass |
| Scorer.GettersOfAbsentKey | src/stock_finder/scoring/scorer.py:246-263 | for a criterion missing from the results all three getters give None |
| Scorer.ScoreStockShape | src/stock_finder/scoring/scorer.py:65-123 | score_stock fails exactly when the row cannot be prepared; otherwise it copies the ticker, the id, the gain and the days to peak (0 when missing), has one entry per criterion name, and scores at most the number of criteria, reaching it exactly when every criterion passes |
| Scorer.MetricsReadResults | src/stock_finder/scoring/scorer.py:113-120 | with distinct names, each metric of the score is read from its own criterion's result: the value, truncated for days_since_high, or the pass for sma_crossover; drawdown and sma_crossover are None when their criteria were not scored |
| Scorer.DefaultScoreMetrics | src/stock_finder/scoring/scorer.py:52-123 | with the default criteria, the score is at most 8 and every metric is read from its criterion's result |
| Scorer.ProgressOf | src/stock_finder/scoring/scorer.py:155-157 | the progress calls for the first i rows are (k + 1, total, ticker of row k), one per row, in order |
| Scorer.Attempts | src/stock_finder/scoring/scorer.py:155-160 | one score_stock attempt per row, in order |
| Scorer.KeptStep | src/stock_finder/scoring/scorer.py:159-171 | one more attempt adds its score to the list exactly when it did not raise |
| Scorer.KeptResults | src/stock_finder/scoring/scorer.py:159-171 | the list holds at most one score per attempt, each one an attempt's result, and all of them when none raised |
| Scorer.AcceptedStep | src/stock_finder/scoring/scorer.py:163-164 | one more score is stored exactly when the store accepts it |
| Scorer.ScoresOfRows | src/stock_finder/scoring/scorer.py:154-179 | score_all keeps at most one score per row, each the score of some row and at most the number of criteria, and one per row when every row can be prepared |
| Scorer.FirstRaising | src/stock_finder/scoring/scorer.py:155-157 | the row whose on_progress call is the first to raise, every earlier call returning, or the row count when none raises |
| Scorer.KeptPrefix | src/stock_finder/scoring/scorer.py:159-161 | the scores kept from the first rows are a prefix of those kept from all rows |
| Scorer.AcceptedPrefix | src/stock_finder/scoring/scorer.py:163-164 | the store accepts a prefix of what it accepts from a longer list of scores |
| Scorer.ProgressFailureKeepsEarlierSaves | src/stock_finder/scoring/scorer.py:155-164 | when on_progress raises at a row, the scores already stored are a prefix of what a run without the failure stores |
| Scorer.NeumannScorer.constructor | src/stock_finder/scoring/scorer.py:33-50 | the given criteria are kept, even an empty list, and the default eight used only when none are given; nothing is stored or reported yet |
| Scorer.NeumannScorer.ScoreStock | src/stock_finder/scoring/scorer.py:65-123 | the loop over the criteria yields the score specified for the row |
| Scorer.NeumannScorer.ReportProgress | src/stock_finder/scoring/scorer.py:156-157 | one on_progress(i + 1, total, ticker) call is appended and nothing is stored |
| Scorer.NeumannScorer.Store | src/stock_finder/scoring/scorer.py:163-164 | add_neumann_score appends the score when the store accepts it and leaves the store as it was otherwise |
| Scorer.NeumannScorer.ScoreAll | src/stock_finder/scoring/scorer.py:125-179 | without a database score_all raises and changes nothing; otherwise it raises exactly when an on_progress call raises, after making the calls up to and including that one; without that it returns the score of every row that scores, in order, and reports progress for every row when a callback is given; with save it stores every kept score of the rows before the raising call (all rows when none raises) that the store accepts, a failed store leaving the score in the list |
| Report.Gain | src/stock_finder/scoring/report.py:74 | a missing or empty gain counts as 0, otherwise the stored gain |
| Report.NamesOf | src/stock_finder/scoring/report.py:59-62 | the names collected are exactly those some score with criteria_results evaluated |
| Report.CollectNames | src/stock_finder/scoring/report.py:59-62 | the loop over the scores collects exactly those names |
| Report.SplitGains | src/stock_finder/scoring/report.py:66-78 | the loop over the scores splits the gains of the scores that evaluated the criterion into those that passed it and those that did not, in order |
| Report.StatsOf | src/stock_finder/scoring/report.py:65-91 | one criterion's entry is the pass rate, the two counts and the two average gains of its split |
| Report.CalculateCriteriaStats | src/stock_finder/scoring/report.py:47-93 | an empty list gives no statistics; otherwise one entry per criterion name, each as specified for that criterion |
| Report.CountsPartition | src/stock_finder/scoring/report.py:69-80 | the passed and failed counts add up to the number of scores that evaluated the criterion |
| Report.PassedGainsFromRows | src/stock_finder/scoring/report.py:69-76 | every gain counted as passed is the gain of a score that evaluated the criterion with a truthy passed entry |
| Report.FailedGainsFromRows | src/stock_finder/scoring/report.py:69-78 | every gain counted as failed is the gain of a score that evaluated the criterion without a truthy passed entry |
| Report.StatsShape | src/stock_finder/scoring/report.py:59-91 | the statistics have one entry per criterion any score evaluated; in each the counts add up to a positive number of evaluations and the pass rate lies in [0, 1], positive exactly when some score passed |
| Report.StatsForShape | src/stock_finder/scoring/report.py:80-84 | for a criterion some score evaluated, the counts add up to a positive total and the pass rate is a share in [0, 1], positive exactly when something passed |
| Report.EvaluatedCountPositive | src/stock_finder/scoring/report.py:59-72 | a criterion some score evaluated has a positive number of evaluations |
| Report.AverageGainsWithin | src/stock_finder/scoring/report.py:85-90 | each average gain lies between any bounds of the gains, and is 0 when it averages over nothing |
| TickerSource.NonEmpty | src/stock_finder/data/ticker_source.py:60 | the entries kept are the non-empty ones: every input but the empty strings, none of them empty |
| TickerSource.LoadNormalisesNonEmpty | src/stock_finder/data/ticker_source.py:50-60 | load_tickers_from_list returns one entry per non-empty input, in order, each that input upper-cased and stripped |
| TickerSource.NormalizeIdempotent | src/stock_finder/data/ticker_source.py:60 | upper-casing and stripping a normalised ticker changes nothing |
| TickerSource.BlankEntrySurvivesAsEmpty | src/stock_finder/data/ticker_source.py:60 | an entry of spaces only passes the emptiness test and comes out as the empty ticker |
| TickerSource.LoadIdempotent | src/stock_finder/data/ticker_source.py:50-60 | loading a loaded list again changes nothing, as long as the first pass produced no empty ticker |
| TickerSource.DefaultTickersDistinct | src/stock_finder/data/ticker_source.py:63-88 | the default list holds fifteen distinct, non-empty symbols |
| Themes.ParseKey | src/stock_finder/dashboard/components/themes.py:22-29 | a key without "_wave" is all theme, wave 1; otherwise it is split at the last "_wave", the theme is the display name of the part before it, and the wave is the value of the part after it when that is a non-empty string of digits and 1 otherwise |
| Themes.LastTagAt | src/stock_finder/dashboard/components/themes.py:24 | in a + "_wave" + b with no underscore in b, the last "_wave" is the one right after a |
| Themes.ParseFindingKey | src/stock_finder/research/queries.py:193 | a key built as lower(theme) + "_wave" + wave reads back as that wave and the display name of the lower-cased theme |
| Themes.NegativeWaveReadsAsOne | src/stock_finder/dashboard/components/themes.py:26 | a key whose wave part is negative, such as x_wave-2, reads as wave 1 |
| Themes.MetricOr0 | src/stock_finder/dashboard/components/themes.py:35-36 | metrics.get(name, 0) keeps a present entry as it is, even an empty one, and gives 0 otherwise |
| Themes.GetThemeData | src/stock_finder/dashboard/components/themes.py:9-39 | one record per finding, in order, holding the parsed key, the sample size as the count, and the average gain and days read with a default of 0 |
| Frames.FilterWindow | src/stock_finder/analysis/analyzer.py:299-305 | the rows kept are exactly the rows of the frame dated within the closed window, no more than the frame |
| Frames.FilterWindowAll | src/stock_finder/analysis/analyzer.py:303-304 | a window holding every row keeps the frame unchanged |
| Frames.CloseSeries | src/stock_finder/utils/calculations.py:36 | dropping missing closes keeps no more entries than the frame has rows |
| Frames.CloseSeriesMembers | src/stock_finder/utils/calculations.py:36 | the close series holds exactly the dated non-missing closes of the frame |
| Sorting.SortByCorrect | src/stock_finder/analysis/statistics.py:32 | sorted returns its input in ascending order of the key, as a permutation |
| Sorting.SortBySorted | src/stock_finder/analysis/deriver.py:223 | sorting an already sorted list leaves it unchanged |
| Common.MeanBounds | src/stock_finder/analysis/statistics.py:35 | the mean of values lying between two bounds lies between them too |
| Common.SumBounds | src/stock_finder/analysis/statistics.py:35 | the sum of n values between lo and hi lies between n·lo and n·hi |
| Common.Trunc | src/stock_finder/scoring/scorer.py:258 | int() truncates toward zero: the floor for a non-negative number and minus the floor of its negation otherwise |
| Common.MaxOf | src/stock_finder/analysis/statistics.py:51 | max() is one of the values and at least every value |
| Common.MinOf | src/stock_finder/analysis/statistics.py:50 | min() is one of the values and at most every value |
| Text.DecimalRoundTrip | src/stock_finder/research/queries.py:193 | the decimal digits written for a wave number read back as that number |
| Text.RSplitOnce | src/stock_finder/dashboard/components/themes.py:23-24 | rsplit(sep, 1) yields one part, the whole string, exactly when sep does not occur, and otherwise two parts that rejoin with sep into the string |
| Text.LastOccurrence | src/stock_finder/dashboard/components/themes.py:24 | the position found is an occurrence and no later one exists; none is found exactly when there is no occurrence |
| Text.StripIdempotent | src/stock_finder/data/ticker_source.py:60 | stripping twice is stripping once |

## Left out

- SQLite persistence and the SQL analytics: `database.py`, `research/queries.py`, `research/runner.py`, `analysis/framework.py` and the reporting scripts are not part of this model. The analyzer and the scorer record what they would save in a `saved` field. Whether a database is present, and whether each score's save succeeds, are parameters. The deriver's `_save_criteria` and the database reads of `derive` and `generate_report` are left out: their rows and values are given as input.
- Network providers (`fmp_provider.py`, `yfinance_provider.py`, `nasdaq_ftp.py`): the provider wrapped by the cache and the scanner's data source are function parameters that return bars or None, or raise.
- The thread pool and `as_completed` scheduling: the completion order is a permutation parameter. Concurrency, timing and cancellation are not modelled.
- Concurrent writers racing on the cache directory: the cache is one object that is changed one call at a time.
- The Parquet format and file I/O: a cache file is a payload with a size and a modification time. `load_tickers_from_csv` is file I/O and is not modelled.
- The scipy regression fit, pandas weekly resampling and the square root in the standard deviation are function parameters. Their results are taken as given.
- Floating point: prices, ratios and statistics are exact reals, so NaN and infinities appear only where the core tests for them. These places are the close series (`dropna`) and `Statistics.Clean`.
- Criteria.EvaluateDrawdown, Criteria.EvaluateNearLows, Criteria.EvaluateBelowSma, Criteria.EvaluateVolumeExhaustion, Criteria.EvaluateTrendlineBreak: each keeps the unrounded value where the source stores `round(value, 4)`. The verdict is therefore exactly the threshold test on the stored value. In the source, the rounded value can sit on the other side of the threshold. `EvaluateExtendedDecline` and `EvaluateMarketCap` store their values unrounded, as the source does.
- Statistics.CalculateStats: the mean, median, standard deviation and percentiles are not rounded to 4 decimals.
- Statistics.CalculateLift: the lift is not rounded to 2 decimals.
- Deriver.DeriveThreshold: the threshold, the capture rate and the exclusion rate are not rounded to 4 decimals.
- Deriver.CombinedCaptureRate: the combined rate is not rounded to 4 decimals.
- Cache.CacheManager.GetStats: total_size_mb is stated only to within half a hundredth of the exact size in MiB, because that rounding is the only one the model keeps.
- Display strings are not modelled: `details` texts, `_format_cap`, log messages, `print_report` and the Rich progress bars. A criterion's details appear only as the verdict word or the market-cap status they report.
- Text operations (`upper`, `lower`, `strip`, `title`, `isdigit`) are modelled on ASCII letters, digits and whitespace only. Unicode case mapping is not.
- Clocks: `date.today()` and `datetime.now()` are parameters.
- The command line, the dashboard generator and its summary, setup-quality and watchlist panels, `config.py` and logging are not part of this model. The theme panel is modelled.
- The test-only `scoring_mode`/`max_score` arguments of NeumannScorer are absent from the scorer source and are not modelled. The same goes for `ParallelConfig` and `CacheConfig`: the fields the core reads are plain parameters.
- AnalysisModels.AnalysisToDict: states the key set and the `break_date` entry. The other values are copies of the fields and are not restated.
- AnalysisModels.StatsToDict: states the key set, the name and the sample size. The other values are copies of the fields and are not restated.
- Analyzer.RowResults: its own contract bounds only the number of analyses per row. `Analyzer.BothRow` and `Analyzer.AnalyzeAllSingle` state which analyses they are.
- Frames.CloseSeries: its own contract bounds only the length. `Frames.CloseSeriesMembers` states which closes are kept.
- Results.FromDict: the dataclass accepts values of any type, but the modelled record is typed, so a non-string ticker, a non-integer day count or a non-numeric price raises `TypeError` here, after every key has been read, where the source builds a record holding it.
- Dates.ParseIso: accepts only the `YYYY-MM-DD` form, which is `date.fromisoformat` up to Python 3.10; from Python 3.11 on it also accepts forms such as `20230101` and ISO week dates, which the model treats as parse failures.
- Calculations.ClosesResult: assumes the frame's dates are distinct. With a repeated date, pandas `get_loc` returns a slice or mask and the day subtraction raises; the model counts positions instead.
- CriteriaBase.NearestIndex: accepts the dates in any order. pandas `get_indexer(method="nearest")` raises on an index that is not monotonic.
- Scorer.SmaData: when every close of the tail is NaN, the source stores a NaN moving average under the key; the model leaves the key out.
- Results.Round2: rounds an exact half upwards. Python rounds the binary double, with ties to even, so the two can differ on a tie. The contract states only the half-cent bound, which holds for both.
