/**
 * The Neumann scorer: for each scan result, build the scoring context at
 * the ignition point (two years of prior bars, the 50- and 200-bar moving
 * averages, shares outstanding from a quote), evaluate every criterion,
 * and count the ones that pass; and the same for every result of a scan.
 */
module Scorer {
  import opened Common
  import opened Dates
  import opened Frames
  import opened CriteriaBase
  import opened Criteria
  import Modes
  import Analyzer

  /** `_default_criteria`: the eight criteria with their default thresholds. */
  const DefaultCriteria: seq<Criterion> := [
    Drawdown(-0.50),
    ExtendedDecline(90),
    NearLows(0.20),
    BelowSma50(-0.10),
    BelowSma200(-0.10),
    VolumeExhaustion(1.0, 50),
    MarketCap(200000000.0, 2000000000.0),
    TrendlineBreak("sma50")]

  /** The names of a list of criteria, in order. */
  function NameList(cs: seq<Criterion>): (ns: seq<string>)
    ensures |ns| == |cs| && forall i :: 0 <= i < |cs| ==> ns[i] == Name(cs[i])
  {
    seq(|cs|, i requires 0 <= i < |cs| => Name(cs[i]))
  }

  /** No name occurs twice. */
  predicate Distinct(ns: seq<string>)
  {
    forall i, j :: 0 <= i < j < |ns| ==> ns[i] != ns[j]
  }

  /** The names of a list, as a set. */
  function KeySet(ns: seq<string>): set<string>
  {
    set n | n in ns
  }

  /** The names of the default criteria, in order; no two are the same. */
  lemma DefaultNames()
    ensures NameList(DefaultCriteria) ==
      ["drawdown", "extended_decline", "near_lows", "below_sma50", "below_sma200",
       "volume_exhaustion", "market_cap", "trendline_break"]
    ensures Distinct(NameList(DefaultCriteria))
  {
    var ns := NameList(DefaultCriteria);
    assert ns[0] == "drawdown" && ns[1] == "extended_decline" && ns[2] == "near_lows";
    assert ns[3] == "below_sma50" && ns[4] == "below_sma200" && ns[5] == "volume_exhaustion";
    assert ns[6] == "market_cap" && ns[7] == "trendline_break";
  }

  /** The default criteria are eight, and exactly the ones the weight table scores. */
  lemma DefaultCriteriaAreTheWeightedOnes()
    ensures |DefaultCriteria| == 8
    ensures KeySet(NameList(DefaultCriteria)) == Modes.CriteriaWeights.Keys
  {
    DefaultNames();
  }

  /** The fields of a scan-result row the scorer reads; a missing field is `None`. */
  datatype ScanRecord = ScanRecord(
    id: Option<int>,
    ticker: string,
    lowDate: Analyzer.DateValue,
    highDate: Analyzer.DateValue,
    lowPrice: Option<real>,
    highPrice: Option<real>,
    gainPct: Option<real>,
    daysToPeak: Option<int>)

  /** The market cap and price of a provider's quote. */
  datatype Quote = Quote(marketCap: Option<real>, price: Option<real>)

  /**
   * The data provider, as seen by the scorer: its historical bars (the call
   * may raise), and `get_quote` when the provider has one (it may raise).
   */
  datatype DataSource = DataSource(
    historical: (string, Date, Date) -> Attempt<Option<seq<Bar>>>,
    quote: Option<string -> Attempt<Option<Quote>>>)

  /** `NeumannScore`, as filled in by `score_stock`. */
  datatype NeumannScore = NeumannScore(
    ticker: string,
    scanResultId: int,
    score: nat,
    criteriaResults: map<string, map<string, Value>>,
    drawdown: Option<real>,
    daysSinceHigh: Option<int>,
    rangePosition: Option<real>,
    pctFromSma50: Option<real>,
    pctFromSma200: Option<real>,
    volRatio: Option<real>,
    marketCapEstimate: Option<real>,
    smaCrossover: Option<bool>,
    gainPct: real,
    daysToPeak: int)

  /** `d.get(key, 0)` for a number. */
  function RealOrZero(x: Option<real>): real
  {
    if x.Some? then x.value else 0.0
  }

  function IntOrZero(x: Option<int>): int
  {
    if x.Some? then x.value else 0
  }

  /** A number that is present and non-zero, as Python's truth test sees it. */
  predicate Truthy(x: Option<real>)
  {
    x.Some? && x.value != 0.0
  }

  /** `history["Close"].tail(k).mean()`: the mean of the closes present among the last `k` bars. */
  function TailCloseMean(bars: seq<Bar>, k: nat): (m: Option<real>)
    requires k <= |bars|
  {
    var closes := Prices(CloseSeries(bars[|bars| - k..]));
    if closes == [] then None else Some(Mean(closes))
  }

  /** The moving averages of `_build_context`: `sma50` from 50 bars on, `sma200` from 200 bars on. */
  function SmaData(bars: seq<Bar>): (sma: map<string, real>)
    ensures sma.Keys <= {"sma50", "sma200"}
    ensures "sma50" in sma <==> |bars| >= 50 && TailCloseMean(bars, 50).Some?
    ensures "sma200" in sma <==> |bars| >= 200 && TailCloseMean(bars, 200).Some?
    ensures "sma50" in sma ==> sma["sma50"] == TailCloseMean(bars, 50).value
    ensures "sma200" in sma ==> sma["sma200"] == TailCloseMean(bars, 200).value
  {
    var m50 := if |bars| >= 50 then TailCloseMean(bars, 50) else None;
    var m200 := if |bars| >= 200 then TailCloseMean(bars, 200) else None;
    var sma := if m50.Some? then map["sma50" := m50.value] else map[];
    if m200.Some? then sma["sma200" := m200.value] else sma
  }

  /** The shares-outstanding estimate `market_cap / price` of a quote with both figures truthy. */
  function SharesFromQuote(q: Attempt<Option<Quote>>): (shares: Option<real>)
    ensures shares.Some? <==>
      q.Ok? && q.value.Some? && Truthy(q.value.value.marketCap) && Truthy(q.value.value.price)
    ensures shares.Some? ==> shares.value * q.value.value.price.value == q.value.value.marketCap.value
  {
    if q.Ok? && q.value.Some? && Truthy(q.value.value.marketCap) && Truthy(q.value.value.price) then
      var mc, p := q.value.value.marketCap.value, q.value.value.price.value;
      assert (mc / p) * p == mc;
      Some(mc / p)
    else None
  }

  /**
   * `_build_context`: without a provider, an empty history; otherwise the
   * bars of the two years (730 days) up to the ignition date, the moving
   * averages computed from them, and the shares estimate of a quote.
   */
  function BuildContext(source: Option<DataSource>, ticker: string, ignition: PyDate, price: real,
                        high: PyDate, highPrice: real, gain: real): (r: Attempt<ScoringContext>)
    ensures source.None? ==> r == Ok(ScoringContext(ticker, ignition, price, [], gain, high, highPrice, None, map[]))
    ensures r.Raised? <==> (source.Some? &&
      (!InRange(PlusDays(ignition, -730)) || source.value.historical(ticker, PlusDays(ignition, -730), ignition).Raised?))
    ensures r.Ok? ==>
      r.value.ticker == ticker && r.value.ignitionDate == ignition && r.value.ignitionPrice == price
      && r.value.gainPct == gain && r.value.highDate == high && r.value.highPrice == highPrice
      && r.value.smaData == SmaData(r.value.history)
    ensures r.Ok? && source.Some? ==>
      var got := source.value.historical(ticker, PlusDays(ignition, -730), ignition).value;
      r.value.history == (if got.Some? then got.value else [])
      && r.value.sharesOutstanding ==
           (if source.value.quote.Some? then SharesFromQuote(source.value.quote.value(ticker)) else None)
  {
    match source
    case None => Ok(ScoringContext(ticker, ignition, price, [], gain, high, highPrice, None, SmaData([])))
    case Some(src) =>
      var start := PlusDays(ignition, -730);
      if !InRange(start) then Raised("date value out of range")
      else
        match src.historical(ticker, start, ignition)
        case Raised(e) => Raised(e)
        case Ok(got) =>
          var history := if got.Some? then got.value else [];
          var shares := if src.quote.Some? then SharesFromQuote(src.quote.value(ticker)) else None;
          Ok(ScoringContext(ticker, ignition, price, history, gain, high, highPrice, shares, SmaData(history)))
  }

  /** The dates of the row parsed and the context built, or the first exception. */
  function Prepare(source: Option<DataSource>, rec: ScanRecord): (r: Attempt<ScoringContext>)
    ensures r.Raised? <==>
      Analyzer.ParseDate(rec.lowDate).Raised? || Analyzer.ParseDate(rec.highDate).Raised?
      || BuildContext(source, rec.ticker, Analyzer.ParseDate(rec.lowDate).value, RealOrZero(rec.lowPrice),
                      Analyzer.ParseDate(rec.highDate).value, RealOrZero(rec.highPrice), RealOrZero(rec.gainPct)).Raised?
  {
    match Analyzer.ParseDate(rec.lowDate)
    case Raised(e) => Raised(e)
    case Ok(low) =>
      match Analyzer.ParseDate(rec.highDate)
      case Raised(e) => Raised(e)
      case Ok(high) =>
        BuildContext(source, rec.ticker, low, RealOrZero(rec.lowPrice), high, RealOrZero(rec.highPrice),
                     RealOrZero(rec.gainPct))
  }

  /** The result of each criterion on the context, in order. */
  function Outcomes(cs: seq<Criterion>, ctx: ScoringContext): (rs: seq<CriterionResult>)
    ensures |rs| == |cs| && forall i :: 0 <= i < |cs| ==> rs[i] == Evaluate(cs[i], ctx)
  {
    seq(|cs|, i requires 0 <= i < |cs| => Evaluate(cs[i], ctx))
  }

  /** The `criteria_results` dictionary: each criterion's name mapped to its result's dictionary. */
  function ResultsMap(ns: seq<string>, rs: seq<CriterionResult>): (m: map<string, map<string, Value>>)
    requires |ns| == |rs|
    ensures m.Keys == KeySet(ns)
  {
    if ns == [] then map[]
    else
      var n := |ns| - 1;
      assert ns == ns[..n] + [ns[n]];
      ResultsMap(ns[..n], rs[..n])[ns[n] := ResultDict(rs[n])]
  }

  /** The number of results that passed. */
  function PassCount(rs: seq<CriterionResult>): nat
  {
    if rs == [] then 0
    else PassCount(rs[..|rs| - 1]) + (if rs[|rs| - 1].passed then 1 else 0)
  }

  /** Recording one more result. */
  lemma ResultsStep(ns: seq<string>, rs: seq<CriterionResult>, i: nat)
    requires |ns| == |rs| && i < |ns|
    ensures ResultsMap(ns[..i + 1], rs[..i + 1]) == ResultsMap(ns[..i], rs[..i])[ns[i] := ResultDict(rs[i])]
    ensures PassCount(rs[..i + 1]) == PassCount(rs[..i]) + (if rs[i].passed then 1 else 0)
  {
    assert ns[..i + 1][..i] == ns[..i] && rs[..i + 1][..i] == rs[..i];
  }

  /** `_get_value`: the `value` entry of a criterion's result as a number, if there is one. */
  function GetValue(results: map<string, map<string, Value>>, key: string): Option<real>
  {
    if key !in results || "value" !in results[key] then None
    else
      match results[key]["value"]
      case VReal(x) => Some(x)
      case VInt(i) => Some(i as real)
      case VBool(b) => Some(if b then 1.0 else 0.0)
      case _ => None
  }

  /** `_get_value_int`: the value truncated toward zero. */
  function GetValueInt(results: map<string, map<string, Value>>, key: string): Option<int>
  {
    var v := GetValue(results, key);
    if v.None? then None else Some(Trunc(v.value))
  }

  /** `_get_passed`: the `passed` entry of a criterion's result, if there is one. */
  function GetPassed(results: map<string, map<string, Value>>, key: string): Option<bool>
  {
    if key !in results || "passed" !in results[key] || !results[key]["passed"].VBool? then None
    else Some(results[key]["passed"].b)
  }

  /** The `NeumannScore` returned by `score_stock` for the row, the results and the count of passes. */
  function MakeScore(rec: ScanRecord, results: map<string, map<string, Value>>, total: nat): NeumannScore
  {
    NeumannScore(
      rec.ticker, IntOrZero(rec.id), total, results,
      GetValue(results, "drawdown"),
      GetValueInt(results, "extended_decline"),
      GetValue(results, "near_lows"),
      GetValue(results, "below_sma50"),
      GetValue(results, "below_sma200"),
      GetValue(results, "volume_exhaustion"),
      GetValue(results, "market_cap"),
      GetPassed(results, "trendline_break"),
      RealOrZero(rec.gainPct),
      IntOrZero(rec.daysToPeak))
  }

  /** `score_stock`, as a function of the provider, the criteria and the row. */
  function ScoreStockSpec(source: Option<DataSource>, cs: seq<Criterion>, rec: ScanRecord): Attempt<NeumannScore>
  {
    match Prepare(source, rec)
    case Raised(e) => Raised(e)
    case Ok(ctx) =>
      var rs := Outcomes(cs, ctx);
      Ok(MakeScore(rec, ResultsMap(NameList(cs), rs), PassCount(rs)))
  }

  /** The score is at most the number of criteria, and reaches it exactly when every criterion passes. */
  lemma {:induction false} PassCountBounds(rs: seq<CriterionResult>)
    ensures PassCount(rs) <= |rs|
    ensures PassCount(rs) == |rs| <==> forall i :: 0 <= i < |rs| ==> rs[i].passed
    ensures PassCount(rs) == 0 <==> forall i :: 0 <= i < |rs| ==> !rs[i].passed
  {
    if rs != [] {
      var rs' := rs[..|rs| - 1];
      PassCountBounds(rs');
      assert forall i :: 0 <= i < |rs'| ==> rs'[i] == rs[i];
    }
  }

  /** The names whose result dictionary records a pass. */
  function PassedNames(results: map<string, map<string, Value>>): set<string>
  {
    set n | n in results && "passed" in results[n] && results[n]["passed"] == VBool(true)
  }

  /** With distinct names, each criterion's entry in `criteria_results` is its own result's dictionary. */
  lemma {:induction false} ResultsMapEntries(ns: seq<string>, rs: seq<CriterionResult>)
    requires |ns| == |rs| && Distinct(ns)
    ensures forall i :: 0 <= i < |ns| ==> ResultsMap(ns, rs)[ns[i]] == ResultDict(rs[i])
  {
    if ns != [] {
      var n := |ns| - 1;
      var ns', rs' := ns[..n], rs[..n];
      assert Distinct(ns');
      ResultsMapEntries(ns', rs');
      var m, m' := ResultsMap(ns, rs), ResultsMap(ns', rs');
      assert m == m'[ns[n] := ResultDict(rs[n])];
      forall i | 0 <= i < |ns|
        ensures m[ns[i]] == ResultDict(rs[i])
      {
        if i < n {
          assert ns'[i] == ns[i] && rs'[i] == rs[i] && ns[i] != ns[n];
        }
      }
    }
  }

  /** Adding a new entry adds its name to the passed names exactly when the entry records a pass. */
  lemma PassedNamesStep(m: map<string, map<string, Value>>, k: string, r: CriterionResult)
    requires k !in m
    ensures PassedNames(m[k := ResultDict(r)]) == PassedNames(m) + (if r.passed then {k} else {})
  {
    var d := ResultDict(r);
    assert "passed" in d && d["passed"] == VBool(r.passed);
  }

  /** With distinct names, the score is the number of entries of `criteria_results` that record a pass. */
  lemma {:induction false} ScoreCountsPassedEntries(ns: seq<string>, rs: seq<CriterionResult>)
    requires |ns| == |rs| && Distinct(ns)
    ensures |PassedNames(ResultsMap(ns, rs))| == PassCount(rs)
  {
    if ns != [] {
      var n := |ns| - 1;
      var ns', rs' := ns[..n], rs[..n];
      assert Distinct(ns');
      ScoreCountsPassedEntries(ns', rs');
      assert ns[n] !in KeySet(ns');
      PassedNamesStep(ResultsMap(ns', rs'), ns[n], rs[n]);
    }
  }

  /** Reading a result's dictionary back with the getters gives its value, its truncation and its pass. */
  lemma GettersReadResult(results: map<string, map<string, Value>>, key: string, r: CriterionResult)
    requires key in results && results[key] == ResultDict(r)
    ensures GetValue(results, key) == r.value
    ensures GetValueInt(results, key) == (if r.value.Some? then Some(Trunc(r.value.value)) else None)
    ensures GetPassed(results, key) == Some(r.passed)
  {
  }

  /** The getters find nothing for a criterion that was not evaluated. */
  lemma GettersOfAbsentKey(results: map<string, map<string, Value>>, key: string)
    requires key !in results
    ensures GetValue(results, key).None? && GetValueInt(results, key).None? && GetPassed(results, key).None?
  {
  }

  /**
   * A scored row keeps its ticker, id (default 0), gain and days to peak
   * (default 0), has one result per criterion name, and scores between 0
   * and the number of criteria; it fails only when a date does not parse
   * or the context cannot be built.
   */
  lemma ScoreStockShape(source: Option<DataSource>, cs: seq<Criterion>, rec: ScanRecord)
    ensures var r := ScoreStockSpec(source, cs, rec);
      (r.Raised? <==> Prepare(source, rec).Raised?)
      && (r.Ok? ==>
            r.value.ticker == rec.ticker && r.value.scanResultId == IntOrZero(rec.id)
            && r.value.gainPct == RealOrZero(rec.gainPct) && r.value.daysToPeak == IntOrZero(rec.daysToPeak)
            && r.value.criteriaResults.Keys == KeySet(NameList(cs))
            && r.value.score <= |cs|
            && (r.value.score == |cs| <==> forall i :: 0 <= i < |cs| ==> Evaluate(cs[i], Prepare(source, rec).value).passed))
  {
    if Prepare(source, rec).Ok? {
      PassCountBounds(Outcomes(cs, Prepare(source, rec).value));
    }
  }

  /**
   * Each metric of a score is read from the result of the criterion with
   * that name: its value (truncated for `days_since_high`), or its pass for
   * `sma_crossover`; a metric whose criterion was not scored is empty.
   */
  predicate MetricsRead(s: NeumannScore, ns: seq<string>, rs: seq<CriterionResult>)
    requires |ns| == |rs|
  {
    (forall i :: 0 <= i < |ns| ==>
       (ns[i] == "drawdown" ==> s.drawdown == rs[i].value)
       && (ns[i] == "extended_decline" ==>
             s.daysSinceHigh == (if rs[i].value.Some? then Some(Trunc(rs[i].value.value)) else None))
       && (ns[i] == "near_lows" ==> s.rangePosition == rs[i].value)
       && (ns[i] == "below_sma50" ==> s.pctFromSma50 == rs[i].value)
       && (ns[i] == "below_sma200" ==> s.pctFromSma200 == rs[i].value)
       && (ns[i] == "volume_exhaustion" ==> s.volRatio == rs[i].value)
       && (ns[i] == "market_cap" ==> s.marketCapEstimate == rs[i].value)
       && (ns[i] == "trendline_break" ==> s.smaCrossover == Some(rs[i].passed)))
    && ("drawdown" !in ns ==> s.drawdown.None?)
    && ("trendline_break" !in ns ==> s.smaCrossover.None?)
  }

  /** With distinct names, `score_stock` reads every metric from its own criterion's result. */
  lemma MetricsReadResults(rec: ScanRecord, ns: seq<string>, rs: seq<CriterionResult>, total: nat)
    requires |ns| == |rs| && Distinct(ns)
    ensures MetricsRead(MakeScore(rec, ResultsMap(ns, rs), total), ns, rs)
  {
    var m := ResultsMap(ns, rs);
    ResultsMapEntries(ns, rs);
    forall i | 0 <= i < |ns|
      ensures GetValue(m, ns[i]) == rs[i].value && GetPassed(m, ns[i]) == Some(rs[i].passed)
      ensures GetValueInt(m, ns[i]) == (if rs[i].value.Some? then Some(Trunc(rs[i].value.value)) else None)
    {
      GettersReadResult(m, ns[i], rs[i]);
    }
    if "drawdown" !in ns {
      GettersOfAbsentKey(m, "drawdown");
    }
    if "trendline_break" !in ns {
      GettersOfAbsentKey(m, "trendline_break");
    }
  }

  /**
   * Scored with the default criteria, a row scores at most 8, and its
   * metrics are the values of the drawdown, extended-decline, near-lows,
   * SMA, volume and market-cap criteria, and `sma_crossover` the trendline
   * break's pass.
   */
  lemma DefaultScoreMetrics(source: Option<DataSource>, rec: ScanRecord)
    requires Prepare(source, rec).Ok?
    ensures var s := ScoreStockSpec(source, DefaultCriteria, rec).value;
      s.score <= 8 && MetricsRead(s, NameList(DefaultCriteria), Outcomes(DefaultCriteria, Prepare(source, rec).value))
  {
    var ctx := Prepare(source, rec).value;
    var rs := Outcomes(DefaultCriteria, ctx);
    DefaultNames();
    PassCountBounds(rs);
    MetricsReadResults(rec, NameList(DefaultCriteria), rs, PassCount(rs));
  }

  /**
   * The moving averages of a history: each exists exactly when the history
   * is long enough and has a close in the window, and lies between the
   * lowest and highest close of the history.
   */
  lemma SmaWithinCloses(bars: seq<Bar>, lo: real, hi: real)
    requires forall i :: 0 <= i < |bars| && bars[i].close.Some? ==> lo <= bars[i].close.value <= hi
    ensures forall k :: k in SmaData(bars) ==> lo <= SmaData(bars)[k] <= hi
  {
    var sma := SmaData(bars);
    forall k | k in sma
      ensures lo <= sma[k] <= hi
    {
      if k == "sma50" {
        TailMeanWithin(bars, 50, lo, hi);
      } else {
        TailMeanWithin(bars, 200, lo, hi);
      }
    }
  }

  /** The mean close of the last `n` bars lies between the lowest and highest close. */
  lemma TailMeanWithin(bars: seq<Bar>, n: nat, lo: real, hi: real)
    requires n <= |bars|
    requires forall i :: 0 <= i < |bars| && bars[i].close.Some? ==> lo <= bars[i].close.value <= hi
    ensures TailCloseMean(bars, n).Some? ==> lo <= TailCloseMean(bars, n).value <= hi
  {
    var window := bars[|bars| - n..];
    var closes := Prices(CloseSeries(window));
    if closes != [] {
      CloseSeriesMembers(window);
      forall i | 0 <= i < |closes|
        ensures lo <= closes[i] <= hi
      {
        var p := CloseSeries(window)[i];
        assert p in CloseSeries(window);
        var b :| b in window && b.close == Some(p.price) && b.date == p.date;
        var j :| 0 <= j < |window| && window[j] == b;
        assert bars[|bars| - n + j] == b;
      }
      MeanBounds(closes, lo, hi);
    }
  }

  /** One `on_progress(i + 1, total, ticker)` call. */
  datatype Progress = Progress(current: int, total: int, ticker: string)

  /** The progress calls for the first `i` rows. */
  function ProgressOf(rows: seq<ScanRecord>, i: nat): (p: seq<Progress>)
    requires i <= |rows|
    ensures |p| == i
    ensures forall k :: 0 <= k < i ==> p[k] == Progress(k + 1, |rows|, rows[k].ticker)
  {
    seq(i, k requires 0 <= k < i => Progress(k + 1, |rows|, rows[k].ticker))
  }

  /** An `on_progress` callback: whether one is given, and the calls on which it raises. */
  datatype ProgressCallback = ProgressCallback(given: bool, raises: Progress -> bool)

  /** The exception a raising `on_progress` call propagates out of `score_all`. */
  const ProgressError: string := "on_progress raised"

  /** The progress call for row `i` is made and raises. */
  predicate RaisesAt(rows: seq<ScanRecord>, cb: ProgressCallback, i: nat)
    requires i < |rows|
  {
    cb.given && cb.raises(Progress(i + 1, |rows|, rows[i].ticker))
  }

  /** The first row from `i` on whose progress call raises, or `|rows|` when none does. */
  function FirstRaising(rows: seq<ScanRecord>, cb: ProgressCallback, i: nat): (k: nat)
    requires i <= |rows|
    ensures i <= k <= |rows|
    ensures forall j :: i <= j < k ==> !RaisesAt(rows, cb, j)
    ensures k < |rows| ==> RaisesAt(rows, cb, k)
    decreases |rows| - i
  {
    if i == |rows| || RaisesAt(rows, cb, i) then i else FirstRaising(rows, cb, i + 1)
  }

  /** `score_stock` on each row, in order. */
  function Attempts(source: Option<DataSource>, cs: seq<Criterion>, rows: seq<ScanRecord>): (atts: seq<Attempt<NeumannScore>>)
    ensures |atts| == |rows| && forall i :: 0 <= i < |rows| ==> atts[i] == ScoreStockSpec(source, cs, rows[i])
  {
    seq(|rows|, i requires 0 <= i < |rows| => ScoreStockSpec(source, cs, rows[i]))
  }

  /** The results of the attempts that did not raise, in order. */
  function Kept<T>(atts: seq<Attempt<T>>): seq<T>
  {
    if atts == [] then []
    else
      var r := atts[|atts| - 1];
      Kept(atts[..|atts| - 1]) + (if r.Ok? then [r.value] else [])
  }

  /** The scores of the rows that score without an exception, in order. */
  function ScoresOf(source: Option<DataSource>, cs: seq<Criterion>, rows: seq<ScanRecord>): seq<NeumannScore>
  {
    Kept(Attempts(source, cs, rows))
  }

  /** Keeping the first `i + 1` attempts adds the result of attempt `i`, when it has one. */
  lemma KeptStep<T>(atts: seq<Attempt<T>>, i: nat)
    requires i < |atts|
    ensures Kept(atts[..i + 1]) == Kept(atts[..i]) + (if atts[i].Ok? then [atts[i].value] else [])
  {
    assert atts[..i + 1][..i] == atts[..i];
  }

  /**
   * At most one result per attempt is kept, each the result of an attempt,
   * and all of them when none raised.
   */
  lemma {:induction false} KeptResults<T>(atts: seq<Attempt<T>>)
    ensures |Kept(atts)| <= |atts|
    ensures forall x :: x in Kept(atts) ==> Ok(x) in atts
    ensures (forall i :: 0 <= i < |atts| ==> atts[i].Ok?) ==> |Kept(atts)| == |atts|
  {
    if atts != [] {
      var rest := atts[..|atts| - 1];
      KeptResults(rest);
      assert forall a :: a in rest ==> a in atts;
      assert forall i :: 0 <= i < |rest| ==> rest[i] == atts[i];
    }
  }

  /** The scores the database accepts, in order. */
  function Accepted(scores: seq<NeumannScore>, saveOk: NeumannScore -> bool): seq<NeumannScore>
  {
    if scores == [] then []
    else Accepted(scores[..|scores| - 1], saveOk) + (if saveOk(scores[|scores| - 1]) then [scores[|scores| - 1]] else [])
  }

  /** Scoring the first `k` rows makes the first `k` attempts. */
  lemma AttemptsPrefix(source: Option<DataSource>, cs: seq<Criterion>, rows: seq<ScanRecord>, k: nat)
    requires k <= |rows|
    ensures Attempts(source, cs, rows[..k]) == Attempts(source, cs, rows)[..k]
  {
  }

  /** The results kept from a prefix of the attempts are a prefix of those kept from all of them. */
  lemma {:induction false} KeptPrefix<T>(atts: seq<Attempt<T>>, k: nat)
    requires k <= |atts|
    ensures Kept(atts[..k]) <= Kept(atts)
    decreases |atts|
  {
    if k < |atts| {
      var init := atts[..|atts| - 1];
      assert init[..k] == atts[..k];
      KeptPrefix(init, k);
    } else {
      assert atts[..k] == atts;
    }
  }

  /** The database accepts a prefix of what it accepts from a longer list. */
  lemma {:induction false} AcceptedPrefix(a: seq<NeumannScore>, b: seq<NeumannScore>, saveOk: NeumannScore -> bool)
    requires a <= b
    ensures Accepted(a, saveOk) <= Accepted(b, saveOk)
    decreases |b|
  {
    if |a| < |b| {
      var init := b[..|b| - 1];
      assert a <= init;
      AcceptedPrefix(a, init, saveOk);
    } else {
      assert a == b;
    }
  }

  /**
   * When `on_progress` raises at row `k`, the scores stored before it are a
   * prefix of what a run without the failure stores: they stay stored, and
   * the rest are never saved.
   */
  lemma ProgressFailureKeepsEarlierSaves(source: Option<DataSource>, cs: seq<Criterion>, rows: seq<ScanRecord>,
                                         k: nat, saveOk: NeumannScore -> bool)
    requires k <= |rows|
    ensures Accepted(ScoresOf(source, cs, rows[..k]), saveOk) <= Accepted(ScoresOf(source, cs, rows), saveOk)
  {
    AttemptsPrefix(source, cs, rows, k);
    KeptPrefix(Attempts(source, cs, rows), k);
    AcceptedPrefix(ScoresOf(source, cs, rows[..k]), ScoresOf(source, cs, rows), saveOk);
  }

  /** The progress calls for one more row. */
  lemma ProgressStep(rows: seq<ScanRecord>, i: nat)
    requires i < |rows|
    ensures ProgressOf(rows, i + 1) == ProgressOf(rows, i) + [Progress(i + 1, |rows|, rows[i].ticker)]
  {
  }

  /** Appending one element after a concatenation. */
  lemma AppendOne<T>(a: seq<T>, b: seq<T>, x: T)
    ensures a + (b + [x]) == a + b + [x]
  {
  }

  /** Storing one more score adds it when the database accepts it. */
  lemma AcceptedStep(scores: seq<NeumannScore>, s: NeumannScore, saveOk: NeumannScore -> bool)
    ensures Accepted(scores + [s], saveOk) == Accepted(scores, saveOk) + (if saveOk(s) then [s] else [])
  {
    assert (scores + [s])[..|scores|] == scores;
  }

  /**
   * `score_all` keeps one score per row that scores, each the score of its
   * row and none above the number of criteria.
   */
  lemma ScoresOfRows(source: Option<DataSource>, cs: seq<Criterion>, rows: seq<ScanRecord>)
    ensures |ScoresOf(source, cs, rows)| <= |rows|
    ensures forall s :: s in ScoresOf(source, cs, rows) ==>
      s.score <= |cs| && exists i :: 0 <= i < |rows| && ScoreStockSpec(source, cs, rows[i]) == Ok(s)
    ensures (forall i :: 0 <= i < |rows| ==> Prepare(source, rows[i]).Ok?) ==> |ScoresOf(source, cs, rows)| == |rows|
  {
    var atts := Attempts(source, cs, rows);
    KeptResults(atts);
    forall s | s in ScoresOf(source, cs, rows)
      ensures s.score <= |cs| && exists i :: 0 <= i < |rows| && ScoreStockSpec(source, cs, rows[i]) == Ok(s)
    {
      var i :| 0 <= i < |atts| && atts[i] == Ok(s);
      ScoreStockShape(source, cs, rows[i]);
    }
    if forall i :: 0 <= i < |rows| ==> Prepare(source, rows[i]).Ok? {
      forall i | 0 <= i < |rows|
        ensures atts[i].Ok?
      {
        assert Prepare(source, rows[i]).Ok?;
      }
    }
  }

  class NeumannScorer {
    const source: Option<DataSource>
    const criteria: seq<Criterion>
    const hasDb: bool
    /** The scores stored with `add_neumann_score`. */
    var saved: seq<NeumannScore>
    /** The `on_progress` calls made. */
    var progress: seq<Progress>

    /** `criteria` when given (even an empty list), the default eight otherwise. */
    constructor (source: Option<DataSource>, criteria: Option<seq<Criterion>>, hasDb: bool)
      ensures this.source == source && this.hasDb == hasDb
      ensures this.criteria == (if criteria.Some? then criteria.value else DefaultCriteria)
      ensures saved == [] && progress == []
    {
      this.source := source;
      this.criteria := if criteria.Some? then criteria.value else DefaultCriteria;
      this.hasDb := hasDb;
      saved := [];
      progress := [];
    }

    /** `score_stock`: evaluate every criterion on the row's context and count the passes. */
    method ScoreStock(rec: ScanRecord) returns (r: Attempt<NeumannScore>)
      ensures r == ScoreStockSpec(source, criteria, rec)
    {
      var prepared := Prepare(source, rec);
      if prepared.Raised? {
        return Raised(prepared.message);
      }
      var ctx := prepared.value;
      var results: map<string, map<string, Value>> := map[];
      var total := 0;
      ghost var ns, rs := NameList(criteria), Outcomes(criteria, ctx);
      for i := 0 to |criteria|
        invariant results == ResultsMap(ns[..i], rs[..i])
        invariant total == PassCount(rs[..i])
      {
        ResultsStep(ns, rs, i);
        var c := criteria[i];
        var result := Evaluate(c, ctx);
        results := results[Name(c) := ResultDict(result)];
        if result.passed {
          total := total + 1;
        }
      }
      assert ns[..|ns|] == ns && rs[..|rs|] == rs;
      return Ok(MakeScore(rec, results, total));
    }

    /** `on_progress(i + 1, total, ticker)` */
    method ReportProgress(ghost before: seq<Progress>, rows: seq<ScanRecord>, i: nat)
      requires i < |rows| && progress == before + ProgressOf(rows, i)
      modifies this
      ensures progress == before + ProgressOf(rows, i + 1) && saved == old(saved)
    {
      ProgressStep(rows, i);
      AppendOne(before, ProgressOf(rows, i), Progress(i + 1, |rows|, rows[i].ticker));
      progress := progress + [Progress(i + 1, |rows|, rows[i].ticker)];
    }

    /** `add_neumann_score`, which may fail and leave the store as it was. */
    method Store(ghost before: seq<NeumannScore>, scores: seq<NeumannScore>, score: NeumannScore,
                 saveOk: NeumannScore -> bool)
      requires saved == before + Accepted(scores, saveOk)
      modifies this
      ensures saved == before + Accepted(scores + [score], saveOk) && progress == old(progress)
    {
      AcceptedStep(scores, score, saveOk);
      if saveOk(score) {
        AppendOne(before, Accepted(scores, saveOk), score);
        saved := saved + [score];
      }
    }

    /**
     * `score_all` over the rows of a scan run: without a database it raises;
     * otherwise it reports progress for every row (when a callback is
     * given), keeps the score of every row that scores, and with `save`
     * stores each kept score, a failed store leaving the score in the list.
     * A progress call that raises ends the run with that exception: the
     * scores gathered are lost, and those already stored stay stored.
     */
    method ScoreAll(rows: seq<ScanRecord>, save: bool, onProgress: ProgressCallback, saveOk: NeumannScore -> bool)
      returns (r: Attempt<seq<NeumannScore>>)
      modifies this
      ensures !hasDb ==> r.Raised? && saved == old(saved) && progress == old(progress)
      ensures hasDb ==> (r.Raised? <==> FirstRaising(rows, onProgress, 0) < |rows|)
      ensures hasDb && r.Raised? ==> r == Raised(ProgressError)
      ensures hasDb && r.Ok? ==> r.value == ScoresOf(source, criteria, rows)
      ensures hasDb ==>
        var k := FirstRaising(rows, onProgress, 0);
        progress == old(progress) + (if onProgress.given then ProgressOf(rows, if k < |rows| then k + 1 else k) else [])
      ensures hasDb ==>
        var k := FirstRaising(rows, onProgress, 0);
        saved == old(saved) + (if save then Accepted(ScoresOf(source, criteria, rows[..k]), saveOk) else [])
    {
      if !hasDb {
        return Raised("Database required to score scan run");
      }
      var scores: seq<NeumannScore> := [];
      ghost var atts := Attempts(source, criteria, rows);
      ghost var k := FirstRaising(rows, onProgress, 0);
      for i := 0 to |rows|
        invariant forall j :: 0 <= j < i ==> !RaisesAt(rows, onProgress, j)
        invariant scores == Kept(atts[..i])
        invariant progress == old(progress) + (if onProgress.given then ProgressOf(rows, i) else [])
        invariant saved == old(saved) + (if save then Accepted(scores, saveOk) else [])
      {
        if onProgress.given {
          ReportProgress(old(progress), rows, i);
          if onProgress.raises(Progress(i + 1, |rows|, rows[i].ticker)) {
            assert RaisesAt(rows, onProgress, i);
            assert k == i;
            AttemptsPrefix(source, criteria, rows, i);
            return Raised(ProgressError);
          }
        }
        var score := ScoreStock(rows[i]);
        KeptStep(atts, i);
        if score.Ok? {
          if save {
            Store(old(saved), scores, score.value, saveOk);
          }
          scores := scores + [score.value];
        }
      }
      assert k == |rows| && rows[..k] == rows;
      assert atts[..|atts|] == atts;
      return Ok(scores);
    }
  }
}
