/**
 * The trendline analyzer: for one scan result, fetch the prices around the
 * move, cut them to the move itself, find the swing lows and the rising
 * ones among them, fit a line through those and measure how well the
 * price respected it; and the same for a list of scan results.
 */
module Analyzer {
  import opened Common
  import opened Dates
  import opened Frames
  import opened AnalysisModels
  import opened SwingDetection
  import opened TouchDetection

  /** A date field of a scan-result row: a `date`, a string, or anything else. */
  datatype DateValue = DateObj(d: PyDate) | DateText(s: string) | Unparseable

  /** The fields of a scan-result row the analyzer reads. */
  datatype ScanRow = ScanRow(id: int, ticker: string, lowDate: DateValue, highDate: DateValue,
                             gainPct: Option<real>, daysToPeak: Option<int>)

  /**
   * The calls the analyzer makes into code outside the model: the data
   * provider (which may raise), the weekly resampling of a frame, and the
   * least-squares fit through the ascending lows.
   */
  datatype Services = Services(
    fetch: (string, Date, Date) -> Attempt<Option<seq<Bar>>>,
    resample: seq<Bar> -> seq<Bar>,
    fit: seq<SwingPoint> -> Option<TrendlineFit>)

  /** `_parse_date`: a date as it is, an ISO string parsed, anything else a `ValueError`. */
  function ParseDate(v: DateValue): (r: Attempt<Date>)
    ensures r.Ok? ==> InRange(r.value)
    ensures v.DateObj? ==> r == Ok(v.d)
    ensures v.Unparseable? ==> r.Raised?
  {
    match v
    case DateObj(d) => Ok(d)
    case DateText(s) =>
      (match ParseIso(s)
       case Some(d) => Ok(d)
       case None => Raised("Invalid isoformat string: " + s))
    case Unparseable => Raised("Cannot parse date")
  }

  /** A date written in ISO form is read back as that date; a string that is not such a form raises. */
  lemma ParseDateText(d: Date, s: string)
    requires InRange(d)
    ensures ParseDate(DateText(Iso(d))) == Ok(d)
    ensures ParseIso(s).None? ==> ParseDate(DateText(s)).Raised?
    ensures ParseDate(DateText(s)).Ok? ==> Iso(ParseDate(DateText(s)).value) == s
  {
    IsoRoundTrip(d);
    if ParseIso(s).Some? {
      ParseIsoCanonical(s);
    }
  }

  /**
   * The fetch window `[low - buffer, high + buffer]`; a bound outside the
   * years Python can represent raises `OverflowError`.
   */
  function FetchWindow(low: Date, high: Date, buffer: int): (w: Attempt<(Date, Date)>)
    requires InRange(low) && InRange(high)
    ensures w.Ok? ==>
      InRange(w.value.0) && InRange(w.value.1)
      && DaysBetween(w.value.0, low) == buffer && DaysBetween(high, w.value.1) == buffer
    ensures w.Raised? <==> !InRange(PlusDays(low, -buffer)) || !InRange(PlusDays(high, buffer))
  {
    OrdinalPlusDays(low, -buffer);
    OrdinalPlusDays(high, buffer);
    var start := PlusDays(low, -buffer);
    var end := PlusDays(high, buffer);
    if !InRange(start) || !InRange(end) then Raised("date value out of range")
    else Ok((start, end))
  }

  /** An analysis without a trendline: the row's identity, the swing lows found (if any) and the scan figures. */
  function Unformed(row: ScanRow, timeframe: string, swings: seq<SwingPoint>): TrendlineAnalysis
  {
    TrendlineAnalysis(row.ticker, row.id, timeframe, false, None, |swings|, None, None, 0, None, None,
                      None, None, row.gainPct, row.daysToPeak, None, swings, [])
  }

  /** `[abs(t.deviation_pct) for t in touches]` */
  function AbsDeviations(touches: seq<TouchPoint>): (ds: seq<real>)
    ensures |ds| == |touches|
    ensures forall i :: 0 <= i < |touches| ==> ds[i] == Abs(touches[i].deviationPct)
  {
    seq(|touches|, i requires 0 <= i < |touches| => Abs(touches[i].deviationPct))
  }

  /**
   * `slope / intercept * 100`: the daily slope in percent of the intercept,
   * unset when either is zero.
   */
  function SlopePctPerDay(fit: TrendlineFit): (r: Option<real>)
    ensures r.None? <==> fit.slope == 0.0 || fit.intercept == 0.0
    ensures r.Some? ==> r.value * fit.intercept == fit.slope * 100.0
  {
    if fit.slope != 0.0 && fit.intercept != 0.0 then
      var pct := fit.slope / fit.intercept * 100.0;
      assert pct * fit.intercept == fit.slope * 100.0;
      Some(pct)
    else None
  }

  /** The metrics of a fitted line through the ascending lows `asc` and its touches. */
  function Measured(cfg: TrendlineConfig, row: ScanRow, timeframe: string, swings: seq<SwingPoint>,
                    asc: seq<SwingPoint>, fit: TrendlineFit, touches: seq<TouchPoint>): TrendlineAnalysis
    requires forall x :: x in asc ==> InRange(x.date)
  {
    var daysToForm :=
      if |asc| >= 2 then
        var first, last := asc[0], asc[|asc| - 1];
        assert first in asc && last in asc;
        assert InRange(first.date) && InRange(last.date);
        Some(DaysBetween(asc[0].date, asc[|asc| - 1].date))
      else None;
    var slopePct := SlopePctPerDay(fit);
    var ds := AbsDeviations(touches);
    var avg := if touches != [] then Some(Mean(ds) * 100.0) else None;
    var mx := if touches != [] then Some(MaxOf(ds) * 100.0) else None;
    TrendlineAnalysis(row.ticker, row.id, timeframe, fit.rSquared >= cfg.minRSquared, daysToForm, |swings|,
                      Some(fit.rSquared), slopePct, |touches|, avg, mx, None, None, row.gainPct, row.daysToPeak,
                      Some(fit), swings, touches)
  }

  /** The rows analyzed: the frame, resampled for the weekly timeframe, cut to the move `[low, high]`. */
  function Period(svc: Services, timeframe: string, df: seq<Bar>, low: Date, high: Date): seq<Bar>
  {
    FilterWindow(if timeframe == "weekly" then svc.resample(df) else df, low, high)
  }

  /** The swing dates are dates of the frame, so they are representable dates. */
  lemma SwingDatesInRange(bars: seq<Bar>, k: nat)
    ensures forall x :: x in Ascending(Swings(bars, k, Lows)) ==> InRange(x.date)
  {
    var swings := Swings(bars, k, Lows);
    AscendingMembers(swings);
    SwingsBelowAreSwings(bars, k, Lows, |bars|);
    forall x | x in swings
      ensures x.barIndex < |bars| && x.date == bars[x.barIndex].date
    {
      var t :| 0 <= t < |swings| && swings[t] == x;
    }
  }

  /** `analyze_stock` once the frame `df` has been fetched (`None` already turned into no rows). */
  function AnalyzeFrame(svc: Services, cfg: TrendlineConfig, row: ScanRow, timeframe: string,
                        low: Date, high: Date, df: seq<Bar>): TrendlineAnalysis
  {
    if df == [] then Unformed(row, timeframe, [])
    else
      var bars := Period(svc, timeframe, df, low, high);
      if bars == [] then Unformed(row, timeframe, [])
      else
        var swings := Swings(bars, cfg.swingLookback, Lows);
        var asc := Ascending(swings);
        if |asc| < cfg.minTouches then Unformed(row, timeframe, swings)
        else
          match svc.fit(asc)
          case None => Unformed(row, timeframe, swings)
          case Some(fit) =>
            SwingDatesInRange(bars, cfg.swingLookback);
            Measured(cfg, row, timeframe, swings, asc, fit, Touches(bars, fit, cfg.touchTolerance))
  }

  /**
   * `analyze_stock(scan_result, timeframe)`: raises when a date does not
   * parse, the fetch window leaves the representable years or the provider
   * raises; otherwise the analysis of the fetched frame.
   */
  function AnalyzeStockSpec(svc: Services, cfg: TrendlineConfig, row: ScanRow, timeframe: string): (r: Attempt<TrendlineAnalysis>)
    ensures r.Raised? <==>
      ParseDate(row.lowDate).Raised? || ParseDate(row.highDate).Raised?
      || FetchWindow(ParseDate(row.lowDate).value, ParseDate(row.highDate).value, cfg.dataBufferDays).Raised?
      || (var w := FetchWindow(ParseDate(row.lowDate).value, ParseDate(row.highDate).value, cfg.dataBufferDays).value;
          svc.fetch(row.ticker, w.0, w.1).Raised?)
    ensures r.Ok? ==>
      var low, high := ParseDate(row.lowDate).value, ParseDate(row.highDate).value;
      var w := FetchWindow(low, high, cfg.dataBufferDays).value;
      var got := svc.fetch(row.ticker, w.0, w.1).value;
      r.value == AnalyzeFrame(svc, cfg, row, timeframe, low, high, if got.None? then [] else got.value)
  {
    match ParseDate(row.lowDate)
    case Raised(e) => Raised(e)
    case Ok(low) =>
      match ParseDate(row.highDate)
      case Raised(e) => Raised(e)
      case Ok(high) =>
        match FetchWindow(low, high, cfg.dataBufferDays)
        case Raised(e) => Raised(e)
        case Ok((start, end)) =>
          match svc.fetch(row.ticker, start, end)
          case Raised(e) => Raised(e)
          case Ok(got) => Ok(AnalyzeFrame(svc, cfg, row, timeframe, low, high, if got.None? then [] else got.value))
  }

  /** Every branch copies the row's identity and scan figures, and none sets a break. */
  lemma AnalysisCopiesRow(svc: Services, cfg: TrendlineConfig, row: ScanRow, timeframe: string,
                          low: Date, high: Date, df: seq<Bar>)
    ensures var a := AnalyzeFrame(svc, cfg, row, timeframe, low, high, df);
      a.ticker == row.ticker && a.scanResultId == row.id && a.timeframe == timeframe
      && a.gainPct == row.gainPct && a.daysToPeak == row.daysToPeak
      && a.breakDate.None? && a.breakPrice.None?
      && a.swingLowCount == |a.swingLows| && a.touchCount == |a.touches|
  {
  }

  /**
   * A trendline is formed exactly when there are rows in the move, at
   * least `min_touches` ascending swing lows, a fit through them, and the
   * fit's R² reaches `min_r_squared`.
   */
  lemma FormedIff(svc: Services, cfg: TrendlineConfig, row: ScanRow, timeframe: string,
                  low: Date, high: Date, df: seq<Bar>)
    ensures var a := AnalyzeFrame(svc, cfg, row, timeframe, low, high, df);
      var bars := Period(svc, timeframe, df, low, high);
      var asc := Ascending(Swings(bars, cfg.swingLookback, Lows));
      a.trendlineFormed <==>
        df != [] && bars != [] && |asc| >= cfg.minTouches && svc.fit(asc).Some?
        && svc.fit(asc).value.rSquared >= cfg.minRSquared
  {
  }

  /** Without rows, before or after cutting to the move, nothing is formed and no swing lows are counted. */
  lemma NoDataIsUnformed(svc: Services, cfg: TrendlineConfig, row: ScanRow, timeframe: string,
                         low: Date, high: Date, df: seq<Bar>)
    requires df == [] || Period(svc, timeframe, df, low, high) == []
    ensures var a := AnalyzeFrame(svc, cfg, row, timeframe, low, high, df);
      !a.trendlineFormed && a.swingLowCount == 0 && a.touchCount == 0 && a.trendlineFit.None?
  {
  }

  /**
   * Too few ascending lows, or no fit through them, leaves the trendline
   * unformed but still reports every swing low of the move.
   */
  lemma NoLineIsUnformed(svc: Services, cfg: TrendlineConfig, row: ScanRow, timeframe: string,
                         low: Date, high: Date, df: seq<Bar>)
    requires df != [] && Period(svc, timeframe, df, low, high) != []
    requires var asc := Ascending(Swings(Period(svc, timeframe, df, low, high), cfg.swingLookback, Lows));
      |asc| < cfg.minTouches || svc.fit(asc).None?
    ensures var a := AnalyzeFrame(svc, cfg, row, timeframe, low, high, df);
      var swings := Swings(Period(svc, timeframe, df, low, high), cfg.swingLookback, Lows);
      !a.trendlineFormed && a.swingLows == swings && a.swingLowCount == |swings|
      && a.rSquared.None? && a.touchCount == 0 && a.trendlineFit.None?
  {
  }

  /** With enough ascending lows and a fit through them, the analysis is the measured one. */
  lemma FrameIsMeasured(svc: Services, cfg: TrendlineConfig, row: ScanRow, timeframe: string,
                        low: Date, high: Date, df: seq<Bar>)
    requires df != [] && Period(svc, timeframe, df, low, high) != []
    requires var asc := Ascending(Swings(Period(svc, timeframe, df, low, high), cfg.swingLookback, Lows));
      |asc| >= cfg.minTouches && svc.fit(asc).Some?
    ensures var bars := Period(svc, timeframe, df, low, high);
      var swings := Swings(bars, cfg.swingLookback, Lows);
      var asc := Ascending(swings);
      var fit := svc.fit(asc).value;
      (forall x :: x in asc ==> InRange(x.date))
      && AnalyzeFrame(svc, cfg, row, timeframe, low, high, df)
         == Measured(cfg, row, timeframe, swings, asc, fit, Touches(bars, fit, cfg.touchTolerance))
  {
    SwingDatesInRange(Period(svc, timeframe, df, low, high), cfg.swingLookback);
  }

  /** A measured analysis reports the fit, its R², the swing lows, the touches handed to it and the fit's relative slope. */
  lemma MeasuredMetrics(cfg: TrendlineConfig, row: ScanRow, timeframe: string, swings: seq<SwingPoint>,
                        asc: seq<SwingPoint>, fit: TrendlineFit, touches: seq<TouchPoint>)
    requires forall x :: x in asc ==> InRange(x.date)
    ensures var a := Measured(cfg, row, timeframe, swings, asc, fit, touches);
      a.trendlineFit == Some(fit) && a.rSquared == Some(fit.rSquared)
      && (a.trendlineFormed <==> fit.rSquared >= cfg.minRSquared)
      && a.swingLows == swings && a.touches == touches && a.touchCount == |touches|
      && a.slopePctPerDay == SlopePctPerDay(fit)
  {
  }

  /** The days to form are the calendar days from the first to the last ascending low, unset for fewer than two. */
  lemma MeasuredDays(cfg: TrendlineConfig, row: ScanRow, timeframe: string, swings: seq<SwingPoint>,
                     asc: seq<SwingPoint>, fit: TrendlineFit, touches: seq<TouchPoint>)
    requires forall x :: x in asc ==> InRange(x.date)
    ensures var a := Measured(cfg, row, timeframe, swings, asc, fit, touches);
      (a.daysToForm.Some? <==> |asc| >= 2)
      && (|asc| >= 2 ==> a.daysToForm.value == Ordinal(asc[|asc| - 1].date) - Ordinal(asc[0].date))
  {
    if |asc| >= 2 {
      assert asc[0] in asc && asc[|asc| - 1] in asc;
    }
  }

  /**
   * The bounce figures of a measured analysis: unset without touches;
   * otherwise the mean and the maximum of the absolute deviations in
   * percent, the mean no larger than the maximum, the maximum reached by
   * one of the touches.
   */
  lemma BounceMetrics(cfg: TrendlineConfig, row: ScanRow, timeframe: string, swings: seq<SwingPoint>,
                      asc: seq<SwingPoint>, fit: TrendlineFit, touches: seq<TouchPoint>)
    requires forall x :: x in asc ==> InRange(x.date)
    ensures var a := Measured(cfg, row, timeframe, swings, asc, fit, touches);
      (a.avgBouncePct.None? <==> touches == []) && (a.maxDeviationPct.None? <==> touches == [])
      && (touches != [] ==>
            0.0 <= a.avgBouncePct.value <= a.maxDeviationPct.value
            && (forall t :: 0 <= t < |touches| ==> Abs(touches[t].deviationPct) * 100.0 <= a.maxDeviationPct.value)
            && (exists t :: 0 <= t < |touches| && Abs(touches[t].deviationPct) * 100.0 == a.maxDeviationPct.value))
  {
    if touches != [] {
      var ds := AbsDeviations(touches);
      var m := MaxOf(ds);
      MeanBounds(ds, 0.0, m);
      var i :| 0 <= i < |ds| && ds[i] == m;
      assert Abs(touches[i].deviationPct) * 100.0 == m * 100.0;
    }
  }

  /** The touches of a fitted line lie in its tolerance band, so the largest deviation reported is at most the tolerance in percent. */
  lemma MaxDeviationWithinTolerance(svc: Services, cfg: TrendlineConfig, row: ScanRow, timeframe: string,
                                    low: Date, high: Date, df: seq<Bar>)
    ensures var a := AnalyzeFrame(svc, cfg, row, timeframe, low, high, df);
      a.maxDeviationPct.Some? ==> a.maxDeviationPct.value <= cfg.touchTolerance * 100.0
  {
    var a := AnalyzeFrame(svc, cfg, row, timeframe, low, high, df);
    if a.maxDeviationPct.Some? {
      var bars := Period(svc, timeframe, df, low, high);
      var asc := Ascending(Swings(bars, cfg.swingLookback, Lows));
      var fit := svc.fit(asc).value;
      var touches := Touches(bars, fit, cfg.touchTolerance);
      FrameIsMeasured(svc, cfg, row, timeframe, low, high, df);
      var ds := AbsDeviations(touches);
      var i :| 0 <= i < |ds| && ds[i] == MaxOf(ds);
      TouchesBelowAreTouches(bars, fit, cfg.touchTolerance, |bars|);
      assert IsTouch(bars, fit, cfg.touchTolerance, touches[i].barIndex);
    }
  }

  /** The analyses one scan-result row contributes to `analyze_all`'s list. */
  function RowResults(svc: Services, cfg: TrendlineConfig, row: ScanRow, timeframe: string): (rs: seq<TrendlineAnalysis>)
    ensures |rs| <= 2
  {
    if timeframe == "both" then
      match AnalyzeStockSpec(svc, cfg, row, "daily")
      case Raised(_) => []
      case Ok(daily) =>
        match AnalyzeStockSpec(svc, cfg, row, "weekly")
        case Raised(_) => []
        case Ok(weekly) => [daily, weekly]
    else
      match AnalyzeStockSpec(svc, cfg, row, timeframe)
      case Raised(_) => []
      case Ok(r) => [r]
  }

  /** The analyses one row writes to the database while `analyze_all` runs with saving on. */
  function RowSaves(svc: Services, cfg: TrendlineConfig, row: ScanRow, timeframe: string): seq<TrendlineAnalysis>
  {
    if timeframe == "both" then
      match AnalyzeStockSpec(svc, cfg, row, "daily")
      case Raised(_) => []
      case Ok(daily) =>
        match AnalyzeStockSpec(svc, cfg, row, "weekly")
        case Raised(_) => [daily]
        case Ok(weekly) => [daily, weekly]
    else RowResults(svc, cfg, row, timeframe)
  }

  /** `analyze_all(scan_results, timeframe)`: the analyses of every row that did not raise, in row order. */
  function AnalyzeAllSpec(svc: Services, cfg: TrendlineConfig, rows: seq<ScanRow>, timeframe: string): seq<TrendlineAnalysis>
  {
    Gather(rows, row => RowResults(svc, cfg, row, timeframe))
  }

  function SavesOf(svc: Services, cfg: TrendlineConfig, rows: seq<ScanRow>, timeframe: string): seq<TrendlineAnalysis>
  {
    Gather(rows, row => RowSaves(svc, cfg, row, timeframe))
  }

  /** One more row adds its results and its writes at the end. */
  lemma AnalyzeStep(svc: Services, cfg: TrendlineConfig, rows: seq<ScanRow>, timeframe: string, i: nat)
    requires i < |rows|
    ensures AnalyzeAllSpec(svc, cfg, rows[..i + 1], timeframe)
            == AnalyzeAllSpec(svc, cfg, rows[..i], timeframe) + RowResults(svc, cfg, rows[i], timeframe)
    ensures SavesOf(svc, cfg, rows[..i + 1], timeframe)
            == SavesOf(svc, cfg, rows[..i], timeframe) + RowSaves(svc, cfg, rows[i], timeframe)
  {
    assert rows[..i + 1][..i] == rows[..i];
  }

  /**
   * With one timeframe, every row yields its analysis or, when it raises,
   * nothing; every analysis is on that timeframe and of one of the rows.
   */
  lemma {:induction false} AnalyzeAllSingle(svc: Services, cfg: TrendlineConfig, rows: seq<ScanRow>, timeframe: string)
    requires timeframe != "both"
    ensures var rs := AnalyzeAllSpec(svc, cfg, rows, timeframe);
      |rs| <= |rows|
      && (forall t :: 0 <= t < |rs| ==> rs[t].timeframe == timeframe && exists row :: row in rows && rs[t].ticker == row.ticker)
      && (forall row :: row in rows && AnalyzeStockSpec(svc, cfg, row, timeframe).Ok? ==>
            AnalyzeStockSpec(svc, cfg, row, timeframe).value in rs)
    decreases |rows|
  {
    if rows != [] {
      var init := rows[..|rows| - 1];
      var last := rows[|rows| - 1];
      AnalyzeAllSingle(svc, cfg, init, timeframe);
      var f := row => RowResults(svc, cfg, row, timeframe);
      assert AnalyzeAllSpec(svc, cfg, rows, timeframe) == AnalyzeAllSpec(svc, cfg, init, timeframe) + f(last);
      assert forall row :: row in rows <==> row in init || row == last;
      var r := AnalyzeStockSpec(svc, cfg, last, timeframe);
      if r.Ok? {
        AnalysisCopiesRowOk(svc, cfg, last, timeframe);
      }
      var rs := AnalyzeAllSpec(svc, cfg, rows, timeframe);
      var rs' := AnalyzeAllSpec(svc, cfg, init, timeframe);
      forall t | 0 <= t < |rs|
        ensures rs[t].timeframe == timeframe && exists row :: row in rows && rs[t].ticker == row.ticker
      {
        if t < |rs'| {
          assert rs[t] == rs'[t];
        } else {
          assert rs[t] == r.value;
        }
      }
    }
  }

  /** A successful analysis names the row's ticker on the timeframe asked for. */
  lemma AnalysisCopiesRowOk(svc: Services, cfg: TrendlineConfig, row: ScanRow, timeframe: string)
    requires AnalyzeStockSpec(svc, cfg, row, timeframe).Ok?
    ensures var a := AnalyzeStockSpec(svc, cfg, row, timeframe).value;
      a.ticker == row.ticker && a.timeframe == timeframe && a.gainPct == row.gainPct && a.daysToPeak == row.daysToPeak
  {
    var low, high := ParseDate(row.lowDate).value, ParseDate(row.highDate).value;
    var w := FetchWindow(low, high, cfg.dataBufferDays).value;
    var got := svc.fetch(row.ticker, w.0, w.1).value;
    AnalysisCopiesRow(svc, cfg, row, timeframe, low, high, if got.None? then [] else got.value);
  }

  /** With "both", a row yields nothing or a daily and a weekly analysis of its ticker. */
  lemma BothRow(svc: Services, cfg: TrendlineConfig, row: ScanRow)
    ensures var tail := RowResults(svc, cfg, row, "both");
      tail == [] || (|tail| == 2 && tail[0].timeframe == "daily" && tail[1].timeframe == "weekly"
                     && tail[0].ticker == row.ticker && tail[1].ticker == row.ticker)
  {
    if RowResults(svc, cfg, row, "both") != [] {
      AnalysisCopiesRowOk(svc, cfg, row, "daily");
      AnalysisCopiesRowOk(svc, cfg, row, "weekly");
    }
  }

  /** The number of rows whose daily and weekly analyses both succeed. */
  function BothSucceeded(svc: Services, cfg: TrendlineConfig, rows: seq<ScanRow>): nat
  {
    if rows == [] then 0
    else BothSucceeded(svc, cfg, rows[..|rows| - 1]) + (if RowResults(svc, cfg, rows[|rows| - 1], "both") == [] then 0 else 1)
  }

  /**
   * With "both", the list is made of pairs: a daily analysis followed by a
   * weekly one of the same ticker, one pair per row whose two analyses
   * both succeeded.
   */
  lemma {:induction false} AnalyzeAllBoth(svc: Services, cfg: TrendlineConfig, rows: seq<ScanRow>)
    ensures var rs := AnalyzeAllSpec(svc, cfg, rows, "both");
      var n := BothSucceeded(svc, cfg, rows);
      |rs| == 2 * n && n <= |rows|
      && forall t :: 0 <= t < n ==>
           rs[2 * t].timeframe == "daily" && rs[2 * t + 1].timeframe == "weekly"
           && rs[2 * t].ticker == rs[2 * t + 1].ticker
    decreases |rows|
  {
    if rows != [] {
      var init := rows[..|rows| - 1];
      var last := rows[|rows| - 1];
      AnalyzeAllBoth(svc, cfg, init);
      var rs := AnalyzeAllSpec(svc, cfg, rows, "both");
      var rs' := AnalyzeAllSpec(svc, cfg, init, "both");
      var n' := BothSucceeded(svc, cfg, init);
      var tail := RowResults(svc, cfg, last, "both");
      assert rs == rs' + tail;
      BothRow(svc, cfg, last);
      if tail != [] {
        forall t | 0 <= t < n' + 1
          ensures rs[2 * t].timeframe == "daily" && rs[2 * t + 1].timeframe == "weekly"
            && rs[2 * t].ticker == rs[2 * t + 1].ticker
        {
          if t < n' {
            assert rs[2 * t] == rs'[2 * t] && rs[2 * t + 1] == rs'[2 * t + 1];
          } else {
            assert rs[2 * t] == tail[0] && rs[2 * t + 1] == tail[1];
          }
        }
      } else {
        assert rs == rs';
      }
    }
  }

  /** `TrendlineAnalyzer`: a provider, an optional database and the settings. */
  class TrendlineAnalyzer {
    const services: Services
    const hasDb: bool
    const config: TrendlineConfig
    /** The analyses written with `add_trendline_analysis`, in order. */
    var saved: seq<TrendlineAnalysis>

    /** `TrendlineAnalyzer(provider, db, config)`: the default settings when none are given. */
    constructor (services: Services, hasDb: bool, config: Option<TrendlineConfig>)
      ensures this.services == services && this.hasDb == hasDb && saved == []
      ensures this.config == if config.Some? then config.value else DefaultTrendlineConfig
    {
      this.services := services;
      this.hasDb := hasDb;
      this.config := if config.Some? then config.value else DefaultTrendlineConfig;
      saved := [];
    }

    /** `analyze_stock(scan_result, timeframe, save)`: a result is written only when saving is asked for and there is a database. */
    method AnalyzeStock(row: ScanRow, timeframe: string, save: bool) returns (r: Attempt<TrendlineAnalysis>)
      modifies this
      ensures r == AnalyzeStockSpec(services, config, row, timeframe)
      ensures saved == old(saved) + (if save && hasDb && r.Ok? then [r.value] else [])
    {
      r := AnalyzeStockSpec(services, config, row, timeframe);
      if r.Ok? && save && hasDb {
        saved := saved + [r.value];
      }
    }

    /** The body of `analyze_all`'s loop for one row: what it appends to the results and what it writes. */
    method AnalyzeRow(row: ScanRow, timeframe: string, save: bool) returns (rs: seq<TrendlineAnalysis>)
      modifies this
      ensures rs == RowResults(services, config, row, timeframe)
      ensures saved == old(saved) + (if save && hasDb then RowSaves(services, config, row, timeframe) else [])
    {
      if timeframe == "both" {
        var daily := AnalyzeStock(row, "daily", save);
        if daily.Raised? {
          return [];
        }
        var weekly := AnalyzeStock(row, "weekly", save);
        if weekly.Raised? {
          return [];
        }
        rs := [daily.value, weekly.value];
      } else {
        var result := AnalyzeStock(row, timeframe, save);
        if result.Raised? {
          return [];
        }
        rs := [result.value];
      }
    }

    /** One turn of `analyze_all`'s loop: the results and the writes grow by those of row `i`. */
    method AnalyzeNext(rows: seq<ScanRow>, i: nat, timeframe: string, save: bool, ghost before: seq<TrendlineAnalysis>,
                       results: seq<TrendlineAnalysis>) returns (results': seq<TrendlineAnalysis>)
      requires i < |rows|
      requires results == AnalyzeAllSpec(services, config, rows[..i], timeframe)
      requires saved == before + (if save && hasDb then SavesOf(services, config, rows[..i], timeframe) else [])
      modifies this
      ensures results' == AnalyzeAllSpec(services, config, rows[..i + 1], timeframe)
      ensures saved == before + (if save && hasDb then SavesOf(services, config, rows[..i + 1], timeframe) else [])
    {
      AnalyzeStep(services, config, rows, timeframe, i);
      var rs := AnalyzeRow(rows[i], timeframe, save);
      results' := results + rs;
    }

    /**
     * `analyze_all(scan_results, timeframe, save)`: every row in turn, a
     * raising row skipped; the analyses already written for it stay written.
     */
    method AnalyzeAll(rows: seq<ScanRow>, timeframe: string, save: bool) returns (results: seq<TrendlineAnalysis>)
      modifies this
      ensures results == AnalyzeAllSpec(services, config, rows, timeframe)
      ensures saved == old(saved) + (if save && hasDb then SavesOf(services, config, rows, timeframe) else [])
    {
      results := [];
      for i := 0 to |rows|
        invariant results == AnalyzeAllSpec(services, config, rows[..i], timeframe)
        invariant saved == old(saved) + (if save && hasDb then SavesOf(services, config, rows[..i], timeframe) else [])
      {
        results := AnalyzeNext(rows, i, timeframe, save, old(saved), results);
      }
      assert rows[..|rows|] == rows;
    }
  }
}
