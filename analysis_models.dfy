/**
 * The records of the trendline and statistics analyses: swing points,
 * fitted lines, touches, the trendline settings, one stock's trendline
 * analysis and a variable's summary statistics, with their dictionary forms.
 */
module AnalysisModels {
  import opened Common
  import opened Dates

  /** A swing low or high: the bar's date, its Low (or High) and its position in the frame. */
  datatype SwingPoint = SwingPoint(date: Date, price: real, barIndex: nat)

  /** A line `price = slope * bar + intercept` fitted through swing points. */
  datatype TrendlineFit = TrendlineFit(slope: real, intercept: real, rSquared: real, points: seq<SwingPoint>)

  /** `TrendlineFit.price_at_bar`: the line's price at a bar position. */
  function PriceAtBar(fit: TrendlineFit, barIndex: int): (p: real)
    ensures p - fit.intercept == fit.slope * barIndex as real
  {
    fit.slope * barIndex as real + fit.intercept
  }

  /** The line starts at its intercept and moves by the slope per bar. */
  lemma PriceAtBarLinear(fit: TrendlineFit, i: int, j: int)
    ensures PriceAtBar(fit, 0) == fit.intercept
    ensures PriceAtBar(fit, j) - PriceAtBar(fit, i) == fit.slope * (j - i) as real
  {
  }

  /** A bar whose Low lies within the tolerance band around the line. */
  datatype TouchPoint = TouchPoint(date: Date, price: real, trendlinePrice: real, deviationPct: real, barIndex: nat)

  datatype TrendlineConfig = TrendlineConfig(
    swingLookback: nat,
    minTouches: int,
    touchTolerance: real,
    minRSquared: real,
    dataBufferDays: int)

  /** `TrendlineConfig()` */
  const DefaultTrendlineConfig := TrendlineConfig(10, 2, 0.02, 0.5, 30)

  /** One stock's trendline analysis on one timeframe. */
  datatype TrendlineAnalysis = TrendlineAnalysis(
    ticker: string,
    scanResultId: int,
    timeframe: string,
    trendlineFormed: bool,
    daysToForm: Option<int>,
    swingLowCount: nat,
    rSquared: Option<real>,
    slopePctPerDay: Option<real>,
    touchCount: nat,
    avgBouncePct: Option<real>,
    maxDeviationPct: Option<real>,
    breakDate: Option<Date>,
    breakPrice: Option<real>,
    gainPct: Option<real>,
    daysToPeak: Option<int>,
    trendlineFit: Option<TrendlineFit>,
    swingLows: seq<SwingPoint>,
    touches: seq<TouchPoint>)

  const AnalysisKeys: set<string> := {
    "ticker", "scan_result_id", "timeframe", "trendline_formed", "days_to_form", "swing_low_count",
    "r_squared", "slope_pct_per_day", "touch_count", "avg_bounce_pct", "max_deviation_pct",
    "break_date", "break_price", "gain_pct", "days_to_peak"}

  function IntOrNone(x: Option<int>): (v: Value)
    ensures x.None? <==> v == VNone
    ensures x.Some? ==> v == VInt(x.value)
  {
    if x.None? then VNone else VInt(x.value)
  }

  /** `TrendlineAnalysis.to_dict`: the scalar fields, with the break date as an ISO string. */
  function AnalysisToDict(a: TrendlineAnalysis): (d: map<string, Value>)
    requires a.breakDate.Some? ==> InRange(a.breakDate.value)
    ensures d.Keys == AnalysisKeys
    ensures d["break_date"] == if a.breakDate.None? then VNone else VStr(Iso(a.breakDate.value))
  {
    map[
      "ticker" := VStr(a.ticker),
      "scan_result_id" := VInt(a.scanResultId),
      "timeframe" := VStr(a.timeframe),
      "trendline_formed" := VBool(a.trendlineFormed),
      "days_to_form" := IntOrNone(a.daysToForm),
      "swing_low_count" := VInt(a.swingLowCount),
      "r_squared" := RealOrNone(a.rSquared),
      "slope_pct_per_day" := RealOrNone(a.slopePctPerDay),
      "touch_count" := VInt(a.touchCount),
      "avg_bounce_pct" := RealOrNone(a.avgBouncePct),
      "max_deviation_pct" := RealOrNone(a.maxDeviationPct),
      "break_date" := if a.breakDate.None? then VNone else VStr(Iso(a.breakDate.value)),
      "break_price" := RealOrNone(a.breakPrice),
      "gain_pct" := RealOrNone(a.gainPct),
      "days_to_peak" := IntOrNone(a.daysToPeak)]
  }

  /** The break date read back from the dictionary form is the one written. */
  lemma AnalysisBreakDateRoundTrip(a: TrendlineAnalysis)
    requires a.breakDate.Some? ==> InRange(a.breakDate.value)
    ensures var v := AnalysisToDict(a)["break_date"];
      (v == VNone <==> a.breakDate.None?)
      && (v.VStr? ==> ParseIso(v.s) == a.breakDate)
  {
    if a.breakDate.Some? {
      IsoRoundTrip(a.breakDate.value);
    }
  }

  /** `VariableStats`: a variable's summary over one population. */
  datatype VariableStats = VariableStats(
    variableName: string,
    mean: Option<real>,
    median: Option<real>,
    stdDev: Option<real>,
    minVal: Option<real>,
    maxVal: Option<real>,
    p10: Option<real>,
    p25: Option<real>,
    p75: Option<real>,
    p90: Option<real>,
    sampleSize: nat)

  /** `VariableStats(variable_name=name)`: every statistic unset and no samples. */
  function EmptyStats(name: string): VariableStats
  {
    VariableStats(name, None, None, None, None, None, None, None, None, None, 0)
  }

  const StatsKeys: set<string> := {
    "variable_name", "mean", "median", "std_dev", "min_val", "max_val", "p10", "p25", "p75", "p90", "sample_size"}

  /** `VariableStats.to_dict`: all eleven fields under their own names. */
  function StatsToDict(s: VariableStats): (d: map<string, Value>)
    ensures d.Keys == StatsKeys
    ensures d["variable_name"] == VStr(s.variableName) && d["sample_size"] == VInt(s.sampleSize)
  {
    map[
      "variable_name" := VStr(s.variableName),
      "mean" := RealOrNone(s.mean),
      "median" := RealOrNone(s.median),
      "std_dev" := RealOrNone(s.stdDev),
      "min_val" := RealOrNone(s.minVal),
      "max_val" := RealOrNone(s.maxVal),
      "p10" := RealOrNone(s.p10),
      "p25" := RealOrNone(s.p25),
      "p75" := RealOrNone(s.p75),
      "p90" := RealOrNone(s.p90),
      "sample_size" := VInt(s.sampleSize)]
  }
}
