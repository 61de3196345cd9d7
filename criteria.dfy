/**
 * The eight Neumann criteria. Each one reads the scoring context, answers
 * a missing-data result when what it needs is absent, and otherwise
 * compares one measured value with its threshold.
 */
module Criteria {
  import opened Common
  import opened Text
  import opened Dates
  import opened CriteriaBase

  /** A configured criterion: which check it is and its thresholds. */
  datatype Criterion =
    | Drawdown(threshold: real)
    | ExtendedDecline(minDays: int)
    | NearLows(maxPosition: real)
    | BelowSma50(threshold: real)
    | BelowSma200(threshold: real)
    | VolumeExhaustion(maxRatio: real, avgDays: int)
    | MarketCap(minCap: real, maxCap: real)
    | TrendlineBreak(smaKey: string)

  /** The `name` property of each criterion. */
  function Name(c: Criterion): string
  {
    match c
    case Drawdown(_) => "drawdown"
    case ExtendedDecline(_) => "extended_decline"
    case NearLows(_) => "near_lows"
    case BelowSma50(_) => "below_sma50"
    case BelowSma200(_) => "below_sma200"
    case VolumeExhaustion(_, _) => "volume_exhaustion"
    case MarketCap(_, _) => "market_cap"
    case TrendlineBreak(_) => "trendline_break"
  }

  /** The verdict word of a result's explanation. */
  function Verdict(passed: bool): string
  {
    if passed then "Passes" else "Fails"
  }

  /** `DrawdownCriterion.evaluate`: the drawdown `price / high - 1` is at most the threshold. */
  function EvaluateDrawdown(threshold: real, ctx: ScoringContext): (r: CriterionResult)
    ensures r.name == "drawdown"
    ensures r.value.None? <==> !HasSufficientData(ctx) || TwoYearHigh(ctx).value == 0.0
    ensures r.value.Some? ==> r.threshold == Some(threshold) && (r.passed <==> r.value.value <= threshold)
    ensures r.value.Some? ==> r.value.value == ctx.ignitionPrice / TwoYearHigh(ctx).value - 1.0
  {
    if !HasSufficientData(ctx) then MissingDataResult("drawdown", "Insufficient historical data")
    else
      var high := TwoYearHigh(ctx).value;
      if high == 0.0 then MissingDataResult("drawdown", "Could not determine 2-year high")
      else
        var drawdown := ctx.ignitionPrice / high - 1.0;
        var passed := drawdown <= threshold;
        CriterionResult("drawdown", passed, Some(drawdown), Some(threshold), Verdict(passed))
  }

  /** `ExtendedDeclineCriterion.evaluate`: at least `minDays` bars since the two-year high. */
  function EvaluateExtendedDecline(minDays: int, ctx: ScoringContext): (r: CriterionResult)
    ensures r.name == "extended_decline"
    ensures r.value.None? <==> !HasSufficientData(ctx)
    ensures r.value.Some? ==>
      r.value == Some(DaysSinceHigh(ctx).value as real) && r.threshold == Some(minDays as real)
      && (r.passed <==> DaysSinceHigh(ctx).value >= minDays)
  {
    if !HasSufficientData(ctx) then MissingDataResult("extended_decline", "Insufficient historical data")
    else
      match DaysSinceHigh(ctx)
      case None => MissingDataResult("extended_decline", "Could not determine days since high")
      case Some(days) =>
        var passed := days >= minDays;
        CriterionResult("extended_decline", passed, Some(days as real), Some(minDays as real), Verdict(passed))
  }

  /** `NearLowsCriterion.evaluate`: the range position is at most `maxPosition`. */
  function EvaluateNearLows(maxPosition: real, ctx: ScoringContext): (r: CriterionResult)
    ensures r.name == "near_lows"
    ensures r.value.None? <==> RangePosition(ctx).None?
    ensures r.value.Some? ==>
      r.value == RangePosition(ctx) && r.threshold == Some(maxPosition) && (r.passed <==> r.value.value <= maxPosition)
  {
    if !HasSufficientData(ctx) then MissingDataResult("near_lows", "Insufficient historical data")
    else
      match RangePosition(ctx)
      case None => MissingDataResult("near_lows", "Could not determine range position")
      case Some(pos) =>
        var passed := pos <= maxPosition;
        CriterionResult("near_lows", passed, Some(pos), Some(maxPosition), Verdict(passed))
  }

  /**
   * `BelowSMA50Criterion.evaluate` and `BelowSMA200Criterion.evaluate`: the
   * price is below the moving average stored under `key` by more than the
   * threshold, strictly. There is no sufficient-data check.
   */
  function EvaluateBelowSma(name: string, key: string, shown: string, threshold: real, ctx: ScoringContext)
    : (r: CriterionResult)
    ensures r.name == name
    ensures r.value.None? <==> key !in ctx.smaData || ctx.smaData[key] == 0.0
    ensures r.value.Some? ==> r.threshold == Some(threshold) && (r.passed <==> r.value.value < threshold)
    ensures r.value.Some? ==> r.value.value == ctx.ignitionPrice / ctx.smaData[key] - 1.0
  {
    if key !in ctx.smaData then MissingDataResult(name, shown + " data not available")
    else
      var sma := ctx.smaData[key];
      if sma == 0.0 then MissingDataResult(name, shown + " is zero")
      else
        var pct := ctx.ignitionPrice / sma - 1.0;
        var passed := pct < threshold;
        CriterionResult(name, passed, Some(pct), Some(threshold), Verdict(passed))
  }

  /**
   * `VolumeExhaustionCriterion.evaluate`: the ignition volume is at most
   * `maxRatio` times the average volume of the last `avgDays` bars.
   */
  function EvaluateVolumeExhaustion(maxRatio: real, avgDays: int, ctx: ScoringContext): (r: CriterionResult)
    ensures r.name == "volume_exhaustion"
    ensures r.value.None? <==>
      !HasSufficientData(ctx) || VolumeAtIgnition(ctx).None?
      || AvgVolume(ctx, avgDays).None? || AvgVolume(ctx, avgDays).value == 0.0
    ensures r.value.Some? ==> r.threshold == Some(maxRatio) && (r.passed <==> r.value.value <= maxRatio)
    ensures r.value.Some? ==> r.value.value == VolumeAtIgnition(ctx).value / AvgVolume(ctx, avgDays).value
  {
    if !HasSufficientData(ctx) then MissingDataResult("volume_exhaustion", "Insufficient historical data")
    else
      var current, avg := VolumeAtIgnition(ctx), AvgVolume(ctx, avgDays);
      if current.None? then MissingDataResult("volume_exhaustion", "Could not get volume at ignition")
      else if avg.None? || avg.value == 0.0 then
        MissingDataResult("volume_exhaustion", "Could not calculate average volume")
      else
        var ratio := current.value / avg.value;
        var passed := ratio <= maxRatio;
        CriterionResult("volume_exhaustion", passed, Some(ratio), Some(maxRatio), Verdict(passed))
  }

  /** Where a market cap sits relative to the target range. */
  function CapStatus(cap: real, minCap: real, maxCap: real): string
  {
    if cap < minCap then "below minimum"
    else if cap > maxCap then "above maximum"
    else "in sweet spot"
  }

  /**
   * `MarketCapCriterion.evaluate`: the estimated market cap lies in
   * `[minCap, maxCap]`, both ends included; the result has no threshold.
   */
  function EvaluateMarketCap(minCap: real, maxCap: real, ctx: ScoringContext): (r: CriterionResult)
    ensures r.name == "market_cap" && r.threshold.None?
    ensures r.value.None? <==> ctx.sharesOutstanding.None?
    ensures r.value.Some? ==> r.value == EstimatedMarketCap(ctx) && (r.passed <==> minCap <= r.value.value <= maxCap)
  {
    match EstimatedMarketCap(ctx)
    case None =>
      MissingDataResult("market_cap", "Could not estimate market cap (shares outstanding not available)")
    case Some(cap) =>
      CriterionResult("market_cap", minCap <= cap <= maxCap, Some(cap), None, CapStatus(cap, minCap, maxCap))
  }

  /**
   * `TrendlineBreakCriterion.evaluate`: the price is above the moving
   * average stored under `smaKey`, strictly; the value is the distance
   * `price / sma - 1` and the threshold 0.
   */
  function EvaluateTrendlineBreak(smaKey: string, ctx: ScoringContext): (r: CriterionResult)
    ensures r.name == "trendline_break"
    ensures r.value.None? <==> smaKey !in ctx.smaData || ctx.smaData[smaKey] == 0.0
    ensures r.value.Some? ==> r.threshold == Some(0.0) && (r.passed <==> ctx.ignitionPrice > ctx.smaData[smaKey])
    ensures r.value.Some? ==> r.value.value == ctx.ignitionPrice / ctx.smaData[smaKey] - 1.0
  {
    if smaKey !in ctx.smaData then MissingDataResult("trendline_break", Upper(smaKey) + " data not available")
    else
      var sma := ctx.smaData[smaKey];
      if sma == 0.0 then MissingDataResult("trendline_break", Upper(smaKey) + " is zero")
      else
        var above := ctx.ignitionPrice > sma;
        CriterionResult("trendline_break", above, Some(ctx.ignitionPrice / sma - 1.0), Some(0.0), Verdict(above))
  }

  /** `criterion.evaluate(context)` */
  function Evaluate(c: Criterion, ctx: ScoringContext): CriterionResult
  {
    match c
    case Drawdown(t) => EvaluateDrawdown(t, ctx)
    case ExtendedDecline(d) => EvaluateExtendedDecline(d, ctx)
    case NearLows(p) => EvaluateNearLows(p, ctx)
    case BelowSma50(t) => EvaluateBelowSma("below_sma50", "sma50", "SMA50", t, ctx)
    case BelowSma200(t) => EvaluateBelowSma("below_sma200", "sma200", "SMA200", t, ctx)
    case VolumeExhaustion(m, d) => EvaluateVolumeExhaustion(m, d, ctx)
    case MarketCap(lo, hi) => EvaluateMarketCap(lo, hi, ctx)
    case TrendlineBreak(k) => EvaluateTrendlineBreak(k, ctx)
  }

  /**
   * Every result carries its criterion's name; a result without a value is
   * a missing-data result (failed, no threshold, explained as "Unable to
   * evaluate: ..."), and every criterion but market cap reports a threshold
   * exactly when it reports a value.
   */
  lemma EvaluateShape(c: Criterion, ctx: ScoringContext)
    ensures var r := Evaluate(c, ctx);
      r.name == Name(c) && (r.value.None? ==> IsMissing(r))
      && (!c.MarketCap? ==> (r.value.None? <==> r.threshold.None?))
  {
    match c
    case Drawdown(t) =>
    case ExtendedDecline(d) =>
    case NearLows(p) =>
    case BelowSma50(t) =>
    case BelowSma200(t) =>
    case VolumeExhaustion(m, d) =>
    case MarketCap(lo, hi) =>
    case TrendlineBreak(k) =>
  }

  /** `a / d` is at most `b` exactly when `a` is at most `b * d`, for a positive `d`. */
  lemma RatioAtMost(a: real, d: real, b: real)
    requires d > 0.0
    ensures a / d <= b <==> a <= b * d
    ensures a / d < b <==> a < b * d
  {
    assert (a / d) * d == a;
    if a / d <= b {
      assert (a / d) * d <= b * d;
    }
    if a / d < b {
      assert (a / d) * d < b * d;
    }
  }

  /**
   * For a positive two-year high, the drawdown criterion passes exactly
   * when the price is at most `1 + threshold` times the high (at most half
   * the high with the default -0.50).
   */
  lemma DrawdownPassesIff(threshold: real, ctx: ScoringContext)
    requires HasSufficientData(ctx) && TwoYearHigh(ctx).value > 0.0
    ensures EvaluateDrawdown(threshold, ctx).passed <==> ctx.ignitionPrice <= (1.0 + threshold) * TwoYearHigh(ctx).value
  {
    RatioAtMost(ctx.ignitionPrice, TwoYearHigh(ctx).value, 1.0 + threshold);
  }

  /**
   * For a positive moving average, the below-SMA criteria pass exactly when
   * the price is strictly below `1 + threshold` times the average.
   */
  lemma BelowSmaPassesIff(name: string, key: string, shown: string, threshold: real, ctx: ScoringContext)
    requires key in ctx.smaData && ctx.smaData[key] > 0.0
    ensures EvaluateBelowSma(name, key, shown, threshold, ctx).passed <==>
      ctx.ignitionPrice < (1.0 + threshold) * ctx.smaData[key]
  {
    RatioAtMost(ctx.ignitionPrice, ctx.smaData[key], 1.0 + threshold);
  }

  /**
   * The near-lows criterion passes exactly when the price is in the bottom
   * `maxPosition` share of a rising two-year range.
   */
  lemma NearLowsPassesIff(maxPosition: real, ctx: ScoringContext)
    requires HasSufficientData(ctx) && TwoYearLow(ctx).value < TwoYearHigh(ctx).value
    ensures var high, low := TwoYearHigh(ctx).value, TwoYearLow(ctx).value;
      EvaluateNearLows(maxPosition, ctx).passed <==> ctx.ignitionPrice - low <= maxPosition * (high - low)
  {
    var high, low := TwoYearHigh(ctx).value, TwoYearLow(ctx).value;
    var pos := RangePosition(ctx);
    assert pos == Some((ctx.ignitionPrice - low) / (high - low));
    assert EvaluateNearLows(maxPosition, ctx).passed <==> pos.value <= maxPosition;
    RatioAtMost(ctx.ignitionPrice - low, high - low, maxPosition);
  }

  /**
   * With a positive average volume, volume exhaustion passes exactly when
   * the ignition volume is at most `maxRatio` times the average.
   */
  lemma VolumeExhaustionPassesIff(maxRatio: real, avgDays: int, ctx: ScoringContext)
    requires HasSufficientData(ctx) && AvgVolume(ctx, avgDays).Some? && AvgVolume(ctx, avgDays).value > 0.0
    ensures VolumeAtIgnition(ctx).Some?
    ensures EvaluateVolumeExhaustion(maxRatio, avgDays, ctx).passed <==>
      VolumeAtIgnition(ctx).value <= maxRatio * AvgVolume(ctx, avgDays).value
  {
    VolumeAtIgnitionExists(ctx);
    var v, avg := VolumeAtIgnition(ctx).value, AvgVolume(ctx, avgDays).value;
    var passed := EvaluateVolumeExhaustion(maxRatio, avgDays, ctx).passed;
    VolumeVerdict(maxRatio, avgDays, ctx);
    assert passed <==> v / avg <= maxRatio;
    RatioAtMost(v, avg, maxRatio);
  }

  /** With both volumes known and a non-zero average, the verdict compares their ratio with `maxRatio`. */
  lemma VolumeVerdict(maxRatio: real, avgDays: int, ctx: ScoringContext)
    requires HasSufficientData(ctx) && VolumeAtIgnition(ctx).Some?
    requires AvgVolume(ctx, avgDays).Some? && AvgVolume(ctx, avgDays).value != 0.0
    ensures EvaluateVolumeExhaustion(maxRatio, avgDays, ctx).passed <==>
      VolumeAtIgnition(ctx).value / AvgVolume(ctx, avgDays).value <= maxRatio
  {
  }

  /** The market-cap explanation says "in sweet spot" exactly when the criterion passes. */
  lemma MarketCapStatusAgrees(minCap: real, maxCap: real, ctx: ScoringContext)
    requires ctx.sharesOutstanding.Some?
    ensures var r := EvaluateMarketCap(minCap, maxCap, ctx);
      r.passed <==> r.details == "in sweet spot"
  {
    var cap := EstimatedMarketCap(ctx).value;
    assert "below minimum" != "in sweet spot" && "above maximum" != "in sweet spot" by {
      assert "below minimum"[0] != "in sweet spot"[0];
      assert "above maximum"[0] != "in sweet spot"[0];
    }
  }

  /**
   * For a positive moving average, the trendline break passes exactly when
   * its reported distance from the average is positive, so the threshold 0
   * it reports is the one it applies.
   */
  lemma TrendlineBreakAgreesWithValue(smaKey: string, ctx: ScoringContext)
    requires smaKey in ctx.smaData && ctx.smaData[smaKey] > 0.0
    ensures var r := EvaluateTrendlineBreak(smaKey, ctx);
      r.value.Some? && (r.passed <==> r.value.value > r.threshold.value)
  {
    var sma := ctx.smaData[smaKey];
    RatioAtMost(ctx.ignitionPrice, sma, 1.0);
  }

  /**
   * On a history dated in increasing order up to the ignition date, the
   * extended-decline criterion passes exactly when at least `minDays` bars
   * lie from the first two-year high on.
   */
  lemma ExtendedDeclinePassesIff(minDays: int, ctx: ScoringContext)
    requires HasSufficientData(ctx)
    requires forall i, j :: 0 <= i < j < |ctx.history| ==> Before(ctx.history[i].date, ctx.history[j].date)
    requires forall i :: 0 <= i < |ctx.history| ==> AtOrBefore(ctx.history[i].date, ctx.ignitionDate)
    ensures EvaluateExtendedDecline(minDays, ctx).passed <==>
      |ctx.history| - FirstMaxIndex(Highs(ctx.history)) >= minDays
  {
    DaysSinceHighCountsFromHigh(ctx);
  }
}
