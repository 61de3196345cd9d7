/**
 * What a Neumann criterion sees and what it answers: the scoring context
 * at a stock's ignition point (the low of its big move) with the two years
 * of bars before it, the quantities derived from that history, and the
 * result record each criterion returns.
 */
module CriteriaBase {
  import opened Common
  import opened Dates
  import opened Frames

  /**
   * `ScoringContext`. The history is the frame of bars before the ignition
   * date (possibly empty); `smaData` holds the moving averages that could be
   * computed, keyed `"sma50"` and `"sma200"`.
   */
  datatype ScoringContext = ScoringContext(
    ticker: string,
    ignitionDate: PyDate,
    ignitionPrice: real,
    history: seq<Bar>,
    gainPct: real,
    highDate: PyDate,
    highPrice: real,
    sharesOutstanding: Option<real>,
    smaData: map<string, real>)

  /** The `High` column. */
  function Highs(bars: seq<Bar>): (xs: seq<real>)
    ensures |xs| == |bars| && forall i :: 0 <= i < |bars| ==> xs[i] == bars[i].high
  {
    seq(|bars|, i requires 0 <= i < |bars| => bars[i].high)
  }

  /** The `Low` column. */
  function Lows(bars: seq<Bar>): (xs: seq<real>)
    ensures |xs| == |bars| && forall i :: 0 <= i < |bars| ==> xs[i] == bars[i].low
  {
    seq(|bars|, i requires 0 <= i < |bars| => bars[i].low)
  }

  /** The `Volume` column. */
  function Volumes(bars: seq<Bar>): (xs: seq<real>)
    ensures |xs| == |bars| && forall i :: 0 <= i < |bars| ==> xs[i] == bars[i].volume
  {
    seq(|bars|, i requires 0 <= i < |bars| => bars[i].volume)
  }

  /** `has_sufficient_data`: at least 50 bars (so an empty frame has too few). */
  predicate HasSufficientData(ctx: ScoringContext)
  {
    |ctx.history| >= 50
  }

  /** `two_year_high`: the largest high, when the history is long enough. */
  function TwoYearHigh(ctx: ScoringContext): (r: Option<real>)
    ensures r.Some? <==> HasSufficientData(ctx)
    ensures r.Some? ==> r.value in Highs(ctx.history)
    ensures r.Some? ==> forall i :: 0 <= i < |ctx.history| ==> ctx.history[i].high <= r.value
  {
    if !HasSufficientData(ctx) then None else Some(MaxOf(Highs(ctx.history)))
  }

  /** `two_year_low`: the smallest low, when the history is long enough. */
  function TwoYearLow(ctx: ScoringContext): (r: Option<real>)
    ensures r.Some? <==> HasSufficientData(ctx)
    ensures r.Some? ==> r.value in Lows(ctx.history)
    ensures r.Some? ==> forall i :: 0 <= i < |ctx.history| ==> r.value <= ctx.history[i].low
  {
    if !HasSufficientData(ctx) then None else Some(MinOf(Lows(ctx.history)))
  }

  /** `idxmax()`: the position of the first largest element. */
  function FirstMaxIndex(xs: seq<real>): (i: nat)
    requires |xs| > 0
    ensures i < |xs|
    ensures forall j :: 0 <= j < |xs| ==> xs[j] <= xs[i]
    ensures forall j :: 0 <= j < i ==> xs[j] < xs[i]
  {
    if |xs| == 1 then 0
    else
      var i' := FirstMaxIndex(xs[..|xs| - 1]);
      assert forall j :: 0 <= j < |xs| - 1 ==> xs[j] == xs[..|xs| - 1][j];
      if xs[|xs| - 1] > xs[i'] then |xs| - 1 else i'
  }

  /** `two_year_high_date`: the date of the first bar whose high is the two-year high. */
  function TwoYearHighDate(ctx: ScoringContext): (r: Option<PyDate>)
    ensures r.Some? <==> HasSufficientData(ctx)
    ensures r.Some? ==> r.value == ctx.history[FirstMaxIndex(Highs(ctx.history))].date
    ensures r.Some? ==> TwoYearHigh(ctx) == Some(ctx.history[FirstMaxIndex(Highs(ctx.history))].high)
  {
    if !HasSufficientData(ctx) then None
    else
      var xs := Highs(ctx.history);
      var i := FirstMaxIndex(xs);
      assert MaxOf(xs) == xs[i];
      Some(ctx.history[i].date)
  }

  /**
   * `days_since_high`: the number of bars dated from the two-year high's date
   * to the ignition date, both included.
   */
  function DaysSinceHigh(ctx: ScoringContext): (r: Option<nat>)
    ensures r.Some? <==> HasSufficientData(ctx)
    ensures r.Some? ==> r.value <= |ctx.history|
  {
    match TwoYearHighDate(ctx)
    case None => None
    case Some(hd) => Some(|FilterWindow(ctx.history, hd, ctx.ignitionDate)|)
  }

  /**
   * `range_position`: where the ignition price sits in the two-year range,
   * 0 at the low and 1 at the high; none without a range.
   */
  function RangePosition(ctx: ScoringContext): (r: Option<real>)
    ensures r.Some? <==> HasSufficientData(ctx) && TwoYearHigh(ctx) != TwoYearLow(ctx)
  {
    var high, low := TwoYearHigh(ctx), TwoYearLow(ctx);
    if high.None? || low.None? || high.value == low.value then None
    else Some((ctx.ignitionPrice - low.value) / (high.value - low.value))
  }

  /** `estimated_market_cap`: shares outstanding times the ignition price. */
  function EstimatedMarketCap(ctx: ScoringContext): (r: Option<real>)
    ensures r.Some? <==> ctx.sharesOutstanding.Some?
  {
    match ctx.sharesOutstanding
    case None => None
    case Some(shares) => Some(shares * ctx.ignitionPrice)
  }

  /** The position of the first bar dated `d`. */
  function FirstDated(bars: seq<Bar>, d: Date): (r: Option<nat>)
    ensures r.Some? ==> (r.value < |bars| && bars[r.value].date == d
                         && forall j :: 0 <= j < r.value ==> bars[j].date != d)
    ensures r.None? ==> forall j :: 0 <= j < |bars| ==> bars[j].date != d
  {
    if bars == [] then None
    else if bars[0].date == d then Some(0)
    else
      var r := FirstDated(bars[1..], d);
      if r.None? then None else Some(r.value + 1)
  }

  /** The position of the last bar dated before `d` (the `pad` neighbour). */
  function LastBefore(bars: seq<Bar>, d: Date): (r: Option<nat>)
    ensures r.Some? ==> (r.value < |bars| && Before(bars[r.value].date, d)
                         && forall j :: r.value < j < |bars| ==> !Before(bars[j].date, d))
    ensures r.None? ==> forall j :: 0 <= j < |bars| ==> !Before(bars[j].date, d)
  {
    if bars == [] then None
    else if Before(bars[|bars| - 1].date, d) then Some(|bars| - 1)
    else
      var r := LastBefore(bars[..|bars| - 1], d);
      assert forall j :: 0 <= j < |bars| - 1 ==> bars[j] == bars[..|bars| - 1][j];
      r
  }

  /** The position of the first bar dated after `d` (the `backfill` neighbour). */
  function FirstAfter(bars: seq<Bar>, d: Date): (r: Option<nat>)
    ensures r.Some? ==> (r.value < |bars| && Before(d, bars[r.value].date)
                         && forall j :: 0 <= j < r.value ==> !Before(d, bars[j].date))
    ensures r.None? ==> forall j :: 0 <= j < |bars| ==> !Before(d, bars[j].date)
  {
    if bars == [] then None
    else if Before(d, bars[0].date) then Some(0)
    else
      var r := FirstAfter(bars[1..], d);
      if r.None? then None else Some(r.value + 1)
  }

  /**
   * `get_indexer(..., method="nearest")` on a date index with no bar dated
   * `d`: the nearer of the two neighbours, the later one on a tie, and
   * none when neither exists.
   */
  function NearestIndex(bars: seq<Bar>, d: PyDate): (r: Option<nat>)
    ensures r.Some? ==> r.value < |bars|
    ensures r.None? <==> LastBefore(bars, d).None? && FirstAfter(bars, d).None?
  {
    var pad, back := LastBefore(bars, d), FirstAfter(bars, d);
    if back.None? then pad
    else if pad.None? then back
    else if DaysBetween(bars[pad.value].date, d) < DaysBetween(d, bars[back.value].date) then pad
    else back
  }

  /**
   * `get_volume_at_ignition`: the volume of the bar dated on the ignition
   * date, else of the nearest bar, else none.
   */
  function VolumeAtIgnition(ctx: ScoringContext): (r: Option<real>)
    ensures r.Some? ==> HasSufficientData(ctx) && r.value in Volumes(ctx.history)
  {
    if !HasSufficientData(ctx) then None
    else
      var bars := ctx.history;
      match FirstDated(bars, ctx.ignitionDate)
      case Some(i) => assert Volumes(bars)[i] == bars[i].volume; Some(bars[i].volume)
      case None =>
        (match NearestIndex(bars, ctx.ignitionDate)
         case Some(i) => assert Volumes(bars)[i] == bars[i].volume; Some(bars[i].volume)
         case None => None)
  }

  /** `tail(k)`: the last `k` rows, or for a negative `k` all rows but the first `-k`. */
  function Tail(xs: seq<real>, k: int): (r: seq<real>)
    ensures |r| <= |xs| && r == xs[|xs| - |r|..]
    ensures k >= 0 ==> |r| == (if k < |xs| then k else |xs|)
    ensures k < 0 ==> |r| == (if -k < |xs| then |xs| + k else 0)
  {
    if k >= 0 then (if k < |xs| then xs[|xs| - k..] else xs)
    else if -k < |xs| then xs[-k..] else []
  }

  /** `get_avg_volume(days)`: the mean volume of the last `days` bars. */
  function AvgVolume(ctx: ScoringContext, days: int): (r: Option<real>)
    ensures r.Some? <==> HasSufficientData(ctx) && days != 0 && (days > 0 || -days < |ctx.history|)
  {
    if !HasSufficientData(ctx) then None
    else
      var window := Tail(Volumes(ctx.history), days);
      if |window| == 0 then None else Some(Mean(window))
  }

  /** `CriterionResult` */
  datatype CriterionResult = CriterionResult(name: string, passed: bool, value: Option<real>,
                                             threshold: Option<real>, details: string)

  /** The prefix of every missing-data explanation. */
  const UnableToEvaluate: string := "Unable to evaluate: "

  /** `CriterionResult.to_dict` */
  function ResultDict(r: CriterionResult): (d: map<string, Value>)
    ensures d.Keys == {"name", "passed", "value", "threshold", "details"}
  {
    map["name" := VStr(r.name), "passed" := VBool(r.passed), "value" := RealOrNone(r.value),
        "threshold" := RealOrNone(r.threshold), "details" := VStr(r.details)]
  }

  /** Reads a result back from its dictionary; none for a dictionary of another shape. */
  function ResultOfDict(d: map<string, Value>): (r: Option<CriterionResult>)
  {
    if "name" in d && "passed" in d && "value" in d && "threshold" in d && "details" in d
       && d["name"].VStr? && d["passed"].VBool? && d["details"].VStr?
       && (d["value"].VNone? || d["value"].VReal?) && (d["threshold"].VNone? || d["threshold"].VReal?)
    then Some(CriterionResult(d["name"].s, d["passed"].b,
                              if d["value"].VReal? then Some(d["value"].r) else None,
                              if d["threshold"].VReal? then Some(d["threshold"].r) else None,
                              d["details"].s))
    else None
  }

  /** `to_dict` loses nothing: the dictionary gives the result back. */
  lemma ResultDictRoundTrip(r: CriterionResult)
    ensures ResultOfDict(ResultDict(r)) == Some(r)
  {
    var d := ResultDict(r);
    assert d["value"] == RealOrNone(r.value) && d["threshold"] == RealOrNone(r.threshold);
  }

  /** A missing-data result: failed, with no value and no threshold, explained as "Unable to evaluate: ...". */
  predicate IsMissing(r: CriterionResult)
  {
    !r.passed && r.value.None? && r.threshold.None?
    && |r.details| >= |UnableToEvaluate| && r.details[..|UnableToEvaluate|] == UnableToEvaluate
  }

  /** `_missing_data_result`: a failed result with neither value nor threshold. */
  function MissingDataResult(name: string, reason: string): (r: CriterionResult)
    ensures r.name == name && r.value.None? && IsMissing(r)
  {
    CriterionResult(name, false, None, None, UnableToEvaluate + reason)
  }

  /**
   * A range position, when it exists, places a price inside the two-year
   * range between 0 and 1,
   * at 0 exactly for the low and 1 exactly for the high.
   */
  lemma RangePositionBounds(ctx: ScoringContext)
    requires HasSufficientData(ctx)
    ensures var pos := RangePosition(ctx);
      var high, low := TwoYearHigh(ctx).value, TwoYearLow(ctx).value;
      pos.Some? && low <= ctx.ignitionPrice <= high ==>
        0.0 <= pos.value <= 1.0
        && (pos.value == 0.0 <==> ctx.ignitionPrice == low)
        && (pos.value == 1.0 <==> ctx.ignitionPrice == high)
  {
    var high, low := TwoYearHigh(ctx).value, TwoYearLow(ctx).value;
    if high != low && low <= ctx.ignitionPrice <= high {
      PositionInRange(ctx.ignitionPrice, low, high);
    }
  }

  /** `(p - low) / (high - low)` for a price inside a non-empty range. */
  lemma PositionInRange(p: real, low: real, high: real)
    requires low <= p <= high && low < high
    ensures var pos := (p - low) / (high - low);
      0.0 <= pos <= 1.0 && (pos == 0.0 <==> p == low) && (pos == 1.0 <==> p == high)
  {
    var pos := (p - low) / (high - low);
    Fraction(p - low, high - low);
    assert pos * (high - low) == p - low;
  }

  /**
   * With the bars dated in strictly increasing order and none after the
   * ignition date, the bars counted by `days_since_high` are exactly those
   * from the first two-year high on.
   */
  lemma DaysSinceHighCountsFromHigh(ctx: ScoringContext)
    requires HasSufficientData(ctx)
    requires forall i, j :: 0 <= i < j < |ctx.history| ==> Before(ctx.history[i].date, ctx.history[j].date)
    requires forall i :: 0 <= i < |ctx.history| ==> AtOrBefore(ctx.history[i].date, ctx.ignitionDate)
    ensures DaysSinceHigh(ctx).Some? && DaysSinceHigh(ctx).value == |ctx.history| - FirstMaxIndex(Highs(ctx.history))
  {
    var bars := ctx.history;
    var k := FirstMaxIndex(Highs(bars));
    var hd := TwoYearHighDate(ctx).value;
    assert hd == bars[k].date;
    assert DaysSinceHigh(ctx) == Some(|FilterWindow(bars, hd, ctx.ignitionDate)|);
    FilterWindowSuffix(bars, k, ctx.ignitionDate);
    assert |FilterWindow(bars, hd, ctx.ignitionDate)| == |bars| - k;
  }

  /** On strictly ascending dates, the window from the `k`-th date on holds the last `|bars| - k` bars. */
  lemma {:induction false} FilterWindowSuffix(bars: seq<Bar>, k: nat, end: Date)
    requires k < |bars|
    requires forall i, j :: 0 <= i < j < |bars| ==> Before(bars[i].date, bars[j].date)
    requires forall i :: 0 <= i < |bars| ==> AtOrBefore(bars[i].date, end)
    ensures |FilterWindow(bars, bars[k].date, end)| == |bars| - k
    decreases k
  {
    var start := bars[k].date;
    if k == 0 {
      forall i | 0 <= i < |bars|
        ensures InWindow(bars[i].date, start, end)
      {
        if i > 0 {
          assert Before(bars[0].date, bars[i].date);
        }
      }
      FilterWindowAll(bars, start, end);
    } else {
      assert Before(bars[0].date, start);
      assert !InWindow(bars[0].date, start, end);
      var rest := bars[1..];
      assert rest[k - 1] == bars[k];
      assert forall i, j :: 0 <= i < j < |rest| ==> rest[i] == bars[i + 1] && rest[j] == bars[j + 1];
      FilterWindowSuffix(rest, k - 1, end);
    }
  }

  /** With the history long enough, a bar to read the ignition volume from always exists. */
  lemma VolumeAtIgnitionExists(ctx: ScoringContext)
    requires HasSufficientData(ctx)
    ensures VolumeAtIgnition(ctx).Some?
    ensures forall i :: (0 <= i < |ctx.history| && ctx.history[i].date == ctx.ignitionDate
                         && forall j :: 0 <= j < i ==> ctx.history[j].date != ctx.ignitionDate) ==>
                        VolumeAtIgnition(ctx) == Some(ctx.history[i].volume)
  {
    var bars, d := ctx.history, ctx.ignitionDate;
    if FirstDated(bars, d).None? {
      var b := bars[0].date;
      assert b != d;
      assert Before(b, d) || Before(d, b);
      if Before(b, d) {
        assert LastBefore(bars, d).Some?;
      } else {
        assert FirstAfter(bars, d).Some?;
      }
    }
  }

  /** The average volume lies between the smallest and largest volume of the history. */
  lemma AvgVolumeBounds(ctx: ScoringContext, days: int, lo: real, hi: real)
    requires forall i :: 0 <= i < |ctx.history| ==> lo <= ctx.history[i].volume <= hi
    ensures AvgVolume(ctx, days).Some? ==> lo <= AvgVolume(ctx, days).value <= hi
  {
    if AvgVolume(ctx, days).Some? {
      var vs := Volumes(ctx.history);
      var window := Tail(vs, days);
      assert forall i :: 0 <= i < |window| ==> window[i] == vs[|vs| - |window| + i];
      MeanBounds(window, lo, hi);
    }
  }
}
