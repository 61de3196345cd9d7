/**
 * Summary statistics of a variable over a population: the clean sample,
 * its mean, median, spread, extremes and interpolated percentiles, and the
 * lift of winners over everyone.
 */
module Statistics {
  import opened Common
  import opened Sorting
  import opened AnalysisModels

  /** One input value: `None`, a NaN, or a number. */
  datatype Sample = Missing | NaN | Num(x: real)

  /** `[v for v in values if v is not None and not math.isnan(v)]` */
  function Clean(values: seq<Sample>): (c: seq<real>)
    ensures |c| <= |values|
    ensures forall x :: x in c <==> Num(x) in values
  {
    if values == [] then []
    else
      var c' := Clean(values[..|values| - 1]);
      var v := values[|values| - 1];
      assert forall s :: s in values <==> s in values[..|values| - 1] || s == v;
      if v.Num? then c' + [v.x] else c'
  }

  predicate Ascending(s: seq<real>)
  {
    forall i, j :: 0 <= i < j < |s| ==> s[i] <= s[j]
  }

  /** `math.floor` */
  function Floor(x: real): int
  {
    x.Floor
  }

  /** `math.ceil` */
  function Ceil(x: real): (c: int)
    ensures c == Floor(x) || c == Floor(x) + 1
    ensures Floor(x) as real <= x <= c as real
    ensures c == Floor(x) <==> Floor(x) as real == x
  {
    if x.Floor as real == x then x.Floor else x.Floor + 1
  }

  /** The interpolation rank `(n - 1) * p / 100` of the `p`th percentile of `n` values. */
  function Rank(n: nat, p: real): (k: real)
    requires n >= 1 && 0.0 <= p <= 100.0
    ensures 0.0 <= k <= (n - 1) as real
    ensures 0 <= Floor(k) <= Ceil(k) <= n - 1
  {
    var span := (n - 1) as real;
    var fraction := p / 100.0;
    Interpolate(span, fraction);
    span * fraction
  }

  /** A fraction of a non-negative span lies within the span. */
  lemma Interpolate(a: real, t: real)
    requires a >= 0.0 && 0.0 <= t <= 1.0
    ensures 0.0 <= a * t <= a
  {
    assert a * t <= a * 1.0;
  }

  /** The point a fraction `t` of the way from `lo` to `hi`. */
  function Lerp(lo: real, hi: real, t: real): real
  {
    lo * (1.0 - t) + hi * t
  }

  /** A point on the segment from `lo` to `hi` lies between them. */
  lemma Between(lo: real, hi: real, t: real)
    requires lo <= hi && 0.0 <= t <= 1.0
    ensures lo <= Lerp(lo, hi, t) <= hi
  {
    var gap := hi - lo;
    Interpolate(gap, t);
    assert Lerp(lo, hi, t) == lo + gap * t;
  }

  /**
   * `percentile(sorted_values, p)` with linear interpolation at rank
   * `k = (n - 1) p / 100`: an integral rank picks that element, otherwise
   * the result lies on the segment between the two neighbouring elements.
   */
  function Percentile(s: seq<real>, p: real): (r: real)
    requires 0.0 <= p <= 100.0
    ensures s == [] ==> r == 0.0
    ensures |s| == 1 ==> r == s[0]
    ensures |s| >= 2 ==>
      var k := Rank(|s|, p);
      (Floor(k) == Ceil(k) ==> r == s[Floor(k)])
      && (Ascending(s) ==> s[Floor(k)] <= r <= s[Ceil(k)])
  {
    if s == [] then 0.0
    else
      var n := |s|;
      if n == 1 then s[0]
      else
        var k := Rank(n, p);
        var f := Floor(k);
        var c := Ceil(k);
        if f == c then s[f]
        else
          var t := k - f as real;
          assert c as real - k == 1.0 - t;
          var r := Lerp(s[f], s[c], t);
          assert Ascending(s) ==> s[f] <= r <= s[c] by {
            if Ascending(s) {
              assert s[f] <= s[c];
              Between(s[f], s[c], t);
            }
          }
          r
  }

  /** The 0th percentile is the smallest element and the 100th the largest; every percentile of a sorted list lies between them. */
  lemma PercentileEnds(s: seq<real>, p: real)
    requires |s| >= 1 && Ascending(s) && 0.0 <= p <= 100.0
    ensures Percentile(s, 0.0) == s[0] && Percentile(s, 100.0) == s[|s| - 1]
    ensures s[0] <= Percentile(s, p) <= s[|s| - 1]
  {
    if |s| >= 2 {
      assert Rank(|s|, 0.0) == 0.0;
      assert Rank(|s|, 100.0) == (|s| - 1) as real;
    }
  }

  /** `(x - mean) ** 2` for every sample. */
  function SquaredDeviations(c: seq<real>, mean: real): (d: seq<real>)
    ensures |d| == |c|
    ensures forall i :: 0 <= i < |c| ==> d[i] == (c[i] - mean) * (c[i] - mean)
  {
    seq(|c|, i requires 0 <= i < |c| => (c[i] - mean) * (c[i] - mean))
  }

  /** The sample variance: the squared deviations from the mean, summed and divided by `n - 1`. */
  function SampleVariance(c: seq<real>): (v: real)
    requires |c| > 1
    ensures v >= 0.0
  {
    var d := SquaredDeviations(c, Mean(c));
    SumNonNegative(d);
    Sum(d) / (|c| - 1) as real
  }

  lemma {:induction false} SumNonNegative(xs: seq<real>)
    requires forall i :: 0 <= i < |xs| ==> xs[i] >= 0.0
    ensures Sum(xs) >= 0.0
  {
    if xs != [] {
      SumNonNegative(xs[..|xs| - 1]);
    }
  }

  /**
   * `calculate_stats(values, variable_name)`, with `sqrt` standing for
   * `math.sqrt` and no rounding: nothing but the name and a zero count for
   * an empty or all-missing input; otherwise the count, mean, median,
   * sample standard deviation, extremes and the four percentiles of the
   * clean values.
   */
  function CalculateStats(values: seq<Sample>, name: string, sqrt: real -> real): (st: VariableStats)
    ensures st.variableName == name && st.sampleSize == |Clean(values)|
    ensures st.sampleSize == 0 ==> st == EmptyStats(name)
    ensures st.sampleSize > 0 ==>
      st.mean == Some(Mean(Clean(values)))
      && st.minVal == Some(MinOf(Clean(values))) && st.maxVal == Some(MaxOf(Clean(values)))
      && st.median == Some(Percentile(SortBy(Clean(values), Identity), 50.0))
      && st.p10 == Some(Percentile(SortBy(Clean(values), Identity), 10.0))
      && st.p25 == Some(Percentile(SortBy(Clean(values), Identity), 25.0))
      && st.p75 == Some(Percentile(SortBy(Clean(values), Identity), 75.0))
      && st.p90 == Some(Percentile(SortBy(Clean(values), Identity), 90.0))
      && st.stdDev == Some(if st.sampleSize > 1 then sqrt(SampleVariance(Clean(values))) else 0.0)
  {
    if values == [] then EmptyStats(name)
    else
      var clean := Clean(values);
      if clean == [] then EmptyStats(name)
      else
        var n := |clean|;
        var sorted := SortBy(clean, Identity);
        var mean := Mean(clean);
        var median := Percentile(sorted, 50.0);
        var stdDev := if n > 1 then sqrt(SampleVariance(clean)) else 0.0;
        VariableStats(name, Some(mean), Some(median), Some(stdDev), Some(MinOf(clean)), Some(MaxOf(clean)),
                      Some(Percentile(sorted, 10.0)), Some(Percentile(sorted, 25.0)),
                      Some(Percentile(sorted, 75.0)), Some(Percentile(sorted, 90.0)), n)
  }

  /** Every percentile of the clean values lies between their minimum and maximum, and so does the mean. */
  lemma StatsWithinRange(values: seq<Sample>, name: string, sqrt: real -> real)
    requires |Clean(values)| > 0
    ensures var st := CalculateStats(values, name, sqrt);
      var lo, hi := st.minVal.value, st.maxVal.value;
      lo <= st.mean.value <= hi && lo <= st.median.value <= hi
      && lo <= st.p10.value <= hi && lo <= st.p25.value <= hi
      && lo <= st.p75.value <= hi && lo <= st.p90.value <= hi
  {
    var clean := Clean(values);
    var sorted := SortBy(clean, Identity);
    var lo, hi := MinOf(clean), MaxOf(clean);
    MeanBounds(clean, lo, hi);
    SortByCorrect(clean, Identity);
    assert Ascending(sorted) by {
      forall i, j | 0 <= i < j < |sorted|
        ensures sorted[i] <= sorted[j]
      {
        assert Identity(sorted[i]) <= Identity(sorted[j]);
      }
    }
    assert sorted[0] in multiset(clean) && sorted[|sorted| - 1] in multiset(clean);
    PercentileEnds(sorted, 50.0);
    PercentileEnds(sorted, 10.0);
    PercentileEnds(sorted, 25.0);
    PercentileEnds(sorted, 75.0);
    PercentileEnds(sorted, 90.0);
  }

  /** The variables on which winners are expected to be lower: the lift is taken in absolute value. */
  const NegativeMetrics: set<string> := {"drawdown", "pct_from_sma50", "pct_from_sma200"}

  /** `calculate_lift(winners_mean, all_mean, variable_name)`, without rounding. */
  function CalculateLift(winnersMean: Option<real>, allMean: Option<real>, name: string): (lift: Option<real>)
    ensures lift.None? <==> winnersMean.None? || allMean.None? || winnersMean.value == 0.0 || allMean.value == 0.0
    ensures lift.Some? && name !in NegativeMetrics ==> lift.value * allMean.value == winnersMean.value
    ensures lift.Some? && name in NegativeMetrics ==>
      lift.value > 0.0 && (lift.value * allMean.value == winnersMean.value || lift.value * allMean.value == -winnersMean.value)
  {
    if winnersMean.None? || allMean.None? then None
    else if allMean.value == 0.0 || winnersMean.value == 0.0 then None
    else
      var ratio := winnersMean.value / allMean.value;
      if name in NegativeMetrics then Some(if ratio < 0.0 then -ratio else ratio) else Some(ratio)
  }

  /** Equal means give a lift of one; for the negative metrics, means of opposite signs do too. */
  lemma LiftOfEqualMeans(m: real, name: string)
    requires m != 0.0
    ensures CalculateLift(Some(m), Some(m), name) == Some(1.0)
    ensures name in NegativeMetrics ==> CalculateLift(Some(-m), Some(m), name) == Some(1.0)
  {
    assert m / m == 1.0;
    assert (-m) / m == -1.0;
  }
}
