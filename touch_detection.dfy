/**
 * Touches: the bars whose Low lies within a relative tolerance band around
 * a fitted trendline.
 */
module TouchDetection {
  import opened Common
  import opened Dates
  import opened Frames
  import opened AnalysisModels

  function Abs(x: real): (a: real)
    ensures a >= 0.0 && (a == x || a == -x)
  {
    if x < 0.0 then -x else x
  }

  /** The relative distance of bar `i`'s Low from the line, signed: above the line is positive when the line is. */
  function Deviation(bars: seq<Bar>, fit: TrendlineFit, i: nat): real
    requires i < |bars| && PriceAtBar(fit, i) != 0.0
  {
    (bars[i].low - PriceAtBar(fit, i)) / PriceAtBar(fit, i)
  }

  /** Bar `i` touches the line: the line's price there is not zero and the Low deviates by at most `tolerance`. */
  predicate IsTouch(bars: seq<Bar>, fit: TrendlineFit, tolerance: real, i: nat)
    requires i < |bars|
  {
    PriceAtBar(fit, i) != 0.0 && Abs(Deviation(bars, fit, i)) <= tolerance
  }

  function TouchAt(bars: seq<Bar>, fit: TrendlineFit, i: nat): TouchPoint
    requires i < |bars| && PriceAtBar(fit, i) != 0.0
  {
    TouchPoint(bars[i].date, bars[i].low, PriceAtBar(fit, i), Deviation(bars, fit, i), i)
  }

  /** The touches among the first `m` bars, in bar order. */
  function TouchesBelow(bars: seq<Bar>, fit: TrendlineFit, tolerance: real, m: nat): (r: seq<TouchPoint>)
    requires m <= |bars|
    ensures |r| <= m
  {
    if m == 0 then []
    else
      var r' := TouchesBelow(bars, fit, tolerance, m - 1);
      if IsTouch(bars, fit, tolerance, m - 1) then r' + [TouchAt(bars, fit, m - 1)] else r'
  }

  /** Every touch listed among the first `m` bars is the touch of a touching bar below `m`. */
  lemma {:induction false} TouchesBelowAreTouches(bars: seq<Bar>, fit: TrendlineFit, tolerance: real, m: nat)
    requires m <= |bars|
    ensures forall t :: 0 <= t < |TouchesBelow(bars, fit, tolerance, m)| ==>
      TouchesBelow(bars, fit, tolerance, m)[t].barIndex < m
      && IsTouch(bars, fit, tolerance, TouchesBelow(bars, fit, tolerance, m)[t].barIndex)
      && TouchesBelow(bars, fit, tolerance, m)[t] == TouchAt(bars, fit, TouchesBelow(bars, fit, tolerance, m)[t].barIndex)
  {
    if m > 0 {
      TouchesBelowAreTouches(bars, fit, tolerance, m - 1);
      var r' := TouchesBelow(bars, fit, tolerance, m - 1);
      var r := TouchesBelow(bars, fit, tolerance, m);
      if IsTouch(bars, fit, tolerance, m - 1) {
        assert forall t :: 0 <= t < |r'| ==> r[t] == r'[t];
      }
    }
  }

  /** Bar `i` has a touch in `r`. */
  predicate TouchListed(r: seq<TouchPoint>, i: nat)
  {
    exists t :: 0 <= t < |r| && r[t].barIndex == i
  }

  /** Every touching bar below `m` is listed among the touches of the first `m` bars. */
  lemma {:induction false} TouchesBelowComplete(bars: seq<Bar>, fit: TrendlineFit, tolerance: real, m: nat)
    requires m <= |bars|
    ensures forall i: nat :: i < m && IsTouch(bars, fit, tolerance, i) ==> TouchListed(TouchesBelow(bars, fit, tolerance, m), i)
  {
    if m > 0 {
      TouchesBelowComplete(bars, fit, tolerance, m - 1);
      var r' := TouchesBelow(bars, fit, tolerance, m - 1);
      var r := TouchesBelow(bars, fit, tolerance, m);
      forall i: nat | i < m && IsTouch(bars, fit, tolerance, i)
        ensures TouchListed(r, i)
      {
        if i < m - 1 {
          var t :| 0 <= t < |r'| && r'[t].barIndex == i;
          assert r[t] == r'[t];
        } else {
          assert r[|r| - 1].barIndex == i;
        }
      }
    }
  }

  /** The touches are listed in strictly increasing bar order. */
  lemma {:induction false} TouchesBelowOrdered(bars: seq<Bar>, fit: TrendlineFit, tolerance: real, m: nat)
    requires m <= |bars|
    ensures forall s, t :: 0 <= s < t < |TouchesBelow(bars, fit, tolerance, m)| ==>
      TouchesBelow(bars, fit, tolerance, m)[s].barIndex < TouchesBelow(bars, fit, tolerance, m)[t].barIndex
  {
    if m > 0 {
      TouchesBelowOrdered(bars, fit, tolerance, m - 1);
      TouchesBelowAreTouches(bars, fit, tolerance, m - 1);
      var r' := TouchesBelow(bars, fit, tolerance, m - 1);
      var r := TouchesBelow(bars, fit, tolerance, m);
      if IsTouch(bars, fit, tolerance, m - 1) {
        assert forall t :: 0 <= t < |r'| ==> r[t] == r'[t];
        assert r[|r| - 1].barIndex == m - 1;
      }
    }
  }

  function Touches(bars: seq<Bar>, fit: TrendlineFit, tolerance: real): seq<TouchPoint>
  {
    TouchesBelow(bars, fit, tolerance, |bars|)
  }

  /** `detect_touches(df, trendline, tolerance)` */
  method DetectTouches(bars: seq<Bar>, fit: TrendlineFit, tolerance: real) returns (touches: seq<TouchPoint>)
    ensures touches == Touches(bars, fit, tolerance)
  {
    if |bars| == 0 {
      return [];
    }
    touches := [];
    for i := 0 to |bars|
      invariant touches == TouchesBelow(bars, fit, tolerance, i)
    {
      TouchStep(bars, fit, tolerance, i);
      var trendlinePrice := PriceAtBar(fit, i);
      if trendlinePrice == 0.0 {
        continue;
      }
      var deviationPct := Deviation(bars, fit, i);
      if Abs(deviationPct) <= tolerance {
        touches := touches + [TouchPoint(bars[i].date, bars[i].low, trendlinePrice, deviationPct, i)];
      }
    }
  }

  lemma TouchStep(bars: seq<Bar>, fit: TrendlineFit, tolerance: real, i: nat)
    requires i < |bars|
    ensures TouchesBelow(bars, fit, tolerance, i + 1) == TouchesBelow(bars, fit, tolerance, i)
      + (if IsTouch(bars, fit, tolerance, i) then [TouchAt(bars, fit, i)] else [])
  {
  }

  /**
   * Over a positive line, the deviation is positive exactly when the Low is
   * above the line and negative exactly when it is below; the Low is
   * recovered from the deviation.
   */
  lemma DeviationSign(bars: seq<Bar>, fit: TrendlineFit, i: nat)
    requires i < |bars| && PriceAtBar(fit, i) > 0.0
    ensures var d := Deviation(bars, fit, i);
      (d > 0.0 <==> bars[i].low > PriceAtBar(fit, i))
      && (d < 0.0 <==> bars[i].low < PriceAtBar(fit, i))
      && bars[i].low == PriceAtBar(fit, i) * (1.0 + d)
  {
    var tp := PriceAtBar(fit, i);
    var d := Deviation(bars, fit, i);
    assert d * tp == bars[i].low - tp;
  }

  /** With tolerance 0 only bars whose Low lies exactly on the line touch it. */
  lemma ZeroToleranceIsExact(bars: seq<Bar>, fit: TrendlineFit, i: nat)
    requires i < |bars|
    ensures IsTouch(bars, fit, 0.0, i) <==> PriceAtBar(fit, i) != 0.0 && bars[i].low == PriceAtBar(fit, i)
  {
    var tp := PriceAtBar(fit, i);
    if tp != 0.0 {
      var d := Deviation(bars, fit, i);
      assert d * tp == bars[i].low - tp;
    }
  }

  /** A bar touches iff its Low lies in the band between `tp (1 - tolerance)` and `tp (1 + tolerance)` over a positive line. */
  lemma TouchBand(bars: seq<Bar>, fit: TrendlineFit, tolerance: real, i: nat)
    requires i < |bars| && PriceAtBar(fit, i) > 0.0
    ensures var tp := PriceAtBar(fit, i);
      IsTouch(bars, fit, tolerance, i) <==> tp * (1.0 - tolerance) <= bars[i].low <= tp * (1.0 + tolerance)
  {
    DeviationSign(bars, fit, i);
  }
}
