/**
 * The maximum drawup of a price series: the best gain from a low to a
 * later high, found in one pass that keeps the running minimum.
 */
module Calculations {
  import opened Common
  import opened Dates
  import opened Frames
  import opened Results

  /** The percentage gain of buying at `low` and selling at `high`. */
  function PctGain(low: real, high: real): real
    requires low != 0.0
  {
    (high - low) / low * 100.0
  }

  /** Buying at a positive price gains exactly when the selling price is higher. */
  lemma PctGainSign(low: real, high: real)
    requires low > 0.0
    ensures PctGain(low, high) > 0.0 <==> high > low
  {
    var q := (high - low) / low;
    assert q * low == high - low;
  }

  /** The percentage gain of buying at `c[i]` and selling at `c[j]`. */
  function PairGain(c: seq<real>, i: nat, j: nat): real
    requires i < |c| && j < |c| && c[i] != 0.0
  {
    PctGain(c[i], c[j])
  }

  /**
   * The position of the running minimum of `c[..k]`. The minimum moves only
   * on a strict decrease, so this is the earliest position of the smallest value.
   */
  function RunMin(c: seq<real>, k: nat): (m: nat)
    requires 1 <= k <= |c|
    ensures m < k
  {
    if k == 1 then 0
    else
      var m := RunMin(c, k - 1);
      if c[k - 1] < c[m] then k - 1 else m
  }

  /** The running minimum is the earliest position of the smallest of `c[..k]`. */
  lemma {:induction false} RunMinLeast(c: seq<real>, k: nat)
    requires 1 <= k <= |c|
    ensures forall t :: 0 <= t < k ==> c[RunMin(c, k)] <= c[t]
    ensures forall t :: 0 <= t < RunMin(c, k) ==> c[t] > c[RunMin(c, k)]
  {
    if k > 1 {
      RunMinLeast(c, k - 1);
    }
  }

  /**
   * The gain measured at step `i`: from the running minimum before `i` up to
   * `c[i]`. There is none when `c[i]` is a new minimum or the minimum is not positive.
   */
  function StepGain(c: seq<real>, i: nat): Option<real>
    requires 1 <= i < |c|
  {
    var m := RunMin(c, i);
    if c[i] < c[m] || c[m] <= 0.0 then None else Some(PairGain(c, m, i))
  }

  /** The best pair recorded so far, if any. */
  datatype Best = NoPair | Pair(gain: real, low: nat, high: nat)

  function BestGain(b: Best): real
  {
    if b.NoPair? then 0.0 else b.gain
  }

  /**
   * The best pair after the steps `1 .. k-1`: it is replaced only by a
   * strictly larger gain. A recorded pair has its low before its high,
   * a positive low price and a positive gain.
   */
  function BestUpTo(c: seq<real>, k: nat): (b: Best)
    requires 1 <= k <= |c|
    ensures b.Pair? ==> b.low < b.high < k && b.gain > 0.0
  {
    if k == 1 then NoPair
    else
      var b := BestUpTo(c, k - 1);
      var g := StepGain(c, k - 1);
      if g.Some? && g.value > BestGain(b) then Pair(g.value, RunMin(c, k - 1), k - 1) else b
  }

  /**
   * A recorded pair starts at the running minimum before its high, at a
   * positive price, and its gain is the gain of that pair.
   */
  lemma {:induction false} BestPair(c: seq<real>, k: nat)
    requires 1 <= k <= |c| && BestUpTo(c, k).Pair?
    ensures var b := BestUpTo(c, k);
      b.low == RunMin(c, b.high) && c[b.low] > 0.0 && b.gain == PairGain(c, b.low, b.high)
  {
    var prev := BestUpTo(c, k - 1);
    if BestUpTo(c, k) == prev {
      BestPair(c, k - 1);
    }
  }

  /**
   * `calculate_max_gain(ticker, df, min_gain_pct)`, where `hasClose` says
   * whether the frame has a Close column.
   */
  function MaxGain(ticker: string, bars: seq<Bar>, hasClose: bool, minGainPct: real): Option<ScanResult>
  {
    if |bars| < 2 || !hasClose then None
    else ResultFromCloses(ticker, CloseSeries(bars), minGainPct)
  }

  /** The part of `calculate_max_gain` after the NaN closes are dropped. */
  function ResultFromCloses(ticker: string, ps: seq<Point>, minGainPct: real): Option<ScanResult>
  {
    if |ps| < 2 then None
    else
      var c := Prices(ps);
      var b := BestUpTo(c, |c|);
      if BestGain(b) < minGainPct || b.NoPair? then None
      else Some(ScanResult(ticker, b.gain, ps[b.low].date, ps[b.high].date,
                           c[b.low], c[b.high], c[|c| - 1], b.high - b.low))
  }

  /** The variables of the pass hold the recorded pair `b`. */
  predicate Tracks(b: Best, c: seq<real>, bestGain: real, bestLow: Option<nat>, bestHigh: Option<nat>,
                   bestLowPrice: real, bestHighPrice: real)
  {
    match b
    case NoPair => bestGain == 0.0 && bestLow.None? && bestHigh.None?
    case Pair(g, lo, hi) =>
      lo < |c| && hi < |c| && bestGain == g && bestLow == Some(lo) && bestHigh == Some(hi)
      && bestLowPrice == c[lo] && bestHighPrice == c[hi]
  }

  /**
   * `calculate_max_gain(ticker, df, min_gain_pct)`: the guards, the pass
   * and the construction of the result.
   */
  method CalculateMaxGain(ticker: string, bars: seq<Bar>, hasClose: bool, minGainPct: real)
    returns (r: Option<ScanResult>)
    ensures r == MaxGain(ticker, bars, hasClose, minGainPct)
  {
    if |bars| < 2 {
      return None;
    }
    if !hasClose {
      return None;
    }
    var close := CloseSeries(bars);
    if |close| < 2 {
      return None;
    }
    var bestGain, bestLow, bestHigh, bestLowPrice, bestHighPrice := ScanPass(close);
    if bestGain < minGainPct {
      return None;
    }
    if bestLow.None? || bestHigh.None? {
      return None;
    }
    var lo := bestLow.value;
    var hi := bestHigh.value;
    var daysToPeak := hi - lo;
    var currentPrice := close[|close| - 1].price;
    r := Some(ScanResult(ticker, bestGain, close[lo].date, close[hi].date,
                         bestLowPrice, bestHighPrice, currentPrice, daysToPeak));
  }

  /** The single pass over the closes, keeping the running minimum and the best pair. */
  method ScanPass(close: seq<Point>)
    returns (bestGain: real, bestLow: Option<nat>, bestHigh: Option<nat>, bestLowPrice: real, bestHighPrice: real)
    requires |close| >= 1
    ensures Tracks(BestUpTo(Prices(close), |close|), Prices(close), bestGain, bestLow, bestHigh, bestLowPrice, bestHighPrice)
  {
    ghost var c := Prices(close);
    bestGain := 0.0;
    bestLow := None;
    bestHigh := None;
    bestLowPrice := 0.0;
    bestHighPrice := 0.0;
    var minPrice := close[0].price;
    var minIdx := 0;

    for i := 1 to |close|
      invariant minIdx == RunMin(c, i) && minPrice == c[minIdx]
      invariant Tracks(BestUpTo(c, i), c, bestGain, bestLow, bestHigh, bestLowPrice, bestHighPrice)
    {
      var currentPrice := close[i].price;
      ghost var b := BestUpTo(c, i);
      ghost var g := StepGain(c, i);
      PassStep(c, i);
      assert currentPrice == c[i] && BestGain(b) == bestGain;
      if currentPrice < minPrice {
        assert g.None?;
        minPrice := currentPrice;
        minIdx := i;
      } else if minPrice > 0.0 {
        var gainPct := (currentPrice - minPrice) / minPrice * 100.0;
        assert g == Some(gainPct);
        if gainPct > bestGain {
          bestGain := gainPct;
          bestLow := Some(minIdx);
          bestHigh := Some(i);
          bestLowPrice := minPrice;
          bestHighPrice := currentPrice;
        }
      } else {
        assert g.None?;
      }
    }
  }

  /** Closes that are all strictly positive. */
  predicate AllPositive(c: seq<real>)
  {
    forall i :: 0 <= i < |c| ==> c[i] > 0.0
  }

  /** One step of the pass: the running minimum and the best pair after `c[i]`. */
  lemma PassStep(c: seq<real>, i: nat)
    requires 1 <= i < |c|
    ensures RunMin(c, i + 1) == if c[i] < c[RunMin(c, i)] then i else RunMin(c, i)
    ensures var g := StepGain(c, i);
      BestUpTo(c, i + 1) == if g.Some? && g.value > BestGain(BestUpTo(c, i)) then Pair(g.value, RunMin(c, i), i) else BestUpTo(c, i)
    ensures BestGain(BestUpTo(c, i)) <= BestGain(BestUpTo(c, i + 1))
    ensures StepGain(c, i).Some? ==> StepGain(c, i).value <= BestGain(BestUpTo(c, i + 1))
  {
  }

  /** Buying at a lower positive price never gives a smaller gain. */
  lemma PairGainLowerBuy(c: seq<real>, i: nat, m: nat, j: nat)
    requires i < |c| && m < |c| && j < |c|
    requires 0.0 < c[m] <= c[i] && c[j] >= 0.0
    ensures PairGain(c, i, j) <= PairGain(c, m, j)
  {
    var x, a, b := c[j], c[m], c[i];
    assert x / b <= x / a by {
      assert x / a * a == x;
      assert x / b * b == x;
      assert x / b * a <= x / b * b;
    }
    QuotientMinusOne(x, b);
    QuotientMinusOne(x, a);
  }

  lemma QuotientMinusOne(x: real, a: real)
    requires a > 0.0
    ensures (x - a) / a == x / a - 1.0
  {
    assert (x - a) / a * a == x - a;
    assert (x / a - 1.0) * a == x - a;
    CancelFactor((x - a) / a, x / a - 1.0, a);
  }

  lemma CancelFactor(p: real, q: real, a: real)
    requires a != 0.0 && p * a == q * a
    ensures p == q
  {
    assert (p - q) * a == 0.0;
  }

  /** With positive closes, every pair ending at `j` gains at most what step `j` measures. */
  lemma PairBoundedByStep(c: seq<real>, i: nat, j: nat)
    requires AllPositive(c) && i < j < |c|
    ensures StepGain(c, j).None? ==> PairGain(c, i, j) < 0.0
    ensures StepGain(c, j).Some? ==> PairGain(c, i, j) <= StepGain(c, j).value
  {
    var m := RunMin(c, j);
    RunMinLeast(c, j);
    assert c[m] <= c[i];
    if c[j] < c[m] {
      assert c[j] - c[i] < 0.0;
      assert (c[j] - c[i]) / c[i] < 0.0;
    } else {
      PairGainLowerBuy(c, i, m, j);
    }
  }

  /** The best gain never decreases as the pass goes on, and is never negative. */
  lemma {:induction false} BestGainMonotone(c: seq<real>, k1: nat, k2: nat)
    requires 1 <= k1 <= k2 <= |c|
    ensures 0.0 <= BestGain(BestUpTo(c, k1)) <= BestGain(BestUpTo(c, k2))
    decreases k2 - k1
  {
    if k1 < k2 {
      BestGainMonotone(c, k1, k2 - 1);
      PassStep(c, k2 - 1);
    }
  }

  /** Every gain measured before `k` is at most the best gain after `k` steps. */
  lemma StepGainBelowBest(c: seq<real>, j: nat, k: nat)
    requires 1 <= j < k <= |c|
    requires StepGain(c, j).Some?
    ensures StepGain(c, j).value <= BestGain(BestUpTo(c, k))
  {
    PassStep(c, j);
    BestGainMonotone(c, j + 1, k);
  }

  /**
   * Optimality: with positive closes, no pair `i < j` gains more than the
   * best gain of the pass; and the pass records a pair as soon as some
   * later close is above an earlier one.
   */
  lemma BestIsMaximum(c: seq<real>)
    requires AllPositive(c) && |c| >= 1
    ensures forall i, j :: 0 <= i < j < |c| ==> PairGain(c, i, j) <= BestGain(BestUpTo(c, |c|))
    ensures (exists i, j :: 0 <= i < j < |c| && c[i] < c[j]) ==> BestUpTo(c, |c|).Pair?
  {
    forall i, j | 0 <= i < j < |c|
      ensures PairGain(c, i, j) <= BestGain(BestUpTo(c, |c|))
    {
      PairBoundedByStep(c, i, j);
      BestGainMonotone(c, 1, |c|);
      if StepGain(c, j).Some? {
        StepGainBelowBest(c, j, |c|);
      }
    }
    if exists i, j :: 0 <= i < j < |c| && c[i] < c[j] {
      var i, j :| 0 <= i < j < |c| && c[i] < c[j];
      PctGainSign(c[i], c[j]);
      assert PairGain(c, i, j) > 0.0;
    }
  }

  /** Once recorded, a pair stays until a strictly larger gain replaces it. */
  lemma {:induction false} BestSettled(c: seq<real>, k: nat)
    requires 1 <= k <= |c| && BestUpTo(c, k).Pair?
    ensures var b := BestUpTo(c, k);
      BestUpTo(c, b.high + 1) == b && BestGain(BestUpTo(c, b.high)) < b.gain
  {
    var b := BestUpTo(c, k);
    var prev := BestUpTo(c, k - 1);
    if b != prev {
      var g := StepGain(c, k - 1);
      assert g.Some? && g.value > BestGain(prev) && b == Pair(g.value, RunMin(c, k - 1), k - 1);
      assert b.high + 1 == k && b.high == k - 1;
    } else {
      BestSettled(c, k - 1);
    }
  }

  /**
   * Ties keep the earliest peak: with positive closes, no pair that ends
   * before the recorded high reaches the recorded gain.
   */
  lemma EarliestPeak(c: seq<real>)
    requires AllPositive(c) && |c| >= 1 && BestUpTo(c, |c|).Pair?
    ensures var b := BestUpTo(c, |c|);
      forall i, j :: 0 <= i < j < b.high ==> PairGain(c, i, j) < b.gain
  {
    var b := BestUpTo(c, |c|);
    BestSettled(c, |c|);
    forall i, j | 0 <= i < j < b.high
      ensures PairGain(c, i, j) < b.gain
    {
      PairBoundedByStep(c, i, j);
      BestGainMonotone(c, 1, b.high);
      if StepGain(c, j).Some? {
        StepGainBelowBest(c, j, b.high);
      }
    }
  }

  /**
   * A result needs at least two bars and a Close column, and is the result
   * over the NaN-free closes, which are at least two.
   */
  lemma MaxGainResult(ticker: string, bars: seq<Bar>, hasClose: bool, minGainPct: real)
    requires MaxGain(ticker, bars, hasClose, minGainPct).Some?
    ensures |bars| >= 2 && hasClose && |CloseSeries(bars)| >= 2
    ensures MaxGain(ticker, bars, hasClose, minGainPct) == ResultFromCloses(ticker, CloseSeries(bars), minGainPct)
  {
  }

  /**
   * What a result states: the low comes strictly before the high in the
   * close series, the prices are the closes there, the gain is their
   * percentage gain and reaches the threshold, the day count is the
   * difference of positions and the current price is the last close.
   */
  lemma ClosesResult(ticker: string, ps: seq<Point>, minGainPct: real)
    requires ResultFromCloses(ticker, ps, minGainPct).Some?
    ensures var r := ResultFromCloses(ticker, ps, minGainPct).value;
      |ps| >= 2
      && r.ticker == ticker
      && (exists lo, hi :: 0 <= lo < hi < |ps|
            && r.lowDate == ps[lo].date && r.highDate == ps[hi].date
            && r.lowPrice == ps[lo].price && r.highPrice == ps[hi].price
            && r.daysToPeak == hi - lo)
      && r.lowPrice > 0.0 && r.gainPct > 0.0 && r.gainPct >= minGainPct && r.daysToPeak > 0
      && r.currentPrice == ps[|ps| - 1].price
      && r.gainPct == PctGain(r.lowPrice, r.highPrice)
  {
    var c := Prices(ps);
    var b := BestUpTo(c, |c|);
    BestPair(c, |c|);
    var r := ResultFromCloses(ticker, ps, minGainPct).value;
    assert r.lowPrice == c[b.low] == ps[b.low].price && r.highPrice == c[b.high] == ps[b.high].price;
    assert r.currentPrice == c[|c| - 1] == ps[|ps| - 1].price;
  }

  /**
   * With positive closes the detector answers exactly: it returns a result
   * iff some pair `i < j` rises and gains at least `minGainPct`, and the
   * result's gain is the largest pair gain.
   */
  lemma MaxGainExact(ticker: string, bars: seq<Bar>, minGainPct: real)
    requires |bars| >= 2 && |CloseSeries(bars)| >= 2
    requires AllPositive(Prices(CloseSeries(bars)))
    ensures var c := Prices(CloseSeries(bars));
      var r := MaxGain(ticker, bars, true, minGainPct);
      (r.Some? <==> exists i, j :: 0 <= i < j < |c| && c[i] < c[j] && PairGain(c, i, j) >= minGainPct)
      && (r.Some? ==> forall i, j :: 0 <= i < j < |c| ==> PairGain(c, i, j) <= r.value.gainPct)
  {
    var c := Prices(CloseSeries(bars));
    BestIsMaximum(c);
    BestMeetsThreshold(c, minGainPct);
  }

  /** The pass keeps a pair reaching the threshold iff some rising pair reaches it. */
  lemma BestMeetsThreshold(c: seq<real>, minGainPct: real)
    requires AllPositive(c) && |c| >= 1
    ensures var b := BestUpTo(c, |c|);
      (b.Pair? && BestGain(b) >= minGainPct)
      <==> exists i, j :: 0 <= i < j < |c| && c[i] < c[j] && PairGain(c, i, j) >= minGainPct
  {
    BestIsMaximum(c);
    var b := BestUpTo(c, |c|);
    if b.Pair? && b.gain >= minGainPct {
      BestPair(c, |c|);
      PctGainSign(c[b.low], c[b.high]);
    }
  }
}
