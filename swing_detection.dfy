/**
 * Swing lows and highs: a bar whose Low (High) is strictly below (above)
 * every other bar within `lookback` bars on either side; and the run of
 * ever higher swing lows.
 */
module SwingDetection {
  import opened Common
  import opened Dates
  import opened Frames
  import opened AnalysisModels

  /** Which column a swing is detected on: Low for swing lows, High for swing highs. */
  datatype Side = Lows | Highs

  function Level(side: Side, b: Bar): real
  {
    if side.Lows? then b.low else b.high
  }

  /** `a` is strictly lower (for lows) or strictly higher (for highs) than `b`. */
  predicate Beats(side: Side, a: real, b: real)
  {
    if side.Lows? then a < b else a > b
  }

  /**
   * Bar `i` is a swing: it has `k` bars on either side, and among the window
   * `[i - k, i + k]` without the rows labelled with bar `i`'s date (there is
   * at least one such row) it beats every one.
   */
  predicate IsSwing(bars: seq<Bar>, k: nat, i: int, side: Side)
  {
    k <= i < |bars| - k
    && (exists j :: i - k <= j <= i + k && bars[j].date != bars[i].date)
    && forall j :: i - k <= j <= i + k && bars[j].date != bars[i].date ==>
         Beats(side, Level(side, bars[i]), Level(side, bars[j]))
  }

  /**
   * `window.drop(label)`: the levels of the window rows `lo <= j < hi` whose
   * date differs from bar `i`'s, in order.
   */
  function Others(bars: seq<Bar>, i: nat, lo: nat, hi: nat, side: Side): (o: seq<real>)
    requires i < |bars| && lo <= hi <= |bars|
    ensures forall x :: x in o <==> exists j :: lo <= j < hi && bars[j].date != bars[i].date && x == Level(side, bars[j])
    decreases hi - lo
  {
    if lo == hi then []
    else
      var rest := Others(bars, i, lo + 1, hi, side);
      if bars[lo].date != bars[i].date then [Level(side, bars[lo])] + rest else rest
  }

  /**
   * The test the detector applies to bar `i`: its level against the minimum
   * (maximum) of the other rows; an empty set of other rows has a NaN
   * extremum, against which the comparison is false.
   */
  predicate SwingTest(bars: seq<Bar>, k: nat, i: nat, side: Side)
    requires k <= i && i + k < |bars|
  {
    var o := Others(bars, i, i - k, i + k + 1, side);
    |o| > 0 && (if side.Lows? then Level(side, bars[i]) < MinOf(o) else Level(side, bars[i]) > MaxOf(o))
  }

  /** Comparing with the window's extremum is comparing with every other row. */
  lemma SwingTestIsSwing(bars: seq<Bar>, k: nat, i: nat, side: Side)
    requires k <= i && i + k < |bars|
    ensures SwingTest(bars, k, i, side) <==> IsSwing(bars, k, i, side)
  {
    var o := Others(bars, i, i - k, i + k + 1, side);
    if IsSwing(bars, k, i, side) {
      var j :| i - k <= j <= i + k && bars[j].date != bars[i].date;
      assert Level(side, bars[j]) in o;
      var m := if side.Lows? then MinOf(o) else MaxOf(o);
      assert m in o;
    }
    if SwingTest(bars, k, i, side) {
      forall j | i - k <= j <= i + k && bars[j].date != bars[i].date
        ensures Beats(side, Level(side, bars[i]), Level(side, bars[j]))
      {
        assert Level(side, bars[j]) in o;
      }
      assert Level(side, bars[i - k]) in o || bars[i - k].date == bars[i].date;
      var x := o[0];
      assert x in o;
    }
  }

  function PointAt(bars: seq<Bar>, i: nat, side: Side): SwingPoint
    requires i < |bars|
  {
    SwingPoint(bars[i].date, Level(side, bars[i]), i)
  }

  /**
   * The swings among the first `m` bars, in bar order: exactly the swing
   * bars, each as its date, level and position.
   */
  function SwingsBelow(bars: seq<Bar>, k: nat, side: Side, m: nat): seq<SwingPoint>
    requires m <= |bars|
  {
    if m == 0 then []
    else
      var r' := SwingsBelow(bars, k, side, m - 1);
      if IsSwing(bars, k, m - 1, side) then r' + [PointAt(bars, m - 1, side)] else r'
  }

  /** Every point listed among the first `m` bars is the point of a swing bar below `m`. */
  lemma {:induction false} SwingsBelowAreSwings(bars: seq<Bar>, k: nat, side: Side, m: nat)
    requires m <= |bars|
    ensures forall t :: 0 <= t < |SwingsBelow(bars, k, side, m)| ==>
      SwingsBelow(bars, k, side, m)[t].barIndex < m
      && IsSwing(bars, k, SwingsBelow(bars, k, side, m)[t].barIndex, side)
      && SwingsBelow(bars, k, side, m)[t] == PointAt(bars, SwingsBelow(bars, k, side, m)[t].barIndex, side)
  {
    if m > 0 {
      SwingsBelowAreSwings(bars, k, side, m - 1);
      var r' := SwingsBelow(bars, k, side, m - 1);
      var r := SwingsBelow(bars, k, side, m);
      if IsSwing(bars, k, m - 1, side) {
        assert forall t :: 0 <= t < |r'| ==> r[t] == r'[t];
      }
    }
  }

  /** Bar `i` has a point in `r`. */
  predicate SwingListed(r: seq<SwingPoint>, i: nat)
  {
    exists t :: 0 <= t < |r| && r[t].barIndex == i
  }

  /** Every swing bar below `m` is listed among the swings of the first `m` bars. */
  lemma {:induction false} SwingsBelowComplete(bars: seq<Bar>, k: nat, side: Side, m: nat)
    requires m <= |bars|
    ensures forall i: nat :: i < m && IsSwing(bars, k, i, side) ==> SwingListed(SwingsBelow(bars, k, side, m), i)
  {
    if m > 0 {
      SwingsBelowComplete(bars, k, side, m - 1);
      var r' := SwingsBelow(bars, k, side, m - 1);
      var r := SwingsBelow(bars, k, side, m);
      forall i: nat | i < m && IsSwing(bars, k, i, side)
        ensures SwingListed(r, i)
      {
        if i < m - 1 {
          var t :| 0 <= t < |r'| && r'[t].barIndex == i;
          assert r[t] == r'[t];
        } else {
          assert r[|r| - 1].barIndex == i;
        }
      }
    }
  }

  /** The swings are listed in strictly increasing bar order. */
  lemma {:induction false} SwingsBelowOrdered(bars: seq<Bar>, k: nat, side: Side, m: nat)
    requires m <= |bars|
    ensures forall s, t :: 0 <= s < t < |SwingsBelow(bars, k, side, m)| ==>
      SwingsBelow(bars, k, side, m)[s].barIndex < SwingsBelow(bars, k, side, m)[t].barIndex
  {
    if m > 0 {
      SwingsBelowOrdered(bars, k, side, m - 1);
      SwingsBelowAreSwings(bars, k, side, m - 1);
      var r' := SwingsBelow(bars, k, side, m - 1);
      var r := SwingsBelow(bars, k, side, m);
      if IsSwing(bars, k, m - 1, side) {
        assert forall t :: 0 <= t < |r'| ==> r[t] == r'[t];
        assert r[|r| - 1].barIndex == m - 1;
      }
    }
  }

  /** The swings of the whole frame. */
  function Swings(bars: seq<Bar>, k: nat, side: Side): seq<SwingPoint>
  {
    SwingsBelow(bars, k, side, |bars|)
  }

  /** `detect_swing_lows` / `detect_swing_highs`: test each bar with `k` bars on either side. */
  method DetectSwings(bars: seq<Bar>, k: nat, side: Side) returns (points: seq<SwingPoint>)
    ensures points == Swings(bars, k, side)
  {
    if |bars| < 2 * k + 1 {
      NoSwingsInShortFrame(bars, k, side, |bars|);
      return [];
    }
    NoSwingsInShortFrame(bars, k, side, k);
    points := [];
    for i := k to |bars| - k
      invariant points == SwingsBelow(bars, k, side, i)
    {
      SwingTestIsSwing(bars, k, i, side);
      if SwingTest(bars, k, i, side) {
        points := points + [PointAt(bars, i, side)];
      }
    }
    NoSwingsAtTail(bars, k, side, |bars| - k, |bars|);
  }

  /** `detect_swing_lows(df, lookback)` */
  method DetectSwingLows(bars: seq<Bar>, lookback: nat) returns (points: seq<SwingPoint>)
    ensures points == Swings(bars, lookback, Lows)
  {
    points := DetectSwings(bars, lookback, Lows);
  }

  /** `detect_swing_highs(df, lookback)` */
  method DetectSwingHighs(bars: seq<Bar>, lookback: nat) returns (points: seq<SwingPoint>)
    ensures points == Swings(bars, lookback, Highs)
  {
    points := DetectSwings(bars, lookback, Highs);
  }

  /** No bar before position `k` (or, in a frame shorter than `2k + 1`, no bar at all) is a swing. */
  lemma NoSwingsInShortFrame(bars: seq<Bar>, k: nat, side: Side, m: nat)
    requires m <= |bars| && (m <= k || |bars| < 2 * k + 1)
    ensures SwingsBelow(bars, k, side, m) == []
  {
    NoSwingsBelow(bars, k, side, m);
  }

  /** The last `k` bars are never swings. */
  lemma {:induction false} NoSwingsAtTail(bars: seq<Bar>, k: nat, side: Side, from: nat, m: nat)
    requires from <= m <= |bars| && from + k >= |bars|
    ensures SwingsBelow(bars, k, side, m) == SwingsBelow(bars, k, side, from)
    decreases m - from
  {
    if m > from {
      NoSwingsAtTail(bars, k, side, from, m - 1);
    }
  }

  /** A frame shorter than `2k + 1` bars has no swings. */
  lemma ShortFrameHasNoSwings(bars: seq<Bar>, k: nat, side: Side)
    requires |bars| < 2 * k + 1
    ensures Swings(bars, k, side) == []
  {
    NoSwingsInShortFrame(bars, k, side, |bars|);
  }

  /** Distinct bar dates, as a daily index has them. */
  predicate DistinctDates(bars: seq<Bar>)
  {
    forall i, j :: 0 <= i < j < |bars| ==> bars[i].date != bars[j].date
  }

  /**
   * With distinct dates and `k >= 1`, a series whose Lows never rise, or
   * never fall, has no swing lows; in particular a flat one has none. With
   * `k = 0` no frame has any.
   */
  lemma MonotoneHasNoSwingLows(bars: seq<Bar>, k: nat)
    requires DistinctDates(bars)
    requires (forall i :: 0 <= i < |bars| - 1 ==> bars[i].low >= bars[i + 1].low)
          || (forall i :: 0 <= i < |bars| - 1 ==> bars[i].low <= bars[i + 1].low)
    ensures Swings(bars, k, Lows) == []
  {
    var falling := forall i :: 0 <= i < |bars| - 1 ==> bars[i].low >= bars[i + 1].low;
    forall i | 0 <= i < |bars|
      ensures !IsSwing(bars, k, i, Lows)
    {
      if k <= i < |bars| - k {
        if k == 0 {
          assert forall j :: i - k <= j <= i + k ==> bars[j].date == bars[i].date;
        } else if falling {
          assert bars[i + 1].date != bars[i].date && bars[i].low >= bars[i + 1].low;
        } else {
          assert bars[i - 1].date != bars[i].date && bars[i - 1].low <= bars[i].low;
        }
      }
    }
    NoSwingsBelow(bars, k, Lows, |bars|);
  }

  /** Where no bar below `m` is a swing, none is listed. */
  lemma {:induction false} NoSwingsBelow(bars: seq<Bar>, k: nat, side: Side, m: nat)
    requires m <= |bars| && forall i :: 0 <= i < m ==> !IsSwing(bars, k, i, side)
    ensures SwingsBelow(bars, k, side, m) == []
  {
    if m > 0 {
      NoSwingsBelow(bars, k, side, m - 1);
    }
  }

  /** Every bar's High as a negated Low: the mirror image used to relate highs to lows. */
  function Mirror(bars: seq<Bar>): (m: seq<Bar>)
    ensures |m| == |bars|
    ensures forall i :: 0 <= i < |bars| ==> m[i] == bars[i].(low := -bars[i].high)
  {
    seq(|bars|, i requires 0 <= i < |bars| => bars[i].(low := -bars[i].high))
  }

  /** Swing highs are the swing lows of the mirror image: the two detectors are mirrors. */
  lemma HighsMirrorLows(bars: seq<Bar>, k: nat, i: int)
    ensures IsSwing(bars, k, i, Highs) <==> IsSwing(Mirror(bars), k, i, Lows)
  {
  }

  /** The prices of a list of swing points. */
  function PricesOf(s: seq<SwingPoint>): (ps: seq<real>)
    ensures |ps| == |s|
    ensures forall i :: 0 <= i < |s| ==> ps[i] == s[i].price
  {
    seq(|s|, i requires 0 <= i < |s| => s[i].price)
  }

  /** `r` is `s` with some elements left out. */
  predicate SubsequenceOf(r: seq<SwingPoint>, s: seq<SwingPoint>)
    decreases |s|
  {
    if r == [] then true
    else if s == [] then false
    else (r[|r| - 1] == s[|s| - 1] && SubsequenceOf(r[..|r| - 1], s[..|s| - 1]))
         || SubsequenceOf(r, s[..|s| - 1])
  }

  /**
   * The ascending lows of `s`: the first point, then every point strictly
   * above the last one kept; their prices rise strictly.
   */
  function Ascending(s: seq<SwingPoint>): (r: seq<SwingPoint>)
    ensures |r| <= |s| && (s == [] <==> r == [])
    ensures s != [] ==> r[0] == s[0]
  {
    if s == [] then []
    else
      var a := Ascending(s[..|s| - 1]);
      var x := s[|s| - 1];
      if a == [] || x.price > a[|a| - 1].price then a + [x] else a
  }

  /** The prices of the ascending lows rise strictly. */
  lemma {:induction false} AscendingRises(s: seq<SwingPoint>)
    ensures forall i, j :: 0 <= i < j < |Ascending(s)| ==> Ascending(s)[i].price < Ascending(s)[j].price
  {
    if s != [] {
      var a := Ascending(s[..|s| - 1]);
      AscendingRises(s[..|s| - 1]);
      var r := Ascending(s);
      var x := s[|s| - 1];
      if r != a {
        assert r == a + [x] && (a == [] || x.price > a[|a| - 1].price);
        forall i, j | 0 <= i < j < |r|
          ensures r[i].price < r[j].price
        {
          if j == |r| - 1 {
            if i < |a| - 1 {
              assert a[i].price < a[|a| - 1].price;
            }
          } else {
            assert r[i] == a[i] && r[j] == a[j];
          }
        }
      }
    }
  }

  /** The last point kept is a point of `s` carrying its highest price. */
  lemma {:induction false} AscendingEndsAtMax(s: seq<SwingPoint>)
    requires s != []
    ensures var r := Ascending(s);
      (exists i :: 0 <= i < |s| && s[i] == r[|r| - 1])
      && forall i :: 0 <= i < |s| ==> s[i].price <= r[|r| - 1].price
  {
    var s' := s[..|s| - 1];
    if s' != [] {
      AscendingEndsAtMax(s');
      var a := Ascending(s');
      var i :| 0 <= i < |s'| && s'[i] == a[|a| - 1];
      assert s[i] == a[|a| - 1];
      assert forall j :: 0 <= j < |s'| ==> s[j] == s'[j];
    }
  }

  /** The ascending lows are `s` with some points left out, in their order in `s`. */
  lemma {:induction false} AscendingIsSubsequence(s: seq<SwingPoint>)
    ensures SubsequenceOf(Ascending(s), s)
  {
    if s != [] {
      var s' := s[..|s| - 1];
      AscendingIsSubsequence(s');
      var a := Ascending(s');
      var r := Ascending(s);
      if r != a {
        assert r == a + [s[|s| - 1]];
        assert r[..|r| - 1] == a;
      } else if a != [] {
        assert SubsequenceOf(r, s[..|s| - 1]);
      }
    }
  }

  /** `filter_ascending_lows(swing_lows)` */
  method FilterAscendingLows(swingLows: seq<SwingPoint>) returns (ascending: seq<SwingPoint>)
    ensures ascending == Ascending(swingLows)
  {
    if |swingLows| == 0 {
      return [];
    }
    if |swingLows| == 1 {
      assert swingLows[..0] == [];
      return [swingLows[0]];
    }
    ascending := [swingLows[0]];
    assert swingLows[..1][..0] == [];
    for i := 1 to |swingLows|
      invariant ascending == Ascending(swingLows[..i])
    {
      assert swingLows[..i + 1][..i] == swingLows[..i];
      var low := swingLows[i];
      if low.price > ascending[|ascending| - 1].price {
        ascending := ascending + [low];
      }
    }
    assert swingLows[..|swingLows|] == swingLows;
  }

  /** A point is kept exactly when its price beats every earlier point's. */
  lemma AscendingKeepsRecords(s: seq<SwingPoint>, i: nat)
    requires i < |s|
    ensures Ascending(s[..i + 1]) ==
      Ascending(s[..i]) + (if forall j :: 0 <= j < i ==> s[j].price < s[i].price then [s[i]] else [])
  {
    var p := s[..i];
    assert s[..i + 1][..i] == p;
    assert s[..i + 1][i] == s[i];
    var a := Ascending(p);
    if a != [] {
      AscendingEndsAtMax(p);
      var last := a[|a| - 1];
      assert forall j :: 0 <= j < i ==> s[j] == p[j];
      var j :| 0 <= j < |p| && p[j] == last;
    }
  }

  /** Every ascending low is one of the swing lows it was chosen from. */
  lemma {:induction false} AscendingMembers(s: seq<SwingPoint>)
    ensures forall x :: x in Ascending(s) ==> x in s
  {
    if s != [] {
      var s' := s[..|s| - 1];
      AscendingMembers(s');
      assert forall x :: x in s' ==> x in s;
    }
  }
}
