/**
 * Price frames: an OHLCV table indexed by date, as a sequence of bars in
 * index order. A missing (NaN) close is `None`; the other columns are
 * taken to be present.
 */
module Frames {
  import opened Common
  import opened Dates

  datatype Bar = Bar(date: PyDate, open: real, high: real, low: real, close: Option<real>, volume: real)

  /** A dated non-missing close, one entry of `df["Close"].dropna()`. */
  datatype Point = Point(date: Date, price: real)

  /** `start <= d <= end` */
  predicate InWindow(d: Date, start: Date, end: Date)
  {
    AtOrBefore(start, d) && AtOrBefore(d, end)
  }

  /** `df[(df.index >= start) & (df.index <= end)]`: the rows dated in the closed window. */
  function FilterWindow(bars: seq<Bar>, start: Date, end: Date): (r: seq<Bar>)
    ensures |r| <= |bars|
    ensures forall b :: b in r <==> b in bars && InWindow(b.date, start, end)
  {
    if bars == [] then []
    else
      var rest := FilterWindow(bars[1..], start, end);
      assert forall b :: b in bars <==> b == bars[0] || b in bars[1..];
      if InWindow(bars[0].date, start, end) then [bars[0]] + rest else rest
  }

  /** A window holding every row of the frame keeps the frame unchanged. */
  lemma {:induction false} FilterWindowAll(bars: seq<Bar>, start: Date, end: Date)
    requires forall i :: 0 <= i < |bars| ==> InWindow(bars[i].date, start, end)
    ensures FilterWindow(bars, start, end) == bars
  {
    if bars != [] {
      FilterWindowAll(bars[1..], start, end);
    }
  }

  /** `df["Close"].dropna()` */
  function CloseSeries(bars: seq<Bar>): (r: seq<Point>)
    ensures |r| <= |bars|
  {
    if bars == [] then []
    else
      var rest := CloseSeries(bars[1..]);
      match bars[0].close
      case None => rest
      case Some(c) => [Point(bars[0].date, c)] + rest
  }

  /** The close series holds exactly the dated non-missing closes of the frame. */
  lemma {:induction false} CloseSeriesMembers(bars: seq<Bar>)
    ensures forall p :: p in CloseSeries(bars) <==>
      exists b :: b in bars && b.close == Some(p.price) && b.date == p.date
  {
    if bars != [] {
      CloseSeriesMembers(bars[1..]);
      assert forall b :: b in bars <==> b == bars[0] || b in bars[1..];
    }
  }

  /** The prices of a close series, in order. */
  function Prices(ps: seq<Point>): (r: seq<real>)
    ensures |r| == |ps|
    ensures forall i :: 0 <= i < |ps| ==> r[i] == ps[i].price
  {
    seq(|ps|, i requires 0 <= i < |ps| => ps[i].price)
  }
}
