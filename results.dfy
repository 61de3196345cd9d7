/**
 * The scan records: `StockData` (a ticker with its price frame) and
 * `ScanResult` (the best low-to-high move found for one ticker) with its
 * dictionary form.
 */
module Results {
  import opened Common
  import opened Text
  import opened Dates
  import opened Frames

  datatype StockData = StockData(ticker: string, data: seq<Bar>)

  /** The earliest of a non-empty list of dates. */
  function EarliestDate(ds: seq<Date>): (m: Date)
    requires |ds| > 0
    ensures m in ds
    ensures forall i :: 0 <= i < |ds| ==> AtOrBefore(m, ds[i])
  {
    if |ds| == 1 then ds[0]
    else
      var m' := EarliestDate(ds[1..]);
      assert forall i :: 1 <= i < |ds| ==> ds[i] == ds[1..][i - 1];
      if Before(ds[0], m') then ds[0] else m'
  }

  /** The latest of a non-empty list of dates. */
  function LatestDate(ds: seq<Date>): (m: Date)
    requires |ds| > 0
    ensures m in ds
    ensures forall i :: 0 <= i < |ds| ==> AtOrBefore(ds[i], m)
  {
    if |ds| == 1 then ds[0]
    else
      var m' := LatestDate(ds[1..]);
      assert forall i :: 1 <= i < |ds| ==> ds[i] == ds[1..][i - 1];
      if Before(m', ds[0]) then ds[0] else m'
  }

  function BarDates(bars: seq<Bar>): (ds: seq<Date>)
    ensures |ds| == |bars|
    ensures forall i :: 0 <= i < |bars| ==> ds[i] == bars[i].date
  {
    seq(|bars|, i requires 0 <= i < |bars| => bars[i].date)
  }

  /** `StockData.start_date`: the smallest index date; `None` for an empty frame (pandas gives NaT). */
  function StartDate(s: StockData): (r: Option<Date>)
    ensures r.None? <==> s.data == []
    ensures r.Some? ==> (exists i :: 0 <= i < |s.data| && s.data[i].date == r.value)
                        && forall i :: 0 <= i < |s.data| ==> AtOrBefore(r.value, s.data[i].date)
  {
    if s.data == [] then None
    else
      var ds := BarDates(s.data);
      var m := EarliestDate(ds);
      var k :| 0 <= k < |ds| && ds[k] == m;
      Some(m)
  }

  /** `StockData.end_date`: the largest index date; `None` for an empty frame. */
  function EndDate(s: StockData): (r: Option<Date>)
    ensures r.None? <==> s.data == []
    ensures r.Some? ==> (exists i :: 0 <= i < |s.data| && s.data[i].date == r.value)
                        && forall i :: 0 <= i < |s.data| ==> AtOrBefore(s.data[i].date, r.value)
  {
    if s.data == [] then None
    else
      var ds := BarDates(s.data);
      var m := LatestDate(ds);
      var k :| 0 <= k < |ds| && ds[k] == m;
      Some(m)
  }

  /** `StockData.trading_days`: the row count. */
  function TradingDays(s: StockData): (n: nat)
    ensures n == |s.data|
  {
    |s.data|
  }

  datatype ScanResult = ScanResult(
    ticker: string,
    gainPct: real,
    lowDate: Date,
    highDate: Date,
    lowPrice: real,
    highPrice: real,
    currentPrice: real,
    daysToPeak: int)

  /** Dates a Python `date` can hold. */
  predicate ValidResult(r: ScanResult)
  {
    InRange(r.lowDate) && InRange(r.highDate)
  }

  /** `round(x, 2)`, with halves rounded up. */
  function Round2(x: real): (y: real)
    ensures -1.0 / 200.0 < y - x <= 1.0 / 200.0
  {
    var k := (x * 100.0 + 0.5).Floor;
    assert k as real <= x * 100.0 + 0.5 < k as real + 1.0;
    k as real / 100.0
  }

  const ResultKeys: set<string> :=
    {"ticker", "gain_pct", "low_date", "high_date", "low_price", "high_price", "current_price", "days_to_peak"}

  /** `ScanResult.to_dict` */
  function ToDict(r: ScanResult): (d: map<string, Value>)
    requires ValidResult(r)
    ensures d.Keys == ResultKeys
    ensures d["ticker"] == VStr(r.ticker) && d["days_to_peak"] == VInt(r.daysToPeak)
    ensures d["low_date"] == VStr(Iso(r.lowDate)) && d["high_date"] == VStr(Iso(r.highDate))
  {
    map[
      "ticker" := VStr(r.ticker),
      "gain_pct" := VReal(Round2(r.gainPct)),
      "low_date" := VStr(Iso(r.lowDate)),
      "high_date" := VStr(Iso(r.highDate)),
      "low_price" := VReal(Round2(r.lowPrice)),
      "high_price" := VReal(Round2(r.highPrice)),
      "current_price" := VReal(Round2(r.currentPrice)),
      "days_to_peak" := VInt(r.daysToPeak)]
  }

  /** A numeric dictionary value as a real. */
  function AsReal(v: Value): Option<real>
  {
    match v
    case VReal(x) => Some(x)
    case VInt(i) => Some(i as real)
    case _ => None
  }

  /** A date string of the dictionary form, parsed with `date.fromisoformat`. */
  function AsDate(v: Value): Option<Date>
  {
    if v.VStr? then ParseIso(v.s) else None
  }

  /** The dictionary holds a date string under `k` that `date.fromisoformat` accepts. */
  predicate DateOk(d: map<string, Value>, k: string)
  {
    k in d && d[k].VStr? && ParseIso(d[k].s).Some?
  }

  /**
   * `ScanResult.from_dict`. The keyword arguments are read in order and the
   * first failure wins: a missing key raises `KeyError`, a date that is not
   * a string raises `TypeError` and one that does not parse raises
   * `ValueError`, so a bad low date is reported before a missing
   * `high_date` or price. The record is typed, so a value of the wrong type
   * for the ticker, a price or the day count is refused with a `TypeError`
   * once every key has been read.
   */
  function FromDict(d: map<string, Value>): (r: Attempt<ScanResult>)
    ensures r.Ok? ==> ResultKeys <= d.Keys && ValidResult(r.value)
    ensures r.Ok? ==>
      VStr(r.value.ticker) == d["ticker"] && VInt(r.value.daysToPeak) == d["days_to_peak"]
      && Some(r.value.lowDate) == AsDate(d["low_date"]) && Some(r.value.highDate) == AsDate(d["high_date"])
      && Some(r.value.gainPct) == AsReal(d["gain_pct"]) && Some(r.value.lowPrice) == AsReal(d["low_price"])
      && Some(r.value.highPrice) == AsReal(d["high_price"])
      && Some(r.value.currentPrice) == AsReal(d["current_price"])
    ensures r == Raised("KeyError") <==>
      !({"ticker", "gain_pct", "low_date"} <= d.Keys)
      || (DateOk(d, "low_date") && "high_date" !in d)
      || (DateOk(d, "low_date") && DateOk(d, "high_date") && !(ResultKeys <= d.Keys))
    ensures ResultKeys <= d.Keys && d["low_date"].VStr? && d["high_date"].VStr? ==>
      (r.Raised? && r.message == "ValueError" <==>
         ParseIso(d["low_date"].s).None? || ParseIso(d["high_date"].s).None?)
  {
    if !({"ticker", "gain_pct", "low_date"} <= d.Keys) then Raised("KeyError")
    else if !d["low_date"].VStr? then Raised("TypeError")
    else if ParseIso(d["low_date"].s).None? then Raised("ValueError")
    else if "high_date" !in d then Raised("KeyError")
    else if !d["high_date"].VStr? then Raised("TypeError")
    else if ParseIso(d["high_date"].s).None? then Raised("ValueError")
    else if !(ResultKeys <= d.Keys) then Raised("KeyError")
    else if !d["ticker"].VStr? || !d["days_to_peak"].VInt?
         || AsReal(d["gain_pct"]).None? || AsReal(d["low_price"]).None?
         || AsReal(d["high_price"]).None? || AsReal(d["current_price"]).None? then Raised("TypeError")
    else Ok(ScanResult(
      d["ticker"].s,
      AsReal(d["gain_pct"]).value,
      AsDate(d["low_date"]).value,
      AsDate(d["high_date"]).value,
      AsReal(d["low_price"]).value,
      AsReal(d["high_price"]).value,
      AsReal(d["current_price"]).value,
      d["days_to_peak"].i))
  }

  /**
   * A malformed low date is reported before a price that is missing further
   * on: the dictionary below lacks `low_price`, yet `from_dict` raises
   * `ValueError`.
   */
  lemma BadLowDateBeforeMissingKey()
    ensures var d := map["ticker" := VStr("A"), "gain_pct" := VReal(1.0), "low_date" := VStr("bad"),
                         "high_date" := VStr("2020-01-02"), "high_price" := VReal(2.0),
                         "current_price" := VReal(2.0), "days_to_peak" := VInt(1)];
      FromDict(d) == Raised("ValueError")
  {
    var d := map["ticker" := VStr("A"), "gain_pct" := VReal(1.0), "low_date" := VStr("bad"),
                 "high_date" := VStr("2020-01-02"), "high_price" := VReal(2.0),
                 "current_price" := VReal(2.0), "days_to_peak" := VInt(1)];
    assert {"ticker", "gain_pct", "low_date"} <= d.Keys;
    assert ParseIso("bad").None?;
  }

  /**
   * Reading back the dictionary form keeps the ticker, both dates and the
   * day count exactly, and every price and the gain to within half a cent.
   */
  lemma DictRoundTrip(r: ScanResult)
    requires ValidResult(r)
    ensures FromDict(ToDict(r)).Ok?
    ensures var r' := FromDict(ToDict(r)).value;
      r'.ticker == r.ticker && r'.lowDate == r.lowDate && r'.highDate == r.highDate
      && r'.daysToPeak == r.daysToPeak
      && r'.gainPct == Round2(r.gainPct) && r'.lowPrice == Round2(r.lowPrice)
      && r'.highPrice == Round2(r.highPrice) && r'.currentPrice == Round2(r.currentPrice)
      && -1.0 / 200.0 < r'.gainPct - r.gainPct <= 1.0 / 200.0
  {
    var d := ToDict(r);
    assert d["gain_pct"] == VReal(Round2(r.gainPct)) && d["low_price"] == VReal(Round2(r.lowPrice));
    assert d["high_price"] == VReal(Round2(r.highPrice)) && d["current_price"] == VReal(Round2(r.currentPrice));
    IsoRoundTrip(r.lowDate);
    IsoRoundTrip(r.highDate);
  }
}
