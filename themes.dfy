/**
 * The theme-performance panel of the dashboard: each theme finding's key,
 * built as `<theme>_wave<n>`, is read back into a display name and a wave
 * number, and one record per finding is produced.
 */
module Themes {
  import opened Common
  import opened Text

  /** The separator between the theme and the wave number in a finding key. */
  const WaveTag: string := "_wave"

  /** The fields of a theme finding the panel reads. */
  datatype QueryResult = QueryResult(findingKey: string, sampleSize: int, metrics: map<string, Value>)

  /** One row of the panel. */
  datatype ThemeRecord = ThemeRecord(theme: string, wave: nat, count: int, avgGain: Value, avgDays: Value)

  /** A parsed finding key: the display name and the wave. */
  datatype ThemeKey = ThemeKey(name: string, wave: nat)

  /** `s.replace("_", " ").title()` */
  function DisplayName(s: string): string
  {
    Title(ReplaceChar(s, '_', ' '))
  }

  /**
   * The key is split at the last `_wave`; the wave is the suffix's value
   * when the suffix is a non-empty string of digits, and 1 otherwise; a
   * key without `_wave` is all theme, wave 1.
   */
  function ParseKey(key: string): (k: ThemeKey)
    ensures LastOccurrence(key, WaveTag).None? ==> k == ThemeKey(DisplayName(key), 1)
    ensures LastOccurrence(key, WaveTag).Some? ==>
      var j := LastOccurrence(key, WaveTag).value;
      var suffix := key[j + |WaveTag|..];
      k.name == DisplayName(key[..j])
      && k.wave == (if suffix != "" && AllDigits(suffix) then DigitsValue(suffix) else 1)
  {
    var parts := RSplitOnce(key, WaveTag);
    if |parts| == 2 then
      var suffix := parts[1];
      ThemeKey(DisplayName(parts[0]), if suffix != "" && AllDigits(suffix) then DigitsValue(suffix) else 1)
    else
      ThemeKey(DisplayName(key), 1)
  }

  /** The key `ResearchQueries.theme_performance` builds for a theme and a wave. */
  function FindingKey(theme: string, wave: nat): string
  {
    Lower(theme) + WaveTag + Decimal(wave)
  }

  /** In `a + "_wave" + b` with no underscore in `b`, the last `_wave` is the one after `a`. */
  lemma LastTagAt(a: string, b: string)
    requires forall i :: 0 <= i < |b| ==> b[i] != '_'
    ensures LastOccurrence(a + WaveTag + b, WaveTag) == Some(|a|)
  {
    var key := a + WaveTag + b;
    var p := |a|;
    assert OccursAt(key, WaveTag, p) by {
      assert key[p..p + |WaveTag|] == WaveTag;
    }
    forall j | p < j
      ensures !OccursAt(key, WaveTag, j)
    {
      TagStartsWithUnderscore(key, j);
      if OccursAt(key, WaveTag, j) {
        assert false;
      }
    }
  }

  /** An occurrence of `_wave` starts with an underscore. */
  lemma TagStartsWithUnderscore(s: string, j: int)
    ensures OccursAt(s, WaveTag, j) ==> s[j] == '_'
  {
    if OccursAt(s, WaveTag, j) {
      assert s[j..j + |WaveTag|][0] == '_';
    }
  }

  /**
   * Reading back a key built from a theme and a wave gives that wave, and
   * the display name of the lower-cased theme.
   */
  lemma ParseFindingKey(theme: string, wave: nat)
    ensures ParseKey(FindingKey(theme, wave)) == ThemeKey(DisplayName(Lower(theme)), wave)
  {
    var key := FindingKey(theme, wave);
    var p := |Lower(theme)|;
    var digits := Decimal(wave);
    LastTagAt(Lower(theme), digits);
    assert key[..p] == Lower(theme);
    assert key[p + |WaveTag|..] == digits;
    DecimalRoundTrip(wave);
  }

  /** `metrics.get(name, 0)`: a present entry is kept as it is, even when it is empty. */
  function MetricOr0(metrics: map<string, Value>, name: string): (v: Value)
    ensures name in metrics ==> v == metrics[name]
    ensures name !in metrics ==> v == VInt(0)
  {
    if name in metrics then metrics[name] else VInt(0)
  }

  /** The panel row of one finding. */
  function ThemeOf(r: QueryResult): ThemeRecord
  {
    var k := ParseKey(r.findingKey);
    ThemeRecord(k.name, k.wave, r.sampleSize, MetricOr0(r.metrics, "avg_gain"), MetricOr0(r.metrics, "avg_days"))
  }

  /**
   * `get_theme_data` over the findings of `theme_performance`: one row per
   * finding, in order, with the parsed key, the sample size as the count,
   * and the average gain and days (0 when missing).
   */
  method GetThemeData(results: seq<QueryResult>) returns (themes: seq<ThemeRecord>)
    ensures |themes| == |results|
    ensures forall i :: 0 <= i < |results| ==>
      themes[i] == ThemeOf(results[i]) && themes[i].count == results[i].sampleSize
      && themes[i].avgGain == MetricOr0(results[i].metrics, "avg_gain")
      && themes[i].avgDays == MetricOr0(results[i].metrics, "avg_days")
  {
    themes := [];
    for i := 0 to |results|
      invariant |themes| == i
      invariant forall k :: 0 <= k < i ==> themes[k] == ThemeOf(results[k])
    {
      var key := results[i].findingKey;
      var name: string;
      var wave: nat;
      var parts := RSplitOnce(key, WaveTag);
      if |parts| == 2 {
        name := DisplayName(parts[0]);
        wave := if parts[1] != "" && AllDigits(parts[1]) then DigitsValue(parts[1]) else 1;
      } else {
        name := DisplayName(key);
        wave := 1;
      }
      var metrics := results[i].metrics;
      themes := themes + [ThemeRecord(name, wave, results[i].sampleSize,
                                      if "avg_gain" in metrics then metrics["avg_gain"] else VInt(0),
                                      if "avg_days" in metrics then metrics["avg_days"] else VInt(0))];
    }
  }

  /** A key whose wave part is negative, such as `x_wave-2`, reads as wave 1. */
  lemma NegativeWaveReadsAsOne(theme: string, wave: nat)
    requires wave > 0
    ensures ParseKey(Lower(theme) + WaveTag + "-" + Decimal(wave)).wave == 1
  {
    var rest := "-" + Decimal(wave);
    var key := Lower(theme) + WaveTag + rest;
    assert key == Lower(theme) + WaveTag + "-" + Decimal(wave);
    var p := |Lower(theme)|;
    LastTagAt(Lower(theme), rest);
    assert key[p + |WaveTag|..] == rest;
    assert !IsDigit(rest[0]);
  }
}
