/**
 * Criteria derivation: from the score rows of winners and non-winners,
 * pick for each configured variable the winner value that captures about
 * the target share of winners, and measure how many winners meet every
 * derived threshold together.
 */
module Deriver {
  import opened Common
  import opened Sorting

  /** Which side of a threshold looks like a winner. */
  datatype Direction = Lower | Higher

  datatype VariableSetting = VariableSetting(operator: string, direction: Direction)

  /** `VARIABLE_CONFIG` */
  const VariableConfig: map<string, VariableSetting> := map[
    "drawdown" := VariableSetting("<=", Lower),
    "days_since_high" := VariableSetting(">=", Higher),
    "vol_ratio" := VariableSetting("<=", Lower),
    "range_position" := VariableSetting("<=", Lower),
    "pct_from_sma50" := VariableSetting("<=", Lower),
    "pct_from_sma200" := VariableSetting("<=", Lower)]

  /** `list(VARIABLE_CONFIG.keys())`, in the order the table is written. */
  const ConfiguredVariables: seq<string> :=
    ["drawdown", "days_since_high", "vol_ratio", "range_position", "pct_from_sma50", "pct_from_sma200"]

  lemma ConfiguredVariablesAreTheTable()
    ensures forall v :: v in ConfiguredVariables <==> v in VariableConfig
    ensures forall v :: v in VariableConfig ==>
      (VariableConfig[v].operator == "<=" <==> VariableConfig[v].direction == Lower)
      && (VariableConfig[v].operator == ">=" <==> VariableConfig[v].direction == Higher)
    ensures forall v :: v in VariableConfig && VariableConfig[v].direction == Higher ==> v == "days_since_high"
  {
  }

  /** A score row: column name to value, `None` for SQL `NULL`. */
  type Row = map<string, Option<real>>

  /** `row.get(variable)` is not `None`. */
  predicate HasValue(row: Row, variable: string)
  {
    variable in row && row[variable].Some?
  }

  /** `[row[variable] for row in rows if row.get(variable) is not None]` */
  function ValuesOf(rows: seq<Row>, variable: string): (vs: seq<real>)
    ensures |vs| <= |rows|
    ensures forall x :: x in vs <==> exists row :: row in rows && HasValue(row, variable) && row[variable] == Some(x)
  {
    if rows == [] then []
    else
      var init := rows[..|rows| - 1];
      var row := rows[|rows| - 1];
      assert forall r :: r in rows <==> r in init || r == row;
      ValuesOf(init, variable) + (if HasValue(row, variable) then [row[variable].value] else [])
  }

  /** A value is on the winners' side of the threshold: `<=` for lower, `>=` for higher. */
  predicate Captures(dir: Direction, v: real, threshold: real)
  {
    if dir == Lower then v <= threshold else v >= threshold
  }

  /** Keeps a value exactly when its capture by the threshold is `captured`. */
  function Keep(dir: Direction, threshold: real, captured: bool): real -> seq<real>
  {
    v => if Captures(dir, v, threshold) == captured then [v] else []
  }

  /** `sum(1 for v in values if ...)`: the values captured (or, with `captured` false, the values left out). */
  function CountWhere(values: seq<real>, dir: Direction, threshold: real, captured: bool): nat
  {
    |Gather(values, Keep(dir, threshold, captured))|
  }

  /** `s[i]` with Python's negative indexing; outside `[-|s|, |s|)` an `IndexError`. */
  function PyIndex(s: seq<real>, i: int): (r: Attempt<real>)
    ensures r.Ok? <==> -|s| <= i < |s|
    ensures r.Ok? ==> r.value in s
  {
    if 0 <= i < |s| then Ok(s[i])
    else if -|s| <= i < 0 then Ok(s[|s| + i])
    else Raised("list index out of range")
  }

  /** The index into the sorted winner values the threshold is read from. */
  function ThresholdIndex(n: nat, rate: real, dir: Direction): int
  {
    if dir == Lower then
      var idx := Trunc(n as real * rate);
      if idx < n - 1 then idx else n - 1
    else
      var idx := Trunc(n as real * (1.0 - rate));
      if idx > 0 then idx else 0
  }

  /** `sorted(values)[idx]`: the threshold read from the sorted winner values, one of them when it exists. */
  function ReadThreshold(values: seq<real>, rate: real, dir: Direction): (r: Attempt<real>)
    ensures var n, i := |values|, ThresholdIndex(|values|, rate, dir);
      (r.Ok? <==> -n <= i < n)
      && (r.Ok? ==> r.value == SortBy(values, Identity)[if i >= 0 then i else n + i])
    ensures r.Ok? ==> r.value in values
  {
    var sorted := SortBy(values, Identity);
    SortByCorrect(values, Identity);
    var r := PyIndex(sorted, ThresholdIndex(|sorted|, rate, dir));
    assert r.Ok? ==> r.value in multiset(sorted);
    r
  }

  datatype DerivedThreshold = DerivedThreshold(variableName: string, operator: string, thresholdValue: real,
                                               captureRate: real, exclusionRate: real)

  /**
   * `_derive_threshold(variable, winners, non_winners, target_capture_rate)`
   * without rounding: no threshold without winner values; an index out of
   * the list raises; otherwise the threshold, read from the sorted winner
   * values, and the shares of winners captured and non-winners excluded.
   */
  function DeriveThreshold(variable: string, winners: seq<Row>, nonWinners: seq<Row>, rate: real)
    : (r: Attempt<Option<DerivedThreshold>>)
    requires variable in VariableConfig
    ensures r == Ok(None) <==> ValuesOf(winners, variable) == []
    ensures r.Raised? <==> ValuesOf(winners, variable) != []
                           && ReadThreshold(ValuesOf(winners, variable), rate, VariableConfig[variable].direction).Raised?
    ensures r.Ok? && r.value.Some? ==>
      Ok(r.value.value.thresholdValue)
        == ReadThreshold(ValuesOf(winners, variable), rate, VariableConfig[variable].direction)
    ensures r.Ok? && r.value.Some? ==>
      var nv := ValuesOf(nonWinners, variable);
      r.value.value.exclusionRate
        == if nv == [] then 0.0
           else CountWhere(nv, VariableConfig[variable].direction, r.value.value.thresholdValue, false) as real / |nv| as real
    ensures r.Ok? && r.value.Some? ==>
      var t := r.value.value;
      var wv := ValuesOf(winners, variable);
      t.variableName == variable && t.operator == VariableConfig[variable].operator
      && t.thresholdValue in wv
      && t.captureRate == CountWhere(wv, VariableConfig[variable].direction, t.thresholdValue, true) as real / |wv| as real
  {
    var setting := VariableConfig[variable];
    var wv := ValuesOf(winners, variable);
    var nv := ValuesOf(nonWinners, variable);
    if wv == [] then Ok(None)
    else
      match ReadThreshold(wv, rate, setting.direction)
      case Raised(e) => Raised(e)
      case Ok(threshold) =>
        var captured := CountWhere(wv, setting.direction, threshold, true);
        var excluded := CountWhere(nv, setting.direction, threshold, false);
        Ok(Some(DerivedThreshold(variable, setting.operator, threshold,
                                 captured as real / |wv| as real,
                                 if nv == [] then 0.0 else excluded as real / |nv| as real)))
  }

  /** A keeper yields at most the value it is given. */
  lemma {:induction false} CountAtMost(values: seq<real>, dir: Direction, threshold: real, captured: bool)
    ensures CountWhere(values, dir, threshold, captured) <= |values|
    decreases |values|
  {
    if values != [] {
      CountAtMost(values[..|values| - 1], dir, threshold, captured);
    }
  }

  /** Counting does not depend on the order of the values. */
  lemma CountPermutation(a: seq<real>, b: seq<real>, dir: Direction, threshold: real, captured: bool)
    requires multiset(a) == multiset(b)
    ensures CountWhere(a, dir, threshold, captured) == CountWhere(b, dir, threshold, captured)
  {
    var f := Keep(dir, threshold, captured);
    GatherPermutation(a, b, f);
    assert |multiset(Gather(a, f))| == |multiset(Gather(b, f))|;
  }

  /** When every value is captured, every value is counted. */
  lemma {:induction false} CountAll(values: seq<real>, dir: Direction, threshold: real)
    requires forall i :: 0 <= i < |values| ==> Captures(dir, values[i], threshold)
    ensures CountWhere(values, dir, threshold, true) == |values|
    decreases |values|
  {
    if values != [] {
      CountAll(values[..|values| - 1], dir, threshold);
    }
  }

  /** Counting over a concatenation adds up. */
  lemma CountSplit(a: seq<real>, b: seq<real>, dir: Direction, threshold: real, captured: bool)
    ensures CountWhere(a + b, dir, threshold, captured)
         == CountWhere(a, dir, threshold, captured) + CountWhere(b, dir, threshold, captured)
  {
    GatherAppend(a, b, Keep(dir, threshold, captured));
  }

  /** Every value is either captured by the threshold or left out by it, never both. */
  lemma {:induction false} CountComplement(values: seq<real>, dir: Direction, threshold: real)
    ensures CountWhere(values, dir, threshold, true) + CountWhere(values, dir, threshold, false) == |values|
    decreases |values|
  {
    if values != [] {
      var init, last := values[..|values| - 1], values[|values| - 1];
      assert values == init + [last];
      CountComplement(init, dir, threshold);
      CountSplit(init, [last], dir, threshold, true);
      CountSplit(init, [last], dir, threshold, false);
      assert Gather([last], Keep(dir, threshold, true)) == Gather([], Keep(dir, threshold, true)) + Keep(dir, threshold, true)(last);
      assert Gather([last], Keep(dir, threshold, false)) == Gather([], Keep(dir, threshold, false)) + Keep(dir, threshold, false)(last);
    }
  }

  /**
   * The exclusion rate is the share of non-winner values the threshold does
   * not capture: one minus the share it captures, when there are any.
   */
  lemma ExclusionIsUncapturedShare(variable: string, winners: seq<Row>, nonWinners: seq<Row>, rate: real)
    requires variable in VariableConfig
    requires DeriveThreshold(variable, winners, nonWinners, rate).Ok?
    requires DeriveThreshold(variable, winners, nonWinners, rate).value.Some?
    requires ValuesOf(nonWinners, variable) != []
    ensures var t := DeriveThreshold(variable, winners, nonWinners, rate).value.value;
      var nv := ValuesOf(nonWinners, variable);
      t.exclusionRate
        == 1.0 - CountWhere(nv, VariableConfig[variable].direction, t.thresholdValue, true) as real / |nv| as real
  {
    var t := DeriveThreshold(variable, winners, nonWinners, rate).value.value;
    var nv := ValuesOf(nonWinners, variable);
    var dir := VariableConfig[variable].direction;
    CountComplement(nv, dir, t.thresholdValue);
    ShareComplement(CountWhere(nv, dir, t.thresholdValue, true) as real,
                    CountWhere(nv, dir, t.thresholdValue, false) as real, |nv| as real);
  }

  /** Two shares of a whole that add up to it are complements. */
  lemma ShareComplement(c: real, e: real, n: real)
    requires n > 0.0 && c + e == n
    ensures e / n == 1.0 - c / n
  {
    assert n / n - c / n == (n - c) / n;
    assert n / n == 1.0;
  }

  /** A value captured by the threshold counts at least once. */
  lemma CountMember(values: seq<real>, dir: Direction, threshold: real, i: nat)
    requires i < |values| && Captures(dir, values[i], threshold)
    ensures CountWhere(values, dir, threshold, true) >= 1
  {
    var f := Keep(dir, threshold, true);
    assert values == values[..i] + [values[i]] + values[i + 1..];
    CountSplit(values[..i] + [values[i]], values[i + 1..], dir, threshold, true);
    CountSplit(values[..i], [values[i]], dir, threshold, true);
    assert Gather([values[i]], f) == Gather([], f) + f(values[i]);
  }

  /** `n * rate` lies in `[0, n]` for a rate in `[0, 1]`. */
  lemma ScaleWithin(n: real, rate: real)
    requires n >= 0.0 && 0.0 <= rate <= 1.0
    ensures 0.0 <= n * rate <= n
  {
    assert n * rate <= n * 1.0;
  }

  /**
   * Both shares are fractions: the capture rate lies in `(0, 1]`, since the
   * threshold is itself a captured winner value, and the exclusion rate in
   * `[0, 1]`.
   */
  lemma RatesAreFractions(variable: string, winners: seq<Row>, nonWinners: seq<Row>, rate: real)
    requires variable in VariableConfig
    requires DeriveThreshold(variable, winners, nonWinners, rate).Ok?
    requires DeriveThreshold(variable, winners, nonWinners, rate).value.Some?
    ensures var t := DeriveThreshold(variable, winners, nonWinners, rate).value.value;
      0.0 < t.captureRate <= 1.0 && 0.0 <= t.exclusionRate <= 1.0
  {
    var dir := VariableConfig[variable].direction;
    var wv := ValuesOf(winners, variable);
    var nv := ValuesOf(nonWinners, variable);
    var t := DeriveThreshold(variable, winners, nonWinners, rate).value.value;
    var th := t.thresholdValue;
    CountAtMost(wv, dir, th, true);
    CountAtMost(nv, dir, th, false);
    var i :| 0 <= i < |wv| && wv[i] == th;
    CountMember(wv, dir, th, i);
    Fraction(CountWhere(wv, dir, th, true) as real, |wv| as real);
    if nv != [] {
      Fraction(CountWhere(nv, dir, th, false) as real, |nv| as real);
    }
  }

  /**
   * A target rate in `(0, 1]` (or `[0, 1]` for a lower-is-better variable)
   * never raises, and the threshold captures at least the target share of
   * the winners that have a value.
   */
  lemma CaptureMeetsTarget(variable: string, winners: seq<Row>, nonWinners: seq<Row>, rate: real)
    requires variable in VariableConfig
    requires ValuesOf(winners, variable) != []
    requires rate <= 1.0
    requires if VariableConfig[variable].direction == Lower then 0.0 <= rate else 0.0 < rate
    ensures var r := DeriveThreshold(variable, winners, nonWinners, rate);
      r.Ok? && r.value.Some? && r.value.value.captureRate >= rate
  {
    ThresholdCaptures(ValuesOf(winners, variable), rate, VariableConfig[variable].direction);
  }

  /** The threshold read for such a rate exists and captures at least that share of the values. */
  lemma ThresholdCaptures(values: seq<real>, rate: real, dir: Direction)
    requires values != [] && rate <= 1.0
    requires if dir == Lower then 0.0 <= rate else 0.0 < rate
    ensures var r := ReadThreshold(values, rate, dir);
      r.Ok? && CountWhere(values, dir, r.value, true) as real / |values| as real >= rate
  {
    var n := |values|;
    var sorted := SortBy(values, Identity);
    var idx := ThresholdIndex(n, rate, dir);
    IndexInRange(n, rate, dir);
    var th := sorted[idx];
    assert ReadThreshold(values, rate, dir) == Ok(th);
    CountAtSortedIndex(values, dir, idx);
    var covered := if dir == Lower then idx + 1 else n - idx;
    CoveredShare(CountWhere(values, dir, th, true), covered, n, rate);
  }

  /** A count at least `covered`, itself at least `rate` of `n`, is at least that share of `n`. */
  lemma CoveredShare(c: int, covered: int, n: nat, rate: real)
    requires n > 0 && c >= covered && covered as real >= n as real * rate
    ensures c as real / n as real >= rate
  {
    ShareAtLeast(c as real, n as real, rate);
  }

  /** The count of values captured by the element at `idx` of the sorted values. */
  lemma CountAtSortedIndex(values: seq<real>, dir: Direction, idx: nat)
    requires idx < |values|
    ensures var th := SortBy(values, Identity)[idx];
      (dir == Lower ==> CountWhere(values, dir, th, true) >= idx + 1)
      && (dir == Higher ==> CountWhere(values, dir, th, true) >= |values| - idx)
  {
    var sorted := SortBy(values, Identity);
    SortByCorrect(values, Identity);
    CountPermutation(values, sorted, dir, sorted[idx], true);
    SortedCount(sorted, dir, idx);
  }

  /** For such a rate the index lies in the list and covers at least the target share. */
  lemma IndexInRange(n: nat, rate: real, dir: Direction)
    requires n > 0 && rate <= 1.0
    requires if dir == Lower then 0.0 <= rate else 0.0 < rate
    ensures 0 <= ThresholdIndex(n, rate, dir) < n
    ensures dir == Lower ==> (ThresholdIndex(n, rate, dir) + 1) as real >= n as real * rate
    ensures dir == Higher ==> (n - ThresholdIndex(n, rate, dir)) as real >= n as real * rate
  {
    ScaleWithin(n as real, rate);
    ScaleWithin(n as real, 1.0 - rate);
    assert n as real * (1.0 - rate) == n as real - n as real * rate;
  }

  /**
   * In an ascending list, the element at `idx` captures everything up to it
   * (lower) or from it on (higher).
   */
  lemma SortedCount(sorted: seq<real>, dir: Direction, idx: nat)
    requires SortedBy(sorted, Identity) && idx < |sorted|
    ensures dir == Lower ==> CountWhere(sorted, dir, sorted[idx], true) >= idx + 1
    ensures dir == Higher ==> CountWhere(sorted, dir, sorted[idx], true) >= |sorted| - idx
  {
    var th := sorted[idx];
    var pre, post := sorted[..idx + 1], sorted[idx + 1..];
    var before, from := sorted[..idx], sorted[idx..];
    assert sorted == pre + post;
    assert sorted == before + from;
    if dir == Lower {
      forall i | 0 <= i < |pre|
        ensures Captures(dir, pre[i], th)
      {
        assert pre[i] == sorted[i];
        assert Identity(sorted[i]) <= Identity(sorted[idx]);
      }
      CountAll(pre, dir, th);
      CountSplit(pre, post, dir, th, true);
    } else {
      forall i | 0 <= i < |from|
        ensures Captures(dir, from[i], th)
      {
        assert from[i] == sorted[idx + i];
        assert Identity(sorted[idx]) <= Identity(sorted[idx + i]);
      }
      CountAll(from, dir, th);
      CountSplit(before, from, dir, th, true);
    }
  }

  /** With a target of zero, a higher-is-better variable reads one past the end of the winner values and raises. */
  lemma HigherAtZeroRateRaises(winners: seq<Row>, nonWinners: seq<Row>)
    requires ValuesOf(winners, "days_since_high") != []
    ensures DeriveThreshold("days_since_high", winners, nonWinners, 0.0).Raised?
  {
    var wv := ValuesOf(winners, "days_since_high");
    var n := |wv|;
    assert n as real * (1.0 - 0.0) == n as real;
    assert ThresholdIndex(n, 0.0, Higher) == n;
    assert |SortBy(wv, Identity)| == n;
    assert ReadThreshold(wv, 0.0, Higher).Raised?;
    assert VariableConfig["days_since_high"].direction == Higher;
  }

  /** `meets_all(stock)`: the stock has a value for every threshold's variable, on the operator's side. */
  predicate MeetsAll(stock: Row, thresholds: seq<DerivedThreshold>)
  {
    forall i :: 0 <= i < |thresholds| ==>
      HasValue(stock, thresholds[i].variableName)
      && (thresholds[i].operator == "<=" ==> stock[thresholds[i].variableName].value <= thresholds[i].thresholdValue)
      && (thresholds[i].operator == ">=" ==> stock[thresholds[i].variableName].value >= thresholds[i].thresholdValue)
  }

  /** The winners meeting every threshold. */
  function Meeting(winners: seq<Row>, thresholds: seq<DerivedThreshold>): (c: nat)
    ensures c <= |winners|
  {
    if winners == [] then 0
    else Meeting(winners[..|winners| - 1], thresholds) + (if MeetsAll(winners[|winners| - 1], thresholds) then 1 else 0)
  }

  /**
   * `_calculate_combined_capture_rate(thresholds, winners)` without
   * rounding: the share of winners meeting every threshold, or 0 when there
   * are no thresholds or no winners.
   */
  function CombinedCaptureRate(thresholds: seq<DerivedThreshold>, winners: seq<Row>): (rate: real)
    ensures 0.0 <= rate <= 1.0
    ensures thresholds == [] || winners == [] ==> rate == 0.0
    ensures thresholds != [] && winners != [] ==> (rate == 1.0 <==> forall w :: w in winners ==> MeetsAll(w, thresholds))
  {
    if thresholds == [] || winners == [] then 0.0
    else
      var m := Meeting(winners, thresholds);
      var n := |winners| as real;
      Fraction(m as real, n);
      assert m as real / n == 1.0 <==> m == |winners| by {
        assert (m as real / n) * n == m as real;
      }
      MeetingAll(winners, thresholds);
      m as real / n
  }

  /** Every winner meets the thresholds exactly when all of them are counted. */
  lemma {:induction false} MeetingAll(winners: seq<Row>, thresholds: seq<DerivedThreshold>)
    ensures Meeting(winners, thresholds) == |winners| <==> forall w :: w in winners ==> MeetsAll(w, thresholds)
    decreases |winners|
  {
    if winners != [] {
      var init := winners[..|winners| - 1];
      MeetingAll(init, thresholds);
      assert forall w :: w in winners <==> w in init || w == winners[|winners| - 1];
    }
  }

  /** An extra threshold can only lower the number of winners meeting them all. */
  lemma {:induction false} MeetingMonotone(winners: seq<Row>, thresholds: seq<DerivedThreshold>, extra: DerivedThreshold)
    ensures Meeting(winners, thresholds + [extra]) <= Meeting(winners, thresholds)
    decreases |winners|
  {
    if winners != [] {
      MeetingMonotone(winners[..|winners| - 1], thresholds, extra);
      var w := winners[|winners| - 1];
      if MeetsAll(w, thresholds + [extra]) {
        forall i | 0 <= i < |thresholds|
          ensures HasValue(w, thresholds[i].variableName)
        {
          assert (thresholds + [extra])[i] == thresholds[i];
        }
        assert MeetsAll(w, thresholds) by {
          forall i | 0 <= i < |thresholds|
            ensures HasValue(w, thresholds[i].variableName)
              && (thresholds[i].operator == "<=" ==> w[thresholds[i].variableName].value <= thresholds[i].thresholdValue)
              && (thresholds[i].operator == ">=" ==> w[thresholds[i].variableName].value >= thresholds[i].thresholdValue)
          {
            assert (thresholds + [extra])[i] == thresholds[i];
          }
        }
      }
    }
  }

  /** Adding a threshold to a non-empty set never raises the combined capture rate. */
  lemma CombinedRateMonotone(thresholds: seq<DerivedThreshold>, extra: DerivedThreshold, winners: seq<Row>)
    requires thresholds != []
    ensures CombinedCaptureRate(thresholds + [extra], winners) <= CombinedCaptureRate(thresholds, winners)
  {
    if winners != [] {
      MeetingMonotone(winners, thresholds, extra);
      var n := |winners| as real;
      var a := Meeting(winners, thresholds + [extra]) as real;
      var b := Meeting(winners, thresholds) as real;
      DivMonotone(a, b, n);
    }
  }

  /**
   * The threshold loop of `derive`: each variable in turn, unknown ones
   * skipped, the first raise propagated, and a threshold kept whenever one
   * was derived.
   */
  function DeriveAll(variables: seq<string>, winners: seq<Row>, nonWinners: seq<Row>, rate: real)
    : Attempt<seq<DerivedThreshold>>
  {
    if variables == [] then Ok([])
    else
      match DeriveAll(variables[..|variables| - 1], winners, nonWinners, rate)
      case Raised(e) => Raised(e)
      case Ok(ts) =>
        var v := variables[|variables| - 1];
        if v !in VariableConfig then Ok(ts)
        else
          match DeriveThreshold(v, winners, nonWinners, rate)
          case Raised(e) => Raised(e)
          case Ok(None) => Ok(ts)
          case Ok(Some(t)) => Ok(ts + [t])
  }

  /** Once a prefix of the variables raises, so does the whole loop. */
  lemma {:induction false} DeriveAllRaisedPrefix(variables: seq<string>, i: nat, winners: seq<Row>, nonWinners: seq<Row>, rate: real)
    requires i <= |variables|
    requires DeriveAll(variables[..i], winners, nonWinners, rate).Raised?
    ensures DeriveAll(variables, winners, nonWinners, rate) == DeriveAll(variables[..i], winners, nonWinners, rate)
    decreases |variables| - i
  {
    if i < |variables| {
      assert variables[..i + 1][..i] == variables[..i];
      DeriveAllRaisedPrefix(variables, i + 1, winners, nonWinners, rate);
    } else {
      assert variables[..i] == variables;
    }
  }

  /**
   * Every threshold derived is for a configured variable that was asked
   * for, with that variable's operator, at one of the winners' values.
   */
  lemma {:induction false} DeriveAllThresholds(variables: seq<string>, winners: seq<Row>, nonWinners: seq<Row>, rate: real)
    requires DeriveAll(variables, winners, nonWinners, rate).Ok?
    ensures var ts := DeriveAll(variables, winners, nonWinners, rate).value;
      |ts| <= |variables|
      && forall t :: t in ts ==>
           t.variableName in variables && t.variableName in VariableConfig
           && t.operator == VariableConfig[t.variableName].operator
           && t.thresholdValue in ValuesOf(winners, t.variableName)
    decreases |variables|
  {
    if variables != [] {
      var init := variables[..|variables| - 1];
      DeriveAllThresholds(init, winners, nonWinners, rate);
      assert forall v :: v in init ==> v in variables;
    }
  }

  /** With a target rate in `(0, 1]`, no variable raises. */
  lemma {:induction false} DeriveAllSucceeds(variables: seq<string>, winners: seq<Row>, nonWinners: seq<Row>, rate: real)
    requires 0.0 < rate <= 1.0
    ensures DeriveAll(variables, winners, nonWinners, rate).Ok?
    decreases |variables|
  {
    if variables != [] {
      DeriveAllSucceeds(variables[..|variables| - 1], winners, nonWinners, rate);
      var v := variables[|variables| - 1];
      if v in VariableConfig && ValuesOf(winners, v) != [] {
        CaptureMeetsTarget(v, winners, nonWinners, rate);
      }
    }
  }

  /** One more variable: skipped when unconfigured, otherwise its threshold, if any, is appended or its exception kept. */
  lemma DeriveAllStep(variables: seq<string>, i: nat, winners: seq<Row>, nonWinners: seq<Row>, rate: real,
                      ts: seq<DerivedThreshold>)
    requires i < |variables| && DeriveAll(variables[..i], winners, nonWinners, rate) == Ok(ts)
    ensures variables[i] !in VariableConfig ==> DeriveAll(variables[..i + 1], winners, nonWinners, rate) == Ok(ts)
    ensures variables[i] in VariableConfig ==>
      var d := DeriveThreshold(variables[i], winners, nonWinners, rate);
      DeriveAll(variables[..i + 1], winners, nonWinners, rate)
        == if d.Raised? then Raised(d.message) else if d.value.None? then Ok(ts) else Ok(ts + [d.value.value])
  {
    assert variables[..i + 1][..i] == variables[..i];
  }

  /** `variables or list(VARIABLE_CONFIG.keys())` */
  function VariablesOrDefault(variables: Option<seq<string>>): seq<string>
  {
    if variables.None? || variables.value == [] then ConfiguredVariables else variables.value
  }

  /**
   * The derivation part of `derive`: the thresholds of the variables asked
   * for (all configured ones by default), or the first exception.
   */
  method DeriveThresholds(variables: Option<seq<string>>, winners: seq<Row>, nonWinners: seq<Row>, rate: real)
    returns (r: Attempt<seq<DerivedThreshold>>)
    ensures r == DeriveAll(VariablesOrDefault(variables), winners, nonWinners, rate)
  {
    var vars := VariablesOrDefault(variables);
    var thresholds := [];
    for i := 0 to |vars|
      invariant DeriveAll(vars[..i], winners, nonWinners, rate) == Ok(thresholds)
    {
      DeriveAllStep(vars, i, winners, nonWinners, rate, thresholds);
      var v := vars[i];
      if v !in VariableConfig {
        continue;
      }
      var threshold := DeriveThreshold(v, winners, nonWinners, rate);
      if threshold.Raised? {
        DeriveAllRaisedPrefix(vars, i + 1, winners, nonWinners, rate);
        return Raised(threshold.message);
      }
      if threshold.value.Some? {
        thresholds := thresholds + [threshold.value.value];
      }
    }
    assert vars[..|vars|] == vars;
    return Ok(thresholds);
  }
}
