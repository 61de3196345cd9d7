/**
 * The per-criterion statistics of the scoring report: for every criterion
 * any stored score evaluated, how often it passed and the average gain of
 * the stocks that passed and of those that failed it.
 */
module Report {
  import opened Common

  /** A stored score as the report reads it: its `criteria_results` (when present) and its `gain_pct`. */
  datatype ScoreRow = ScoreRow(criteriaResults: Option<map<string, map<string, Value>>>, gainPct: Option<real>)

  /** The statistics of one criterion. */
  datatype CriterionStats = CriterionStats(
    passRate: real,
    passedCount: nat,
    failedCount: nat,
    avgGainWhenPassed: real,
    avgGainWhenFailed: real)

  /** Python's truth test on a stored value. */
  predicate Truthy(v: Value)
  {
    match v
    case VNone => false
    case VBool(b) => b
    case VInt(i) => i != 0
    case VReal(r) => r != 0.0
    case VStr(s) => s != ""
  }

  /** `score.get("gain_pct", 0) or 0`: a missing or empty gain counts as 0. */
  function Gain(row: ScoreRow): (g: real)
    ensures row.gainPct.None? ==> g == 0.0
    ensures row.gainPct.Some? ==> g == row.gainPct.value
  {
    if row.gainPct.Some? then row.gainPct.value else 0.0
  }

  /** The row evaluated criterion `name`. */
  predicate Evaluated(row: ScoreRow, name: string)
  {
    row.criteriaResults.Some? && name in row.criteriaResults.value
  }

  /** The row evaluated `name` and its `passed` entry is truthy. */
  predicate PassedIn(row: ScoreRow, name: string)
    requires Evaluated(row, name)
  {
    var r := row.criteriaResults.value[name];
    "passed" in r && Truthy(r["passed"])
  }

  /** The names of every criterion any row evaluated. */
  function NamesOf(rows: seq<ScoreRow>): (names: set<string>)
    ensures forall n :: n in names <==> exists i :: 0 <= i < |rows| && Evaluated(rows[i], n)
  {
    if rows == [] then {}
    else
      var last := rows[|rows| - 1];
      var before := NamesOf(rows[..|rows| - 1]);
      assert forall i :: 0 <= i < |rows| - 1 ==> rows[..|rows| - 1][i] == rows[i];
      if last.criteriaResults.Some? then before + last.criteriaResults.value.Keys else before
  }

  /** The gains of the rows that passed `name`, in order. */
  function PassedGains(rows: seq<ScoreRow>, name: string): seq<real>
  {
    if rows == [] then []
    else
      var last := rows[|rows| - 1];
      PassedGains(rows[..|rows| - 1], name)
        + (if Evaluated(last, name) && PassedIn(last, name) then [Gain(last)] else [])
  }

  /** The gains of the rows that evaluated `name` without passing it, in order. */
  function FailedGains(rows: seq<ScoreRow>, name: string): seq<real>
  {
    if rows == [] then []
    else
      var last := rows[|rows| - 1];
      FailedGains(rows[..|rows| - 1], name)
        + (if Evaluated(last, name) && !PassedIn(last, name) then [Gain(last)] else [])
  }

  /** The number of rows that evaluated `name`. */
  function EvaluatedCount(rows: seq<ScoreRow>, name: string): nat
  {
    if rows == [] then 0
    else EvaluatedCount(rows[..|rows| - 1], name) + (if Evaluated(rows[|rows| - 1], name) then 1 else 0)
  }

  /** The mean of a list, or 0 for the empty list. */
  function MeanOrZero(xs: seq<real>): real
  {
    if xs == [] then 0.0 else Mean(xs)
  }

  /** The statistics of `name` over the rows. */
  function StatsFor(rows: seq<ScoreRow>, name: string): CriterionStats
  {
    var passed, failed := PassedGains(rows, name), FailedGains(rows, name);
    var total := |passed| + |failed|;
    CriterionStats(
      if total > 0 then |passed| as real / total as real else 0.0,
      |passed|, |failed|, MeanOrZero(passed), MeanOrZero(failed))
  }

  /** `_calculate_criteria_stats`, as a function of the stored scores. */
  function CriteriaStatsSpec(rows: seq<ScoreRow>): map<string, CriterionStats>
  {
    if rows == [] then map[] else map n | n in NamesOf(rows) :: StatsFor(rows, n)
  }

  /** The criterion names of all the rows, collected row by row. */
  method CollectNames(rows: seq<ScoreRow>) returns (names: set<string>)
    ensures names == NamesOf(rows)
  {
    names := {};
    for i := 0 to |rows|
      invariant names == NamesOf(rows[..i])
    {
      assert rows[..i + 1][..i] == rows[..i];
      if rows[i].criteriaResults.Some? {
        names := names + rows[i].criteriaResults.value.Keys;
      }
    }
    assert rows[..|rows|] == rows;
  }

  /** The gains of the rows that passed and that failed `name`, collected row by row. */
  method SplitGains(rows: seq<ScoreRow>, name: string) returns (passed: seq<real>, failed: seq<real>)
    ensures passed == PassedGains(rows, name) && failed == FailedGains(rows, name)
  {
    passed, failed := [], [];
    for j := 0 to |rows|
      invariant passed == PassedGains(rows[..j], name)
      invariant failed == FailedGains(rows[..j], name)
    {
      assert rows[..j + 1][..j] == rows[..j];
      var row := rows[j];
      if row.criteriaResults.Some? && name in row.criteriaResults.value {
        var gain := if row.gainPct.Some? then row.gainPct.value else 0.0;
        var r := row.criteriaResults.value[name];
        if "passed" in r && Truthy(r["passed"]) {
          passed := passed + [gain];
        } else {
          failed := failed + [gain];
        }
      }
    }
    assert rows[..|rows|] == rows;
  }

  /** The statistics of one criterion: its pass rate, counts and average gains. */
  method StatsOf(rows: seq<ScoreRow>, name: string) returns (entry: CriterionStats)
    ensures entry == StatsFor(rows, name)
  {
    var passed, failed := SplitGains(rows, name);
    var total := |passed| + |failed|;
    var rate := if total > 0 then |passed| as real / total as real else 0.0;
    var avgPassed := if |passed| > 0 then Mean(passed) else 0.0;
    var avgFailed := if |failed| > 0 then Mean(failed) else 0.0;
    entry := CriterionStats(rate, |passed|, |failed|, avgPassed, avgFailed);
  }

  /**
   * `_calculate_criteria_stats`: collect the criterion names, then for each
   * name sort the gains of the rows that evaluated it into passed and
   * failed, and record the pass rate, the counts and the two averages.
   */
  method CalculateCriteriaStats(rows: seq<ScoreRow>) returns (stats: map<string, CriterionStats>)
    ensures stats == CriteriaStatsSpec(rows)
  {
    if |rows| == 0 {
      return map[];
    }
    var names := CollectNames(rows);
    stats := map[];
    var remaining := names;
    while remaining != {}
      invariant remaining <= names
      invariant stats.Keys == names - remaining
      invariant forall n :: n in stats ==> stats[n] == StatsFor(rows, n)
      decreases |remaining|
    {
      var name :| name in remaining;
      var entry := StatsOf(rows, name);
      stats := stats[name := entry];
      remaining := remaining - {name};
    }
    assert stats.Keys == CriteriaStatsSpec(rows).Keys;
  }

  /** Every row that evaluated a criterion counts once, as passed or as failed. */
  lemma {:induction false} CountsPartition(rows: seq<ScoreRow>, name: string)
    ensures |PassedGains(rows, name)| + |FailedGains(rows, name)| == EvaluatedCount(rows, name)
  {
    if rows != [] {
      CountsPartition(rows[..|rows| - 1], name);
    }
  }

  /** Each gain of the passed list is the gain of a row that evaluated and passed the criterion. */
  lemma {:induction false} PassedGainsFromRows(rows: seq<ScoreRow>, name: string)
    ensures forall g :: g in PassedGains(rows, name) ==>
      exists i :: 0 <= i < |rows| && Evaluated(rows[i], name) && PassedIn(rows[i], name) && g == Gain(rows[i])
  {
    if rows != [] {
      var n := |rows| - 1;
      var rows' := rows[..n];
      PassedGainsFromRows(rows', name);
      forall g | g in PassedGains(rows, name)
        ensures exists i :: 0 <= i < |rows| && Evaluated(rows[i], name) && PassedIn(rows[i], name) && g == Gain(rows[i])
      {
        if g in PassedGains(rows', name) {
          var i :| 0 <= i < |rows'| && Evaluated(rows'[i], name) && PassedIn(rows'[i], name) && g == Gain(rows'[i]);
          assert rows'[i] == rows[i];
        } else {
          assert Evaluated(rows[n], name) && PassedIn(rows[n], name) && g == Gain(rows[n]);
        }
      }
    }
  }

  /** Each gain of the failed list is the gain of a row that evaluated the criterion without passing it. */
  lemma {:induction false} FailedGainsFromRows(rows: seq<ScoreRow>, name: string)
    ensures forall g :: g in FailedGains(rows, name) ==>
      exists i :: 0 <= i < |rows| && Evaluated(rows[i], name) && !PassedIn(rows[i], name) && g == Gain(rows[i])
  {
    if rows != [] {
      var n := |rows| - 1;
      var rows' := rows[..n];
      FailedGainsFromRows(rows', name);
      forall g | g in FailedGains(rows, name)
        ensures exists i :: 0 <= i < |rows| && Evaluated(rows[i], name) && !PassedIn(rows[i], name) && g == Gain(rows[i])
      {
        if g in FailedGains(rows', name) {
          var i :| 0 <= i < |rows'| && Evaluated(rows'[i], name) && !PassedIn(rows'[i], name) && g == Gain(rows'[i]);
          assert rows'[i] == rows[i];
        } else {
          assert Evaluated(rows[n], name) && !PassedIn(rows[n], name) && g == Gain(rows[n]);
        }
      }
    }
  }

  /**
   * The statistics have one entry per criterion name of the rows (none for
   * no rows); in each, the counts add up to the rows that evaluated the
   * criterion, and the pass rate lies in [0, 1] and is positive exactly
   * when some row passed.
   */
  lemma StatsShape(rows: seq<ScoreRow>)
    ensures CriteriaStatsSpec(rows).Keys == NamesOf(rows)
    ensures forall n :: n in CriteriaStatsSpec(rows) ==> StatsAgree(rows, n, CriteriaStatsSpec(rows)[n])
  {
    forall n | n in CriteriaStatsSpec(rows)
      ensures StatsAgree(rows, n, CriteriaStatsSpec(rows)[n])
    {
      var i :| 0 <= i < |rows| && Evaluated(rows[i], n);
      StatsForShape(rows, n, i);
    }
  }

  /** The counts add up to the rows that evaluated `name`, and the pass rate is a share in [0, 1]. */
  predicate StatsAgree(rows: seq<ScoreRow>, name: string, s: CriterionStats)
  {
    s.passedCount + s.failedCount == EvaluatedCount(rows, name) > 0
    && 0.0 <= s.passRate <= 1.0
    && (s.passRate > 0.0 <==> s.passedCount > 0)
  }

  /** The statistics of a criterion some row evaluated agree with the rows. */
  lemma StatsForShape(rows: seq<ScoreRow>, name: string, i: nat)
    requires i < |rows| && Evaluated(rows[i], name)
    ensures StatsAgree(rows, name, StatsFor(rows, name))
  {
    CountsPartition(rows, name);
    EvaluatedCountPositive(rows, name, i);
    var s := StatsFor(rows, name);
    Fraction(s.passedCount as real, (s.passedCount + s.failedCount) as real);
  }

  /** A row that evaluated the criterion makes the count positive. */
  lemma {:induction false} EvaluatedCountPositive(rows: seq<ScoreRow>, name: string, i: nat)
    requires i < |rows| && Evaluated(rows[i], name)
    ensures EvaluatedCount(rows, name) > 0
  {
    if i < |rows| - 1 {
      var rows' := rows[..|rows| - 1];
      assert rows'[i] == rows[i];
      EvaluatedCountPositive(rows', name, i);
    }
  }

  /**
   * When every gain lies in [lo, hi], so does each average of the report,
   * except that an average over no rows is 0.
   */
  lemma AverageGainsWithin(rows: seq<ScoreRow>, name: string, lo: real, hi: real)
    requires forall i :: 0 <= i < |rows| ==> lo <= Gain(rows[i]) <= hi
    ensures var s := StatsFor(rows, name);
      (s.passedCount > 0 ==> lo <= s.avgGainWhenPassed <= hi)
      && (s.passedCount == 0 ==> s.avgGainWhenPassed == 0.0)
      && (s.failedCount > 0 ==> lo <= s.avgGainWhenFailed <= hi)
      && (s.failedCount == 0 ==> s.avgGainWhenFailed == 0.0)
  {
    PassedGainsFromRows(rows, name);
    FailedGainsFromRows(rows, name);
    var passed, failed := PassedGains(rows, name), FailedGains(rows, name);
    if passed != [] {
      forall k | 0 <= k < |passed|
        ensures lo <= passed[k] <= hi
      {
        assert passed[k] in passed;
      }
      MeanBounds(passed, lo, hi);
    }
    if failed != [] {
      forall k | 0 <= k < |failed|
        ensures lo <= failed[k] <= hi
      {
        assert failed[k] in failed;
      }
      MeanBounds(failed, lo, hi);
    }
  }
}
