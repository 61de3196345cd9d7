/**
 * Scoring modes: how many points each Neumann criterion is worth under the
 * full, core and weighted modes, and the largest score each mode allows.
 */
module Modes {

  datatype ScoringMode = Full | Core | Weighted

  /** The names of the eight criteria, in the order the weight table lists them. */
  const CriterionNames: seq<string> :=
    ["drawdown", "extended_decline", "near_lows", "volume_exhaustion",
     "below_sma50", "below_sma200", "market_cap", "trendline_break"]

  /** `CRITERIA_WEIGHTS` */
  const CriteriaWeights: map<string, nat> := map[
    "drawdown" := 3,
    "extended_decline" := 2,
    "near_lows" := 1,
    "volume_exhaustion" := 1,
    "below_sma50" := 1,
    "below_sma200" := 0,
    "market_cap" := 1,
    "trendline_break" := 1]

  /** `CORE_CRITERIA` */
  const CoreCriteria: set<string> := {"drawdown", "extended_decline"}

  /** The weights of `names` in the table, added up in order. */
  function TableTotal(names: seq<string>): nat
    requires forall n :: n in names ==> n in CriteriaWeights
  {
    if names == [] then 0 else TableTotal(names[..|names| - 1]) + CriteriaWeights[names[|names| - 1]]
  }

  /** `MAX_SCORES[mode]`: 8, 2, and the sum of the weight table. */
  function MaxScore(mode: ScoringMode): (m: nat)
    ensures mode == Full ==> m == |CriterionNames|
    ensures mode == Core ==> m == |CoreCriteria|
  {
    match mode
    case Full => 8
    case Core => 2
    case Weighted => TableTotal(CriterionNames)
  }

  /** `get_weight`: the points `name` is worth under `mode`; 0 means the criterion is left out. */
  function Weight(name: string, mode: ScoringMode): (w: nat)
    ensures w <= 3
    ensures mode == Core ==> (w == 1 <==> name in CoreCriteria)
    ensures mode == Weighted && name !in CriteriaWeights ==> w == 1
  {
    match mode
    case Full => 1
    case Core => if name in CoreCriteria then 1 else 0
    case Weighted => if name in CriteriaWeights then CriteriaWeights[name] else 1
  }

  /** The weights of `names` under `mode`, added up. */
  function WeightTotal(names: seq<string>, mode: ScoringMode): nat
  {
    if names == [] then 0 else WeightTotal(names[..|names| - 1], mode) + Weight(names[|names| - 1], mode)
  }

  /** The table holds exactly the eight criterion names, each once. */
  lemma TableIsTheCriteria()
    ensures forall n :: n in CriterionNames <==> n in CriteriaWeights
    ensures forall i, j :: 0 <= i < j < |CriterionNames| ==> CriterionNames[i] != CriterionNames[j]
    ensures CoreCriteria <= CriteriaWeights.Keys
  {
  }

  /** Each prefix of the criterion names is the next shorter prefix plus one name. */
  lemma PrefixSteps()
    ensures CriterionNames[..8] == CriterionNames && CriterionNames[..0] == []
    ensures forall k :: 0 <= k < 8 ==> CriterionNames[..k + 1][..k] == CriterionNames[..k]
  {
  }

  /** The maximum scores are 8, 2 and 10. */
  lemma MaxScores()
    ensures MaxScore(Full) == 8 && MaxScore(Core) == 2 && MaxScore(Weighted) == 10
  {
    var ns := CriterionNames;
    PrefixSteps();
    assert TableTotal(ns[..1]) == 3;
    assert TableTotal(ns[..2]) == 5;
    assert TableTotal(ns[..3]) == 6;
    assert TableTotal(ns[..4]) == 7;
    assert TableTotal(ns[..5]) == 8;
    assert TableTotal(ns[..6]) == 8;
    assert TableTotal(ns[..7]) == 9;
    assert TableTotal(ns[..8]) == 10;
  }

  /**
   * Under every mode, the weights of the eight criteria add up to that
   * mode's maximum score.
   */
  lemma WeightsSumToMaxScore(mode: ScoringMode)
    ensures WeightTotal(CriterionNames, mode) == MaxScore(mode)
  {
    match mode
    case Full =>
      FullTotalIsCount(CriterionNames);
    case Core =>
      CoreTotal();
    case Weighted =>
      TableIsTheCriteria();
      WeightedTotalIsTable(CriterionNames);
  }

  /** Under the full mode every criterion is worth one point. */
  lemma {:induction false} FullTotalIsCount(names: seq<string>)
    ensures WeightTotal(names, Full) == |names|
  {
    if names != [] {
      FullTotalIsCount(names[..|names| - 1]);
    }
  }

  /** Under the weighted mode the weights of listed names are the table's. */
  lemma {:induction false} WeightedTotalIsTable(names: seq<string>)
    requires forall n :: n in names ==> n in CriteriaWeights
    ensures WeightTotal(names, Weighted) == TableTotal(names)
  {
    if names != [] {
      WeightedTotalIsTable(names[..|names| - 1]);
    }
  }

  /** Under the core mode only drawdown and extended decline count, one point each. */
  lemma CoreTotal()
    ensures WeightTotal(CriterionNames, Core) == 2
  {
    var ns := CriterionNames;
    PrefixSteps();
    assert WeightTotal(ns[..1], Core) == 1;
    assert WeightTotal(ns[..2], Core) == 2;
    assert WeightTotal(ns[..3], Core) == 2;
    assert WeightTotal(ns[..4], Core) == 2;
    assert WeightTotal(ns[..5], Core) == 2;
    assert WeightTotal(ns[..6], Core) == 2;
    assert WeightTotal(ns[..7], Core) == 2;
    assert WeightTotal(ns[..8], Core) == 2;
  }

  /** No weight is negative, and drawdown's weight of 3 is the largest any criterion gets. */
  lemma DrawdownWeighsMost(name: string, mode: ScoringMode)
    ensures 0 <= Weight(name, mode) <= Weight("drawdown", Weighted) == 3
    ensures Weight(name, Full) == 1
  {
  }
}
