/**
  The strategy layer (`AdvancedOptimizationEngine`): it runs the engines,
  keeps the most efficient result, ranks the runs and summarises how their
  recorded convergence data settled. The engines' results are inputs here;
  `GeneticSummary` and `AnnealingSummary` show how the genetic and annealing
  results feed it.
 */
module Orchestrator {
  import opened Sorting
  import opened Foam
  import opened Geometry
  import opened Assignments
  import opened Layouts
  import Genetic
  import Annealing

  // ---------------------------------------------------------------------------
  // Engine results as the orchestrator sees them

  /**
    One recorded convergence sample: a genetic generation record carries a
    best fitness, an annealing cooling record does not.
   */
  datatype Sample = Sample(efficiency: real, bestFitness: Option<real>)

  /** What the orchestrator reads from an engine's result. */
  datatype EngineOutput = EngineOutput(efficiency: real, totalWaste: real, convergence: seq<Sample>)

  function GeneticSummary(r: Genetic.GaResult): (o: EngineOutput)
    ensures o.efficiency == r.efficiency && o.totalWaste == r.totalWaste
    ensures |o.convergence| == |r.convergence|
    ensures forall k :: 0 <= k < |r.convergence| ==>
              o.convergence[k] == Sample(r.convergence[k].efficiency, Some(r.convergence[k].bestFitness))
  {
    EngineOutput(r.efficiency, r.totalWaste,
                 MapSeq(r.convergence, (g: Genetic.GenerationRecord) => Sample(g.efficiency, Some(g.bestFitness))))
  }

  function AnnealingSummary(r: Annealing.SaResult): (o: EngineOutput)
    ensures o.efficiency == r.efficiency && o.totalWaste == r.totalWaste
    ensures |o.convergence| == |r.cooling|
    ensures forall k :: 0 <= k < |r.cooling| ==> o.convergence[k] == Sample(r.cooling[k].efficiency, None)
  {
    EngineOutput(r.efficiency, r.totalWaste,
                 MapSeq(r.cooling, (c: Annealing.CoolingRecord) => Sample(c.efficiency, None)))
  }

  /**
    `d.efficiency || d.bestFitness * 100`: a zero efficiency falls back to
    the best fitness in percent; `None` stands for the `NaN` an absent best
    fitness gives.
   */
  function Level(d: Sample): (v: Option<real>)
    ensures d.efficiency != 0.0 ==> v == Some(d.efficiency)
    ensures d.efficiency == 0.0 && d.bestFitness.None? ==> v.None?
    ensures d.efficiency == 0.0 && d.bestFitness.Some? ==> v == Some(d.bestFitness.value * 100.0)
  {
    if d.efficiency != 0.0 then Some(d.efficiency)
    else match d.bestFitness
      case Some(f) => Some(f * 100.0)
      case None => None
  }

  // ---------------------------------------------------------------------------
  // Multi-run: record every strategy, keep the first most efficient success

  /** The strategies the `switch` knows; any other name throws before an engine runs. */
  predicate Known(name: string) {
    name == "basic" || name == "genetic" || name == "annealing"
  }

  datatype RunRecord = RunRecord(name: string, output: Option<EngineOutput>, executionTime: real,
                                 efficiency: real, waste: real, convergence: seq<Sample>)

  /**
    The entry `results.push` adds for one strategy. `output` is what its
    engine returned, `None` when it threw; a failure is recorded with
    efficiency 0, waste 100 and no result. The basic engine reports no
    convergence data.
   */
  function RecordRun(name: string, output: Option<EngineOutput>, time: real): (r: RunRecord)
    ensures r.name == name && r.executionTime == time
    ensures r.output.Some? <==> Known(name) && output.Some?
    ensures r.output.None? ==> r.efficiency == 0.0 && r.waste == 100.0 && r.convergence == []
    ensures r.output.Some? ==>
              && r.output == output && r.efficiency == output.value.efficiency && r.waste == output.value.totalWaste
              && r.convergence == (if name == "basic" then [] else output.value.convergence)
  {
    if Known(name) && output.Some? then
      var o := output.value;
      RunRecord(name, output, time, o.efficiency, o.totalWaste, if name == "basic" then [] else o.convergence)
    else RunRecord(name, None, time, 0.0, 100.0, [])
  }

  /** The positions of the records that hold a result (`results.filter(r => r.result !== null)`), in order. */
  function SuccessIndices(rs: seq<RunRecord>): (ix: seq<nat>)
    ensures forall k :: 0 <= k < |ix| ==> ix[k] < |rs| && rs[ix[k]].output.Some?
    ensures forall k, m :: 0 <= k < m < |ix| ==> ix[k] < ix[m]
    ensures forall i :: 0 <= i < |rs| && rs[i].output.Some? ==> i in ix
  {
    if |rs| == 0 then []
    else
      var ix := SuccessIndices(rs[..|rs| - 1]);
      if rs[|rs| - 1].output.Some? then ix + [|rs| - 1] else ix
  }

  function Successful(rs: seq<RunRecord>): (r: seq<RunRecord>)
    ensures |r| == |SuccessIndices(rs)|
    ensures forall k :: 0 <= k < |r| ==> r[k] == rs[SuccessIndices(rs)[k]] && r[k].output.Some?
  {
    var ix := SuccessIndices(rs);
    seq(|ix|, k requires 0 <= k < |ix| => rs[ix[k]])
  }

  function EfficiencyOf(r: RunRecord): real {
    r.efficiency
  }

  /** The run `reduce((best, cur) => cur.efficiency > best.efficiency ? cur : best)` keeps. */
  function BestRun(rs: seq<RunRecord>): (k: nat)
    requires |rs| > 0
    ensures k < |rs|
    ensures forall j :: 0 <= j < |rs| ==> rs[j].efficiency <= rs[k].efficiency
    ensures forall j :: 0 <= j < k ==> rs[j].efficiency < rs[k].efficiency
  {
    ArgMaxFirst(rs, EfficiencyOf)
  }

  /** Some strategy succeeded: otherwise the `reduce` without an initial value throws. */
  predicate AnySuccess(algorithms: seq<string>, outputs: seq<Option<EngineOutput>>)
    requires |outputs| == |algorithms|
  {
    exists i :: 0 <= i < |algorithms| && Known(algorithms[i]) && outputs[i].Some?
  }

  function Records(algorithms: seq<string>, outputs: seq<Option<EngineOutput>>, times: seq<real>): (rs: seq<RunRecord>)
    requires |outputs| == |algorithms| && |times| == |algorithms|
    ensures |rs| == |algorithms|
    ensures forall i :: 0 <= i < |rs| ==> rs[i] == RecordRun(algorithms[i], outputs[i], times[i])
  {
    seq(|algorithms|, i requires 0 <= i < |algorithms| => RecordRun(algorithms[i], outputs[i], times[i]))
  }

  /**
    The winner of a multi-run, as a position in the strategy list: it
    succeeded, every successful strategy is at most as efficient, and every
    earlier successful one strictly less.
   */
  function Winner(algorithms: seq<string>, outputs: seq<Option<EngineOutput>>, times: seq<real>): (w: nat)
    requires |outputs| == |algorithms| && |times| == |algorithms|
    requires AnySuccess(algorithms, outputs)
    ensures w < |algorithms| && Known(algorithms[w]) && outputs[w].Some?
    ensures forall i :: 0 <= i < |algorithms| && Known(algorithms[i]) && outputs[i].Some? ==>
              outputs[i].value.efficiency <= outputs[w].value.efficiency
    ensures forall i :: 0 <= i < w && Known(algorithms[i]) && outputs[i].Some? ==>
              outputs[i].value.efficiency < outputs[w].value.efficiency
  {
    SomeSuccessful(algorithms, outputs, times);
    var rs := Records(algorithms, outputs, times);
    var k := BestRun(Successful(rs));
    WinnerIsBest(algorithms, outputs, times, k);
    SuccessIndices(rs)[k]
  }

  /** Some strategy succeeded, so some record holds a result. */
  lemma SomeSuccessful(algorithms: seq<string>, outputs: seq<Option<EngineOutput>>, times: seq<real>)
    requires |outputs| == |algorithms| && |times| == |algorithms|
    requires AnySuccess(algorithms, outputs)
    ensures |Successful(Records(algorithms, outputs, times))| > 0
  {
    var rs := Records(algorithms, outputs, times);
    var i0 :| 0 <= i0 < |algorithms| && Known(algorithms[i0]) && outputs[i0].Some?;
    assert rs[i0].output.Some?;
    assert i0 in SuccessIndices(rs);
  }

  /** The first most efficient successful record is a successful strategy no other successful one beats. */
  lemma WinnerIsBest(algorithms: seq<string>, outputs: seq<Option<EngineOutput>>, times: seq<real>, k: nat)
    requires |outputs| == |algorithms| && |times| == |algorithms|
    requires |Successful(Records(algorithms, outputs, times))| > 0
    requires k == BestRun(Successful(Records(algorithms, outputs, times)))
    ensures var w := SuccessIndices(Records(algorithms, outputs, times))[k];
            && w < |algorithms| && Known(algorithms[w]) && outputs[w].Some?
            && (forall i :: 0 <= i < |algorithms| && Known(algorithms[i]) && outputs[i].Some? ==>
                 outputs[i].value.efficiency <= outputs[w].value.efficiency)
            && (forall i :: 0 <= i < w && Known(algorithms[i]) && outputs[i].Some? ==>
                 outputs[i].value.efficiency < outputs[w].value.efficiency)
  {
    var rs := Records(algorithms, outputs, times);
    var ix := SuccessIndices(rs);
    var w := ix[k];
    assert rs[w].output.Some?;
    forall i | 0 <= i < |algorithms| && Known(algorithms[i]) && outputs[i].Some?
      ensures outputs[i].value.efficiency <= outputs[w].value.efficiency
      ensures i < w ==> outputs[i].value.efficiency < outputs[w].value.efficiency
    {
      BeatenBy(algorithms, outputs, times, k, i);
    }
  }

  lemma BeatenBy(algorithms: seq<string>, outputs: seq<Option<EngineOutput>>, times: seq<real>, k: nat, i: nat)
    requires |outputs| == |algorithms| && |times| == |algorithms|
    requires |Successful(Records(algorithms, outputs, times))| > 0
    requires k == BestRun(Successful(Records(algorithms, outputs, times)))
    requires i < |algorithms| && Known(algorithms[i]) && outputs[i].Some?
    ensures var w := SuccessIndices(Records(algorithms, outputs, times))[k];
            && outputs[i].value.efficiency <= outputs[w].value.efficiency
            && (i < w ==> outputs[i].value.efficiency < outputs[w].value.efficiency)
  {
    var rs := Records(algorithms, outputs, times);
    var ix := SuccessIndices(rs);
    var s := Successful(rs);
    var w := ix[k];
    assert rs[i].output.Some? && rs[w].output.Some?;
    var m :| 0 <= m < |ix| && ix[m] == i;
    assert s[m] == rs[i] && s[k] == rs[w];
    if i < w {
      assert m < k;
    }
  }

  // ---------------------------------------------------------------------------
  // Ranking and comparison

  /** `(a, b) => b.efficiency - a.efficiency` as an order: more efficient first. */
  predicate MoreEfficient(a: RunRecord, b: RunRecord) {
    a.efficiency >= b.efficiency
  }

  /** `calculateOverallScore`: 70% efficiency, 30% speed against a ten-second budget. */
  function OverallScore(efficiency: real, time: real): (s: real)
    ensures 0.0 <= efficiency <= 100.0 && time >= 0.0 ==> 0.0 <= s <= 100.0
    ensures time >= 10000.0 ==> s == 0.7 * efficiency
  {
    var speed := 1.0 - time / 10000.0;
    (efficiency / 100.0 * 0.7 + MaxReal(0.0, speed) * 0.3) * 100.0
  }

  /** A more efficient and no slower run never scores lower. */
  lemma ScoreMonotone(e1: real, t1: real, e2: real, t2: real)
    requires e1 <= e2 && t2 <= t1
    ensures OverallScore(e1, t1) <= OverallScore(e2, t2)
  {
    assert MaxReal(0.0, 1.0 - t1 / 10000.0) <= MaxReal(0.0, 1.0 - t2 / 10000.0);
  }

  datatype RankEntry = RankEntry(rank: nat, algorithm: string, efficiency: real, waste: real,
                                 executionTime: real, score: real)

  datatype Analysis = Analysis(bestEfficiency: real, worstEfficiency: real, avgEfficiency: real,
                               fastestTime: real, slowestTime: real, avgTime: real)

  datatype Comparison = Comparison(ranking: seq<RankEntry>, analysis: Analysis)

  function Entry(r: RunRecord, rank: nat): RankEntry {
    RankEntry(rank, r.name, r.efficiency, r.waste, r.executionTime, OverallScore(r.efficiency, r.executionTime))
  }

  /** The fields a ranking entry copies from its run. */
  function RunKey(r: RunRecord): (string, real, real, real) {
    (r.name, r.efficiency, r.waste, r.executionTime)
  }

  function EntryKey(e: RankEntry): (string, real, real, real) {
    (e.algorithm, e.efficiency, e.waste, e.executionTime)
  }

  /** The ranking of `generateComparison`: the runs in order of non-increasing efficiency, ranked from 1. */
  function Ranking(rs: seq<RunRecord>): (ranking: seq<RankEntry>)
    ensures |ranking| == |rs|
    ensures forall i :: 0 <= i < |ranking| ==> ranking[i].rank == i + 1
    ensures forall i, j :: 0 <= i < j < |ranking| ==> ranking[i].efficiency >= ranking[j].efficiency
    ensures multiset(MapSeq(ranking, EntryKey)) == multiset(MapSeq(rs, RunKey))
    ensures forall i :: 0 <= i < |ranking| ==>
              ranking[i].score == OverallScore(ranking[i].efficiency, ranking[i].executionTime)
  {
    assert TotalPreorder(MoreEfficient);
    var sorted := SortBy(rs, MoreEfficient);
    RankEntriesKeys(sorted);
    MapSeqPermutation(sorted, rs, RunKey);
    RankEntries(sorted)
  }

  /** Entry `i` of the sorted runs, ranked `i + 1`. */
  function RankEntries(sorted: seq<RunRecord>): (ranking: seq<RankEntry>)
    ensures |ranking| == |sorted|
    ensures forall i :: 0 <= i < |ranking| ==> ranking[i] == Entry(sorted[i], i + 1)
  {
    seq(|sorted|, i requires 0 <= i < |sorted| => Entry(sorted[i], i + 1))
  }

  lemma RankEntriesKeys(sorted: seq<RunRecord>)
    ensures MapSeq(RankEntries(sorted), EntryKey) == MapSeq(sorted, RunKey)
  {
  }

  /** The arithmetic mean lies between the least and the greatest value. */
  lemma MeanBetween(s: seq<real>)
    requires |s| > 0
    ensures MinOf(s) <= Sum(s) / (|s| as real) <= MaxOf(s)
  {
    MeanWithin(s, MinOf(s), MaxOf(s));
  }

  lemma MeanWithin(s: seq<real>, lo: real, hi: real)
    requires |s| > 0 && forall i :: 0 <= i < |s| ==> lo <= s[i] <= hi
    ensures lo <= Sum(s) / (|s| as real) <= hi
  {
    SumBounds(s, lo, hi);
    QuotientBetween(Sum(s), |s| as real, lo, hi);
  }

  lemma MeanTimesCount(mean: real, sum: real, n: real)
    requires n > 0.0 && mean == sum / n
    ensures mean * n == sum
  {
  }

  lemma QuotientBetween(sum: real, n: real, lo: real, hi: real)
    requires n > 0.0 && n * lo <= sum <= n * hi
    ensures lo <= sum / n <= hi
  {
    var q := sum / n;
    assert q * n == sum;
    assert (q - lo) * n == sum - n * lo;
    assert (hi - q) * n == n * hi - sum;
  }

  function Efficiencies(rs: seq<RunRecord>): (e: seq<real>)
    ensures |e| == |rs| && forall i :: 0 <= i < |rs| ==> e[i] == rs[i].efficiency
  {
    MapSeq(rs, EfficiencyOf)
  }

  function TimeOf(r: RunRecord): real {
    r.executionTime
  }

  function Times(rs: seq<RunRecord>): (t: seq<real>)
    ensures |t| == |rs| && forall i :: 0 <= i < |rs| ==> t[i] == rs[i].executionTime
  {
    MapSeq(rs, TimeOf)
  }

  /**
    `generateComparison`. With no run the source's `Math.max` of nothing and
    the average `0 / 0` are not numbers; it is only ever called with the
    successful runs of a multi-run, of which there is at least one.
   */
  function Compare(rs: seq<RunRecord>): (c: Comparison)
    requires |rs| > 0
    ensures c.ranking == Ranking(rs)
    ensures c.analysis.worstEfficiency <= c.analysis.avgEfficiency <= c.analysis.bestEfficiency
    ensures c.analysis.fastestTime <= c.analysis.avgTime <= c.analysis.slowestTime
    ensures forall i :: 0 <= i < |rs| ==>
              && c.analysis.worstEfficiency <= rs[i].efficiency <= c.analysis.bestEfficiency
              && c.analysis.fastestTime <= rs[i].executionTime <= c.analysis.slowestTime
    ensures exists i :: 0 <= i < |rs| && rs[i].efficiency == c.analysis.bestEfficiency
    ensures exists i :: 0 <= i < |rs| && rs[i].efficiency == c.analysis.worstEfficiency
    ensures exists i :: 0 <= i < |rs| && rs[i].executionTime == c.analysis.fastestTime
    ensures exists i :: 0 <= i < |rs| && rs[i].executionTime == c.analysis.slowestTime
    ensures c.analysis.avgEfficiency == Mean(Efficiencies(rs)) && c.analysis.avgTime == Mean(Times(rs))
  {
    var e, t := Efficiencies(rs), Times(rs);
    MeanBetween(e);
    MeanBetween(t);
    Comparison(Ranking(rs), Analysis(MaxOf(e), MinOf(e), Mean(e), MinOf(t), MaxOf(t), Mean(t)))
  }

  /** The average of the samples times their count gives their sum. */
  lemma MeanScaled(s: seq<real>)
    requires |s| > 0
    ensures Mean(s) * (|s| as real) == Sum(s)
  {
    MeanTimesCount(Mean(s), Sum(s), |s| as real);
  }

  // ---------------------------------------------------------------------------
  // Convergence analysis

  /** `current > previous`; a comparison with `NaN` is false. */
  predicate Rise(previous: Option<real>, current: Option<real>) {
    previous.Some? && current.Some? && current.value > previous.value
  }

  /** The number of positions `i >= 1` whose level rises above the one before. */
  function Rises(levels: seq<Option<real>>): (n: nat)
    ensures |levels| >= 1 ==> n <= |levels| - 1
    ensures |levels| < 2 ==> n == 0
    ensures n == 0 <==> forall i :: 1 <= i < |levels| ==> !Rise(levels[i - 1], levels[i])
    ensures |levels| >= 1 ==>
              (n == |levels| - 1 <==> forall i :: 1 <= i < |levels| ==> Rise(levels[i - 1], levels[i]))
  {
    if |levels| < 2 then 0
    else
      var p := levels[..|levels| - 1];
      var n := Rises(p);
      assert forall i :: 0 <= i < |p| ==> p[i] == levels[i];
      n + (if Rise(levels[|levels| - 2], levels[|levels| - 1]) then 1 else 0)
  }

  function Levels(data: seq<Sample>): (v: seq<Option<real>>)
    ensures |v| == |data| && forall i :: 0 <= i < |data| ==> v[i] == Level(data[i])
  {
    MapSeq(data, Level)
  }

  /**
    `calculateConvergenceSpeed`: the share of steps that improve on the
    previous sample, 0 with fewer than two samples.
   */
  function ConvergenceSpeed(data: seq<Sample>): (v: real)
    ensures 0.0 <= v <= 1.0
    ensures |data| < 2 ==> v == 0.0
    ensures |data| >= 2 ==> IsShare(v, Rises(Levels(data)), |data| - 1)
  {
    if |data| < 2 then 0.0 else Share(Rises(Levels(data)), |data| - 1)
  }

  /** `v` is the fraction `part / whole`. */
  predicate IsShare(v: real, part: nat, whole: nat) {
    v * (whole as real) == part as real
  }

  /** `part / whole` for counts. */
  function Share(part: nat, whole: nat): (r: real)
    requires 0 < whole && part <= whole
    ensures 0.0 <= r <= 1.0 && IsShare(r, part, whole)
    ensures r == 0.0 <==> part == 0
    ensures r == 1.0 <==> part == whole
  {
    var p, w := part as real, whole as real;
    RatioBounds(p, w);
    var r := p / w;
    assert r == 1.0 ==> p == w by {
      if r == 1.0 { assert r * w == w; }
    }
    r
  }

  /** The speed is 0 exactly when no step improves, and 1 exactly when every step does. */
  lemma ConvergenceSpeedExtremes(data: seq<Sample>)
    ensures ConvergenceSpeed(data) == 0.0 <==> forall i :: 1 <= i < |data| ==> !Rise(Level(data[i - 1]), Level(data[i]))
    ensures |data| >= 2 ==>
              (ConvergenceSpeed(data) == 1.0 <==> forall i :: 1 <= i < |data| ==> Rise(Level(data[i - 1]), Level(data[i])))
  {
    var levels := Levels(data);
    var n := Rises(levels);
  
  }

  /** The arithmetic mean; `MeanScaled` and `MeanBetween` state what it is. */
  function Mean(values: seq<real>): real
    requires |values| > 0
  {
    Sum(values) / (|values| as real)
  }

  /** `x * x`, never negative. */
  function Square(x: real): (r: real)
    ensures r >= 0.0
  {
    SquareNonNegative(x);
    x * x
  }

  lemma SquareNonNegative(x: real)
    ensures x * x >= 0.0
  {
    if x < 0.0 {
      assert x * x == (-x) * (-x);
    }
  }

  function SquaredDiffs(values: seq<real>, mean: real): (r: seq<real>)
    ensures |r| == |values|
    ensures forall i :: 0 <= i < |values| ==> r[i] == Square(values[i] - mean) && r[i] >= 0.0
  {
    seq(|values|, i requires 0 <= i < |values| => Square(values[i] - mean))
  }

  /** `calculateVariance`: the mean squared distance from the mean. Callers pass windows of five samples. */
  function Variance(values: seq<real>): (v: real)
    requires |values| > 0
    ensures v >= 0.0
    ensures v == 0.0 <==> Sum(SquaredDiffs(values, Mean(values))) == 0.0
  {
    var d := SquaredDiffs(values, Mean(values));
    SumNonNegative(d);
    Quotient(Sum(d), |values| as real)
  }

  /** `a / b` for a positive divisor. */
  function Quotient(a: real, b: real): (q: real)
    requires b > 0.0
    ensures q * b == a
    ensures a >= 0.0 ==> q >= 0.0
    ensures q == 0.0 <==> a == 0.0
  {
    RatioBounds(a, b);
    a / b
  }

  lemma {:induction false} SumNonNegative(s: seq<real>)
    requires forall i :: 0 <= i < |s| ==> s[i] >= 0.0
    ensures Sum(s) >= 0.0
    ensures Sum(s) == 0.0 ==> forall i :: 0 <= i < |s| ==> s[i] == 0.0
  {
    if |s| > 0 {
      SumNonNegative(s[1..]);
      if Sum(s) == 0.0 {
        forall i | 0 <= i < |s|
          ensures s[i] == 0.0
        {
          if i > 0 {
            assert s[i] == s[1..][i - 1];
          }
        }
      }
    }
  }

  /** A constant sequence has variance zero. */
  lemma ConstantVariance(values: seq<real>)
    requires |values| > 0 && forall i :: 0 <= i < |values| ==> values[i] == values[0]
    ensures Variance(values) == 0.0
  {
    MeanWithin(values, values[0], values[0]);
    ZeroDiffs(values, Mean(values));
  }

  /** Every sample equal to the mean leaves nothing to sum. */
  lemma ZeroDiffs(values: seq<real>, m: real)
    requires forall i :: 0 <= i < |values| ==> values[i] == m
    ensures Sum(SquaredDiffs(values, m)) == 0.0
  {
    var d := SquaredDiffs(values, m);
    SumBounds(d, 0.0, 0.0);
  }

  /** Only a constant sequence has variance zero. */
  lemma ZeroVarianceConstant(values: seq<real>)
    requires |values| > 0 && Variance(values) == 0.0
    ensures forall i :: 0 <= i < |values| ==> values[i] == values[0]
  {
    var m := Mean(values);
    var d := SquaredDiffs(values, m);
    SumNonNegative(d);
    forall i | 0 <= i < |values|
      ensures values[i] == m
    {
      assert d[i] == 0.0;
      SquareZero(values[i] - m);
    }
  }

  lemma SquareZero(x: real)
    requires x * x == 0.0
    ensures x == 0.0
  {
    ProductZero(x, x);
  }

  lemma ProductZero(a: real, b: real)
    requires a * b == 0.0
    ensures a == 0.0 || b == 0.0
  {
  }

  /** Variance is zero exactly for a constant sequence. */
  lemma VarianceZeroIffConstant(values: seq<real>)
    requires |values| > 0
    ensures Variance(values) == 0.0 <==> forall i :: 0 <= i < |values| ==> values[i] == values[0]
  {
    if forall i :: 0 <= i < |values| ==> values[i] == values[0] {
      ConstantVariance(values);
    }
    if Variance(values) == 0.0 {
      ZeroVarianceConstant(values);
    }
  }

  /** `None` stands for `NaN` and is never read through. */
  function ValueOf(v: Option<real>): real {
    match v
    case Some(x) => x
    case None => 0.0
  }

  /**
    A window counts as stable when its variance is below 0.1; one `NaN`
    sample makes the variance `NaN` and the comparison false.
   */
  predicate Stable(window: seq<Option<real>>) {
    && |window| > 0
    && (forall i :: 0 <= i < |window| ==> window[i].Some?)
    && Variance(MapSeq(window, ValueOf)) < 0.1
  }

  const WindowSize: nat := 5

  /** The window `data.slice(k, k + 5)` is one the loop examines (it ends before the last sample) and it is stable. */
  predicate StableAt(levels: seq<Option<real>>, k: nat) {
    k + WindowSize < |levels| && Stable(levels[k..k + WindowSize])
  }

  /** The `for` loop of `findStabilityPoint` from window end `i` on. */
  function FirstStable(levels: seq<Option<real>>, i: nat): (k: nat)
    requires WindowSize <= i <= |levels|
    decreases |levels| - i
    ensures i - WindowSize <= k <= |levels|
    ensures k < |levels| ==> StableAt(levels, k)
    ensures forall j :: i - WindowSize <= j < k ==> !StableAt(levels, j)
  {
    if i >= |levels| then |levels|
    else if Stable(levels[i - WindowSize..i]) then i - WindowSize
    else FirstStable(levels, i + 1)
  }

  /**
    `findStabilityPoint`: the number of samples when there are fewer than
    ten, otherwise the start of the first five-sample window, ending before
    the last sample, whose variance is below 0.1, or the number of samples
    when there is none.
   */
  function StabilityPoint(data: seq<Sample>): (k: nat)
    ensures k <= |data|
    ensures |data| < 10 ==> k == |data|
    ensures k < |data| ==> StableAt(Levels(data), k)
    ensures |data| >= 10 ==> forall j :: 0 <= j < k ==> !StableAt(Levels(data), j)
  {
    if |data| < 10 then |data| else FirstStable(Levels(data), WindowSize)
  }

  datatype ConvergenceSummary = ConvergenceSummary(totalImprovement: Option<real>, convergenceSpeed: real,
                                                   stabilityPoint: nat, iterations: nat)

  /** `final - initial`, `NaN` when either is. */
  function Difference(final: Option<real>, initial: Option<real>): Option<real> {
    if final.Some? && initial.Some? then Some(final.value - initial.value) else None
  }

  function Summarize(data: seq<Sample>): (s: ConvergenceSummary)
    requires |data| > 0
    ensures s.iterations == |data| && 0.0 <= s.convergenceSpeed <= 1.0 && s.stabilityPoint <= |data|
    ensures s.totalImprovement == Difference(Level(data[|data| - 1]), Level(data[0]))
    ensures s.totalImprovement.Some? <==> Level(data[|data| - 1]).Some? && Level(data[0]).Some?
    ensures s.totalImprovement.Some? ==> Level(data[0]).value + s.totalImprovement.value == Level(data[|data| - 1]).value
    ensures s.convergenceSpeed == ConvergenceSpeed(data) && s.stabilityPoint == StabilityPoint(data)
  {
    ConvergenceSummary(Difference(Level(data[|data| - 1]), Level(data[0])), ConvergenceSpeed(data),
                       StabilityPoint(data), |data|)
  }

  /** The last run among `rs[i..]` with this name and convergence data is `rs[i]` itself. */
  predicate LastWithData(rs: seq<RunRecord>, i: nat)
    requires i < |rs|
  {
    forall j :: i < j < |rs| ==> rs[j].name != rs[i].name || |rs[j].convergence| == 0
  }

  /**
    `analyzeConvergence`: a summary per strategy name that recorded
    convergence data; a later run with the same name overwrites an earlier one.
   */
  function AnalyzeConvergence(rs: seq<RunRecord>): (m: map<string, ConvergenceSummary>)
    ensures forall n :: n in m ==> m[n].iterations > 0 && 0.0 <= m[n].convergenceSpeed <= 1.0
    ensures |rs| > 0 && |rs[|rs| - 1].convergence| > 0 ==>
              var last := rs[|rs| - 1];
              last.name in m && m[last.name] == Summarize(last.convergence)
  {
    if |rs| == 0 then map[]
    else
      var m := AnalyzeConvergence(rs[..|rs| - 1]);
      var last := rs[|rs| - 1];
      if |last.convergence| > 0 then m[last.name := Summarize(last.convergence)] else m
  }

  /** The names of the runs that recorded convergence data. */
  function NamesWithData(rs: seq<RunRecord>): set<string> {
    set i | 0 <= i < |rs| && |rs[i].convergence| > 0 :: rs[i].name
  }

  /** The analysis has an entry exactly for each name that recorded convergence data. */
  lemma {:induction false} AnalyzeConvergenceKeys(rs: seq<RunRecord>)
    ensures AnalyzeConvergence(rs).Keys == NamesWithData(rs)
  {
    if |rs| > 0 {
      AnalyzeConvergenceKeys(rs[..|rs| - 1]);
      NamesWithDataSnoc(rs);
    }
  }

  lemma NamesWithDataSnoc(rs: seq<RunRecord>)
    requires |rs| > 0
    ensures var last := rs[|rs| - 1];
            NamesWithData(rs) == NamesWithData(rs[..|rs| - 1]) + if |last.convergence| > 0 then {last.name} else {}
  {
    var p := rs[..|rs| - 1];
    var last := rs[|rs| - 1];
    var extra: set<string> := if |last.convergence| > 0 then {last.name} else {};
    forall x | x in NamesWithData(rs)
      ensures x in NamesWithData(p) + extra
    {
      var i :| 0 <= i < |rs| && |rs[i].convergence| > 0 && rs[i].name == x;
      if i < |p| {
        assert p[i] == rs[i];
      }
    }
    forall x | x in NamesWithData(p)
      ensures x in NamesWithData(rs)
    {
      var i :| 0 <= i < |p| && |p[i].convergence| > 0 && p[i].name == x;
      assert p[i] == rs[i];
    }
  }

  /** A name's entry summarises the last run under that name that recorded data. */
  lemma {:induction false} AnalyzeConvergenceValues(rs: seq<RunRecord>, i: nat)
    requires i < |rs| && |rs[i].convergence| > 0 && LastWithData(rs, i)
    ensures rs[i].name in AnalyzeConvergence(rs)
    ensures AnalyzeConvergence(rs)[rs[i].name] == Summarize(rs[i].convergence)
  {
    var p := rs[..|rs| - 1];
    if i < |p| {
      LastWithDataPrefix(rs, i);
      AnalyzeConvergenceValues(p, i);
    }
  }

  lemma LastWithDataPrefix(rs: seq<RunRecord>, i: nat)
    requires i < |rs| - 1 && LastWithData(rs, i)
    ensures var p := rs[..|rs| - 1];
            && p[i] == rs[i] && LastWithData(p, i)
            && (|rs[|rs| - 1].convergence| > 0 ==> rs[|rs| - 1].name != rs[i].name)
  {
    var p := rs[..|rs| - 1];
    forall j | i < j < |p|
      ensures p[j].name != p[i].name || |p[j].convergence| == 0
    {
      assert p[j] == rs[j];
    }
  }

  // ---------------------------------------------------------------------------
  // The multi-run result

  datatype ResultRow = ResultRow(name: string, efficiency: real, waste: real, executionTime: real, rank: nat)

  /** `findIndex(sorted => sorted.name === name)`: the first ranking position with this name, or -1. */
  function RankIndex(ranking: seq<RankEntry>, name: string): (k: int)
    ensures -1 <= k < |ranking|
    ensures k >= 0 ==> ranking[k].algorithm == name && forall j :: 0 <= j < k ==> ranking[j].algorithm != name
    ensures k == -1 ==> forall j :: 0 <= j < |ranking| ==> ranking[j].algorithm != name
  {
    if |ranking| == 0 then -1
    else if ranking[0].algorithm == name then 0
    else
      var k := RankIndex(ranking[1..], name);
      if k < 0 then -1 else k + 1
  }

  datatype MultiResult = MultiResult(best: EngineOutput, bestAlgorithm: string, results: seq<ResultRow>,
                                     comparison: Comparison, convergence: map<string, ConvergenceSummary>)

  /**
    The `results` table: one row per successful run, in run order, ranked
    by the first position of its name in the ranking of those runs.
   */
  function Rows(s: seq<RunRecord>): (rows: seq<ResultRow>)
    ensures |rows| == |s|
    ensures forall k :: 0 <= k < |rows| ==> 1 <= rows[k].rank <= |rows|
  {
    var ranking := Ranking(s);
    forall k | 0 <= k < |s|
      ensures RankIndex(ranking, s[k].name) >= 0
    {
      RankedName(s, k);
    }
    seq(|s|, k requires 0 <= k < |s| =>
      ResultRow(s[k].name, s[k].efficiency, s[k].waste, s[k].executionTime, RankIndex(ranking, s[k].name) + 1))
  }

  /** Row `k` copies run `k`, and its rank is a position of the ranking that holds the run's name. */
  lemma RowRank(s: seq<RunRecord>, k: nat)
    requires k < |s|
    ensures var row := Rows(s)[k];
            && row.name == s[k].name && row.efficiency == s[k].efficiency
            && 1 <= row.rank <= |s| && Ranking(s)[row.rank - 1].algorithm == s[k].name
  {
    RankedName(s, k);
  }

  /**
    The `results` table as written: the callback of `successfulResults.map`
    sorts `successfulResults` itself, so the first row reads the first run
    but every later row reads the array in ranking order.
   */
  function RowsAsWritten(s: seq<RunRecord>): (rows: seq<ResultRow>)
    ensures |rows| == |s|
    ensures |s| > 0 ==> rows[0].name == s[0].name
    ensures forall k :: 1 <= k < |s| ==> rows[k].name == Ranking(s)[k].algorithm
  {
    var sorted := SortBy(s, MoreEfficient);
    seq(|s|, k requires 0 <= k < |s| =>
      var r := if k == 0 then s[0] else sorted[k];
      ResultRow(r.name, r.efficiency, r.waste, r.executionTime, RankIndex(Ranking(s), r.name) + 1))
  }

  /**
    Two runs where the second is the more efficient: as written, the table
    lists the first run twice and the winner not at all, while `Rows` lists
    each run once.
   */
  lemma RowsAsWrittenDropsWinner()
    ensures var s := [RunRecord("basic", None, 1.0, 50.0, 50.0, []), RunRecord("genetic", None, 2.0, 90.0, 10.0, [])];
            && RowsAsWritten(s)[0].name == "basic" && RowsAsWritten(s)[1].name == "basic"
            && Rows(s)[0].name == "basic" && Rows(s)[1].name == "genetic"
  {
    var a := RunRecord("basic", None, 1.0, 50.0, 50.0, []);
    var b := RunRecord("genetic", None, 2.0, 90.0, 10.0, []);
    var s := [a, b];
    assert s[1..] == [b];
    assert SortBy([b], MoreEfficient) == [b];
    assert SortBy(s, MoreEfficient) == [b, a];
  }

  /**
    `optimizeWithMultipleAlgorithms`: the winner's output with the
    comparison of the successful runs; each row's rank is the position of
    its name in the comparison's ranking, plus one.
   */
  function MultiRun(algorithms: seq<string>, outputs: seq<Option<EngineOutput>>, times: seq<real>): (r: MultiResult)
    requires |outputs| == |algorithms| && |times| == |algorithms|
    requires AnySuccess(algorithms, outputs)
    ensures r.bestAlgorithm == algorithms[Winner(algorithms, outputs, times)]
    ensures outputs[Winner(algorithms, outputs, times)] == Some(r.best)
    ensures var s := Successful(Records(algorithms, outputs, times));
            && r.results == Rows(s) && r.convergence == AnalyzeConvergence(s)
            && |s| > 0 && r.comparison == Compare(s)
  {
    SomeSuccessful(algorithms, outputs, times);
    var s := Successful(Records(algorithms, outputs, times));
    var w := Winner(algorithms, outputs, times);
    MultiResult(outputs[w].value, algorithms[w], Rows(s), Compare(s), AnalyzeConvergence(s))
  }

  /** The comparison has an entry per results row, there is at least one, and every rank is a ranking position. */
  lemma MultiRunRows(algorithms: seq<string>, outputs: seq<Option<EngineOutput>>, times: seq<real>)
    requires |outputs| == |algorithms| && |times| == |algorithms|
    requires AnySuccess(algorithms, outputs)
    ensures var r := MultiRun(algorithms, outputs, times);
            && |r.results| == |r.comparison.ranking| > 0
            && forall k :: 0 <= k < |r.results| ==> 1 <= r.results[k].rank <= |r.results|
  {
    SomeSuccessful(algorithms, outputs, times);
    var s := Successful(Records(algorithms, outputs, times));
    var rows := Rows(s);
    assert MultiRun(algorithms, outputs, times).results == rows;
    assert MultiRun(algorithms, outputs, times).comparison == Compare(s);
  }

  /** The returned result is a successful run's, at least as efficient as every other successful run. */
  lemma MultiRunBest(algorithms: seq<string>, outputs: seq<Option<EngineOutput>>, times: seq<real>)
    requires |outputs| == |algorithms| && |times| == |algorithms|
    requires AnySuccess(algorithms, outputs)
    ensures var r := MultiRun(algorithms, outputs, times);
            && (exists i :: 0 <= i < |algorithms| && algorithms[i] == r.bestAlgorithm && outputs[i] == Some(r.best))
            && Known(r.bestAlgorithm)
            && forall i :: 0 <= i < |algorithms| && Known(algorithms[i]) && outputs[i].Some? ==>
                 outputs[i].value.efficiency <= r.best.efficiency
  {
    var w := Winner(algorithms, outputs, times);
    var r := MultiRun(algorithms, outputs, times);
    assert r.best == outputs[w].value && r.bestAlgorithm == algorithms[w];
  }

  /** Every run's name appears in the ranking. */
  lemma RankedName(rs: seq<RunRecord>, k: nat)
    requires k < |rs|
    ensures RankIndex(Ranking(rs), rs[k].name) >= 0
  {
    var ranking := Ranking(rs);
    assert RunKey(rs[k]) == MapSeq(rs, RunKey)[k];
    assert RunKey(rs[k]) in multiset(MapSeq(ranking, EntryKey));
    var j :| 0 <= j < |ranking| && MapSeq(ranking, EntryKey)[j] == RunKey(rs[k]);
    assert ranking[j].algorithm == rs[k].name;
  }

  // ---------------------------------------------------------------------------
  // Hybrid, pairwise and adaptive strategies

  function OutputEfficiency(o: EngineOutput): real {
    o.efficiency
  }

  datatype HybridResult = HybridResult(best: EngineOutput, bestAlgorithm: string, stages: seq<real>, improvement: real)

  /**
    `optimizeWithHybridApproach`: all three engines run, the first most
    efficient wins, and the improvement is measured against the basic
    engine, where the `reduce` starts.
   */
  function Hybrid(basic: EngineOutput, genetic: EngineOutput, annealing: EngineOutput): (r: HybridResult)
    ensures r.improvement >= 0.0
    ensures r.improvement == r.best.efficiency - basic.efficiency
    ensures r.best.efficiency >= genetic.efficiency && r.best.efficiency >= annealing.efficiency
    ensures r.stages == [basic.efficiency, genetic.efficiency, annealing.efficiency]
    ensures r.bestAlgorithm == "basic" ==> r.best == basic
    ensures r.bestAlgorithm == "genetic" ==> r.best == genetic && genetic.efficiency > basic.efficiency
    ensures r.bestAlgorithm == "annealing" ==> r.best == annealing && annealing.efficiency > basic.efficiency
                                               && annealing.efficiency > genetic.efficiency
    ensures r.bestAlgorithm in {"basic", "genetic", "annealing"}
  {
    var outs := [basic, genetic, annealing];
    var k := ArgMaxFirst(outs, OutputEfficiency);
    assert OutputEfficiency(outs[0]) <= OutputEfficiency(outs[k]);
    assert OutputEfficiency(outs[1]) <= OutputEfficiency(outs[k]);
    assert OutputEfficiency(outs[2]) <= OutputEfficiency(outs[k]);
    var stages := [basic.efficiency, genetic.efficiency, annealing.efficiency];
    if k == 0 then HybridResult(basic, "basic", stages, 0.0)
    else if k == 1 then
      assert OutputEfficiency(outs[0]) < OutputEfficiency(outs[k]);
      HybridResult(genetic, "genetic", stages, genetic.efficiency - basic.efficiency)
    else
      assert OutputEfficiency(outs[0]) < OutputEfficiency(outs[k]);
      assert OutputEfficiency(outs[1]) < OutputEfficiency(outs[k]);
      HybridResult(annealing, "annealing", stages, annealing.efficiency - basic.efficiency)
  }

  /**
    `runBasicWithAnnealing` / `runGeneticWithAnnealing`: the annealer's
    result only when strictly more efficient, so a tie keeps the first.
   */
  function PreferAnnealing(first: EngineOutput, annealing: EngineOutput): (r: EngineOutput)
    ensures r == first || r == annealing
    ensures r.efficiency == MaxReal(first.efficiency, annealing.efficiency)
    ensures annealing.efficiency <= first.efficiency ==> r == first
  {
    if annealing.efficiency > first.efficiency then annealing else first
  }

  datatype Strategy = BasicWithAnnealing | GeneticWithAnnealing | GeneticAndAnnealingRuns

  /** The problem size `optimizeWithAdaptiveParameters` measures: piece units times stock types. */
  function Complexity(pieces: seq<Piece>, stocks: seq<Stock>): nat {
    SumQuantities(pieces) * |stocks|
  }

  function Tier(s: Strategy): nat {
    match s
    case BasicWithAnnealing => 0
    case GeneticWithAnnealing => 1
    case GeneticAndAnnealingRuns => 2
  }

  /** Below 50 the fast pair, below 200 the genetic pair, above that the multi-run. */
  function ChooseStrategy(complexity: nat): (s: Strategy)
    ensures s == BasicWithAnnealing <==> complexity < 50
    ensures s == GeneticAndAnnealingRuns <==> complexity >= 200
  {
    if complexity < 50 then BasicWithAnnealing
    else if complexity < 200 then GeneticWithAnnealing
    else GeneticAndAnnealingRuns
  }

  /** A larger problem never gets a lighter strategy. */
  lemma StrategyMonotone(c1: nat, c2: nat)
    requires c1 <= c2
    ensures Tier(ChooseStrategy(c1)) <= Tier(ChooseStrategy(c2))
  {
  }

  /**
    `optimizeWithAdaptiveParameters`, given what each engine returns and the
    two run times the multi-run records; every engine is assumed to return
    (an engine that throws makes the pair strategies throw too).
   */
  function Adaptive(pieces: seq<Piece>, stocks: seq<Stock>, basic: EngineOutput, genetic: EngineOutput,
                    annealing: EngineOutput, times: seq<real>): (r: EngineOutput)
    requires |times| == 2
    ensures Complexity(pieces, stocks) < 50 ==>
              r.efficiency == MaxReal(basic.efficiency, annealing.efficiency) && (r == basic || r == annealing)
    ensures Complexity(pieces, stocks) >= 50 ==>
              r.efficiency == MaxReal(genetic.efficiency, annealing.efficiency) && (r == genetic || r == annealing)
    ensures Complexity(pieces, stocks) >= 50 && annealing.efficiency <= genetic.efficiency ==> r == genetic
    ensures Complexity(pieces, stocks) < 50 && annealing.efficiency <= basic.efficiency ==> r == basic
  {
    match ChooseStrategy(Complexity(pieces, stocks))
    case BasicWithAnnealing => PreferAnnealing(basic, annealing)
    case GeneticWithAnnealing => PreferAnnealing(genetic, annealing)
    case GeneticAndAnnealingRuns =>
      PairRunPrefersAnnealing(genetic, annealing, times);
      MultiRun(["genetic", "annealing"], [Some(genetic), Some(annealing)], times).best
  }

  /** A multi-run of the genetic and the annealing engine picks between them as the pair strategies do. */
  lemma PairRunPrefersAnnealing(genetic: EngineOutput, annealing: EngineOutput, times: seq<real>)
    requires |times| == 2
    ensures AnySuccess(["genetic", "annealing"], [Some(genetic), Some(annealing)])
    ensures MultiRun(["genetic", "annealing"], [Some(genetic), Some(annealing)], times).best
            == PreferAnnealing(genetic, annealing)
  {
    var algorithms := ["genetic", "annealing"];
    var outputs := [Some(genetic), Some(annealing)];
    assert Known(algorithms[0]) && outputs[0].Some?;
    assert Known(algorithms[1]) && outputs[1].Some?;
    var w := Winner(algorithms, outputs, times);
    assert w == 0 || w == 1;
  }

  /** The basic engine is handed millimetres: every extent times ten, everything else as it was. */
  lemma BasicInputsScaled(pieces: seq<Piece>, stocks: seq<Stock>)
    ensures var ps := PiecesToMillimetres(pieces);
            forall i :: 0 <= i < |pieces| ==>
              ps[i] == pieces[i].(length := 10.0 * pieces[i].length, width := 10.0 * pieces[i].width,
                                  height := 10.0 * pieces[i].height)
    ensures var ss := StocksToMillimetres(stocks);
            forall i :: 0 <= i < |stocks| ==>
              ss[i] == stocks[i].(length := 10.0 * stocks[i].length, width := 10.0 * stocks[i].width,
                                  height := 10.0 * stocks[i].height)
  {
  }
}
