/** EvolutionBatch: runs the word search many times with generated goals,
    averages the generation counts, and sweeps one experiment variable over
    a range of values, logging one summary per value. */
module Batch {
  import opened Genome
  import opened Outcomes
  import opened Evolution
  import Breeding

  /** A rate num / den, kept exact; the source holds it as a float. */
  datatype Rate = Rate(num: nat, den: nat)

  predicate ProperRate(r: Rate) {
    0 < r.den && r.num <= r.den
  }

  /** What analyze_results reports: the average generation count and the
      parameters of the batch. */
  datatype Report = Report(avgGenerations: nat, iterations: nat, wordLength: nat, popSize: nat,
                           mutations: nat, numOfBreeders: nat, fitBreeders: nat)

  /** int(survival_rate * pop_size). */
  function BreederCount(survival: Rate, popSize: nat): (count: nat)
    requires survival.den > 0
    ensures count * survival.den <= survival.num * popSize < (count + 1) * survival.den
  {
    survival.num * popSize / survival.den
  }

  /** int(survival_rate * pop_size * fittest_selection_rate). */
  function FitBreederCount(survival: Rate, fittest: Rate, popSize: nat): (count: nat)
    requires survival.den > 0 && fittest.den > 0
    ensures count * (survival.den * fittest.den) <= survival.num * popSize * fittest.num
    ensures survival.num * popSize * fittest.num < (count + 1) * (survival.den * fittest.den)
  {
    survival.num * popSize * fittest.num / (survival.den * fittest.den)
  }

  /** generate_config, given the goal word it draws: logging is off for the
      runs of a batch. */
  function GenerateConfig(goal: string, popSize: nat, mutations: nat, survival: Rate, fittest: Rate): (c: Config)
    requires survival.den > 0 && fittest.den > 0
    ensures c.goal == goal && c.popSize == popSize && c.mutations == mutations && !c.logAllGenerations
  {
    Config(goal, popSize, mutations, BreederCount(survival, popSize), FitBreederCount(survival, fittest, popSize), false)
  }

  lemma ZeroMultiple(k: int, m: int)
    requires m > 0 && -m < k * m < m
    ensures k == 0
  {
  }

  lemma DivUnique(n: nat, m: nat, q: int, r: int)
    requires m > 0 && 0 <= r < m && n == q * m + r
    ensures n / m == q
  {
    var q2, r2 := n / m, n % m;
    assert n == q2 * m + r2;
    assert (q - q2) * m == r2 - r;
    ZeroMultiple(q - q2, m);
  }

  lemma DivAtLeast(s: nat, n: nat, lo: nat)
    requires n > 0 && n * lo <= s
    ensures lo <= s / n
  {
    var q, r := s / n, s % n;
    assert s == q * n + r;
    assert (lo - q) * n == n * lo - q * n;
    BelowOne(lo - q, n);
  }

  lemma BelowOne(k: int, m: int)
    requires m > 0 && k * m < m
    ensures k < 1
  {
  }

  lemma DivMonotone(x: nat, y: nat, z: nat)
    requires x <= y && z > 0
    ensures x / z <= y / z
  {
    assert z * (x / z) <= x;
    DivAtLeast(y, z, x / z);
  }

  lemma DivCancel(a: nat, d: nat, g: nat)
    requires d > 0 && g > 0
    ensures a * g / (d * g) == a / d
  {
    var q, r := a / d, a % d;
    assert a == q * d + r;
    assert a * g == q * (d * g) + r * g;
    assert r * g < d * g;
    DivUnique(a * g, d * g, q, r * g);
  }

  /** With both rates at most one, the fittest share never exceeds the
      breeders and the breeders never exceed the population, so
      RANDOM_BREEDERS is not negative and every generation can select. */
  lemma ConfigFits(survival: Rate, fittest: Rate, popSize: nat)
    requires ProperRate(survival) && ProperRate(fittest)
    ensures FitBreederCount(survival, fittest, popSize) <= BreederCount(survival, popSize) <= popSize
  {
    var a := survival.num * popSize;
    DivMonotone(a * fittest.num, a * fittest.den, survival.den * fittest.den);
    DivCancel(a, survival.den, fittest.den);
    DivMonotone(a, survival.den * popSize, survival.den);
    DivCancel(popSize, 1, survival.den);
    assert survival.den * popSize == popSize * survival.den;
  }

  /** The sum of the generation counts of some runs. */
  function SumGenerations(results: seq<RunStats>): (total: nat)
    ensures forall k :: 0 <= k < |results| ==> results[k].generations <= total
  {
    if results == [] then 0 else SumGenerations(results[..|results| - 1]) + results[|results| - 1].generations
  }

  /** The sum lies between n times the fewest and n times the most
      generations of the n runs. */
  lemma {:induction false} SumBounds(results: seq<RunStats>, lo: nat, hi: nat)
    requires forall k :: 0 <= k < |results| ==> lo <= results[k].generations <= hi
    ensures |results| * lo <= SumGenerations(results) <= |results| * hi
  {
    if results != [] {
      var n := |results| - 1;
      var prefix := results[..n];
      assert forall k :: 0 <= k < n ==> prefix[k] == results[k];
      SumBounds(prefix, lo, hi);
      assert SumGenerations(results) == SumGenerations(prefix) + results[n].generations;
      Breeding.MulSucc(n, lo);
      Breeding.MulSucc(n, hi);
    }
  }

  /** The runs from position start on add at least lo generations each to
      the total. */
  lemma {:induction false} SumFromAtLeast(results: seq<RunStats>, start: nat, lo: nat)
    requires start <= |results|
    requires forall k :: start <= k < |results| ==> lo <= results[k].generations
    ensures (|results| - start) * lo <= SumGenerations(results)
    decreases |results|
  {
    if start < |results| {
      var n := |results| - 1;
      SumFromAtLeast(results[..n], start, lo);
      Breeding.MulSucc(n - start, lo);
    }
  }

  /** The generations part of analyze_results: the total of the runs'
      generation counts, divided by the iteration count and truncated. */
  method AverageGenerations(results: seq<RunStats>, iterations: nat) returns (avg: nat)
    requires iterations > 0
    ensures avg == SumGenerations(results) / iterations
  {
    var total := 0;
    for i := 0 to |results|
      invariant total == SumGenerations(results[..i])
    {
      assert results[..i + 1][..i] == results[..i];
      total := total + results[i].generations;
    }
    assert results[..|results|] == results;
    avg := total / iterations;
  }

  /** When the batch holds exactly one run per iteration, the average lies
      between the fewest and the most generations any run took. */
  lemma AverageBounds(results: seq<RunStats>, iterations: nat, lo: nat, hi: nat)
    requires |results| == iterations > 0
    requires forall k :: 0 <= k < |results| ==> lo <= results[k].generations <= hi
    ensures lo <= SumGenerations(results) / iterations <= hi
  {
    SumBounds(results, lo, hi);
    DivMonotone(iterations * lo, SumGenerations(results), iterations);
    DivMonotone(SumGenerations(results), iterations * hi, iterations);
    DivCancel(lo, 1, iterations);
    DivCancel(hi, 1, iterations);
    assert iterations * lo == lo * iterations;
    assert iterations * hi == hi * iterations;
  }

  /** The values range(init, final, delta) visits: from init in steps of
      delta while short of final (below it for a positive step, above it for
      a negative one). */
  function RangeValues(init: int, delta: int, final: int): (values: seq<int>)
    requires delta != 0
    ensures forall v :: v in values ==> if delta > 0 then init <= v < final else final < v <= init
    decreases if delta > 0 then final - init else init - final
  {
    if (delta > 0 && init < final) || (delta < 0 && init > final)
    then [init] + RangeValues(init + delta, delta, final)
    else []
  }

  /** The values vary_pop_size and vary_mutations set, in order: the range,
      then final itself. */
  function Sweep(init: int, delta: int, final: int): (values: seq<int>)
    requires delta != 0
    ensures |values| > 0 && values[|values| - 1] == final
  {
    RangeValues(init, delta, final) + [final]
  }

  /** The k-th value of the range is init + k * delta, strictly short of
      final, and the range stops at the first such value that is not. */
  lemma {:induction false} RangeValuesSteps(init: int, delta: int, final: int)
    requires delta != 0
    ensures var r := RangeValues(init, delta, final);
            && (forall k :: 0 <= k < |r| ==> r[k] == init + k * delta)
            && (forall k :: 0 <= k < |r| ==> if delta > 0 then r[k] < final else r[k] > final)
            && (if delta > 0 then init + |r| * delta >= final else init + |r| * delta <= final)
    decreases if delta > 0 then final - init else init - final
  {
    var r := RangeValues(init, delta, final);
    if (delta > 0 && init < final) || (delta < 0 && init > final) {
      RangeValuesSteps(init + delta, delta, final);
      var rest := RangeValues(init + delta, delta, final);
      assert r == [init] + rest;
      forall k | 1 <= k < |r| ensures r[k] == init + k * delta {
        assert r[k] == rest[k - 1];
        StepShift(k - 1, delta);
      }
      StepShift(|rest|, delta);
    }
  }

  /** The sweep never repeats a value: it runs strictly up for a positive
      step and strictly down for a negative one, so final appears once,
      whether or not init + k * delta lands on it. */
  lemma SweepMonotone(init: int, delta: int, final: int)
    requires delta != 0
    ensures var s := Sweep(init, delta, final);
            forall i, j :: 0 <= i < j < |s| ==> if delta > 0 then s[i] < s[j] else s[i] > s[j]
  {
    RangeValuesSteps(init, delta, final);
    var r := RangeValues(init, delta, final);
    var s := Sweep(init, delta, final);
    forall i, j | 0 <= i < j < |s| ensures if delta > 0 then s[i] < s[j] else s[i] > s[j] {
      assert s[i] == r[i];
      if j < |r| {
        assert s[j] == r[j];
        StepGap(i, j, delta);
      }
    }
  }

  lemma StepShift(k: int, delta: int)
    ensures (k + 1) * delta == k * delta + delta
  {
  }

  lemma StepGap(i: int, j: int, delta: int)
    requires i < j
    ensures delta > 0 ==> i * delta < j * delta
    ensures delta < 0 ==> i * delta > j * delta
  {
    assert j * delta - i * delta == (j - i) * delta;
  }

  /** generate_goal_word: `length` random letters appended one at a time. */
  method GenerateGoalWord(length: nat, rng: Rng, cursor: nat) returns (goal: string, next: nat)
    ensures goal == RandomWord(rng, cursor, length) && |goal| == length && IsLowercase(goal)
    ensures next == cursor + length
  {
    goal, next := DrawWord(length, rng, cursor);
  }

  /** run_experiment: a fresh WordEvolution with the given configuration,
      evolved until it converges (within `fuel` generations). No breeders
      make its set-up fail with a division by zero. A converged run took at
      least two generations, since the first population is never checked. */
  method RunExperiment(config: Config, rng: Rng, cursor: nat, fuel: nat)
    returns (result: Result<RunStats>, next: nat)
    requires |config.goal| > 0
    ensures config.numOfBreeders == 0 ==> next == cursor
    ensures result == Err(ZeroBreeders) <==> config.numOfBreeders == 0
    ensures result.Ok? ==> result.value.generations >= 2
    ensures result.Err? ==> result.error in {ZeroBreeders, SampleSizeInvalid, OutOfFuel}
    ensures result == Err(SampleSizeInvalid) ==>
              !(config.fitBreeders <= config.numOfBreeders <= config.popSize)
  {
    if config.numOfBreeders == 0 {
      return Err(ZeroBreeders), cursor;
    }
    var experiment := new WordEvolution(config, rng, cursor);
    result := experiment.Evolve(rng, fuel);
    next := experiment.cursor;
  }

  class EvolutionBatch {
    const iterations: nat
    /** LENGTH: the length of every generated goal word. */
    const length: nat
    const survivalRate: Rate
    const fittestSelectionRate: Rate
    var popSize: nat
    var mutations: nat
    var results: seq<RunStats>
    var logValues: seq<Report>
    /** The raw values of the random source used so far. */
    var cursor: nat

    ghost predicate Valid()
      reads this
    {
      iterations > 0 && length > 0 && ProperRate(survivalRate) && ProperRate(fittestSelectionRate)
    }

    /** 100 iterations, goals of 16 letters, 100 individuals, one mutation,
        survival rate 0.1 and fittest selection rate 0.8; nothing run or
        logged yet. */
    constructor (cursor: nat)
      ensures Valid()
      ensures iterations == 100 && length == 16 && popSize == 100 && mutations == 1
      ensures survivalRate == Rate(1, 10) && fittestSelectionRate == Rate(8, 10)
      ensures results == [] && logValues == [] && this.cursor == cursor
    {
      iterations := 100;
      length := 16;
      survivalRate := Rate(1, 10);
      fittestSelectionRate := Rate(8, 10);
      popSize := 100;
      mutations := 1;
      results := [];
      logValues := [];
      this.cursor := cursor;
    }

    /** The report analyze_results gives for the results gathered so far. */
    function Summary(): (r: Report)
      requires Valid()
      reads this
      ensures r.avgGenerations == SumGenerations(results) / iterations
    {
      Report(SumGenerations(results) / iterations, iterations, length, popSize, mutations,
             BreederCount(survivalRate, popSize), FitBreederCount(survivalRate, fittestSelectionRate, popSize))
    }

    /** analyze_results: the average generation count over the iteration
        count (not over the number of results), and the batch parameters. */
    method AnalyzeResults() returns (report: Report)
      requires Valid()
      ensures report == Summary()
    {
      var avg := AverageGenerations(results, iterations);
      report := Report(avg, iterations, length, popSize, mutations,
                       BreederCount(survivalRate, popSize), FitBreederCount(survivalRate, fittestSelectionRate, popSize));
    }

    /** run_experiment_batch: `iterations` runs, each with a freshly drawn
        goal, their results appended; then the summary. A failing run ends
        the batch with its error. With a population too small for a single
        breeder every run fails that way; otherwise a run only fails by
        running out of fuel. */
    method RunExperimentBatch(rng: Rng, fuel: nat) returns (report: Result<Report>)
      requires Valid()
      modifies this
      ensures Valid()
      ensures popSize == old(popSize) && mutations == old(mutations) && logValues == old(logValues)
      ensures |results| >= |old(results)| && results[..|old(results)|] == old(results)
      ensures forall k :: |old(results)| <= k < |results| ==> results[k].generations >= 2
      ensures report.Ok? ==> |results| == |old(results)| + iterations && report.value == Summary()
      ensures BreederCount(survivalRate, popSize) == 0 ==> report == Err(ZeroBreeders) && results == old(results)
      ensures report.Err? && BreederCount(survivalRate, popSize) > 0 ==> report.error == OutOfFuel
    {
      ConfigFits(survivalRate, fittestSelectionRate, popSize);
      var i := 0;
      while i < iterations
        invariant Valid()
        invariant i <= iterations
        invariant BreederCount(survivalRate, popSize) == 0 ==> i == 0
        invariant popSize == old(popSize) && mutations == old(mutations) && logValues == old(logValues)
        invariant |results| == |old(results)| + i && results[..|old(results)|] == old(results)
        invariant forall k :: |old(results)| <= k < |results| ==> results[k].generations >= 2
      {
        var goal, next := GenerateGoalWord(length, rng, cursor);
        var config := GenerateConfig(goal, popSize, mutations, survivalRate, fittestSelectionRate);
        assert config.numOfBreeders == BreederCount(survivalRate, popSize);
        assert config.fitBreeders == FitBreederCount(survivalRate, fittestSelectionRate, popSize);
        var result;
        result, next := RunExperiment(config, rng, next, fuel);
        if result.Err? {
          cursor := next;
          return Err(result.error);
        }
        results, cursor := results + [result.value], next;
        i := i + 1;
      }
      var summary := AnalyzeResults();
      report := Ok(summary);
    }

    /** log_result: one more logged report, and the results cleared for the
        next batch. */
    method LogResult(result: Report)
      modifies this
      ensures logValues == old(logValues) + [result] && results == []
      ensures popSize == old(popSize) && mutations == old(mutations) && cursor == old(cursor)
    {
      logValues := logValues + [result];
      results := [];
    }

    /** One value of a sweep: run a batch and log its report. A failing batch
        logs nothing. */
    method RunAndLog(rng: Rng, fuel: nat) returns (outcome: Result<()>, ghost gathered: seq<RunStats>)
      requires Valid()
      modifies this
      ensures Valid()
      ensures popSize == old(popSize) && mutations == old(mutations)
      ensures outcome.Err? ==> outcome.error in {ZeroBreeders, OutOfFuel} && logValues == old(logValues)
      ensures outcome.Ok? ==> && results == []
                              && |gathered| == |old(results)| + iterations
                              && gathered[..|old(results)|] == old(results)
                              && (forall k :: |old(results)| <= k < |gathered| ==> gathered[k].generations >= 2)
                              && |logValues| == |old(logValues)| + 1
                              && logValues[..|old(logValues)|] == old(logValues)
                              && logValues[|old(logValues)|]
                                 == Report(SumGenerations(gathered) / iterations, iterations, length, popSize, mutations,
                                           BreederCount(survivalRate, popSize),
                                           FitBreederCount(survivalRate, fittestSelectionRate, popSize))
                              && logValues[|old(logValues)|].avgGenerations >= 2
    {
      var report := RunExperimentBatch(rng, fuel);
      gathered := results;
      if report.Err? {
        return Err(report.error), gathered;
      }
      SumFromAtLeast(gathered, |old(results)|, 2);
      DivAtLeast(SumGenerations(gathered), iterations, 2);
      LogResult(report.value);
      outcome := Ok(());
    }

    /** vary_pop_size: one logged batch for every population size of
        range(init, final, delta), then one for final itself. A zero step is
        refused before anything runs. */
    method VaryPopSize(init: nat, delta: int, final: nat, rng: Rng, fuel: nat) returns (outcome: Result<()>)
      requires Valid()
      modifies this
      ensures Valid()
      ensures delta == 0 ==> outcome == Err(ZeroStep) && unchanged(this)
      ensures outcome.Err? ==> outcome.error in {ZeroStep, ZeroBreeders, OutOfFuel}
      ensures mutations == old(mutations)
      ensures |logValues| >= |old(logValues)| && logValues[..|old(logValues)|] == old(logValues)
      ensures outcome.Ok? ==> && delta != 0 && popSize == final && results == []
                              && |logValues| == |old(logValues)| + |Sweep(init, delta, final)|
                              && forall k :: |old(logValues)| <= k < |logValues| ==>
                                   && logValues[k].popSize == Sweep(init, delta, final)[k - |old(logValues)|]
                                   && logValues[k].mutations == mutations
                                   && logValues[k].iterations == iterations
                                   && logValues[k].avgGenerations >= 2
    {
      if delta == 0 {
        return Err(ZeroStep);
      }
      var values := RangeValues(init, delta, final);
      var start := |logValues|;
      for idx := 0 to |values|
        invariant Valid() && mutations == old(mutations)
        invariant |logValues| == start + idx && logValues[..start] == old(logValues)
        invariant forall k :: start <= k < |logValues| ==> logValues[k].popSize == values[k - start]
        invariant forall k :: start <= k < |logValues| ==> logValues[k].mutations == mutations
        invariant forall k :: start <= k < |logValues| ==> logValues[k].iterations == iterations
        invariant forall k :: start <= k < |logValues| ==> logValues[k].avgGenerations >= 2
      {
        assert values[idx] in values;
        popSize := values[idx];
        ghost var before := logValues;
        ghost var gathered;
        outcome, gathered := RunAndLog(rng, fuel);
        if outcome.Err? {
          return;
        }
        assert forall k :: 0 <= k < |before| ==> logValues[k] == before[k];
      }
      popSize := final;
      ghost var before := logValues;
      ghost var gathered;
      outcome, gathered := RunAndLog(rng, fuel);
      if outcome.Ok? {
        assert forall k :: 0 <= k < |before| ==> logValues[k] == before[k];
      }
    }

    /** vary_mutations: one logged batch for every mutation count of
        range(init, final, delta), then one for final itself. */
    method VaryMutations(init: nat, delta: int, final: nat, rng: Rng, fuel: nat) returns (outcome: Result<()>)
      requires Valid()
      modifies this
      ensures Valid()
      ensures delta == 0 ==> outcome == Err(ZeroStep) && unchanged(this)
      ensures outcome.Err? ==> outcome.error in {ZeroStep, ZeroBreeders, OutOfFuel}
      ensures popSize == old(popSize)
      ensures |logValues| >= |old(logValues)| && logValues[..|old(logValues)|] == old(logValues)
      ensures outcome.Ok? ==> && delta != 0 && mutations == final && results == []
                              && |logValues| == |old(logValues)| + |Sweep(init, delta, final)|
                              && forall k :: |old(logValues)| <= k < |logValues| ==>
                                   && logValues[k].mutations == Sweep(init, delta, final)[k - |old(logValues)|]
                                   && logValues[k].popSize == popSize
                                   && logValues[k].iterations == iterations
                                   && logValues[k].avgGenerations >= 2
    {
      if delta == 0 {
        return Err(ZeroStep);
      }
      var values := RangeValues(init, delta, final);
      var start := |logValues|;
      for idx := 0 to |values|
        invariant Valid() && popSize == old(popSize)
        invariant |logValues| == start + idx && logValues[..start] == old(logValues)
        invariant forall k :: start <= k < |logValues| ==> logValues[k].mutations == values[k - start]
        invariant forall k :: start <= k < |logValues| ==> logValues[k].popSize == popSize
        invariant forall k :: start <= k < |logValues| ==> logValues[k].iterations == iterations
        invariant forall k :: start <= k < |logValues| ==> logValues[k].avgGenerations >= 2
      {
        assert values[idx] in values;
        mutations := values[idx];
        ghost var before := logValues;
        ghost var gathered;
        outcome, gathered := RunAndLog(rng, fuel);
        if outcome.Err? {
          return;
        }
        assert forall k :: 0 <= k < |before| ==> logValues[k] == before[k];
      }
      mutations := final;
      ghost var before := logValues;
      ghost var gathered;
      outcome, gathered := RunAndLog(rng, fuel);
      if outcome.Ok? {
        assert forall k :: 0 <= k < |before| ==> logValues[k] == before[k];
      }
    }
  }
}
