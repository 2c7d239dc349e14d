/** The WordEvolution engine: a population of random lowercase words evolves
    towards a goal word by selection (the fittest plus a random few) and
    mutation, one generation at a time, until some individual equals the goal. */
module Evolution {
  import opened Genome
  import opened Selection
  import opened Breeding
  import opened Outcomes
  import opened RunLog

  /** The independent experiment variables and the logging setting. */
  datatype Config = Config(goal: string, popSize: nat, mutations: nat, numOfBreeders: nat,
                           fitBreeders: nat, logAllGenerations: bool)

  /** What get_evolution_stats reports: the generation counter at the end. */
  datatype RunStats = RunStats(generations: nat)

  /** What a generation step reads of the run's settings, as __init__ leaves
      them: GOAL, MUTATIONS, MUTATIONS_PER_BREEDER, FIT_BREEDERS,
      RANDOM_BREEDERS (which may be negative) and LOG_ALL_GENERATIONS. */
  datatype Settings = Settings(goal: string, mutations: nat, mutationsPerBreeder: nat, fitBreeders: nat,
                               randomBreeders: int, logAllGenerations: bool)

  /** One guess of generate_population: `length` random letters appended one
      at a time. */
  method DrawWord(length: nat, rng: Rng, cursor: nat) returns (word: string, next: nat)
    ensures word == RandomWord(rng, cursor, length)
    ensures next == cursor + length
  {
    word := "";
    next := cursor;
    for j := 0 to length
      invariant word == RandomWord(rng, cursor, j)
      invariant next == cursor + j
    {
      word := word + [Letter(Raw(rng, next))];
      next := next + 1;
    }
  }

  /** generate_population: popSize guesses of wordLength letters each. */
  method GeneratePopulation(popSize: nat, wordLength: nat, rng: Rng, cursor: nat)
    returns (population: seq<string>, next: nat)
    ensures population == RandomWords(rng, cursor, popSize, wordLength)
    ensures |population| == popSize && Words(population, wordLength)
    ensures next == cursor + popSize * wordLength
  {
    population := [];
    next := cursor;
    for i := 0 to popSize
      invariant population == RandomWords(rng, cursor, i, wordLength)
      invariant next == cursor + i * wordLength
    {
      var guess;
      guess, next := DrawWord(wordLength, rng, next);
      population := population + [guess];
      MulSucc(i, wordLength);
    }
  }

  /** check_fitness as a match count: the source's score is this count divided
      by len(GOAL), so it is 1.0 exactly when the count is |goal|. */
  method CheckFitness(individual: string, goal: string) returns (matches: nat)
    requires |individual| == |goal|
    ensures matches == Agreements(individual, goal)
    ensures matches <= |goal|
    ensures matches == |goal| <==> individual == goal
  {
    matches := 0;
    for i := 0 to |goal|
      invariant matches == Agreements(individual[..i], goal[..i])
    {
      assert individual[..i + 1][..i] == individual[..i];
      assert goal[..i + 1][..i] == goal[..i];
      if individual[i] == goal[i] {
        matches := matches + 1;
      }
    }
    assert individual[..|goal|] == individual;
    assert goal[..|goal|] == goal;
    PerfectIffEqual(individual, goal);
  }


  /** The fitness list of a population: each word's match count, in order. */
  function Scores(population: seq<string>, goal: string): (fitness: seq<nat>)
    requires forall i :: 0 <= i < |population| ==> |population[i]| == |goal|
    ensures |fitness| == |population|
    ensures forall i :: 0 <= i < |fitness| ==> fitness[i] <= |goal|
  {
    seq(|population|, i requires 0 <= i < |population| => Agreements(population[i], goal))
  }

  /** Every score is at most len(GOAL), and a perfect score (1.0 in fitness)
      appears exactly when the goal itself is in the population. */
  lemma ScoresPerfect(population: seq<string>, goal: string)
    requires forall i :: 0 <= i < |population| ==> |population[i]| == |goal|
    ensures forall i :: 0 <= i < |population| ==> Scores(population, goal)[i] <= |goal|
    ensures |goal| in Scores(population, goal) <==> goal in population
  {
    var fitness := Scores(population, goal);
    forall i | 0 <= i < |population|
      ensures fitness[i] <= |goal| && (fitness[i] == |goal| <==> population[i] == goal)
    {
      PerfectIffEqual(population[i], goal);
    }
  }

  /** check_population_fitness: the score of each individual, in population
      order. */
  method CheckPopulationFitness(population: seq<string>, goal: string) returns (fitness: seq<nat>)
    requires forall i :: 0 <= i < |population| ==> |population[i]| == |goal|
    ensures fitness == Scores(population, goal)
  {
    fitness := [];
    for i := 0 to |population|
      invariant |fitness| == i
      invariant forall j :: 0 <= j < i ==> fitness[j] == Agreements(population[j], goal)
    {
      var score := CheckFitness(population[i], goal);
      fitness := fitness + [score];
    }
  }

  /** select_breeders on values: the fittest block and the sample, or an
      error when random.sample refuses the count, because it is negative or
      larger than the pairs left after the fittest. */
  function BreederSelection(population: seq<string>, fitness: seq<nat>, fitBreeders: nat, randomBreeders: int,
                     rng: Rng, cursor: nat): (r: Result<seq<Scored>>)
    ensures r.Err? <==> !SampleFits(Min(|population|, |fitness|), fitBreeders, randomBreeders)
    ensures r.Err? ==> r.error == SampleSizeInvalid
    ensures r.Ok? ==> |r.value| == Min(fitBreeders, Min(|population|, |fitness|)) + randomBreeders
  {
    if SampleFits(Min(|population|, |fitness|), fitBreeders, randomBreeders)
    then Ok(Breeders(Zip(population, fitness), fitBreeders, randomBreeders, rng, cursor))
    else Err(SampleSizeInvalid)
  }

  /** select_breeders: pair each individual with its score, sort the pairs by
      descending score, keep the first fitBreeders and sample randomBreeders
      more from the rest. */
  method SelectBreeders(population: seq<string>, fitness: seq<nat>, fitBreeders: nat,
                        randomBreeders: int, rng: Rng, cursor: nat)
    returns (breeders: Result<seq<Scored>>, next: nat)
    ensures breeders == BreederSelection(population, fitness, fitBreeders, randomBreeders, rng, cursor)
    ensures next == if breeders.Ok? then cursor + randomBreeders else cursor
    ensures breeders.Ok? ==>
              && |breeders.value| == Min(fitBreeders, Min(|population|, |fitness|)) + randomBreeders
              && (forall b :: 0 <= b < |breeders.value| ==> breeders.value[b].individual in population)
  {
    var n := Min(|population|, |fitness|);
    var pairs: seq<Scored> := [];
    for i := 0 to n
      invariant |pairs| == i
      invariant forall j :: 0 <= j < i ==> pairs[j] == Scored(population[j], fitness[j])
    {
      pairs := pairs + [Scored(population[i], fitness[i])];
    }
    assert pairs == Zip(population, fitness);
    var sorted := SortByFitness(pairs);
    var f := Min(fitBreeders, n);
    if !(0 <= randomBreeders <= |sorted| - f) {
      return Err(SampleSizeInvalid), cursor;
    }
    var fittest := sorted[..f];
    var luckiest := Sample(sorted[f..], rng, cursor, randomBreeders);
    var chosen: seq<Scored> := fittest + luckiest;
    breeders := Ok(chosen);
    next := cursor + randomBreeders;
    BreedersShape(pairs, fitBreeders, randomBreeders, rng, cursor);
    BreedersFromPopulation(pairs, fitBreeders, randomBreeders, rng, cursor);
    forall b: int | 0 <= b < |chosen| ensures chosen[b].individual in population {
      assert chosen[b] in pairs;
    }
  }

  /** Breeders selected from a population of words of one length are words
      of that length, lowercase when the population is. */
  lemma BreedersAreWords(population: seq<string>, fitness: seq<nat>, fitBreeders: nat, randomBreeders: nat,
                         rng: Rng, cursor: nat, length: nat)
    requires randomBreeders <= PoolSize(Min(|population|, |fitness|), fitBreeders)
    requires OfLength(population, length)
    ensures var parents := Individuals(Breeders(Zip(population, fitness), fitBreeders, randomBreeders, rng, cursor));
            && OfLength(parents, length)
            && (Words(population, length) ==> Words(parents, length))
  {
    var pairs := Zip(population, fitness);
    var r := Breeders(pairs, fitBreeders, randomBreeders, rng, cursor);
    BreedersFromPopulation(pairs, fitBreeders, randomBreeders, rng, cursor);
    forall b | 0 <= b < |r| ensures exists i :: 0 <= i < |population| && r[b].individual == population[i] {
      assert r[b] in r;
      var i :| 0 <= i < |pairs| && pairs[i] == r[b];
    }
  }

  /** One child of generate_children: the breeder's letters copied into a
      buffer, then `mutations` times a random position overwritten with a
      random letter. */
  method MutatedChild(individual: string, mutations: nat, rng: Rng, cursor: nat)
    returns (child: string, next: nat)
    requires |individual| > 0
    ensures child == Mutate(individual, rng, cursor, mutations)
    ensures next == cursor + 2 * mutations
  {
    var temp := new char[|individual|](k requires 0 <= k < |individual| => individual[k]);
    next := cursor;
    for t := 0 to mutations
      invariant temp[..] == Mutate(individual, rng, cursor, t)
      invariant next == cursor + 2 * t
    {
      var idx := Raw(rng, next) % |individual|;
      temp[idx] := Letter(Raw(rng, next + 1));
      next := next + 2;
    }
    child := temp[..];
  }

  /** The children of one breeder: `count` mutated copies in turn. */
  method BreedChildren(individual: string, count: nat, mutations: nat, rng: Rng, cursor: nat)
    returns (brood: seq<string>, next: nat)
    requires |individual| > 0
    ensures brood == Brood(individual, rng, cursor, count, mutations)
    ensures next == cursor + BroodDraws(count, mutations)
  {
    brood := [];
    next := cursor;
    for c := 0 to count
      invariant brood == Brood(individual, rng, cursor, c, mutations)
      invariant next == cursor + BroodDraws(c, mutations)
    {
      var child;
      child, next := MutatedChild(individual, mutations, rng, next);
      brood := brood + [child];
    }
  }

  /** The first loop of generate_children: the individual of each breeder
      tuple, in order. */
  method ParentsOf(breeders: seq<Scored>) returns (parents: seq<string>)
    ensures parents == Individuals(breeders)
  {
    parents := [];
    for b := 0 to |breeders|
      invariant |parents| == b
      invariant forall j :: 0 <= j < b ==> parents[j] == breeders[j].individual
    {
      parents := parents + [breeders[b].individual];
    }
  }

  /** generate_children: the parents are the breeders' individuals, and each
      parent in turn gives mutationsPerBreeder children. */
  method GenerateChildren(breeders: seq<Scored>, mutationsPerBreeder: nat, mutations: nat,
                          wordLength: nat, rng: Rng, cursor: nat)
    returns (children: seq<string>, next: nat)
    requires wordLength > 0 && OfLength(Individuals(breeders), wordLength)
    ensures NonEmptyWords(Individuals(breeders))
    ensures children == Offspring(Individuals(breeders), rng, cursor, mutationsPerBreeder, mutations)
    ensures next == cursor + OffspringDraws(|breeders|, mutationsPerBreeder, mutations)
    ensures |children| == |breeders| * mutationsPerBreeder
    ensures OfLength(children, wordLength)
  {
    var parents := ParentsOf(breeders);
    children := [];
    next := cursor;
    for b := 0 to |parents|
      invariant children == Offspring(parents[..b], rng, cursor, mutationsPerBreeder, mutations)
      invariant next == cursor + OffspringDraws(b, mutationsPerBreeder, mutations)
    {
      var brood;
      brood, next := BreedChildren(parents[b], mutationsPerBreeder, mutations, rng, next);
      OffspringExtend(parents, rng, cursor, mutationsPerBreeder, mutations, b);
      children := children + brood;
    }
    assert parents[..|parents|] == parents;
    OffspringWords(parents, rng, cursor, mutationsPerBreeder, mutations, wordLength);
  }

  /** With 0 < numOfBreeders <= popSize, the numOfBreeders breeders having
      popSize / numOfBreeders children each give a generation of at least
      numOfBreeders and at most popSize individuals. */
  lemma GenerationSize(numOfBreeders: nat, popSize: nat)
    requires 0 < numOfBreeders <= popSize
    ensures numOfBreeders <= numOfBreeders * (popSize / numOfBreeders) <= popSize
  {
    var q := popSize / numOfBreeders;
    assert q >= 1;
    MulMonotone(1, q, numOfBreeders);
    assert numOfBreeders * q + popSize % numOfBreeders == popSize;
  }


  /** What one generation leaves behind: the breeders selected last, the new
      population and its fitness list, the raw values used so far, the log,
      and whether the final selection of log_final_generation went through. */
  datatype Generation = Generation(breeders: seq<Scored>, population: seq<string>, fitness: seq<nat>,
                                   cursor: nat, log: seq<LogEntry>, outcome: Result<()>)

  /** A generation can be scored: the goal is not empty (check_fitness
      divides by its length). */
  predicate Runnable(s: Settings) {
    |s.goal| > 0
  }

  /** log_generation_stats for the breeders of generation n, when every
      generation is logged. */
  function Logged(s: Settings, log: seq<LogEntry>, n: nat, chosen: seq<Scored>): (r: seq<LogEntry>)
    ensures |r| == |log| + (if s.logAllGenerations then 1 else 0) && r[..|log|] == log
  {
    if s.logAllGenerations then log + [GenerationEntry(n, chosen)] else log
  }

  /** The end of advance_one_generation, once the children are scored and
      the breeders logged: when the goal has turned up and every generation
      is logged, log_final_generation selects breeders once more from the
      children and logs them under the next generation number. A refused
      final selection leaves the breeders, the random source and the log as
      they were. */
  function Conclude(s: Settings, generation: nat, chosen: seq<Scored>, children: seq<string>, scores: seq<nat>,
                    logged: seq<LogEntry>, rng: Rng, cursor: nat): (g: Generation)
    ensures g.population == children && g.fitness == scores
  {
    if s.logAllGenerations && |s.goal| in scores then
      match BreederSelection(children, scores, s.fitBreeders, s.randomBreeders, rng, cursor)
      case Ok(final) =>
        Generation(final, children, scores, cursor + s.randomBreeders,
                   logged + [GenerationEntry(generation + 1, final)], Ok(()))
      case Err(e) => Generation(chosen, children, scores, cursor, logged, Err(e))
    else Generation(chosen, children, scores, cursor, logged, Ok(()))
  }

  /** The breeders `chosen` are selected from the population and their
      `children` bred from raw value cursor + RANDOM_BREEDERS on. */
  predicate Bred(s: Settings, population: seq<string>, fitness: seq<nat>, rng: Rng, cursor: nat,
                 chosen: seq<Scored>, children: seq<string>)
  {
    && BreederSelection(population, fitness, s.fitBreeders, s.randomBreeders, rng, cursor) == Ok(chosen)
    && s.randomBreeders >= 0
    && NonEmptyWords(Individuals(chosen))
    && children == Offspring(Individuals(chosen), rng, cursor + s.randomBreeders, s.mutationsPerBreeder, s.mutations)
  }

  /** One generation of advance_one_generation, from a population, its
      fitness list, the generation counter, the log and the raw values used
      so far: the breeders `chosen` are selected, their `children` bred and
      scored, the breeders logged, and `bred` is where the raw values stand
      after breeding; `g` is what the generation leaves behind. */
  predicate Step(s: Settings, population: seq<string>, fitness: seq<nat>, generation: nat, log: seq<LogEntry>,
                 rng: Rng, cursor: nat, chosen: seq<Scored>, children: seq<string>, scores: seq<nat>,
                 logged: seq<LogEntry>, bred: nat, g: Generation)
  {
    && Bred(s, population, fitness, rng, cursor, chosen, children)
    && bred == cursor + s.randomBreeders + OffspringDraws(|chosen|, s.mutationsPerBreeder, s.mutations)
    && OfLength(children, |s.goal|)
    && scores == Scores(children, s.goal)
    && logged == Logged(s, log, generation, chosen)
    && g == Conclude(s, generation, chosen, children, scores, logged, rng, bred)
  }

  /** The end of advance_one_generation: the completion check and
      log_final_generation. */
  method ConcludeGeneration(s: Settings, generation: nat, chosen: seq<Scored>, children: seq<string>,
                            scores: seq<nat>, logged: seq<LogEntry>, rng: Rng, cursor: nat)
    returns (g: Generation)
    ensures g == Conclude(s, generation, chosen, children, scores, logged, rng, cursor)
  {
    g := Generation(chosen, children, scores, cursor, logged, Ok(()));
    if s.logAllGenerations && |s.goal| in scores {
      var final, next := SelectBreeders(children, scores, s.fitBreeders, s.randomBreeders, rng, cursor);
      if final.Ok? {
        g := Generation(final.value, children, scores, next, logged + [GenerationEntry(generation + 1, final.value)], Ok(()));
      } else {
        g := g.(outcome := Err(final.error));
      }
    }
  }

  /** The children of a population of lowercase words of the goal's length
      are again such words. */
  lemma BredWords(s: Settings, population: seq<string>, fitness: seq<nat>, rng: Rng, cursor: nat,
                  chosen: seq<Scored>, children: seq<string>)
    requires Runnable(s) && Words(population, |s.goal|)
    requires Bred(s, population, fitness, rng, cursor, chosen, children)
    ensures Words(children, |s.goal|)
  {
    BreedersAreWords(population, fitness, s.fitBreeders, s.randomBreeders, rng, cursor, |s.goal|);
    OffspringWords(Individuals(chosen), rng, cursor + s.randomBreeders, s.mutationsPerBreeder, s.mutations, |s.goal|);
  }

  /** The log keeps its earlier entries. With logging off nothing is added and
      nothing is refused. With logging on, the breeders are logged under
      'generation N'; when the goal turns up, a second entry under
      'generation N+1' holds the breeders selected once more, unless that
      selection is refused, which is then the only way the generation fails. */
  lemma StepLog(s: Settings, population: seq<string>, fitness: seq<nat>, generation: nat, log: seq<LogEntry>,
                rng: Rng, cursor: nat, chosen: seq<Scored>, children: seq<string>, scores: seq<nat>,
                logged: seq<LogEntry>, bred: nat, g: Generation)
    requires Step(s, population, fitness, generation, log, rng, cursor, chosen, children, scores, logged, bred, g)
    ensures var converged := s.goal in children;
            && |g.log| == |log| + (if !s.logAllGenerations then 0 else if converged && g.outcome.Ok? then 2 else 1)
            && g.log[..|log|] == log
            && (s.logAllGenerations ==> g.log[|log|] == GenerationEntry(generation, chosen))
            && (|g.log| == |log| + 2 ==> g.log[|log| + 1] == GenerationEntry(generation + 1, g.breeders))
            && (g.outcome.Err? ==> s.logAllGenerations && converged && g.outcome.error == SampleSizeInvalid)
  {
    ScoresPerfect(children, s.goal);
  }

  /** When FIT_BREEDERS <= NUM_OF_BREEDERS <= POP_SIZE and the population holds
      at least NUM_OF_BREEDERS individuals, NUM_OF_BREEDERS breeders are
      selected, and the NUM_OF_BREEDERS * (POP_SIZE / NUM_OF_BREEDERS) children
      number between NUM_OF_BREEDERS and POP_SIZE. */
  lemma BredSize(s: Settings, numOfBreeders: nat, popSize: nat, population: seq<string>, fitness: seq<nat>,
                 rng: Rng, cursor: nat, chosen: seq<Scored>, children: seq<string>)
    requires 0 < numOfBreeders && s.fitBreeders <= numOfBreeders <= popSize
    requires s.randomBreeders == numOfBreeders - s.fitBreeders
    requires s.mutationsPerBreeder == popSize / numOfBreeders
    requires numOfBreeders <= |population| == |fitness|
    requires Bred(s, population, fitness, rng, cursor, chosen, children)
    ensures |chosen| == numOfBreeders
    ensures |children| == numOfBreeders * (popSize / numOfBreeders)
    ensures numOfBreeders <= |children| <= popSize
  {
    GenerationSize(numOfBreeders, popSize);
  }

  /** g is what one generation of advance_one_generation can leave behind:
      some selection, breeding, scoring and logging leads to it. */
  ghost predicate Advanced(s: Settings, population: seq<string>, fitness: seq<nat>, generation: nat,
                           log: seq<LogEntry>, rng: Rng, cursor: nat, g: Generation)
  {
    exists chosen, children, scores, logged, bred ::
      Step(s, population, fitness, generation, log, rng, cursor, chosen, children, scores, logged, bred, g)
  }

  /** A generation of a population of lowercase words of the goal's length is
      again made of such words, its fitness list scores it, and a perfect
      score is in that list exactly when the goal is in the population. */
  lemma StepPopulation(s: Settings, population: seq<string>, fitness: seq<nat>, generation: nat,
                       log: seq<LogEntry>, rng: Rng, cursor: nat, chosen: seq<Scored>, children: seq<string>,
                       scores: seq<nat>, logged: seq<LogEntry>, bred: nat, g: Generation)
    requires Runnable(s) && Words(population, |s.goal|)
    requires Step(s, population, fitness, generation, log, rng, cursor, chosen, children, scores, logged, bred, g)
    ensures Advanced(s, population, fitness, generation, log, rng, cursor, g)
    ensures Words(g.population, |s.goal|) && g.fitness == Scores(g.population, s.goal)
    ensures |s.goal| in g.fitness <==> s.goal in g.population
  {
    BredWords(s, population, fitness, rng, cursor, chosen, children);
    ScoresPerfect(children, s.goal);
  }

  /** When FIT_BREEDERS <= NUM_OF_BREEDERS <= POP_SIZE and the population holds
      at least NUM_OF_BREEDERS scored individuals, the first selection goes
      through, the final one is not refused, and the new population holds
      NUM_OF_BREEDERS * (POP_SIZE / NUM_OF_BREEDERS) individuals, between
      NUM_OF_BREEDERS and POP_SIZE, so the following generation can select
      again. */
  lemma GenerationSucceeds(s: Settings, numOfBreeders: nat, popSize: nat, population: seq<string>,
                           fitness: seq<nat>, generation: nat, log: seq<LogEntry>, rng: Rng, cursor: nat)
    requires 0 < numOfBreeders && s.fitBreeders <= numOfBreeders <= popSize
    requires s.randomBreeders == numOfBreeders - s.fitBreeders
    requires s.mutationsPerBreeder == popSize / numOfBreeders
    requires numOfBreeders <= |population| == |fitness|
    ensures SampleFits(Min(|population|, |fitness|), s.fitBreeders, s.randomBreeders)
    ensures forall g :: Advanced(s, population, fitness, generation, log, rng, cursor, g) ==>
              && g.outcome.Ok?
              && |g.population| == numOfBreeders * (popSize / numOfBreeders)
              && numOfBreeders <= |g.population| <= popSize
  {
    forall g | Advanced(s, population, fitness, generation, log, rng, cursor, g)
      ensures && g.outcome.Ok?
              && |g.population| == numOfBreeders * (popSize / numOfBreeders)
              && numOfBreeders <= |g.population| <= popSize
    {
      var chosen, children, scores, logged, bred :|
        Step(s, population, fitness, generation, log, rng, cursor, chosen, children, scores, logged, bred, g);
      BredSize(s, numOfBreeders, popSize, population, fitness, rng, cursor, chosen, children);
    }
  }

  /** advance_one_generation on values: select the breeders, breed and score
      their children, log the breeders, and conclude the generation. A refused
      selection is reported and nothing else happens. The new population is
      again made of lowercase words of the goal's length, and its fitness
      list scores it. */
  method AdvanceGeneration(s: Settings, population: seq<string>, fitness: seq<nat>, generation: nat,
                           log: seq<LogEntry>, rng: Rng, cursor: nat)
    returns (r: Result<Generation>)
    requires Runnable(s) && Words(population, |s.goal|)
    ensures match BreederSelection(population, fitness, s.fitBreeders, s.randomBreeders, rng, cursor)
            case Err(e) => r == Err(e)
            case Ok(_) => r.Ok? && Advanced(s, population, fitness, generation, log, rng, cursor, r.value)
    ensures r.Ok? ==> Words(r.value.population, |s.goal|) && r.value.fitness == Scores(r.value.population, s.goal)
    ensures r.Ok? ==> (|s.goal| in r.value.fitness <==> s.goal in r.value.population)
  {
    var selected, _ := SelectBreeders(population, fitness, s.fitBreeders, s.randomBreeders, rng, cursor);
    if selected.Err? {
      return Err(selected.error);
    }
    var chosen := selected.value;
    BreedersAreWords(population, fitness, s.fitBreeders, s.randomBreeders, rng, cursor, |s.goal|);
    var children, bred := GenerateChildren(chosen, s.mutationsPerBreeder, s.mutations, |s.goal|, rng, cursor + s.randomBreeders);
    var scores := CheckPopulationFitness(children, s.goal);
    var logged := log;
    if s.logAllGenerations {
      logged := logged + [GenerationEntry(generation, chosen)];
    }
    var g := ConcludeGeneration(s, generation, chosen, children, scores, logged, rng, bred);
    StepPopulation(s, population, fitness, generation, log, rng, cursor, chosen, children, scores, logged, bred, g);
    r := Ok(g);
  }

  class WordEvolution {
    const goal: string
    const popSize: nat
    const mutations: nat
    const numOfBreeders: nat
    const fitBreeders: nat
    const logAllGenerations: bool
    /** Derived when the run is set up: len(GOAL), int(POP_SIZE /
        NUM_OF_BREEDERS) and NUM_OF_BREEDERS - FIT_BREEDERS. */
    const wordLength: nat
    const mutationsPerBreeder: nat
    const randomBreeders: int
    /** The raw values of the random source used so far; the source itself is
        passed to every operation that draws from it. */
    var cursor: nat
    var logData: seq<LogEntry>
    var population: seq<string>
    var fitness: seq<nat>
    var generation: nat
    var complete: bool
    var breeders: seq<Scored>

    /** The settings a generation step reads. */
    function StepSettings(): Settings {
      Settings(goal, mutations, mutationsPerBreeder, fitBreeders, randomBreeders, logAllGenerations)
    }

    /** The derived settings agree with the independent ones; the population
        is made of lowercase words of the goal's length and the fitness list
        scores it; and when the breeder settings fit the population size,
        every generation is big enough to select from again. */
    ghost predicate Valid()
      reads this
    {
      && wordLength == |goal| > 0
      && numOfBreeders > 0
      && mutationsPerBreeder == popSize / numOfBreeders
      && randomBreeders == numOfBreeders - fitBreeders
      && generation >= 1
      && Words(population, wordLength)
      && fitness == Scores(population, goal)
      && (fitBreeders <= numOfBreeders <= popSize ==> numOfBreeders <= |population| <= popSize)
    }

    /** Sets up a run: derives the dependent settings, draws the first
        population and scores it. A goal of length zero or no breeders at all
        make the source fail with a division by zero. */
    constructor (config: Config, rng: Rng, cursor: nat)
      requires |config.goal| > 0 && config.numOfBreeders > 0
      ensures Valid()
      ensures goal == config.goal && popSize == config.popSize && mutations == config.mutations
      ensures numOfBreeders == config.numOfBreeders && fitBreeders == config.fitBreeders
      ensures logAllGenerations == config.logAllGenerations
      ensures wordLength == |config.goal|
      ensures mutationsPerBreeder == config.popSize / config.numOfBreeders
      ensures randomBreeders == config.numOfBreeders - config.fitBreeders
      ensures population == RandomWords(rng, cursor, config.popSize, |config.goal|)
      ensures this.cursor == cursor + config.popSize * |config.goal|
      ensures logData == [] && generation == 1 && !complete && breeders == []
    {
      goal := config.goal;
      popSize := config.popSize;
      mutations := config.mutations;
      numOfBreeders := config.numOfBreeders;
      fitBreeders := config.fitBreeders;
      logAllGenerations := config.logAllGenerations;
      wordLength := |config.goal|;
      mutationsPerBreeder := config.popSize / config.numOfBreeders;
      randomBreeders := config.numOfBreeders - config.fitBreeders;
      logData := [];
      var first, next := GeneratePopulation(config.popSize, |config.goal|, rng, cursor);
      var scores := CheckPopulationFitness(first, config.goal);
      population := first;
      fitness := scores;
      this.cursor := next;
      generation := 1;
      complete := false;
      breeders := [];
    }

    /** advance_one_generation: select the breeders, breed and score their
        children, log the breeders, count the generation, and once the goal
        is in the population mark the run complete and log the final
        selection. A refused first selection changes nothing; no selection is
        refused when FIT_BREEDERS <= NUM_OF_BREEDERS <= POP_SIZE. */
    method AdvanceOneGeneration(rng: Rng) returns (outcome: Result<()>)
      requires Valid()
      modifies this
      ensures Valid()
      ensures var selection := old(BreederSelection(population, fitness, fitBreeders, randomBreeders, rng, cursor));
              if selection.Err? then outcome == Err(selection.error) && unchanged(this)
              else
                && generation == old(generation) + 1
                && complete == (old(complete) || goal in population)
                && Advanced(StepSettings(), old(population), old(fitness), old(generation), old(logData), rng, old(cursor),
                            Generation(breeders, population, fitness, cursor, logData, outcome))
      ensures fitBreeders <= numOfBreeders <= popSize ==> outcome.Ok?
    {
      if fitBreeders <= numOfBreeders <= popSize {
        GenerationSucceeds(StepSettings(), numOfBreeders, popSize, population, fitness, generation, logData, rng, cursor);
      }
      var r := AdvanceGeneration(StepSettings(), population, fitness, generation, logData, rng, cursor);
      if r.Err? {
        return Err(r.error);
      }
      var g := r.value;
      var converged := complete || wordLength in g.fitness;
      breeders, population, fitness, cursor, logData, generation, complete :=
        g.breeders, g.population, g.fitness, g.cursor, g.log, generation + 1, converged;
      outcome := g.outcome;
    }

    /** evolve: advances until some individual equals the goal, then reports
        the generation counter. The run is given at most `fuel` generations;
        the source loops until convergence, however long that takes. */
    method Evolve(rng: Rng, fuel: nat) returns (stats: Result<RunStats>)
      requires Valid()
      modifies this
      ensures Valid()
      ensures old(generation) <= generation <= old(generation) + fuel
      ensures old(complete) ==> stats == Ok(RunStats(old(generation))) && unchanged(this)
      ensures stats.Ok? ==> complete && stats.value == RunStats(generation)
      ensures stats.Ok? && !old(complete) ==> old(generation) < generation && goal in population
      ensures stats.Err? ==> stats.error == OutOfFuel || stats.error == SampleSizeInvalid
      ensures stats == Err(SampleSizeInvalid) ==> !(fitBreeders <= numOfBreeders <= popSize)
      ensures stats == Err(OutOfFuel) ==> !complete && generation == old(generation) + fuel
    {
      var steps := 0;
      while !complete
        invariant Valid()
        invariant steps <= fuel
        invariant generation == old(generation) + steps
        invariant old(complete) ==> steps == 0 && unchanged(this)
        invariant complete && !old(complete) ==> steps > 0 && goal in population
        decreases fuel - steps
      {
        if steps == fuel {
          return Err(OutOfFuel);
        }
        var outcome := AdvanceOneGeneration(rng);
        if outcome.Err? {
          return Err(outcome.error);
        }
        steps := steps + 1;
      }
      stats := Ok(RunStats(generation));
    }
  }
}
