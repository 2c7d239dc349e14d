/** PasswordEvolution: the same engine as WordEvolution with its settings
    fixed in the code (the goal 'buzzword', 100 individuals, 10 breeders of
    which 8 are the fittest) and a breeding step that mutates each child at
    exactly one position. */
module Password {
  import opened Genome
  import opened Selection
  import opened Breeding
  import opened Outcomes
  import opened RunLog
  import opened Evolution

  /** One child of generate_children: the parent's letters copied into a
      list, the position drawn by random.randint(0, WORD_LENGTH - 1)
      overwritten by the letter drawn by random.choice, joined back. */
  method MutatedCopy(individual: string, wordLength: nat, rng: Rng, cursor: nat) returns (child: string)
    requires |individual| == wordLength > 0
    ensures child == Mutate(individual, rng, cursor, 1)
  {
    var temp := new char[wordLength](k requires 0 <= k < wordLength => individual[k]);
    var idx := Raw(rng, cursor) % wordLength;
    temp[idx] := Letter(Raw(rng, cursor + 1));
    child := temp[..];
  }

  /** The children of one parent: count mutated copies in turn, two raw
      values each. */
  method MutatedCopies(individual: string, count: nat, wordLength: nat, rng: Rng, cursor: nat)
    returns (brood: seq<string>, next: nat)
    requires |individual| == wordLength > 0
    ensures brood == Brood(individual, rng, cursor, count, 1)
    ensures next == cursor + BroodDraws(count, 1)
  {
    brood := [];
    next := cursor;
    for c := 0 to count
      invariant brood == Brood(individual, rng, cursor, c, 1)
      invariant next == cursor + BroodDraws(c, 1)
    {
      var child := MutatedCopy(individual, wordLength, rng, next);
      brood := brood + [child];
      next := next + 2;
    }
  }

  /** generate_children with one mutation per child: each parent in turn
      gives mutationsPerBreeder mutated copies. */
  method GenerateChildren(breeders: seq<Scored>, mutationsPerBreeder: nat, wordLength: nat, rng: Rng, cursor: nat)
    returns (children: seq<string>, next: nat)
    requires wordLength > 0 && OfLength(Individuals(breeders), wordLength)
    ensures NonEmptyWords(Individuals(breeders))
    ensures children == Offspring(Individuals(breeders), rng, cursor, mutationsPerBreeder, 1)
    ensures next == cursor + OffspringDraws(|breeders|, mutationsPerBreeder, 1)
    ensures |children| == |breeders| * mutationsPerBreeder
    ensures OfLength(children, wordLength)
  {
    var parents := ParentsOf(breeders);
    ghost var m := 1;
    children := [];
    next := cursor;
    for b := 0 to |parents|
      invariant children == Offspring(parents[..b], rng, cursor, mutationsPerBreeder, m)
      invariant next == cursor + OffspringDraws(b, mutationsPerBreeder, m)
    {
      var brood;
      brood, next := MutatedCopies(parents[b], mutationsPerBreeder, wordLength, rng, next);
      OffspringExtend(parents, rng, cursor, mutationsPerBreeder, m, b);
      children := children + brood;
    }
    assert parents[..|parents|] == parents;
    OffspringWords(parents, rng, cursor, mutationsPerBreeder, 1, wordLength);
  }

  /** One generation of advance_one_generation with the single-mutation
      breeding step. A selection that random.sample accepts is assumed of
      the caller: with the settings of PasswordEvolution it always is. */
  method AdvancePopulation(s: Settings, population: seq<string>, fitness: seq<nat>, generation: nat,
                           log: seq<LogEntry>, rng: Rng, cursor: nat)
    returns (g: Generation)
    requires Runnable(s) && s.mutations == 1 && Words(population, |s.goal|)
    requires SampleFits(Min(|population|, |fitness|), s.fitBreeders, s.randomBreeders)
    ensures Advanced(s, population, fitness, generation, log, rng, cursor, g)
    ensures Words(g.population, |s.goal|) && g.fitness == Scores(g.population, s.goal)
    ensures |s.goal| in g.fitness <==> s.goal in g.population
  {
    var selected, _ := SelectBreeders(population, fitness, s.fitBreeders, s.randomBreeders, rng, cursor);
    var chosen := selected.value;
    BreedersAreWords(population, fitness, s.fitBreeders, s.randomBreeders, rng, cursor, |s.goal|);
    var children, bred := GenerateChildren(chosen, s.mutationsPerBreeder, |s.goal|, rng, cursor + s.randomBreeders);
    var scores := CheckPopulationFitness(children, s.goal);
    var logged := log;
    if s.logAllGenerations {
      logged := logged + [GenerationEntry(generation, chosen)];
    }
    g := ConcludeGeneration(s, generation, chosen, children, scores, logged, rng, bred);
    StepPopulation(s, population, fitness, generation, log, rng, cursor, chosen, children, scores, logged, bred, g);
  }

  class PasswordEvolution {
    /** The settings __init__ fixes (see the constructor). MUTATIONS is set
        but never read: every child gets exactly one point mutation. */
    const goal: string
    const wordLength: nat
    const popSize: nat
    const mutations: nat
    const numOfBreeders: nat
    const mutationsPerBreeder: nat
    const fitBreeders: nat
    const randomBreeders: int
    const logAllGenerations: bool
    /** The raw values of the random source used so far. */
    var cursor: nat
    var logData: seq<LogEntry>
    var population: seq<string>
    var fitness: seq<nat>
    var generation: nat
    var complete: bool
    var breeders: seq<Scored>

    /** The settings a generation step reads; a child carries one mutation. */
    function StepSettings(): Settings {
      Settings(goal, 1, mutationsPerBreeder, fitBreeders, randomBreeders, logAllGenerations)
    }

    /** The derived settings agree with the others and the breeders fill a
        population of POP_SIZE exactly; the population is POP_SIZE lowercase
        words of the goal's length and the fitness list scores it. */
    ghost predicate Valid()
      reads this
    {
      && wordLength == |goal| > 0
      && 0 < numOfBreeders && fitBreeders <= numOfBreeders <= popSize
      && mutationsPerBreeder == popSize / numOfBreeders
      && numOfBreeders * mutationsPerBreeder == popSize
      && randomBreeders == numOfBreeders - fitBreeders
      && generation >= 1
      && |population| == popSize
      && Words(population, wordLength)
      && fitness == Scores(population, goal)
    }

    /** Sets up a run: fixes the settings, draws the first 100 guesses of 8
        letters and scores them. */
    constructor (rng: Rng, cursor: nat)
      ensures Valid()
      ensures goal == "buzzword" && wordLength == 8 && popSize == 100 && mutations == 1
      ensures numOfBreeders == 10 && mutationsPerBreeder == 10 && fitBreeders == 8 && randomBreeders == 2
      ensures logAllGenerations
      ensures population == RandomWords(rng, cursor, 100, 8)
      ensures this.cursor == cursor + 800
      ensures logData == [] && generation == 1 && !complete && breeders == []
    {
      goal := "buzzword";
      wordLength := 8;
      popSize := 100;
      mutations := 1;
      numOfBreeders := 10;
      mutationsPerBreeder := 100 / 10;
      fitBreeders := 8;
      randomBreeders := 10 - 8;
      logAllGenerations := true;
      logData := [];
      var first, next := GeneratePopulation(100, 8, rng, cursor);
      var scores := CheckPopulationFitness(first, "buzzword");
      population := first;
      fitness := scores;
      this.cursor := next;
      generation := 1;
      complete := false;
      breeders := [];
    }

    /** advance_one_generation: select the breeders, breed and score their
        children, log the breeders, count the generation, and once the goal
        is in the population mark the run complete and log the final
        selection. With these settings no selection is ever refused and
        every generation again holds 100 individuals. */
    method AdvanceOneGeneration(rng: Rng)
      requires Valid()
      modifies this
      ensures Valid()
      ensures generation == old(generation) + 1
      ensures complete == (old(complete) || goal in population)
      ensures Advanced(StepSettings(), old(population), old(fitness), old(generation), old(logData), rng, old(cursor),
                       Generation(breeders, population, fitness, cursor, logData, Ok(())))
    {
      GenerationSucceeds(StepSettings(), numOfBreeders, popSize, population, fitness, generation, logData, rng, cursor);
      var g := AdvancePopulation(StepSettings(), population, fitness, generation, logData, rng, cursor);
      var converged := complete || wordLength in g.fitness;
      breeders, population, fitness, cursor, logData, generation, complete :=
        g.breeders, g.population, g.fitness, g.cursor, g.log, generation + 1, converged;
    }

    /** evolve: advances until some individual equals the goal, then reports
        the generation counter. The run is given at most `fuel` generations;
        the source loops until convergence, however long that takes. */
    method Evolve(rng: Rng, fuel: nat) returns (stats: Result<RunStats>)
      requires Valid()
      modifies this
      ensures Valid()
      ensures old(generation) <= generation <= old(generation) + fuel
      ensures old(complete) ==> stats == Ok(RunStats(old(generation))) && unchanged(this)
      ensures stats.Ok? ==> complete && stats.value == RunStats(generation)
      ensures stats.Ok? && !old(complete) ==> old(generation) < generation && goal in population
      ensures stats.Err? ==> stats.error == OutOfFuel && !complete && generation == old(generation) + fuel
    {
      var steps := 0;
      while !complete
        invariant Valid()
        invariant steps <= fuel
        invariant generation == old(generation) + steps
        invariant old(complete) ==> steps == 0 && unchanged(this)
        invariant complete && !old(complete) ==> steps > 0 && goal in population
        decreases fuel - steps
      {
        if steps == fuel {
          return Err(OutOfFuel);
        }
        AdvanceOneGeneration(rng);
        steps := steps + 1;
      }
      stats := Ok(RunStats(generation));
    }
  }
}
