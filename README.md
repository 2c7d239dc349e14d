# Word evolution: a verified model of a genetic string search

The repository searches for a goal word by evolution. A population of random
lowercase words of the goal's length is scored by the number of positions at
which each word agrees with the goal. A generation then does four things:

- it keeps the `FIT_BREEDERS` fittest words (a stable sort by descending score);
- it adds `RANDOM_BREEDERS` more words sampled from the rest without replacement;
- each breeder gives `MUTATIONS_PER_BREEDER` children, each a copy of the
  breeder with `MUTATIONS` point mutations;
- the children become the new population and are scored.

The run stops after the first generation whose population contains the goal.
When `LOG_ALL_GENERATIONS` is on, every generation's breeders are logged under
the key `'generation N'`. `PasswordEvolution` turns it on. A `WordEvolution`
built from a JSON configuration turns it off (wordEvolution.py:58), and that
is how `EvolutionBatch` builds its runs.

The engine exists twice:

- `WordEvolution` (`wordEvolution.py`) takes its settings from a configuration.
- `PasswordEvolution` (`pswd.py`) fixes them to the goal `buzzword`, 100
  words, 10 breeders of which 8 are the fittest, and one mutation per child.

`EvolutionBatch` (`wordEvolution.py`) runs many searches with generated goal
words. It averages their generation counts and sweeps the population size or
the mutation count over a range of values, logging one report per value.

The model is imperative where the source is:

- The three classes become Dafny classes whose methods update the same fields.
- The loops become methods with loop invariants. Each is proved against a
  specification function: `RandomWords`, `Scores`, `Breeders`, `Offspring`,
  `SumGenerations` and `Sweep`.
- The properties of the source are lemmas about those functions.
- A generation step is a relation (`Evolution.Step` / `Evolution.Advanced`)
  between the state before and the state after it. Both engines' classes are
  proved to follow it.

Randomness is an input. `Genome.Rng` is the stream of raw values handed out by
successive calls into `random`, and a cursor field counts the values used so
far. Each call reduces its raw value into the range it asks for:

- `random.choice` over the 26 letters takes it modulo 26;
- `random.randint(0, WORD_LENGTH - 1)` takes it modulo the word length;
- each pick of `random.sample` takes it modulo the size of the remaining pool.

Every answer a call can give comes from some raw value:
`Genome.EveryLetterDrawn` shows this for the letter choice and
`Selection.EveryPickDrawn` for the first pick of a sample. Fitness is the match count
`0..|goal|` rather than the float `count / len(GOAL)`. The float is 1.0 exactly
when the count is `|goal|`, so `1.0 in fitness` becomes `|goal| in fitness`.

Modules:

- `Outcomes`: errors and results.
- `Genome`: letters, random words, match counts and Hamming distance.
- `RunLog`: the `'generation N'` log entries.
- `Selection`: `select_breeders`.
- `Breeding`: `generate_children`.
- `Evolution`: `WordEvolution`.
- `Password`: `PasswordEvolution`.
- `Batch`: `EvolutionBatch`.

## Model

| member | source | states |
|---|---|---|
| Genome.Letter | wordEvolution.py:66 | a `random.choice(string.ascii_lowercase)` answer is a lowercase letter |
| Genome.RandomWord | wordEvolution.py:64-66 | a guess built by `length` choices has that length, only lowercase letters, and letter i is the answer to the i-th draw |
| Genome.RandomWords | wordEvolution.py:60-69 | `count` guesses, each of the given length and lowercase |
| Genome.EveryLetterDrawn | wordEvolution.py:66 | every lowercase letter is the answer of `random.choice` to some raw value |
| Genome.Agreements | wordEvolution.py:71-79 | the match count is at most the individual's length |
| Genome.AgreementsComplement | wordEvolution.py:71-79 | every position of two equal-length words either matches or differs: matches + Hamming distance = length |
| Genome.DifferencesZero | wordEvolution.py:71-79 | the Hamming distance is 0 iff the words are equal |
| Genome.PerfectIffEqual | wordEvolution.py:71-79 | the match count of `check_fitness` is at most len(GOAL), and equals it (fitness 1.0) iff the individual is the goal |
| Genome.DifferencesUpdate | wordEvolution.py:116 | overwriting one position (`temp_list[idx] = ...`) raises the distance to any word by at most one |
| RunLog.Decimal | wordEvolution.py:140 | `str(n)` is a nonempty string of decimal digits |
| RunLog.DecimalRoundTrip | wordEvolution.py:140 | reading back the digits of `str(n)` gives n |
| RunLog.GenerationLabelsDistinct | wordEvolution.py:140 | different generations are logged under different keys |
| RunLog.GenerationEntry | wordEvolution.py:139-141 | the entry for generation n holds the breeders, under a key that is `'generation '` followed by digits reading back as n |
| Selection.Zip | wordEvolution.py:93 | `zip` stops at the shorter list; pair i holds individual i and fitness i |
| Selection.InsertByFitness | wordEvolution.py:97 | inserting one pair into the sorted list adds exactly one element |
| Selection.SortByFitness | wordEvolution.py:97 | the sort keeps the number of pairs |
| Selection.InsertPermutes | wordEvolution.py:97 | insertion adds the pair to the multiset and changes nothing else |
| Selection.InsertAtMost | wordEvolution.py:97 | insertion keeps every fitness under a common bound |
| Selection.InsertDescending | wordEvolution.py:97 | insertion into a descending list gives a descending list |
| Selection.InsertKeepsTies | wordEvolution.py:97 | insertion puts the pair in front of the pairs of equal fitness and keeps their order |
| Selection.SortPermutes | wordEvolution.py:97 | `sorted` returns a permutation of the pairs |
| Selection.SortDescends | wordEvolution.py:97 | `sorted(..., reverse=True)` orders the pairs by descending fitness |
| Selection.SortIsStable | wordEvolution.py:97 | for each fitness value, its pairs keep their population order (Python's stable sort, also when reversed) |
| Selection.Sample | wordEvolution.py:100 | `random.sample` returns exactly k picks |
| Selection.EveryPickDrawn | wordEvolution.py:100 | every pair of the pool can be the first pick of `random.sample` |
| Selection.SampleFromPool | wordEvolution.py:100 | the sample is a sub-multiset of the pool: picks are without replacement |
| Selection.Breeders | wordEvolution.py:99-102 | `fittest + luckiest` has min(FIT_BREEDERS, number of pairs) + RANDOM_BREEDERS elements |
| Selection.BreedersShape | wordEvolution.py:99-102 | the breeders are the first min(FIT_BREEDERS, n) sorted pairs followed by a sample of RANDOM_BREEDERS from the sorted pairs after them |
| Selection.BreedersFromPopulation | wordEvolution.py:90-102 | the breeders are a sub-multiset of the (individual, fitness) pairs: no pair is picked more often than it occurs |
| Selection.BreedersFittestFirst | wordEvolution.py:97-100 | each of the fittest block is at least as fit as every pair of the pool the sample is drawn from |
| Breeding.Individuals | wordEvolution.py:108-109 | one parent per breeder tuple |
| Breeding.Mutate | wordEvolution.py:113-116 | a mutated copy has its parent's length, and is lowercase when the parent is |
| Breeding.MutationDistance | wordEvolution.py:113-116 | MUTATIONS point mutations change at most MUTATIONS positions, since positions may repeat |
| Breeding.DrawCounts | wordEvolution.py:111-116 | breeding uses exactly two random calls per mutation of every child |
| Breeding.Brood | wordEvolution.py:112-118 | one parent gives exactly MUTATIONS_PER_BREEDER children |
| Breeding.BroodPrefix | wordEvolution.py:112-118 | the first c children of a longer brood are the brood of c children: later children never change earlier ones |
| Breeding.BroodWords | wordEvolution.py:112-118 | every child of a parent has the parent's length, and is lowercase when the parent is |
| Breeding.BroodDistance | wordEvolution.py:112-118 | every child differs from its parent in at most MUTATIONS positions |
| Breeding.OffspringExtend | wordEvolution.py:111-118 | the children of the first b+1 parents are those of the first b followed by parent b's brood |
| Breeding.Offspring | wordEvolution.py:111-118 | `generate_children` returns exactly len(breeders) · MUTATIONS_PER_BREEDER children |
| Breeding.OffspringGroup | wordEvolution.py:111-118 | the children are grouped consecutively per parent, in breeder order: block b is parent b's brood |
| Breeding.ChildNearParent | wordEvolution.py:111-118 | child i of parent b is at position b·MUTATIONS_PER_BREEDER + i, has the parent's length and is within MUTATIONS of it |
| Breeding.OffspringWords | wordEvolution.py:104-120 | all children have the parents' length, and are lowercase words when the parents are |
| Evolution.DrawWord | wordEvolution.py:64-66 | the guess loop builds exactly the word the draws describe |
| Evolution.GeneratePopulation | wordEvolution.py:60-69 | POP_SIZE guesses of WORD_LENGTH lowercase letters, using POP_SIZE · WORD_LENGTH draws |
| Evolution.CheckFitness | wordEvolution.py:71-79 | the counting loop gives the match count, at most len(GOAL), and len(GOAL) iff the individual is the goal |
| Evolution.ScoresPerfect | wordEvolution.py:81-88 | every score is at most len(GOAL), and a perfect score is in the fitness list iff the goal is in the population |
| Evolution.Scores | wordEvolution.py:81-88 | one score per individual, each at most len(GOAL) |
| Evolution.CheckPopulationFitness | wordEvolution.py:81-88 | the fitness list is parallel to the population, one score per individual |
| Evolution.BreederSelection | wordEvolution.py:90-102 | the selection is refused (`SampleSizeInvalid`) exactly when `random.sample` cannot draw RANDOM_BREEDERS from the pairs after the fittest; an accepted selection has min(FIT_BREEDERS, n) + RANDOM_BREEDERS breeders |
| Evolution.SelectBreeders | wordEvolution.py:90-102 | the pairing, sort, slice and sample loop gives the specified breeders, or the sample error when RANDOM_BREEDERS is negative or exceeds the pairs left; the breeders come from the population |
| Evolution.BreedersAreWords | wordEvolution.py:90-102 | breeders of a population of lowercase words of one length are such words |
| Evolution.MutatedChild | wordEvolution.py:113-118 | the in-place `temp_list` writes give exactly the specified mutated copy, using two draws per mutation |
| Evolution.BreedChildren | wordEvolution.py:112-118 | the inner loop gives exactly one parent's brood |
| Evolution.ParentsOf | wordEvolution.py:105-109 | the first loop collects the individual of each breeder tuple, in order |
| Evolution.GenerateChildren | wordEvolution.py:104-120 | the nested loops give exactly the specified offspring: len(breeders) · MUTATIONS_PER_BREEDER children of the goal's length |
| Evolution.GenerationSize | wordEvolution.py:21 | with 0 < NUM_OF_BREEDERS ≤ POP_SIZE, NUM_OF_BREEDERS · int(POP_SIZE / NUM_OF_BREEDERS) lies between NUM_OF_BREEDERS and POP_SIZE |
| Evolution.Logged | wordEvolution.py:126 | with logging on, exactly one entry is appended and the earlier entries are kept |
| Evolution.Conclude | wordEvolution.py:129-131 | the generation's population and fitness are the scored children |
| Evolution.ConcludeGeneration | wordEvolution.py:129-148 | the completion check and `log_final_generation` give the specified end of the generation |
| Evolution.BredWords | wordEvolution.py:122-125 | a generation of lowercase goal-length words again gives such words |
| Evolution.StepLog | wordEvolution.py:126-148 | the log grows by one entry `'generation N'` per generation, by two on completion (the second under N+1 with the re-selected breeders), and the final re-selection is the only step that can fail |
| Evolution.BredSize | wordEvolution.py:122-125 | with FIT_BREEDERS ≤ NUM_OF_BREEDERS ≤ POP_SIZE, NUM_OF_BREEDERS breeders are selected and the population becomes NUM_OF_BREEDERS · (POP_SIZE div NUM_OF_BREEDERS), between NUM_OF_BREEDERS and POP_SIZE |
| Evolution.StepPopulation | wordEvolution.py:122-131 | after a step the population is again lowercase goal-length words, the fitness scores it, and a perfect score is present iff the goal is |
| Evolution.GenerationSucceeds | wordEvolution.py:122-131 | with FIT_BREEDERS ≤ NUM_OF_BREEDERS ≤ POP_SIZE, no selection of the step is refused and the next population is big enough to select from again |
| Evolution.AdvanceGeneration | wordEvolution.py:122-131 | a refused selection is reported; otherwise the result is a step of the relation, made of lowercase goal-length words with its fitness list |
| Evolution.WordEvolution.constructor | wordEvolution.py:13-33 | derives WORD_LENGTH, MUTATIONS_PER_BREEDER and RANDOM_BREEDERS, draws and scores the first population, generation 1, not complete |
| Evolution.WordEvolution.AdvanceOneGeneration | wordEvolution.py:122-131 | a refused selection changes nothing; otherwise generation + 1, `complete` set iff the goal is in the new population, and the fields follow the step relation |
| Evolution.WordEvolution.Evolve | wordEvolution.py:133-137 | returns only when complete, with the generation counter; a run that starts incomplete takes at least one step, so it reports at least 2 generations |
| Password.MutatedCopy | pswd.py:78-82 | the in-place write to a copy of the breeder is exactly one point mutation |
| Password.MutatedCopies | pswd.py:77-82 | one parent's MUTATIONS_PER_BREEDER single-mutation children |
| Password.GenerateChildren | pswd.py:69-84 | exactly the offspring with one mutation per child (the MUTATIONS field is not read): len(breeders) · 10 children of length 8 |
| Password.AdvancePopulation | pswd.py:86-95 | one generation step of the relation with one mutation per child |
| Password.PasswordEvolution.constructor | pswd.py:5-23 | goal `buzzword`, WORD_LENGTH 8, MUTATIONS_PER_BREEDER 10, RANDOM_BREEDERS 2, and 100 random lowercase words of length 8, scored |
| Password.PasswordEvolution.AdvanceOneGeneration | pswd.py:86-95 | generation + 1, `complete` iff the goal is in the population, the step relation, and the 100-word invariant kept (no selection is ever refused) |
| Password.PasswordEvolution.Evolve | pswd.py:97-101 | returns only once complete, with the generation counter; the only failure is the model's fuel running out |
| Batch.GenerateConfig | wordEvolution.py:182-183 | the configuration carries the goal, the population size and the mutation count, with logging off |
| Batch.BreederCount | wordEvolution.py:183 | `int(survival_rate * pop_size)` is survival_rate · pop_size rounded down: the largest count not exceeding it |
| Batch.FitBreederCount | wordEvolution.py:183 | `int(survival_rate * pop_size * fittest_selection_rate)` is the product of both rates and pop_size rounded down |
| Batch.ConfigFits | wordEvolution.py:183 | with rates at most 1, fit_breeders ≤ num_of_breeders ≤ population_size, so a generated configuration never makes `random.sample` fail |
| Batch.SumGenerations | wordEvolution.py:193-196 | the total is at least the generation count of every single run |
| Batch.SumBounds | wordEvolution.py:194-196 | the generations total of n runs lies between n times the fewest and n times the most generations |
| Batch.SumFromAtLeast | wordEvolution.py:193-196 | runs from a position on of at least lo generations each add at least lo apiece to the total, whatever the runs before them |
| Batch.AverageGenerations | wordEvolution.py:192-199 | the accumulator loop gives the total divided by `iterations` (not by the number of results), truncated |
| Batch.AverageBounds | wordEvolution.py:192-199 | with one result per iteration the average lies between the fewest and the most generations of any run |
| Batch.RangeValues | wordEvolution.py:202 | `range(init, final, delta)` only visits values from init towards final, short of final |
| Batch.Sweep | wordEvolution.py:201-208 | the swept values end with `final` itself |
| Batch.RangeValuesSteps | wordEvolution.py:202 | the k-th value is init + k·delta, short of final, and the range stops at the first value that is not |
| Batch.SweepMonotone | wordEvolution.py:201-208 | the sweep is strictly monotone, so `final` appears once even when it falls on a step |
| Batch.GenerateGoalWord | wordEvolution.py:175-180 | a random lowercase word of LENGTH letters |
| Batch.RunExperiment | wordEvolution.py:170-173 | no breeders is a division by zero and nothing else is; a converged run reports at least 2 generations |
| Batch.EvolutionBatch.constructor | wordEvolution.py:155-168 | 100 iterations, goals of 16 letters, 100 words, one mutation, rates 0.1 and 0.8, nothing gathered or logged |
| Batch.EvolutionBatch.Summary | wordEvolution.py:192-199 | the report's average is the truncated total over `iterations` |
| Batch.EvolutionBatch.AnalyzeResults | wordEvolution.py:192-199 | `analyze_results` gives the summary of the gathered results |
| Batch.EvolutionBatch.RunExperimentBatch | wordEvolution.py:185-190 | appends exactly `iterations` results of at least 2 generations each, keeping the earlier ones, and returns their summary; too small a population fails with no breeders, otherwise a run fails only when out of fuel |
| Batch.EvolutionBatch.LogResult | wordEvolution.py:231-236 | appends exactly one report to the log and empties the results |
| Batch.EvolutionBatch.RunAndLog | wordEvolution.py:204-205 | runs one batch and logs exactly one report: the average over the results just gathered (at least 2), with the current iterations, length, population size, mutation count and breeder counts; then empties the results |
| Batch.EvolutionBatch.VaryPopSize | wordEvolution.py:201-208 | a zero step is refused; otherwise one report per value of the sweep, in order, each for that population size and the unchanged mutation count, over `iterations` runs, averaging at least 2 generations, ending with `final` |
| Batch.EvolutionBatch.VaryMutations | wordEvolution.py:210-217 | a zero step is refused; otherwise one report per value of the sweep, in order, each for that mutation count and the unchanged population size, over `iterations` runs, averaging at least 2 generations, ending with `final` |

## Left out

- File and JSON I/O are not modelled: `load_file_config`, the `json.dump` calls in `log_generation_stats` and `log_result`, and the log file paths. Only the in-memory `log_data` and `log_values` lists are modelled. The `file_name` path of `WordEvolution.__init__` calls `self.load_config`, which does not exist (wordEvolution.py:15 against :35); the model takes the configuration as a value.
- Wall-clock time is not modelled: `START_TIME`, `execution_time` and `avg_execution_time` are nondeterministic floats. `RunStats` keeps the generation count only.
- Randomness: the model does not reproduce how CPython's `random` turns its internal state into answers. Each call is one raw value of an input stream, reduced into the requested range, so every possible answer is covered. A draw past the end of the stream reads as 0.
- Evolution.WordEvolution.Evolve, Password.PasswordEvolution.Evolve: the source loops until convergence with no bound. The model runs at most `fuel` generations and reports `OutOfFuel` when they are used up, so termination of the search is not claimed.
- Evolution.WordEvolution.constructor: requires a nonempty goal and at least one breeder. The source fails there with a division by zero: `NUM_OF_BREEDERS` in `MUTATIONS_PER_BREEDER` always, and `len(GOAL)` in `check_fitness` whenever POP_SIZE > 0 (with no individuals to score, an empty goal goes through). Batch.RunExperiment models the `NUM_OF_BREEDERS` case as the error `ZeroBreeders`.
- Batch.RunExperiment: requires a nonempty goal. The batch always generates goals of LENGTH 16.
- Password.AdvancePopulation: requires that `random.sample` accepts the selection. With the fixed settings of `PasswordEvolution` it always does, and its constructor and step prove this.
- Float rates are not modelled. `survival_rate` and `fittest_selection_rate` are kept as exact fractions (`Batch.Rate`), and `int(rate * pop_size)` as truncated exact division. For the rates 0.1 and 0.8 and the population sizes the batch sweeps, the float products truncate to the same integers.
- `vary_survival_rate` and `vary_fittest_selection_rate` are not modelled: they step float rates with numpy `linspace`.
- Batch.EvolutionBatch.VaryPopSize, Batch.EvolutionBatch.VaryMutations: the start and end values are natural numbers, so every visited value is a valid population size or mutation count. The source calls the module-global `batch` instead of `self` (wordEvolution.py:204); the model acts on the receiver, which is what the script's only use amounts to.
- The `__init__` of neither `WordEvolution` nor `PasswordEvolution` sets `self.breeders`; every generation sets it before it is read. The model starts it as the empty list in both classes.
- Selection: a selection that the source's `random.sample` refuses (a negative or too large RANDOM_BREEDERS) is the error `SampleSizeInvalid`; the source raises `ValueError`.
- The Django front end (`darwin_interface`) is not part of this model: it holds only a database schema and page rendering.
