/** Breeder selection: pair each individual with its fitness, sort the pairs
    by descending fitness (stably), keep the fittest block and draw the rest
    at random, without replacement, from what is left. */
module Selection {
  import opened Genome

  function Min(a: nat, b: nat): nat {
    if a <= b then a else b
  }

  /** zip(population, fitness): pairs up to the shorter of the two lists. */
  function Zip(population: seq<string>, fitness: seq<nat>): (pairs: seq<Scored>)
    ensures |pairs| == Min(|population|, |fitness|)
    ensures forall i :: 0 <= i < |pairs| ==> pairs[i].individual == population[i] && pairs[i].fitness == fitness[i]
  {
    seq(Min(|population|, |fitness|),
        i requires 0 <= i < Min(|population|, |fitness|) => Scored(population[i], fitness[i]))
  }

  predicate Descending(s: seq<Scored>) {
    forall i, j :: 0 <= i < j < |s| ==> s[i].fitness >= s[j].fitness
  }

  predicate AtMost(s: seq<Scored>, bound: nat) {
    forall i :: 0 <= i < |s| ==> s[i].fitness <= bound
  }

  /** The pairs of s whose fitness is v, in the order s has them. */
  function WithFitness(s: seq<Scored>, v: nat): seq<Scored> {
    if s == [] then []
    else (if s[0].fitness == v then [s[0]] else []) + WithFitness(s[1..], v)
  }

  /** Places x in front of the first element of s that is no fitter than x. */
  function InsertByFitness(x: Scored, s: seq<Scored>): (r: seq<Scored>)
    ensures |r| == |s| + 1
  {
    if s == [] || x.fitness >= s[0].fitness then [x] + s
    else [s[0]] + InsertByFitness(x, s[1..])
  }

  /** sorted(pairs, key=itemgetter(1), reverse=True): pairs by descending
      fitness; Python's sort keeps equally fit pairs in their original order
      even when reversed. */
  function SortByFitness(s: seq<Scored>): (sorted: seq<Scored>)
    ensures |sorted| == |s|
  {
    if s == [] then [] else InsertByFitness(s[0], SortByFitness(s[1..]))
  }

  lemma {:induction false} InsertPermutes(x: Scored, s: seq<Scored>)
    ensures multiset(InsertByFitness(x, s)) == multiset(s) + multiset{x}
  {
    if s != [] && x.fitness < s[0].fitness {
      InsertPermutes(x, s[1..]);
      assert s == [s[0]] + s[1..];
    }
  }

  lemma {:induction false} InsertAtMost(x: Scored, s: seq<Scored>, bound: nat)
    requires AtMost(s, bound) && x.fitness <= bound
    ensures AtMost(InsertByFitness(x, s), bound)
  {
    if s != [] && x.fitness < s[0].fitness {
      InsertAtMost(x, s[1..], bound);
    }
  }

  lemma {:induction false} InsertDescending(x: Scored, s: seq<Scored>)
    requires Descending(s)
    ensures Descending(InsertByFitness(x, s))
  {
    if s != [] && x.fitness < s[0].fitness {
      InsertDescending(x, s[1..]);
      InsertAtMost(x, s[1..], s[0].fitness);
    }
  }

  lemma {:induction false} InsertKeepsTies(x: Scored, s: seq<Scored>, v: nat)
    ensures WithFitness(InsertByFitness(x, s), v)
         == (if x.fitness == v then [x] else []) + WithFitness(s, v)
  {
    if s != [] && x.fitness < s[0].fitness {
      InsertKeepsTies(x, s[1..], v);
      var r := InsertByFitness(x, s);
      assert r[0] == s[0] && r[1..] == InsertByFitness(x, s[1..]);
    } else {
      assert ([x] + s)[1..] == s;
    }
  }

  /** The sorted pairs are the same pairs, each as often. */
  lemma {:induction false} SortPermutes(s: seq<Scored>)
    ensures multiset(SortByFitness(s)) == multiset(s)
  {
    if s != [] {
      SortPermutes(s[1..]);
      InsertPermutes(s[0], SortByFitness(s[1..]));
      assert s == [s[0]] + s[1..];
    }
  }

  /** The sorted pairs run from the fittest to the least fit. */
  lemma {:induction false} SortDescends(s: seq<Scored>)
    ensures Descending(SortByFitness(s))
  {
    if s != [] {
      SortDescends(s[1..]);
      InsertDescending(s[0], SortByFitness(s[1..]));
    }
  }

  /** The sort is stable: pairs of equal fitness keep their population order. */
  lemma {:induction false} SortIsStable(s: seq<Scored>, v: nat)
    ensures WithFitness(SortByFitness(s), v) == WithFitness(s, v)
  {
    if s != [] {
      SortIsStable(s[1..], v);
      InsertKeepsTies(s[0], SortByFitness(s[1..]), v);
    }
  }

  function Remove(pool: seq<Scored>, i: nat): seq<Scored>
    requires i < |pool|
  {
    pool[..i] + pool[i + 1..]
  }

  /** random.sample(pool, k): k picks without replacement; the j-th pick is
      the raw value at cursor + j reduced to an index into what is left. */
  function Sample(pool: seq<Scored>, rng: Rng, cursor: nat, k: nat): (r: seq<Scored>)
    requires k <= |pool|
    ensures |r| == k
    decreases k
  {
    if k == 0 then []
    else
      var i := Raw(rng, cursor) % |pool|;
      [pool[i]] + Sample(Remove(pool, i), rng, cursor + 1, k - 1)
  }

  /** Every pair of the pool can be the first pick: the raw value i picks
      pool[i]. */
  lemma EveryPickDrawn(pool: seq<Scored>, cursor: nat, k: nat, i: nat)
    requires 0 < k <= |pool| && i < |pool|
    ensures exists rng: Rng :: Sample(pool, rng, cursor, k)[0] == pool[i]
  {
    var rng: Rng := seq(cursor + 1, _ => i);
    assert Raw(rng, cursor) % |pool| == i;
    assert Sample(pool, rng, cursor, k)[0] == pool[i];
  }

  /** No pair of the pool is drawn more often than the pool holds it. */
  lemma {:induction false} SampleFromPool(pool: seq<Scored>, rng: Rng, cursor: nat, k: nat)
    requires k <= |pool|
    ensures multiset(Sample(pool, rng, cursor, k)) <= multiset(pool)
    decreases k
  {
    if k > 0 {
      var i := Raw(rng, cursor) % |pool|;
      SampleFromPool(Remove(pool, i), rng, cursor + 1, k - 1);
      assert pool == pool[..i] + [pool[i]] + pool[i + 1..];
    }
  }

  /** Size of pop_fit_pair[FIT_BREEDERS:] for n pairs. */
  function PoolSize(n: nat, fitBreeders: nat): nat {
    n - Min(fitBreeders, n)
  }

  /** random.sample accepts the requested count: neither negative nor larger
      than the pool. */
  predicate SampleFits(n: nat, fitBreeders: nat, randomBreeders: int) {
    0 <= randomBreeders <= PoolSize(n, fitBreeders)
  }

  /** fittest + luckiest: the first FIT_BREEDERS sorted pairs, then the sample. */
  function Breeders(pairs: seq<Scored>, fitBreeders: nat, randomBreeders: nat, rng: Rng, cursor: nat): (r: seq<Scored>)
    requires randomBreeders <= PoolSize(|pairs|, fitBreeders)
    ensures |r| == Min(fitBreeders, |pairs|) + randomBreeders
  {
    var sorted := SortByFitness(pairs);
    var f := Min(fitBreeders, |pairs|);
    sorted[..f] + Sample(sorted[f..], rng, cursor, randomBreeders)
  }

  /** The breeders number FIT_BREEDERS (capped by the pairs available) plus
      RANDOM_BREEDERS: the first block is the head of the sorted pairs, the
      rest the sample drawn from the sorted pairs after it. */
  lemma BreedersShape(pairs: seq<Scored>, fitBreeders: nat, randomBreeders: nat, rng: Rng, cursor: nat)
    requires randomBreeders <= PoolSize(|pairs|, fitBreeders)
    ensures var r := Breeders(pairs, fitBreeders, randomBreeders, rng, cursor);
            var f := Min(fitBreeders, |pairs|);
            var sorted := SortByFitness(pairs);
            && |sorted| == |pairs|
            && |r| == f + randomBreeders
            && r[..f] == sorted[..f]
            && r[f..] == Sample(sorted[f..], rng, cursor, randomBreeders)
  {
    SortPermutes(pairs);
    var sorted := SortByFitness(pairs);
    var f := Min(fitBreeders, |pairs|);
    var r := Breeders(pairs, fitBreeders, randomBreeders, rng, cursor);
    var luckiest := Sample(sorted[f..], rng, cursor, randomBreeders);
    assert r == sorted[..f] + luckiest;
  }

  /** The breeders are pairs of the population, none taken more often than it
      occurs there. */
  lemma BreedersFromPopulation(pairs: seq<Scored>, fitBreeders: nat, randomBreeders: nat, rng: Rng, cursor: nat)
    requires randomBreeders <= PoolSize(|pairs|, fitBreeders)
    ensures var r := Breeders(pairs, fitBreeders, randomBreeders, rng, cursor);
            && multiset(r) <= multiset(pairs)
            && (forall p :: p in r ==> p in pairs)
  {
    SortPermutes(pairs);
    var sorted := SortByFitness(pairs);
    var f := Min(fitBreeders, |pairs|);
    var fittest, pool := sorted[..f], sorted[f..];
    var luckiest := Sample(pool, rng, cursor, randomBreeders);
    var r := Breeders(pairs, fitBreeders, randomBreeders, rng, cursor);
    assert r == fittest + luckiest;
    SampleFromPool(pool, rng, cursor, randomBreeders);
    assert sorted == fittest + pool;
    assert multiset(sorted) == multiset(fittest) + multiset(pool);
    assert multiset(r) == multiset(fittest) + multiset(luckiest);
    forall p | p in r ensures p in pairs {
      assert p in multiset(r);
    }
  }

  /** Each of the fittest block is at least as fit as every pair the random
      sample is drawn from. */
  lemma BreedersFittestFirst(pairs: seq<Scored>, fitBreeders: nat, randomBreeders: nat, rng: Rng, cursor: nat)
    requires randomBreeders <= PoolSize(|pairs|, fitBreeders)
    ensures var r := Breeders(pairs, fitBreeders, randomBreeders, rng, cursor);
            var sorted := SortByFitness(pairs);
            && |sorted| == |pairs|
            && (forall i, j :: 0 <= i < Min(fitBreeders, |pairs|) <= j < |pairs| ==> r[i].fitness >= sorted[j].fitness)
  {
    SortPermutes(pairs);
    SortDescends(pairs);
    BreedersShape(pairs, fitBreeders, randomBreeders, rng, cursor);
    var r := Breeders(pairs, fitBreeders, randomBreeders, rng, cursor);
    var sorted := SortByFitness(pairs);
    forall i, j | 0 <= i < Min(fitBreeders, |pairs|) <= j < |pairs| ensures r[i].fitness >= sorted[j].fitness {
      assert r[i] == r[..Min(fitBreeders, |pairs|)][i];
    }
  }
}
