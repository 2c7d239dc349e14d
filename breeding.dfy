/** Breeding: every breeder gives MUTATIONS_PER_BREEDER children, each a copy
    of the breeder with point mutations applied. Positions are drawn with
    replacement, so a later mutation may overwrite an earlier one. */
module Breeding {
  import opened Genome

  /** The parents list: the individual of each breeder tuple, in order. */
  function Individuals(breeders: seq<Scored>): (parents: seq<string>)
    ensures |parents| == |breeders|
  {
    seq(|breeders|, i requires 0 <= i < |breeders| => breeders[i].individual)
  }

  /** A copy of p after m point mutations. Mutation j overwrites the position
      given by the raw value at cursor + 2j (random.randint(0, WORD_LENGTH - 1))
      with the letter given by the raw value after it (random.choice). */
  function Mutate(p: string, rng: Rng, cursor: nat, m: nat): (child: string)
    requires |p| > 0
    ensures |child| == |p|
    ensures IsLowercase(p) ==> IsLowercase(child)
  {
    if m == 0 then p
    else
      var prev := Mutate(p, rng, cursor, m - 1);
      prev[Raw(rng, cursor + 2 * (m - 1)) % |p| := Letter(Raw(rng, cursor + 2 * (m - 1) + 1))]
  }

  /** m point mutations change at most m positions. */
  lemma {:induction false} MutationDistance(p: string, rng: Rng, cursor: nat, m: nat)
    requires |p| > 0
    ensures Differences(Mutate(p, rng, cursor, m), p) <= m
  {
    if m == 0 {
      DifferencesZero(p, p);
    } else {
      var prev := Mutate(p, rng, cursor, m - 1);
      MutationDistance(p, rng, cursor, m - 1);
      DifferencesUpdate(prev, p, Raw(rng, cursor + 2 * (m - 1)) % |p|, Letter(Raw(rng, cursor + 2 * (m - 1) + 1)));
    }
  }

  /** Raw values consumed by `count` children of m mutations each: two per
      mutation, child after child. */
  function BroodDraws(count: nat, m: nat): nat {
    if count == 0 then 0 else BroodDraws(count - 1, m) + 2 * m
  }

  /** Raw values consumed by the children of `parents` breeders, breeder after
      breeder. */
  function OffspringDraws(parents: nat, count: nat, m: nat): nat {
    if parents == 0 then 0 else OffspringDraws(parents - 1, count, m) + BroodDraws(count, m)
  }

  /** The draws add up to two raw values per mutation of every child. */
  lemma {:induction false} DrawCounts(parents: nat, count: nat, m: nat)
    ensures BroodDraws(count, m) == count * (2 * m)
    ensures OffspringDraws(parents, count, m) == parents * (count * (2 * m))
  {
    if count > 0 {
      DrawCounts(0, count - 1, m);
      MulSucc(count - 1, 2 * m);
    }
    if parents > 0 {
      DrawCounts(parents - 1, count, m);
      MulSucc(parents - 1, count * (2 * m));
    }
  }

  /** The `count` children of one parent, drawn one after another. */
  function Brood(p: string, rng: Rng, cursor: nat, count: nat, m: nat): (children: seq<string>)
    requires |p| > 0
    ensures |children| == count
    decreases count
  {
    if count == 0 then []
    else Brood(p, rng, cursor, count - 1, m) + [Mutate(p, rng, cursor + BroodDraws(count - 1, m), m)]
  }

  /** Children are appended one after another: the first c children of a
      larger brood are the brood of c children. */
  lemma {:induction false} BroodPrefix(p: string, rng: Rng, cursor: nat, c: nat, k: nat, m: nat)
    requires |p| > 0 && c <= k
    ensures Brood(p, rng, cursor, k, m)[..c] == Brood(p, rng, cursor, c, m)
    decreases k
  {
    if c < k {
      BroodPrefix(p, rng, cursor, c, k - 1, m);
      var prev := Brood(p, rng, cursor, k - 1, m);
      assert Brood(p, rng, cursor, k, m)[..c] == prev[..c];
    }
  }

  /** Every child has the parent's length, and its letters when they are
      lowercase. */
  lemma {:induction false} BroodWords(p: string, rng: Rng, cursor: nat, count: nat, m: nat)
    requires |p| > 0
    ensures forall i :: 0 <= i < count ==> |Brood(p, rng, cursor, count, m)[i]| == |p|
    ensures IsLowercase(p) ==> forall i :: 0 <= i < count ==> IsLowercase(Brood(p, rng, cursor, count, m)[i])
    decreases count
  {
    if count > 0 {
      var n := count - 1;
      BroodWords(p, rng, cursor, n, m);
      var prev := Brood(p, rng, cursor, n, m);
      var child := Mutate(p, rng, cursor + BroodDraws(n, m), m);
      var children := Brood(p, rng, cursor, count, m);
      assert children == prev + [child];
      forall i | 0 <= i < count
        ensures |children[i]| == |p| && (IsLowercase(p) ==> IsLowercase(children[i]))
      {
        if i < n {
          assert children[i] == prev[i];
        }
      }
    }
  }

  /** Every child differs from its parent in at most m positions. */
  lemma {:induction false} BroodDistance(p: string, rng: Rng, cursor: nat, count: nat, m: nat)
    requires |p| > 0
    ensures forall i :: 0 <= i < count ==>
              var child := Brood(p, rng, cursor, count, m)[i];
              |child| == |p| && Differences(child, p) <= m
    decreases count
  {
    BroodWords(p, rng, cursor, count, m);
    if count > 0 {
      BroodDistance(p, rng, cursor, count - 1, m);
      MutationDistance(p, rng, cursor + BroodDraws(count - 1, m), m);
    }
  }

  predicate NonEmptyWords(parents: seq<string>) {
    forall i :: 0 <= i < |parents| ==> |parents[i]| > 0
  }

  /** The children of all parents: each parent's brood, in parent order. */
  function Offspring(parents: seq<string>, rng: Rng, cursor: nat, count: nat, m: nat): (children: seq<string>)
    requires NonEmptyWords(parents)
    ensures |children| == |parents| * count
    decreases |parents|
  {
    if parents == [] then []
    else
      var n := |parents| - 1;
      MulSucc(n, count);
      Offspring(parents[..n], rng, cursor, count, m) + Brood(parents[n], rng, cursor + OffspringDraws(n, count, m), count, m)
  }

  /** The children of the first b + 1 parents are those of the first b,
      followed by the brood of parent b. */
  lemma OffspringExtend(parents: seq<string>, rng: Rng, cursor: nat, count: nat, m: nat, b: nat)
    requires NonEmptyWords(parents) && b < |parents|
    ensures Offspring(parents[..b + 1], rng, cursor, count, m)
         == Offspring(parents[..b], rng, cursor, count, m)
            + Brood(parents[b], rng, cursor + OffspringDraws(b, count, m), count, m)
  {
    assert parents[..b + 1][..b] == parents[..b];
  }

  lemma MulSucc(a: nat, b: nat)
    ensures (a + 1) * b == a * b + b
  {
  }

  lemma MulMonotone(a: nat, c: nat, b: nat)
    requires a <= c
    ensures a * b <= c * b
  {
  }

  /** The children are grouped consecutively per parent, in parent order:
      the count children from position lo = b * count on are the brood of
      parent b, drawn from raw value c = cursor + OffspringDraws(b, count, m). */
  lemma {:induction false} OffspringGroup(parents: seq<string>, rng: Rng, cursor: nat, count: nat, m: nat,
                                          b: nat, lo: nat, c: nat)
    requires NonEmptyWords(parents) && b < |parents|
    requires lo == b * count && c == cursor + OffspringDraws(b, count, m)
    ensures lo + count <= |Offspring(parents, rng, cursor, count, m)|
    ensures Offspring(parents, rng, cursor, count, m)[lo .. lo + count] == Brood(parents[b], rng, c, count, m)
    decreases |parents|
  {
    var n := |parents| - 1;
    var init := Offspring(parents[..n], rng, cursor, count, m);
    var last := Brood(parents[n], rng, cursor + OffspringDraws(n, count, m), count, m);
    var whole := Offspring(parents, rng, cursor, count, m);
    assert whole == init + last;
    if b == n {
      assert whole[lo..lo + count] == last;
    } else {
      OffspringGroup(parents[..n], rng, cursor, count, m, b, lo, c);
      assert whole[lo..lo + count] == init[lo..lo + count];
    }
  }

  /** Child i of parent b sits at position lo + i, where lo = b * count; it
      has the parent's length and differs from it in at most m positions. */
  lemma ChildNearParent(parents: seq<string>, rng: Rng, cursor: nat, count: nat, m: nat, b: nat, lo: nat, i: nat)
    requires NonEmptyWords(parents) && b < |parents| && lo == b * count && i < count
    ensures lo + i < |Offspring(parents, rng, cursor, count, m)|
    ensures |Offspring(parents, rng, cursor, count, m)[lo + i]| == |parents[b]|
    ensures Differences(Offspring(parents, rng, cursor, count, m)[lo + i], parents[b]) <= m
  {
    var c := cursor + OffspringDraws(b, count, m);
    OffspringGroup(parents, rng, cursor, count, m, b, lo, c);
    BroodDistance(parents[b], rng, c, count, m);
    var whole := Offspring(parents, rng, cursor, count, m);
    var brood := Brood(parents[b], rng, c, count, m);
    assert whole[lo + i] == whole[lo .. lo + count][i] == brood[i];
  }

  /** Every child has its parents' length, and is lowercase when they are. */
  lemma {:induction false} OffspringWords(parents: seq<string>, rng: Rng, cursor: nat, count: nat, m: nat, length: nat)
    requires length > 0 && OfLength(parents, length)
    ensures NonEmptyWords(parents)
    ensures OfLength(Offspring(parents, rng, cursor, count, m), length)
    ensures Words(parents, length) ==> Words(Offspring(parents, rng, cursor, count, m), length)
    decreases |parents|
  {
    if parents != [] {
      var n := |parents| - 1;
      OffspringWords(parents[..n], rng, cursor, count, m, length);
      BroodWords(parents[n], rng, cursor + OffspringDraws(n, count, m), count, m);
      var init := Offspring(parents[..n], rng, cursor, count, m);
      var last := Brood(parents[n], rng, cursor + OffspringDraws(n, count, m), count, m);
      var whole := Offspring(parents, rng, cursor, count, m);
      assert whole == init + last;
      forall i | 0 <= i < |whole|
        ensures |whole[i]| == length && (Words(parents, length) ==> IsLowercase(whole[i]))
      {
        if i < |init| {
          assert whole[i] == init[i];
        } else {
          assert whole[i] == last[i - |init|];
        }
      }
    }
  }
}
