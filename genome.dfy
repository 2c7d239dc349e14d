/** Candidate strings: the letters they are drawn from, how a random word is
    drawn, and how a candidate is scored against the goal. */
module Genome {

  /** len(string.ascii_lowercase): the letters 'a' to 'z'. */
  const AlphabetSize: nat := 26

  /** The random source, as the raw values handed out by successive calls
      into `random`: every call consumes one raw value and reduces it into
      the range it asks for, so any outcome of the call is some raw value.
      A run makes finitely many calls, so any run is described by a long
      enough stream; a draw past the end of the stream reads as 0. */
  type Rng = seq<nat>

  /** The raw value handed out by the k-th call into `random`. */
  function Raw(rng: Rng, k: nat): nat {
    if k < |rng| then rng[k] else 0
  }

  /** An individual paired with its fitness: the tuple (individual, fit_score).
      Fitness is kept as the number of positions that match the goal; the
      source's float is that number divided by len(GOAL). */
  datatype Scored = Scored(individual: string, fitness: nat)

  /** random.choice(string.ascii_lowercase) answered by the raw value x. */
  function Letter(x: nat): (c: char)
    ensures IsLowercaseLetter(c)
  {
    ('a' as int + x % AlphabetSize) as char
  }

  /** Membership in string.ascii_lowercase. */
  predicate IsLowercaseLetter(c: char) {
    'a' <= c <= 'z'
  }

  predicate IsLowercase(s: string) {
    forall i :: 0 <= i < |s| ==> IsLowercaseLetter(s[i])
  }

  /** Every word has the given length. */
  predicate OfLength(ws: seq<string>, length: nat) {
    forall i :: 0 <= i < |ws| ==> |ws[i]| == length
  }

  /** Every word has the given length and only lowercase letters. */
  predicate Words(ws: seq<string>, length: nat) {
    OfLength(ws, length) && forall i :: 0 <= i < |ws| ==> IsLowercase(ws[i])
  }

  /** The word built by `length` successive random.choice calls, starting at
      raw value `cursor`. */
  function RandomWord(rng: Rng, cursor: nat, length: nat): (w: string)
    ensures |w| == length && IsLowercase(w)
    ensures forall i :: 0 <= i < length ==> w[i] == Letter(Raw(rng, cursor + i))
  {
    if length == 0 then []
    else RandomWord(rng, cursor, length - 1) + [Letter(Raw(rng, cursor + length - 1))]
  }

  /** `count` random words of `length` letters each, drawn one after another. */
  function RandomWords(rng: Rng, cursor: nat, count: nat, length: nat): (ws: seq<string>)
    ensures |ws| == count && Words(ws, length)
    decreases count
  {
    if count == 0 then []
    else RandomWords(rng, cursor, count - 1, length) + [RandomWord(rng, cursor + (count - 1) * length, length)]
  }

  /** Every lowercase letter is the answer to some raw value: the one that is
      its offset from 'a'. */
  lemma EveryLetterDrawn(c: char)
    requires IsLowercaseLetter(c)
    ensures Letter(c as int - 'a' as int) == c
  {
  }

  /** The number of positions at which a and b hold the same character. */
  function Agreements(a: string, b: string): (count: nat)
    requires |a| == |b|
    ensures count <= |a|
  {
    if |a| == 0 then 0
    else Agreements(a[..|a| - 1], b[..|b| - 1]) + (if a[|a| - 1] == b[|b| - 1] then 1 else 0)
  }

  /** The Hamming distance: the number of positions at which a and b differ. */
  function Differences(a: string, b: string): nat
    requires |a| == |b|
  {
    if |a| == 0 then 0
    else Differences(a[..|a| - 1], b[..|b| - 1]) + (if a[|a| - 1] != b[|b| - 1] then 1 else 0)
  }

  /** Every position either agrees or differs. */
  lemma {:induction false} AgreementsComplement(a: string, b: string)
    requires |a| == |b|
    ensures Agreements(a, b) + Differences(a, b) == |a|
  {
    if |a| > 0 {
      AgreementsComplement(a[..|a| - 1], b[..|b| - 1]);
    }
  }

  /** The Hamming distance is zero exactly for equal strings. */
  lemma {:induction false} DifferencesZero(a: string, b: string)
    requires |a| == |b|
    ensures Differences(a, b) == 0 <==> a == b
  {
    if |a| > 0 {
      var n := |a| - 1;
      DifferencesZero(a[..n], b[..n]);
      assert a == a[..n] + [a[n]];
      assert b == b[..n] + [b[n]];
    }
  }

  /** The match count never exceeds the goal's length, and reaches it exactly
      when the candidate is the goal (fitness 1.0 iff equal). */
  lemma PerfectIffEqual(a: string, goal: string)
    requires |a| == |goal|
    ensures Agreements(a, goal) <= |goal|
    ensures Agreements(a, goal) == |goal| <==> a == goal
  {
    AgreementsComplement(a, goal);
    DifferencesZero(a, goal);
  }

  /** Overwriting one position moves a string at most one step further from p. */
  lemma {:induction false} DifferencesUpdate(s: string, p: string, i: nat, c: char)
    requires |s| == |p| && i < |s|
    ensures Differences(s[i := c], p) <= Differences(s, p) + 1
  {
    var n := |s| - 1;
    var t := s[i := c];
    assert t[..n] == if i == n then s[..n] else s[..n][i := c];
    if i < n {
      DifferencesUpdate(s[..n], p[..n], i, c);
    }
  }
}
