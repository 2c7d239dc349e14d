/** The in-memory run log: one entry per logged generation, keyed by the
    label 'generation ' + str(N) and holding that generation's breeders. */
module RunLog {
  import opened Genome

  datatype LogEntry = LogEntry(key: string, breeders: seq<Scored>)

  const Prefix: string := "generation "

  function Digit(d: nat): char
    requires d < 10
  {
    ('0' as int + d) as char
  }

  function DigitValue(c: char): int {
    c as int - '0' as int
  }

  /** str(n) for a natural number: its decimal digits, most significant first. */
  function Decimal(n: nat): (s: string)
    ensures |s| > 0
    ensures forall i :: 0 <= i < |s| ==> '0' <= s[i] <= '9'
    decreases n
  {
    if n < 10 then [Digit(n)] else Decimal(n / 10) + [Digit(n % 10)]
  }

  /** int(s) for a string of decimal digits. */
  function ParseDecimal(s: string): int {
    if s == [] then 0 else ParseDecimal(s[..|s| - 1]) * 10 + DigitValue(s[|s| - 1])
  }

  /** Reading back the digits of str(n) gives n. */
  lemma {:induction false} DecimalRoundTrip(n: nat)
    ensures ParseDecimal(Decimal(n)) == n
  {
    var s := Decimal(n);
    if n >= 10 {
      DecimalRoundTrip(n / 10);
      assert s[..|s| - 1] == Decimal(n / 10);
    }
  }

  /** The key under which log_generation_stats records generation n. */
  function GenerationLabel(n: nat): string {
    Prefix + Decimal(n)
  }

  /** Distinct generations are logged under distinct keys. */
  lemma GenerationLabelsDistinct(n: nat, m: nat)
    requires n != m
    ensures GenerationLabel(n) != GenerationLabel(m)
  {
    if GenerationLabel(n) == GenerationLabel(m) {
      assert Decimal(n) == GenerationLabel(n)[|Prefix|..];
      assert Decimal(m) == GenerationLabel(m)[|Prefix|..];
      DecimalRoundTrip(n);
      DecimalRoundTrip(m);
    }
  }

  /** The entry log_generation_stats appends for generation n. */
  function GenerationEntry(n: nat, breeders: seq<Scored>): (e: LogEntry)
    ensures e.breeders == breeders
    ensures |e.key| > |Prefix| && e.key[..|Prefix|] == Prefix && ParseDecimal(e.key[|Prefix|..]) == n
  {
    DecimalRoundTrip(n);
    LogEntry(GenerationLabel(n), breeders)
  }
}
